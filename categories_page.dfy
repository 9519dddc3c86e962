/**
 * The categories page: the catalogue of game categories, the search over
 * names and descriptions, the no-results condition and the two statistics.
 */
module CategoriesPage {
  import opened Text
  import opened Sequences

  datatype Category = Category(id: string, name: string, color: string, count: nat, description: string, icon: string)

  /** The page's fixed catalogue. */
  function Catalogue(): seq<Category> {
    [ Category("action", "Экшн", "bg-game-red", 127, "Динамичные игры с быстрым геймплеем", "Zap"),
      Category("adventure", "Приключения", "bg-game-coral", 89, "Увлекательные квесты и исследования", "Compass"),
      Category("strategy", "Стратегии", "bg-game-teal", 64, "Тактические игры на размышление", "Brain"),
      Category("rpg", "РПГ", "bg-game-blue", 43, "Ролевые игры с развитием персонажа", "Shield"),
      Category("racing", "Гонки", "bg-game-mint", 35, "Скоростные автомобильные симуляторы", "Car"),
      Category("sports", "Спорт", "bg-game-yellow", 28, "Футбол, баскетбол и другие виды спорта", "Trophy"),
      Category("puzzle", "Головоломки", "bg-game-purple", 52, "Логические игры и паззлы", "Puzzle"),
      Category("shooter", "Шутеры", "bg-game-dark", 73, "Игры в жанре первого и третьего лица", "Target"),
      Category("simulation", "Симуляторы", "bg-orange-500", 39, "Симуляция жизни и различных процессов", "Settings"),
      Category("horror", "Хоррор", "bg-gray-800", 24, "Игры ужасов и триллеры", "Ghost"),
      Category("indie", "Инди", "bg-emerald-500", 67, "Независимые игры от малых студий", "Lightbulb"),
      Category("mmo", "MMO", "bg-violet-500", 31, "Многопользовательские онлайн-игры", "Users") ]
  }

  /** The search predicate: the lower-cased name or description includes the lower-cased query. */
  predicate CategoryMatches(c: Category, query: string) {
    Contains(Lower(c.name), Lower(query)) || Contains(Lower(c.description), Lower(query))
  }

  function FilteredCategories(categories: seq<Category>, query: string): seq<Category> {
    Filter(categories, (c: Category) => CategoryMatches(c, query))
  }

  /** The no-results block. */
  predicate ShowsNoResults(categories: seq<Category>, query: string) {
    |FilteredCategories(categories, query)| == 0
  }

  /** The total-videos statistic: the sum of all counts. */
  function TotalCount(categories: seq<Category>): nat {
    if categories == [] then 0 else categories[0].count + TotalCount(categories[1..])
  }

  /** An empty query lists every category, in order. */
  lemma EmptyQueryListsAll(categories: seq<Category>)
    ensures FilteredCategories(categories, "") == categories
  {
    forall i | 0 <= i < |categories| ensures CategoryMatches(categories[i], "") {
      ContainsEmpty(Lower(categories[i].name));
    }
    FilterAllPass(categories, (c: Category) => CategoryMatches(c, ""));
  }

  /** A category is listed exactly when it is in the catalogue and matches; the list keeps catalogue order. */
  lemma FilterSoundCompleteOrdered(categories: seq<Category>, query: string, c: Category)
    ensures c in FilteredCategories(categories, query) <==> c in categories && CategoryMatches(c, query)
    ensures IsSubsequence(FilteredCategories(categories, query), categories)
  {
    FilterMembers(categories, (c: Category) => CategoryMatches(c, query), c);
    FilterIsSubsequence(categories, (c: Category) => CategoryMatches(c, query));
  }

  /** The no-results block is shown exactly when no category matches. */
  lemma NoResultsIffNothingMatches(categories: seq<Category>, query: string)
    ensures ShowsNoResults(categories, query) <==> forall i :: 0 <= i < |categories| ==> !CategoryMatches(categories[i], query)
  {
    FilterEmpty(categories, (c: Category) => CategoryMatches(c, query));
  }

  /** The statistic sums the whole catalogue: the listed categories never hold more videos. */
  lemma {:induction false} FilteredTotalAtMostTotal(categories: seq<Category>, p: Category -> bool)
    ensures TotalCount(Filter(categories, p)) <= TotalCount(categories)
  {
    if categories != [] {
      FilteredTotalAtMostTotal(categories[1..], p);
      var rest := Filter(categories[1..], p);
      if p(categories[0]) {
        assert Filter(categories, p) == [categories[0]] + rest;
        assert ([categories[0]] + rest)[1..] == rest;
      } else {
        assert Filter(categories, p) == rest;
      }
    }
  }

  /** The counts of the catalogue, in order. */
  function CatalogueCounts(): seq<nat> {
    [127, 89, 64, 43, 35, 28, 52, 73, 39, 24, 67, 31]
  }

  function Sum(counts: seq<nat>): nat {
    if counts == [] then 0 else counts[0] + Sum(counts[1..])
  }

  /** The statistic only looks at the counts. */
  lemma {:induction false} TotalCountIsSum(categories: seq<Category>, counts: seq<nat>)
    requires |categories| == |counts|
    requires forall i :: 0 <= i < |counts| ==> categories[i].count == counts[i]
    ensures TotalCount(categories) == Sum(counts)
  {
    if counts != [] {
      TotalCountIsSum(categories[1..], counts[1..]);
    }
  }

  lemma CatalogueHasCounts()
    ensures |Catalogue()| == |CatalogueCounts()| == 12
    ensures forall i :: 0 <= i < 12 ==> Catalogue()[i].count == CatalogueCounts()[i]
  {
  }

  lemma CountsSum()
    ensures Sum(CatalogueCounts()) == 672
  {
    var c := CatalogueCounts();
    assert Sum(c[11..]) == 31;
    assert Sum(c[10..]) == 98 by { assert c[10..][1..] == c[11..]; }
    assert Sum(c[9..]) == 122 by { assert c[9..][1..] == c[10..]; }
    assert Sum(c[8..]) == 161 by { assert c[8..][1..] == c[9..]; }
    assert Sum(c[7..]) == 234 by { assert c[7..][1..] == c[8..]; }
    assert Sum(c[6..]) == 286 by { assert c[6..][1..] == c[7..]; }
    assert Sum(c[5..]) == 314 by { assert c[5..][1..] == c[6..]; }
    assert Sum(c[4..]) == 349 by { assert c[4..][1..] == c[5..]; }
    assert Sum(c[3..]) == 392 by { assert c[3..][1..] == c[4..]; }
    assert Sum(c[2..]) == 456 by { assert c[2..][1..] == c[3..]; }
    assert Sum(c[1..]) == 545 by { assert c[1..][1..] == c[2..]; }
  }

  /** The catalogue has twelve categories holding 672 videos between them. */
  lemma CatalogueStatistics()
    ensures |Catalogue()| == 12
    ensures TotalCount(Catalogue()) == 672
  {
    CatalogueHasCounts();
    TotalCountIsSum(Catalogue(), CatalogueCounts());
    CountsSum();
  }
}
