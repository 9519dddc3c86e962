/**
 * The search page's result computation: a query guard, a case-insensitive
 * text filter on title and author, an optional category restriction and a
 * sort chosen by name.
 */
module SearchPage {
  import opened Text
  import opened Sequences

  datatype SearchVideo = SearchVideo(
    id: string, title: string, category: string, views: string, duration: string,
    author: string, publishedAt: string)

  /** The text predicate: the lower-cased title or author includes the lower-cased query as typed. */
  predicate Matches(v: SearchVideo, query: string) {
    Contains(Lower(v.title), Lower(query)) || Contains(Lower(v.author), Lower(query))
  }

  /** The category predicate: "all" admits everything, any other filter its own category only. */
  predicate InCategory(v: SearchVideo, activeFilter: string) {
    activeFilter == "all" || v.category == activeFilter
  }

  /** Both predicates together. */
  predicate Selected(v: SearchVideo, query: string, activeFilter: string) {
    Matches(v, query) && InCategory(v, activeFilter)
  }

  /**
   * The effect that recomputes the results. The sort comparators compare
   * parsed view strings and localized dates, which the model does not
   * interpret: they are given as `viewsBefore` and `newestBefore`.
   */
  method Search(
    allVideos: seq<SearchVideo>, query: string, activeFilter: string, sortBy: string,
    viewsBefore: (SearchVideo, SearchVideo) -> bool, newestBefore: (SearchVideo, SearchVideo) -> bool)
    returns (results: seq<SearchVideo>)
    ensures IsBlank(query) ==> results == []
    ensures !IsBlank(query) ==> forall v :: v in results <==> v in allVideos && Selected(v, query, activeFilter)
    ensures !IsBlank(query) ==> multiset(results) == multiset(Filter(allVideos, v => Selected(v, query, activeFilter)))
    ensures !IsBlank(query) && sortBy != "views" && sortBy != "newest" ==>
      results == Filter(allVideos, v => Selected(v, query, activeFilter)) && IsSubsequence(results, allVideos)
  {
    if Trim(query) != [] {
      var filtered := Filter(allVideos, v => Matches(v, query));
      if activeFilter != "all" {
        filtered := Filter(filtered, (v: SearchVideo) => v.category == activeFilter);
      }
      ghost var selected := Filter(allVideos, v => Selected(v, query, activeFilter));
      SelectedIsBothFilters(allVideos, query, activeFilter);
      assert filtered == selected;
      if sortBy == "views" {
        filtered := SortWith(filtered, viewsBefore);
      } else if sortBy == "newest" {
        filtered := SortWith(filtered, newestBefore);
      }
      results := filtered;
      forall v ensures v in results <==> v in allVideos && Selected(v, query, activeFilter) {
        assert v in results <==> v in multiset(results);
        FilterMembers(allVideos, v => Selected(v, query, activeFilter), v);
      }
      FilterIsSubsequence(allVideos, v => Selected(v, query, activeFilter));
    } else {
      results := [];
    }
  }

  /** Filtering by text and then by category is filtering by both at once. */
  lemma SelectedIsBothFilters(allVideos: seq<SearchVideo>, query: string, activeFilter: string)
    ensures var byText := Filter(allVideos, v => Matches(v, query));
      Filter(allVideos, v => Selected(v, query, activeFilter))
      == if activeFilter == "all" then byText else Filter(byText, (v: SearchVideo) => v.category == activeFilter)
  {
    var text := (v: SearchVideo) => Matches(v, query);
    var both := (v: SearchVideo) => Selected(v, query, activeFilter);
    if activeFilter == "all" {
      FilterSame(allVideos, both, text);
    } else {
      FilterFilter(allVideos, text, (v: SearchVideo) => v.category == activeFilter, both);
    }
  }

  /** Filters by predicates that agree everywhere give the same result. */
  lemma {:induction false} FilterSame(s: seq<SearchVideo>, p: SearchVideo -> bool, q: SearchVideo -> bool)
    requires forall x :: p(x) == q(x)
    ensures Filter(s, p) == Filter(s, q)
  {
    if s != [] {
      FilterSame(s[1..], p, q);
    }
  }

  /**
   * The guard trims the query but the filter does not: a query with a
   * leading space passes the guard and then misses a title that starts
   * with the word.
   */
  lemma UntrimmedQueryNarrows()
    ensures !IsBlank(" minecraft")
    ensures Matches(SearchVideo("2", "minecraft", "adventure", "1.8M", "22:17", "Steve", ""), "minecraft")
    ensures !Matches(SearchVideo("2", "minecraft", "adventure", "1.8M", "22:17", "Steve", ""), " minecraft")
  {
    assert !IsWhitespace(" minecraft"[1]);
    var v := SearchVideo("2", "minecraft", "adventure", "1.8M", "22:17", "Steve", "");
    assert Lower(v.title) == "minecraft";
    assert Lower("minecraft") == "minecraft";
    assert OccursAt(Lower(v.title), Lower("minecraft"), 0);
  }
}
