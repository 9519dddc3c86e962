/**
 * The filter bar: flags and counts derived from its props, the sort option
 * lookup with its fallbacks, what each control passes to its callback, the
 * active-filter summary, and the mobile "filters" expander.
 */
module FilterBar {
  import opened Wrappers
  import opened Sequences

  datatype FilterOption = FilterOption(id: string, caption: string, count: Option<nat>)
  datatype SortOption = SortOption(value: string, caption: string, icon: Option<string>)

  datatype Props = Props(
    categories: seq<FilterOption>,
    tags: seq<FilterOption>,
    sortOptions: seq<SortOption>,
    selectedCategories: seq<string>,
    selectedTags: seq<string>,
    currentSort: string,
    searchQuery: string)

  function DefaultSortOptions(): seq<SortOption> {
    [ SortOption("relevance", "По релевантности", Some("TrendingUp")),
      SortOption("newest", "Сначала новые", Some("Calendar")),
      SortOption("oldest", "Сначала старые", Some("CalendarDays")),
      SortOption("views", "По просмотрам", Some("Eye")),
      SortOption("likes", "По лайкам", Some("Heart")),
      SortOption("duration_asc", "По длительности (короткие)", Some("Clock")),
      SortOption("duration_desc", "По длительности (длинные)", Some("Clock")) ]
  }

  /** The props a bar gets when none are passed. */
  function DefaultProps(): Props {
    Props([], [], DefaultSortOptions(), [], [], "relevance", "")
  }

  // ------------------------------------------------------------ derived flags

  predicate HasActiveFilters(p: Props) {
    |p.selectedCategories| > 0 || |p.selectedTags| > 0 || |p.searchQuery| > 0
  }

  /** The number on the expander's badge: selected categories and tags, not the query. */
  function BadgeCount(p: Props): nat {
    |p.selectedCategories| + |p.selectedTags|
  }

  /** The badge is shown exactly when a filter is active, and then reads zero exactly when only a query is. */
  lemma BadgeRule(p: Props)
    ensures HasActiveFilters(p) <==> BadgeCount(p) > 0 || p.searchQuery != ""
    ensures HasActiveFilters(p) && BadgeCount(p) == 0 <==>
      p.selectedCategories == [] && p.selectedTags == [] && p.searchQuery != ""
  {
  }

  // ------------------------------------------------------------- sort lookup

  /** `find` over the sort options: the first option with the given value. */
  function FindSort(options: seq<SortOption>, value: string): (r: Option<SortOption>)
    ensures r.None? <==> forall i :: 0 <= i < |options| ==> options[i].value != value
    ensures r.Some? ==> exists i :: (0 <= i < |options| && options[i] == r.value && r.value.value == value &&
      forall j :: 0 <= j < i ==> options[j].value != value)
  {
    if options == [] then None
    else if options[0].value == value then Some(options[0])
    else
      var r := FindSort(options[1..], value);
      FindSortSkip(options, value, r);
      r
  }

  /** Skipping a first option whose value differs keeps the first-match property. */
  lemma FindSortSkip(options: seq<SortOption>, value: string, r: Option<SortOption>)
    requires options != [] && options[0].value != value
    requires r.None? <==> forall i :: 0 <= i < |options[1..]| ==> options[1..][i].value != value
    requires r.Some? ==> exists i :: (0 <= i < |options[1..]| && options[1..][i] == r.value && r.value.value == value &&
      forall j :: 0 <= j < i ==> options[1..][j].value != value)
    ensures r.None? <==> forall i :: 0 <= i < |options| ==> options[i].value != value
    ensures r.Some? ==> exists i :: (0 <= i < |options| && options[i] == r.value && r.value.value == value &&
      forall j :: 0 <= j < i ==> options[j].value != value)
  {
    if r.Some? {
      var i :| 0 <= i < |options[1..]| && options[1..][i] == r.value && r.value.value == value &&
        forall j :: 0 <= j < i ==> options[1..][j].value != value;
      assert options[i + 1] == r.value;
      forall j | 0 <= j < i + 1 ensures options[j].value != value {
        if j > 0 { assert options[j] == options[1..][j - 1]; }
      }
    } else {
      forall i | 0 <= i < |options| ensures options[i].value != value {
        if i > 0 { assert options[i] == options[1..][i - 1]; }
      }
    }
  }

  function SelectedSortOption(p: Props): Option<SortOption> {
    FindSort(p.sortOptions, p.currentSort)
  }

  /** The trigger's label: the selected option's label, or "Сортировка" when there is none or it is empty. */
  function SortLabel(p: Props): (text: string)
    ensures text != ""
    ensures SelectedSortOption(p).Some? && SelectedSortOption(p).value.caption != "" ==> text == SelectedSortOption(p).value.caption
    ensures SelectedSortOption(p).None? ==> text == "Сортировка"
    ensures SelectedSortOption(p).Some? && SelectedSortOption(p).value.caption == "" ==> text == "Сортировка"
  {
    var o := SelectedSortOption(p);
    if o.Some? && o.value.caption != "" then o.value.caption else "Сортировка"
  }

  /** The trigger's icon: the selected option's icon, or "ArrowUpDown" when there is none or it is empty. */
  function SortIcon(p: Props): (icon: string)
    ensures icon != ""
    ensures SelectedSortOption(p).None? ==> icon == "ArrowUpDown"
    ensures SelectedSortOption(p).Some? && SelectedSortOption(p).value.icon.Some? && SelectedSortOption(p).value.icon.value != "" ==>
      icon == SelectedSortOption(p).value.icon.value
    ensures SelectedSortOption(p).Some? && (SelectedSortOption(p).value.icon.None? || SelectedSortOption(p).value.icon.value == "") ==>
      icon == "ArrowUpDown"
  {
    var o := SelectedSortOption(p);
    if o.Some? && o.value.icon.Some? && o.value.icon.value != "" then o.value.icon.value else "ArrowUpDown"
  }

  /** The defaults show no active filter and name the relevance sort on the trigger. */
  lemma DefaultsRender()
    ensures !HasActiveFilters(DefaultProps())
    ensures SortLabel(DefaultProps()) == "По релевантности"
    ensures SortIcon(DefaultProps()) == "TrendingUp"
    ensures SortLabel(DefaultProps().(currentSort := "popular")) == "Сортировка"
  {
    assert DefaultSortOptions()[0].value == "relevance";
    var p := DefaultProps().(currentSort := "popular");
    forall i | 0 <= i < |p.sortOptions| ensures p.sortOptions[i].value != "popular" {
    }
  }

  // ---------------------------------------------------------------- callbacks

  /** A control the user operates. */
  datatype Action =
    | ToggleCategory(categoryId: string)
    | ToggleTag(tagId: string)
    | RemoveTag(tagId: string)
    | RemoveCategoryChip(categoryId: string)
    | RemoveTagChip(tagId: string)
    | RemoveQueryChip
    | TypeSearch(text: string)
    | ClearSearch
    | PickSort(value: string)
    | ClickClearFilters

  /** The callback a control calls, with its arguments. */
  datatype Emit =
    | CategoryChange(categoryId: string, selected: bool)
    | TagChange(tagId: string, selected: bool)
    | SearchChange(query: string)
    | SortChange(sort: string)
    | ClearFilters

  function Handle(p: Props, a: Action): Emit {
    match a
    case ToggleCategory(id) => CategoryChange(id, !(id in p.selectedCategories))
    case ToggleTag(id) => TagChange(id, !(id in p.selectedTags))
    case RemoveTag(id) => TagChange(id, false)
    case RemoveCategoryChip(id) => CategoryChange(id, false)
    case RemoveTagChip(id) => TagChange(id, false)
    case RemoveQueryChip => SearchChange("")
    case TypeSearch(text) => SearchChange(text)
    case ClearSearch => SearchChange("")
    case PickSort(value) => SortChange(value)
    case ClickClearFilters => ClearFilters
  }

  /** How a parent that honours the callback updates a selection. */
  function ApplySelection(selected: seq<string>, id: string, on: bool): (r: seq<string>)
    ensures id in r <==> on
    ensures forall x :: x != id ==> (x in r <==> x in selected)
  {
    if on then (if id in selected then selected else selected + [id])
    else
      FilterMembersAll(selected, (x: string) => x != id);
      Filter(selected, (x: string) => x != id)
  }

  /**
   * A toggle asks for the opposite of the current selection, and once the
   * parent applies it the same toggle asks to undo it; removals always ask
   * for deselection and clearing the search always asks for the empty query.
   */
  lemma ToggleRoundTrip(p: Props, id: string)
    ensures Handle(p, ToggleCategory(id)) == CategoryChange(id, id !in p.selectedCategories)
    ensures var q := p.(selectedCategories := ApplySelection(p.selectedCategories, id, id !in p.selectedCategories));
      Handle(q, ToggleCategory(id)) == CategoryChange(id, id in p.selectedCategories)
    ensures var q := p.(selectedTags := ApplySelection(p.selectedTags, id, id !in p.selectedTags));
      Handle(q, ToggleTag(id)) == TagChange(id, id in p.selectedTags)
    ensures Handle(p, RemoveTag(id)) == TagChange(id, false) && Handle(p, RemoveTagChip(id)) == TagChange(id, false)
    ensures Handle(p, RemoveCategoryChip(id)) == CategoryChange(id, false)
    ensures Handle(p, ClearSearch) == SearchChange("") && Handle(p, RemoveQueryChip) == SearchChange("")
  {
    FilterMembers(p.selectedCategories, (x: string) => x != id, id);
    FilterMembers(p.selectedTags, (x: string) => x != id, id);
  }

  // ----------------------------------------------------------------- summary

  /** `find` over the filter options: the first option with the given id. */
  function FindOption(options: seq<FilterOption>, id: string): (r: Option<FilterOption>)
    ensures r.None? <==> forall i :: 0 <= i < |options| ==> options[i].id != id
    ensures r.Some? ==> r.value in options && r.value.id == id
    ensures r.Some? ==> exists i :: (0 <= i < |options| && options[i] == r.value &&
      forall j :: 0 <= j < i ==> options[j].id != id)
  {
    if options == [] then None
    else if options[0].id == id then Some(options[0])
    else
      var r := FindOption(options[1..], id);
      FindOptionSkip(options, id, r);
      r
  }

  lemma FindOptionSkip(options: seq<FilterOption>, id: string, r: Option<FilterOption>)
    requires options != [] && options[0].id != id
    requires r.None? <==> forall i :: 0 <= i < |options[1..]| ==> options[1..][i].id != id
    requires r.Some? ==> r.value in options[1..] && r.value.id == id
    requires r.Some? ==> exists i :: (0 <= i < |options[1..]| && options[1..][i] == r.value &&
      forall j :: 0 <= j < i ==> options[1..][j].id != id)
    ensures r.None? <==> forall i :: 0 <= i < |options| ==> options[i].id != id
    ensures r.Some? ==> r.value in options
    ensures r.Some? ==> exists i :: (0 <= i < |options| && options[i] == r.value &&
      forall j :: 0 <= j < i ==> options[j].id != id)
  {
    if r.Some? {
      var i :| 0 <= i < |options[1..]| && options[1..][i] == r.value &&
        forall j :: 0 <= j < i ==> options[1..][j].id != id;
      assert options[i + 1] == r.value;
      forall j | 0 <= j < i + 1 ensures options[j].id != id {
        if j > 0 { assert options[j] == options[1..][j - 1]; }
      }
    } else {
      forall i | 0 <= i < |options| ensures options[i].id != id {
        if i > 0 { assert options[i] == options[1..][i - 1]; }
      }
    }
  }

  predicate Known(options: seq<FilterOption>, id: string) {
    FindOption(options, id).Some?
  }

  datatype Chip = Chip(id: string, text: string)

  /** One chip per selected id that names a known option, in selection order; tag chips carry a "#". */
  function OptionChips(selected: seq<string>, options: seq<FilterOption>, prefix: string): (chips: seq<Chip>)
    ensures |chips| <= |selected|
    ensures forall k :: 0 <= k < |chips| ==> chips[k].id in selected && Known(options, chips[k].id)
  {
    if selected == [] then []
    else
      var found := FindOption(options, selected[0]);
      (if found.Some? then [Chip(selected[0], prefix + found.value.caption)] else []) + OptionChips(selected[1..], options, prefix)
  }

  function ChipIds(chips: seq<Chip>): (ids: seq<string>)
    ensures |ids| == |chips|
    ensures forall k :: 0 <= k < |chips| ==> ids[k] == chips[k].id
  {
    seq(|chips|, k requires 0 <= k < |chips| => chips[k].id)
  }

  /** The chips name exactly the selected ids that are known options, in selection order. */
  lemma {:induction false} ChipsAreKnownSelections(selected: seq<string>, options: seq<FilterOption>, prefix: string)
    ensures ChipIds(OptionChips(selected, options, prefix)) == Filter(selected, (id: string) => Known(options, id))
  {
    if selected != [] {
      var known := (id: string) => Known(options, id);
      ChipsAreKnownSelections(selected[1..], options, prefix);
      var found := FindOption(options, selected[0]);
      var head: seq<Chip> := if found.Some? then [Chip(selected[0], prefix + found.value.caption)] else [];
      var tail := OptionChips(selected[1..], options, prefix);
      assert OptionChips(selected, options, prefix) == head + tail;
      assert Filter(selected, known) == (if known(selected[0]) then [selected[0]] else []) + Filter(selected[1..], known);
      assert ChipIds(head) == if known(selected[0]) then [selected[0]] else [];
      ChipIdsConcat(head, tail);
    }
  }

  lemma ChipIdsConcat(a: seq<Chip>, b: seq<Chip>)
    ensures ChipIds(a + b) == ChipIds(a) + ChipIds(b)
  {
    assert |ChipIds(a + b)| == |ChipIds(a) + ChipIds(b)|;
    forall k | 0 <= k < |a + b| ensures ChipIds(a + b)[k] == (ChipIds(a) + ChipIds(b))[k] {
      if k < |a| {
        assert (a + b)[k] == a[k];
      } else {
        assert (a + b)[k] == b[k - |a|];
      }
    }
  }

  /** The quick summary: category chips, then tag chips, then the query; shown only while a filter is active. */
  function Summary(p: Props): seq<Chip> {
    if !HasActiveFilters(p) then []
    else
      OptionChips(p.selectedCategories, p.categories, "")
      + OptionChips(p.selectedTags, p.tags, "#")
      + (if p.searchQuery != "" then [Chip("", "\"" + p.searchQuery + "\"")] else [])
  }

  /** The summary is empty when no filter is active, and a query alone always shows its chip. */
  lemma SummaryShape(p: Props)
    ensures !HasActiveFilters(p) ==> Summary(p) == []
    ensures p.searchQuery != "" ==> |Summary(p)| > 0 && Summary(p)[|Summary(p)| - 1] == Chip("", "\"" + p.searchQuery + "\"")
    ensures |Summary(p)| <= BadgeCount(p) + (if p.searchQuery != "" then 1 else 0)
  {
  }

  // ---------------------------------------------------------------- expander

  /** The expander button is offered only when categories or tags may be shown. */
  predicate ExpanderShown(showCategories: bool, showTags: bool) {
    showCategories || showTags
  }

  /** The only state of the bar: whether the filter section is expanded on small screens. */
  class FilterPanel {
    const showCategories: bool
    const showTags: bool
    var isFiltersExpanded: bool

    constructor (showCategories: bool, showTags: bool)
      ensures this.showCategories == showCategories && this.showTags == showTags
      ensures !isFiltersExpanded
    {
      this.showCategories := showCategories;
      this.showTags := showTags;
      isFiltersExpanded := false;
    }

    /** The "filters" button, which flips the section; it exists only when the expander is shown. */
    method ToggleExpanded()
      requires ExpanderShown(showCategories, showTags)
      modifies this
      ensures isFiltersExpanded == !old(isFiltersExpanded)
    {
      isFiltersExpanded := !isFiltersExpanded;
    }
  }
}
