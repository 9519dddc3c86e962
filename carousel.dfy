/**
 * The carousel's index controller: the current page index, the two scroll
 * bounds flags and the auto-play interval handle, driven by clicks, scroll
 * notifications, interval ticks, hovering and unmounting.
 *
 * The behaviour is specified by a pure transition function `Step` over a
 * `State` record; `CarouselController` holds the same state in mutable
 * fields and each of its handlers is proved to perform exactly one `Step`.
 * Interval timers are modelled by identifiers: `live` is the set of
 * intervals that are scheduled and not yet cleared, `autoPlayRef` is the
 * handle the component keeps, `nextTimer` the identifier the next
 * `setInterval` returns.
 */
module Carousel {
  import opened Wrappers

  /** The props that the controller reads; they are fixed for the life of one carousel. */
  datatype Config = Config(totalItems: nat, itemsPerView: int, autoPlay: bool, showNavigation: bool)

  /** What the scroll container reports about its position and size, in pixels. */
  datatype Geometry = Geometry(scrollLeft: real, scrollWidth: real, clientWidth: real)

  datatype State = State(
    currentIndex: int,
    canScrollLeft: bool,
    canScrollRight: bool,
    autoPlayRef: Option<nat>,
    live: set<nat>,
    nextTimer: nat,
    mounted: bool)

  datatype Event =
    | ScrollLeftClick
    | ScrollRightClick
    | DotClick(index: int)
    | Tick(timer: nat)
    | Scroll(geometry: Geometry)
    | MouseEnter
    | MouseLeave
    | Unmount

  // ----------------------------------------------------------- derived values

  /** The last index a page can start at; zero when everything fits in one view. */
  function MaxIndex(c: Config): (m: nat)
    ensures m >= c.totalItems - c.itemsPerView
    ensures m == 0 || m == c.totalItems - c.itemsPerView
    ensures m > 0 <==> Multipage(c)
  {
    if c.totalItems - c.itemsPerView > 0 then c.totalItems - c.itemsPerView else 0
  }

  /** There are more items than one view holds. */
  predicate Multipage(c: Config) {
    c.totalItems > c.itemsPerView
  }

  /** Anything is rendered at all (and so the scroll container exists) only when there are items. */
  predicate Renders(c: Config) {
    c.totalItems > 0
  }

  /** The prev/next buttons and the overlay arrows are shown. */
  predicate NavShown(c: Config) {
    Renders(c) && c.showNavigation && Multipage(c)
  }

  /** The interval is armed, on mount and on mouse leave, only under this condition. */
  predicate AutoPlayEnabled(c: Config) {
    c.autoPlay && Multipage(c)
  }

  /** The number of dot buttons. */
  function DotCount(c: Config): (n: nat)
    ensures n > 0 <==> Renders(c) && Multipage(c)
    ensures n > 0 ==> n == MaxIndex(c) + 1
  {
    if Renders(c) && Multipage(c) then MaxIndex(c) + 1 else 0
  }

  /** Which dots are highlighted: dot k is highlighted exactly when k is the current index. */
  function Dots(c: Config, s: State): (dots: seq<bool>)
    ensures |dots| == DotCount(c)
    ensures forall k :: 0 <= k < |dots| ==> (dots[k] <==> k == s.currentIndex)
  {
    seq(DotCount(c), k => k == s.currentIndex)
  }

  /** The "previous" target: one step back, never below zero. */
  function PrevIndex(i: int): (r: int)
    ensures r >= 0
    ensures i <= 0 ==> r == 0
    ensures i > 0 ==> r == i - 1
  {
    if i - 1 > 0 then i - 1 else 0
  }

  /** The "next" target: one step forward, never past the last page. */
  function NextIndex(c: Config, i: int): (r: int)
    ensures r <= MaxIndex(c)
    ensures i >= MaxIndex(c) ==> r == MaxIndex(c)
    ensures i < MaxIndex(c) ==> r == i + 1
  {
    if MaxIndex(c) < i + 1 then MaxIndex(c) else i + 1
  }

  /** The auto-play target: one step forward, back to the start from the last page. */
  function WrapNext(c: Config, i: int): (r: int)
    ensures r <= MaxIndex(c)
    ensures i >= 0 ==> 0 <= r
    ensures i >= MaxIndex(c) ==> r == 0
    ensures i < MaxIndex(c) ==> r == i + 1
  {
    if i >= MaxIndex(c) then 0 else i + 1
  }

  /** The left bound flag the container's geometry yields. */
  predicate CanScrollLeft(g: Geometry) {
    g.scrollLeft > 0.0
  }

  /** The right bound flag: at least one pixel of content is still hidden on the right. */
  predicate CanScrollRight(g: Geometry) {
    g.scrollLeft < g.scrollWidth - g.clientWidth - 1.0
  }

  // --------------------------------------------------------------- transitions

  function Init(c: Config): State {
    var armed := AutoPlayEnabled(c);
    State(0, false, true,
      if armed then Some(0) else None,
      if armed then {0} else {},
      if armed then 1 else 0,
      true)
  }

  /** Moving to an index takes effect only when the scroll container exists. */
  function ScrollTo(c: Config, s: State, index: int): State {
    if Renders(c) then s.(currentIndex := index) else s
  }

  /** Clearing the interval the component holds, if it holds one. */
  function ClearHeld(s: State): set<nat> {
    if s.autoPlayRef.Some? then s.live - {s.autoPlayRef.value} else s.live
  }

  /**
   * One event. A click is delivered only to a control that is shown and
   * enabled; a tick only by an interval that is still live; after unmounting
   * nothing has an effect on the state any more.
   */
  function Step(c: Config, s: State, e: Event): State {
    if !s.mounted then s
    else match e
      case ScrollLeftClick =>
        if NavShown(c) && s.canScrollLeft then ScrollTo(c, s, PrevIndex(s.currentIndex)) else s
      case ScrollRightClick =>
        if NavShown(c) && s.canScrollRight then ScrollTo(c, s, NextIndex(c, s.currentIndex)) else s
      case DotClick(i) =>
        if 0 <= i < DotCount(c) then ScrollTo(c, s, i) else s
      case Tick(id) =>
        if id in s.live then s.(currentIndex := WrapNext(c, s.currentIndex)) else s
      case Scroll(g) =>
        if Renders(c) then s.(canScrollLeft := CanScrollLeft(g), canScrollRight := CanScrollRight(g)) else s
      case MouseEnter =>
        if Renders(c) then s.(live := ClearHeld(s)) else s
      case MouseLeave =>
        if Renders(c) && AutoPlayEnabled(c)
        then s.(autoPlayRef := Some(s.nextTimer), live := s.live + {s.nextTimer}, nextTimer := s.nextTimer + 1)
        else s
      case Unmount =>
        s.(live := if AutoPlayEnabled(c) then ClearHeld(s) else s.live, mounted := false)
  }

  function Run(c: Config, s: State, es: seq<Event>): State
    decreases |es|
  {
    if es == [] then s else Run(c, Step(c, s, es[0]), es[1..])
  }

  // ---------------------------------------------------------------- invariant

  /**
   * The index stays on a page, every scheduled interval has an identifier
   * already handed out, and without auto-play there never is an interval.
   */
  ghost predicate Invariant(c: Config, s: State) {
    && 0 <= s.currentIndex <= MaxIndex(c)
    && (forall id :: id in s.live ==> id < s.nextTimer)
    && (s.autoPlayRef.Some? ==> s.autoPlayRef.value < s.nextTimer)
    && (!AutoPlayEnabled(c) ==> s.live == {} && s.autoPlayRef == None)
  }

  lemma InitInvariant(c: Config)
    ensures Invariant(c, Init(c))
    ensures Init(c).currentIndex == 0 && !Init(c).canScrollLeft && Init(c).canScrollRight
    ensures Init(c).live != {} <==> AutoPlayEnabled(c)
  {
  }

  lemma StepInvariant(c: Config, s: State, e: Event)
    requires Invariant(c, s)
    ensures Invariant(c, Step(c, s, e))
    ensures Step(c, s, e).nextTimer >= s.nextTimer
  {
  }

  lemma {:induction false} RunInvariant(c: Config, s: State, es: seq<Event>)
    requires Invariant(c, s)
    ensures Invariant(c, Run(c, s, es))
    decreases |es|
  {
    if es != [] {
      StepInvariant(c, s, es[0]);
      RunInvariant(c, Step(c, s, es[0]), es[1..]);
    }
  }

  /** Whatever happens, the index is a valid page start and exactly one dot is highlighted. */
  lemma IndexAlwaysOnAPage(c: Config, es: seq<Event>)
    ensures 0 <= Run(c, Init(c), es).currentIndex <= MaxIndex(c)
    ensures DotCount(c) > 0 ==> exists k :: 0 <= k < DotCount(c) && Dots(c, Run(c, Init(c), es))[k]
    ensures forall j, k :: 0 <= j < k < DotCount(c) ==> !(Dots(c, Run(c, Init(c), es))[j] && Dots(c, Run(c, Init(c), es))[k])
  {
    InitInvariant(c);
    RunInvariant(c, Init(c), es);
    var s := Run(c, Init(c), es);
    if DotCount(c) > 0 {
      assert Dots(c, s)[s.currentIndex];
    }
  }

  /** Without auto-play no interval is ever scheduled. */
  lemma NoTimerUnlessEnabled(c: Config, es: seq<Event>)
    requires !AutoPlayEnabled(c)
    ensures Run(c, Init(c), es).live == {} && Run(c, Init(c), es).autoPlayRef == None
  {
    InitInvariant(c);
    RunInvariant(c, Init(c), es);
  }

  // ------------------------------------------------------------ single events

  /** Previous is clamped at zero and a no-op on the first page; next is clamped at the last page. */
  lemma PrevNextClamp(c: Config, s: State)
    requires Invariant(c, s) && s.mounted && NavShown(c)
    ensures s.canScrollLeft ==> Step(c, s, ScrollLeftClick).currentIndex == PrevIndex(s.currentIndex)
    ensures s.currentIndex == 0 ==> Step(c, s, ScrollLeftClick) == s
    ensures s.canScrollRight ==> Step(c, s, ScrollRightClick).currentIndex == NextIndex(c, s.currentIndex)
    ensures s.currentIndex == MaxIndex(c) ==> Step(c, s, ScrollRightClick) == s
  {
  }

  /** A tick advances by one and wraps from the last page to the first. */
  lemma TickWraps(c: Config, s: State, id: nat)
    requires Invariant(c, s) && s.mounted && id in s.live
    ensures s.currentIndex == MaxIndex(c) ==> Step(c, s, Tick(id)).currentIndex == 0
    ensures s.currentIndex < MaxIndex(c) ==> Step(c, s, Tick(id)).currentIndex == s.currentIndex + 1
  {
  }

  /** A scroll notification recomputes both flags from the geometry, and touches nothing else. */
  lemma ScrollRecomputesFlags(c: Config, s: State, g: Geometry)
    requires s.mounted && Renders(c)
    ensures Step(c, s, Scroll(g)).canScrollLeft <==> g.scrollLeft > 0.0
    ensures Step(c, s, Scroll(g)).canScrollRight <==> g.scrollLeft < g.scrollWidth - g.clientWidth - 1.0
    ensures Step(c, s, Scroll(g)).(canScrollLeft := s.canScrollLeft, canScrollRight := s.canScrollRight) == s
  {
  }

  /** With no items nothing is rendered: no click, hover or scroll reaches the controller. */
  lemma NothingRenderedNoInput(c: Config, s: State, e: Event)
    requires !Renders(c) && !e.Tick? && !e.Unmount?
    ensures Step(c, s, e) == s
  {
  }

  /** Leaving the carousel arms a fresh interval and overwrites the handle without clearing the old one. */
  lemma MouseLeaveArmsFresh(c: Config, s: State)
    requires Invariant(c, s) && s.mounted && Renders(c) && AutoPlayEnabled(c)
    ensures Step(c, s, MouseLeave).autoPlayRef == Some(s.nextTimer)
    ensures s.nextTimer !in s.live
    ensures Step(c, s, MouseLeave).live == s.live + {s.nextTimer}
  {
  }

  /** Entering clears the held interval, so a carousel with only that interval pauses. */
  lemma MouseEnterPauses(c: Config, s: State)
    requires s.mounted && Renders(c) && s.autoPlayRef.Some? && s.live <= {s.autoPlayRef.value}
    ensures Step(c, s, MouseEnter).live == {}
    ensures Step(c, s, MouseEnter).autoPlayRef == s.autoPlayRef
  {
  }

  /** Hovering and leaving again resumes auto-play with exactly one interval. */
  lemma HoverThenLeaveResumes(c: Config, s: State)
    requires Invariant(c, s) && s.mounted && Renders(c) && AutoPlayEnabled(c)
    requires s.autoPlayRef.Some? && s.live <= {s.autoPlayRef.value}
    ensures Run(c, s, [MouseEnter, MouseLeave]).live == {s.nextTimer}
  {
    var s1 := Step(c, s, MouseEnter);
    assert s1.live == {};
    assert Run(c, s, [MouseEnter, MouseLeave]) == Step(c, s1, MouseLeave);
  }

  /** Mouse leave without a preceding mouse enter leaks the interval scheduled on mount past unmount. */
  lemma LeaveWithoutEnterLeaks(c: Config)
    requires Renders(c) && AutoPlayEnabled(c)
    ensures Run(c, Init(c), [MouseLeave, Unmount]).live == {0}
    ensures Run(c, Init(c), [MouseEnter, MouseLeave, Unmount]).live == {}
  {
    var s1 := Step(c, Init(c), MouseLeave);
    assert s1.live == {0, 1} && s1.autoPlayRef == Some(1);
    assert Run(c, Init(c), [MouseLeave, Unmount]) == Step(c, s1, Unmount);
    var t1 := Step(c, Init(c), MouseEnter);
    var t2 := Step(c, t1, MouseLeave);
    assert t2.live == {1} && t2.autoPlayRef == Some(1);
    assert Run(c, Init(c), [MouseEnter, MouseLeave, Unmount]) == Step(c, t2, Unmount);
  }

  /** After unmounting no event changes the state, even ticks of leaked intervals. */
  lemma {:induction false} UnmountedIsInert(c: Config, s: State, es: seq<Event>)
    requires !s.mounted
    ensures Run(c, s, es) == s
    decreases |es|
  {
    if es != [] {
      UnmountedIsInert(c, Step(c, s, es[0]), es[1..]);
    }
  }

  // ------------------------------------------------------------------ examples

  /** Six items at four per view: three pages, three dots, and the tick wraps from the third. */
  lemma SixItemsFourPerView()
    ensures MaxIndex(Config(6, 4, true, true)) == 2
    ensures DotCount(Config(6, 4, true, true)) == 3
    ensures WrapNext(Config(6, 4, true, true), 2) == 0
    ensures DotCount(Config(4, 4, true, true)) == 0 && !AutoPlayEnabled(Config(4, 4, true, true))
  {
  }

  /** At 599 of 1000 pixels with a 400 pixel viewport the one-pixel slack already disables the right button. */
  lemma RightEdgeSlack()
    ensures !CanScrollRight(Geometry(599.0, 1000.0, 400.0))
    ensures CanScrollRight(Geometry(598.0, 1000.0, 400.0))
    ensures !CanScrollLeft(Geometry(0.0, 1000.0, 400.0))
  {
  }

  // ---------------------------------------------------------------- controller

  /** The controller as the component holds it: mutable state updated by the handlers. */
  class CarouselController {
    const config: Config
    var currentIndex: int
    var canScrollLeft: bool
    var canScrollRight: bool
    var autoPlayRef: Option<nat>
    var live: set<nat>
    var nextTimer: nat
    var mounted: bool

    function Snapshot(): State
      reads this
    {
      State(currentIndex, canScrollLeft, canScrollRight, autoPlayRef, live, nextTimer, mounted)
    }

    ghost predicate Valid()
      reads this
    {
      Invariant(config, Snapshot())
    }

    /** Mounting: the initial state, with the auto-play interval armed when enabled. */
    constructor (c: Config)
      ensures config == c && Snapshot() == Init(c) && Valid()
    {
      config := c;
      currentIndex := 0;
      canScrollLeft := false;
      canScrollRight := true;
      mounted := true;
      if c.autoPlay && c.totalItems > c.itemsPerView {
        autoPlayRef := Some(0);
        live := {0};
        nextTimer := 1;
      } else {
        autoPlayRef := None;
        live := {};
        nextTimer := 0;
      }
    }

    /** `scrollToIndex`: the index moves only when the scroll container exists. */
    method ScrollToIndex(index: int)
      modifies this
      ensures Snapshot() == ScrollTo(config, old(Snapshot()), index)
    {
      if config.totalItems > 0 {
        currentIndex := index;
      }
    }

    method ScrollLeft()
      requires Valid()
      modifies this
      ensures Valid() && Snapshot() == Step(config, old(Snapshot()), ScrollLeftClick)
    {
      StepInvariant(config, Snapshot(), ScrollLeftClick);
      if mounted && NavShown(config) && canScrollLeft {
        var newIndex := if currentIndex - 1 > 0 then currentIndex - 1 else 0;
        ScrollToIndex(newIndex);
      }
    }

    method ScrollRight()
      requires Valid()
      modifies this
      ensures Valid() && Snapshot() == Step(config, old(Snapshot()), ScrollRightClick)
    {
      StepInvariant(config, Snapshot(), ScrollRightClick);
      if mounted && NavShown(config) && canScrollRight {
        var maxIndex := MaxIndex(config);
        var newIndex := if maxIndex < currentIndex + 1 then maxIndex else currentIndex + 1;
        ScrollToIndex(newIndex);
      }
    }

    /** A click on the dot for page `index`. */
    method ClickDot(index: int)
      requires Valid()
      modifies this
      ensures Valid() && Snapshot() == Step(config, old(Snapshot()), DotClick(index))
    {
      StepInvariant(config, Snapshot(), DotClick(index));
      if mounted && 0 <= index < DotCount(config) {
        ScrollToIndex(index);
      }
    }

    /** The interval callback of interval `timer`. */
    method OnTick(timer: nat)
      requires Valid()
      modifies this
      ensures Valid() && Snapshot() == Step(config, old(Snapshot()), Tick(timer))
    {
      StepInvariant(config, Snapshot(), Tick(timer));
      if mounted && timer in live {
        var prev := currentIndex;
        var next := if prev >= MaxIndex(config) then 0 else prev + 1;
        currentIndex := next;
      }
    }

    /** `updateScrollState`, run by the scroll listener and after the index changes. */
    method UpdateScrollState(g: Geometry)
      requires Valid()
      modifies this
      ensures Valid() && Snapshot() == Step(config, old(Snapshot()), Scroll(g))
    {
      StepInvariant(config, Snapshot(), Scroll(g));
      if mounted && config.totalItems > 0 {
        canScrollLeft := g.scrollLeft > 0.0;
        canScrollRight := g.scrollLeft < g.scrollWidth - g.clientWidth - 1.0;
      }
    }

    method HandleMouseEnter()
      requires Valid()
      modifies this
      ensures Valid() && Snapshot() == Step(config, old(Snapshot()), MouseEnter)
    {
      StepInvariant(config, Snapshot(), MouseEnter);
      if mounted && config.totalItems > 0 && autoPlayRef.Some? {
        live := live - {autoPlayRef.value};
      }
    }

    method HandleMouseLeave()
      requires Valid()
      modifies this
      ensures Valid() && Snapshot() == Step(config, old(Snapshot()), MouseLeave)
    {
      StepInvariant(config, Snapshot(), MouseLeave);
      if mounted && config.totalItems > 0 && config.autoPlay && config.totalItems > config.itemsPerView {
        var id := nextTimer;
        nextTimer := nextTimer + 1;
        live := live + {id};
        autoPlayRef := Some(id);
      }
    }

    /** The auto-play effect's cleanup, which clears the handle held at that moment. */
    method HandleUnmount()
      requires Valid()
      modifies this
      ensures Valid() && Snapshot() == Step(config, old(Snapshot()), Unmount)
    {
      StepInvariant(config, Snapshot(), Unmount);
      if mounted {
        if AutoPlayEnabled(config) && autoPlayRef.Some? {
          live := live - {autoPlayRef.value};
        }
        mounted := false;
      }
    }
  }
}
