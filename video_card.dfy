/**
 * The video card: its duration, view-count and relative-time formatters,
 * the thumbnail fallback, and what each of the three variants shows.
 */
module VideoCard {
  import opened Wrappers
  import opened Decimal
  import opened RelativeTime

  datatype Author = Author(id: string, displayName: string, handle: string, avatar: Option<string>)
  datatype CategoryRef = CategoryRef(name: string, slug: string)
  datatype Video = Video(
    id: string, slug: string, title: string, description: Option<string>,
    thumbnails: seq<string>, durationSec: nat, viewsCount: nat, publishedAt: string,
    author: Author, categories: Option<seq<CategoryRef>>)

  datatype Variant = Default | Horizontal | Compact

  // ---------------------------------------------------------------- duration

  /** Hours, minutes of the hour and seconds of the minute, as `formatDuration` computes them. */
  function DurationParts(seconds: nat): (p: (nat, nat, nat))
    ensures p.0 * 3600 + p.1 * 60 + p.2 == seconds
    ensures p.1 < 60 && p.2 < 60
  {
    var r := seconds % 3600;
    assert seconds == seconds / 3600 * 3600 + r;
    assert r == r / 60 * 60 + r % 60;
    DivModUnique(seconds, 60, seconds / 3600 * 60 + r / 60, r % 60);
    (seconds / 3600, r / 60, seconds % 60)
  }

  /** The decomposition is unique: any hours/minutes/seconds split of the total is that one. */
  lemma DurationPartsUnique(seconds: nat, h: nat, m: nat, s: nat)
    requires m < 60 && s < 60 && h * 3600 + m * 60 + s == seconds
    ensures DurationParts(seconds) == (h, m, s)
  {
    var p := DurationParts(seconds);
    DivModUnique(seconds, 3600, h, m * 60 + s);
    DivModUnique(m * 60 + s, 60, m, s);
    DivModUnique(seconds, 60, h * 60 + m, s);
  }

  /** `formatDuration`: `H:MM:SS` from one hour on, `M:SS` below. */
  function FormatDuration(seconds: nat): string {
    var (h, m, s) := DurationParts(seconds);
    if h > 0 then NatToString(h) + ":" + PadStart2(NatToString(m)) + ":" + PadStart2(NatToString(s))
    else NatToString(m) + ":" + PadStart2(NatToString(s))
  }

  /** A two-digit field below sixty, as minutes and seconds are written. */
  predicate SexagesimalField(f: string) {
    |f| == 2 && AllDigits(f) && Value(f) < 60
  }

  function Seconds(h: nat, m: nat, s: nat): nat {
    h * 3600 + m * 60 + s
  }

  /** Reads `H:MM:SS` (hours positive, no leading zero) or `M:SS` (minutes below sixty). */
  function ParseDuration(t: string): Option<nat> {
    if |t| < 4 || t[|t| - 3] != ':' then None
    else ParseFields(t[..|t| - 3], t[|t| - 2..])
  }

  /** The text before the seconds field, and the seconds field. */
  function ParseFields(head: string, ss: string): Option<nat> {
    if !SexagesimalField(ss) then None
    else if |head| >= 4 && head[|head| - 3] == ':' then ParseLong(head[..|head| - 3], head[|head| - 2..], ss)
    else ParseShort(head, ss)
  }

  function ParseLong(hh: string, mm: string, ss: string): Option<nat>
    requires SexagesimalField(ss)
  {
    if Canonical(hh) && Value(hh) > 0 && SexagesimalField(mm) then Some(Seconds(Value(hh), Value(mm), Value(ss))) else None
  }

  function ParseShort(mm: string, ss: string): Option<nat>
    requires SexagesimalField(ss)
  {
    if Canonical(mm) && Value(mm) < 60 then Some(Seconds(0, Value(mm), Value(ss))) else None
  }

  /** Cutting a text at its last ':' before a two-character field. */
  lemma SplitAtColon(a: string, b: string)
    requires |b| == 2
    ensures var t := a + ":" + b; |t| >= 3 && t[|t| - 3] == ':' && t[..|t| - 3] == a && t[|t| - 2..] == b
  {
  }

  lemma ParseLongForm(hh: string, mm: string, ss: string)
    requires Canonical(hh) && Value(hh) > 0 && SexagesimalField(mm) && SexagesimalField(ss)
    ensures ParseDuration(hh + ":" + mm + ":" + ss) == Some(Seconds(Value(hh), Value(mm), Value(ss)))
  {
    var head := hh + ":" + mm;
    SplitAtColon(head, ss);
    SplitAtColon(hh, mm);
    assert ParseFields(head, ss) == ParseLong(hh, mm, ss);
  }

  lemma ParseShortForm(mm: string, ss: string)
    requires Canonical(mm) && |mm| <= 2 && Value(mm) < 60 && SexagesimalField(ss)
    ensures ParseDuration(mm + ":" + ss) == Some(Seconds(0, Value(mm), Value(ss)))
  {
    SplitAtColon(mm, ss);
    assert ParseFields(mm, ss) == ParseShort(mm, ss);
  }

  /** Reading back a formatted duration gives the number of seconds. */
  lemma ParseFormatDuration(seconds: nat)
    ensures ParseDuration(FormatDuration(seconds)) == Some(seconds)
  {
    var p := DurationParts(seconds);
    var h, m, s := p.0, p.1, p.2;
    TwoDigitsValue(m);
    TwoDigitsValue(s);
    NatToStringValue(h);
    NatToStringValue(m);
    NatToStringLength(m);
    assert Seconds(h, m, s) == seconds;
    var hh, mm, ss := NatToString(h), PadStart2(NatToString(m)), PadStart2(NatToString(s));
    if h > 0 {
      assert FormatDuration(seconds) == hh + ":" + mm + ":" + ss;
      ParseLongForm(hh, mm, ss);
    } else {
      assert FormatDuration(seconds) == NatToString(m) + ":" + ss;
      ParseShortForm(NatToString(m), ss);
    }
  }

  /** Only the text `FormatDuration` writes is read: whatever parses is that text. */
  lemma FormatParseDuration(t: string, seconds: nat)
    requires ParseDuration(t) == Some(seconds)
    ensures FormatDuration(seconds) == t
  {
    var head, ss := t[..|t| - 3], t[|t| - 2..];
    assert ParseFields(head, ss) == Some(seconds);
    TwoDigitsText(ss);
    assert t == head + ":" + ss;
    if |head| >= 4 && head[|head| - 3] == ':' {
      var hh, mm := head[..|head| - 3], head[|head| - 2..];
      assert ParseLong(hh, mm, ss) == Some(seconds);
      TwoDigitsText(mm);
      ValueNatToString(hh);
      DurationPartsUnique(seconds, Value(hh), Value(mm), Value(ss));
      assert head == hh + ":" + mm;
    } else {
      assert ParseShort(head, ss) == Some(seconds);
      ValueNatToString(head);
      DurationPartsUnique(seconds, 0, Value(head), Value(ss));
    }
  }

  /** Text and duration determine each other. */
  lemma FormatDurationIff(seconds: nat, t: string)
    ensures FormatDuration(seconds) == t <==> ParseDuration(t) == Some(seconds)
  {
    ParseFormatDuration(seconds);
    if ParseDuration(t) == Some(seconds) {
      FormatParseDuration(t, seconds);
    }
  }

  /** Below one hour the whole duration is minutes (unpadded) and seconds (padded). */
  lemma ShortFormUnderAnHour(seconds: nat)
    requires seconds < 3600
    ensures FormatDuration(seconds) == NatToString(seconds / 60) + ":" + PadStart2(NatToString(seconds % 60))
  {
    DurationPartsUnique(seconds, 0, seconds / 60, seconds % 60);
  }

  // ------------------------------------------------------------------- views

  /**
   * `formatViews`: a count of millions or thousands with a suffix, or the
   * plain number. The scaled value is kept exact; `toFixed(1)` is not modelled.
   */
  datatype ViewsText = Scaled(value: real, suffix: string) | Plain(text: string)

  function FormatViews(views: nat): (r: ViewsText)
    ensures r.Scaled? && r.suffix == "M" <==> views >= 1000000
    ensures r.Scaled? && r.suffix == "K" <==> 1000 <= views < 1000000
    ensures r.Plain? <==> views < 1000
    ensures r.Scaled? ==> 1.0 <= r.value && (r.suffix == "K" ==> r.value < 1000.0)
    ensures r.Scaled? ==> r.value * (if r.suffix == "M" then 1000000.0 else 1000.0) == views as real
    ensures r.Plain? ==> Canonical(r.text) && Value(r.text) == views
  {
    NatToStringValue(views);
    if views >= 1000000 then Scaled(views as real / 1000000.0, "M")
    else if views >= 1000 then Scaled(views as real / 1000.0, "K")
    else Plain(NatToString(views))
  }

  // ----------------------------------------------------------------- time ago

  /** `formatTimeAgo`, as a function of the elapsed whole seconds (negative when in the future). */
  function TimeAgo(diffInSeconds: int): Ago {
    if diffInSeconds < 60 then JustNow
    else if diffInSeconds < 3600 then Ago(diffInSeconds / 60, Minutes)
    else if diffInSeconds < 86400 then Ago(diffInSeconds / 3600, Hours)
    else if diffInSeconds < 604800 then Ago(diffInSeconds / 86400, Days)
    else if diffInSeconds < 2592000 then Ago(diffInSeconds / 604800, Weeks)
    else Ago(diffInSeconds / 2592000, Months)
  }

  function FormatTimeAgo(diffInSeconds: int): string {
    AgoText(TimeAgo(diffInSeconds))
  }

  /** Each bucket's exact range and the range of its count. */
  lemma TimeAgoBuckets(d: int)
    ensures TimeAgo(d) == JustNow <==> d < 60
    ensures TimeAgo(d).Ago? && TimeAgo(d).unit == Minutes <==> 60 <= d < 3600
    ensures TimeAgo(d).Ago? && TimeAgo(d).unit == Hours <==> 3600 <= d < 86400
    ensures TimeAgo(d).Ago? && TimeAgo(d).unit == Days <==> 86400 <= d < 604800
    ensures TimeAgo(d).Ago? && TimeAgo(d).unit == Weeks <==> 604800 <= d < 2592000
    ensures TimeAgo(d).Ago? && TimeAgo(d).unit == Months <==> 2592000 <= d
    ensures TimeAgo(d).Ago? ==> match TimeAgo(d).unit
      case Minutes => 1 <= TimeAgo(d).count <= 59
      case Hours => 1 <= TimeAgo(d).count <= 23
      case Days => 1 <= TimeAgo(d).count <= 6
      case Weeks => 1 <= TimeAgo(d).count <= 4
      case Months => 1 <= TimeAgo(d).count
  {
  }

  /** Each count is the whole number of its unit in the difference. */
  lemma TimeAgoCountIsFloor(d: int, unitSeconds: nat)
    requires TimeAgo(d).Ago?
    requires unitSeconds == match TimeAgo(d).unit
      case Minutes => 60 case Hours => 3600 case Days => 86400 case Weeks => 604800 case Months => 2592000
    ensures TimeAgo(d).count * unitSeconds <= d < (TimeAgo(d).count + 1) * unitSeconds
  {
  }

  /** An older publication never looks more recent. */
  lemma TimeAgoMonotone(d1: int, d2: int)
    requires d1 <= d2
    ensures NotOlder(TimeAgo(d1), TimeAgo(d2))
  {
    if TimeAgo(d1).Ago? && Rank(TimeAgo(d1)) == Rank(TimeAgo(d2)) {
      var u := match TimeAgo(d1).unit
        case Minutes => 60 case Hours => 3600 case Days => 86400 case Weeks => 604800 case Months => 2592000;
      DivMonotone(d1, d2, u);
    }
  }

  lemma DivMonotone(a: int, b: int, d: int)
    requires 0 <= a <= b && d > 0
    ensures a / d <= b / d
  {
    if a / d > b / d {
      MulAtLeastDivisor(a / d - b / d, d);
    }
  }

  // -------------------------------------------------------------------- card

  const DefaultThumbnail: string := "/img/c1a04e2e-5efb-4932-a03d-df834442934a.jpg"

  /** `thumbnails?.[0] || default`: the first thumbnail unless it is missing or empty. */
  function Thumbnail(v: Video): (src: string)
    ensures src != ""
    ensures |v.thumbnails| > 0 && v.thumbnails[0] != "" ==> src == v.thumbnails[0]
    ensures |v.thumbnails| == 0 || v.thumbnails[0] == "" ==> src == DefaultThumbnail
  {
    if |v.thumbnails| > 0 && v.thumbnails[0] != "" then v.thumbnails[0] else DefaultThumbnail
  }

  /** `categories?.[0]`: the first category, when the list is present and non-empty. */
  function FirstCategory(v: Video): Option<CategoryRef> {
    match v.categories
    case Some(cs) => if |cs| > 0 then Some(cs[0]) else None
    case None => None
  }

  /** What a card shows; None where the variant or its flags leave the element out. */
  datatype CardView = CardView(
    href: string, thumbnail: string, duration: string, views: Option<ViewsText>,
    authorName: Option<string>, channelHref: Option<string>, timeAgo: Option<string>,
    categoryBadge: Option<string>)

  function BadgeFor(v: Video, showCategory: bool): Option<string> {
    if showCategory && FirstCategory(v).Some? then Some(FirstCategory(v).value.name) else None
  }

  /** The card for one video; `secondsSincePublished` stands for the clock reading. */
  function RenderCard(v: Video, variant: Variant, showAuthor: bool, showCategory: bool, secondsSincePublished: int): CardView {
    var href, thumb, dur := "/video/" + v.slug, Thumbnail(v), FormatDuration(v.durationSec);
    var views, ago := FormatViews(v.viewsCount), FormatTimeAgo(secondsSincePublished);
    match variant
    case Horizontal =>
      CardView(href, thumb, dur, if showAuthor then Some(views) else None,
        if showAuthor then Some(v.author.displayName) else None, None, Some(ago), BadgeFor(v, showCategory))
    case Compact =>
      CardView(href, thumb, dur, Some(views), None, None, None, None)
    case Default =>
      CardView(href, thumb, dur, Some(views),
        if showAuthor then Some(v.author.displayName) else None,
        if showAuthor then Some("/channel/" + v.author.handle) else None,
        Some(ago), BadgeFor(v, showCategory))
  }

  /** Every variant links to the video's slug, and two cards link alike exactly when their slugs agree. */
  lemma CardLinksBySlug(a: Video, b: Video, va: Variant, vb: Variant, sa: bool, sb: bool, ca: bool, cb: bool, ta: int, tb: int)
    ensures RenderCard(a, va, sa, ca, ta).href == "/video/" + a.slug
    ensures RenderCard(a, va, sa, ca, ta).href == RenderCard(b, vb, sb, cb, tb).href <==> a.slug == b.slug
  {
    var p := "/video/";
    if (p + a.slug) == (p + b.slug) {
      assert a.slug == (p + a.slug)[|p|..] && b.slug == (p + b.slug)[|p|..];
    }
  }

  /** The category badge appears only on the full-size variants, and only for a present first category. */
  lemma CategoryBadgeRule(v: Video, variant: Variant, showAuthor: bool, showCategory: bool, t: int)
    ensures RenderCard(v, variant, showAuthor, showCategory, t).categoryBadge.Some?
      <==> variant != Compact && showCategory && v.categories.Some? && |v.categories.value| > 0
    ensures RenderCard(v, variant, showAuthor, showCategory, t).categoryBadge.Some?
      ==> RenderCard(v, variant, showAuthor, showCategory, t).categoryBadge.value == v.categories.value[0].name
  {
  }

  /**
   * What each variant shows: views except on a horizontal card without the
   * author, the author on the two larger variants when asked for, the
   * channel link on the default card only, the age everywhere but compact.
   */
  lemma CardElements(v: Video, variant: Variant, showAuthor: bool, showCategory: bool, t: int)
    ensures var card := RenderCard(v, variant, showAuthor, showCategory, t);
      && (card.views.Some? <==> variant != Horizontal || showAuthor)
      && (card.authorName.Some? <==> variant != Compact && showAuthor)
      && (card.channelHref.Some? <==> variant == Default && showAuthor)
      && (card.channelHref.Some? ==> card.channelHref.value == "/channel/" + v.author.handle)
      && (card.timeAgo.Some? <==> variant != Compact)
      && card.thumbnail == Thumbnail(v) && card.duration == FormatDuration(v.durationSec)
  {
  }
}
