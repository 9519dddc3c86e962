/**
 * The playlist card: its total-duration and relative-time formatters, the
 * visibility icon and label maps, and its link.
 */
module PlaylistCard {
  import opened Wrappers
  import opened Decimal
  import opened RelativeTime
  import VideoCard

  datatype Visibility = Public | Unlisted | Private

  datatype Owner = Owner(displayName: string, handle: string)
  datatype Playlist = Playlist(
    id: string, slug: string, title: string, description: Option<string>, cover: Option<string>,
    visibility: Visibility, videosCount: nat, totalDuration: nat, owner: Owner, updatedAt: string)

  // ---------------------------------------------------------------- duration

  /** `formatDuration`: "{h} ч {m} мин" from one hour on, "{m} мин" below; seconds are dropped. */
  function FormatDuration(seconds: nat): string {
    var hours := seconds / 3600;
    var minutes := (seconds % 3600) / 60;
    if hours > 0 then NatToString(hours) + " ч " + NatToString(minutes) + " мин"
    else NatToString(minutes) + " мин"
  }

  /** The minutes field is the minutes of the hour, always below sixty. */
  lemma MinutesFieldBelowSixty(seconds: nat)
    ensures (seconds % 3600) / 60 < 60
    ensures seconds / 3600 * 60 + (seconds % 3600) / 60 == seconds / 60
  {
    var r := seconds % 3600;
    assert seconds == seconds / 3600 * 3600 + r;
    DivModUnique(seconds, 60, seconds / 3600 * 60 + r / 60, r % 60);
  }

  /** The text depends on the whole minutes only. */
  lemma DependsOnlyOnWholeMinutes(s1: nat, s2: nat)
    requires s1 / 60 == s2 / 60
    ensures FormatDuration(s1) == FormatDuration(s2)
  {
    MinutesFieldBelowSixty(s1);
    MinutesFieldBelowSixty(s2);
    var m := s1 / 60;
    DivModUnique(m, 60, s1 / 3600, (s1 % 3600) / 60);
    DivModUnique(m, 60, s2 / 3600, (s2 % 3600) / 60);
  }

  /** Leftover seconds are dropped: 59 seconds read as zero minutes. */
  lemma FiftyNineSecondsIsZeroMinutes()
    ensures FormatDuration(59) == "0 мин"
  {
  }

  /** Reads the duration text back as a number of whole minutes. */
  function ParseDuration(t: string): Option<nat> {
    if |t| < 5 || t[|t| - 4..] != " мин" then None else ParseHead(t[..|t| - 4])
  }

  /** The minutes field is the last one or two digits of the text before " мин". */
  function MinutesWidth(head: string): nat {
    if |head| >= 2 && IsDigit(head[|head| - 2]) then 2 else 1
  }

  function ParseHead(head: string): Option<nat>
    requires |head| >= 1
  {
    var k := MinutesWidth(head);
    var mm, rest := head[|head| - k..], head[..|head| - k];
    if !Canonical(mm) || Value(mm) >= 60 then None
    else if rest == [] then Some(Value(mm))
    else match ParseHours(rest)
      case None => None
      case Some(h) => Some(WholeMinutes(h, Value(mm)))
  }

  /** The hours field: a positive number followed by " ч ". */
  function ParseHours(rest: string): Option<nat> {
    if |rest| >= 4 && rest[|rest| - 3..] == " ч " && Canonical(rest[..|rest| - 3]) && Value(rest[..|rest| - 3]) > 0
    then Some(Value(rest[..|rest| - 3]))
    else None
  }

  function WholeMinutes(h: nat, m: nat): nat {
    h * 60 + m
  }

  lemma ParseHoursOf(hh: string)
    requires Canonical(hh) && Value(hh) > 0
    ensures ParseHours(hh + " ч ") == Some(Value(hh))
  {
    var rest := hh + " ч ";
    assert rest[|rest| - 3..] == " ч " && rest[..|rest| - 3] == hh;
  }

  lemma ParseHoursText(rest: string, h: nat)
    requires ParseHours(rest) == Some(h)
    ensures h > 0 && rest == NatToString(h) + " ч "
  {
    var hh := rest[..|rest| - 3];
    assert rest == hh + " ч ";
    ValueNatToString(hh);
  }

  /** Splitting the text before " мин" at the minutes field. */
  lemma SplitHead(rest: string, mm: string)
    requires Canonical(mm) && |mm| <= 2
    requires rest == [] || rest[|rest| - 1] == ' '
    ensures var head := rest + mm; MinutesWidth(head) == |mm| && head[|head| - |mm|..] == mm && head[..|head| - |mm|] == rest
  {
    var head := rest + mm;
    assert |mm| == 2 ==> head[|head| - 2] == mm[0];
    assert |mm| == 1 && |head| >= 2 ==> head[|head| - 2] == ' ';
  }

  lemma ParseLongForm(hh: string, mm: string)
    requires Canonical(hh) && Value(hh) > 0 && Canonical(mm) && |mm| <= 2 && Value(mm) < 60
    ensures ParseDuration(hh + " ч " + mm + " мин") == Some(WholeMinutes(Value(hh), Value(mm)))
  {
    var rest := hh + " ч ";
    var t := rest + mm + " мин";
    assert t[|t| - 4..] == " мин" && t[..|t| - 4] == rest + mm;
    SplitHead(rest, mm);
    ParseHoursOf(hh);
  }

  lemma ParseShortForm(mm: string)
    requires Canonical(mm) && |mm| <= 2 && Value(mm) < 60
    ensures ParseDuration(mm + " мин") == Some(Value(mm))
  {
    var t := mm + " мин";
    assert t[|t| - 4..] == " мин" && t[..|t| - 4] == mm;
    assert ParseDuration(t) == ParseHead(mm);
    SplitHead([], mm);
    assert [] + mm == mm;
  }

  /** Reading back the text gives the whole minutes of the duration. */
  lemma ParseFormatDuration(seconds: nat)
    ensures ParseDuration(FormatDuration(seconds)) == Some(seconds / 60)
  {
    var hours, minutes := seconds / 3600, (seconds % 3600) / 60;
    MinutesFieldBelowSixty(seconds);
    NatToStringValue(hours);
    NatToStringValue(minutes);
    NatToStringLength(minutes);
    var hs, ms := NatToString(hours), NatToString(minutes);
    assert WholeMinutes(hours, minutes) == seconds / 60;
    if hours > 0 {
      assert FormatDuration(seconds) == hs + " ч " + ms + " мин";
      ParseLongForm(hs, ms);
    } else {
      assert FormatDuration(seconds) == ms + " мин";
      ParseShortForm(ms);
    }
  }

  /** The text of h hours and m < 60 minutes. */
  lemma FormatWholeMinutes(h: nat, m: nat)
    requires m < 60
    ensures FormatDuration(WholeMinutes(h, m) * 60) ==
      if h > 0 then NatToString(h) + " ч " + NatToString(m) + " мин" else NatToString(m) + " мин"
  {
    var s := WholeMinutes(h, m) * 60;
    assert s == h * 3600 + m * 60;
    DivModUnique(s, 3600, h, m * 60);
    DivModUnique(m * 60, 60, m, 0);
  }

  /** Only the text `FormatDuration` writes is read: whatever parses to m minutes is the text of m minutes. */
  lemma FormatParseDuration(t: string, minutes: nat)
    requires ParseDuration(t) == Some(minutes)
    ensures FormatDuration(minutes * 60) == t
  {
    var head := t[..|t| - 4];
    assert t == head + " мин";
    var k := MinutesWidth(head);
    var mm, rest := head[|head| - k..], head[..|head| - k];
    assert head == rest + mm;
    ValueNatToString(mm);
    var m := Value(mm);
    if rest == [] {
      assert minutes == WholeMinutes(0, m);
      FormatWholeMinutes(0, m);
    } else {
      var h :| ParseHours(rest) == Some(h);
      ParseHoursText(rest, h);
      assert minutes == WholeMinutes(h, m);
      FormatWholeMinutes(h, m);
    }
  }

  // ----------------------------------------------------------------- time ago

  /** `formatTimeAgo`: the same buckets as the video card up to weeks, and no month bucket. */
  function TimeAgo(diffInSeconds: int): Ago {
    if diffInSeconds < 60 then JustNow
    else if diffInSeconds < 3600 then Ago(diffInSeconds / 60, Minutes)
    else if diffInSeconds < 86400 then Ago(diffInSeconds / 3600, Hours)
    else if diffInSeconds < 604800 then Ago(diffInSeconds / 86400, Days)
    else Ago(diffInSeconds / 604800, Weeks)
  }

  function FormatTimeAgo(diffInSeconds: int): string {
    AgoText(TimeAgo(diffInSeconds))
  }

  /** Weeks are the last bucket: from one week on the count of weeks grows without bound. */
  lemma TimeAgoNoMonths(d: int)
    ensures TimeAgo(d).Ago? ==> TimeAgo(d).unit != Months
    ensures TimeAgo(d).Ago? && TimeAgo(d).unit == Weeks <==> d >= 604800
    ensures d >= 604800 ==> TimeAgo(d).count == d / 604800 && TimeAgo(d).count >= 1
  {
  }

  /** Below thirty days both cards render the same text; from thirty days on they differ. */
  lemma AgreesWithVideoCardBelowAMonth(d: int)
    ensures d < 2592000 ==> FormatTimeAgo(d) == VideoCard.FormatTimeAgo(d)
    ensures d >= 2592000 ==> FormatTimeAgo(d) != VideoCard.FormatTimeAgo(d)
  {
    if d >= 2592000 {
      AgoTextInjective(TimeAgo(d), VideoCard.TimeAgo(d));
    }
  }

  /** An older update never looks more recent. */
  lemma TimeAgoMonotone(d1: int, d2: int)
    requires d1 <= d2
    ensures NotOlder(TimeAgo(d1), TimeAgo(d2))
  {
    if TimeAgo(d1).Ago? && Rank(TimeAgo(d1)) == Rank(TimeAgo(d2)) {
      var u := match TimeAgo(d1).unit
        case Minutes => 60 case Hours => 3600 case Days => 86400 case _ => 604800;
      VideoCard.DivMonotone(d1, d2, u);
    }
  }

  // -------------------------------------------------------------- visibility

  function VisibilityIcon(v: Visibility): string {
    match v
    case Public => "Globe"
    case Unlisted => "Link"
    case Private => "Lock"
  }

  function VisibilityLabel(v: Visibility): string {
    match v
    case Public => "Публичный"
    case Unlisted => "По ссылке"
    case Private => "Приватный"
  }

  /** The label read back as a visibility. */
  function VisibilityOfLabel(text: string): Option<Visibility> {
    if text == "Публичный" then Some(Public)
    else if text == "По ссылке" then Some(Unlisted)
    else if text == "Приватный" then Some(Private)
    else None
  }

  /** Both maps are total and tell the three visibilities apart. */
  lemma VisibilityMapsDistinguish(a: Visibility, b: Visibility)
    ensures VisibilityOfLabel(VisibilityLabel(a)) == Some(a)
    ensures VisibilityIcon(a) == VisibilityIcon(b) <==> a == b
    ensures VisibilityLabel(a) == VisibilityLabel(b) <==> a == b
  {
  }

  // -------------------------------------------------------------------- card

  /** The link all three card variants share: "/playlist/" and then the slug, nothing else. */
  function PlaylistHref(p: Playlist): (href: string)
    ensures |href| == |"/playlist/"| + |p.slug|
    ensures href[..|"/playlist/"|] == "/playlist/" && href[|"/playlist/"|..] == p.slug
  {
    "/playlist/" + p.slug
  }

  lemma PlaylistHrefBySlug(a: Playlist, b: Playlist)
    ensures PlaylistHref(a) == PlaylistHref(b) <==> a.slug == b.slug
  {
  }
}
