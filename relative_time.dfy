/**
 * The relative-time text both card components render: "только что" or
 * "N <unit> назад". Which bucket a time difference falls into is decided by
 * each card (VideoCard and PlaylistCard differ there).
 */
module RelativeTime {
  import opened Wrappers
  import opened Decimal

  datatype Unit = Minutes | Hours | Days | Weeks | Months

  /** A bucketed time difference: just now, or a whole count of one unit. */
  datatype Ago = JustNow | Ago(count: nat, unit: Unit)

  function UnitWord(u: Unit): string {
    match u
    case Minutes => "мин"
    case Hours => "ч"
    case Days => "дней"
    case Weeks => "недель"
    case Months => "месяцев"
  }

  /** The text shown on the card. */
  function AgoText(a: Ago): string {
    match a
    case JustNow => "только что"
    case Ago(n, u) => NatToString(n) + " " + UnitWord(u) + " назад"
  }

  /** Buckets ordered from the most recent to the oldest. */
  function Rank(a: Ago): nat {
    match a
    case JustNow => 0
    case Ago(_, Minutes) => 1
    case Ago(_, Hours) => 2
    case Ago(_, Days) => 3
    case Ago(_, Weeks) => 4
    case Ago(_, Months) => 5
  }

  /** a is no more recent-looking than b: an earlier bucket, or the same unit with no larger count. */
  predicate NotOlder(a: Ago, b: Ago) {
    Rank(a) < Rank(b) || (Rank(a) == Rank(b) && (a.Ago? ==> a.count <= b.count))
  }

  /** The length of the leading run of digits. */
  function LeadingDigits(t: string): (k: nat)
    ensures k <= |t| && AllDigits(t[..k])
    ensures k < |t| ==> !IsDigit(t[k])
  {
    if t == [] || !IsDigit(t[0]) then 0
    else
      var k := 1 + LeadingDigits(t[1..]);
      assert t[..k] == [t[0]] + t[1..][..k - 1];
      k
  }

  function UnitOfWord(w: string): Option<Unit> {
    if w == "мин" then Some(Minutes)
    else if w == "ч" then Some(Hours)
    else if w == "дней" then Some(Days)
    else if w == "недель" then Some(Weeks)
    else if w == "месяцев" then Some(Months)
    else None
  }

  /** Reads a card's relative-time text back into its bucket. */
  function ParseAgo(t: string): Option<Ago> {
    if t == "только что" then Some(JustNow) else ParseCounted(t)
  }

  /** Reads "N <unit> назад". */
  function ParseCounted(t: string): Option<Ago> {
    var k := LeadingDigits(t);
    var rest := t[k..];
    if k == 0 || !Canonical(t[..k]) || |rest| < 7 || rest[0] != ' ' || rest[|rest| - 6..] != " назад" then None
    else match UnitOfWord(rest[1..|rest| - 6])
      case None => None
      case Some(u) => Some(Ago(Value(t[..k]), u))
  }

  lemma LeadingDigitsOf(d: string, rest: string)
    requires AllDigits(d) && (rest == [] || !IsDigit(rest[0]))
    ensures LeadingDigits(d + rest) == |d|
  {
    if d != [] {
      assert (d + rest)[1..] == d[1..] + rest;
      LeadingDigitsOf(d[1..], rest);
    }
  }

  lemma UnitWordRoundTrip(u: Unit)
    ensures UnitOfWord(UnitWord(u)) == Some(u)
  {
  }

  lemma ParseCountedOf(d: string, u: Unit)
    requires Canonical(d)
    ensures ParseCounted(d + (" " + UnitWord(u) + " назад")) == Some(Ago(Value(d), u))
  {
    var rest := " " + UnitWord(u) + " назад";
    var t := d + rest;
    LeadingDigitsOf(d, rest);
    assert t[..|d|] == d && t[|d|..] == rest;
    assert |rest| >= 7 && rest[0] == ' ';
    assert rest[|rest| - 6..] == " назад";
    assert rest[1..|rest| - 6] == UnitWord(u);
    UnitWordRoundTrip(u);
  }

  /** The text determines the bucket: reading it back gives the same bucket and count. */
  lemma ParseAgoText(a: Ago)
    ensures ParseAgo(AgoText(a)) == Some(a)
  {
    if a.Ago? {
      var d := NatToString(a.count);
      NatToStringValue(a.count);
      var t := d + (" " + UnitWord(a.unit) + " назад");
      assert AgoText(a) == t;
      assert t != "только что" by {
        assert IsDigit(t[0]) && !IsDigit("только что"[0]);
      }
      ParseCountedOf(d, a.unit);
    }
  }

  /** Two differences are rendered alike exactly when they fall into the same bucket. */
  lemma AgoTextInjective(a: Ago, b: Ago)
    ensures AgoText(a) == AgoText(b) <==> a == b
  {
    if AgoText(a) == AgoText(b) {
      ParseAgoText(a);
      ParseAgoText(b);
    }
  }
}
