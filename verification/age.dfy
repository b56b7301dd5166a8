/** `formatTime`: the age of a leaderboard entry as "<n>s ago", "<n>m ago" or
    "<n>h ago". The current time is a parameter. */
module Age {

  import opened Options

  /** The three buckets, each with the whole number of its unit. */
  datatype Age = Seconds(n: int) | Minutes(n: int) | Hours(n: int)

  const MillisPerSecond: int := 1000
  const SecondsPerMinute: int := 60
  const SecondsPerHour: int := 3600

  /** `Math.floor((now - timestamp) / 1000)`. Dafny's `/` by a positive
      divisor rounds toward negative infinity, as `Math.floor` does, also
      when the timestamp lies in the future. */
  function ElapsedSeconds(now: int, timestamp: int): int {
    (now - timestamp) / MillisPerSecond
  }

  /** The bucket for an elapsed time in whole seconds. */
  function AgeOfSeconds(seconds: int): (a: Age)
    ensures a.Seconds? <==> seconds < SecondsPerMinute
    ensures a.Minutes? <==> SecondsPerMinute <= seconds < SecondsPerHour
    ensures a.Hours? <==> SecondsPerHour <= seconds
    ensures a.Seconds? ==> a.n == seconds
    ensures a.Minutes? ==> 1 <= a.n < 60 && a.n * SecondsPerMinute <= seconds < (a.n + 1) * SecondsPerMinute
    ensures a.Hours? ==> 1 <= a.n && a.n * SecondsPerHour <= seconds < (a.n + 1) * SecondsPerHour
  {
    if seconds < SecondsPerMinute then Seconds(seconds)
    else if seconds < SecondsPerHour then Minutes(seconds / SecondsPerMinute)
    else Hours(seconds / SecondsPerHour)
  }

  // ---------------------------------------------------------------------
  // Decimal text, as `${n}` writes an integer

  function DigitChar(d: int): char
    requires 0 <= d < 10
  {
    ('0' as int + d) as char
  }

  function DigitValue(c: char): (r: Option<int>)
    ensures r.Some? ==> 0 <= r.value < 10
  {
    if '0' <= c <= '9' then Some(c as int - '0' as int) else None
  }

  /** The decimal digits of `n`, most significant first, without leading zeros. */
  function NatDigits(n: nat): (s: string)
    ensures |s| >= 1
    ensures n == 0 || s[0] != '0'
    decreases n
  {
    if n < 10 then [DigitChar(n)] else NatDigits(n / 10) + [DigitChar(n % 10)]
  }

  /** Template-literal rendering of an integer: a minus sign for negatives. */
  function Decimal(n: int): string {
    if n < 0 then "-" + NatDigits(-n) else NatDigits(n)
  }

  /** The value of a non-empty run of decimal digits. */
  function ParseDigits(s: string): (r: Option<nat>)
    decreases |s|
  {
    if |s| == 0 then None
    else
      var d := DigitValue(s[|s| - 1]);
      if d.None? then None
      else if |s| == 1 then Some(d.value)
      else match ParseDigits(s[..|s| - 1])
        case None => None
        case Some(v) => Some(v * 10 + d.value)
  }

  /** The value of an optionally signed decimal. */
  function ParseDecimal(s: string): Option<int> {
    if |s| > 0 && s[0] == '-' then
      match ParseDigits(s[1..])
      case None => None
      case Some(v) => Some(0 - v as int)
    else ParseDigits(s)
  }

  lemma {:induction false} ParseNatDigits(n: nat)
    ensures ParseDigits(NatDigits(n)) == Some(n)
    decreases n
  {
    if n >= 10 {
      var s := NatDigits(n);
      var front := NatDigits(n / 10);
      ParseNatDigits(n / 10);
      assert s[..|s| - 1] == front;
      assert DigitValue(s[|s| - 1]) == Some(n % 10);
    }
  }

  /** Reading back the decimal text gives the number. */
  lemma ParseDecimalRoundTrip(n: int)
    ensures ParseDecimal(Decimal(n)) == Some(n)
  {
    if n < 0 {
      NegativeRoundTrip(n);
    } else {
      NonNegativeRoundTrip(n);
    }
  }

  lemma NegativeRoundTrip(n: int)
    requires n < 0
    ensures ParseDecimal(Decimal(n)) == Some(n)
  {
    var t := NatDigits(-n);
    var s := Decimal(n);
    assert s == "-" + t;
    assert s[0] == '-' && s[1..] == t;
    ParseNatDigits(-n);
    assert ParseDigits(s[1..]) == Some(-n);
  }

  lemma NonNegativeRoundTrip(n: nat)
    ensures ParseDecimal(Decimal(n)) == Some(n)
  {
    NatDigitsAreDigits(n);
    assert '0' <= NatDigits(n)[0];
    ParseNatDigits(n);
  }

  lemma {:induction false} NatDigitsAreDigits(n: nat)
    ensures forall i :: 0 <= i < |NatDigits(n)| ==> '0' <= NatDigits(n)[i] <= '9'
    decreases n
  {
    if n >= 10 {
      NatDigitsAreDigits(n / 10);
    }
  }

  // ---------------------------------------------------------------------
  // formatTime

  /** The text for a bucket. */
  function Show(a: Age): string {
    match a
    case Seconds(n) => Decimal(n) + "s ago"
    case Minutes(n) => Decimal(n) + "m ago"
    case Hours(n) => Decimal(n) + "h ago"
  }

  /** `formatTime(timestamp)` read at time `now`. */
  function FormatTime(now: int, timestamp: int): (text: string)
    ensures var s := ElapsedSeconds(now, timestamp);
      && (s < SecondsPerMinute ==> text == Decimal(s) + "s ago")
      && (SecondsPerMinute <= s < SecondsPerHour ==> text == Decimal(s / SecondsPerMinute) + "m ago")
      && (SecondsPerHour <= s ==> text == Decimal(s / SecondsPerHour) + "h ago")
  {
    Show(AgeOfSeconds(ElapsedSeconds(now, timestamp)))
  }

  /** Reads a text of the form "<n>s ago", "<n>m ago" or "<n>h ago". */
  function ParseAge(text: string): Option<Age> {
    if |text| < 5 || text[|text| - 4..] != " ago" then None
    else
      var unit := text[|text| - 5];
      match ParseDecimal(text[..|text| - 5])
      case None => None
      case Some(n) =>
        if unit == 's' then Some(Seconds(n))
        else if unit == 'm' then Some(Minutes(n))
        else if unit == 'h' then Some(Hours(n))
        else None
  }

  /** The displayed age determines the bucket and its count. */
  lemma ParseShow(a: Age)
    ensures ParseAge(Show(a)) == Some(a)
  {
    var d := Decimal(a.n);
    var u := match a case Seconds(_) => 's' case Minutes(_) => 'm' case Hours(_) => 'h';
    var t := Show(a);
    assert t == d + [u] + " ago";
    ThreeParts(d, u, " ago");
    assert |t| - 5 == |d|;
    ParseDecimalRoundTrip(a.n);
    assert ParseDecimal(t[..|t| - 5]) == Some(a.n);
  }

  /** Cutting `a + [x] + b` at the ends of `a` and `[x]` gives the parts back. */
  lemma ThreeParts<T>(a: seq<T>, x: T, b: seq<T>)
    ensures var t := a + [x] + b;
      && t[..|a|] == a && t[|a|] == x && t[|a| + 1..] == b
  {
  }

  /** The text `formatTime` shows reads back as the bucket of the elapsed
      seconds: distinct ages never render alike. */
  lemma FormatTimeReadsBack(now: int, timestamp: int)
    ensures ParseAge(FormatTime(now, timestamp)) == Some(AgeOfSeconds(ElapsedSeconds(now, timestamp)))
  {
    ParseShow(AgeOfSeconds(ElapsedSeconds(now, timestamp)));
  }
}
