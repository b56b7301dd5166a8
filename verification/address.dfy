/** The display label of a leaderboard entry: "0x", eight lower-case hex
    digits, "...". The digits come from the random source, so they are a
    parameter here. */
module Address {

  import opened Options

  /** The alphabet the label draws from, indexed by a random digit. */
  const HexChars: string := "0123456789abcdef"

  /** How many random digits a label has. */
  const DigitCount: nat := 8

  /** A draw of `Math.floor(Math.random() * 16)`. */
  type Nibble = d: int | 0 <= d < 16

  /** Position of `c` in the alphabet, if it is there. */
  function HexValue(c: char): (r: Option<Nibble>)
    ensures r.Some? <==> c in HexChars
    ensures r.Some? ==> HexChars[r.value] == c
  {
    HexCharsSpelled();
    if '0' <= c <= '9' then Some(c as int - '0' as int)
    else if 'a' <= c <= 'f' then Some(c as int - 'a' as int + 10)
    else
      assert forall i :: 0 <= i < |HexChars| ==> HexChars[i] != c;
      None
  }

  /** The alphabet is the ten decimal digits followed by `a` to `f`. */
  lemma HexCharsSpelled()
    ensures |HexChars| == 16
    ensures forall i :: 0 <= i < 10 ==> HexChars[i] == ('0' as int + i) as char
    ensures forall i :: 10 <= i < 16 ==> HexChars[i] == ('a' as int + i - 10) as char
  {
  }

  /** The hex characters of `ds`, one per digit. */
  function HexString(ds: seq<Nibble>): (r: string)
    ensures |r| == |ds|
  {
    if |ds| == 0 then [] else HexString(ds[..|ds| - 1]) + [HexChars[ds[|ds| - 1]]]
  }

  /** Character `i` of the hex string is the alphabet entry of digit `i`. */
  lemma {:induction false} HexStringAt(ds: seq<Nibble>, i: nat)
    requires i < |ds|
    ensures HexString(ds)[i] == HexChars[ds[i]]
    decreases |ds|
  {
    var n := |ds| - 1;
    if i < n {
      HexStringAt(ds[..n], i);
    }
  }

  /** The label for the given eight digits. */
  function Render(ds: seq<Nibble>): (a: string)
    requires |ds| == DigitCount
    ensures |a| == 13
    ensures a[..2] == "0x" && a[10..] == "..."
    ensures forall i :: 2 <= i < 10 ==> a[i] in HexChars
  {
    var h := HexString(ds);
    forall i | 0 <= i < DigitCount
      ensures h[i] in HexChars
    {
      HexStringAt(ds, i);
    }
    "0x" + h + "..."
  }

  /** The digits of a hex string, or None if a character is outside the alphabet. */
  function ParseHex(s: string): (r: Option<seq<Nibble>>)
    ensures r.Some? ==> |r.value| == |s|
  {
    if |s| == 0 then Some([])
    else match (ParseHex(s[..|s| - 1]), HexValue(s[|s| - 1]))
      case (Some(ds), Some(d)) => Some(ds + [d])
      case _ => None
  }

  /** The digits of a label, or None when it does not have the label's shape. */
  function Parse(a: string): Option<seq<Nibble>> {
    if |a| == 13 && a[..2] == "0x" && a[10..] == "..." then ParseHex(a[2..10]) else None
  }

  lemma {:induction false} ParseHexString(ds: seq<Nibble>)
    ensures ParseHex(HexString(ds)) == Some(ds)
    decreases |ds|
  {
    if |ds| > 0 {
      var n := |ds| - 1;
      var front := ds[..n];
      assert ds == front + [ds[n]];
      HexStringSnoc(front, ds[n]);
      ParseHexString(front);
      HexValueOfHexChar(ds[n]);
      ParseHexSnoc(HexString(front), HexChars[ds[n]]);
    }
  }

  lemma {:induction false} HexStringOfParse(s: string)
    requires ParseHex(s).Some?
    ensures HexString(ParseHex(s).value) == s
    decreases |s|
  {
    if |s| > 0 {
      var n := |s| - 1;
      var front := ParseHex(s[..n]).value;
      var d := HexValue(s[n]).value;
      HexStringOfParse(s[..n]);
      HexStringSnoc(front, d);
      SnocFront(s);
    }
  }

  /** A non-empty sequence is its front followed by its last element. */
  lemma SnocFront<T>(s: seq<T>)
    requires |s| > 0
    ensures s == s[..|s| - 1] + [s[|s| - 1]]
  {
  }

  /** One more digit adds its character at the end. */
  lemma HexStringSnoc(ds: seq<Nibble>, d: Nibble)
    ensures HexString(ds + [d]) == HexString(ds) + [HexChars[d]]
  {
    assert (ds + [d])[..|ds|] == ds;
  }

  /** One more character parses as one more digit, or spoils the parse. */
  lemma ParseHexSnoc(p: string, c: char)
    ensures ParseHex(p + [c]) ==
      match (ParseHex(p), HexValue(c))
      case (Some(ds), Some(d)) => Some(ds + [d])
      case _ => None
  {
    assert (p + [c])[..|p|] == p;
  }

  lemma HexValueOfHexChar(d: Nibble)
    ensures HexValue(HexChars[d]) == Some(d)
  {
  }

  /** A label determines its digits, and only labels parse: `Parse` is the
      inverse of `Render`. */
  lemma RenderParse(ds: seq<Nibble>, a: string)
    requires |ds| == DigitCount
    ensures Parse(a) == Some(ds) <==> a == Render(ds)
  {
    if a == Render(ds) {
      ParseRender(ds);
    }
    if Parse(a) == Some(ds) {
      RenderOfParse(a);
    }
  }

  lemma ParseRender(ds: seq<Nibble>)
    requires |ds| == DigitCount
    ensures Parse(Render(ds)) == Some(ds)
  {
    var h := HexString(ds);
    assert ("0x" + h + "...")[2..10] == h;
    ParseHexString(ds);
  }

  lemma RenderOfParse(a: string)
    requires Parse(a).Some?
    ensures |Parse(a).value| == DigitCount
    ensures Render(Parse(a).value) == a
  {
    var h := a[2..10];
    HexStringOfParse(h);
    Reassemble(a);
  }

  lemma Reassemble(a: string)
    requires |a| == 13
    ensures a == a[..2] + a[2..10] + a[10..]
  {
  }

  /** `generateDegeneAddress`: the loop of the source, one digit per turn. */
  method Generate(ds: seq<Nibble>) returns (address: string)
    requires |ds| == DigitCount
    ensures address == Render(ds)
  {
    address := "0x";
    var i := 0;
    while i < DigitCount
      invariant 0 <= i <= DigitCount
      invariant address == "0x" + HexString(ds[..i])
    {
      assert ds[..i + 1] == ds[..i] + [ds[i]];
      address := address + [HexChars[ds[i]]];
      i := i + 1;
    }
    assert ds[..DigitCount] == ds;
    address := address + "...";
  }
}
