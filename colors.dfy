/** Colour values of the guessing game: the three 8-bit channels of an RGB
    triple, the `floor(x * 256)` that draws each channel, and the CSS text
    `rgb(R, G, B)` that the game stores and compares. A parser for that text
    is the independent partner of the formatter: formatting then parsing gives
    the triple back, so two triples format to the same string only when they
    are equal. */
module Colors {

  /** One colour channel: an integer in [0, 255]. */
  type Channel = c: int | 0 <= c < 256

  datatype Rgb = Rgb(red: Channel, green: Channel, blue: Channel)

  /** A colour as the game holds it: the formatted CSS string. */
  type Color = string

  datatype Option<T> = None | Some(value: T) {
    predicate IsFailure() { None? }

    function PropagateFailure<U>(): Option<U>
      requires None?
    {
      None
    }

    function Extract(): T
      requires Some?
    {
      value
    }
  }

  // ---------------------------------------------------------------------------
  // Drawing a channel

  /** `Math.floor(x * 256)` for a draw `x = num / den` in [0, 1). Multiplying
      a binary floating-point number by 256 is exact, so the channel is the
      integer quotient; it is the unique c with c <= x * 256 < c + 1. */
  function ChannelOf(num: nat, den: nat): (c: Channel)
    requires num < den
    ensures c * den <= num * 256 < (c + 1) * den
  {
    num * 256 / den
  }

  // ---------------------------------------------------------------------------
  // Decimal text of a channel, as a JavaScript template literal writes a
  // non-negative integer: no sign, no leading zeros, "0" for zero.

  predicate IsDigit(ch: char) { '0' <= ch <= '9' }

  predicate AllDigits(s: string) { forall i :: 0 <= i < |s| ==> IsDigit(s[i]) }

  function DigitChar(d: int): (ch: char)
    requires 0 <= d < 10
    ensures IsDigit(ch)
  {
    (48 + d) as char
  }

  function DigitValue(ch: char): (d: nat)
    requires IsDigit(ch)
    ensures d < 10 && DigitChar(d) == ch
  {
    ch as int - 48
  }

  function Decimal(n: nat): (s: string)
    ensures |s| > 0 && AllDigits(s)
    ensures s[0] == '0' <==> n == 0
    ensures s[0] == '0' ==> |s| == 1
  {
    if n < 10 then [DigitChar(n)] else Decimal(n / 10) + [DigitChar(n % 10)]
  }

  /** The number a string of decimal digits denotes. */
  function Value(s: string): nat
    requires AllDigits(s)
  {
    if s == [] then 0 else Value(s[..|s| - 1]) * 10 + DigitValue(s[|s| - 1])
  }

  lemma {:induction false} ValueOfDecimal(n: nat)
    ensures Value(Decimal(n)) == n
  {
    if n >= 10 {
      var s := Decimal(n);
      assert s[..|s| - 1] == Decimal(n / 10);
      ValueOfDecimal(n / 10);
    }
  }

  // ---------------------------------------------------------------------------
  // Formatting

  /** The string `generateRandomColor` builds from its three channels. It has
      the form `rgb(R, G, B)`: the reference parser reads the triple back. */
  function FormatRgb(c: Rgb): (s: Color)
    ensures ParseRgb(s) == Some(c)
  {
    FormatRoundTrip(c);
    "rgb(" + Decimal(c.red) + ", " + Decimal(c.green) + ", " + Decimal(c.blue) + ")"
  }

  // ---------------------------------------------------------------------------
  // Parsing: the reference reading of the `rgb(R, G, B)` form

  /** Length of the longest prefix of s made of decimal digits. */
  function DigitRun(s: string): (k: nat)
    ensures k <= |s|
    ensures forall i :: 0 <= i < k ==> IsDigit(s[i])
    ensures k < |s| ==> !IsDigit(s[k])
  {
    if s == [] || !IsDigit(s[0]) then 0 else 1 + DigitRun(s[1..])
  }

  /** Reads a non-empty run of digits without a leading zero (a lone "0" is
      allowed) and returns its value and what follows. */
  function ParseNumber(s: string): Option<(nat, string)>
  {
    var k := DigitRun(s);
    if k == 0 || (k > 1 && s[0] == '0') then None else Some((Value(s[..k]), s[k..]))
  }

  function ParseChannel(s: string): Option<(Channel, string)>
  {
    var p :- ParseNumber(s);
    if p.0 < 256 then Some((p.0, p.1)) else None
  }

  /** Strips the literal `lit` from the front of s. */
  function Literal(lit: string, s: string): Option<string>
  {
    if |lit| <= |s| && s[..|lit|] == lit then Some(s[|lit|..]) else None
  }

  function ParseRgb(s: string): Option<Rgb>
  {
    var s1 :- Literal("rgb(", s);
    var red :- ParseChannel(s1);
    var s2 :- Literal(", ", red.1);
    var green :- ParseChannel(s2);
    var s3 :- Literal(", ", green.1);
    var blue :- ParseChannel(s3);
    var s4 :- Literal(")", blue.1);
    if s4 == [] then Some(Rgb(red.0, green.0, blue.0)) else None
  }

  lemma LiteralPrefix(lit: string, rest: string)
    ensures Literal(lit, lit + rest) == Some(rest)
  {
  }

  /** A channel's decimal text followed by a non-digit reads back as the channel. */
  lemma ParseChannelDecimal(c: Channel, rest: string)
    requires rest == [] || !IsDigit(rest[0])
    ensures ParseChannel(Decimal(c) + rest) == Some((c, rest))
  {
    var d := Decimal(c);
    var s := d + rest;
    var k := DigitRun(s);
    assert forall i :: 0 <= i < |d| ==> s[i] == d[i];
    assert s[0] == d[0];
    if |d| < |s| {
      assert s[|d|] == rest[0];
    }
    assert k == |d|;
    assert s[..k] == d;
    assert s[k..] == rest;
    ValueOfDecimal(c);
  }

  /** The text `rgb(R, G, B)` of a triple parses back to the triple. */
  lemma FormatRoundTrip(c: Rgb)
    ensures ParseRgb("rgb(" + Decimal(c.red) + ", " + Decimal(c.green) + ", " + Decimal(c.blue) + ")") == Some(c)
  {
    var r, g, b := Decimal(c.red), Decimal(c.green), Decimal(c.blue);
    var t4 := ")";
    var t3 := b + t4;
    var t2 := ", " + t3;
    var t1 := g + t2;
    var t0 := ", " + t1;
    var u := r + t0;
    assert "rgb(" + r + ", " + g + ", " + b + ")" == "rgb(" + u;
    LiteralPrefix("rgb(", u);
    ParseChannelDecimal(c.red, t0);
    LiteralPrefix(", ", t1);
    ParseChannelDecimal(c.green, t2);
    LiteralPrefix(", ", t3);
    ParseChannelDecimal(c.blue, t4);
    LiteralPrefix(")", []);
    assert t4 == ")" + [];
  }

  /** A digit string without a leading zero is the decimal text of its value. */
  lemma {:induction false} DecimalOfValue(d: string)
    requires |d| > 0 && AllDigits(d) && (d[0] == '0' ==> |d| == 1)
    ensures Decimal(Value(d)) == d
    decreases |d|
  {
    var init, last := d[..|d| - 1], d[|d| - 1];
    assert d == init + [last];
    if |d| > 1 {
      assert init[0] == d[0];
      assert AllDigits(init);
      DecimalOfValue(init);
      var w := Value(init);
      assert w != 0;
      assert Value(d) / 10 == w && Value(d) % 10 == DigitValue(last);
    }
  }

  /** What ParseNumber accepts is the decimal text of the number it returns. */
  lemma ParseNumberText(s: string, v: nat, rest: string)
    requires ParseNumber(s) == Some((v, rest))
    ensures s == Decimal(v) + rest
  {
    var k := DigitRun(s);
    assert AllDigits(s[..k]);
    DecimalOfValue(s[..k]);
    assert s == s[..k] + s[k..];
  }

  lemma LiteralText(lit: string, s: string, rest: string)
    requires Literal(lit, s) == Some(rest)
    ensures s == lit + rest
  {
    assert s == s[..|lit|] + s[|lit|..];
  }

  /** A channel field accepted by the parser is the channel's decimal text. */
  lemma ParseChannelText(s: string, v: Channel, rest: string)
    requires ParseChannel(s) == Some((v, rest))
    ensures s == Decimal(v) + rest
  {
    var p := ParseNumber(s).value;
    assert p == (v as nat, rest);
    ParseNumberText(s, p.0, p.1);
  }

  /** The pieces the parser strips off, put back together. */
  lemma ParsedPieces(s: string, c: Rgb)
    requires ParseRgb(s) == Some(c)
    ensures s == "rgb(" + Decimal(c.red) + ", " + Decimal(c.green) + ", " + Decimal(c.blue) + ")"
  {
    assert Literal("rgb(", s).Some?;
    var s1 := Literal("rgb(", s).value;
    assert ParseChannel(s1).Some?;
    var red := ParseChannel(s1).value;
    assert Literal(", ", red.1).Some?;
    var s2 := Literal(", ", red.1).value;
    assert ParseChannel(s2).Some?;
    var green := ParseChannel(s2).value;
    assert Literal(", ", green.1).Some?;
    var s3 := Literal(", ", green.1).value;
    assert ParseChannel(s3).Some?;
    var blue := ParseChannel(s3).value;
    assert Literal(")", blue.1).Some?;
    var s4 := Literal(")", blue.1).value;
    assert s4 == [] && c == Rgb(red.0, green.0, blue.0);
    LiteralText(")", blue.1, s4);
    ParseChannelText(s3, blue.0, blue.1);
    LiteralText(", ", green.1, s3);
    ParseChannelText(s2, green.0, green.1);
    LiteralText(", ", red.1, s2);
    ParseChannelText(s1, red.0, red.1);
    LiteralText("rgb(", s, s1);
    JoinPieces(s, s1, red.1, s2, green.1, s3, blue.1, Decimal(c.red), Decimal(c.green), Decimal(c.blue));
  }

  lemma JoinPieces(s: string, s1: string, t1: string, s2: string, t2: string, s3: string, t3: string,
                   r: string, g: string, b: string)
    requires s == "rgb(" + s1 && s1 == r + t1 && t1 == ", " + s2 && s2 == g + t2
    requires t2 == ", " + s3 && s3 == b + t3 && t3 == ")"
    ensures s == "rgb(" + r + ", " + g + ", " + b + ")"
  {
  }

  /** The only text that reads back as a triple is that triple's formatted
      string: with FormatRgb's contract, the parser is its exact inverse. */
  lemma ParseRgbOnlyFormatted(s: string, c: Rgb)
    requires ParseRgb(s) == Some(c)
    ensures s == FormatRgb(c)
  {
    ParsedPieces(s, c);
  }

  /** Colour equality is string equality: distinct triples format to
      distinct strings. */
  lemma FormatInjective(a: Rgb, b: Rgb)
    requires FormatRgb(a) == FormatRgb(b)
    ensures a == b
  {
  }
}
