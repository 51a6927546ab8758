/** Canonical strings are the shortest there are: every other text that reads as the same string, and is a text at
    all, is longer. */
module Shortest {
  import opened Texts
  import opened Json
  import opened Utf8

  /** No control unit, no unpaired surrogate: what a JSON text may consist of. */
  ghost predicate Plain(x: Text) {
    WellPaired(x) && forall c <- x :: c >= 0x20
  }

  /** One unit of a string as it may stand in a text: itself, a two-character escape, or its four digits. */
  datatype Token = Raw | Short | Long | Bad

  function TokenAt(x: Text, p: nat): Token
    requires p < |x|
  {
    if x[p] != BACKSLASH then Raw
    else if p + 1 < |x| && ShortUnescape(x[p + 1]) != 0 then Short
    else if p + 5 < |x| && x[p + 1] == 0x75
            && IsHex(x[p + 2]) && IsHex(x[p + 3]) && IsHex(x[p + 4]) && IsHex(x[p + 5]) then Long
    else Bad
  }

  function TokenSize(t: Token): nat {
    match t
    case Raw => 1
    case Short => 2
    case Long => 6
    case Bad => 1
  }

  function TokenUnit(x: Text, p: nat): CodeUnit
    requires p < |x|
  {
    match TokenAt(x, p)
    case Raw => x[p]
    case Short => ShortUnescape(x[p + 1])
    case Long => HexValue4(x[p + 2], x[p + 3], x[p + 4], x[p + 5])
    case Bad => 0
  }

  /** Reading goes token by token. */
  lemma ReadToken(x: Text, p: nat)
    requires p < |x| && x[p] != QUOTE && ReadUnits(x[p..]).Read?
    ensures TokenAt(x, p) != Bad && p + TokenSize(TokenAt(x, p)) <= |x|
    ensures ReadUnits(x[p..]) == Prepend(TokenUnit(x, p), ReadUnits(x[p + TokenSize(TokenAt(x, p))..]))
  {
    var y := x[p..];
    assert y[1..] == x[p + 1..];
    if |y| >= 2 { assert y[2..] == x[p + 2..]; }
    if |y| >= 6 { assert y[6..] == x[p + 6..]; }
  }

  lemma HexUnique(a: CodeUnit)
    requires IsHex(a)
    ensures HexDigit(HexValue(a)) == a
  {
  }

  lemma LastDigit(n: nat, d: nat)
    requires d < 16
    ensures (n * 16 + d) / 16 == n && (n * 16 + d) % 16 == d
  {
  }

  lemma Hex4Unique(a: CodeUnit, b: CodeUnit, c: CodeUnit, d: CodeUnit)
    requires IsHex(a) && IsHex(b) && IsHex(c) && IsHex(d)
    ensures Hex4(HexValue4(a, b, c, d)) == [a, b, c, d]
  {
    hide IsHex, HexValue, HexDigit;
    HexUnique(a);
    HexUnique(b);
    HexUnique(c);
    HexUnique(d);
    var three, two := (HexValue(a) * 16 + HexValue(b)) * 16 + HexValue(c), HexValue(a) * 16 + HexValue(b);
    var v := HexValue4(a, b, c, d);
    LastDigit(three, HexValue(d));
    LastDigit(two, HexValue(c));
    LastDigit(HexValue(a), HexValue(b));
    assert v == three * 16 + HexValue(d);
    assert v / 256 == v / 16 / 16 && v / 4096 == v / 256 / 16;
  }

  lemma ShortUnique(e: CodeUnit)
    requires ShortUnescape(e) != 0
    ensures ShortEscape(ShortUnescape(e)) == e
  {
  }

  /** Left of position `p` the text holds a high surrogate only where the string does left of `i`. */
  ghost predicate Beside(x: Text, p: nat, s: Text, i: nat)
    requires p <= |x| && i <= |s|
  {
    p > 0 && High(x[p - 1]) ==> i > 0 && High(s[i - 1])
  }

  /** A unit that stands for itself is printed as itself. */
  lemma RawIsPrinted(x: Text, p: nat, s: Text, i: nat)
    requires Plain(x) && p < |x| && i < |s| && Beside(x, p, s, i)
    requires x[p] != QUOTE && TokenAt(x, p) == Raw && x[p] == s[i]
    requires ReadUnits(x[p + 1..]) == Read(s[i + 1..], [])
    ensures PrintUnit(s, i) == [x[p]]
  {
    assert x[p] in x && !IsLoneSurrogate(x, p);
    if High(s[i]) {
      ReadToken(x, p + 1);
      assert TokenUnit(x, p + 1) == s[i + 1..][0];
    }
  }

  /** No token is shorter than what is printed, and one as short is what is printed. */
  lemma TokenIsLong(x: Text, p: nat, s: Text, i: nat)
    requires Plain(x) && p < |x| && i < |s| && Beside(x, p, s, i)
    requires x[p] != QUOTE && TokenAt(x, p) != Bad && TokenUnit(x, p) == s[i]
    requires p + TokenSize(TokenAt(x, p)) <= |x|
    requires ReadUnits(x[p + TokenSize(TokenAt(x, p))..]) == Read(s[i + 1..], [])
    ensures var size := TokenSize(TokenAt(x, p));
      |PrintUnit(s, i)| <= size && (|PrintUnit(s, i)| == size ==> PrintUnit(s, i) == x[p..p + size])
  {
    hide ReadUnits, PrintUnit, Plain, Beside, HexValue4, ShortUnescape, IsHex;
    match TokenAt(x, p)
    case Raw => RawIsPrinted(x, p, s, i);
    case Short => ShortIsLong(x, p, s, i);
    case Long =>
      Hex4Unique(x[p + 2], x[p + 3], x[p + 4], x[p + 5]);
      LongIsLong(s, i);
  }

  lemma ShortIsLong(x: Text, p: nat, s: Text, i: nat)
    requires p + 1 < |x| && i < |s| && TokenAt(x, p) == Short && ShortUnescape(x[p + 1]) == s[i]
    ensures |PrintUnit(s, i)| <= 2 && (|PrintUnit(s, i)| == 2 ==> PrintUnit(s, i) == x[p..p + 2])
  {
    ShortUnique(x[p + 1]);
  }

  lemma LongIsLong(s: Text, i: nat)
    requires i < |s|
    ensures |PrintUnit(s, i)| <= 6
    ensures |PrintUnit(s, i)| == 6 ==> PrintUnit(s, i) == [BACKSLASH, 0x75] + Hex4(s[i])
  {
  }

  lemma {:induction false} ShortestFrom(x: Text, p: nat, s: Text, i: nat)
    requires Plain(x) && p <= |x| && i <= |s| && Beside(x, p, s, i)
    requires ReadUnits(x[p..]) == Read(s[i..], [])
    ensures |PrintFrom(s, i)| + 1 <= |x| - p
    ensures |PrintFrom(s, i)| + 1 == |x| - p ==> x[p..] == PrintFrom(s, i) + [QUOTE]
    decreases |x| - p
  {
    hide ReadUnits, PrintUnit, Plain;
    if p < |x| && x[p] == QUOTE {
      QuoteEnds(x, p);
    } else {
      NotEmpty(x, p);
      ReadToken(x, p);
      var size := TokenSize(TokenAt(x, p));
      UnitRead(x, p, s, i);
      TokenIsLong(x, p, s, i);
      NextBeside(x, p, s, i);
      ShortestFrom(x, p + size, s, i + 1);
      assert x[p..] == x[p..p + size] + x[p + size..];
      assert PrintFrom(s, i) == PrintUnit(s, i) + PrintFrom(s, i + 1);
    }
  }

  lemma NotEmpty(x: Text, p: nat)
    requires p <= |x| && ReadUnits(x[p..]).Read?
    ensures p < |x|
  {
  }

  lemma QuoteEnds(x: Text, p: nat)
    requires p < |x| && x[p] == QUOTE
    ensures ReadUnits(x[p..]) == Read([], x[p + 1..])
    ensures x[p + 1..] == [] ==> x[p..] == [QUOTE]
  {
    assert x[p..][1..] == x[p + 1..];
  }

  lemma UnitRead(x: Text, p: nat, s: Text, i: nat)
    requires p < |x| && i <= |s| && x[p] != QUOTE && ReadUnits(x[p..]) == Read(s[i..], [])
    ensures i < |s| && TokenAt(x, p) != Bad && p + TokenSize(TokenAt(x, p)) <= |x|
    ensures TokenUnit(x, p) == s[i] && ReadUnits(x[p + TokenSize(TokenAt(x, p))..]) == Read(s[i + 1..], [])
  {
    hide ReadUnits;
    ReadToken(x, p);
    var rest := ReadUnits(x[p + TokenSize(TokenAt(x, p))..]);
    assert s[i..] == [TokenUnit(x, p)] + rest.text;
    assert s[i..][1..] == s[i + 1..] && ([TokenUnit(x, p)] + rest.text)[1..] == rest.text;
  }

  lemma NextBeside(x: Text, p: nat, s: Text, i: nat)
    requires p < |x| && i < |s| && TokenAt(x, p) != Bad && TokenUnit(x, p) == s[i]
    requires p + TokenSize(TokenAt(x, p)) <= |x|
    ensures Beside(x, p + TokenSize(TokenAt(x, p)), s, i + 1)
  {
  }

  /** Of all the texts that read as a string the printed one is the shortest, and the only one as short. */
  lemma PrintedIsShortest(s: Text, x: Text)
    requires Plain(x) && ReadString(x) == Read(s, [])
    ensures |PrintString(s)| <= |x|
    ensures |PrintString(s)| == |x| ==> x == PrintString(s)
  {
    hide ReadUnits, PrintFrom, Plain;
    assert s[0..] == s;
    ShortestFrom(x, 1, s, 0);
    assert x == [x[0]] + x[1..];
  }

  /** And it is such a text. */
  lemma PrintedIsPlain(s: Text)
    ensures Plain(PrintString(s)) && ReadString(PrintString(s)) == Read(s, [])
  {
    hide ReadUnits, PrintFrom, WellPaired;
    PrintedWellPaired(s);
    ReadPrinted(s, []);
    assert PrintString(s) + [] == PrintString(s);
    NoControls(s, 0);
  }

  lemma {:induction false} NoControls(s: Text, i: nat)
    requires i <= |s|
    ensures forall c <- PrintFrom(s, i) :: c >= 0x20
    decreases |s| - i
  {
    if i < |s| { NoControls(s, i + 1); }
  }

  // ---------- bytes ----------

  /** Bytes in the shape of one character: a leading byte for their number, then continuation bytes. */
  predicate Shaped(x: seq<int>) {
    && 1 <= |x| <= 4
    && (forall k | 1 <= k < |x| :: 0x80 <= x[k] < 0xc0)
    && (if |x| == 1 then 0 <= x[0] < 0x80
        else if |x| == 2 then 0xc0 <= x[0] < 0xe0
        else if |x| == 3 then 0xe0 <= x[0] < 0xf0
        else 0xf0 <= x[0] < 0xf8)
  }

  /** The character at the front of a text. */
  function Character(s: Text): int
    requires s != []
  {
    if Width(s) == 2 then Scalar(s[0], s[1]) else s[0]
  }

  /** The bytes of a character are its shortest form, and the only one as short. */
  lemma BytesAreShortest(s: Text, x: seq<int>)
    requires s != [] && !IsLoneSurrogate(s, 0)
    requires Shaped(x) && Scan(x) == Character(s)
    ensures Shaped(FirstBytes(s)) && Scan(FirstBytes(s)) == Character(s)
    ensures |FirstBytes(s)| <= |x| && (|FirstBytes(s)| == |x| ==> FirstBytes(s) == x)
  {
    if Width(s) == 1 { NarrowScans(s); } else { WideScans(s); }
    if |FirstBytes(s)| == |x| { ScanInjective(FirstBytes(s), x); }
  }

  lemma SixBits(a: int, b: int, c: int, d: int)
    requires 0 <= b < 64 && 0 <= d < 64 && a * 64 + b == c * 64 + d
    ensures a == c && b == d
  {
  }

  lemma ScanInjective(x: seq<int>, y: seq<int>)
    requires Shaped(x) && Shaped(y) && |x| == |y| && Scan(x) == Scan(y)
    ensures x == y
  {
    if |x| == 2 {
      SixBits(x[0] - 0xc0, x[1] - 0x80, y[0] - 0xc0, y[1] - 0x80);
    } else if |x| == 3 {
      SixBits((x[0] - 0xe0) * 64 + (x[1] - 0x80), x[2] - 0x80, (y[0] - 0xe0) * 64 + (y[1] - 0x80), y[2] - 0x80);
      SixBits(x[0] - 0xe0, x[1] - 0x80, y[0] - 0xe0, y[1] - 0x80);
    } else if |x| == 4 {
      FourInjective(x, y);
    }
  }

  lemma FourInjective(x: seq<int>, y: seq<int>)
    requires Shaped(x) && Shaped(y) && |x| == |y| == 4 && Scan(x) == Scan(y)
    ensures x == y
  {
    var a, b, c, d := x[0] - 0xf0, x[1] - 0x80, x[2] - 0x80, x[3] - 0x80;
    var e, f, g, h := y[0] - 0xf0, y[1] - 0x80, y[2] - 0x80, y[3] - 0x80;
    SixBits((a * 64 + b) * 64 + c, d, (e * 64 + f) * 64 + g, h);
    SixBits(a * 64 + b, c, e * 64 + f, g);
    SixBits(a, b, e, f);
  }
}
