/** Surrogate pairing of canonical text, and the bytes a signature covers. */
module Utf8 {
  import opened Texts
  import opened Json

  type Byte = n: nat | n < 0x100

  /** No code unit is an unpaired surrogate. */
  ghost predicate WellPaired(s: Text) {
    forall i | 0 <= i < |s| :: !IsLoneSurrogate(s, i)
  }

  lemma WellPairedAppend(a: Text, b: Text)
    requires WellPaired(a) && WellPaired(b)
    ensures WellPaired(a + b)
  {
    var s := a + b;
    forall i | 0 <= i < |s| ensures !IsLoneSurrogate(s, i) {
      if i < |a| {
        assert !IsLoneSurrogate(a, i);
      } else {
        assert !IsLoneSurrogate(b, i - |a|);
      }
    }
  }

  lemma PlainIsWellPaired(s: Text)
    requires forall i | 0 <= i < |s| :: !High(s[i]) && !Low(s[i])
    ensures WellPaired(s)
  {
  }

  /** Position `i` does not split a surrogate pair of `s`. */
  ghost predicate Boundary(s: Text, i: nat)
    requires i <= |s|
  {
    i < |s| && i > 0 && Low(s[i]) ==> !High(s[i - 1])
  }

  lemma PairUnits(s: Text, i: nat)
    requires i < |s| && High(s[i]) && !IsLoneSurrogate(s, i)
    ensures i + 1 < |s| && Low(s[i + 1]) && !IsLoneSurrogate(s, i + 1)
    ensures PrintUnit(s, i) == [s[i]] && PrintUnit(s, i + 1) == [s[i + 1]]
  {
  }

  lemma PairPrinted(s: Text, i: nat)
    requires i < |s| && High(s[i]) && !IsLoneSurrogate(s, i)
    ensures i + 1 < |s| && WellPaired([s[i], s[i + 1]]) && Boundary(s, i + 2)
    ensures PrintFrom(s, i) == [s[i], s[i + 1]] + PrintFrom(s, i + 2)
  {
    hide PrintUnit;
    PairUnits(s, i);
    assert PrintFrom(s, i) == [s[i]] + PrintFrom(s, i + 1);
    assert PrintFrom(s, i + 1) == [s[i + 1]] + PrintFrom(s, i + 2);
  }

  lemma UnitPrinted(s: Text, i: nat)
    requires i < |s| && Boundary(s, i) && (High(s[i]) ==> IsLoneSurrogate(s, i))
    ensures WellPaired(PrintUnit(s, i)) && Boundary(s, i + 1)
    ensures PrintFrom(s, i) == PrintUnit(s, i) + PrintFrom(s, i + 1)
  {
    PlainIsWellPaired(PrintUnit(s, i));
  }

  lemma {:induction false} PrintedFromWellPaired(s: Text, i: nat)
    requires i <= |s| && Boundary(s, i)
    ensures WellPaired(PrintFrom(s, i))
    decreases |s| - i
  {
    hide WellPaired, Boundary, PrintUnit;
    if i == |s| {
      PlainIsWellPaired([]);
    } else if High(s[i]) && !IsLoneSurrogate(s, i) {
      PairPrinted(s, i);
      PrintedFromWellPaired(s, i + 2);
      WellPairedAppend([s[i], s[i + 1]], PrintFrom(s, i + 2));
    } else {
      UnitPrinted(s, i);
      PrintedFromWellPaired(s, i + 1);
      WellPairedAppend(PrintUnit(s, i), PrintFrom(s, i + 1));
    }
  }

  lemma PrintedWellPaired(s: Text)
    ensures WellPaired(PrintString(s))
  {
    PrintedFromWellPaired(s, 0);
    WellPairedAppend([QUOTE], PrintFrom(s, 0));
    WellPairedAppend([QUOTE] + PrintFrom(s, 0), [QUOTE]);
  }

  /** Whatever strings a value holds, its canonical text has no unpaired surrogate. */
  lemma {:induction false} CanonicalWellPaired(v: Json)
    ensures WellPaired(Canonical(v))
    decreases v, 1, 0
  {
    match v {
      case Null =>
      case Bool(b) =>
      case Num(numeral) =>
        forall i | 0 <= i < |numeral| ensures !High(numeral[i]) && !Low(numeral[i]) {
          assert NumeralUnit(numeral[i]);
        }
        PlainIsWellPaired(numeral);
      case Str(text) => PrintedWellPaired(text);
      case Arr(items) =>
        ItemsWellPaired(v, 0);
        WellPairedAppend([OPEN_ARRAY], ItemsFrom(v, 0));
        WellPairedAppend([OPEN_ARRAY] + ItemsFrom(v, 0), [CLOSE_ARRAY]);
      case Obj(fields) =>
        var ks := Sorted(fields.Keys);
        FieldsWellPaired(v, ks, 0);
        WellPairedAppend([OPEN_OBJECT], FieldsFrom(v, ks, 0));
        WellPairedAppend([OPEN_OBJECT] + FieldsFrom(v, ks, 0), [CLOSE_OBJECT]);
    }
  }

  lemma {:induction false} ItemsWellPaired(v: Json, i: nat)
    requires v.Arr? && i <= |v.items|
    ensures WellPaired(ItemsFrom(v, i))
    decreases v, 0, |v.items| - i
  {
    if i < |v.items| {
      CanonicalWellPaired(v.items[i]);
      ItemsWellPaired(v, i + 1);
      WellPairedAppend(Separator(i), Canonical(v.items[i]));
      WellPairedAppend(Separator(i) + Canonical(v.items[i]), ItemsFrom(v, i + 1));
    }
  }

  lemma {:induction false} FieldsWellPaired(v: Json, ks: seq<Text>, i: nat)
    requires v.Obj? && i <= |ks| && forall k <- ks :: k in v.fields
    ensures WellPaired(FieldsFrom(v, ks, i))
    decreases v, 0, |ks| - i
  {
    if i < |ks| {
      var p, c := PrintString(ks[i]), Canonical(v.fields[ks[i]]);
      PrintedWellPaired(ks[i]);
      CanonicalWellPaired(v.fields[ks[i]]);
      FieldsWellPaired(v, ks, i + 1);
      WellPairedAppend(Separator(i), p);
      WellPairedAppend(Separator(i) + p, [COLON]);
      WellPairedAppend(Separator(i) + p + [COLON], c);
      WellPairedAppend(Separator(i) + p + [COLON] + c, FieldsFrom(v, ks, i + 1));
    }
  }

  // ---------- UTF-8 ----------

  /** How many code units the character at the front of `s` takes. */
  function Width(s: Text): (n: nat)
    requires s != []
    ensures 1 <= n <= |s|
  {
    if High(s[0]) && |s| >= 2 && Low(s[1]) then 2 else 1
  }

  /** The character a surrogate pair stands for. */
  function Scalar(high: int, low: int): int {
    0x10000 + (high - 0xd800) * 1024 + (low - 0xdc00)
  }

  /** The bytes of the character at the front; an unpaired surrogate is replaced by U+FFFD. */
  function FirstBytes(s: Text): seq<Byte>
    requires s != []
  {
    var c: int := s[0];
    if c < 0x80 then [s[0]]
    else if c < 0x800 then [0xc0 + c / 64, 0x80 + c % 64]
    else if Width(s) == 2 then
      var p := Scalar(s[0], s[1]);
      [0xf0 + p / 262144, 0x80 + p / 4096 % 64, 0x80 + p / 64 % 64, 0x80 + p % 64]
    else if High(s[0]) || Low(s[0]) then [0xef, 0xbf, 0xbd]
    else [0xe0 + c / 4096, 0x80 + c / 64 % 64, 0x80 + c % 64]
  }

  /** `new TextEncoder().encode(s)`. */
  function Encode(s: Text): seq<Byte> {
    if s == [] then [] else FirstBytes(s) + Encode(s[Width(s)..])
  }

  lemma TailWellPaired(s: Text)
    requires s != [] && WellPaired(s)
    ensures WellPaired(s[Width(s)..])
  {
    var t := s[Width(s)..];
    assert !IsLoneSurrogate(s, 0);
    forall i | 0 <= i < |t| ensures !IsLoneSurrogate(t, i) {
      assert !IsLoneSurrogate(s, i + Width(s));
    }
  }

  /** The number of bytes of a character, from its first byte. */
  function Length(b: Byte): nat {
    if b < 0x80 then 1 else if b < 0xe0 then 2 else if b < 0xf0 then 3 else 4
  }

  lemma FirstBytesLength(s: Text)
    requires s != [] && !IsLoneSurrogate(s, 0)
    ensures |FirstBytes(s)| == Length(FirstBytes(s)[0])
  {
  }

  /** A character read back from its bytes. */
  function Scan(x: seq<int>): int
    requires 1 <= |x| <= 4
  {
    if |x| == 1 then x[0]
    else if |x| == 2 then (x[0] - 0xc0) * 64 + (x[1] - 0x80)
    else if |x| == 3 then (x[0] - 0xe0) * 4096 + (x[1] - 0x80) * 64 + (x[2] - 0x80)
    else (x[0] - 0xf0) * 262144 + (x[1] - 0x80) * 4096 + (x[2] - 0x80) * 64 + (x[3] - 0x80)
  }

  lemma SixBitDigits(p: nat)
    ensures p == p / 64 * 64 + p % 64
    ensures p == p / 4096 * 4096 + p / 64 % 64 * 64 + p % 64
    ensures p == p / 262144 * 262144 + p / 4096 % 64 * 4096 + p / 64 % 64 * 64 + p % 64
  {
    assert p / 4096 == p / 64 / 64 && p / 262144 == p / 4096 / 64;
  }

  lemma NarrowScans(s: Text)
    requires s != [] && Width(s) == 1 && !IsLoneSurrogate(s, 0)
    ensures |FirstBytes(s)| <= 3 && Scan(FirstBytes(s)) == s[0]
  {
    SixBitDigits(s[0]);
  }

  lemma WideScans(s: Text)
    requires s != [] && Width(s) == 2
    ensures |FirstBytes(s)| == 4 && Scan(FirstBytes(s)) == Scalar(s[0], s[1])
  {
    SixBitDigits(Scalar(s[0], s[1]));
  }

  lemma FirstBytesInjective(s: Text, t: Text)
    requires s != [] && t != [] && !IsLoneSurrogate(s, 0) && !IsLoneSurrogate(t, 0)
    requires FirstBytes(s) == FirstBytes(t)
    ensures Width(s) == Width(t) && s[..Width(s)] == t[..Width(t)]
  {
    if Width(s) == 1 { NarrowScans(s); } else { WideScans(s); }
    if Width(t) == 1 { NarrowScans(t); } else { WideScans(t); }
  }

  /** Well-paired texts with the same bytes are the same text. */
  lemma {:induction false} EncodeInjective(s: Text, t: Text)
    requires WellPaired(s) && WellPaired(t)
    requires Encode(s) == Encode(t)
    ensures s == t
  {
    if s == [] || t == [] {
    } else {
      assert !IsLoneSurrogate(s, 0) && !IsLoneSurrogate(t, 0);
      var a, b := FirstBytes(s), FirstBytes(t);
      var x, y := Encode(s[Width(s)..]), Encode(t[Width(t)..]);
      FirstBytesLength(s);
      FirstBytesLength(t);
      assert (a + x)[0] == a[0] && (b + y)[0] == b[0];
      assert a == (a + x)[..|a|] && b == (b + y)[..|b|];
      assert x == (a + x)[|a|..] && y == (b + y)[|b|..];
      FirstBytesInjective(s, t);
      TailWellPaired(s);
      TailWellPaired(t);
      EncodeInjective(s[Width(s)..], t[Width(t)..]);
      assert s == s[..Width(s)] + s[Width(s)..] && t == t[..Width(t)] + t[Width(t)..];
    }
  }
}
