/** Hybrid logical clock timestamps: the total order and its text form. */
module Hlcs {
  import opened Texts

  const MAX_COUNTER := 0xffff
  const MAX_MILLIS := 0xffff_ffff_ffff

  type Millis = n: nat | n <= MAX_MILLIS
  type Counter = n: nat | n <= MAX_COUNTER

  /** A device id is 128 bits; its text form is 32 lowercase hex digits. */
  type Device = n: nat | n < 0x1_0000_0000_0000_0000_0000_0000_0000_0000

  datatype Hlc = Hlc(millis: Millis, counter: Counter, device: Device)

  /** Millis, then counter, then device. */
  predicate Lt(a: Hlc, b: Hlc) {
    || a.millis < b.millis
    || (a.millis == b.millis && a.counter < b.counter)
    || (a.millis == b.millis && a.counter == b.counter && a.device < b.device)
  }

  predicate Leq(a: Hlc, b: Hlc) {
    a == b || Lt(a, b)
  }

  function Compare(a: Hlc, b: Hlc): (r: int)
    ensures r < 0 <==> Lt(a, b)
    ensures r == 0 <==> a == b
    ensures r > 0 <==> Lt(b, a)
  {
    if a.millis != b.millis then (if a.millis < b.millis then -1 else 1)
    else if a.counter != b.counter then (if a.counter < b.counter then -1 else 1)
    else if a.device != b.device then (if a.device < b.device then -1 else 1)
    else 0
  }

  // ---------- text form ----------

  const DASH: CodeUnit := 0x2d
  const ZERO: CodeUnit := 0x30

  function Power16(w: nat): (p: nat)
    ensures p > 0
  {
    if w == 0 then 1 else 16 * Power16(w - 1)
  }

  /** Lowercase hex digit of `n`. */
  function Digit(n: nat): CodeUnit
    requires n < 16
  {
    if n < 10 then 0x30 + n else 0x57 + n
  }

  predicate IsHexDigit(c: CodeUnit) {
    0x30 <= c <= 0x39 || 0x61 <= c <= 0x66
  }

  function DigitValue(c: CodeUnit): (n: nat)
    requires IsHexDigit(c)
    ensures n < 16 && Digit(n) == c
  {
    if c <= 0x39 then c - 0x30 else c - 0x57
  }

  /** `n.toString(16)`: no leading zeros, "0" for zero. */
  function ToHex(n: nat): (s: Text)
    ensures |s| > 0
  {
    if n < 16 then [Digit(n)] else ToHex(n / 16) + [Digit(n % 16)]
  }

  /** `s.padStart(w, "0")`. */
  function PadStart(s: Text, w: nat): Text {
    if |s| >= w then s else seq(w - |s|, i => ZERO) + s
  }

  /** `parseInt(s, 16)` of a text made of hex digits. */
  function ParseHex(s: Text): nat
    requires forall c <- s :: IsHexDigit(c)
  {
    if s == [] then 0 else 16 * ParseHex(s[..|s| - 1]) + DigitValue(s[|s| - 1])
  }

  /** Exactly `w` hex digits of `n`: what the padded text is, digit by digit. */
  function Fixed(n: nat, w: nat): (s: Text)
    ensures |s| == w
  {
    if w == 0 then [] else Fixed(n / 16, w - 1) + [Digit(n % 16)]
  }

  function Encode(h: Hlc): Text {
    PadStart(ToHex(h.millis), 12) + [DASH] + PadStart(ToHex(h.counter), 4) + [DASH]
      + PadStart(ToHex(h.device), 32)
  }

  predicate AllHex(s: Text) {
    forall c <- s :: IsHexDigit(c)
  }

  /** The pattern a timestamp must match. */
  predicate WellFormed(s: Text) {
    |s| == 50 && AllHex(s[..12]) && s[12] == DASH && AllHex(s[13..17]) && s[17] == DASH && AllHex(s[18..])
  }

  datatype Decoded = Timestamp(hlc: Hlc) | Malformed

  function Decode(s: Text): Decoded {
    if !WellFormed(s) then Malformed
    else
      ParseHexBound(s[..12]);
      ParseHexBound(s[13..17]);
      ParseHexBound(s[18..]);
      Powers();
      Timestamp(Hlc(ParseHex(s[..12]), ParseHex(s[13..17]), ParseHex(s[18..])))
  }

  lemma Powers()
    ensures Power16(4) == 0x1_0000
    ensures Power16(12) == 0x1_0000_0000_0000
    ensures Power16(32) == 0x1_0000_0000_0000_0000_0000_0000_0000_0000
  {
    assert Power16(8) == 0x1_0000_0000;
    assert Power16(16) == 0x1_0000_0000_0000_0000;
    assert Power16(24) == 0x1_0000_0000_0000_0000_0000_0000;
  }

  lemma {:induction false} ParseHexBound(s: Text)
    requires AllHex(s)
    ensures ParseHex(s) < Power16(|s|)
  {
    if s != [] {
      ParseHexBound(s[..|s| - 1]);
    }
  }

  lemma {:induction false} FixedIsHex(n: nat, w: nat)
    ensures AllHex(Fixed(n, w))
  {
    if w > 0 {
      FixedIsHex(n / 16, w - 1);
    }
  }

  lemma {:induction false} FixedOfZero(w: nat)
    ensures Fixed(0, w) == seq(w, i => ZERO)
  {
    if w > 0 {
      FixedOfZero(w - 1);
    }
  }

  lemma {:induction false} PaddedIsFixed(n: nat, w: nat)
    requires n < Power16(w) && w > 0
    ensures PadStart(ToHex(n), w) == Fixed(n, w)
  {
    if n < 16 {
      FixedOfZero(w - 1);
    } else {
      assert n / 16 < Power16(w - 1);
      if w == 1 { assert false; }
      PaddedIsFixed(n / 16, w - 1);
      var s := ToHex(n / 16);
      assert ToHex(n) == s + [Digit(n % 16)];
      if |s| < w - 1 {
        assert seq(w - |s| - 1, i => ZERO) + s + [Digit(n % 16)] == PadStart(ToHex(n), w);
      } else {
        assert PadStart(s, w - 1) == s;
      }
    }
  }

  lemma {:induction false} ParseOfFixed(n: nat, w: nat)
    requires n < Power16(w)
    ensures AllHex(Fixed(n, w)) && ParseHex(Fixed(n, w)) == n
  {
    FixedIsHex(n, w);
    if w > 0 {
      ParseOfFixed(n / 16, w - 1);
      var s := Fixed(n, w);
      assert s[..|s| - 1] == Fixed(n / 16, w - 1);
    }
  }

  lemma FixedAppend(n: nat, c: CodeUnit, w: nat)
    requires IsHexDigit(c)
    ensures Fixed(16 * n + DigitValue(c), w + 1) == Fixed(n, w) + [c]
  {
    var m := 16 * n + DigitValue(c);
    assert m / 16 == n && m % 16 == DigitValue(c);
  }

  lemma {:induction false} FixedOfParse(s: Text)
    requires AllHex(s)
    ensures Fixed(ParseHex(s), |s|) == s
  {
    if s != [] {
      var t := s[..|s| - 1];
      FixedOfParse(t);
      FixedAppend(ParseHex(t), s[|s| - 1], |t|);
      assert s == t + [s[|s| - 1]];
    }
  }

  lemma {:induction false} FixedOrder(m: nat, n: nat, w: nat)
    requires m < Power16(w) && n < Power16(w)
    ensures Less(Fixed(m, w), Fixed(n, w)) <==> m < n
    ensures Fixed(m, w) == Fixed(n, w) <==> m == n
  {
    if w > 0 {
      FixedOrder(m / 16, n / 16, w - 1);
      var a, b := Fixed(m / 16, w - 1), Fixed(n / 16, w - 1);
      if a == b {
        LessAfterPrefix(a, [Digit(m % 16)], [Digit(n % 16)]);
        assert Fixed(m, w)[w - 1] == Digit(m % 16) && Fixed(n, w)[w - 1] == Digit(n % 16);
      } else {
        LessByFirstPart(a, b, [Digit(m % 16)], [Digit(n % 16)]);
        assert Fixed(m, w)[..w - 1] == a && Fixed(n, w)[..w - 1] == b;
      }
    }
  }

  lemma EncodeParts(h: Hlc)
    ensures Encode(h) == Fixed(h.millis, 12) + ([DASH] + (Fixed(h.counter, 4) + ([DASH] + Fixed(h.device, 32))))
  {
    Powers();
    PaddedIsFixed(h.millis, 12);
    PaddedIsFixed(h.counter, 4);
    PaddedIsFixed(h.device, 32);
  }

  lemma Slices(m: Text, c: Text, d: Text)
    requires |m| == 12 && |c| == 4 && |d| == 32
    ensures var s := m + ([DASH] + (c + ([DASH] + d)));
      && |s| == 50 && s[..12] == m && s[12] == DASH && s[13..17] == c && s[17] == DASH && s[18..] == d
  {
  }

  /** Decoding undoes encoding, and every encoding has the fixed width of 50. */
  lemma DecodeEncode(h: Hlc)
    ensures |Encode(h)| == 50
    ensures Decode(Encode(h)) == Timestamp(h)
  {
    Powers();
    EncodeParts(h);
    Slices(Fixed(h.millis, 12), Fixed(h.counter, 4), Fixed(h.device, 32));
    ParseOfFixed(h.millis, 12);
    ParseOfFixed(h.counter, 4);
    ParseOfFixed(h.device, 32);
  }

  lemma Reassembled(s: Text)
    requires |s| == 50 && s[12] == DASH && s[17] == DASH
    ensures s == s[..12] + ([DASH] + (s[13..17] + ([DASH] + s[18..])))
  {
  }

  /** Encoding undoes decoding: a text is a timestamp in one way only. */
  lemma EncodeDecode(s: Text)
    ensures Decode(s).Timestamp? <==> WellFormed(s)
    ensures Decode(s).Timestamp? ==> Encode(Decode(s).hlc) == s
  {
    if WellFormed(s) {
      EncodeParts(Decode(s).hlc);
      FixedOfParse(s[..12]);
      FixedOfParse(s[13..17]);
      FixedOfParse(s[18..]);
      Reassembled(s);
    }
  }

  /** Comparing texts is comparing timestamps. */
  lemma EncodeOrder(a: Hlc, b: Hlc)
    ensures Less(Encode(a), Encode(b)) <==> Lt(a, b)
    ensures Encode(a) == Encode(b) <==> a == b
  {
    Powers();
    EncodeParts(a);
    EncodeParts(b);
    FixedOrder(a.millis, b.millis, 12);
    FixedOrder(a.counter, b.counter, 4);
    FixedOrder(a.device, b.device, 32);
    var am, bm := Fixed(a.millis, 12), Fixed(b.millis, 12);
    var ac, bc := Fixed(a.counter, 4), Fixed(b.counter, 4);
    var ad, bd := Fixed(a.device, 32), Fixed(b.device, 32);
    if a.millis != b.millis {
      LessByFirstPart(am, bm, [DASH] + (ac + ([DASH] + ad)), [DASH] + (bc + ([DASH] + bd)));
    } else {
      LessAfterPrefix(am, [DASH] + (ac + ([DASH] + ad)), [DASH] + (bc + ([DASH] + bd)));
      LessAfterPrefix([DASH], ac + ([DASH] + ad), bc + ([DASH] + bd));
      if a.counter != b.counter {
        LessByFirstPart(ac, bc, [DASH] + ad, [DASH] + bd);
      } else {
        LessAfterPrefix(ac, [DASH] + ad, [DASH] + bd);
        LessAfterPrefix([DASH], ad, bd);
      }
    }
    DecodeEncode(a);
    DecodeEncode(b);
  }
}
