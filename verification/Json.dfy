/** JSON values and their canonical text. */
module Json {
  import opened Texts

  /** A number is identified by its numeral, the text the number printer gives it. */
  predicate IsNumeral(s: Text) {
    && s != []
    && (0x30 <= s[0] <= 0x39 || s[0] == 0x2d)
    && forall c <- s :: NumeralUnit(c)
  }

  /** Digits, '-', '+', '.', 'e'. */
  predicate NumeralUnit(c: CodeUnit) {
    0x30 <= c <= 0x39 || c == 0x2d || c == 0x2b || c == 0x2e || c == 0x65
  }

  type Numeral = s: Text | IsNumeral(s) witness [0x30]

  /** Object keys have no order here, so equality is equality up to key order. */
  datatype Json =
    | Null
    | Bool(b: bool)
    | Num(numeral: Numeral)
    | Str(text: Text)
    | Arr(items: seq<Json>)
    | Obj(fields: map<Text, Json>)

  const QUOTE: CodeUnit := 0x22
  const BACKSLASH: CodeUnit := 0x5c
  const COMMA: CodeUnit := 0x2c
  const COLON: CodeUnit := 0x3a
  const OPEN_ARRAY: CodeUnit := 0x5b
  const CLOSE_ARRAY: CodeUnit := 0x5d
  const OPEN_OBJECT: CodeUnit := 0x7b
  const CLOSE_OBJECT: CodeUnit := 0x7d

  const NULL_TEXT: Text := [0x6e, 0x75, 0x6c, 0x6c]
  const TRUE_TEXT: Text := [0x74, 0x72, 0x75, 0x65]
  const FALSE_TEXT: Text := [0x66, 0x61, 0x6c, 0x73, 0x65]

  // ---------- strings ----------

  predicate High(c: CodeUnit) { 0xd800 <= c <= 0xdbff }
  predicate Low(c: CodeUnit) { 0xdc00 <= c <= 0xdfff }

  predicate IsLoneSurrogate(s: Text, i: nat)
    requires i < |s|
  {
    if High(s[i]) then i + 1 >= |s| || !Low(s[i + 1])
    else if Low(s[i]) then i == 0 || !High(s[i - 1])
    else false
  }

  function HexDigit(n: nat): CodeUnit
    requires n < 16
  {
    if n < 10 then 0x30 + n else 0x57 + n
  }

  /** The letter of a two-character escape, or 0 when `c` has none. */
  function ShortEscape(c: CodeUnit): CodeUnit {
    if c == 0x22 || c == 0x5c then c
    else if c == 0x08 then 0x62
    else if c == 0x0c then 0x66
    else if c == 0x0a then 0x6e
    else if c == 0x0d then 0x72
    else if c == 0x09 then 0x74
    else 0
  }

  /** Four lowercase hex digits. */
  function Hex4(c: CodeUnit): Text {
    [HexDigit(c / 4096), HexDigit(c / 256 % 16), HexDigit(c / 16 % 16), HexDigit(c % 16)]
  }

  /** The code unit at `i`, escaped when it has to be. */
  function PrintUnit(s: Text, i: nat): Text
    requires i < |s|
  {
    var c := s[i];
    if ShortEscape(c) != 0 then [BACKSLASH, ShortEscape(c)]
    else if c < 0x20 || IsLoneSurrogate(s, i) then [BACKSLASH, 0x75] + Hex4(c)
    else [c]
  }

  /** The units from `i` on. */
  function PrintFrom(s: Text, i: nat): Text
    requires i <= |s|
    decreases |s| - i
  {
    if i == |s| then [] else PrintUnit(s, i) + PrintFrom(s, i + 1)
  }

  function PrintString(s: Text): Text {
    [QUOTE] + PrintFrom(s, 0) + [QUOTE]
  }

  // ---------- values ----------

  predicate IsLeast(k: Text, keys: set<Text>) {
    k in keys && forall k' <- keys :: AtMost(k, k')
  }

  lemma {:induction false} LeastExists(keys: set<Text>)
    requires keys != {}
    ensures exists k :: IsLeast(k, keys)
    decreases |keys|
  {
    var k :| k in keys;
    if keys == {k} {
      assert IsLeast(k, keys);
    } else {
      LeastExists(keys - {k});
      var m :| IsLeast(m, keys - {k});
      Trichotomy(k, m);
      if Less(k, m) {
        forall k' <- keys ensures AtMost(k, k') {
          if k' != k && k' != m {
            assert k' in keys - {k};
            LessTransitive(k, m, k');
          }
        }
        assert IsLeast(k, keys);
      } else {
        assert IsLeast(m, keys);
      }
    }
  }

  lemma LeastIsUnique(j: Text, k: Text, keys: set<Text>)
    requires IsLeast(j, keys) && IsLeast(k, keys)
    ensures j == k
  {
    Trichotomy(j, k);
  }

  function Least(keys: set<Text>): (k: Text)
    requires keys != {}
    ensures IsLeast(k, keys)
  {
    LeastExists(keys);
    assert forall j, k | IsLeast(j, keys) && IsLeast(k, keys) :: j == k by {
      forall j, k | IsLeast(j, keys) && IsLeast(k, keys) ensures j == k {
        LeastIsUnique(j, k, keys);
      }
    }
    var k :| IsLeast(k, keys);
    k
  }

  /** `Object.keys(value).sort()`. */
  function Sorted(keys: set<Text>): (ks: seq<Text>)
    ensures forall k :: k in ks <==> k in keys
    ensures |ks| == |keys|
    decreases |keys|
  {
    if keys == {} then [] else [Least(keys)] + Sorted(keys - {Least(keys)})
  }

  /** The keys ascend by code unit. */
  lemma {:induction false} SortedAscending(keys: set<Text>)
    ensures AscendingTexts(Sorted(keys))
    decreases |keys|
  {
    hide Less;
    if keys != {} {
      var k := Least(keys);
      var rest := Sorted(keys - {k});
      SortedAscending(keys - {k});
      forall j | 0 <= j < |rest| ensures Less(k, rest[j]) {
        assert rest[j] in rest;
      }
    }
  }

  /** Whatever ascends and holds the keys is what `Sorted` gives. */
  lemma SortedUnique(keys: set<Text>, ks: seq<Text>)
    requires AscendingTexts(ks) && forall k :: k in ks <==> k in keys
    ensures ks == Sorted(keys)
  {
    SortedAscending(keys);
    AscendingTextsUnique(ks, Sorted(keys));
  }

  function Canonical(v: Json): (s: Text)
    decreases v, 1, 0
  {
    match v
    case Null => NULL_TEXT
    case Bool(b) => if b then TRUE_TEXT else FALSE_TEXT
    case Num(numeral) => numeral
    case Str(text) => PrintString(text)
    case Arr(items) => [OPEN_ARRAY] + ItemsFrom(v, 0) + [CLOSE_ARRAY]
    case Obj(fields) => [OPEN_OBJECT] + FieldsFrom(v, Sorted(fields.Keys), 0) + [CLOSE_OBJECT]
  }

  function Separator(i: nat): Text {
    if i > 0 then [COMMA] else []
  }

  /** The items of an array from `i` on. */
  function ItemsFrom(v: Json, i: nat): Text
    requires v.Arr? && i <= |v.items|
    decreases v, 0, |v.items| - i
  {
    if i == |v.items| then []
    else Separator(i) + Canonical(v.items[i]) + ItemsFrom(v, i + 1)
  }

  /** The fields of an object whose keys are `keys[i..]`. */
  function FieldsFrom(v: Json, keys: seq<Text>, i: nat): Text
    requires v.Obj? && i <= |keys| && forall k <- keys :: k in v.fields
    decreases v, 0, |keys| - i
  {
    if i == |keys| then []
    else
      Separator(i) + PrintString(keys[i]) + [COLON] + Canonical(v.fields[keys[i]]) + FieldsFrom(v, keys, i + 1)
  }

  // ---------- reading strings back ----------

  datatype ReadResult = Read(text: Text, rest: Text) | Unreadable

  predicate IsHex(c: CodeUnit) {
    0x30 <= c <= 0x39 || 0x61 <= c <= 0x66
  }

  function HexValue(c: CodeUnit): (n: nat)
    requires IsHex(c)
    ensures n < 16
  {
    if c <= 0x39 then c - 0x30 else c - 0x57
  }

  /** The code unit a two-character escape stands for, or 0 when there is no such escape. */
  function ShortUnescape(e: CodeUnit): CodeUnit {
    if e == 0x22 || e == 0x5c then e
    else if e == 0x62 then 0x08
    else if e == 0x66 then 0x0c
    else if e == 0x6e then 0x0a
    else if e == 0x72 then 0x0d
    else if e == 0x74 then 0x09
    else 0
  }

  /** Undo the escapes up to the closing quote. */
  function ReadUnits(x: Text): ReadResult {
    if x == [] then Unreadable
    else if x[0] == QUOTE then Read([], x[1..])
    else if x[0] != BACKSLASH then Prepend(x[0], ReadUnits(x[1..]))
    else if |x| >= 2 && ShortUnescape(x[1]) != 0 then Prepend(ShortUnescape(x[1]), ReadUnits(x[2..]))
    else if |x| >= 6 && x[1] == 0x75 && IsHex(x[2]) && IsHex(x[3]) && IsHex(x[4]) && IsHex(x[5]) then
      Prepend(HexValue4(x[2], x[3], x[4], x[5]), ReadUnits(x[6..]))
    else Unreadable
  }

  function HexValue4(a: CodeUnit, b: CodeUnit, c: CodeUnit, d: CodeUnit): CodeUnit
    requires IsHex(a) && IsHex(b) && IsHex(c) && IsHex(d)
  {
    HexValue(a) * 4096 + HexValue(b) * 256 + HexValue(c) * 16 + HexValue(d)
  }

  function Prepend(c: CodeUnit, r: ReadResult): ReadResult {
    match r
    case Read(text, rest) => Read([c] + text, rest)
    case Unreadable => Unreadable
  }

  function ReadString(x: Text): ReadResult {
    if x == [] || x[0] != QUOTE then Unreadable else ReadUnits(x[1..])
  }

  lemma HexRoundTrip(n: nat)
    requires n < 16
    ensures IsHex(HexDigit(n)) && HexValue(HexDigit(n)) == n
  {
  }

  lemma FourDigits(c: CodeUnit)
    ensures c == c / 4096 * 4096 + c / 256 % 16 * 256 + c / 16 % 16 * 16 + c % 16
  {
    assert c / 256 == c / 16 / 16 && c / 4096 == c / 256 / 16;
  }

  lemma Hex4Reads(c: CodeUnit)
    ensures var h := Hex4(c);
      && IsHex(h[0]) && IsHex(h[1]) && IsHex(h[2]) && IsHex(h[3])
      && HexValue4(h[0], h[1], h[2], h[3]) == c
  {
    FourDigits(c);
    HexRoundTrip(c / 4096);
    HexRoundTrip(c / 256 % 16);
    HexRoundTrip(c / 16 % 16);
    HexRoundTrip(c % 16);
  }

  lemma ReadShort(e: CodeUnit, rest: Text)
    requires ShortUnescape(e) != 0
    ensures ReadUnits([BACKSLASH, e] + rest) == Prepend(ShortUnescape(e), ReadUnits(rest))
  {
    var x := [BACKSLASH, e] + rest;
    assert x[2..] == rest;
  }

  lemma ReadHex4(c: CodeUnit, rest: Text)
    ensures ReadUnits([BACKSLASH, 0x75] + Hex4(c) + rest) == Prepend(c, ReadUnits(rest))
  {
    Hex4Reads(c);
    var x := [BACKSLASH, 0x75] + Hex4(c) + rest;
    assert x[6..] == rest;
    assert x[2] == Hex4(c)[0] && x[3] == Hex4(c)[1] && x[4] == Hex4(c)[2] && x[5] == Hex4(c)[3];
  }

  lemma ReadRaw(c: CodeUnit, rest: Text)
    requires c != QUOTE && c != BACKSLASH
    ensures ReadUnits([c] + rest) == Prepend(c, ReadUnits(rest))
  {
    assert ([c] + rest)[1..] == rest;
  }

  lemma ReadOneUnit(s: Text, i: nat, rest: Text)
    requires i < |s|
    ensures ReadUnits(PrintUnit(s, i) + rest) == Prepend(s[i], ReadUnits(rest))
  {
    var c := s[i];
    if ShortEscape(c) != 0 {
      ReadShort(ShortEscape(c), rest);
    } else if c < 0x20 || IsLoneSurrogate(s, i) {
      ReadHex4(c, rest);
    } else {
      ReadRaw(c, rest);
    }
  }

  lemma {:induction false} ReadPrintedFrom(s: Text, i: nat, rest: Text)
    requires i <= |s|
    ensures ReadUnits(PrintFrom(s, i) + ([QUOTE] + rest)) == Read(s[i..], rest)
    decreases |s| - i
  {
    if i == |s| {
      assert PrintFrom(s, i) + ([QUOTE] + rest) == [QUOTE] + rest;
      assert ([QUOTE] + rest)[1..] == rest;
    } else {
      var tail := PrintFrom(s, i + 1) + ([QUOTE] + rest);
      ReadPrintedFrom(s, i + 1, rest);
      ReadOneUnit(s, i, tail);
      Assoc(PrintUnit(s, i), PrintFrom(s, i + 1), [QUOTE] + rest);
      assert s[i..] == [s[i]] + s[i + 1..];
    }
  }

  lemma Assoc(a: Text, b: Text, c: Text)
    ensures (a + b) + c == a + (b + c)
  {
  }

  lemma Cancel(p: Text, a: Text, b: Text)
    requires p + a == p + b
    ensures a == b
  {
    assert a == (p + a)[|p|..] && b == (p + b)[|p|..];
  }

  lemma Head(a: Text, r: Text)
    requires a != []
    ensures |a + r| > 0 && (a + r)[0] == a[0]
  {
  }

  /** A printed string reads back as the original code units, whatever follows it. */
  lemma ReadPrinted(s: Text, rest: Text)
    ensures ReadString(PrintString(s) + rest) == Read(s, rest)
  {
    hide ReadUnits, PrintFrom;
    ReadPrintedFrom(s, 0, rest);
    assert (PrintString(s) + rest)[1..] == PrintFrom(s, 0) + ([QUOTE] + rest);
  }

  // ---------- unique readability ----------

  /** What may follow a value: nothing that could continue a numeral. */
  predicate EndsNumeral(r: Text) {
    r == [] || !NumeralUnit(r[0])
  }

  lemma NumeralBeforeEnd(a: Text, r: Text, t: Text)
    requires a != [] && NumeralUnit(a[0]) && EndsNumeral(t)
    ensures a + r != [] + t
  {
    Head(a, r);
  }

  lemma {:induction false} NumeralsReadable(a: Text, b: Text, r: Text, t: Text)
    requires (forall c <- a :: NumeralUnit(c)) && (forall c <- b :: NumeralUnit(c))
    requires EndsNumeral(r) && EndsNumeral(t)
    requires a + r == b + t
    ensures a == b && r == t
  {
    if a == [] && b == [] {
      Cancel([], r, t);
    } else if a == [] {
      NumeralBeforeEnd(b, t, r);
    } else if b == [] {
      NumeralBeforeEnd(a, r, t);
    } else {
      assert (a + r)[0] == a[0] && (b + t)[0] == b[0];
      assert (a + r)[1..] == a[1..] + r && (b + t)[1..] == b[1..] + t;
      NumeralsReadable(a[1..], b[1..], r, t);
      assert a == [a[0]] + a[1..] && b == [b[0]] + b[1..];
    }
  }

  /** The first code unit of a canonical text gives the kind of value away. */
  function Mark(v: Json): CodeUnit {
    match v
    case Null => 0x6e
    case Bool(b) => if b then 0x74 else 0x66
    case Num(numeral) => numeral[0]
    case Str(_) => QUOTE
    case Arr(_) => OPEN_ARRAY
    case Obj(_) => OPEN_OBJECT
  }

  lemma FirstUnit(v: Json, r: Text)
    ensures |Canonical(v)| > 0 && (Canonical(v) + r)[0] == Mark(v)
  {
  }

  lemma SameMark(v: Json, w: Json, r: Text, t: Text)
    requires Canonical(v) + r == Canonical(w) + t
    ensures Mark(v) == Mark(w)
  {
    FirstUnit(v, r);
    FirstUnit(w, t);
  }

  lemma ArrayText(v: Json, r: Text)
    requires v.Arr?
    ensures Canonical(v) + r == [OPEN_ARRAY] + (ItemsFrom(v, 0) + ([CLOSE_ARRAY] + r))
  {
  }

  lemma ObjectText(v: Json, r: Text)
    requires v.Obj?
    ensures Canonical(v) + r
         == [OPEN_OBJECT] + (FieldsFrom(v, Sorted(v.fields.Keys), 0) + ([CLOSE_OBJECT] + r))
  {
  }

  lemma ItemText(v: Json, i: nat, r: Text)
    requires v.Arr? && i < |v.items|
    ensures ItemsFrom(v, i) + r == Separator(i) + (Canonical(v.items[i]) + (ItemsFrom(v, i + 1) + r))
  {
  }

  lemma Regroup(a: Text, b: Text, c: Text, d: Text, e: Text, r: Text)
    ensures a + b + c + d + e + r == a + (b + (c + (d + (e + r))))
  {
    Assoc(a + b, c, d);
    Assoc(a, b, c + d);
    Assoc(a + b + c + d, e, r);
    Assoc(b, c + d, e + r);
    Assoc(c, d, e + r);
  }

  lemma FieldText(v: Json, ks: seq<Text>, i: nat, r: Text)
    requires v.Obj? && i < |ks| && forall k <- ks :: k in v.fields
    ensures FieldsFrom(v, ks, i) + r
         == Separator(i) + (PrintString(ks[i])
                            + ([COLON] + (Canonical(v.fields[ks[i]]) + (FieldsFrom(v, ks, i + 1) + r))))
  {
    Regroup(Separator(i), PrintString(ks[i]), [COLON], Canonical(v.fields[ks[i]]), FieldsFrom(v, ks, i + 1), r);
  }

  /** Texts of values are uniquely readable: two values with the same text, whatever follows, are equal. */
  lemma {:induction false} Readable(v: Json, w: Json, r: Text, t: Text)
    requires EndsNumeral(r) && EndsNumeral(t)
    requires Canonical(v) + r == Canonical(w) + t
    ensures v == w && r == t
    decreases v, 2, 0
  {
    SameMark(v, w, r, t);
    match v {
      case Null =>
        Cancel(NULL_TEXT, r, t);
      case Bool(b) =>
        Cancel(Canonical(v), r, t);
      case Num(numeral) =>
        NumeralsReadable(numeral, w.numeral, r, t);
      case Str(text) =>
        ReadPrinted(text, r);
        ReadPrinted(w.text, t);
      case Arr(items) =>
        ArraysReadable(v, w, r, t);
      case Obj(fields) =>
        ObjectsReadable(v, w, r, t);
    }
  }

  lemma {:induction false} ArraysReadable(v: Json, w: Json, r: Text, t: Text)
    requires v.Arr? && w.Arr?
    requires Canonical(v) + r == Canonical(w) + t
    ensures v == w && r == t
    decreases v, 1, 0
  {
    ArrayText(v, r);
    ArrayText(w, t);
    Cancel([OPEN_ARRAY], ItemsFrom(v, 0) + ([CLOSE_ARRAY] + r), ItemsFrom(w, 0) + ([CLOSE_ARRAY] + t));
    ItemsReadable(v, w, 0, r, t);
    assert v.items == v.items[0..] && w.items == w.items[0..];
  }

  lemma SameFields(f: map<Text, Json>, g: map<Text, Json>, ks: seq<Text>)
    requires Sorted(f.Keys) == ks == Sorted(g.Keys)
    requires forall k <- ks :: f[k] == g[k]
    ensures f == g
  {
    assert forall k :: k in f <==> k in ks;
    assert forall k :: k in g <==> k in ks;
  }

  lemma {:induction false} ObjectsReadable(v: Json, w: Json, r: Text, t: Text)
    requires v.Obj? && w.Obj?
    requires Canonical(v) + r == Canonical(w) + t
    ensures v.fields == w.fields && r == t
    decreases v, 1, 0
  {
    var ks, ls := Sorted(v.fields.Keys), Sorted(w.fields.Keys);
    ObjectText(v, r);
    ObjectText(w, t);
    Cancel([OPEN_OBJECT], FieldsFrom(v, ks, 0) + ([CLOSE_OBJECT] + r), FieldsFrom(w, ls, 0) + ([CLOSE_OBJECT] + t));
    FieldsReadable(v, w, ks, ls, 0, r, t);
    assert ks == ks[0..] && ls == ls[0..];
    SameFields(v.fields, w.fields, ks);
  }

  /** What follows the items from `i` on: the closing bracket exactly when there are none left. */
  lemma ItemsEnd(v: Json, i: nat, r: Text)
    requires v.Arr? && i <= |v.items|
    ensures var x := ItemsFrom(v, i) + ([CLOSE_ARRAY] + r);
      && |x| > 0 && (x[0] == CLOSE_ARRAY <==> i == |v.items|)
      && (i > 0 ==> EndsNumeral(x))
  {
    if i < |v.items| {
      ItemText(v, i, [CLOSE_ARRAY] + r);
      FirstUnit(v.items[i], ItemsFrom(v, i + 1) + ([CLOSE_ARRAY] + r));
    }
  }

  lemma {:induction false} ItemsReadable(v: Json, w: Json, i: nat, r: Text, t: Text)
    requires v.Arr? && w.Arr? && i <= |v.items| && i <= |w.items|
    requires ItemsFrom(v, i) + ([CLOSE_ARRAY] + r) == ItemsFrom(w, i) + ([CLOSE_ARRAY] + t)
    ensures v.items[i..] == w.items[i..] && r == t
    decreases v, 0, |v.items| - i
  {
    hide Canonical;
    ItemsEnd(v, i, r);
    ItemsEnd(w, i, t);
    if i == |v.items| {
      assert ItemsFrom(v, i) + ([CLOSE_ARRAY] + r) == [CLOSE_ARRAY] + r;
      assert ItemsFrom(w, i) + ([CLOSE_ARRAY] + t) == [CLOSE_ARRAY] + t;
      Cancel([CLOSE_ARRAY], r, t);
    } else {
      var ra := ItemsFrom(v, i + 1) + ([CLOSE_ARRAY] + r);
      var rb := ItemsFrom(w, i + 1) + ([CLOSE_ARRAY] + t);
      ItemText(v, i, [CLOSE_ARRAY] + r);
      ItemText(w, i, [CLOSE_ARRAY] + t);
      Cancel(Separator(i), Canonical(v.items[i]) + ra, Canonical(w.items[i]) + rb);
      ItemsEnd(v, i + 1, r);
      ItemsEnd(w, i + 1, t);
      Readable(v.items[i], w.items[i], ra, rb);
      ItemsReadable(v, w, i + 1, r, t);
      assert v.items[i..] == [v.items[i]] + v.items[i + 1..];
      assert w.items[i..] == [w.items[i]] + w.items[i + 1..];
    }
  }

  lemma FieldsEnd(v: Json, ks: seq<Text>, i: nat, r: Text)
    requires v.Obj? && i <= |ks| && forall k <- ks :: k in v.fields
    ensures var x := FieldsFrom(v, ks, i) + ([CLOSE_OBJECT] + r);
      && |x| > 0 && (x[0] == CLOSE_OBJECT <==> i == |ks|)
      && (i > 0 ==> EndsNumeral(x))
  {
    if i < |ks| {
      FieldText(v, ks, i, [CLOSE_OBJECT] + r);
    }
  }

  lemma SplitAt(ks: seq<Text>, i: nat)
    requires i < |ks|
    ensures ks[i..] == [ks[i]] + ks[i + 1..]
  {
  }

  lemma {:induction false} FieldsReadable(v: Json, w: Json, ks: seq<Text>, ls: seq<Text>, i: nat, r: Text, t: Text)
    requires v.Obj? && w.Obj? && i <= |ks| && i <= |ls|
    requires (forall k <- ks :: k in v.fields) && (forall k <- ls :: k in w.fields)
    requires FieldsFrom(v, ks, i) + ([CLOSE_OBJECT] + r) == FieldsFrom(w, ls, i) + ([CLOSE_OBJECT] + t)
    ensures ks[i..] == ls[i..] && r == t
    ensures forall k <- ks[i..] :: v.fields[k] == w.fields[k]
    decreases v, 0, |ks| - i
  {
    FieldsEnd(v, ks, i, r);
    FieldsEnd(w, ls, i, t);
    if i == |ks| {
      assert FieldsFrom(v, ks, i) + ([CLOSE_OBJECT] + r) == [CLOSE_OBJECT] + r;
      assert FieldsFrom(w, ls, i) + ([CLOSE_OBJECT] + t) == [CLOSE_OBJECT] + t;
      Cancel([CLOSE_OBJECT], r, t);
    } else {
      var ra := FieldsFrom(v, ks, i + 1) + ([CLOSE_OBJECT] + r);
      var rb := FieldsFrom(w, ls, i + 1) + ([CLOSE_OBJECT] + t);
      FieldsEnd(v, ks, i + 1, r);
      FieldsEnd(w, ls, i + 1, t);
      FieldText(v, ks, i, [CLOSE_OBJECT] + r);
      FieldText(w, ls, i, [CLOSE_OBJECT] + t);
      OneFieldReadable(v, w, ks[i], ls[i], Separator(i), ra, rb);
      FieldsReadable(v, w, ks, ls, i + 1, r, t);
      SplitAt(ks, i);
      SplitAt(ls, i);
    }
  }

  lemma {:induction false} OneFieldReadable(v: Json, w: Json, k: Text, l: Text, sep: Text, r: Text, t: Text)
    requires v.Obj? && w.Obj? && k in v.fields && l in w.fields
    requires EndsNumeral(r) && EndsNumeral(t)
    requires sep + (PrintString(k) + ([COLON] + (Canonical(v.fields[k]) + r)))
          == sep + (PrintString(l) + ([COLON] + (Canonical(w.fields[l]) + t)))
    ensures k == l && v.fields[k] == w.fields[l] && r == t
    decreases v, 0, 0
  {
    var va := [COLON] + (Canonical(v.fields[k]) + r);
    var vb := [COLON] + (Canonical(w.fields[l]) + t);
    Cancel(sep, PrintString(k) + va, PrintString(l) + vb);
    ReadPrinted(k, va);
    ReadPrinted(l, vb);
    Cancel([COLON], Canonical(v.fields[k]) + r, Canonical(w.fields[l]) + t);
    Readable(v.fields[k], w.fields[l], r, t);
  }

  /** Two values print alike only if they are equal, key order apart. */
  lemma CanonicalInjective(v: Json, w: Json)
    requires Canonical(v) == Canonical(w)
    ensures v == w
  {
    assert Canonical(v) + [] == Canonical(v) && Canonical(w) + [] == Canonical(w);
    Readable(v, w, [], []);
  }
}
