/** A strict reader of canonical texts, independent of the printer: no whitespace, literals to the letter, keys in
    ascending order and each once. What the printer prints it reads back. */
module Reader {
  import opened Texts
  import opened Json

  datatype Parsed = Value(value: Json, rest: Text) | NoValue

  datatype ParsedItems = Items(items: seq<Json>, rest: Text) | NoItems

  datatype ParsedFields = Fields(fields: map<Text, Json>, rest: Text) | NoFields

  lemma {:induction false} UnitsShrink(x: Text)
    ensures ReadUnits(x).Read? ==> |ReadUnits(x).rest| < |x|
    decreases |x|
  {
    if x != [] && x[0] != QUOTE {
      UnitsShrink(x[1..]);
      if |x| >= 2 { UnitsShrink(x[2..]); }
      if |x| >= 6 { UnitsShrink(x[6..]); }
    }
  }

  /** The numeral units at the front. */
  function NumeralSize(x: Text): (n: nat)
    ensures n <= |x| && (forall k | 0 <= k < n :: NumeralUnit(x[k])) && (n < |x| ==> !NumeralUnit(x[n]))
  {
    if x == [] || !NumeralUnit(x[0]) then 0 else 1 + NumeralSize(x[1..])
  }

  function ReadLiteral(x: Text, literal: Text, v: Json): (p: Parsed)
    requires literal != []
    ensures p.Value? ==> |p.rest| < |x|
  {
    if literal <= x then Value(v, x[|literal|..]) else NoValue
  }

  function ReadNumeral(x: Text): (p: Parsed)
    ensures p.Value? ==> |p.rest| < |x|
  {
    var n := NumeralSize(x);
    if IsNumeral(x[..n]) then Value(Num(x[..n]), x[n..]) else NoValue
  }

  function ReadText(x: Text): (p: Parsed)
    ensures p.Value? ==> |p.rest| < |x|
  {
    match ReadString(x)
    case Read(text, rest) => UnitsShrink(x[1..]); Value(Str(text), rest)
    case Unreadable => NoValue
  }

  function ReadValue(x: Text): (p: Parsed)
    ensures p.Value? ==> |p.rest| < |x|
    decreases |x|, 0
  {
    if x == [] then NoValue
    else if x[0] == 0x6e then ReadLiteral(x, [0x6e, 0x75, 0x6c, 0x6c], Null)
    else if x[0] == 0x74 then ReadLiteral(x, [0x74, 0x72, 0x75, 0x65], Bool(true))
    else if x[0] == 0x66 then ReadLiteral(x, [0x66, 0x61, 0x6c, 0x73, 0x65], Bool(false))
    else if x[0] == 0x22 then ReadText(x)
    else if x[0] == 0x5b then
      match ReadItems(x[1..], 0)
      case Items(items, rest) => Value(Arr(items), rest)
      case NoItems => NoValue
    else if x[0] == 0x7b then
      match ReadFields(x[1..], 0, [])
      case Fields(fields, rest) => Value(Obj(fields), rest)
      case NoFields => NoValue
    else ReadNumeral(x)
  }

  /** What follows `i` items, up to the bracket. */
  function ReadItems(x: Text, i: nat): (p: ParsedItems)
    ensures p.Items? ==> |p.rest| < |x|
    decreases |x|, 1
  {
    if x == [] then NoItems
    else if x[0] == 0x5d then Items([], x[1..])
    else if i > 0 && x[0] != 0x2c then NoItems
    else
      match ReadValue(if i > 0 then x[1..] else x)
      case NoValue => NoItems
      case Value(v, rest) =>
        match ReadItems(rest, i + 1)
        case NoItems => NoItems
        case Items(items, end) => Items([v] + items, end)
  }

  /** What follows `i` fields, the last with key `last`, up to the brace. */
  function ReadFields(x: Text, i: nat, last: Text): (p: ParsedFields)
    ensures p.Fields? ==> |p.rest| < |x|
    decreases |x|, 1
  {
    if x == [] then NoFields
    else if x[0] == 0x7d then Fields(map[], x[1..])
    else if i > 0 && x[0] != 0x2c then NoFields
    else
      match ReadText(if i > 0 then x[1..] else x)
      case NoValue => NoFields
      case Value(key, y) =>
        if !key.Str? || (i > 0 && !Less(last, key.text)) || y == [] || y[0] != 0x3a then NoFields
        else
          match ReadValue(y[1..])
          case NoValue => NoFields
          case Value(v, rest) =>
            match ReadFields(rest, i + 1, key.text)
            case NoFields => NoFields
            case Fields(fields, end) => Fields(fields[key.text := v], end)
  }

  // ---------- reading back ----------

  lemma LiteralRead(literal: Text, r: Text, v: Json)
    requires literal != []
    ensures ReadLiteral(literal + r, literal, v) == Value(v, r)
  {
    assert (literal + r)[..|literal|] == literal && (literal + r)[|literal|..] == r;
  }

  lemma {:induction false} NumeralSizeIs(a: Text, r: Text)
    requires (forall c <- a :: NumeralUnit(c)) && EndsNumeral(r)
    ensures NumeralSize(a + r) == |a|
  {
    if a == [] {
      assert a + r == r;
    } else {
      assert (a + r)[1..] == a[1..] + r;
      NumeralSizeIs(a[1..], r);
    }
  }

  lemma NumeralRead(a: Numeral, r: Text)
    requires EndsNumeral(r)
    ensures ReadNumeral(a + r) == Value(Num(a), r)
  {
    NumeralSizeIs(a, r);
    assert (a + r)[..|a|] == a && (a + r)[|a|..] == r;
  }

  lemma TextRead(s: Text, r: Text)
    ensures ReadText(PrintString(s) + r) == Value(Str(s), r)
    ensures |PrintString(s)| > 0 && (PrintString(s) + r)[0] == 0x22
  {
    hide PrintFrom, ReadUnits;
    ReadPrinted(s, r);
  }

  lemma ArrayRead(y: Text, items: seq<Json>, r: Text)
    requires ReadItems(y, 0) == Items(items, r)
    ensures ReadValue([OPEN_ARRAY] + y) == Value(Arr(items), r)
  {
    assert ([OPEN_ARRAY] + y)[1..] == y;
  }

  lemma ObjectRead(y: Text, fields: map<Text, Json>, r: Text)
    requires ReadFields(y, 0, []) == Fields(fields, r)
    ensures ReadValue([OPEN_OBJECT] + y) == Value(Obj(fields), r)
  {
    assert ([OPEN_OBJECT] + y)[1..] == y;
  }

  lemma AtomRead(v: Json, r: Text)
    requires EndsNumeral(r) && !v.Arr? && !v.Obj?
    ensures ReadValue(Canonical(v) + r) == Value(v, r)
  {
    hide ReadText, ReadItems, ReadFields, ReadNumeral, ReadLiteral, PrintString;
    FirstUnit(v, r);
    match v {
      case Null => LiteralRead(NULL_TEXT, r, v);
      case Bool(b) => LiteralRead(Canonical(v), r, v);
      case Num(numeral) => NumeralRead(numeral, r);
      case Str(text) => TextRead(text, r);
    }
  }

  /** The printed value is read back, whatever follows it that could not belong to a number. */
  lemma {:induction false} ReadBack(v: Json, r: Text)
    requires EndsNumeral(r)
    ensures ReadValue(Canonical(v) + r) == Value(v, r)
    decreases v, 1, 0
  {
    hide ReadValue, ReadItems, ReadFields, Canonical;
    match v {
      case Arr(items) =>
        ArrayText(v, r);
        ItemsReadBack(v, 0, r);
        assert items[0..] == items;
        ArrayRead(ItemsFrom(v, 0) + ([CLOSE_ARRAY] + r), items, r);
      case Obj(fields) =>
        var ks := Sorted(fields.Keys);
        SortedAscending(fields.Keys);
        ObjectText(v, r);
        FieldsReadBack(v, ks, 0, [], r);
        AllFields(fields, ks);
        ObjectRead(FieldsFrom(v, ks, 0) + ([CLOSE_OBJECT] + r), fields, r);
      case _ => AtomRead(v, r);
    }
  }

  lemma {:induction false} ItemsReadBack(v: Json, i: nat, r: Text)
    requires v.Arr? && i <= |v.items|
    ensures ReadItems(ItemsFrom(v, i) + ([CLOSE_ARRAY] + r), i) == Items(v.items[i..], r)
    decreases v, 0, |v.items| - i
  {
    hide Canonical, ReadValue;
    var x := ItemsFrom(v, i) + ([CLOSE_ARRAY] + r);
    ItemsEnd(v, i, r);
    if i == |v.items| {
      assert x == [CLOSE_ARRAY] + r && x[1..] == r;
    } else {
      var tail := ItemsFrom(v, i + 1) + ([CLOSE_ARRAY] + r);
      ItemText(v, i, [CLOSE_ARRAY] + r);
      ItemsEnd(v, i + 1, r);
      ReadBack(v.items[i], tail);
      ItemsReadBack(v, i + 1, r);
      assert (if i > 0 then x[1..] else x) == Canonical(v.items[i]) + tail;
      assert v.items[i..] == [v.items[i]] + v.items[i + 1..];
    }
  }

  /** The fields with the keys from `i` on. */
  function FieldsOn(fields: map<Text, Json>, ks: seq<Text>, i: nat): map<Text, Json>
    requires i <= |ks| && forall k <- ks :: k in fields
  {
    map k | k in ks[i..] :: fields[k]
  }

  lemma AllFields(fields: map<Text, Json>, ks: seq<Text>)
    requires forall k :: k in ks <==> k in fields
    ensures FieldsOn(fields, ks, 0) == fields
  {
    assert ks[0..] == ks;
  }

  lemma FieldsStep(fields: map<Text, Json>, ks: seq<Text>, i: nat)
    requires i < |ks| && forall k <- ks :: k in fields
    ensures FieldsOn(fields, ks, i) == FieldsOn(fields, ks, i + 1)[ks[i] := fields[ks[i]]]
  {
    assert ks[i..] == [ks[i]] + ks[i + 1..];
  }

  lemma FieldBody(v: Json, ks: seq<Text>, i: nat, r: Text)
    requires v.Obj? && i < |ks| && forall k <- ks :: k in v.fields
    ensures var x := FieldsFrom(v, ks, i) + ([CLOSE_OBJECT] + r);
      var tail := FieldsFrom(v, ks, i + 1) + ([CLOSE_OBJECT] + r);
      && |x| > 0 && (i > 0 ==> x[0] == 0x2c) && (i == 0 ==> x[0] == 0x22)
      && (if i > 0 then x[1..] else x)
      == PrintString(ks[i]) + ([0x3a] + (Canonical(v.fields[ks[i]]) + tail))
  {
    hide Canonical, PrintString;
    var tail := FieldsFrom(v, ks, i + 1) + ([CLOSE_OBJECT] + r);
    FieldText(v, ks, i, [CLOSE_OBJECT] + r);
    TextRead(ks[i], [0x3a] + (Canonical(v.fields[ks[i]]) + tail));
  }

  lemma FieldsEnding(v: Json, ks: seq<Text>, i: nat, r: Text)
    requires v.Obj? && i <= |ks| && (forall k <- ks :: k in v.fields)
    ensures i > 0 ==> EndsNumeral(FieldsFrom(v, ks, i) + ([CLOSE_OBJECT] + r))
  {
    hide Canonical, PrintString;
    if i < |ks| { FieldBody(v, ks, i, r); }
  }

  /** One field read, and the others after it. */
  lemma FieldRead(x: Text, i: nat, last: Text, key: Text, after: Text, v: Json, tail: Text,
                  fields: map<Text, Json>, r: Text)
    requires |x| > 0 && (if i > 0 then x[0] == 0x2c && Less(last, key) else x[0] == 0x22)
    requires ReadText(if i > 0 then x[1..] else x) == Value(Str(key), after)
    requires |after| > 0 && after[0] == 0x3a && ReadValue(after[1..]) == Value(v, tail)
    requires ReadFields(tail, i + 1, key) == Fields(fields, r)
    ensures ReadFields(x, i, last) == Fields(fields[key := v], r)
  {
    hide ReadText, ReadValue, Less;
  }

  lemma FieldsEnd(r: Text, i: nat, last: Text)
    ensures ReadFields([] + ([CLOSE_OBJECT] + r), i, last) == Fields(map[], r)
  {
    var x := [] + ([CLOSE_OBJECT] + r);
    assert x[0] == 0x7d && x[1..] == r;
  }

  lemma {:induction false} FieldsReadBack(v: Json, ks: seq<Text>, i: nat, last: Text, r: Text)
    requires v.Obj? && i <= |ks| && AscendingTexts(ks) && forall k <- ks :: k in v.fields
    requires i > 0 ==> last == ks[i - 1]
    ensures ReadFields(FieldsFrom(v, ks, i) + ([CLOSE_OBJECT] + r), i, last) == Fields(FieldsOn(v.fields, ks, i), r)
    decreases v, 0, |ks| - i
  {
    hide Canonical, ReadValue, ReadText, ReadFields, PrintString, FieldsOn;
    if i == |ks| {
      FieldsEnd(r, i, last);
      NoFieldsOn(v.fields, ks);
    } else {
      hide FieldsFrom;
      var key := ks[i];
      assert key in ks;
      var tail := FieldsFrom(v, ks, i + 1) + ([CLOSE_OBJECT] + r);
      var after := [0x3a] + (Canonical(v.fields[key]) + tail);
      FieldBody(v, ks, i, r);
      TextRead(key, after);
      FieldsEnding(v, ks, i + 1, r);
      ReadBack(v.fields[key], tail);
      FieldsReadBack(v, ks, i + 1, key, r);
      FieldsStep(v.fields, ks, i);
      assert after[1..] == Canonical(v.fields[key]) + tail;
      FieldRead(FieldsFrom(v, ks, i) + ([CLOSE_OBJECT] + r), i, last, key, after, v.fields[key], tail,
                FieldsOn(v.fields, ks, i + 1), r);
    }
  }

  lemma NoFieldsOn(fields: map<Text, Json>, ks: seq<Text>)
    requires forall k <- ks :: k in fields
    ensures FieldsOn(fields, ks, |ks|) == map[]
  {
  }
}
