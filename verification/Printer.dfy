/** The canonical printer, writing into a buffer. */
module Printer {
  import opened Texts
  import opened Json

  class StringBuffer {
    var text: Text

    constructor ()
      ensures text == []
    {
      text := [];
    }

    method Write(s: Text)
      modifies this
      ensures text == old(text) + s
    {
      text := text + s;
    }
  }

  lemma PrintFromSplit(s: Text, i: nat)
    requires i < |s|
    ensures PrintFrom(s, i) == PrintUnit(s, i) + PrintFrom(s, i + 1)
  {
  }

  /** `_isLoneSurrogate`. */
  method LoneSurrogate(s: Text, i: nat, c: CodeUnit) returns (lone: bool)
    requires i < |s| && c == s[i]
    ensures lone == IsLoneSurrogate(s, i)
  {
    var isHigh := c >= 0xd800 && c <= 0xdbff;
    var isLow := c >= 0xdc00 && c <= 0xdfff;
    if !isHigh && !isLow { return false; }
    if isHigh {
      if i + 1 >= |s| { return true; }
      var next := s[i + 1];
      return !(next >= 0xdc00 && next <= 0xdfff);
    }
    if i == 0 { return true; }
    var prev := s[i - 1];
    return !(prev >= 0xd800 && prev <= 0xdbff);
  }

  method WriteUnit(buf: StringBuffer, s: Text, i: nat)
    requires i < |s|
    modifies buf
    ensures buf.text == old(buf.text) + PrintUnit(s, i)
  {
    var c := s[i];
    if c == 0x22 { buf.Write([BACKSLASH, 0x22]); }
    else if c == 0x5c { buf.Write([BACKSLASH, 0x5c]); }
    else if c == 0x08 { buf.Write([BACKSLASH, 0x62]); }
    else if c == 0x0c { buf.Write([BACKSLASH, 0x66]); }
    else if c == 0x0a { buf.Write([BACKSLASH, 0x6e]); }
    else if c == 0x0d { buf.Write([BACKSLASH, 0x72]); }
    else if c == 0x09 { buf.Write([BACKSLASH, 0x74]); }
    else if c < 0x20 {
      assert Hex4(c) == [0x30, 0x30, HexDigit(c / 16), HexDigit(c % 16)];
      buf.Write([BACKSLASH, 0x75, 0x30, 0x30, HexDigit(c / 16), HexDigit(c % 16)]);
    } else {
      var lone := LoneSurrogate(s, i, c);
      if lone {
        buf.Write([BACKSLASH, 0x75, HexDigit(c / 4096), HexDigit(c / 256 % 16),
                   HexDigit(c / 16 % 16), HexDigit(c % 16)]);
      } else {
        buf.Write([c]);
      }
    }
  }

  method WriteCanonicalString(buf: StringBuffer, s: Text)
    modifies buf
    ensures buf.text == old(buf.text) + PrintString(s)
  {
    buf.Write([QUOTE]);
    for i := 0 to |s|
      invariant buf.text + PrintFrom(s, i) == old(buf.text) + [QUOTE] + PrintFrom(s, 0)
    {
      PrintFromSplit(s, i);
      WriteUnit(buf, s, i);
    }
    assert buf.text == old(buf.text) + [QUOTE] + PrintFrom(s, 0);
    buf.Write([QUOTE]);
  }

  /** `keys.sort()`, by code unit. */
  method SortKeys(keys: set<Text>) returns (ks: seq<Text>)
    ensures AscendingTexts(ks) && (forall k :: k in ks <==> k in keys)
    ensures ks == Sorted(keys)
  {
    hide AscendingTexts, IsLeast, Sorted;
    SortedAscending(keys);
    ghost var all := Sorted(keys);
    ks := [];
    var left := keys;
    while left != {}
      invariant ks + Sorted(left) == all
      decreases |left|
    {
      var k := Least(left);
      LeastFirst(left);
      assert ks + Sorted(left) == (ks + [k]) + Sorted(left - {k});
      ks := ks + [k];
      left := left - {k};
    }
    NothingSorted();
    assert ks == all;
  }

  lemma LeastFirst(keys: set<Text>)
    requires keys != {}
    ensures Sorted(keys) == [Least(keys)] + Sorted(keys - {Least(keys)})
  {
  }

  lemma NothingSorted()
    ensures Sorted({}) == []
  {
  }

  /** Writes the canonical text of a value. */
  method Write(buf: StringBuffer, v: Json)
    modifies buf
    ensures buf.text == old(buf.text) + Canonical(v)
    decreases v, 3
  {
    match v {
      case Null => buf.Write(NULL_TEXT);
      case Bool(b) => buf.Write(if b then TRUE_TEXT else FALSE_TEXT);
      case Num(numeral) => buf.Write(numeral);
      case Str(text) => WriteCanonicalString(buf, text);
      case Arr(items) => WriteArray(buf, v);
      case Obj(fields) => WriteObject(buf, v);
    }
  }

  lemma Flatten(a: Text, b: Text, c: Text, d: Text)
    ensures a + b + c + d == a + (b + c + d)
  {
  }

  method WriteArray(buf: StringBuffer, v: Json)
    requires v.Arr?
    modifies buf
    ensures buf.text == old(buf.text) + Canonical(v)
    decreases v, 0
  {
    buf.Write([OPEN_ARRAY]);
    for i := 0 to |v.items|
      invariant buf.text + ItemsFrom(v, i) == old(buf.text) + [OPEN_ARRAY] + ItemsFrom(v, 0)
    {
      Flatten(buf.text, Separator(i), Canonical(v.items[i]), ItemsFrom(v, i + 1));
      if i > 0 { buf.Write([COMMA]); }
      Write(buf, v.items[i]);
    }
    assert buf.text == old(buf.text) + [OPEN_ARRAY] + ItemsFrom(v, 0);
    buf.Write([CLOSE_ARRAY]);
  }

  lemma FieldSplit(v: Json, ks: seq<Text>, i: nat)
    requires v.Obj? && i < |ks| && forall k <- ks :: k in v.fields
    ensures FieldsFrom(v, ks, i)
         == (Separator(i) + PrintString(ks[i])) + ([COLON] + Canonical(v.fields[ks[i]])) + FieldsFrom(v, ks, i + 1)
  {
  }

  method WriteField(buf: StringBuffer, v: Json, keys: seq<Text>, i: nat)
    requires v.Obj? && i < |keys| && forall k <- keys :: k in v.fields
    modifies buf
    ensures buf.text + FieldsFrom(v, keys, i + 1) == old(buf.text) + FieldsFrom(v, keys, i)
    decreases v, 0
  {
    if i > 0 { buf.Write([COMMA]); }
    WriteCanonicalString(buf, keys[i]);
    assert buf.text == old(buf.text) + (Separator(i) + PrintString(keys[i]));
    ghost var named := buf.text;
    buf.Write([COLON]);
    Write(buf, v.fields[keys[i]]);
    assert buf.text == named + ([COLON] + Canonical(v.fields[keys[i]]));
    FieldSplit(v, keys, i);
    Flatten(old(buf.text), Separator(i) + PrintString(keys[i]), [COLON] + Canonical(v.fields[keys[i]]),
            FieldsFrom(v, keys, i + 1));
  }

  method WriteFields(buf: StringBuffer, v: Json, keys: seq<Text>)
    requires v.Obj? && forall k <- keys :: k in v.fields
    modifies buf
    ensures buf.text == old(buf.text) + FieldsFrom(v, keys, 0)
    decreases v, 1
  {
    for i := 0 to |keys|
      invariant buf.text + FieldsFrom(v, keys, i) == old(buf.text) + FieldsFrom(v, keys, 0)
    {
      WriteField(buf, v, keys, i);
    }
    assert buf.text + FieldsFrom(v, keys, |keys|) == buf.text;
  }

  method WriteObject(buf: StringBuffer, v: Json)
    requires v.Obj?
    modifies buf
    ensures buf.text == old(buf.text) + Canonical(v)
    decreases v, 2
  {
    var keys := SortKeys(v.fields.Keys);
    buf.Write([OPEN_OBJECT]);
    WriteFields(buf, v, keys);
    buf.Write([CLOSE_OBJECT]);
    Flatten(old(buf.text), [OPEN_OBJECT], FieldsFrom(v, keys, 0), [CLOSE_OBJECT]);
  }
}
