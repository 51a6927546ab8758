/** The signed text of an operation, spelled out. */
module Payload {
  import opened Texts
  import opened Hlcs
  import opened Json
  import opened Ops
  import Utf8

  function UnitOf(c: char): CodeUnit {
    if c as int < 128 then c as int else 0
  }

  /** An ASCII literal as a text. */
  function Ascii(s: string): Text {
    seq(|s|, i requires 0 <= i < |s| => UnitOf(s[i]))
  }

  /** The keys of an operation without its signature, in canonical order. */
  const KEYS := [COLUMN, DEVICE, HLC, ID, ROW, TABLE, VALUE]

  lemma KeyNames()
    ensures COLUMN == Ascii("column") && DEVICE == Ascii("device") && HLC == Ascii("hlc") && ID == Ascii("id")
    ensures ROW == Ascii("row") && TABLE == Ascii("table") && VALUE == Ascii("value") && SIG == Ascii("sig")
  {
  }

  lemma KeysAscend()
    ensures Less(COLUMN, DEVICE) && Less(DEVICE, HLC) && Less(HLC, ID) && Less(ID, ROW)
    ensures Less(ROW, TABLE) && Less(TABLE, VALUE)
  {
  }

  lemma {:induction false} StepsAscend(ks: seq<Text>, i: nat, j: nat)
    requires i < j < |ks| && forall k | 0 <= k < |ks| - 1 :: Less(ks[k], ks[k + 1])
    ensures Less(ks[i], ks[j])
    decreases j
  {
    hide Less;
    if i < j - 1 {
      StepsAscend(ks, i, j - 1);
      LessTransitive(ks[i], ks[j - 1], ks[j]);
    }
  }

  lemma KeysSorted(w: WireOp)
    ensures Sorted(Unsigned(w).fields.Keys) == KEYS
  {
    hide Less;
    KeysAscend();
    forall i, j | 0 <= i < j < |KEYS| ensures Less(KEYS[i], KEYS[j]) {
      StepsAscend(KEYS, i, j);
    }
    KeysOf(w);
    SortedUnique(Unsigned(w).fields.Keys, KEYS);
  }

  lemma KeysOf(w: WireOp)
    ensures forall k :: k in KEYS <==> k in Unsigned(w).fields
  {
  }

  lemma FieldNext(v: Json, ks: seq<Text>, i: nat)
    requires v.Obj? && i < |ks| && forall k <- ks :: k in v.fields
    ensures FieldsFrom(v, ks, i)
         == Separator(i) + PrintString(ks[i]) + [COLON] + Canonical(v.fields[ks[i]]) + FieldsFrom(v, ks, i + 1)
  {
  }

  lemma {:induction false} PlainFrom(s: Text, i: nat)
    requires i <= |s| && forall c <- s :: 0x23 <= c < 0x5c || 0x5d <= c < 0x80
    ensures PrintFrom(s, i) == s[i..]
    decreases |s| - i
  {
    if i < |s| {
      assert s[i] in s;
      PlainFrom(s, i + 1);
      assert PrintUnit(s, i) == [s[i]];
      assert s[i..] == [s[i]] + s[i + 1..];
    }
  }

  lemma KeyPrinted(key: Text)
    requires forall c <- key :: 0x23 <= c < 0x5c || 0x5d <= c < 0x80
    ensures PrintString(key) == [QUOTE] + key + [QUOTE]
  {
    PlainFrom(key, 0);
    assert key[0..] == key;
  }

  /** A field but for its value: separator, quoted key, colon. */
  function Label(i: nat, key: Text): Text {
    Separator(i) + ([QUOTE] + key + [QUOTE]) + [COLON]
  }

  lemma LabelsPrinted()
    ensures forall i | 0 <= i < 7 :: PrintString(KEYS[i]) == [QUOTE] + KEYS[i] + [QUOTE]
  {
    hide PrintString;
    KeyPrinted(COLUMN);
    KeyPrinted(DEVICE);
    KeyPrinted(HLC);
    KeyPrinted(ID);
    KeyPrinted(ROW);
    KeyPrinted(TABLE);
    KeyPrinted(VALUE);
  }

  lemma LabelTexts()
    ensures [OPEN_OBJECT] + Label(0, COLUMN) == Ascii("{\"column\":") && Label(1, DEVICE) == Ascii(",\"device\":")
    ensures Label(2, HLC) == Ascii(",\"hlc\":") && Label(3, ID) == Ascii(",\"id\":")
    ensures Label(4, ROW) == Ascii(",\"row\":") && Label(5, TABLE) == Ascii(",\"table\":")
    ensures Label(6, VALUE) == Ascii(",\"value\":")
  {
  }

  lemma DomainText()
    ensures SIGNING_DOMAIN == Ascii("tangentfeed/v2/op")
  {
  }

  /** What is signed, character by character. */
  function SignedText(w: WireOp): Text {
    Ascii("tangentfeed/v2/op")
    + (Ascii("{\"column\":") + PrintString(w.column)
    + (Ascii(",\"device\":") + PrintString(w.device)
    + (Ascii(",\"hlc\":") + PrintString(w.hlc)
    + (Ascii(",\"id\":") + PrintString(w.id)
    + (Ascii(",\"row\":") + PrintString(w.row)
    + (Ascii(",\"table\":") + PrintString(w.table)
    + (Ascii(",\"value\":") + Canonical(w.value) + Ascii("}"))))))))
  }

  /** From field `i` on: the label, the text of the field, and the rest. */
  lemma FieldIs(w: WireOp, i: nat, text: Text, rest: Text)
    requires i < 7 && Unsigned(w).Obj? && (forall k <- KEYS :: k in Unsigned(w).fields)
    requires Canonical(Unsigned(w).fields[KEYS[i]]) == text
    requires FieldsFrom(Unsigned(w), KEYS, i + 1) + [CLOSE_OBJECT] == rest
    ensures FieldsFrom(Unsigned(w), KEYS, i) + [CLOSE_OBJECT] == Label(i, KEYS[i]) + text + rest
  {
    hide Canonical, PrintString, Unsigned;
    var v := Unsigned(w);
    LabelsPrinted();
    FieldNext(v, KEYS, i);
    Assoc(Label(i, KEYS[i]) + text, FieldsFrom(v, KEYS, i + 1), [CLOSE_OBJECT]);
  }

  lemma UnsignedFields(w: WireOp)
    ensures Unsigned(w).Obj? && forall k <- KEYS :: k in Unsigned(w).fields
    ensures var f := Unsigned(w).fields;
      && f[COLUMN] == Str(w.column) && f[DEVICE] == Str(w.device) && f[HLC] == Str(w.hlc) && f[ID] == Str(w.id)
      && f[ROW] == Str(w.row) && f[TABLE] == Str(w.table) && f[VALUE] == w.value
  {
    KeyNames();
  }

  lemma FieldsText(w: WireOp)
    requires Unsigned(w).Obj? && forall k <- KEYS :: k in Unsigned(w).fields
    ensures FieldsFrom(Unsigned(w), KEYS, 0) + [CLOSE_OBJECT]
         == Label(0, COLUMN) + PrintString(w.column)
            + (Label(1, DEVICE) + PrintString(w.device)
            + (Label(2, HLC) + PrintString(w.hlc)
            + (Label(3, ID) + PrintString(w.id)
            + (Label(4, ROW) + PrintString(w.row)
            + (Label(5, TABLE) + PrintString(w.table)
            + (Label(6, VALUE) + Canonical(w.value) + [CLOSE_OBJECT]))))))
  {
    UnsignedFields(w);
    CanonicalStrings();
    hide Canonical, PrintString, Unsigned, Label, FieldsFrom;
    NoFields(Unsigned(w));
    var v6 := Label(6, VALUE) + Canonical(w.value) + [CLOSE_OBJECT];
    FieldIs(w, 6, Canonical(w.value), [CLOSE_OBJECT]);
    var v5 := Label(5, TABLE) + PrintString(w.table) + v6;
    FieldIs(w, 5, PrintString(w.table), v6);
    var v4 := Label(4, ROW) + PrintString(w.row) + v5;
    FieldIs(w, 4, PrintString(w.row), v5);
    var v3 := Label(3, ID) + PrintString(w.id) + v4;
    FieldIs(w, 3, PrintString(w.id), v4);
    var v2 := Label(2, HLC) + PrintString(w.hlc) + v3;
    FieldIs(w, 2, PrintString(w.hlc), v3);
    var v1 := Label(1, DEVICE) + PrintString(w.device) + v2;
    FieldIs(w, 1, PrintString(w.device), v2);
    FieldIs(w, 0, PrintString(w.column), v1);
  }

  lemma CanonicalStrings()
    ensures forall s :: Canonical(Str(s)) == PrintString(s)
  {
  }

  /** The bytes a signature covers are those of this text: the domain, then seven fields by name, in this order, with
      nothing in between. */
  lemma SignedTextIs(w: WireOp)
    ensures SignedPayload(w) == Utf8.Encode(SignedText(w))
  {
    hide Canonical, PrintString, Unsigned, Label, FieldsFrom, Utf8.Encode, Ascii;
    UnsignedText(w);
    FieldsText(w);
    DomainText();
    LabelTexts();
    Closing();
    Assoc([OPEN_OBJECT], FieldsFrom(Unsigned(w), KEYS, 0), [CLOSE_OBJECT]);
    var rest := Label(1, DEVICE) + PrintString(w.device)
                + (Label(2, HLC) + PrintString(w.hlc)
                + (Label(3, ID) + PrintString(w.id)
                + (Label(4, ROW) + PrintString(w.row)
                + (Label(5, TABLE) + PrintString(w.table)
                + (Label(6, VALUE) + Canonical(w.value) + [CLOSE_OBJECT])))));
    Assoc([OPEN_OBJECT], Label(0, COLUMN) + PrintString(w.column), rest);
    Assoc([OPEN_OBJECT], Label(0, COLUMN), PrintString(w.column));
  }

  lemma NoFields(v: Json)
    requires v.Obj? && forall k <- KEYS :: k in v.fields
    ensures FieldsFrom(v, KEYS, 7) + [CLOSE_OBJECT] == [CLOSE_OBJECT]
  {
  }

  lemma Closing()
    ensures [CLOSE_OBJECT] == Ascii("}")
  {
  }

  lemma UnsignedText(w: WireOp)
    ensures Unsigned(w).Obj? && forall k <- KEYS :: k in Unsigned(w).fields
    ensures Canonical(Unsigned(w)) == [OPEN_OBJECT] + FieldsFrom(Unsigned(w), KEYS, 0) + [CLOSE_OBJECT]
  {
    hide FieldsFrom, PrintString;
    KeysSorted(w);
    UnsignedFields(w);
  }

  // ---------- timestamps ----------

  /** Lowercase hexadecimal digits, with dashes after the twelfth and after four more. */
  lemma EncodedUnits(h: Hlc)
    ensures |Encode(h)| == 50
    ensures forall i | 0 <= i < 50 :: var c := Encode(h)[i];
              if i == 12 || i == 17 then c == 0x2d else 0x30 <= c <= 0x39 || 0x61 <= c <= 0x66
  {
    DecodeEncode(h);
    var s := Encode(h);
    assert WellFormed(s);
    forall i | 0 <= i < 50 && i != 12 && i != 17 ensures IsHexDigit(s[i]) {
      if i < 12 { assert s[..12][i] in s[..12]; }
      else if i < 17 { assert s[13..17][i - 13] in s[13..17]; }
      else { assert s[18..][i - 18] in s[18..]; }
    }
  }
}
