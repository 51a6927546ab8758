/** How long a canonical text can get: well-named operations with a short value and signature fit the limit. */
module Sizes {
  import opened Texts
  import opened Hlcs
  import opened Json
  import opened Ops

  /** At most this many units of each field, in canonical form. */
  const FIELD := 8000

  lemma {:induction false} PrintFromShort(s: Text, i: nat)
    requires i <= |s|
    ensures |PrintFrom(s, i)| <= 6 * (|s| - i)
    decreases |s| - i
  {
    if i < |s| { PrintFromShort(s, i + 1); }
  }

  lemma StringShort(s: Text)
    ensures |Canonical(Str(s))| == |PrintString(s)| <= 2 + 6 * |s|
  {
    PrintFromShort(s, 0);
  }

  lemma {:induction false} FieldsShort(v: Json, keys: seq<Text>, i: nat)
    requires v.Obj? && i <= |keys| && forall k <- keys :: k in v.fields
    requires forall k <- keys :: |k| <= 6 && |Canonical(v.fields[k])| <= FIELD
    ensures |FieldsFrom(v, keys, i)| <= (|keys| - i) * (FIELD + 40)
    decreases |keys| - i
  {
    hide Canonical, PrintString;
    if i < |keys| {
      assert keys[i] in keys;
      StringShort(keys[i]);
      FieldsShort(v, keys, i + 1);
    }
  }

  lemma ObjectShort(v: Json)
    requires v.Obj? && |v.fields| <= 8
    requires forall k <- v.fields :: |k| <= 6 && |Canonical(v.fields[k])| <= FIELD
    ensures |Canonical(v)| <= MAX_OP_BYTES
  {
    hide PrintString;
    FieldsShort(v, Sorted(v.fields.Keys), 0);
  }

  lemma EightFields(
    a: Text, b: Text, c: Text, d: Text, e: Text, f: Text, g: Text, h: Text,
    s: Json, t: Json, u: Json, v: Json, w: Json, x: Json, y: Json, z: Json)
    ensures var m := map[a := s, b := t, c := u, d := v, e := w, f := x, g := y][h := z];
      |m| <= 8 && forall k <- m :: k in {a, b, c, d, e, f, g, h} && m[k] in {s, t, u, v, w, x, y, z}
  {
    var m := map[a := s, b := t, c := u, d := v, e := w, f := x, g := y][h := z];
    assert m.Keys == {a, b, c, d, e, f, g, h};
    SizeOfEight(a, b, c, d, e, f, g, h);
    assert |m| == |m.Keys|;
  }

  lemma WireFields(w: WireOp)
    ensures WireJson(w).Obj? && |WireJson(w).fields| <= 8
    ensures forall k <- WireJson(w).fields ::
              |k| <= 6 && WireJson(w).fields[k] in
                {Str(w.id), Str(w.table), Str(w.row), Str(w.column), w.value, Str(w.hlc), Str(w.device), Str(w.sig)}
  {
    EightFields(ID, TABLE, ROW, COLUMN, VALUE, HLC, DEVICE, SIG,
                Str(w.id), Str(w.table), Str(w.row), Str(w.column), w.value, Str(w.hlc), Str(w.device), Str(w.sig));
  }

  lemma SizeOfEight(a: Text, b: Text, c: Text, d: Text, e: Text, f: Text, g: Text, h: Text)
    ensures |{a, b, c, d, e, f, g, h}| <= 8
  {
  }

  lemma DeviceTextShort(h: Hlc)
    ensures |DeviceText(h.device)| <= 50
  {
    DecodeEncode(h);
  }

  lemma NameShort(s: Text)
    requires IsName(s) || IsUlid(s) || s == TOMBSTONE
    ensures |Canonical(Str(s))| <= FIELD
  {
    StringShort(s);
  }

  /** Nothing but a long value, a long signature or a bad name keeps an operation out. */
  lemma ShortIsAdmissible(o: Op)
    requires WellNamed(o.cell) && |Canonical(o.value)| <= FIELD && |o.sig| <= 1000
    ensures Admissible(o)
  {
    hide Canonical, PrintString, Encode, DeviceText, WireJson, IsName, IsUlid;
    var w := ToWire(o);
    WireFields(w);
    DecodeEncode(o.hlc);
    DeviceTextShort(o.hlc);
    StringShort(w.id);
    StringShort(w.device);
    StringShort(w.sig);
    NameShort(w.table);
    NameShort(w.row);
    NameShort(w.column);
    ObjectShort(WireJson(w));
  }
}
