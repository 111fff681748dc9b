/** Decoding what Encode produced: success, the normal form it yields, and when that is the input. */
module RoundTrip {
  import opened Common
  import opened Json
  import opened RequiredFields
  import opened Schema

  lemma {:induction false} FieldIndexOf(s: Schema, i: nat, from: nat)
    requires DistinctNames(s) && from <= i < |s.fields|
    ensures FieldIndex(s, s.fields[i].name, from) == Some(i)
    decreases i - from
  {
    if from < i {
      FieldIndexOf(s, i, from + 1);
    }
  }

  // ---- Maps of raw values ---------------------------------------------------------------

  lemma {:induction false} ListingRebuildsMap(ms: seq<Member>, raw: map<string, seq<Token>>, m: map<string, seq<Token>>)
    requires IsListing(ms, raw)
    ensures RawEntries(m, ms) == m + raw
    decreases ms
  {
    if ms != [] {
      var k := ms[0].key;
      ListingRebuildsMap(ms[1..], raw - {k}, m[k := raw[k]]);
      assert m[k := raw[k]] + (raw - {k}) == m + raw;
    } else {
      assert m + raw == m;
    }
  }

  // ---- The round trip -------------------------------------------------------------------

  /** Every JSON value Encode may produce for v decodes, into a fresh variable, to Norm(v). */
  lemma {:induction false} DecodeEncode(ty: Ty, v: Value, j: Json)
    requires WfTy(ty) && HasType(ty, v) && IsEncoding(ty, v, j)
    ensures DecodeVal(ty, j) == Ok(Norm(ty, v))
    decreases v, 0
  {
    match ty
    case TOpt(base) => DecodeEncode(base, v.val, j);
    case TSlice(e) =>
      if v.VSlice? {
        DecodeEncodeElems(e, v.elems, j.elems);
      }
      assert DecodeElems(e, j.elems).value == Norm(ty, v).elems;
    case TStruct(s) =>
      DecodeEncodeFields(s, v.fields, 0, WithDefaults(s, ZeroFields(s)), j.members);
      NothingMissing(s, v.fields, j.members);
    case TMap(_) =>
      ListingRebuildsMap(j.members, Entries(v), map[]);
      assert map[] + Entries(v) == Entries(v);
    case _ =>
  }

  lemma {:induction false} DecodeEncodeElems(e: Ty, vs: seq<Value>, js: seq<Json>)
    requires WfTy(e) && |vs| == |js|
    requires forall i :: 0 <= i < |vs| ==> HasType(e, vs[i]) && IsEncoding(e, vs[i], js[i])
    ensures DecodeElems(e, js).Ok? && |DecodeElems(e, js).value| == |vs|
    ensures forall i :: 0 <= i < |vs| ==> DecodeElems(e, js).value[i] == Norm(e, vs[i])
    decreases vs, 0
  {
    if vs != [] {
      var ws, ks := vs[1..], js[1..];
      DecodeEncode(e, vs[0], js[0]);
      forall i | 0 <= i < |ws|
        ensures HasType(e, ws[i]) && IsEncoding(e, ws[i], ks[i])
      {
        assert ws[i] == vs[i + 1] && ks[i] == js[i + 1];
      }
      DecodeEncodeElems(e, ws, ks);
      var out := DecodeElems(e, js).value;
      assert out == [Norm(e, vs[0])] + DecodeElems(e, ks).value;
      forall i | 0 <= i < |vs|
        ensures out[i] == Norm(e, vs[i])
      {
        if i > 0 {
          assert ws[i - 1] == vs[i];
        }
      }
    }
  }

  lemma {:induction false} DecodeEncodeFields(s: Schema, vs: seq<Value>, k: nat, r: seq<Value>, ms: seq<Member>)
    requires WfSchema(s) && FieldsHaveType(s, vs) && k <= |vs| == |r|
    requires FieldsEncode(s, vs, k, ms)
    requires forall i :: 0 <= i < k ==> r[i] == NormFields(s, vs)[i]
    requires forall i :: k <= i < |r| ==> r[i] == Default(s.fields[i])
    ensures DecodeMembers(s, r, ms) == Ok(NormFields(s, vs))
    decreases vs, |vs| - k
  {
    if k == |vs| {
      assert r == NormFields(s, vs);
    } else if Emitted(s.fields[k], vs[k]) {
      DecodeEncode(s.fields[k].ty, vs[k], ms[0].val);
      FieldIndexOf(s, k, 0);
      DecodeEncodeFields(s, vs, k + 1, r[k := NormField(s.fields[k], vs[k])], ms[1..]);
    } else {
      DecodeEncodeFields(s, vs, k + 1, r, ms);
    }
  }

  lemma {:induction false} EmittedIsPresent(s: Schema, vs: seq<Value>, k: nat, i: nat, ms: seq<Member>)
    requires FieldsHaveType(s, vs) && k <= i < |vs| && FieldsEncode(s, vs, k, ms)
    requires Emitted(s.fields[i], vs[i])
    ensures HasKey(ms, s.fields[i].name)
    decreases |vs| - k
  {
    if k == i {
      assert ms[0] in ms;
    } else if Emitted(s.fields[k], vs[k]) {
      EmittedIsPresent(s, vs, k + 1, i, ms[1..]);
      var m :| m in ms[1..] && m.key == s.fields[i].name;
      assert m in ms;
    } else {
      EmittedIsPresent(s, vs, k + 1, i, ms);
    }
  }

  lemma NothingMissing(s: Schema, vs: seq<Value>, ms: seq<Member>)
    requires FieldsHaveType(s, vs) && FieldsEncode(s, vs, 0, ms)
    ensures MissingNames(s, ms) == []
  {
    forall i | 0 <= i < |s.fields|
      ensures i !in RequiredSet(s) - SeenSet(s, ms)
    {
      if s.fields[i].required {
        EmittedIsPresent(s, vs, 0, i, ms);
      }
    }
    SortedEmpty(RequiredSet(s) - SeenSet(s, ms), 0, |s.fields|);
  }

  // ---- The normal form ------------------------------------------------------------------

  lemma {:induction false} ZeroHasType(ty: Ty)
    ensures HasType(ty, Zero(ty))
  {
    match ty
    case TOpt(base) => ZeroHasType(base);
    case TStruct(s) =>
      forall i | 0 <= i < |s.fields|
        ensures HasType(s.fields[i].ty, Zero(s.fields[i].ty))
      {
        ZeroHasType(s.fields[i].ty);
      }
      assert FieldsHaveType(s, Zero(ty).fields);
    case _ =>
  }

  /** The normal form has the type of the value and is canonical. */
  lemma {:induction false} NormIsCanonical(ty: Ty, v: Value)
    requires WfTy(ty) && HasType(ty, v)
    ensures HasType(ty, Norm(ty, v)) && Canonical(ty, Norm(ty, v))
    decreases v, 0
  {
    match ty
    case TOpt(base) =>
      if v.isSet {
        NormIsCanonical(base, v.val);
      }
    case TSlice(e) =>
      forall i | 0 <= i < |Elems(v)|
        ensures HasType(e, Norm(e, Elems(v)[i])) && Canonical(e, Norm(e, Elems(v)[i]))
      {
        NormIsCanonical(e, Elems(v)[i]);
      }
    case TStruct(s) =>
      var ns := NormFields(s, v.fields);
      forall i | 0 <= i < |ns|
        ensures HasType(s.fields[i].ty, ns[i]) && CanonicalField(s.fields[i], ns[i])
      {
        NormFieldIsCanonical(s.fields[i], v.fields[i]);
      }
      assert FieldsHaveType(s, ns);
      assert CanonicalFields(s, ns);
    case _ =>
  }

  lemma {:induction false} NormFieldIsCanonical(f: Field, v: Value)
    requires WfField(f) && HasType(f.ty, v)
    ensures HasType(f.ty, NormField(f, v)) && CanonicalField(f, NormField(f, v))
    decreases v, 1
  {
    if Emitted(f, v) {
      NormIsCanonical(f.ty, v);
    } else {
      ZeroHasType(f.ty);
    }
  }

  /** A round trip returns v itself exactly when v is canonical. */
  lemma {:induction false} NormIdentityIff(ty: Ty, v: Value)
    requires WfTy(ty) && HasType(ty, v)
    ensures Norm(ty, v) == v <==> Canonical(ty, v)
    decreases v, 0
  {
    match ty
    case TOpt(base) =>
      NormIdentityIff(base, v.val);
    case TSlice(e) =>
      forall i | 0 <= i < |Elems(v)|
        ensures Norm(e, Elems(v)[i]) == Elems(v)[i] <==> Canonical(e, Elems(v)[i])
      {
        NormIdentityIff(e, Elems(v)[i]);
      }
      var ns := Norm(ty, v).elems;
      if v.VSlice? {
        assert ns == v.elems <==> forall i :: 0 <= i < |ns| ==> ns[i] == v.elems[i];
      }
    case TStruct(s) =>
      var ns := NormFields(s, v.fields);
      forall i | 0 <= i < |ns|
        ensures ns[i] == v.fields[i] <==> CanonicalField(s.fields[i], v.fields[i])
      {
        NormFieldIdentityIff(s.fields[i], v.fields[i]);
      }
      assert ns == v.fields <==> forall i :: 0 <= i < |ns| ==> ns[i] == v.fields[i];
    case _ =>
  }

  lemma {:induction false} NormFieldIdentityIff(f: Field, v: Value)
    requires WfField(f) && HasType(f.ty, v)
    ensures NormField(f, v) == v <==> CanonicalField(f, v)
    decreases v, 1
  {
    if Emitted(f, v) {
      NormIdentityIff(f.ty, v);
    }
  }

  /** A second round trip changes nothing. */
  lemma NormIdempotent(ty: Ty, v: Value)
    requires WfTy(ty) && HasType(ty, v)
    ensures HasType(ty, Norm(ty, v)) && Norm(ty, Norm(ty, v)) == Norm(ty, v)
  {
    NormIsCanonical(ty, v);
    NormIdentityIff(ty, Norm(ty, v));
  }
}
