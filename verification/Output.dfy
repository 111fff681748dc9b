/**
 The tokens Encode writes for a value, whatever the raw map elements inside it are: the token-level
 meaning of Encode, and its agreement with the JSON values of Schema.IsEncoding.
 */
module Output {
  import opened Common
  import opened Json
  import opened Schema

  // ---- Maps -----------------------------------------------------------------------------

  /** ks visits every key of a map once: an iteration order the Go runtime may choose. */
  predicate IsOrder(ks: seq<string>, keys: set<string>) {
    if ks == [] then keys == {} else ks[0] in keys && IsOrder(ks[1..], keys - {ks[0]})
  }

  function EntryTokens(raw: map<string, seq<Token>>, ks: seq<string>): seq<Token>
    requires forall k :: k in ks ==> k in raw
  {
    if ks == [] then [] else [Key(ks[0])] + raw[ks[0]] + EntryTokens(raw, ks[1..])
  }

  lemma {:induction false} EntryTokensSnoc(raw: map<string, seq<Token>>, ks: seq<string>, k: string)
    requires k in raw && forall x :: x in ks ==> x in raw
    ensures forall x :: x in ks + [k] ==> x in raw
    ensures EntryTokens(raw, ks + [k]) == EntryTokens(raw, ks) + [Key(k)] + raw[k]
  {
    if ks == [] {
      assert ks + [k] == [k];
      assert EntryTokens(raw, [k][1..]) == [];
    } else {
      ConcatTail(ks, [k]);
      EntryTokensSnoc(raw, ks[1..], k);
      var head, tail := [Key(ks[0])] + raw[ks[0]], EntryTokens(raw, ks[1..]);
      ConcatAssoc(head, tail, [Key(k)]);
      ConcatAssoc(head, tail + [Key(k)], raw[k]);
    }
  }

  lemma {:induction false} OrderSnoc(ks: seq<string>, keys: set<string>, k: string)
    requires IsOrder(ks, keys) && k !in keys
    ensures IsOrder(ks + [k], keys + {k})
  {
    if ks == [] {
      assert ([k])[1..] == [] && keys + {k} - {k} == {};
    } else {
      ConcatTail(ks, [k]);
      assert keys + {k} - {ks[0]} == keys - {ks[0]} + {k};
      OrderSnoc(ks[1..], keys - {ks[0]}, k);
    }
  }

  lemma {:induction false} OrderVisits(ks: seq<string>, keys: set<string>)
    requires IsOrder(ks, keys)
    ensures forall k :: k in ks <==> k in keys
  {
    if ks != [] {
      OrderVisits(ks[1..], keys - {ks[0]});
      assert ks == [ks[0]] + ks[1..];
    }
  }

  /** The members the entries stand for when each element is one value. */
  function EntryMembers(raw: map<string, seq<Token>>, ks: seq<string>): seq<Member>
    requires forall k :: k in ks ==> k in raw && OneValue(raw[k])
  {
    if ks == [] then []
    else
      assert OneValue(raw[ks[0]]);
      [Member(ks[0], ParseValue(raw[ks[0]]).value.0)] + EntryMembers(raw, ks[1..])
  }

  /** One value per element makes the entries the members of an object listing the map. */
  lemma {:induction false} EntriesListMap(raw: map<string, seq<Token>>, keys: set<string>, ks: seq<string>)
    requires RawEntriesOk(raw) && keys <= raw.Keys && IsOrder(ks, keys)
    ensures forall k :: k in ks ==> k in raw
    ensures IsListing(EntryMembers(raw, ks), map k | k in keys :: raw[k])
    ensures EntryTokens(raw, ks) == MemberTokens(EntryMembers(raw, ks))
    decreases ks
  {
    OrderVisits(ks, keys);
    var here := map k | k in keys :: raw[k];
    if ks == [] {
      assert here == map[];
    } else {
      ParsedIsPrinted(raw[ks[0]]);
      EntriesListMap(raw, keys - {ks[0]}, ks[1..]);
      assert here - {ks[0]} == map k | k in keys - {ks[0]} :: raw[k];
      assert EntryMembers(raw, ks)[1..] == EntryMembers(raw, ks[1..]);
    }
  }

  lemma MapListed(raw: map<string, seq<Token>>, ks: seq<string>)
    requires RawEntriesOk(raw) && IsOrder(ks, raw.Keys)
    ensures forall k :: k in ks ==> k in raw
    ensures IsListing(EntryMembers(raw, ks), raw)
    ensures [ObjStart] + EntryTokens(raw, ks) + [ObjEnd] == Tokens(JObj(EntryMembers(raw, ks)))
  {
    EntriesListMap(raw, raw.Keys, ks);
    assert raw == map k | k in raw.Keys :: raw[k];
  }

  // ---- Values ---------------------------------------------------------------------------

  predicate Framed(ts: seq<Token>, first: Token, last: Token) {
    |ts| >= 2 && ts[0] == first && ts[|ts| - 1] == last
  }

  function Inner(ts: seq<Token>): seq<Token>
    requires |ts| >= 2
  {
    ts[1..|ts| - 1]
  }

  predicate EntriesWritten(raw: map<string, seq<Token>>, ks: seq<string>, ts: seq<Token>) {
    IsOrder(ks, raw.Keys) && (forall k :: k in ks ==> k in raw) && ts == EntryTokens(raw, ks)
  }

  /** ts is an output of Encode for v; the iteration order of maps, which Go leaves open, is any. */
  ghost predicate Written(ty: Ty, v: Value, ts: seq<Token>)
    requires HasType(ty, v)
    decreases v, 0
  {
    match ty
    case TStr => ts == [Str(v.s)]
    case TNum => ts == [Num(v.n)]
    case TBool => ts == [Bool(v.b)]
    case TOpt(base) => if v.isSet then Written(base, v.val, ts) else ts == []
    case TSlice(e) =>
      && Framed(ts, ArrStart, ArrEnd)
      && (if v.VNil? then Inner(ts) == [] else ElemsWritten(e, v.elems, Inner(ts)))
    case TStruct(s) => Framed(ts, ObjStart, ObjEnd) && FieldsWritten(s, v.fields, 0, Inner(ts))
    case TMap(_) => Framed(ts, ObjStart, ObjEnd) && exists ks :: EntriesWritten(Entries(v), ks, Inner(ts))
  }

  /** The outputs for the elements, one behind the other. */
  ghost predicate ElemsWritten(e: Ty, vs: seq<Value>, ts: seq<Token>)
    requires forall i :: 0 <= i < |vs| ==> HasType(e, vs[i])
    decreases vs, 1
  {
    if vs == [] then ts == []
    else
      var n := |vs| - 1;
      exists m: nat :: m <= |ts| && ElemsWritten(e, vs[..n], ts[..m]) && Written(e, vs[n], ts[m..])
  }

  /** Each emitted field from k on: its key, and right behind it the output for its value. */
  ghost predicate FieldsWritten(s: Schema, vs: seq<Value>, k: nat, ts: seq<Token>)
    requires FieldsHaveType(s, vs) && k <= |vs|
    decreases vs, |vs| - k
  {
    if k == |vs| then ts == []
    else if Emitted(s.fields[k], vs[k]) then
      && ts != []
      && ts[0] == Key(s.fields[k].name)
      && exists m: nat ::
           1 <= m <= |ts| && Written(s.fields[k].ty, vs[k], ts[1..m]) && FieldsWritten(s, vs, k + 1, ts[m..])
    else FieldsWritten(s, vs, k + 1, ts)
  }

  lemma Rejoined(ts: seq<Token>, m: nat)
    requires m <= |ts|
    ensures ts == ts[..m] + ts[m..]
  {
  }

  lemma RejoinedBehindKey(ts: seq<Token>, m: nat)
    requires 1 <= m <= |ts|
    ensures ts == [ts[0]] + ts[1..m] + ts[m..]
  {
  }

  lemma ElemsWrittenSplit(e: Ty, vs: seq<Value>, ts: seq<Token>) returns (a: seq<Token>, b: seq<Token>)
    requires vs != [] && (forall i :: 0 <= i < |vs| ==> HasType(e, vs[i])) && ElemsWritten(e, vs, ts)
    ensures ts == a + b && ElemsWritten(e, vs[..|vs| - 1], a) && Written(e, vs[|vs| - 1], b)
  {
    var n := |vs| - 1;
    var m: nat :| m <= |ts| && ElemsWritten(e, vs[..n], ts[..m]) && Written(e, vs[n], ts[m..]);
    a, b := ts[..m], ts[m..];
    Rejoined(ts, m);
  }

  lemma FieldsWrittenSplit(s: Schema, vs: seq<Value>, k: nat, ts: seq<Token>) returns (a: seq<Token>, b: seq<Token>)
    requires FieldsHaveType(s, vs) && k < |vs| && Emitted(s.fields[k], vs[k]) && FieldsWritten(s, vs, k, ts)
    ensures ts == [Key(s.fields[k].name)] + a + b
    ensures Written(s.fields[k].ty, vs[k], a) && FieldsWritten(s, vs, k + 1, b)
  {
    var m: nat :| 1 <= m <= |ts| && Written(s.fields[k].ty, vs[k], ts[1..m]) && FieldsWritten(s, vs, k + 1, ts[m..]);
    a, b := ts[1..m], ts[m..];
    RejoinedBehindKey(ts, m);
  }

  lemma ElemsWrittenSnoc(e: Ty, vs: seq<Value>, k: nat, ts: seq<Token>, more: seq<Token>)
    requires k < |vs| && forall i :: 0 <= i < |vs| ==> HasType(e, vs[i])
    requires ElemsWritten(e, vs[..k], ts) && Written(e, vs[k], more)
    ensures ElemsWritten(e, vs[..k + 1], ts + more)
  {
    var us, all := vs[..k + 1], ts + more;
    assert us[..k] == vs[..k] && us[k] == vs[k];
    assert all[..|ts|] == ts && all[|ts|..] == more;
  }

  lemma FieldsWrittenCons(s: Schema, vs: seq<Value>, k: nat, ts: seq<Token>, more: seq<Token>)
    requires FieldsHaveType(s, vs) && k < |vs| && Emitted(s.fields[k], vs[k])
    requires Written(s.fields[k].ty, vs[k], ts) && FieldsWritten(s, vs, k + 1, more)
    ensures FieldsWritten(s, vs, k, [Key(s.fields[k].name)] + ts + more)
  {
    var all, m := [Key(s.fields[k].name)] + ts + more, |ts| + 1;
    assert all[1..m] == ts && all[m..] == more;
  }

  lemma FrameInner(first: Token, ts: seq<Token>, last: Token)
    ensures Framed([first] + ts + [last], first, last) && Inner([first] + ts + [last]) == ts
  {
  }

  // ---- With whole raw elements, what is written is one JSON value -----------------------

  lemma Reframe(ts: seq<Token>, first: Token, last: Token)
    requires Framed(ts, first, last)
    ensures ts == [first] + Inner(ts) + [last]
  {
  }

  /** When every raw element inside v is one value, what is written is the text of one value that encodes v. */
  lemma {:induction false} WrittenEncodes(ty: Ty, v: Value, ts: seq<Token>) returns (j: Json)
    requires WfTy(ty) && HasType(ty, v) && Written(ty, v, ts) && RawOk(v)
    requires ty.TOpt? ==> v.isSet
    ensures IsEncoding(ty, v, j) && ts == Tokens(j)
    decreases v, 1
  {
    match ty
    case TStr => j := JStr(v.s);
    case TNum => j := JNum(v.n);
    case TBool => j := JBool(v.b);
    case TOpt(base) => j := WrittenEncodes(base, v.val, ts);
    case TSlice(e) => j := SliceWrittenEncodes(e, v, ts);
    case TStruct(s) =>
      Reframe(ts, ObjStart, ObjEnd);
      var ms := FieldsWrittenEncode(s, v.fields, 0, Inner(ts));
      j := JObj(ms);
    case TMap(_) =>
      j := MapWrittenEncodes(Entries(v), ts);
  }

  lemma MapWrittenEncodes(raw: map<string, seq<Token>>, ts: seq<Token>) returns (j: Json)
    requires RawEntriesOk(raw) && Framed(ts, ObjStart, ObjEnd) && exists ks :: EntriesWritten(raw, ks, Inner(ts))
    ensures j.JObj? && IsListing(j.members, raw) && ts == Tokens(j)
  {
    Reframe(ts, ObjStart, ObjEnd);
    var ks :| EntriesWritten(raw, ks, Inner(ts));
    MapListed(raw, ks);
    j := JObj(EntryMembers(raw, ks));
  }

  lemma SliceWrittenEncodes(e: Ty, v: Value, ts: seq<Token>) returns (j: Json)
    requires WfTy(TSlice(e)) && HasType(TSlice(e), v) && Written(TSlice(e), v, ts) && RawOk(v)
    ensures IsEncoding(TSlice(e), v, j) && ts == Tokens(j)
    decreases v, 0
  {
    Reframe(ts, ArrStart, ArrEnd);
    var js: seq<Json> := [];
    if v.VSlice? {
      js := ElemsWrittenEncode(e, v.elems, Inner(ts));
    }
    j := JArr(js);
    SliceEncoded(e, v, js);
  }

  /** The values js encode the values vs, one by one. */
  ghost predicate ElemsEncode(e: Ty, vs: seq<Value>, js: seq<Json>) {
    |js| == |vs| && forall i :: 0 <= i < |js| ==> HasType(e, vs[i]) && IsEncoding(e, vs[i], js[i])
  }

  lemma ElemsEncodeSnoc(e: Ty, vs: seq<Value>, js: seq<Json>, x: Json)
    requires vs != [] && ElemsEncode(e, vs[..|vs| - 1], js)
    requires HasType(e, vs[|vs| - 1]) && IsEncoding(e, vs[|vs| - 1], x)
    ensures ElemsEncode(e, vs, js + [x])
  {
  }

  ghost predicate Raws(e: Ty, vs: seq<Value>) {
    forall i :: 0 <= i < |vs| ==> HasType(e, vs[i]) && RawOk(vs[i])
  }

  lemma {:induction false} ElemsWrittenEncode(e: Ty, vs: seq<Value>, ts: seq<Token>) returns (js: seq<Json>)
    requires WfTy(e) && !e.TOpt? && Raws(e, vs) && ElemsWritten(e, vs, ts)
    ensures ElemsEncode(e, vs, js) && ts == ElemTokens(js)
    decreases vs, 2
  {
    if vs == [] {
      js := [];
    } else {
      var a, b := ElemsWrittenSplit(e, vs, ts);
      var front := ElemsWrittenEncode(e, vs[..|vs| - 1], a);
      var last := WrittenEncodes(e, vs[|vs| - 1], b);
      js := front + [last];
      ElemTokensSnoc(front, last);
      ElemsEncodeSnoc(e, vs, front, last);
    }
  }

  lemma SliceEncoded(e: Ty, v: Value, js: seq<Json>)
    requires HasType(TSlice(e), v) && ElemsEncode(e, Elems(v), js)
    ensures IsEncoding(TSlice(e), v, JArr(js))
  {
  }

  lemma ElemTokensSnoc(js: seq<Json>, x: Json)
    ensures ElemTokens(js + [x]) == ElemTokens(js) + Tokens(x)
  {
    ElemTokensConcat(js, [x]);
    assert ElemTokens([x]) == Tokens(x) + ElemTokens([x][1..]);
  }

  lemma FieldsEncodeCons(s: Schema, vs: seq<Value>, k: nat, j: Json, rest: seq<Member>)
    requires FieldsHaveType(s, vs) && k < |vs| && Emitted(s.fields[k], vs[k])
    requires IsEncoding(s.fields[k].ty, vs[k], j) && FieldsEncode(s, vs, k + 1, rest)
    ensures FieldsEncode(s, vs, k, [Member(s.fields[k].name, j)] + rest)
    ensures MemberTokens([Member(s.fields[k].name, j)] + rest) ==
            [Key(s.fields[k].name)] + Tokens(j) + MemberTokens(rest)
  {
    assert ([Member(s.fields[k].name, j)] + rest)[1..] == rest;
  }

  lemma {:induction false} FieldsWrittenEncode(s: Schema, vs: seq<Value>, k: nat, ts: seq<Token>)
    returns (ms: seq<Member>)
    requires WfSchema(s) && FieldsHaveType(s, vs) && k <= |vs| && FieldsWritten(s, vs, k, ts)
    requires forall i :: k <= i < |vs| ==> RawOk(vs[i])
    ensures FieldsEncode(s, vs, k, ms) && ts == MemberTokens(ms)
    decreases vs, |vs| - k
  {
    if k == |vs| {
      ms := [];
    } else if Emitted(s.fields[k], vs[k]) {
      var a, b := FieldsWrittenSplit(s, vs, k, ts);
      var j := WrittenEncodes(s.fields[k].ty, vs[k], a);
      var rest := FieldsWrittenEncode(s, vs, k + 1, b);
      ms := [Member(s.fields[k].name, j)] + rest;
      FieldsEncodeCons(s, vs, k, j, rest);
    } else {
      ms := FieldsWrittenEncode(s, vs, k + 1, ts);
    }
  }

  // ---- Whatever was decoded holds whole raw elements ------------------------------------

  /** Raw texts that Decode stored are single values. */
  lemma {:induction false} DecodedEntriesOk(m: map<string, seq<Token>>, ms: seq<Member>)
    requires RawEntriesOk(m)
    ensures RawEntriesOk(RawEntries(m, ms))
    decreases ms
  {
    if ms != [] {
      ParseTokens(ms[0].val, []);
      assert Tokens(ms[0].val) + [] == Tokens(ms[0].val);
      DecodedEntriesOk(m[ms[0].key := Tokens(ms[0].val)], ms[1..]);
    }
  }

  lemma {:induction false} ZeroRawOk(ty: Ty)
    ensures RawOk(Zero(ty))
  {
    match ty
    case TStruct(s) =>
      forall i | 0 <= i < |s.fields|
        ensures RawOk(Zero(s.fields[i].ty))
      {
        ZeroRawOk(s.fields[i].ty);
      }
      assert forall i :: 0 <= i < |s.fields| ==> Zero(ty).fields[i] == Zero(s.fields[i].ty);
    case _ =>
  }

  lemma PresetRawOk(f: Field)
    requires WfField(f) && f.preset.Some?
    ensures RawOk(f.preset.value)
  {
    assert HasType(f.ty.base, f.preset.value.val);
    assert RawOk(f.preset.value.val);
  }

  lemma DefaultsRawOk(s: Schema)
    requires WfSchema(s)
    ensures forall i :: 0 <= i < |s.fields| ==> RawOk(WithDefaults(s, ZeroFields(s))[i])
  {
    ZeroRawOk(TStruct(s));
    forall i | 0 <= i < |s.fields|
      ensures RawOk(WithDefaults(s, ZeroFields(s))[i])
    {
      if s.fields[i].preset.Some? {
        PresetRawOk(s.fields[i]);
      }
      assert RawOk(Zero(TStruct(s)).fields[i]);
    }
  }

  lemma {:induction false} DecodedRawOk(ty: Ty, j: Json)
    requires WfTy(ty) && DecodeVal(ty, j).Ok?
    ensures RawOk(DecodeVal(ty, j).value)
    decreases j, 2, ty
  {
    match ty
    case TOpt(base) => DecodedRawOk(base, j);
    case TSlice(e) => DecodedElemsRawOk(e, j.elems);
    case TStruct(s) =>
      DefaultsRawOk(s);
      DecodedFieldsRawOk(s, WithDefaults(s, ZeroFields(s)), j.members);
    case TMap(_) => DecodedEntriesOk(map[], j.members);
    case _ =>
  }

  lemma {:induction false} DecodedElemsRawOk(e: Ty, js: seq<Json>)
    requires WfTy(e) && DecodeElems(e, js).Ok?
    ensures forall i :: 0 <= i < |DecodeElems(e, js).value| ==> RawOk(DecodeElems(e, js).value[i])
    decreases js, 0
  {
    if js != [] {
      DecodedRawOk(e, js[0]);
      DecodedElemsRawOk(e, js[1..]);
    }
  }

  lemma {:induction false} DecodedFieldsRawOk(s: Schema, r: seq<Value>, ms: seq<Member>)
    requires WfSchema(s) && |r| == |s.fields| && DecodeMembers(s, r, ms).Ok?
    requires forall i :: 0 <= i < |r| ==> RawOk(r[i])
    ensures forall i :: 0 <= i < |r| ==> RawOk(DecodeMembers(s, r, ms).value[i])
    decreases ms, 0
  {
    if ms != [] {
      match FieldIndex(s, ms[0].key)
      case None => DecodedFieldsRawOk(s, r, ms[1..]);
      case Some(i) =>
        assert WfField(s.fields[i]);
        DecodedRawOk(s.fields[i].ty, ms[0].val);
        DecodedFieldsRawOk(s, r[i := DecodeVal(s.fields[i].ty, ms[0].val).value], ms[1..]);
    }
  }

  // ---- The normal form keeps the raw elements -------------------------------------------

  lemma {:induction false} NormRawOk(ty: Ty, v: Value)
    requires WfTy(ty) && HasType(ty, v)
    ensures RawOk(Norm(ty, v)) <==> RawOk(v)
    decreases v, 0
  {
    match ty
    case TOpt(base) =>
      if v.isSet {
        NormRawOk(base, v.val);
      }
    case TSlice(e) =>
      var ns := Norm(ty, v).elems;
      forall i | 0 <= i < |Elems(v)|
        ensures RawOk(ns[i]) <==> RawOk(Elems(v)[i])
      {
        NormRawOk(e, Elems(v)[i]);
      }
    case TStruct(s) =>
      var ns := NormFields(s, v.fields);
      forall i | 0 <= i < |v.fields|
        ensures RawOk(ns[i]) <==> RawOk(v.fields[i])
      {
        assert WfField(s.fields[i]);
        NormFieldRawOk(s.fields[i], v.fields[i]);
      }
    case TMap(_) =>
    case _ =>
  }

  /** A field that is not emitted holds no raw element, before and after. */
  lemma {:induction false} NormFieldRawOk(f: Field, v: Value)
    requires WfField(f) && HasType(f.ty, v)
    ensures RawOk(NormField(f, v)) <==> RawOk(v)
    decreases v, 1
  {
    if Emitted(f, v) {
      NormRawOk(f.ty, v);
    } else if f.preset.Some? {
      PresetRawOk(f);
    } else {
      ZeroRawOk(f.ty);
    }
  }
}
