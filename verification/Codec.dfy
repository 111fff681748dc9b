/**
 The codec as it runs: an encoder and a decoder over a token stream, the skeleton of encodeFields
 and Decode, and the required-key bitset, each proved against the tree-level meaning in Schema.
 */
module Codec {
  import opened Common
  import opened Json
  import opened RequiredFields
  import opened Schema
  import opened Output

  // ---- jx.Encoder -----------------------------------------------------------------------

  class Encoder {
    var out: seq<Token>

    constructor ()
      ensures out == []
    {
      out := [];
    }

    method Put(t: Token)
      modifies this
      ensures out == old(out) + [t]
    {
      out := out + [t];
    }

    method Raw(ts: seq<Token>)
      modifies this
      ensures out == old(out) + ts
    {
      out := out + ts;
    }
  }

  // ---- jx.Decoder -----------------------------------------------------------------------

  class Decoder {
    var toks: seq<Token>  // what is still to be read

    constructor (ts: seq<Token>)
      ensures toks == ts
    {
      toks := ts;
    }

    method Advance()
      requires toks != []
      modifies this
      ensures toks == old(toks)[1..]
    {
      toks := toks[1..];
    }

    /** Reads one value and returns its text: RawAppend, and Skip when the text is dropped. */
    method RawAppend() returns (r: Decoded<seq<Token>>)
      modifies this
      ensures match ParseValue(old(toks))
              case None => r == Err(Mismatch)
              case Some((j, rest)) => r == Ok(Tokens(j)) && toks == rest
    {
      match ParseValue(toks) {
        case None => r := Err(Mismatch);
        case Some((j, rest)) =>
          ParsedIsPrinted(toks);
          r := Ok(toks[..|toks| - |rest|]);
          toks := rest;
      }
    }
  }

  // ---- Encode ---------------------------------------------------------------------------

  /** Encode of a raw map: entries in some order, an empty element leaving its key bare. */
  method EncodeMap(raw: map<string, seq<Token>>, e: Encoder) returns (ghost ts: seq<Token>)
    modifies e
    ensures e.out == old(e.out) + ts && Framed(ts, ObjStart, ObjEnd)
    ensures exists ks :: EntriesWritten(raw, ks, Inner(ts))
  {
    e.Put(ObjStart);
    ghost var ks := EncodeEntries(raw, e);
    ghost var body := EntryTokens(raw, ks);
    e.Put(ObjEnd);
    ts := [ObjStart] + body + [ObjEnd];
    Wrapped(old(e.out), ObjStart, body, ObjEnd);
    FrameInner(ObjStart, body, ObjEnd);
    assert EntriesWritten(raw, ks, Inner(ts));
  }

  /** The range loop over a raw map. */
  method EncodeEntries(raw: map<string, seq<Token>>, e: Encoder) returns (ghost ks: seq<string>)
    modifies e
    ensures IsOrder(ks, raw.Keys) && forall k :: k in ks ==> k in raw
    ensures e.out == old(e.out) + EntryTokens(raw, ks)
  {
    ks := [];
    var rest := raw.Keys;
    ConcatEmpty(e.out);
    while rest != {}
      invariant rest <= raw.Keys && IsOrder(ks, raw.Keys - rest) && forall k :: k in ks ==> k in raw
      invariant e.out == old(e.out) + EntryTokens(raw, ks)
      decreases rest
    {
      var k :| k in rest;
      e.Put(Key(k));
      if |raw[k]| != 0 {
        e.Raw(raw[k]);
      }
      EntryAppended(old(e.out), raw, ks, k);
      OrderSnoc(ks, raw.Keys - rest, k);
      assert raw.Keys - rest + {k} == raw.Keys - (rest - {k});
      ks := ks + [k];
      rest := rest - {k};
    }
    assert raw.Keys - {} == raw.Keys;
  }

  lemma EntryAppended(before: seq<Token>, raw: map<string, seq<Token>>, ks: seq<string>, k: string)
    requires k in raw && forall x :: x in ks ==> x in raw
    ensures forall x :: x in ks + [k] ==> x in raw
    ensures before + EntryTokens(raw, ks) + [Key(k)] + raw[k] == before + EntryTokens(raw, ks + [k])
    ensures raw[k] == [] ==> before + EntryTokens(raw, ks) + [Key(k)] == before + EntryTokens(raw, ks + [k])
  {
    EntryTokensSnoc(raw, ks, k);
    ConcatAssoc(before, EntryTokens(raw, ks), [Key(k)]);
    ConcatAssoc(before, EntryTokens(raw, ks) + [Key(k)], raw[k]);
    ConcatEmpty(before + EntryTokens(raw, ks) + [Key(k)]);
  }

  /** Encode of a value: nothing for an unset optional, else its tokens. */
  method EncodeVal(ty: Ty, v: Value, e: Encoder) returns (ghost ts: seq<Token>)
    requires WfTy(ty) && HasType(ty, v)
    modifies e
    ensures e.out == old(e.out) + ts && Written(ty, v, ts)
    decreases v, 1
  {
    match ty {
      case TStr => e.Put(Str(v.s)); ts := [Str(v.s)];
      case TNum => e.Put(Num(v.n)); ts := [Num(v.n)];
      case TBool => e.Put(Bool(v.b)); ts := [Bool(v.b)];
      case TOpt(base) =>
        ts := [];
        if v.isSet {
          ts := EncodeVal(base, v.val, e);
        }
      case TSlice(elem) => ts := EncodeSlice(elem, v, e);
      case TStruct(s) => ts := EncodeStruct(s, v.fields, e);
      case TMap(_) => ts := EncodeMap(Entries(v), e);
    }
  }

  method EncodeStruct(s: Schema, vs: seq<Value>, e: Encoder) returns (ghost ts: seq<Token>)
    requires WfSchema(s) && FieldsHaveType(s, vs)
    modifies e
    ensures e.out == old(e.out) + ts && Framed(ts, ObjStart, ObjEnd) && FieldsWritten(s, vs, 0, Inner(ts))
    decreases vs, |vs| + 1
  {
    e.Put(ObjStart);
    ghost var body := EncodeFields(s, vs, 0, e);
    e.Put(ObjEnd);
    ts := [ObjStart] + body + [ObjEnd];
    Wrapped(old(e.out), ObjStart, body, ObjEnd);
    FrameInner(ObjStart, body, ObjEnd);
  }

  method EncodeSlice(elem: Ty, v: Value, e: Encoder) returns (ghost ts: seq<Token>)
    requires WfTy(elem) && !elem.TOpt? && HasType(TSlice(elem), v)
    modifies e
    ensures e.out == old(e.out) + ts && Written(TSlice(elem), v, ts)
    decreases v, 0
  {
    e.Put(ArrStart);
    ghost var body: seq<Token> := [];
    ConcatEmpty(e.out);
    if v.VSlice? {
      body := EncodeElems(elem, v.elems, e);
    }
    e.Put(ArrEnd);
    ts := [ArrStart] + body + [ArrEnd];
    Wrapped(old(e.out), ArrStart, body, ArrEnd);
    FrameInner(ArrStart, body, ArrEnd);
  }

  /** The range loop over a slice. */
  method EncodeElems(elem: Ty, vs: seq<Value>, e: Encoder) returns (ghost ts: seq<Token>)
    requires WfTy(elem) && !elem.TOpt? && forall i :: 0 <= i < |vs| ==> HasType(elem, vs[i])
    modifies e
    ensures e.out == old(e.out) + ts && ElemsWritten(elem, vs, ts)
    decreases vs, 0
  {
    ts := [];
    for k := 0 to |vs|
      invariant e.out == old(e.out) + ts && ElemsWritten(elem, vs[..k], ts)
    {
      ghost var more := EncodeVal(elem, vs[k], e);
      ElemsWrittenSnoc(elem, vs, k, ts, more);
      ConcatAssoc(old(e.out), ts, more);
      ts := ts + more;
    }
    assert vs[..|vs|] == vs;
  }

  lemma KeyedOutput(before: seq<Token>, key: Token, value: seq<Token>, rest: seq<Token>)
    ensures before + [key] + value + rest == before + ([key] + value + rest)
  {
  }

  /** encodeFields, from field k on: each emitted field is one key followed by its value. */
  method EncodeFields(s: Schema, vs: seq<Value>, k: nat, e: Encoder) returns (ghost ts: seq<Token>)
    requires WfSchema(s) && FieldsHaveType(s, vs) && k <= |vs|
    modifies e
    ensures e.out == old(e.out) + ts && FieldsWritten(s, vs, k, ts)
    decreases vs, |vs| - k
  {
    ts := [];
    if k < |vs| {
      var f := s.fields[k];
      if Emitted(f, vs[k]) {
        e.Put(Key(f.name));
        ghost var value := EncodeVal(f.ty, vs[k], e);
        ghost var rest := EncodeFields(s, vs, k + 1, e);
        FieldsWrittenCons(s, vs, k, value, rest);
        KeyedOutput(old(e.out), Key(f.name), value, rest);
        ts := [Key(f.name)] + value + rest;
      } else {
        ts := EncodeFields(s, vs, k + 1, e);
      }
    }
  }

  // ---- Decode ---------------------------------------------------------------------------

  lemma {:induction false} MembersAppend(s: Schema, r: seq<Value>, a: seq<Member>, b: seq<Member>)
    requires |r| == |s.fields|
    ensures DecodeMembers(s, r, a + b) ==
            match DecodeMembers(s, r, a)
            case Ok(r') => DecodeMembers(s, r', b)
            case Err(e) => Err(e)
    decreases a
  {
    if a == [] {
      assert a + b == b;
    } else {
      ConcatTail(a, b);
      match FieldIndex(s, a[0].key)
      case None => MembersAppend(s, r, a[1..], b);
      case Some(i) =>
        match DecodeVal(s.fields[i].ty, a[0].val)
        case Err(_) =>
        case Ok(v) => MembersAppend(s, r[i := v], a[1..], b);
    }
  }

  /** One more member: its field is stored, it is skipped, or its error is the outcome. */
  lemma MembersSnoc(s: Schema, r0: seq<Value>, a: seq<Member>, m: Member, more: seq<Member>)
    requires |r0| == |s.fields| && DecodeMembers(s, r0, a).Ok?
    ensures match FieldIndex(s, m.key)
            case None => DecodeMembers(s, r0, a + [m]) == DecodeMembers(s, r0, a)
            case Some(i) =>
              match DecodeVal(s.fields[i].ty, m.val)
              case Ok(v) => DecodeMembers(s, r0, a + [m]) == Ok(DecodeMembers(s, r0, a).value[i := v])
              case Err(e) => DecodeMembers(s, r0, a + [m] + more) == Err(InField(m.key, e))
  {
    MembersAppend(s, r0, a, [m]);
    MembersAppend(s, r0, a + [m], more);
    assert [m][1..] == [];
  }

  lemma {:induction false} ElemsAppend(e: Ty, a: seq<Json>, b: seq<Json>)
    ensures DecodeElems(e, a + b) ==
            match DecodeElems(e, a)
            case Err(x) => Err(x)
            case Ok(vs) =>
              match DecodeElems(e, b)
              case Err(x) => Err(x)
              case Ok(ws) => Ok(vs + ws)
    decreases a
  {
    if a == [] {
      assert a + b == b;
      if DecodeElems(e, b).Ok? {
        ConcatEmpty(DecodeElems(e, b).value);
      }
    } else {
      ConcatTail(a, b);
      ElemsAppend(e, a[1..], b);
      if DecodeElems(e, a).Ok? && DecodeElems(e, b).Ok? {
        var v, vs, ws := DecodeVal(e, a[0]).value, DecodeElems(e, a[1..]).value, DecodeElems(e, b).value;
        ConcatAssoc([v], vs, ws);
      }
    }
  }

  /** One more element: its value is appended, or its error is the outcome. */
  lemma ElemsSnoc(e: Ty, a: seq<Json>, x: Json, more: seq<Json>)
    requires DecodeElems(e, a).Ok?
    ensures DecodeVal(e, x).Ok? ==> DecodeElems(e, a + [x]) == Ok(DecodeElems(e, a).value + [DecodeVal(e, x).value])
    ensures DecodeVal(e, x).Err? ==> DecodeElems(e, a + [x] + more) == Err(DecodeVal(e, x).error)
  {
    ElemsAppend(e, a, [x]);
    ElemsAppend(e, a + [x], more);
    assert DecodeElems(e, [x][1..]) == Ok([]);
    if DecodeVal(e, x).Ok? {
      assert [DecodeVal(e, x).value] + [] == [DecodeVal(e, x).value];
    }
  }

  lemma {:induction false} RawEntriesAppend(m: map<string, seq<Token>>, a: seq<Member>, x: Member)
    ensures RawEntries(m, a + [x]) == RawEntries(m, a)[x.key := Tokens(x.val)]
    decreases a
  {
    if a == [] {
      assert a + [x] == [x];
    } else {
      ConcatTail(a, [x]);
      RawEntriesAppend(m[a[0].key := Tokens(a[0].val)], a[1..], x);
    }
  }

  // ---- Positions inside an array or an object -------------------------------------------

  /** After the elements done, the reader that began at start stands before now. */
  ghost predicate ElemsRead(start: seq<Token>, done: seq<Json>, now: seq<Token>) {
    match ParseElems(now)
    case None => ParseElems(start).None?
    case Some((es, rest)) => ParseElems(start) == Some((done + es, rest))
  }

  lemma AtStart(start: seq<Token>)
    ensures ElemsRead(start, [], start) && MembersRead(start, [], start)
  {
    if ParseElems(start).Some? {
      assert [] + ParseElems(start).value.0 == ParseElems(start).value.0;
    }
    if ParseMembers(start).Some? {
      assert [] + ParseMembers(start).value.0 == ParseMembers(start).value.0;
    }
  }

  lemma ElemRead(start: seq<Token>, done: seq<Json>, now: seq<Token>)
    requires ElemsRead(start, done, now) && now != [] && !now[0].ArrEnd?
    ensures match ParseValue(now)
            case None => ParseElems(start).None?
            case Some((x, rest)) => ElemsRead(start, done + [x], rest)
  {
    if ParseElems(now).Some? {
      var x, es := ParseValue(now).value.0, ParseElems(now).value.0;
      assert done + ([x] + es[1..]) == (done + [x]) + es[1..];
    }
  }

  /** An element that does not decode decides the outcome of the whole array. */
  lemma ElemFails(e: Ty, start: seq<Token>, done: seq<Json>, now: seq<Token>)
    requires ElemsRead(start, done, now) && now != [] && !now[0].ArrEnd?
    requires DecodeElems(e, done).Ok?
    ensures ParseElems(start).Some? && ParseValue(now).Some? && DecodeVal(e, ParseValue(now).value.0).Err? ==>
              DecodeElems(e, ParseElems(start).value.0) == Err(DecodeVal(e, ParseValue(now).value.0).error)
  {
    if ParseElems(now).Some? {
      var x, more := ParseValue(now).value.0, ParseElems(now).value.0[1..];
      assert done + ([x] + more) == done + [x] + more;
      ElemsSnoc(e, done, x, more);
    }
  }

  /** After the members done, the reader that began at start stands before now. */
  ghost predicate MembersRead(start: seq<Token>, done: seq<Member>, now: seq<Token>) {
    match ParseMembers(now)
    case None => ParseMembers(start).None?
    case Some((ms, rest)) => ParseMembers(start) == Some((done + ms, rest))
  }

  lemma MemberRead(start: seq<Token>, done: seq<Member>, now: seq<Token>)
    requires MembersRead(start, done, now) && now != [] && now[0].Key?
    ensures match ParseValue(now[1..])
            case None => ParseMembers(start).None?
            case Some((x, rest)) => MembersRead(start, done + [Member(now[0].name, x)], rest)
  {
    if ParseMembers(now).Some? {
      var m, ms := Member(now[0].name, ParseValue(now[1..]).value.0), ParseMembers(now).value.0;
      assert done + ([m] + ms[1..]) == (done + [m]) + ms[1..];
    }
  }

  /** Member n is the first one of a known key whose value does not decode. */
  ghost predicate FailsAt(s: Schema, r0: seq<Value>, ms: seq<Member>, n: nat)
    requires |r0| == |s.fields|
  {
    && n < |ms|
    && DecodeMembers(s, r0, ms[..n]).Ok?
    && FieldIndex(s, ms[n].key).Some?
    && DecodeVal(s.fields[FieldIndex(s, ms[n].key).value].ty, ms[n].val).Err?
  }

  /** What a failed Decode leaves: every field but the failing one as the members before made it. */
  ghost predicate StoppedAt(s: Schema, r0: seq<Value>, ms: seq<Member>, n: nat, after: seq<Value>)
    requires |r0| == |s.fields|
  {
    && FailsAt(s, r0, ms, n)
    && |after| == |r0|
    && forall i :: 0 <= i < |after| && i != FieldIndex(s, ms[n].key).value ==>
         after[i] == DecodeMembers(s, r0, ms[..n]).value[i]
  }

  /** The next member of the object that is being read. */
  lemma MemberAhead(start: seq<Token>, done: seq<Member>, now: seq<Token>)
    requires MembersRead(start, done, now) && now != [] && now[0].Key? && ParseMembers(start).Some?
    ensures ParseValue(now[1..]).Some?
    ensures var ms := ParseMembers(start).value.0;
            |done| < |ms| && ms == done + [Member(now[0].name, ParseValue(now[1..]).value.0)] + ms[|done| + 1..]
  {
    var m, more := Member(now[0].name, ParseValue(now[1..]).value.0), ParseMembers(now).value.0[1..];
    assert done + ([m] + more) == done + [m] + more;
  }

  /** A member that does not decode decides the outcome of the whole object. */
  lemma MemberFails(s: Schema, r0: seq<Value>, done: seq<Member>, m: Member, more: seq<Member>)
    requires |r0| == |s.fields| && DecodeMembers(s, r0, done).Ok? && FieldIndex(s, m.key).Some?
    requires DecodeVal(s.fields[FieldIndex(s, m.key).value].ty, m.val).Err?
    ensures FailsAt(s, r0, done + [m] + more, |done|)
    ensures DecodeMembers(s, r0, done + [m] + more) ==
            Err(InField(m.key, DecodeVal(s.fields[FieldIndex(s, m.key).value].ty, m.val).error))
  {
    MembersSnoc(s, r0, done, m, more);
    assert (done + [m] + more)[..|done|] == done;
  }

  /** What the failing member leaves in the receiver. */
  lemma LeftBehind(s: Schema, r0: seq<Value>, done: seq<Member>, m: Member, more: seq<Member>, after: seq<Value>)
    requires |r0| == |s.fields| && FailsAt(s, r0, done + [m] + more, |done|)
    requires DecodeMembers(s, r0, done).Ok? && |after| == |r0|
    requires forall i :: 0 <= i < |after| && i !in Selected(s, m.key) ==>
               after[i] == DecodeMembers(s, r0, done).value[i]
    ensures StoppedAt(s, r0, done + [m] + more, |done|, after)
  {
    var ms := done + [m] + more;
    assert ms[..|done|] == done && ms[|done|] == m;
  }

  // ---- The bitset -----------------------------------------------------------------------

  /** requiredBitSet[i/8] |= 1 << (i%8) adds field i to the fields seen. */
  lemma SetField(bytes: seq<bv8>, i: nat)
    requires i < 8 * |bytes|
    ensures Fields(bytes[i / 8 := bytes[i / 8] | OneBit(i % 8)]) == Fields(bytes) + {i}
  {
    var after := bytes[i / 8 := bytes[i / 8] | OneBit(i % 8)];
    forall k | 0 <= k < 8 * |bytes|
      ensures Bit(after[k / 8], k % 8) <==> Bit(bytes[k / 8], k % 8) || k == i
    {
      if k / 8 == i / 8 {
        SetBit(bytes[i / 8], i % 8, k % 8);
      }
    }
    assert forall k :: k in Fields(after) <==> k in Fields(bytes) + {i};
  }

  /** The required fields seen among the members read so far. */
  ghost function SeenRequired(s: Schema, ms: seq<Member>): set<nat> {
    RequiredSet(s) * SeenSet(s, ms)
  }

  lemma SeenSnoc(s: Schema, ms: seq<Member>, m: Member)
    requires DistinctNames(s)
    ensures SeenSet(s, ms + [m]) ==
            SeenSet(s, ms) + Selected(s, m.key)
  {
    forall i | 0 <= i < |s.fields|
      ensures HasKey(ms + [m], s.fields[i].name) <==> HasKey(ms, s.fields[i].name) || m.key == s.fields[i].name
    {
      if HasKey(ms, s.fields[i].name) {
        var x :| x in ms && x.key == s.fields[i].name;
        assert x in ms + [m];
      }
      assert m in ms + [m];
    }
  }

  /** The bit loop over the masks reports what MissingNames says. */
  lemma BitsTellMissing(s: Schema, ms: seq<Member>, seen: seq<bv8>)
    requires Fields(s.masks) == RequiredSet(s) && Fields(seen) == SeenRequired(s, ms)
    ensures NamesOf(FieldNames(s), MissingFields(seen, s.masks)) == MissingNames(s, ms)
  {
    var lost := RequiredSet(s) - SeenSet(s, ms);
    assert Fields(s.masks) - Fields(seen) == lost;
    var n, m := |s.fields|, 8 * |s.masks|;
    assert forall i :: i in lost ==> i in RequiredSet(s) && i in Fields(s.masks);
    assert forall i :: i in lost ==> i < n && i < m;
    if n <= m {
      SortedSplit(lost, 0, n, m);
      SortedEmpty(lost, n, m);
      assert Sorted(lost, 0, n) + [] == Sorted(lost, 0, n);
    } else {
      SortedSplit(lost, 0, m, n);
      SortedEmpty(lost, m, n);
      assert Sorted(lost, 0, m) + [] == Sorted(lost, 0, m);
    }
  }

  // ---- The decoding methods -------------------------------------------------------------

  method SetDefaults(s: Schema, recv: array<Value>)
    requires recv.Length == |s.fields|
    modifies recv
    ensures recv[..] == WithDefaults(s, old(recv[..]))
  {
    for i := 0 to recv.Length
      invariant forall k :: 0 <= k < i ==> recv[k] == s.fields[k].preset.GetOr(old(recv[k]))
      invariant forall k :: i <= k < recv.Length ==> recv[k] == old(recv[k])
    {
      if s.fields[i].preset.Some? {
        recv[i] := s.fields[i].preset.value;
      }
    }
  }

  /**
   The outcome of Decode on a receiver, given the value at the front of the stream.  When only
   required keys are missing, the receiver holds everything that was read.
   */
  ghost predicate StructDecoded(s: Schema, before: seq<Value>, after: seq<Value>,
                                toks: seq<Token>, left: seq<Token>, r: Decoded<()>)
    requires |before| == |s.fields|
  {
    match ParseValue(toks)
    case None => r.Err?
    case Some((j, rest)) =>
      if !j.JObj? then r == Err(InType(s.typeName, Mismatch))
      else
        var r0 := WithDefaults(s, before);
        match DecodeMembers(s, r0, j.members)
        case Err(e) => r == Err(InType(s.typeName, e)) && exists n :: StoppedAt(s, r0, j.members, n, after)
        case Ok(vs) =>
          && after == vs && left == rest
          && r == match DecodeObject(s, before, j.members) case Err(e) => Err(e) case Ok(_) => Ok(())
  }

  ghost predicate ValueDecoded(ty: Ty, toks: seq<Token>, left: seq<Token>, r: Decoded<Value>) {
    match ParseValue(toks)
    case None => r.Err?
    case Some((j, rest)) => r == DecodeVal(ty, j) && (r.Ok? ==> left == rest)
  }

  /** Decode of a struct into its receiver. */
  method DecodeStruct(s: Schema, recv: array<Value>, d: Decoder) returns (r: Decoded<()>)
    requires WfSchema(s) && recv.Length == |s.fields|
    modifies recv, d
    ensures StructDecoded(s, old(recv[..]), recv[..], old(d.toks), d.toks, r)
    decreases s, 2
  {
    var requiredBitSet := new bv8[|s.masks|](_ => 0);
    SetDefaults(s, recv);
    if d.toks == [] || !d.toks[0].ObjStart? {
      return Err(InType(s.typeName, Mismatch));
    }
    d.Advance();
    r := DecodeFields(s, recv, requiredBitSet, d);
    if r.Err? {
      return Err(InType(s.typeName, r.error));
    }
    ghost var ms := ParseMembers(old(d.toks)[1..]).value.0;
    var failures := ReportMissing(requiredBitSet, s.masks, FieldNames(s));
    BitsTellMissing(s, ms, requiredBitSet[..]);
    if |failures| > 0 {
      return Err(MissingRequired(failures));
    }
    return Ok(());
  }

  /** requiredBitSet[i/8] |= 1 << (i%8), written only in the cases of required keys. */
  method MarkSeen(s: Schema, i: nat, requiredBitSet: array<bv8>)
    requires WfSchema(s) && i < |s.fields| && requiredBitSet.Length == |s.masks|
    modifies requiredBitSet
    ensures Fields(requiredBitSet[..]) == Fields(old(requiredBitSet[..])) + RequiredSet(s) * {i}
  {
    if s.fields[i].required {
      assert i in RequiredSet(s);
      SetField(requiredBitSet[..], i);
      ghost var was := requiredBitSet[..];
      requiredBitSet[i / 8] := requiredBitSet[i / 8] | OneBit(i % 8);
      assert requiredBitSet[..] == was[i / 8 := was[i / 8] | OneBit(i % 8)];
    } else {
      assert RequiredSet(s) * {i} == {};
    }
  }

  /**
   The callback given to ObjBytes: the switch on one key, with its value next in the stream.
   It touches no field but the one selected, even when it fails.
   */
  method OnKey(s: Schema, key: string, recv: array<Value>, requiredBitSet: array<bv8>, d: Decoder)
    returns (r: Decoded<()>)
    requires WfSchema(s) && recv.Length == |s.fields| && requiredBitSet.Length == |s.masks|
    requires recv as object != requiredBitSet as object
    modifies recv, requiredBitSet, d
    ensures match ParseValue(old(d.toks))
            case None => r.Err?
            case Some((j, rest)) => KeyHandled(s, key, j, old(recv[..]), recv[..], r) && (r.Ok? ==> d.toks == rest)
    ensures Fields(requiredBitSet[..]) == Fields(old(requiredBitSet[..])) + RequiredSet(s) * Selected(s, key)
    ensures forall i :: 0 <= i < recv.Length && i !in Selected(s, key) ==> recv[i] == old(recv[i])
    decreases s, 0
  {
    match FieldIndex(s, key) {
      case None =>
        var skipped := d.RawAppend();
        r := if skipped.Err? then Err(Mismatch) else Ok(());
      case Some(i) =>
        MarkSeen(s, i, requiredBitSet);
        var v := DecodeNext(s.fields[i].ty, d);
        if v.Err? {
          return Err(InField(key, v.error));
        }
        recv[i] := v.value;
        r := Ok(());
    }
  }

  ghost function Selected(s: Schema, key: string): set<nat> {
    match FieldIndex(s, key) case None => {} case Some(i) => {i}
  }

  ghost predicate KeyHandled(s: Schema, key: string, j: Json, before: seq<Value>, after: seq<Value>, r: Decoded<()>)
    requires |before| == |s.fields|
  {
    match FieldIndex(s, key)
    case None => r == Ok(()) && after == before
    case Some(i) =>
      match DecodeVal(s.fields[i].ty, j)
      case Err(e) => r == Err(InField(key, e))
      case Ok(v) => r == Ok(()) && after == before[i := v]
  }

  /** The members done are read: the stream stands before now, and receiver and bitset hold their effect. */
  ghost predicate ReadUpTo(s: Schema, r0: seq<Value>, start: seq<Token>, done: seq<Member>,
                           now: seq<Token>, recv: seq<Value>, seen: set<nat>)
    requires |r0| == |s.fields|
  {
    && MembersRead(start, done, now)
    && DecodeMembers(s, r0, done) == Ok(recv)
    && seen == SeenRequired(s, done)
  }

  /** One member read and handled. */
  lemma OneMemberMore(s: Schema, r0: seq<Value>, start: seq<Token>, done: seq<Member>, now: seq<Token>,
                      before: seq<Value>, after: seq<Value>, seen: set<nat>)
    requires DistinctNames(s) && |r0| == |s.fields| && ReadUpTo(s, r0, start, done, now, before, seen)
    requires now != [] && now[0].Key? && ParseValue(now[1..]).Some? && |before| == |s.fields|
    requires KeyHandled(s, now[0].name, ParseValue(now[1..]).value.0, before, after, Ok(()))
    ensures var m := Member(now[0].name, ParseValue(now[1..]).value.0);
            ReadUpTo(s, r0, start, done + [m], ParseValue(now[1..]).value.1, after,
                     seen + RequiredSet(s) * Selected(s, m.key))
  {
    var m := Member(now[0].name, ParseValue(now[1..]).value.0);
    MemberRead(start, done, now);
    MembersSnoc(s, r0, done, m, []);
    SeenSnoc(s, done, m);
  }

  /** One member read and found bad. */
  lemma OneMemberBad(s: Schema, r0: seq<Value>, start: seq<Token>, done: seq<Member>, now: seq<Token>,
                     before: seq<Value>, after: seq<Value>, seen: set<nat>, r: Decoded<()>)
    requires |r0| == |s.fields| && ReadUpTo(s, r0, start, done, now, before, seen)
    requires now != [] && now[0].Key? && |before| == |s.fields| == |after| && r.Err?
    requires ParseValue(now[1..]).Some? ==> KeyHandled(s, now[0].name, ParseValue(now[1..]).value.0, before, after, r)
    requires forall i :: 0 <= i < |after| && i !in Selected(s, now[0].name) ==> after[i] == before[i]
    ensures ParseMembers(start).Some? ==>
              && DecodeMembers(s, r0, ParseMembers(start).value.0) == Err(r.error)
              && exists n :: StoppedAt(s, r0, ParseMembers(start).value.0, n, after)
  {
    if ParseMembers(start).Some? {
      MemberAhead(start, done, now);
      var bad := Member(now[0].name, ParseValue(now[1..]).value.0);
      var more := ParseMembers(start).value.0[|done| + 1..];
      MemberFails(s, r0, done, bad, more);
      LeftBehind(s, r0, done, bad, more, after);
    }
  }

  /** ObjBytes after the opening brace: every member goes through the callback, up to the closing brace. */
  method DecodeFields(s: Schema, recv: array<Value>, requiredBitSet: array<bv8>, d: Decoder) returns (r: Decoded<()>)
    requires WfSchema(s) && recv.Length == |s.fields|
    requires recv as object != requiredBitSet as object
    requires requiredBitSet.Length == |s.masks| && Fields(requiredBitSet[..]) == {}
    modifies recv, requiredBitSet, d
    ensures match ParseMembers(old(d.toks))
            case None => r.Err?
            case Some((ms, rest)) =>
              match DecodeMembers(s, old(recv[..]), ms)
              case Err(e) => r == Err(e) && exists n :: StoppedAt(s, old(recv[..]), ms, n, recv[..])
              case Ok(vs) => r == Ok(()) && recv[..] == vs && d.toks == rest &&
                             Fields(requiredBitSet[..]) == SeenRequired(s, ms)
    decreases s, 1
  {
    ghost var start := d.toks;
    ghost var r0 := recv[..];
    ghost var done: seq<Member> := [];
    AtStart(start);
    while d.toks != [] && d.toks[0].Key?
      invariant ReadUpTo(s, r0, start, done, d.toks, recv[..], Fields(requiredBitSet[..]))
      decreases |d.toks|
    {
      ghost var now, before, seen := d.toks, recv[..], Fields(requiredBitSet[..]);
      var key := d.toks[0].name;
      d.Advance();
      r := OnKey(s, key, recv, requiredBitSet, d);
      if r.Err? {
        OneMemberBad(s, r0, start, done, now, before, recv[..], seen, r);
        return;
      }
      OneMemberMore(s, r0, start, done, now, before, recv[..], seen);
      done := done + [Member(key, ParseValue(now[1..]).value.0)];
    }
    if d.toks == [] || !d.toks[0].ObjEnd? {
      return Err(Mismatch);
    }
    ConcatEmpty(done);
    d.Advance();
    return Ok(());
  }

  /** Decode of one value into a fresh variable of the type. */
  method DecodeNext(ty: Ty, d: Decoder) returns (r: Decoded<Value>)
    requires WfTy(ty)
    modifies d
    ensures ValueDecoded(ty, old(d.toks), d.toks, r)
    decreases ty, 0
  {
    match ty {
      case TStr =>
        if d.toks == [] || !d.toks[0].Str? { return Err(Mismatch); }
        r := Ok(VStr(d.toks[0].s));
        d.Advance();
      case TNum =>
        if d.toks == [] || !d.toks[0].Num? { return Err(Mismatch); }
        r := Ok(VNum(d.toks[0].n));
        d.Advance();
      case TBool =>
        if d.toks == [] || !d.toks[0].Bool? { return Err(Mismatch); }
        r := Ok(VBool(d.toks[0].b));
        d.Advance();
      case TOpt(base) =>
        r := DecodeNext(base, d);
        if r.Ok? { r := Ok(VOpt(true, r.value)); }
      case TSlice(elem) =>
        r := DecodeSlice(elem, d);
      case TStruct(s) =>
        var elem := new Value[|s.fields|](i requires 0 <= i < |s.fields| => Zero(s.fields[i].ty));
        assert elem[..] == ZeroFields(s);
        var done := DecodeStruct(s, elem, d);
        if done.Err? { return Err(done.error); }
        r := Ok(VStruct(elem[..]));
      case TMap(name) =>
        var m := DecodeMap(name, map[], d);
        r := if m.Err? then Err(m.error) else Ok(VMap(m.value));
    }
  }

  /** The elements done are read and decoded to items. */
  ghost predicate DecodedUpTo(e: Ty, start: seq<Token>, done: seq<Json>, now: seq<Token>, items: seq<Value>) {
    ElemsRead(start, done, now) && DecodeElems(e, done) == Ok(items)
  }

  lemma OneElemMore(e: Ty, start: seq<Token>, done: seq<Json>, now: seq<Token>, items: seq<Value>)
    requires DecodedUpTo(e, start, done, now, items) && now != [] && !now[0].ArrEnd?
    requires ParseValue(now).Some? && DecodeVal(e, ParseValue(now).value.0).Ok?
    ensures var x := ParseValue(now).value.0;
            DecodedUpTo(e, start, done + [x], ParseValue(now).value.1, items + [DecodeVal(e, x).value])
  {
    ElemRead(start, done, now);
    ElemsSnoc(e, done, ParseValue(now).value.0, []);
  }

  lemma OneElemBad(e: Ty, start: seq<Token>, done: seq<Json>, now: seq<Token>, items: seq<Value>)
    requires DecodedUpTo(e, start, done, now, items) && now != [] && !now[0].ArrEnd?
    requires ParseValue(now).Some? ==> DecodeVal(e, ParseValue(now).value.0).Err?
    ensures ParseElems(start).Some? ==>
              ParseValue(now).Some? &&
              DecodeElems(e, ParseElems(start).value.0) == Err(DecodeVal(e, ParseValue(now).value.0).error)
  {
    ElemRead(start, done, now);
    ElemFails(e, start, done, now);
  }

  /** make([]T, 0), then one append per element. */
  method DecodeSlice(elem: Ty, d: Decoder) returns (r: Decoded<Value>)
    requires WfTy(elem)
    modifies d
    ensures ValueDecoded(TSlice(elem), old(d.toks), d.toks, r)
    decreases elem, 2
  {
    if d.toks == [] || !d.toks[0].ArrStart? { return Err(Mismatch); }
    d.Advance();
    var items := DecodeItems(elem, d);
    if items.Err? { return Err(items.error); }
    return Ok(VSlice(items.value));
  }

  /** d.Arr after the opening bracket. */
  method DecodeItems(elem: Ty, d: Decoder) returns (r: Decoded<seq<Value>>)
    requires WfTy(elem)
    modifies d
    ensures match ParseElems(old(d.toks))
            case None => r.Err?
            case Some((es, rest)) => r == DecodeElems(elem, es) && (r.Ok? ==> d.toks == rest)
    decreases elem, 1
  {
    var items: seq<Value> := [];
    ghost var start := d.toks;
    ghost var done: seq<Json> := [];
    AtStart(start);
    while d.toks != [] && !d.toks[0].ArrEnd?
      invariant DecodedUpTo(elem, start, done, d.toks, items)
      decreases |d.toks|
    {
      ghost var now := d.toks;
      var v := DecodeNext(elem, d);
      if v.Err? {
        OneElemBad(elem, start, done, now, items);
        return Err(v.error);
      }
      OneElemMore(elem, start, done, now, items);
      items := items + [v.value];
      done := done + [ParseValue(now).value.0];
    }
    if d.toks == [] { return Err(Mismatch); }
    ConcatEmpty(done);
    d.Advance();
    return Ok(items);
  }

  /** Decode of a raw map into the entries recv the receiver already has: one store per member. */
  method DecodeMap(name: string, recv: map<string, seq<Token>>, d: Decoder)
    returns (r: Decoded<map<string, seq<Token>>>)
    modifies d
    ensures match ParseValue(old(d.toks))
            case None => r.Err?
            case Some((j, rest)) =>
              if !j.JObj? then r == Err(InType(name, Mismatch))
              else r == Ok(RawEntries(recv, j.members)) && d.toks == rest
  {
    if d.toks == [] || !d.toks[0].ObjStart? { return Err(InType(name, Mismatch)); }
    d.Advance();
    var m := recv;
    ghost var start := d.toks;
    ghost var done: seq<Member> := [];
    AtStart(start);
    while d.toks != [] && d.toks[0].Key?
      invariant MembersRead(start, done, d.toks)
      invariant m == RawEntries(recv, done)
      decreases |d.toks|
    {
      MemberRead(start, done, d.toks);
      var key := d.toks[0].name;
      d.Advance();
      ghost var parsed := ParseValue(d.toks);
      var elem := d.RawAppend();
      if elem.Err? { return Err(InType(name, InField(key, Mismatch))); }
      RawEntriesAppend(recv, done, Member(key, parsed.value.0));
      m := m[key := elem.value];
      done := done + [Member(key, parsed.value.0)];
    }
    if d.toks == [] || !d.toks[0].ObjEnd? { return Err(InType(name, Mismatch)); }
    assert done + [] == done;
    d.Advance();
    return Ok(m);
  }
}
