/** Laws that join the encoder, the token stream and the decoder. */
module Wire {
  import opened Common
  import opened Json
  import opened Schema
  import opened RoundTrip
  import opened Output
  import opened Codec

  // ---- The round trip on the stream -----------------------------------------------------

  /** On the stream: any encoding of v, with anything behind it, reads back as Norm(v). */
  lemma ReadBack(ty: Ty, v: Value, j: Json, rest: seq<Token>)
    requires WfTy(ty) && HasType(ty, v) && IsEncoding(ty, v, j)
    ensures ParseValue(Tokens(j) + rest) == Some((j, rest))
    ensures DecodeVal(ty, j) == Ok(Norm(ty, v))
  {
    ParseTokens(j, rest);
    DecodeEncode(ty, v, j);
  }

  /** Reading ts with rest behind it yields v and leaves rest. */
  ghost predicate ReadsAs(ty: Ty, v: Value, ts: seq<Token>, rest: seq<Token>) {
    && ParseValue(ts + rest).Some?
    && ParseValue(ts + rest).value.1 == rest
    && DecodeVal(ty, ParseValue(ts + rest).value.0) == Ok(v)
  }

  /**
   Whatever Encode wrote for v, in any iteration order of its maps, reads back as the normal form
   of v exactly when every raw element written is one value.
   */
  lemma RoundTripIff(ty: Ty, v: Value, ts: seq<Token>, rest: seq<Token>)
    requires WfTy(ty) && HasType(ty, v) && Written(ty, v, ts)
    requires ty.TOpt? ==> v.isSet
    ensures ReadsAs(ty, Norm(ty, v), ts, rest) <==> RawOk(v)
  {
    if RawOk(v) {
      var j := WrittenEncodes(ty, v, ts);
      ReadBack(ty, v, j, rest);
    }
    if ReadsAs(ty, Norm(ty, v), ts, rest) {
      DecodedRawOk(ty, ParseValue(ts + rest).value.0);
      NormRawOk(ty, v);
    }
  }

  /** Encode, then Decode with anything behind on the stream: the normal form comes back and the rest stays. */
  method EncodeThenDecode(s: Schema, vs: seq<Value>, rest: seq<Token>)
    returns (sent: seq<Token>, r: Decoded<()>, read: seq<Value>, left: seq<Token>)
    requires WfSchema(s) && FieldsHaveType(s, vs)
    ensures Written(TStruct(s), VStruct(vs), sent)
    ensures r == Ok(()) && read == NormFields(s, vs) && left == rest <==> RawOk(VStruct(vs))
  {
    var e := new Encoder();
    ghost var ts := EncodeVal(TStruct(s), VStruct(vs), e);
    sent := e.out;
    assert sent == ts;
    RoundTripIff(TStruct(s), VStruct(vs), ts, rest);
    var d := new Decoder(e.out + rest);
    var recv := new Value[|s.fields|](i requires 0 <= i < |s.fields| => Zero(s.fields[i].ty));
    assert recv[..] == ZeroFields(s);
    r := DecodeStruct(s, recv, d);
    read, left := recv[..], d.toks;
    StructReads(s, NormFields(s, vs), ts, rest, read, left, r);
  }

  /** The outcome of a fresh Decode, in terms of ReadsAs. */
  lemma StructReads(s: Schema, want: seq<Value>, ts: seq<Token>, rest: seq<Token>,
                    read: seq<Value>, left: seq<Token>, r: Decoded<()>)
    requires StructDecoded(s, ZeroFields(s), read, ts + rest, left, r)
    ensures r == Ok(()) && read == want && left == rest <==> ReadsAs(TStruct(s), VStruct(want), ts, rest)
  {
    match ParseValue(ts + rest)
    case None =>
    case Some((j, behind)) =>
      if j.JObj? {
        var whole := DecodeObject(s, ZeroFields(s), j.members);
        assert DecodeVal(TStruct(s), j) == if whole.Ok? then Ok(VStruct(whole.value)) else Err(whole.error);
      }
  }

  // ---- Metadata: maps of raw values -----------------------------------------------------

  /** What Encode of a raw map writes when the runtime visits the keys in the order ks. */
  function MapTokens(raw: map<string, seq<Token>>, ks: seq<string>): seq<Token>
    requires forall k :: k in ks ==> k in raw
  {
    [ObjStart] + EntryTokens(raw, ks) + [ObjEnd]
  }

  /** In every iteration order, a map reads back as itself exactly when each element is one value. */
  lemma MetadataRoundTripIff(name: string, raw: map<string, seq<Token>>, ks: seq<string>, rest: seq<Token>)
    requires IsOrder(ks, raw.Keys) && forall k :: k in ks ==> k in raw
    ensures ReadsAs(TMap(name), VMap(raw), MapTokens(raw, ks), rest) <==> RawEntriesOk(raw)
  {
    FrameInner(ObjStart, EntryTokens(raw, ks), ObjEnd);
    assert EntriesWritten(Entries(VMap(raw)), ks, Inner(MapTokens(raw, ks)));
    RoundTripIff(TMap(name), VMap(raw), MapTokens(raw, ks), rest);
  }

  // ---- A bare key -----------------------------------------------------------------------

  /** In the text of a value, a key is never the last token, nor followed by a key or a closing brace. */
  ghost predicate KeysHaveValues(ts: seq<Token>) {
    forall i :: 0 <= i < |ts| && ts[i].Key? ==> i + 1 < |ts| && !ts[i + 1].Key? && !ts[i + 1].ObjEnd?
  }

  lemma KeysConcat(a: seq<Token>, b: seq<Token>)
    requires KeysHaveValues(a) && KeysHaveValues(b)
    ensures KeysHaveValues(a + b)
  {
  }

  lemma {:induction false} TextKeys(j: Json)
    ensures KeysHaveValues(Tokens(j))
    decreases j, 0
  {
    match j
    case JArr(es) =>
      ElemTextKeys(es);
      KeysConcat([ArrStart], ElemTokens(es));
      KeysConcat([ArrStart] + ElemTokens(es), [ArrEnd]);
    case JObj(ms) =>
      MemberTextKeys(ms);
      KeysConcat([ObjStart], MemberTokens(ms));
      KeysConcat([ObjStart] + MemberTokens(ms), [ObjEnd]);
    case _ =>
  }

  lemma {:induction false} ElemTextKeys(es: seq<Json>)
    ensures KeysHaveValues(ElemTokens(es))
    decreases es, 0
  {
    if es != [] {
      TextKeys(es[0]);
      ElemTextKeys(es[1..]);
      KeysConcat(Tokens(es[0]), ElemTokens(es[1..]));
    }
  }

  lemma {:induction false} MemberTextKeys(ms: seq<Member>)
    ensures KeysHaveValues(MemberTokens(ms))
    decreases ms, 0
  {
    if ms != [] {
      TextKeys(ms[0].val);
      MemberTextKeys(ms[1..]);
      KeyThenText([Key(ms[0].key)], Tokens(ms[0].val));
      KeysConcat([Key(ms[0].key)] + Tokens(ms[0].val), MemberTokens(ms[1..]));
    }
  }

  lemma KeyThenText(key: seq<Token>, ts: seq<Token>)
    requires |key| == 1 && KeysHaveValues(ts) && ts != [] && !ts[0].Key? && !ts[0].ObjEnd?
    ensures KeysHaveValues(key + ts)
  {
  }

  /** Position p holds a key with no value behind it. */
  predicate BareKeyAt(ts: seq<Token>, p: nat) {
    p + 1 < |ts| && ts[p].Key? && (ts[p + 1].Key? || ts[p + 1].ObjEnd?)
  }

  lemma NotBareWithin(text: seq<Token>, rest: seq<Token>, p: nat)
    requires KeysHaveValues(text) && p < |text|
    ensures !BareKeyAt(text + rest, p)
  {
    if text[p].Key? {
      assert (text + rest)[p + 1] == text[p + 1];
    }
  }

  /** No reading gets past a bare key: a value read from the front ends before it. */
  lemma BareKeyStops(ts: seq<Token>, p: nat)
    requires BareKeyAt(ts, p) && ParseValue(ts).Some?
    ensures |ParseValue(ts).value.1| >= |ts| - p
  {
    var j, rest := ParseValue(ts).value.0, ParseValue(ts).value.1;
    ParsedIsPrinted(ts);
    TextKeys(j);
    if p < |Tokens(j)| {
      NotBareWithin(Tokens(j), rest, p);
      assert false;
    }
  }

  /** Where the encoder leaves a key bare for an empty element. */
  lemma {:induction false} EmptyElementBare(raw: map<string, seq<Token>>, ks: seq<string>, key: string,
                                            rest: seq<Token>)
    returns (p: nat)
    requires (forall k :: k in ks ==> k in raw) && key in ks && raw[key] == []
    ensures p < |EntryTokens(raw, ks)| && BareKeyAt(EntryTokens(raw, ks) + ([ObjEnd] + rest), p)
  {
    var tail := EntryTokens(raw, ks[1..]) + ([ObjEnd] + rest);
    var here := [Key(ks[0])] + raw[ks[0]];
    assert EntryTokens(raw, ks) + ([ObjEnd] + rest) == here + tail;
    if ks[0] == key {
      p := 0;
      assert tail[0].Key? || tail[0].ObjEnd?;
    } else {
      var q := EmptyElementBare(raw, ks[1..], key, rest);
      p := |here| + q;
      assert (here + tail)[p] == tail[q] && (here + tail)[p + 1] == tail[q + 1];
    }
  }

  /**
   An empty element leaves a bare key, and no reader gets to the end of the object, whatever the
   other elements are; when they are single values the reader finds no value at all.
   */
  lemma EmptyElementRejected(raw: map<string, seq<Token>>, ks: seq<string>, key: string, rest: seq<Token>)
    requires (forall k :: k in ks ==> k in raw) && key in ks && raw[key] == []
    ensures ParseValue(MapTokens(raw, ks) + rest).Some? ==>
              |ParseValue(MapTokens(raw, ks) + rest).value.1| > |rest| + 1
    ensures (forall k :: k in ks ==> OneValue(raw[k]) || raw[k] == []) ==>
              ParseValue(MapTokens(raw, ks) + rest) == None
  {
    var body := EntryTokens(raw, ks) + ([ObjEnd] + rest);
    var ts := MapTokens(raw, ks) + rest;
    assert ts == [ObjStart] + body;
    var p := EmptyElementBare(raw, ks, key, rest);
    assert ts[p + 1] == body[p] && ts[p + 2] == body[p + 1];
    if ParseValue(ts).Some? {
      BareKeyStops(ts, p + 1);
    }
    if forall k :: k in ks ==> OneValue(raw[k]) || raw[k] == [] {
      BareKeyRejected(raw, ks, key, rest);
      assert ts[1..] == body;
    }
  }

  /** Among members that are otherwise well formed, a bare key is where reading fails. */
  lemma {:induction false} BareKeyRejected(raw: map<string, seq<Token>>, ks: seq<string>, key: string, rest: seq<Token>)
    requires (forall k :: k in ks ==> k in raw && (OneValue(raw[k]) || raw[k] == [])) && key in ks && raw[key] == []
    ensures ParseMembers(EntryTokens(raw, ks) + ([ObjEnd] + rest)) == None
    decreases ks
  {
    var ts := EntryTokens(raw, ks) + ([ObjEnd] + rest);
    var tail := EntryTokens(raw, ks[1..]) + ([ObjEnd] + rest);
    assert ts[1..] == raw[ks[0]] + tail;
    if raw[ks[0]] == [] {
      assert ts[1..] == tail;
      assert tail[0].Key? || tail[0].ObjEnd?;
    } else {
      var j := ParseValue(raw[ks[0]]).value.0;
      ParsedIsPrinted(raw[ks[0]]);
      assert raw[ks[0]] == Tokens(j);
      ParseTokens(j, tail);
      BareKeyRejected(raw, ks[1..], key, rest);
    }
  }
}
