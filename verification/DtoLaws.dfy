/** The codec laws at the DTO types whose behaviour they decide. */
module DtoLaws {
  import opened Common
  import opened Json
  import opened RequiredFields
  import opened Schema
  import opened RoundTrip
  import opened DecodeLaws
  import opened Output
  import opened Wire
  import opened Dtos
  import opened DtosWf

  // ---- Required fields ------------------------------------------------------------------

  /** With the shipped masks every reported name is a declared one: the numeric fallback is dead. */
  lemma ReportedNamesDeclared(s: Schema, seen: seq<bv8>)
    requires WfSchema(s)
    ensures forall i :: i in MissingFields(seen, s.masks) ==>
              i < |s.fields| && s.fields[i].required && i !in Fields(seen) &&
              FieldName(FieldNames(s), i) == s.fields[i].name
    ensures forall i :: 0 <= i < |s.fields| && s.fields[i].required && i !in Fields(seen) ==>
              i in MissingFields(seen, s.masks)
    ensures Increasing(MissingFields(seen, s.masks))
  {
    var lost := Fields(s.masks) - Fields(seen);
    SortedIncreasing(lost, 0, 8 * |s.masks|);
    forall i: nat
      ensures i in MissingFields(seen, s.masks) <==> i in lost
    {
      SortedMembers(lost, 0, 8 * |s.masks|, i);
      assert i in lost ==> i in Fields(s.masks);
    }
    forall i | 0 <= i < |s.fields| && s.fields[i].required && i !in Fields(seen)
      ensures i in MissingFields(seen, s.masks)
    {
      assert i in RequiredSet(s);
    }
  }

  // ---- Partial updates ------------------------------------------------------------------

  /** UpdateBadgeDto has no defaults: decoding twice merges, and keys never given keep their value. */
  lemma BadgeUpdatesMerge(recv: seq<Value>, a: seq<Member>, b: seq<Member>)
    requires |recv| == |UPDATE_BADGE.fields|
    ensures DecodeObject(UPDATE_BADGE, recv, a + b).Ok? <==>
            DecodeObject(UPDATE_BADGE, recv, a).Ok? &&
            DecodeObject(UPDATE_BADGE, DecodeObject(UPDATE_BADGE, recv, a).value, b).Ok?
    ensures DecodeObject(UPDATE_BADGE, recv, a + b).Ok? ==>
            DecodeObject(UPDATE_BADGE, DecodeObject(UPDATE_BADGE, recv, a).value, b) ==
            DecodeObject(UPDATE_BADGE, recv, a + b)
    ensures DecodeObject(UPDATE_BADGE, recv, a).Ok? ==>
            forall i :: 0 <= i < |recv| && Vals(a, UPDATE_BADGE.fields[i].name) == [] ==>
              DecodeObject(UPDATE_BADGE, recv, a).value[i] == recv[i]
  {
    UpdateBadgeNames();
    DecodeTwiceIsConcat(UPDATE_BADGE, recv, a, b);
  }

  /** A key with a default that an update leaves out is put back to the default. */
  lemma OmittedKeyIsReset(s: Schema, recv: seq<Value>, b: seq<Member>, i: nat)
    requires DistinctNames(s) && |recv| == |s.fields| && i < |s.fields|
    requires s.fields[i].preset.Some? && Vals(b, s.fields[i].name) == []
    requires DecodeObject(s, recv, b).Ok?
    ensures |DecodeObject(s, recv, b).value| == |recv|
    ensures DecodeObject(s, recv, b).value[i] == s.fields[i].preset.value
  {
    StoresLast(s, recv, b);
  }

  const ORDER_INDEX := 18
  const PUBLISHED := 19

  lemma ProfileFields()
    ensures UPDATE_INSTRUCTOR.fields[ORDER_INDEX] == OptOr("orderIndex", TNum, VNum(0.0))
    ensures UPDATE_INSTRUCTOR.fields[PUBLISHED] == OptOr("published", TBool, VBool(false))
  {
  }

  /** UpdateInstructorDto: an update without orderIndex or published resets them to 0 and false. */
  lemma InstructorUpdateResets(recv: seq<Value>, b: seq<Member>)
    requires |recv| == |UPDATE_INSTRUCTOR.fields| && DecodeObject(UPDATE_INSTRUCTOR, recv, b).Ok?
    ensures |DecodeObject(UPDATE_INSTRUCTOR, recv, b).value| == |recv|
    ensures Vals(b, "orderIndex") == [] ==>
              DecodeObject(UPDATE_INSTRUCTOR, recv, b).value[ORDER_INDEX] == VOpt(true, VNum(0.0))
    ensures Vals(b, "published") == [] ==>
              DecodeObject(UPDATE_INSTRUCTOR, recv, b).value[PUBLISHED] == VOpt(true, VBool(false))
  {
    ProfileFields();
    UpdateInstructorNames();
    if Vals(b, "orderIndex") == [] {
      OmittedKeyIsReset(UPDATE_INSTRUCTOR, recv, b, ORDER_INDEX);
    }
    if Vals(b, "published") == [] {
      OmittedKeyIsReset(UPDATE_INSTRUCTOR, recv, b, PUBLISHED);
    }
  }

  const MIN_TEAM_SIZE := 8
  const MAX_TEAM_SIZE := 9

  lemma TeamSizeFields()
    ensures UPDATE_HACKATHON.fields[MIN_TEAM_SIZE] == OptOr("minTeamSize", TNum, VNum(1.0))
    ensures UPDATE_HACKATHON.fields[MAX_TEAM_SIZE] == OptOr("maxTeamSize", TNum, VNum(5.0))
  {
  }

  /** UpdateHackathonDto: an update without team sizes resets them to 1 and 5. */
  lemma HackathonUpdateResets(recv: seq<Value>, b: seq<Member>)
    requires |recv| == |UPDATE_HACKATHON.fields| && DecodeObject(UPDATE_HACKATHON, recv, b).Ok?
    ensures |DecodeObject(UPDATE_HACKATHON, recv, b).value| == |recv|
    ensures Vals(b, "minTeamSize") == [] ==>
              DecodeObject(UPDATE_HACKATHON, recv, b).value[MIN_TEAM_SIZE] == VOpt(true, VNum(1.0))
    ensures Vals(b, "maxTeamSize") == [] ==>
              DecodeObject(UPDATE_HACKATHON, recv, b).value[MAX_TEAM_SIZE] == VOpt(true, VNum(5.0))
  {
    TeamSizeFields();
    UpdateHackathonNames();
    if Vals(b, "minTeamSize") == [] {
      OmittedKeyIsReset(UPDATE_HACKATHON, recv, b, MIN_TEAM_SIZE);
    }
    if Vals(b, "maxTeamSize") == [] {
      OmittedKeyIsReset(UPDATE_HACKATHON, recv, b, MAX_TEAM_SIZE);
    }
  }

  /** Decoding one known key into a struct without required keys stores its value. */
  lemma OneKey(s: Schema, recv: seq<Value>, i: nat, j: Json)
    requires DistinctNames(s) && |recv| == |s.fields| && i < |s.fields| && RequiredSet(s) == {}
    requires DecodeVal(s.fields[i].ty, j).Ok?
    ensures DecodeObject(s, recv, []) == Ok(WithDefaults(s, recv))
    ensures DecodeObject(s, recv, [Member(s.fields[i].name, j)]) ==
            Ok(WithDefaults(s, recv)[i := DecodeVal(s.fields[i].ty, j).value])
  {
    var ms := [Member(s.fields[i].name, j)];
    FieldIndexOf(s, i, 0);
    SortedEmpty(RequiredSet(s) - SeenSet(s, ms), 0, |s.fields|);
    SortedEmpty(RequiredSet(s) - SeenSet(s, []), 0, |s.fields|);
    var r, v := WithDefaults(s, recv), DecodeVal(s.fields[i].ty, j).value;
    assert ms[1..] == [];
    assert DecodeMembers(s, r[i := v], []) == Ok(r[i := v]);
    assert DecodeMembers(s, r, ms) == Ok(r[i := v]);
  }

  /** Decoding the member and then an empty object succeeds, and is not decoding the member. */
  ghost predicate UndoneByNothing(s: Schema, recv: seq<Value>, m: Member)
    requires |recv| == |s.fields|
  {
    && DecodeObject(s, recv, [m]).Ok?
    && |DecodeObject(s, recv, [m]).value| == |s.fields|
    && DecodeObject(s, DecodeObject(s, recv, [m]).value, []).Ok?
    && DecodeObject(s, DecodeObject(s, recv, [m]).value, []) != DecodeObject(s, recv, [m])
  }

  /** Giving a defaulted key another value than its default is undone by an empty update. */
  lemma SettingIsUndone(s: Schema, recv: seq<Value>, i: nat, j: Json)
    requires DistinctNames(s) && |recv| == |s.fields| && i < |s.fields| && RequiredSet(s) == {}
    requires DecodeVal(s.fields[i].ty, j).Ok? && s.fields[i].preset.Some?
    requires DecodeVal(s.fields[i].ty, j).value != s.fields[i].preset.value
    ensures UndoneByNothing(s, recv, Member(s.fields[i].name, j))
  {
    OneKey(s, recv, i, j);
    var mid := DecodeObject(s, recv, [Member(s.fields[i].name, j)]).value;
    assert mid[i] == DecodeVal(s.fields[i].ty, j).value;
    OneKey(s, mid, i, j);
    assert WithDefaults(s, mid)[i] == s.fields[i].preset.value;
  }

  /** Publishing an instructor and then sending an empty update is not publishing the instructor. */
  lemma InstructorUpdatesDoNotMerge(recv: seq<Value>)
    requires |recv| == |UPDATE_INSTRUCTOR.fields|
    ensures UndoneByNothing(UPDATE_INSTRUCTOR, recv, Member("published", JBool(true)))
  {
    PublishedField();
    UpdateInstructorNames();
    assert DecodeVal(TOpt(TBool), JBool(true)) == Ok(VOpt(true, VBool(true)));
    SettingIsUndone(UPDATE_INSTRUCTOR, recv, PUBLISHED, JBool(true));
  }

  lemma PublishedField()
    ensures UPDATE_INSTRUCTOR.fields[PUBLISHED] == OptOr("published", TBool, VBool(false))
    ensures RequiredSet(UPDATE_INSTRUCTOR) == {}
  {
    UpdateInstructorFields();
  }

  // ---- Nested arrays and batches --------------------------------------------------------

  /** expertiseIds: rows and their entries keep their order, and nil rows arrive empty. */
  lemma ExpertiseRows(rows: Value, j: Json)
    requires HasType(TSlice(TSlice(TStr)), rows) && IsEncoding(TSlice(TSlice(TStr)), rows, j)
    ensures DecodeVal(TSlice(TSlice(TStr)), j).Ok?
    ensures var got := DecodeVal(TSlice(TSlice(TStr)), j).value;
            && got.VSlice? && |got.elems| == |Elems(rows)|
            && forall i :: 0 <= i < |got.elems| ==>
                 HasType(TSlice(TStr), Elems(rows)[i]) && got.elems[i] == VSlice(Elems(Elems(rows)[i]))
  {
    DecodeEncode(TSlice(TSlice(TStr)), rows, j);
    forall i | 0 <= i < |Elems(rows)|
      ensures Norm(TSlice(TStr), Elems(rows)[i]) == VSlice(Elems(Elems(rows)[i]))
    {
      var row := Elems(rows)[i];
      assert HasType(TSlice(TStr), row);
      assert Norm(TSlice(TStr), row).elems == Elems(row);
    }
  }

  /** On the struct: a nil expertiseIds stays nil, an empty one stays empty. */
  lemma ExpertiseNilKept(v: Value)
    requires HasType(TSlice(TSlice(TStr)), v)
    ensures NormField(CREATE_INSTRUCTOR.fields[20], v) == VNil <==> v == VNil
    ensures NormField(CREATE_INSTRUCTOR.fields[20], v) == VSlice([]) <==> v == VSlice([])
  {
    var f := CREATE_INSTRUCTOR.fields[20];
    assert f == OptList("expertiseIds", TSlice(TStr));
    if v.VSlice? {
      assert |Norm(f.ty, v).elems| == |v.elems|;
    }
  }

  /** A batch of events: each event arrives in normal form, and a nil list arrives empty. */
  lemma BatchRoundTrip(events: Value, j: Json, rest: seq<Token>)
    requires HasType(TSlice(TStruct(CREATE_EVENT)), events)
    requires HasType(TStruct(BATCH_CREATE_EVENTS), VStruct([events]))
    requires IsEncoding(TStruct(BATCH_CREATE_EVENTS), VStruct([events]), j)
    ensures ParseValue(Tokens(j) + rest) == Some((j, rest))
    ensures DecodeVal(TStruct(BATCH_CREATE_EVENTS), j).Ok?
    ensures var got := DecodeVal(TStruct(BATCH_CREATE_EVENTS), j).value;
            && got.VStruct? && |got.fields| == 1 && got.fields[0].VSlice?
            && |got.fields[0].elems| == |Elems(events)|
            && forall i :: 0 <= i < |Elems(events)| ==>
                 got.fields[0].elems[i] == Norm(TStruct(CREATE_EVENT), Elems(events)[i])
  {
    BatchCreateEventsWf();
    ReadBack(TStruct(BATCH_CREATE_EVENTS), VStruct([events]), j, rest);
    assert FieldsHaveType(BATCH_CREATE_EVENTS, [events]);
    var ns := NormFields(BATCH_CREATE_EVENTS, [events]);
    assert BATCH_CREATE_EVENTS.fields[0] == Req("events", TSlice(TStruct(CREATE_EVENT)));
    assert ns[0] == NormField(BATCH_CREATE_EVENTS.fields[0], events);
    assert ns[0] == Norm(TSlice(TStruct(CREATE_EVENT)), events);
  }

  /** The metadata an event puts on the wire, if any, holds one value per key. */
  ghost predicate MetadataOk(event: Value) {
    && event.VStruct? && |event.fields| == 5 && event.fields[METADATA].VOpt?
    && (event.fields[METADATA].isSet ==> RawOk(event.fields[METADATA].val))
  }

  const METADATA := 4

  lemma EventRawOk(event: Value)
    requires HasType(TStruct(CREATE_EVENT), event)
    ensures RawOk(event) <==> MetadataOk(event)
  {
    var s, vs := CREATE_EVENT, event.fields;
    assert FieldsHaveType(s, vs);
    assert HasType(s.fields[0].ty, vs[0]) && HasType(s.fields[1].ty, vs[1]) && HasType(s.fields[2].ty, vs[2]);
    assert HasType(s.fields[3].ty, vs[3]) && HasType(s.fields[4].ty, vs[4]);
    assert HasType(TStr, vs[0].val) && HasType(TNum, vs[2].val) && HasType(TNum, vs[3].val);
    assert RawOk(vs[0].val) && RawOk(vs[2].val) && RawOk(vs[3].val);
    assert RawOk(vs[0]) && RawOk(vs[1]) && RawOk(vs[2]) && RawOk(vs[3]);
  }

  lemma ListRawOk(e: Ty, v: Value)
    requires HasType(TSlice(e), v)
    ensures RawOk(v) <==> forall i :: 0 <= i < |Elems(v)| ==> RawOk(Elems(v)[i])
  {
    match v
    case VNil =>
    case VSlice(es) =>
      assert Elems(v) == es;
      assert RawOk(v) <==> forall i :: 0 <= i < |es| ==> RawOk(es[i]);
  }

  /** A written batch reads back in normal form exactly when every event's metadata is one value per key. */
  lemma BatchRoundTripIff(events: Value, ts: seq<Token>, rest: seq<Token>)
    requires HasType(TSlice(TStruct(CREATE_EVENT)), events)
    requires HasType(TStruct(BATCH_CREATE_EVENTS), VStruct([events]))
    requires Written(TStruct(BATCH_CREATE_EVENTS), VStruct([events]), ts)
    ensures ReadsAs(TStruct(BATCH_CREATE_EVENTS), Norm(TStruct(BATCH_CREATE_EVENTS), VStruct([events])), ts, rest) <==>
            forall i :: 0 <= i < |Elems(events)| ==> MetadataOk(Elems(events)[i])
  {
    BatchCreateEventsWf();
    RoundTripIff(TStruct(BATCH_CREATE_EVENTS), VStruct([events]), ts, rest);
    assert RawOk(VStruct([events])) <==> RawOk([events][0]);
    ListRawOk(TStruct(CREATE_EVENT), events);
    forall i | 0 <= i < |Elems(events)|
      ensures RawOk(Elems(events)[i]) <==> MetadataOk(Elems(events)[i])
    {
      assert HasType(TStruct(CREATE_EVENT), Elems(events)[i]);
      EventRawOk(Elems(events)[i]);
    }
  }
}
