/**
 What decodes and to what, said on JSON alone: which values fit a type, and how a decoded value
 relates to the JSON it came from.  The decoder is proved to meet exactly this.
 */
module DecodeSpec {
  import opened Common
  import opened Json
  import opened RequiredFields
  import opened Schema

  // ---- Which JSON fits a type -----------------------------------------------------------

  ghost predicate Fits(ty: Ty, j: Json)
    decreases j, 2, ty
  {
    match ty
    case TStr => j.JStr?
    case TNum => j.JNum?
    case TBool => j.JBool?
    case TOpt(base) => Fits(base, j)
    case TSlice(e) => j.JArr? && forall k :: 0 <= k < |j.elems| ==> Fits(e, j.elems[k])
    case TStruct(s) => j.JObj? && MembersFit(s, j.members) && RequiredOccur(s, j.members)
    case TMap(_) => j.JObj?
  }

  /** Every occurrence of a known key has a value that fits its field. */
  ghost predicate MembersFit(s: Schema, ms: seq<Member>)
    decreases ms, 1
  {
    forall k :: 0 <= k < |ms| ==> MemberFits(s, ms[k])
  }

  ghost predicate MemberFits(s: Schema, m: Member)
    decreases m, 0
  {
    match FieldIndex(s, m.key)
    case None => true
    case Some(i) => Fits(s.fields[i].ty, m.val)
  }

  ghost predicate RequiredOccur(s: Schema, ms: seq<Member>) {
    forall i :: 0 <= i < |s.fields| && s.fields[i].required ==> Occurs(ms, s.fields[i].name)
  }

  ghost predicate Occurs(ms: seq<Member>, key: string) {
    exists k :: 0 <= k < |ms| && ms[k].key == key
  }

  /** Member k is the last one with its key. */
  ghost predicate IsLast(ms: seq<Member>, k: nat) {
    k < |ms| && forall m :: k < m < |ms| ==> ms[m].key != ms[k].key
  }

  // ---- What a decoded value holds -------------------------------------------------------

  /** v is what a variable of the type holds after j was decoded into it. */
  ghost predicate Reads(ty: Ty, j: Json, v: Value)
    decreases j, 2, ty
  {
    match ty
    case TStr => v.VStr? && j == JStr(v.s)
    case TNum => v.VNum? && j == JNum(v.n)
    case TBool => v.VBool? && j == JBool(v.b)
    case TOpt(base) => v.VOpt? && v.isSet && Reads(base, j, v.val)
    case TSlice(e) =>
      && j.JArr? && v.VSlice? && |v.elems| == |j.elems|
      && forall k :: 0 <= k < |j.elems| ==> Reads(e, j.elems[k], v.elems[k])
    case TStruct(s) =>
      && j.JObj? && v.VStruct? && |v.fields| == |s.fields|
      && (forall k :: 0 <= k < |j.members| && IsLast(j.members, k) ==> MemberReads(s, j.members[k], v.fields))
      && KeysAbsent(s, j.members, v.fields)
    case TMap(_) => j.JObj? && v.VMap? && MapReads(map[], j.members, v.raw)
  }

  /** A known key has put its value into its field. */
  ghost predicate MemberReads(s: Schema, m: Member, after: seq<Value>)
    requires |after| == |s.fields|
    decreases m, 0
  {
    match FieldIndex(s, m.key)
    case None => true
    case Some(i) => Reads(s.fields[i].ty, m.val, after[i])
  }

  /** In a fresh struct, a field whose key does not occur holds its default, or else the zero value. */
  ghost predicate KeysAbsent(s: Schema, ms: seq<Member>, after: seq<Value>)
    requires |after| == |s.fields|
  {
    forall i :: 0 <= i < |after| && !Occurs(ms, s.fields[i].name) ==>
      after[i] == s.fields[i].preset.GetOr(Zero(s.fields[i].ty))
  }

  /** A receiver of field values before, after the members were decoded into it. */
  ghost predicate ObjectReads(s: Schema, before: seq<Value>, ms: seq<Member>, after: seq<Value>)
    requires |before| == |s.fields|
  {
    && |after| == |s.fields|
    && (forall k :: 0 <= k < |ms| && IsLast(ms, k) ==> MemberReads(s, ms[k], after))
    && (forall i :: 0 <= i < |after| && !Occurs(ms, s.fields[i].name) ==> after[i] == before[i])
  }

  /** A map of entries before, after the members were stored in it: the last text of each key. */
  ghost predicate MapReads(before: map<string, seq<Token>>, ms: seq<Member>, after: map<string, seq<Token>>) {
    && (forall k :: 0 <= k < |ms| && IsLast(ms, k) ==> ms[k].key in after && after[ms[k].key] == Tokens(ms[k].val))
    && (forall key :: key in before && !Occurs(ms, key) ==> key in after && after[key] == before[key])
    && (forall key :: key in after ==> key in before || Occurs(ms, key))
  }

  // ---- Members one by one ---------------------------------------------------------------

  lemma OccursCons(ms: seq<Member>, key: string)
    requires ms != []
    ensures Occurs(ms, key) <==> ms[0].key == key || Occurs(ms[1..], key)
  {
    if Occurs(ms[1..], key) {
      var k :| 0 <= k < |ms[1..]| && ms[1..][k].key == key;
      assert ms[k + 1].key == key;
    }
    if Occurs(ms, key) && ms[0].key != key {
      var k :| 0 <= k < |ms| && ms[k].key == key;
      assert ms[1..][k - 1].key == key;
    }
  }

  lemma LastCons(ms: seq<Member>, k: nat)
    requires ms != []
    ensures k > 0 ==> (IsLast(ms, k) <==> IsLast(ms[1..], k - 1))
    ensures IsLast(ms, 0) <==> !Occurs(ms[1..], ms[0].key)
  {
    assert forall m :: 0 <= m < |ms[1..]| ==> ms[1..][m] == ms[m + 1];
    assert forall m :: 0 < m < |ms| ==> ms[m] == ms[1..][m - 1];
  }

  lemma FitsCons(s: Schema, ms: seq<Member>)
    requires ms != []
    ensures MembersFit(s, ms) <==> MemberFits(s, ms[0]) && MembersFit(s, ms[1..])
  {
    assert forall k :: 0 <= k < |ms[1..]| ==> ms[1..][k] == ms[k + 1];
    assert forall k :: 0 < k < |ms| ==> ms[k] == ms[1..][k - 1];
  }

  /** The first member stored and the rest read is all of them read. */
  lemma ReadsCons(s: Schema, before: seq<Value>, now: seq<Value>, ms: seq<Member>, after: seq<Value>)
    requires |before| == |now| == |s.fields| && ms != [] && ObjectReads(s, now, ms[1..], after)
    requires match FieldIndex(s, ms[0].key)
             case None => now == before
             case Some(i) => Reads(s.fields[i].ty, ms[0].val, now[i]) && now == before[i := now[i]] &&
                             forall m :: 0 <= m < |s.fields| && s.fields[m].name == ms[0].key ==> m == i
    ensures ObjectReads(s, before, ms, after)
  {
    forall k | 0 <= k < |ms| && IsLast(ms, k)
      ensures MemberReads(s, ms[k], after)
    {
      LastCons(ms, k);
      if k > 0 {
        assert ms[1..][k - 1] == ms[k];
      } else {
        match FieldIndex(s, ms[0].key)
        case None =>
        case Some(i) =>
          assert !Occurs(ms[1..], s.fields[i].name);
          assert after[i] == now[i];
      }
    }
    forall i | 0 <= i < |after| && !Occurs(ms, s.fields[i].name)
      ensures after[i] == before[i]
    {
      OccursCons(ms, s.fields[i].name);
    }
  }

  // ---- The decoder meets it -------------------------------------------------------------

  lemma OccursIsHasKey(ms: seq<Member>, key: string)
    ensures Occurs(ms, key) <==> HasKey(ms, key)
  {
    if HasKey(ms, key) {
      var m :| m in ms && m.key == key;
      var k :| 0 <= k < |ms| && ms[k] == m;
    }
    if Occurs(ms, key) {
      var k :| 0 <= k < |ms| && ms[k].key == key;
      assert ms[k] in ms;
    }
  }

  lemma NothingMissingIff(s: Schema, ms: seq<Member>)
    ensures MissingNames(s, ms) == [] <==> RequiredOccur(s, ms)
  {
    var lost := RequiredSet(s) - SeenSet(s, ms);
    forall i | 0 <= i < |s.fields|
      ensures i in lost <==> s.fields[i].required && !Occurs(ms, s.fields[i].name)
    {
      OccursIsHasKey(ms, s.fields[i].name);
    }
    if i :| i in lost {
      SortedMembers(lost, 0, |s.fields|, i);
    } else {
      SortedEmpty(lost, 0, |s.fields|);
    }
  }

  /** Decode succeeds exactly on the JSON that fits. */
  lemma {:induction false} DecodeFits(ty: Ty, j: Json)
    ensures DecodeVal(ty, j).Ok? <==> Fits(ty, j)
    decreases j, 2, ty
  {
    match ty
    case TOpt(base) => DecodeFits(base, j);
    case TSlice(e) =>
      if j.JArr? {
        DecodeElemsFit(e, j.elems);
      }
    case TStruct(s) =>
      if j.JObj? {
        DecodeMembersFit(s, WithDefaults(s, ZeroFields(s)), j.members);
        NothingMissingIff(s, j.members);
      }
    case _ =>
  }

  lemma {:induction false} DecodeElemsFit(e: Ty, js: seq<Json>)
    ensures DecodeElems(e, js).Ok? <==> forall k :: 0 <= k < |js| ==> Fits(e, js[k])
    decreases js, 0
  {
    if js != [] {
      DecodeFits(e, js[0]);
      DecodeElemsFit(e, js[1..]);
      assert forall k :: 0 < k < |js| ==> js[k] == js[1..][k - 1];
      assert forall k :: 0 <= k < |js[1..]| ==> js[1..][k] == js[k + 1];
    }
  }

  lemma {:induction false} DecodeMembersFit(s: Schema, r: seq<Value>, ms: seq<Member>)
    requires |r| == |s.fields|
    ensures DecodeMembers(s, r, ms).Ok? <==> MembersFit(s, ms)
    decreases ms, 0
  {
    if ms != [] {
      FitsCons(s, ms);
      match FieldIndex(s, ms[0].key)
      case None => DecodeMembersFit(s, r, ms[1..]);
      case Some(i) =>
        DecodeFits(s.fields[i].ty, ms[0].val);
        match DecodeVal(s.fields[i].ty, ms[0].val)
        case Err(_) =>
        case Ok(v) => DecodeMembersFit(s, r[i := v], ms[1..]);
    }
  }

  /** What Decode returns is what the JSON reads as. */
  lemma {:induction false} DecodeReads(ty: Ty, j: Json)
    requires WfTy(ty) && DecodeVal(ty, j).Ok?
    ensures Reads(ty, j, DecodeVal(ty, j).value)
    decreases j, 2, ty
  {
    match ty
    case TOpt(base) => DecodeReads(base, j);
    case TSlice(e) => DecodeElemsRead(e, j.elems);
    case TStruct(s) =>
      DecodeMembersRead(s, WithDefaults(s, ZeroFields(s)), j.members);
      assert forall i :: 0 <= i < |s.fields| ==> ZeroFields(s)[i] == Zero(s.fields[i].ty);
    case TMap(_) => StoredEntries(map[], j.members);
    case _ =>
  }

  lemma {:induction false} DecodeElemsRead(e: Ty, js: seq<Json>)
    requires WfTy(e) && DecodeElems(e, js).Ok?
    ensures |DecodeElems(e, js).value| == |js|
    ensures forall k :: 0 <= k < |js| ==> Reads(e, js[k], DecodeElems(e, js).value[k])
    decreases js, 0
  {
    if js != [] {
      DecodeReads(e, js[0]);
      DecodeElemsRead(e, js[1..]);
      assert forall k :: 0 < k < |js| ==> js[k] == js[1..][k - 1];
    }
  }

  lemma {:induction false} DecodeMembersRead(s: Schema, r: seq<Value>, ms: seq<Member>)
    requires WfSchema(s) && |r| == |s.fields| && DecodeMembers(s, r, ms).Ok?
    ensures ObjectReads(s, r, ms, DecodeMembers(s, r, ms).value)
    decreases ms, 0
  {
    if ms != [] {
      match FieldIndex(s, ms[0].key)
      case None =>
        DecodeMembersRead(s, r, ms[1..]);
        ReadsCons(s, r, r, ms, DecodeMembers(s, r, ms).value);
      case Some(i) =>
        var v := DecodeVal(s.fields[i].ty, ms[0].val).value;
        assert WfField(s.fields[i]);
        DecodeReads(s.fields[i].ty, ms[0].val);
        DecodeMembersRead(s, r[i := v], ms[1..]);
        ReadsCons(s, r, r[i := v], ms, DecodeMembers(s, r, ms).value);
    }
  }

  /** Storing the members one by one leaves the last text of each key. */
  lemma {:induction false} StoredEntries(before: map<string, seq<Token>>, ms: seq<Member>)
    ensures MapReads(before, ms, RawEntries(before, ms))
    decreases ms
  {
    if ms != [] {
      var now, after := before[ms[0].key := Tokens(ms[0].val)], RawEntries(before, ms);
      StoredEntries(now, ms[1..]);
      forall k | 0 <= k < |ms| && IsLast(ms, k)
        ensures ms[k].key in after && after[ms[k].key] == Tokens(ms[k].val)
      {
        LastCons(ms, k);
        if k > 0 {
          assert ms[1..][k - 1] == ms[k];
        }
      }
      forall key | key in before && !Occurs(ms, key)
        ensures key in after && after[key] == before[key]
      {
        OccursCons(ms, key);
      }
      forall key | key in after
        ensures key in before || Occurs(ms, key)
      {
        OccursCons(ms, key);
      }
    }
  }

  // ---- The relation is a function -------------------------------------------------------

  /** Every key that occurs has a last occurrence. */
  lemma {:induction false} LastExists(ms: seq<Member>, key: string) returns (k: nat)
    requires Occurs(ms, key)
    ensures IsLast(ms, k) && ms[k].key == key
  {
    OccursCons(ms, key);
    if Occurs(ms[1..], key) {
      var n := LastExists(ms[1..], key);
      k := n + 1;
      LastCons(ms, k);
      assert ms[k] == ms[1..][n];
    } else {
      k := 0;
      LastCons(ms, 0);
    }
  }

  /** JSON reads as one value only, so Reads and Fits together say exactly what Decode returns. */
  lemma {:induction false} ReadsUnique(ty: Ty, j: Json, v: Value, w: Value)
    requires WfTy(ty) && Reads(ty, j, v) && Reads(ty, j, w)
    ensures v == w
    decreases j, 2, ty
  {
    match ty
    case TOpt(base) => ReadsUnique(base, j, v.val, w.val);
    case TSlice(e) =>
      forall k | 0 <= k < |j.elems|
        ensures v.elems[k] == w.elems[k]
      {
        ReadsUnique(e, j.elems[k], v.elems[k], w.elems[k]);
      }
      assert v.elems == w.elems;
    case TStruct(s) =>
      forall i | 0 <= i < |s.fields|
        ensures v.fields[i] == w.fields[i]
      {
        FieldUnique(s, j.members, v.fields, w.fields, i);
      }
      assert v.fields == w.fields;
    case TMap(_) => MapUnique(j.members, v.raw, w.raw);
    case _ =>
  }

  lemma {:induction false} FieldUnique(s: Schema, ms: seq<Member>, v: seq<Value>, w: seq<Value>, i: nat)
    requires WfSchema(s) && |v| == |w| == |s.fields| && i < |s.fields|
    requires forall k :: 0 <= k < |ms| && IsLast(ms, k) ==> MemberReads(s, ms[k], v) && MemberReads(s, ms[k], w)
    requires KeysAbsent(s, ms, v) && KeysAbsent(s, ms, w)
    ensures v[i] == w[i]
    decreases ms, 1
  {
    if Occurs(ms, s.fields[i].name) {
      var k := LastExists(ms, s.fields[i].name);
      assert MemberReads(s, ms[k], v) && MemberReads(s, ms[k], w);
      assert FieldIndex(s, ms[k].key) == Some(i);
      assert WfField(s.fields[i]);
      ReadsUnique(s.fields[i].ty, ms[k].val, v[i], w[i]);
    }
  }

  lemma MapUnique(ms: seq<Member>, v: map<string, seq<Token>>, w: map<string, seq<Token>>)
    requires MapReads(map[], ms, v) && MapReads(map[], ms, w)
    ensures v == w
  {
    forall key
      ensures key in v <==> key in w
      ensures key in v ==> v[key] == w[key]
    {
      if Occurs(ms, key) {
        var k := LastExists(ms, key);
      }
    }
  }

  /** Decode, said on JSON alone. */
  lemma DecodeIs(ty: Ty, j: Json, v: Value)
    requires WfTy(ty)
    ensures DecodeVal(ty, j) == Ok(v) <==> Fits(ty, j) && Reads(ty, j, v)
  {
    DecodeFits(ty, j);
    if DecodeVal(ty, j).Ok? {
      DecodeReads(ty, j);
      if Reads(ty, j, v) {
        ReadsUnique(ty, j, v, DecodeVal(ty, j).value);
      }
    }
  }
}
