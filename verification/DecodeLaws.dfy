/** When Decode succeeds on an arbitrary object, what it stores, and what it does not depend on. */
module DecodeLaws {
  import opened Common
  import opened Json
  import opened RequiredFields
  import opened Schema
  import opened DecodeSpec

  /** The values given to a key, in stream order. */
  function Vals(ms: seq<Member>, key: string): seq<Json> {
    if ms == [] then [] else (if ms[0].key == key then [ms[0].val] else []) + Vals(ms[1..], key)
  }

  /** Every occurrence of every known key carries a value its field can hold. */
  ghost predicate AllDecodable(s: Schema, ms: seq<Member>) {
    forall i :: 0 <= i < |s.fields| ==> Decodable(s.fields[i], Vals(ms, s.fields[i].name))
  }

  ghost predicate Decodable(f: Field, js: seq<Json>) {
    forall k :: 0 <= k < |js| ==> DecodeVal(f.ty, js[k]).Ok?
  }

  /** What a field holds that held before and was then given the values js: the last one wins. */
  function LastWins(f: Field, before: Value, js: seq<Json>): Value
    requires js != [] ==> DecodeVal(f.ty, js[|js| - 1]).Ok?
  {
    if js == [] then before else DecodeVal(f.ty, js[|js| - 1]).value
  }

  // ---- Success and result ---------------------------------------------------------------

  lemma DecodableAppend(f: Field, xs: seq<Json>, ys: seq<Json>)
    ensures Decodable(f, xs + ys) <==> Decodable(f, xs) && Decodable(f, ys)
  {
    var zs := xs + ys;
    assert forall k :: 0 <= k < |xs| ==> zs[k] == xs[k];
    assert forall k :: 0 <= k < |ys| ==> ys[k] == zs[|xs| + k];
  }

  lemma DecodableHead(f: Field, ms: seq<Member>)
    requires ms != []
    ensures Decodable(f, Vals(ms, f.name)) <==>
            Decodable(f, Vals(ms[1..], f.name)) && (f.name == ms[0].key ==> DecodeVal(f.ty, ms[0].val).Ok?)
  {
    var head := if ms[0].key == f.name then [ms[0].val] else [];
    DecodableAppend(f, head, Vals(ms[1..], f.name));
    if ms[0].key == f.name {
      assert head[0] == ms[0].val;
    }
  }

  lemma DecodableCons(s: Schema, ms: seq<Member>)
    requires DistinctNames(s) && ms != []
    ensures AllDecodable(s, ms) <==>
            AllDecodable(s, ms[1..]) &&
            (FieldIndex(s, ms[0].key).Some? ==>
              DecodeVal(s.fields[FieldIndex(s, ms[0].key).value].ty, ms[0].val).Ok?)
  {
    forall i | 0 <= i < |s.fields|
      ensures Decodable(s.fields[i], Vals(ms, s.fields[i].name)) <==>
              Decodable(s.fields[i], Vals(ms[1..], s.fields[i].name)) &&
              (s.fields[i].name == ms[0].key ==> DecodeVal(s.fields[i].ty, ms[0].val).Ok?)
    {
      DecodableHead(s.fields[i], ms);
    }
    if FieldIndex(s, ms[0].key).Some? {
      var i := FieldIndex(s, ms[0].key).value;
      assert forall k :: 0 <= k < |s.fields| && s.fields[k].name == ms[0].key ==> k == i;
    }
  }

  /** Reading the first member and then the rest is reading them all. */
  lemma LastWinsCons(f: Field, before: Value, ms: seq<Member>)
    requires ms != [] && Decodable(f, Vals(ms, f.name)) && Decodable(f, Vals(ms[1..], f.name))
    requires ms[0].key == f.name ==> DecodeVal(f.ty, ms[0].val).Ok?
    ensures var now := if ms[0].key == f.name then DecodeVal(f.ty, ms[0].val).value else before;
            LastWins(f, before, Vals(ms, f.name)) == LastWins(f, now, Vals(ms[1..], f.name))
  {
    var tail := Vals(ms[1..], f.name);
    if ms[0].key != f.name {
      ConcatEmpty(tail);
    } else if tail != [] {
      assert ([ms[0].val] + tail)[|tail|] == tail[|tail| - 1];
    }
  }

  /** What DecodeMembers leaves in every field. */
  ghost predicate LastOnesWin(s: Schema, r: seq<Value>, ms: seq<Member>, out: seq<Value>)
    requires |r| == |s.fields| && AllDecodable(s, ms)
  {
    |out| == |r| &&
    forall i :: 0 <= i < |r| ==> out[i] == LastWins(s.fields[i], r[i], Vals(ms, s.fields[i].name))
  }

  lemma LastOnesWinCons(s: Schema, r: seq<Value>, ms: seq<Member>, now: seq<Value>, out: seq<Value>)
    requires DistinctNames(s) && |r| == |s.fields| == |now| && ms != []
    requires AllDecodable(s, ms) && AllDecodable(s, ms[1..]) && LastOnesWin(s, now, ms[1..], out)
    requires match FieldIndex(s, ms[0].key)
             case None => now == r
             case Some(i) => DecodeVal(s.fields[i].ty, ms[0].val).Ok? &&
                             now == r[i := DecodeVal(s.fields[i].ty, ms[0].val).value]
    ensures LastOnesWin(s, r, ms, out)
  {
    forall k | 0 <= k < |r|
      ensures out[k] == LastWins(s.fields[k], r[k], Vals(ms, s.fields[k].name))
    {
      if s.fields[k].name == ms[0].key {
        assert FieldIndex(s, ms[0].key).Some?;
        assert FieldIndex(s, ms[0].key).value == k;
      }
      LastWinsCons(s.fields[k], r[k], ms);
    }
  }

  lemma {:induction false} MembersExactly(s: Schema, r: seq<Value>, ms: seq<Member>)
    requires DistinctNames(s) && |r| == |s.fields|
    ensures DecodeMembers(s, r, ms).Ok? <==> AllDecodable(s, ms)
    ensures AllDecodable(s, ms) ==> LastOnesWin(s, r, ms, DecodeMembers(s, r, ms).value)
    decreases ms
  {
    if ms != [] {
      DecodableCons(s, ms);
      match FieldIndex(s, ms[0].key)
      case None =>
        MembersExactly(s, r, ms[1..]);
        if AllDecodable(s, ms) {
          LastOnesWinCons(s, r, ms, r, DecodeMembers(s, r, ms[1..]).value);
        }
      case Some(i) =>
        match DecodeVal(s.fields[i].ty, ms[0].val)
        case Err(_) =>
        case Ok(v) =>
          MembersExactly(s, r[i := v], ms[1..]);
          if AllDecodable(s, ms) {
            LastOnesWinCons(s, r, ms, r[i := v], DecodeMembers(s, r[i := v], ms[1..]).value);
          }
    }
  }

  lemma {:induction false} KeyHasVals(ms: seq<Member>, key: string)
    ensures HasKey(ms, key) <==> Vals(ms, key) != []
  {
    if ms != [] {
      KeyHasVals(ms[1..], key);
      assert ms[0] in ms;
      if HasKey(ms, key) && ms[0].key != key {
        var m :| m in ms && m.key == key;
        assert m in ms[1..];
      }
      if HasKey(ms[1..], key) {
        var m :| m in ms[1..] && m.key == key;
        assert m in ms;
      }
    }
  }

  lemma MissingIffUnseen(s: Schema, ms: seq<Member>)
    ensures MissingNames(s, ms) == [] <==>
            forall i :: 0 <= i < |s.fields| && s.fields[i].required ==> Vals(ms, s.fields[i].name) != []
  {
    var lost := RequiredSet(s) - SeenSet(s, ms);
    forall i | 0 <= i < |s.fields|
      ensures i in lost <==> s.fields[i].required && Vals(ms, s.fields[i].name) == []
    {
      KeyHasVals(ms, s.fields[i].name);
    }
    if i :| i in lost {
      SortedMembers(lost, 0, |s.fields|, i);
    } else {
      SortedEmpty(lost, 0, |s.fields|);
    }
  }

  /** The value of field i after a successful Decode into a receiver holding recv. */
  function FieldAfter(s: Schema, recv: seq<Value>, ms: seq<Member>, i: nat): Value
    requires |recv| == |s.fields| && i < |recv|
    requires Decodable(s.fields[i], Vals(ms, s.fields[i].name))
  {
    LastWins(s.fields[i], s.fields[i].preset.GetOr(recv[i]), Vals(ms, s.fields[i].name))
  }

  /** Success and result, by what each occurrence of a key decodes to: the last one wins. */
  lemma StoresLast(s: Schema, recv: seq<Value>, ms: seq<Member>)
    requires DistinctNames(s) && |recv| == |s.fields|
    ensures DecodeObject(s, recv, ms).Ok? <==>
            AllDecodable(s, ms) &&
            forall i :: 0 <= i < |s.fields| && s.fields[i].required ==> Vals(ms, s.fields[i].name) != []
    ensures DecodeObject(s, recv, ms).Ok? ==>
            |DecodeObject(s, recv, ms).value| == |recv| &&
            forall i :: 0 <= i < |recv| ==> DecodeObject(s, recv, ms).value[i] == FieldAfter(s, recv, ms, i)
  {
    MembersExactly(s, WithDefaults(s, recv), ms);
    MissingIffUnseen(s, ms);
  }

  /**
   Decode succeeds exactly when every occurrence of a known key has a value that fits and every
   required key occurs.  Each field then holds what the last value of its key reads as, and
   otherwise its default or, without one, what the receiver held.
   */
  lemma DecodeExactly(s: Schema, recv: seq<Value>, ms: seq<Member>)
    requires |recv| == |s.fields|
    ensures DecodeObject(s, recv, ms).Ok? <==> MembersFit(s, ms) && RequiredOccur(s, ms)
    ensures WfSchema(s) && DecodeObject(s, recv, ms).Ok? ==>
              var before := seq(|recv|, i requires 0 <= i < |recv| => s.fields[i].preset.GetOr(recv[i]));
              ObjectReads(s, before, ms, DecodeObject(s, recv, ms).value)
  {
    var before := seq(|recv|, i requires 0 <= i < |recv| => s.fields[i].preset.GetOr(recv[i]));
    assert before == WithDefaults(s, recv);
    DecodeMembersFit(s, before, ms);
    NothingMissingIff(s, ms);
    if WfSchema(s) && DecodeObject(s, recv, ms).Ok? {
      DecodeMembersRead(s, before, ms);
    }
  }

  /** When only required keys are missing, the error lists exactly those, once each, in field order. */
  lemma MissingError(s: Schema, recv: seq<Value>, ms: seq<Member>) returns (idxs: seq<nat>)
    requires |recv| == |s.fields| && MembersFit(s, ms) && !RequiredOccur(s, ms)
    ensures Increasing(idxs)
    ensures forall i: nat :: i in idxs <==> i < |s.fields| && s.fields[i].required && !Occurs(ms, s.fields[i].name)
    ensures DecodeObject(s, recv, ms) ==
            Err(MissingRequired(seq(|idxs|, k requires 0 <= k < |idxs| => NameAt(s, idxs[k]))))
  {
    var lost := RequiredSet(s) - SeenSet(s, ms);
    idxs := Sorted(lost, 0, |s.fields|);
    SortedIncreasing(lost, 0, |s.fields|);
    forall i: nat
      ensures i in idxs <==> i < |s.fields| && s.fields[i].required && !Occurs(ms, s.fields[i].name)
    {
      SortedMembers(lost, 0, |s.fields|, i);
      if i < |s.fields| {
        OccursIsHasKey(ms, s.fields[i].name);
      }
    }
    DecodeMembersFit(s, WithDefaults(s, recv), ms);
    NothingMissingIff(s, ms);
    var names := seq(|idxs|, k requires 0 <= k < |idxs| => NameAt(s, idxs[k]));
    NamesOfLength(FieldNames(s), idxs);
    forall k | 0 <= k < |idxs|
      ensures NamesOf(FieldNames(s), idxs)[k] == names[k]
    {
      NamesOfAt(FieldNames(s), idxs, k);
      assert idxs[k] in idxs;
    }
    assert NamesOf(FieldNames(s), idxs) == names;
  }

  /** The name of field i; a number outside the table has none. */
  function NameAt(s: Schema, i: nat): string {
    if i < |s.fields| then s.fields[i].name else ""
  }

  /**
   The first value that does not fit is the error, under its key and the struct, whatever follows and
   whatever is missing.
   */
  lemma FieldError(s: Schema, recv: seq<Value>, done: seq<Member>, m: Member, more: seq<Member>)
    returns (cause: DecodeError)
    requires |recv| == |s.fields| && MembersFit(s, done) && !MemberFits(s, m)
    ensures DecodeObject(s, recv, done + [m] + more) == Err(InType(s.typeName, InField(m.key, cause)))
    ensures exists i :: 0 <= i < |s.fields| && s.fields[i].name == m.key && !Fits(s.fields[i].ty, m.val) &&
                        DecodeVal(s.fields[i].ty, m.val) == Err(cause)
  {
    var i := FieldIndex(s, m.key).value;
    DecodeFits(s.fields[i].ty, m.val);
    cause := DecodeVal(s.fields[i].ty, m.val).error;
    ConcatAssoc(done, [m], more);
    MembersError(s, WithDefaults(s, recv), done, [m] + more);
  }

  lemma {:induction false} MembersError(s: Schema, r: seq<Value>, done: seq<Member>, rest: seq<Member>)
    requires |r| == |s.fields| && MembersFit(s, done) && rest != [] && !MemberFits(s, rest[0])
    ensures var f := s.fields[FieldIndex(s, rest[0].key).value];
            && DecodeVal(f.ty, rest[0].val).Err?
            && DecodeMembers(s, r, done + rest) == Err(InField(rest[0].key, DecodeVal(f.ty, rest[0].val).error))
    decreases |done|
  {
    DecodeFits(s.fields[FieldIndex(s, rest[0].key).value].ty, rest[0].val);
    if done == [] {
      ConcatEmpty(rest);
    } else {
      ConcatTail(done, rest);
      FitsCons(s, done);
      match FieldIndex(s, done[0].key)
      case None => MembersError(s, r, done[1..], rest);
      case Some(i) =>
        DecodeFits(s.fields[i].ty, done[0].val);
        MembersError(s, r[i := DecodeVal(s.fields[i].ty, done[0].val).value], done[1..], rest);
    }
  }

  /** The cause: a mismatch where the token is of another kind; options and slices pass on that of what they hold. */
  lemma {:induction false} ErrorCause(ty: Ty, j: Json)
    requires !Fits(ty, j)
    ensures DecodeVal(ty, j).Err?
    ensures ty.TStr? || ty.TNum? || ty.TBool? || (ty.TSlice? && !j.JArr?) ==> DecodeVal(ty, j) == Err(Mismatch)
    ensures ty.TMap? ==> DecodeVal(ty, j) == Err(InType(ty.typeName, Mismatch))
    ensures ty.TStruct? && !j.JObj? ==> DecodeVal(ty, j) == Err(InType(ty.schema.typeName, Mismatch))
    ensures ty.TOpt? ==> DecodeVal(ty, j) == Err(DecodeVal(ty.base, j).error)
    ensures ty.TSlice? && j.JArr? ==>
              exists k :: 0 <= k < |j.elems| && DecodeVal(ty.elem, j.elems[k]) == Err(DecodeVal(ty, j).error) &&
                          forall i :: 0 <= i < k ==> Fits(ty.elem, j.elems[i])
  {
    DecodeFits(ty, j);
    if ty.TSlice? && j.JArr? {
      var k := FirstBadElem(ty.elem, j.elems);
    }
  }

  lemma {:induction false} FirstBadElem(e: Ty, js: seq<Json>) returns (k: nat)
    requires DecodeElems(e, js).Err?
    ensures k < |js| && DecodeVal(e, js[k]) == Err(DecodeElems(e, js).error)
    ensures forall i :: 0 <= i < k ==> Fits(e, js[i])
  {
    DecodeFits(e, js[0]);
    if DecodeVal(e, js[0]).Err? {
      k := 0;
    } else {
      k := FirstBadElem(e, js[1..]);
      k := k + 1;
      assert forall i :: 0 < i < |js| ==> js[i] == js[1..][i - 1];
    }
  }

  // ---- What the result does not depend on -----------------------------------------------

  /** The two objects give every known key the same values in the same order. */
  ghost predicate SameOccurrences(s: Schema, a: seq<Member>, b: seq<Member>) {
    forall i :: 0 <= i < |s.fields| ==> Vals(a, s.fields[i].name) == Vals(b, s.fields[i].name)
  }

  /** Key order and unknown keys do not matter, as long as repeated keys keep their order. */
  lemma OrderIrrelevant(s: Schema, recv: seq<Value>, a: seq<Member>, b: seq<Member>)
    requires DistinctNames(s) && |recv| == |s.fields| && SameOccurrences(s, a, b)
    ensures DecodeObject(s, recv, a).Ok? <==> DecodeObject(s, recv, b).Ok?
    ensures AllDecodable(s, a) ==> DecodeObject(s, recv, a) == DecodeObject(s, recv, b)
  {
    StoresLast(s, recv, a);
    StoresLast(s, recv, b);
    MembersExactly(s, WithDefaults(s, recv), a);
    MembersExactly(s, WithDefaults(s, recv), b);
    forall i | 0 <= i < |s.fields|
      ensures i in SeenSet(s, a) <==> i in SeenSet(s, b)
    {
      KeyHasVals(a, s.fields[i].name);
      KeyHasVals(b, s.fields[i].name);
    }
    assert SeenSet(s, a) == SeenSet(s, b);
    if AllDecodable(s, a) {
      var x := DecodeMembers(s, WithDefaults(s, recv), a).value;
      var y := DecodeMembers(s, WithDefaults(s, recv), b).value;
      assert x == y;
    }
  }

  lemma {:induction false} ValsConcat(a: seq<Member>, b: seq<Member>, key: string)
    ensures Vals(a + b, key) == Vals(a, key) + Vals(b, key)
  {
    if a == [] {
      assert a + b == b;
    } else {
      var head := if a[0].key == key then [a[0].val] else [];
      ConcatTail(a, b);
      ValsConcat(a[1..], b, key);
      ConcatAssoc(head, Vals(a[1..], key), Vals(b, key));
    }
  }

  /** Unknown keys may be inserted anywhere. */
  lemma UnknownKeysIgnored(s: Schema, recv: seq<Value>, a: seq<Member>, m: Member, b: seq<Member>)
    requires DistinctNames(s) && |recv| == |s.fields| && FieldIndex(s, m.key).None?
    ensures DecodeObject(s, recv, a + [m] + b).Ok? <==> DecodeObject(s, recv, a + b).Ok?
    ensures AllDecodable(s, a + b) ==> DecodeObject(s, recv, a + [m] + b) == DecodeObject(s, recv, a + b)
  {
    forall i | 0 <= i < |s.fields|
      ensures Vals(a + b, s.fields[i].name) == Vals(a + [m] + b, s.fields[i].name)
    {
      var k := s.fields[i].name;
      ValsConcat(a, b, k);
      ValsAround(a, [m], b, k);
      assert Vals([m], k) == [];
      assert Vals(a, k) + [] + Vals(b, k) == Vals(a, k) + Vals(b, k);
    }
    OrderIrrelevant(s, recv, a + b, a + [m] + b);
  }

  lemma ValsAround(a: seq<Member>, mid: seq<Member>, b: seq<Member>, key: string)
    ensures Vals(a + mid + b, key) == Vals(a, key) + Vals(mid, key) + Vals(b, key)
  {
    ValsConcat(a + mid, b, key);
    ValsConcat(a, mid, key);
  }

  lemma ValsOfPair(m: Member, n: Member, key: string)
    ensures Vals([m, n], key) == (if m.key == key then [m.val] else []) + (if n.key == key then [n.val] else [])
  {
    assert [m, n][1..] == [n];
    assert Vals([n], key) == if n.key == key then [n.val] else [];
  }

  /** Neighbours with different keys may be exchanged. */
  lemma NeighboursCommute(s: Schema, recv: seq<Value>, a: seq<Member>, m: Member, n: Member, b: seq<Member>)
    requires DistinctNames(s) && |recv| == |s.fields| && m.key != n.key
    ensures DecodeObject(s, recv, a + [m, n] + b).Ok? <==> DecodeObject(s, recv, a + [n, m] + b).Ok?
    ensures AllDecodable(s, a + [m, n] + b) ==>
            DecodeObject(s, recv, a + [m, n] + b) == DecodeObject(s, recv, a + [n, m] + b)
  {
    forall i | 0 <= i < |s.fields|
      ensures Vals(a + [m, n] + b, s.fields[i].name) == Vals(a + [n, m] + b, s.fields[i].name)
    {
      ValsAround(a, [m, n], b, s.fields[i].name);
      ValsAround(a, [n, m], b, s.fields[i].name);
      ValsOfPair(m, n, s.fields[i].name);
      ValsOfPair(n, m, s.fields[i].name);
    }
    OrderIrrelevant(s, recv, a + [m, n] + b, a + [n, m] + b);
  }

  // ---- Decoding twice into one receiver -------------------------------------------------

  ghost predicate NoDefaults(s: Schema) {
    forall i :: 0 <= i < |s.fields| ==> s.fields[i].preset.None?
  }

  lemma DecodableConcat(s: Schema, a: seq<Member>, b: seq<Member>)
    ensures AllDecodable(s, a + b) <==> AllDecodable(s, a) && AllDecodable(s, b)
  {
    forall i | 0 <= i < |s.fields|
      ensures Decodable(s.fields[i], Vals(a + b, s.fields[i].name)) <==>
              Decodable(s.fields[i], Vals(a, s.fields[i].name)) && Decodable(s.fields[i], Vals(b, s.fields[i].name))
    {
      ValsConcat(a, b, s.fields[i].name);
      DecodableAppend(s.fields[i], Vals(a, s.fields[i].name), Vals(b, s.fields[i].name));
    }
  }

  /** The second Decode puts a default over field i although the first one stored something else. */
  ghost predicate DefaultOverwrites(s: Schema, a: seq<Member>, b: seq<Member>, i: nat)
    requires i < |s.fields| && Decodable(s.fields[i], Vals(a, s.fields[i].name))
  {
    var f := s.fields[i];
    && f.preset.Some?
    && Vals(b, f.name) == []
    && Vals(a, f.name) != []
    && LastWins(f, f.preset.value, Vals(a, f.name)) != f.preset.value
  }

  /**
   Decoding a and then b into one receiver is decoding a + b exactly when no key of a that b
   leaves out is reset to a different default.
   */
  lemma DecodeTwice(s: Schema, recv: seq<Value>, a: seq<Member>, b: seq<Member>)
    requires DistinctNames(s) && |recv| == |s.fields|
    requires DecodeObject(s, recv, a).Ok? && DecodeObject(s, DecodeObject(s, recv, a).value, b).Ok?
    ensures DecodeObject(s, recv, a + b).Ok?
    ensures AllDecodable(s, a)
    ensures DecodeObject(s, DecodeObject(s, recv, a).value, b) == DecodeObject(s, recv, a + b) <==>
            forall i :: 0 <= i < |s.fields| ==> !DefaultOverwrites(s, a, b, i)
  {
    StoresLast(s, recv, a);
    var mid := DecodeObject(s, recv, a).value;
    StoresLast(s, mid, b);
    StoresLast(s, recv, a + b);
    DecodableConcat(s, a, b);
    forall i | 0 <= i < |s.fields|
      ensures Vals(a + b, s.fields[i].name) == Vals(a, s.fields[i].name) + Vals(b, s.fields[i].name)
    {
      ValsConcat(a, b, s.fields[i].name);
    }
    var twice, once := DecodeObject(s, mid, b).value, DecodeObject(s, recv, a + b).value;
    forall i | 0 <= i < |s.fields|
      ensures twice[i] == once[i] <==> !DefaultOverwrites(s, a, b, i)
    {
      FieldTwice(s.fields[i], recv[i], Vals(a, s.fields[i].name), Vals(b, s.fields[i].name));
    }
    assert twice == once <==> forall i :: 0 <= i < |twice| ==> twice[i] == once[i];
  }

  /** One field, decoded twice and decoded once from the concatenation. */
  lemma FieldTwice(f: Field, before: Value, va: seq<Json>, vb: seq<Json>)
    requires Decodable(f, va) && Decodable(f, vb) && Decodable(f, va + vb)
    ensures var mid := LastWins(f, f.preset.GetOr(before), va);
            LastWins(f, f.preset.GetOr(mid), vb) == LastWins(f, f.preset.GetOr(before), va + vb) <==>
            !(f.preset.Some? && vb == [] && va != [] && LastWins(f, f.preset.value, va) != f.preset.value)
  {
    if vb != [] {
      assert (va + vb)[|va + vb| - 1] == vb[|vb| - 1];
    } else {
      assert va + vb == va;
    }
  }

  /** Without defaults and required keys, two decodes are one decode of the concatenation. */
  lemma DecodeTwiceIsConcat(s: Schema, recv: seq<Value>, a: seq<Member>, b: seq<Member>)
    requires DistinctNames(s) && |recv| == |s.fields| && NoDefaults(s) && RequiredSet(s) == {}
    ensures DecodeObject(s, recv, a + b).Ok? <==>
            DecodeObject(s, recv, a).Ok? && DecodeObject(s, DecodeObject(s, recv, a).value, b).Ok?
    ensures DecodeObject(s, recv, a + b).Ok? ==>
            DecodeObject(s, DecodeObject(s, recv, a).value, b) == DecodeObject(s, recv, a + b)
    ensures DecodeObject(s, recv, a).Ok? ==>
            forall i :: 0 <= i < |recv| && Vals(a, s.fields[i].name) == [] ==>
              DecodeObject(s, recv, a).value[i] == recv[i]
  {
    assert forall i :: 0 <= i < |s.fields| && s.fields[i].required ==> i in RequiredSet(s);
    DecodableConcat(s, a, b);
    StoresLast(s, recv, a + b);
    StoresLast(s, recv, a);
    if DecodeObject(s, recv, a).Ok? {
      StoresLast(s, DecodeObject(s, recv, a).value, b);
      if DecodeObject(s, recv, a + b).Ok? {
        DecodeTwice(s, recv, a, b);
      }
    }
  }

  /** A member whose value is what the field holds by default anyway changes nothing. */
  lemma DefaultGiven(f: Field, before: Value, js: seq<Json>, extra: seq<Json>)
    requires Decodable(f, js) && Decodable(f, js + extra)
    requires extra != [] ==> js == [] && |extra| == 1 && DecodeVal(f.ty, extra[0]) == Ok(before)
    ensures LastWins(f, before, js + extra) == LastWins(f, before, js)
  {
    if extra == [] {
      assert js + extra == js;
    } else {
      assert js + extra == extra;
    }
  }

  lemma StillDecodable(s: Schema, b: seq<Member>, i: nat, j: Json)
    requires DistinctNames(s) && i < |s.fields| && AllDecodable(s, b) && DecodeVal(s.fields[i].ty, j).Ok?
    ensures AllDecodable(s, b + [Member(s.fields[i].name, j)])
  {
    var b' := b + [Member(s.fields[i].name, j)];
    AppendedVals(s, b, i, j);
    forall k | 0 <= k < |s.fields|
      ensures Decodable(s.fields[k], Vals(b', s.fields[k].name))
    {
      DecodableAppend(s.fields[k], Vals(b, s.fields[k].name), if k == i then [j] else []);
    }
  }

  /** A defaulted key left out decodes like the key given with its default value. */
  lemma AbsentIsDefault(s: Schema, recv: seq<Value>, b: seq<Member>, i: nat, j: Json)
    requires DistinctNames(s) && |recv| == |s.fields| && i < |s.fields|
    requires s.fields[i].preset.Some? && DecodeVal(s.fields[i].ty, j) == Ok(s.fields[i].preset.value)
    requires !s.fields[i].required && Vals(b, s.fields[i].name) == [] && AllDecodable(s, b)
    ensures DecodeObject(s, recv, b) == DecodeObject(s, recv, b + [Member(s.fields[i].name, j)])
    ensures DecodeObject(s, recv, b).Ok? ==> DecodeObject(s, recv, b).value[i] == s.fields[i].preset.value
  {
    var b', r := b + [Member(s.fields[i].name, j)], WithDefaults(s, recv);
    StillDecodable(s, b, i, j);
    MissingUnchanged(s, b, i, j);
    MembersExactly(s, r, b);
    MembersExactly(s, r, b');
    assert DecodeMembers(s, r, b).value == DecodeMembers(s, r, b').value by {
      AppendedVals(s, b, i, j);
      forall k | 0 <= k < |s.fields|
        ensures DecodeMembers(s, r, b').value[k] == DecodeMembers(s, r, b).value[k]
      {
        DefaultGiven(s.fields[k], r[k], Vals(b, s.fields[k].name), if k == i then [j] else []);
      }
    }
  }

  lemma AppendedVals(s: Schema, b: seq<Member>, i: nat, j: Json)
    requires DistinctNames(s) && i < |s.fields|
    ensures forall k :: 0 <= k < |s.fields| ==>
              Vals(b + [Member(s.fields[i].name, j)], s.fields[k].name) ==
              Vals(b, s.fields[k].name) + (if k == i then [j] else [])
  {
    var m := Member(s.fields[i].name, j);
    forall k | 0 <= k < |s.fields|
      ensures Vals(b + [m], s.fields[k].name) == Vals(b, s.fields[k].name) + (if k == i then [j] else [])
    {
      ValsConcat(b, [m], s.fields[k].name);
      assert Vals([m], s.fields[k].name) == (if k == i then [j] else []);
    }
  }

  lemma MissingUnchanged(s: Schema, b: seq<Member>, i: nat, j: Json)
    requires DistinctNames(s) && i < |s.fields| && !s.fields[i].required
    ensures MissingNames(s, b) == MissingNames(s, b + [Member(s.fields[i].name, j)])
  {
    var b' := b + [Member(s.fields[i].name, j)];
    AppendedVals(s, b, i, j);
    forall k | 0 <= k < |s.fields|
      ensures k in RequiredSet(s) - SeenSet(s, b) <==> k in RequiredSet(s) - SeenSet(s, b')
    {
      KeyHasVals(b, s.fields[k].name);
      KeyHasVals(b', s.fields[k].name);
    }
    assert RequiredSet(s) - SeenSet(s, b) == RequiredSet(s) - SeenSet(s, b');
  }
}
