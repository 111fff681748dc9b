/**
 What one key of a generated DTO carries: what Encode writes under it, and what Decode makes of it.
 */
module WireKeys {
  import opened Common
  import opened Json
  import opened Schema
  import opened RoundTrip
  import opened DecodeSpec
  import opened DecodeLaws
  import opened GoStructs

  // ---- Encode ---------------------------------------------------------------------------

  /** ms are the members Encode writes for a struct of field values vs. */
  ghost predicate OnWire(s: Schema, vs: seq<Value>, ms: seq<Member>) {
    DistinctNames(s) && FieldsHaveType(s, vs) && FieldsEncode(s, vs, 0, ms)
  }

  /** Fields from k on write no key of an earlier field. */
  lemma {:induction false} NoEarlierKey(s: Schema, vs: seq<Value>, k: nat, ms: seq<Member>, i: nat)
    requires DistinctNames(s) && FieldsHaveType(s, vs) && i < k <= |vs| && FieldsEncode(s, vs, k, ms)
    ensures Vals(ms, s.fields[i].name) == []
    decreases |vs| - k
  {
    if k < |vs| {
      if Emitted(s.fields[k], vs[k]) {
        assert s.fields[i].name != s.fields[k].name;
        NoEarlierKey(s, vs, k + 1, ms[1..], i);
      } else {
        NoEarlierKey(s, vs, k + 1, ms, i);
      }
    }
  }

  /** What stands under the key of a field: one value that encodes it, or nothing. */
  ghost predicate KeyWritten(s: Schema, vs: seq<Value>, i: nat, js: seq<Json>)
    requires FieldsHaveType(s, vs) && i < |vs|
  {
    if Emitted(s.fields[i], vs[i]) then |js| == 1 && IsEncoding(s.fields[i].ty, vs[i], js[0]) else js == []
  }

  lemma {:induction false} KeyOnWireFrom(s: Schema, vs: seq<Value>, k: nat, ms: seq<Member>, i: nat)
    requires DistinctNames(s) && FieldsHaveType(s, vs) && k <= i < |vs| && FieldsEncode(s, vs, k, ms)
    ensures KeyWritten(s, vs, i, Vals(ms, s.fields[i].name))
    decreases |vs| - k
  {
    if k == i {
      if Emitted(s.fields[k], vs[k]) {
        NoEarlierKey(s, vs, k + 1, ms[1..], i);
        ConcatEmpty([ms[0].val]);
      } else {
        NoEarlierKey(s, vs, k + 1, ms, i);
      }
    } else if Emitted(s.fields[k], vs[k]) {
      assert s.fields[k].name != s.fields[i].name;
      KeyOnWireFrom(s, vs, k + 1, ms[1..], i);
      ConcatEmpty(Vals(ms[1..], s.fields[i].name));
    } else {
      KeyOnWireFrom(s, vs, k + 1, ms, i);
    }
  }

  /** Member a of what fields from k on write is under the key of some field i from k on. */
  lemma {:induction false} KeyOfMember(s: Schema, vs: seq<Value>, k: nat, ms: seq<Member>, a: nat) returns (i: nat)
    requires FieldsHaveType(s, vs) && k <= |vs| && FieldsEncode(s, vs, k, ms) && a < |ms|
    ensures k <= i < |s.fields| && ms[a].key == s.fields[i].name
    decreases |vs| - k
  {
    if Emitted(s.fields[k], vs[k]) {
      i := k;
      if a > 0 {
        i := KeyOfMember(s, vs, k + 1, ms[1..], a - 1);
      }
    } else {
      i := KeyOfMember(s, vs, k + 1, ms, a);
    }
  }

  /** Keys are written in the order of the table, each at most once. */
  lemma {:induction false} KeysInOrder(s: Schema, vs: seq<Value>, k: nat, ms: seq<Member>, a: nat, b: nat)
    returns (i: nat, n: nat)
    requires FieldsHaveType(s, vs) && k <= |vs| && FieldsEncode(s, vs, k, ms) && a < b < |ms|
    ensures k <= i < n < |s.fields| && ms[a].key == s.fields[i].name && ms[b].key == s.fields[n].name
    decreases |vs| - k
  {
    if Emitted(s.fields[k], vs[k]) {
      if a == 0 {
        i := k;
        n := KeyOfMember(s, vs, k + 1, ms[1..], b - 1);
      } else {
        i, n := KeysInOrder(s, vs, k + 1, ms[1..], a - 1, b - 1);
      }
    } else {
      i, n := KeysInOrder(s, vs, k + 1, ms, a, b);
    }
  }

  /** Every key written is a key of the table. */
  lemma {:induction false} NoOtherKey(s: Schema, vs: seq<Value>, k: nat, ms: seq<Member>, key: string)
    requires FieldsHaveType(s, vs) && k <= |vs| && FieldsEncode(s, vs, k, ms)
    requires forall i :: 0 <= i < |s.fields| ==> s.fields[i].name != key
    ensures Vals(ms, key) == []
    decreases |vs| - k
  {
    if k < |vs| {
      if Emitted(s.fields[k], vs[k]) {
        NoOtherKey(s, vs, k + 1, ms[1..], key);
      } else {
        NoOtherKey(s, vs, k + 1, ms, key);
      }
    }
  }

  /** Field i has this key, and in the struct this value. */
  ghost predicate Holds(s: Schema, vs: seq<Value>, i: nat, f: Field, v: Value) {
    i < |s.fields| && i < |vs| && s.fields[i] == f && vs[i] == v
  }

  lemma StrWritten(s: Schema, vs: seq<Value>, ms: seq<Member>, i: nat, f: Field, x: string)
    requires OnWire(s, vs, ms) && Holds(s, vs, i, f, VStr(x)) && f.required && f.ty.TStr?
    ensures Vals(ms, f.name) == [JStr(x)]
  {
    KeyOnWireFrom(s, vs, 0, ms, i);
  }

  lemma NumWritten(s: Schema, vs: seq<Value>, ms: seq<Member>, i: nat, f: Field, x: real)
    requires OnWire(s, vs, ms) && Holds(s, vs, i, f, VNum(x)) && f.required && f.ty.TNum?
    ensures Vals(ms, f.name) == [JNum(x)]
  {
    KeyOnWireFrom(s, vs, 0, ms, i);
  }

  /** Under the key of an optional value: what encodes it, when it is set. */
  lemma OptWritten(s: Schema, vs: seq<Value>, ms: seq<Member>, i: nat, f: Field, isSet: bool, v: Value)
    requires OnWire(s, vs, ms) && Holds(s, vs, i, f, VOpt(isSet, v)) && !f.required && f.ty.TOpt?
    ensures HasType(f.ty.base, v)
    ensures if isSet then |Vals(ms, f.name)| == 1 && IsEncoding(f.ty.base, v, Vals(ms, f.name)[0])
            else Vals(ms, f.name) == []
  {
    KeyOnWireFrom(s, vs, 0, ms, i);
    assert HasType(f.ty, VOpt(isSet, v));
  }

  function OptStrJson(o: Optional<string>): seq<Json> { if o.isSet then [JStr(o.value)] else [] }
  function OptNumJson(o: Optional<real>): seq<Json> { if o.isSet then [JNum(o.value)] else [] }
  function OptBoolJson(o: Optional<bool>): seq<Json> { if o.isSet then [JBool(o.value)] else [] }

  lemma OptStrWritten(s: Schema, vs: seq<Value>, ms: seq<Member>, i: nat, f: Field, o: Optional<string>)
    requires OnWire(s, vs, ms) && Holds(s, vs, i, f, OptS(o)) && !f.required && f.ty == TOpt(TStr)
    ensures Vals(ms, f.name) == OptStrJson(o)
  {
    OptWritten(s, vs, ms, i, f, o.isSet, VStr(o.value));
  }

  lemma OptNumWritten(s: Schema, vs: seq<Value>, ms: seq<Member>, i: nat, f: Field, o: Optional<real>)
    requires OnWire(s, vs, ms) && Holds(s, vs, i, f, OptN(o)) && !f.required && f.ty == TOpt(TNum)
    ensures Vals(ms, f.name) == OptNumJson(o)
  {
    OptWritten(s, vs, ms, i, f, o.isSet, VNum(o.value));
  }

  lemma OptBoolWritten(s: Schema, vs: seq<Value>, ms: seq<Member>, i: nat, f: Field, o: Optional<bool>)
    requires OnWire(s, vs, ms) && Holds(s, vs, i, f, OptB(o)) && !f.required && f.ty == TOpt(TBool)
    ensures Vals(ms, f.name) == OptBoolJson(o)
  {
    OptWritten(s, vs, ms, i, f, o.isSet, VBool(o.value));
  }

  /** An optional raw map: one object listing its entries, when it is set. */
  ghost predicate OptMapIs(js: seq<Json>, o: Optional<RawMap>) {
    if o.isSet then
      && |js| == 1 && js[0].JObj?
      && IsListing(js[0].members, EntriesOf(o.value))
    else js == []
  }

  lemma MapWritten(s: Schema, vs: seq<Value>, ms: seq<Member>, i: nat, f: Field, o: Optional<RawMap>)
    requires OnWire(s, vs, ms) && Holds(s, vs, i, f, OptM(o)) && !f.required && f.ty.TOpt? && f.ty.base.TMap?
    ensures OptMapIs(Vals(ms, f.name), o)
  {
    OptWritten(s, vs, ms, i, f, o.isSet, OptM(o).val);
  }

  /** A list of structs: one array of as many values, each encoding its struct; nil is the empty array. */
  ghost predicate ListIs<T>(js: seq<Json>, l: List<T>, encodes: (T, Json) -> bool) {
    && |js| == 1 && js[0].JArr?
    && |js[0].elems| == |ItemsOf(l)|
    && forall i :: 0 <= i < |ItemsOf(l)| ==> encodes(ItemsOf(l)[i], js[0].elems[i])
  }

  /** An optional list of structs: nothing when it is nil. */
  ghost predicate OptListIs<T>(js: seq<Json>, l: List<T>, encodes: (T, Json) -> bool) {
    if l.Nil? then js == [] else ListIs(js, l, encodes)
  }

  /** What it means to encode one struct of a list. */
  ghost predicate EncodesAs<T(!new)>(elem: Schema, fields: T -> seq<Value>, encodes: (T, Json) -> bool) {
    forall x: T, j: Json :: HasType(TStruct(elem), VStruct(fields(x))) ==>
      (encodes(x, j) <==> IsEncoding(TStruct(elem), VStruct(fields(x)), j))
  }

  lemma SliceIs<T(!new)>(elem: Schema, fields: T -> seq<Value>, l: List<T>, encodes: (T, Json) -> bool, j: Json)
    requires EncodesAs(elem, fields, encodes) && HasType(TSlice(TStruct(elem)), SliceOf(l, fields))
    requires IsEncoding(TSlice(TStruct(elem)), SliceOf(l, fields), j)
    ensures ListIs([j], l, encodes)
  {
    match l
    case Nil =>
    case Items(xs) =>
      var v := SliceOf(l, fields);
      forall i | 0 <= i < |xs|
        ensures encodes(xs[i], j.elems[i])
      {
        assert v.elems[i] == VStruct(fields(xs[i])) && HasType(TStruct(elem), v.elems[i]);
        assert IsEncoding(TStruct(elem), v.elems[i], j.elems[i]);
      }
  }

  lemma ListWritten<T(!new)>(s: Schema, vs: seq<Value>, ms: seq<Member>, i: nat, f: Field, elem: Schema,
                             fields: T -> seq<Value>, l: List<T>, encodes: (T, Json) -> bool)
    requires OnWire(s, vs, ms) && Holds(s, vs, i, f, SliceOf(l, fields))
    requires !f.required && f.ty == TSlice(TStruct(elem)) && EncodesAs(elem, fields, encodes)
    ensures OptListIs(Vals(ms, f.name), l, encodes)
  {
    KeyOnWireFrom(s, vs, 0, ms, i);
    if l.Items? {
      SliceIs(elem, fields, l, encodes, Vals(ms, f.name)[0]);
    }
  }

  lemma ReqListWritten<T(!new)>(s: Schema, vs: seq<Value>, ms: seq<Member>, i: nat, f: Field, elem: Schema,
                                fields: T -> seq<Value>, l: List<T>, encodes: (T, Json) -> bool)
    requires OnWire(s, vs, ms) && Holds(s, vs, i, f, SliceOf(l, fields))
    requires f.required && f.ty == TSlice(TStruct(elem)) && EncodesAs(elem, fields, encodes)
    ensures ListIs(Vals(ms, f.name), l, encodes)
  {
    KeyOnWireFrom(s, vs, 0, ms, i);
    SliceIs(elem, fields, l, encodes, Vals(ms, f.name)[0]);
  }

  /** A list of strings as an array; nil is the empty array. */
  function StrsJson(l: List<string>): Json {
    match l
    case Nil => JArr([])
    case Items(xs) => JArr(seq(|xs|, i requires 0 <= i < |xs| => JStr(xs[i])))
  }

  function ListsJson(l: List<List<string>>): Json {
    match l
    case Nil => JArr([])
    case Items(xs) => JArr(seq(|xs|, i requires 0 <= i < |xs| => StrsJson(xs[i])))
  }

  function OptListsJson(l: List<List<string>>): seq<Json> { if l.Nil? then [] else [ListsJson(l)] }

  lemma StrsEncoded(l: List<string>, j: Json)
    requires HasType(TSlice(TStr), StrsOf(l)) && IsEncoding(TSlice(TStr), StrsOf(l), j)
    ensures j == StrsJson(l)
  {
    match l
    case Nil =>
    case Items(xs) =>
      forall i | 0 <= i < |xs|
        ensures j.elems[i] == JStr(xs[i])
      {
        assert IsEncoding(TStr, StrsOf(l).elems[i], j.elems[i]);
      }
      assert j.elems == StrsJson(l).elems;
  }

  lemma ListsWritten(s: Schema, vs: seq<Value>, ms: seq<Member>, i: nat, f: Field, l: List<List<string>>)
    requires OnWire(s, vs, ms) && Holds(s, vs, i, f, ListsOf(l)) && !f.required && f.ty == TSlice(TSlice(TStr))
    ensures Vals(ms, f.name) == OptListsJson(l)
  {
    KeyOnWireFrom(s, vs, 0, ms, i);
    if l.Items? {
      var xs, j := l.items, Vals(ms, f.name)[0];
      forall k | 0 <= k < |xs|
        ensures j.elems[k] == StrsJson(xs[k])
      {
        assert HasType(TSlice(TStr), ListsOf(l).elems[k]) && IsEncoding(TSlice(TStr), ListsOf(l).elems[k], j.elems[k]);
        StrsEncoded(xs[k], j.elems[k]);
      }
      assert j.elems == ListsJson(l).elems;
    }
  }

  // ---- Decode ---------------------------------------------------------------------------

  /** Decode turned a receiver of field values before into after. */
  ghost predicate FromWire(s: Schema, before: seq<Value>, ms: seq<Member>, after: seq<Value>) {
    DistinctNames(s) && |before| == |s.fields| && DecodeObject(s, before, ms) == Ok(after)
  }

  ghost predicate LastIs(js: seq<Json>, j: Json) {
    js != [] && js[|js| - 1] == j
  }

  /** An optional value after Decode: the last one given to its key, or what it was. */
  ghost predicate OptStrFrom(js: seq<Json>, was: Optional<string>, now: Optional<string>) {
    if js == [] then now == was else now.isSet && LastIs(js, JStr(now.value))
  }

  ghost predicate OptNumFrom(js: seq<Json>, was: Optional<real>, now: Optional<real>) {
    if js == [] then now == was else now.isSet && LastIs(js, JNum(now.value))
  }

  ghost predicate OptBoolFrom(js: seq<Json>, was: Optional<bool>, now: Optional<bool>) {
    if js == [] then now == was else now.isSet && LastIs(js, JBool(now.value))
  }

  ghost predicate OptMapFrom(js: seq<Json>, was: Optional<RawMap>, now: Optional<RawMap>) {
    if js == [] then now == was else now.isSet && MapIsRead(js, now.value)
  }

  ghost predicate OptListFrom<T>(js: seq<Json>, was: List<T>, now: List<T>, decodes: (Json, T) -> bool) {
    if js == [] then now == was else ListReads(js, now, decodes)
  }

  ghost predicate OptListsFrom(js: seq<Json>, was: List<List<string>>, now: List<List<string>>) {
    if js == [] then now == was else ListsAreRead(js, now)
  }

  /** What field i holds afterwards. */
  lemma KeyFromWire(s: Schema, before: seq<Value>, ms: seq<Member>, after: seq<Value>, i: nat)
    requires FromWire(s, before, ms, after) && i < |s.fields|
    ensures |after| == |s.fields|
    ensures var js := Vals(ms, s.fields[i].name);
            if js == [] then !s.fields[i].required && after[i] == s.fields[i].preset.GetOr(before[i])
            else DecodeVal(s.fields[i].ty, js[|js| - 1]) == Ok(after[i])
  {
    StoresLast(s, before, ms);
    assert Decodable(s.fields[i], Vals(ms, s.fields[i].name));
  }

  lemma StrRead(s: Schema, before: seq<Value>, ms: seq<Member>, after: seq<Value>, i: nat, f: Field, x: string)
    requires FromWire(s, before, ms, after) && Holds(s, after, i, f, VStr(x)) && f.required && f.ty.TStr?
    ensures LastIs(Vals(ms, f.name), JStr(x))
  {
    KeyFromWire(s, before, ms, after, i);
  }

  lemma NumRead(s: Schema, before: seq<Value>, ms: seq<Member>, after: seq<Value>, i: nat, f: Field, x: real)
    requires FromWire(s, before, ms, after) && Holds(s, after, i, f, VNum(x)) && f.required && f.ty.TNum?
    ensures LastIs(Vals(ms, f.name), JNum(x))
  {
    KeyFromWire(s, before, ms, after, i);
  }

  lemma OptStrRead(s: Schema, before: seq<Value>, ms: seq<Member>, after: seq<Value>, i: nat, f: Field,
                   was: Optional<string>, now: Optional<string>)
    requires FromWire(s, before, ms, after) && Holds(s, before, i, f, OptS(was)) && Holds(s, after, i, f, OptS(now))
    requires f == Field(f.name, TOpt(TStr), false, None)
    ensures OptStrFrom(Vals(ms, f.name), was, now)
  {
    KeyFromWire(s, before, ms, after, i);
  }

  lemma OptNumRead(s: Schema, before: seq<Value>, ms: seq<Member>, after: seq<Value>, i: nat, f: Field,
                   was: Optional<real>, now: Optional<real>)
    requires FromWire(s, before, ms, after) && Holds(s, before, i, f, OptN(was)) && Holds(s, after, i, f, OptN(now))
    requires f == Field(f.name, TOpt(TNum), false, None)
    ensures OptNumFrom(Vals(ms, f.name), was, now)
  {
    KeyFromWire(s, before, ms, after, i);
  }

  lemma OptBoolRead(s: Schema, before: seq<Value>, ms: seq<Member>, after: seq<Value>, i: nat, f: Field,
                    was: Optional<bool>, now: Optional<bool>)
    requires FromWire(s, before, ms, after) && Holds(s, before, i, f, OptB(was)) && Holds(s, after, i, f, OptB(now))
    requires f == Field(f.name, TOpt(TBool), false, None)
    ensures OptBoolFrom(Vals(ms, f.name), was, now)
  {
    KeyFromWire(s, before, ms, after, i);
  }

  lemma OptNumReadOr(s: Schema, before: seq<Value>, ms: seq<Member>, after: seq<Value>, i: nat, f: Field,
                     default: real, now: Optional<real>)
    requires FromWire(s, before, ms, after) && Holds(s, after, i, f, OptN(now))
    requires f == Field(f.name, TOpt(TNum), false, Some(VOpt(true, VNum(default))))
    ensures OptNumFrom(Vals(ms, f.name), Optional(default, true), now)
  {
    KeyFromWire(s, before, ms, after, i);
  }

  lemma OptBoolReadOr(s: Schema, before: seq<Value>, ms: seq<Member>, after: seq<Value>, i: nat, f: Field,
                      default: bool, now: Optional<bool>)
    requires FromWire(s, before, ms, after) && Holds(s, after, i, f, OptB(now))
    requires f == Field(f.name, TOpt(TBool), false, Some(VOpt(true, VBool(default))))
    ensures OptBoolFrom(Vals(ms, f.name), Optional(default, true), now)
  {
    KeyFromWire(s, before, ms, after, i);
  }

  /** The last value was an object, and its last values are the entries. */
  ghost predicate MapIsRead(js: seq<Json>, m: RawMap) {
    js != [] && js[|js| - 1].JObj? && m.Stored? && MapReads(map[], js[|js| - 1].members, m.entries)
  }

  lemma MapRead(s: Schema, before: seq<Value>, ms: seq<Member>, after: seq<Value>, i: nat, f: Field,
                was: Optional<RawMap>, now: Optional<RawMap>)
    requires FromWire(s, before, ms, after) && Holds(s, before, i, f, OptM(was)) && Holds(s, after, i, f, OptM(now))
    requires f.ty.TOpt? && f.ty.base.TMap? && !f.required && f.preset.None?
    ensures OptMapFrom(Vals(ms, f.name), was, now)
  {
    KeyFromWire(s, before, ms, after, i);
    var js := Vals(ms, f.name);
    if js != [] {
      var j := js[|js| - 1];
      assert DecodeVal(f.ty.base, j).Ok? && OptM(now).val == DecodeVal(f.ty.base, j).value;
      StoredEntries(map[], j.members);
    }
  }

  /** The last value was an array of as many values, each decoded into a struct of its own. */
  ghost predicate ListReads<T>(js: seq<Json>, l: List<T>, decodes: (Json, T) -> bool) {
    && js != [] && js[|js| - 1].JArr? && l.Items?
    && |js[|js| - 1].elems| == |l.items|
    && forall i :: 0 <= i < |l.items| ==> decodes(js[|js| - 1].elems[i], l.items[i])
  }

  ghost predicate DecodesAs<T(!new)>(elem: Schema, fields: T -> seq<Value>, decodes: (Json, T) -> bool) {
    forall x: T, j: Json :: decodes(j, x) <==> DecodeVal(TStruct(elem), j) == Ok(VStruct(fields(x)))
  }

  lemma {:induction false} ElemsDecodeEach(e: Ty, js: seq<Json>)
    requires DecodeElems(e, js).Ok?
    ensures |DecodeElems(e, js).value| == |js|
    ensures forall i :: 0 <= i < |js| ==> DecodeVal(e, js[i]) == Ok(DecodeElems(e, js).value[i])
    decreases |js|
  {
    if js != [] {
      ElemsDecodeEach(e, js[1..]);
      assert forall i :: 0 < i < |js| ==> js[i] == js[1..][i - 1];
    }
  }

  lemma SliceReads<T(!new)>(elem: Schema, fields: T -> seq<Value>, l: List<T>, decodes: (Json, T) -> bool, j: Json)
    requires DecodesAs(elem, fields, decodes) && DecodeVal(TSlice(TStruct(elem)), j) == Ok(SliceOf(l, fields))
    ensures ListReads([j], l, decodes)
  {
    var v := SliceOf(l, fields);
    assert j.JArr? && v.VSlice? && l.Items?;
    ElemsDecodeEach(TStruct(elem), j.elems);
    forall i | 0 <= i < |l.items|
      ensures decodes(j.elems[i], l.items[i])
    {
      assert v.elems[i] == VStruct(fields(l.items[i]));
    }
  }

  lemma ListRead<T(!new)>(s: Schema, before: seq<Value>, ms: seq<Member>, after: seq<Value>, i: nat, f: Field,
                          elem: Schema, fields: T -> seq<Value>, of: seq<Value> -> T, was: List<T>, now: List<T>,
                          decodes: (Json, T) -> bool)
    requires FromWire(s, before, ms, after)
    requires Holds(s, before, i, f, SliceOf(was, fields)) && Holds(s, after, i, f, SliceOf(now, fields))
    requires f == Field(f.name, TSlice(TStruct(elem)), false, None)
    requires DecodesAs(elem, fields, decodes) && LeftInverse(fields, of)
    ensures OptListFrom(Vals(ms, f.name), was, now, decodes)
  {
    KeyFromWire(s, before, ms, after, i);
    var js := Vals(ms, f.name);
    if js == [] {
      ListOfSlice(was, fields, of);
      ListOfSlice(now, fields, of);
    } else {
      SliceReads(elem, fields, now, decodes, js[|js| - 1]);
    }
  }

  lemma ReqListRead<T(!new)>(s: Schema, before: seq<Value>, ms: seq<Member>, after: seq<Value>, i: nat, f: Field,
                             elem: Schema, fields: T -> seq<Value>, now: List<T>, decodes: (Json, T) -> bool)
    requires FromWire(s, before, ms, after) && Holds(s, after, i, f, SliceOf(now, fields))
    requires f == Field(f.name, TSlice(TStruct(elem)), true, None) && DecodesAs(elem, fields, decodes)
    ensures ListReads(Vals(ms, f.name), now, decodes)
  {
    KeyFromWire(s, before, ms, after, i);
    var js := Vals(ms, f.name);
    SliceReads(elem, fields, now, decodes, js[|js| - 1]);
  }

  /** The last value was an array of arrays of strings, read row by row. */
  ghost predicate ListsAreRead(js: seq<Json>, l: List<List<string>>) {
    && LastIs(js, ListsJson(l)) && l.Items?
    && forall i :: 0 <= i < |l.items| ==> l.items[i].Items?
  }

  lemma StrsDecoded(l: List<string>, j: Json)
    requires DecodeVal(TSlice(TStr), j) == Ok(StrsOf(l))
    ensures l.Items? && j == StrsJson(l)
  {
    assert j.JArr? && StrsOf(l).VSlice? && l.Items?;
    ElemsDecodeEach(TStr, j.elems);
    forall i | 0 <= i < |l.items|
      ensures j.elems[i] == JStr(l.items[i])
    {
      assert DecodeVal(TStr, j.elems[i]) == Ok(StrsOf(l).elems[i]);
    }
    assert j.elems == StrsJson(l).elems;
  }

  lemma ListsDecoded(l: List<List<string>>, j: Json)
    requires DecodeVal(TSlice(TSlice(TStr)), j) == Ok(ListsOf(l))
    ensures ListsAreRead([j], l)
  {
    assert j.JArr? && ListsOf(l).VSlice? && l.Items?;
    ElemsDecodeEach(TSlice(TStr), j.elems);
    forall i | 0 <= i < |l.items|
      ensures l.items[i].Items? && j.elems[i] == StrsJson(l.items[i])
    {
      assert DecodeVal(TSlice(TStr), j.elems[i]) == Ok(ListsOf(l).elems[i]);
      StrsDecoded(l.items[i], j.elems[i]);
    }
    assert j.elems == ListsJson(l).elems;
  }

  lemma ListsRead(s: Schema, before: seq<Value>, ms: seq<Member>, after: seq<Value>, i: nat, f: Field,
                  was: List<List<string>>, now: List<List<string>>)
    requires FromWire(s, before, ms, after)
    requires Holds(s, before, i, f, ListsOf(was)) && Holds(s, after, i, f, ListsOf(now))
    requires f == Field(f.name, TSlice(TSlice(TStr)), false, None)
    ensures OptListsFrom(Vals(ms, f.name), was, now)
  {
    KeyFromWire(s, before, ms, after, i);
    var js := Vals(ms, f.name);
    if js == [] {
      ListsInOf(was);
      ListsInOf(now);
    } else {
      ListsDecoded(now, js[|js| - 1]);
    }
  }

  // ---- Every well-typed field is the value of a Go field --------------------------------

  /** Field i has this type, and its value is well typed. */
  ghost predicate Typed(s: Schema, vs: seq<Value>, i: nat, ty: Ty) {
    i < |s.fields| && i < |vs| && s.fields[i].ty == ty && HasType(s.fields[i].ty, vs[i])
  }

  ghost predicate AllTyped(s: Schema, vs: seq<Value>) {
    |vs| == |s.fields| && forall i :: 0 <= i < |vs| ==> HasType(s.fields[i].ty, vs[i])
  }

  lemma StrBack(s: Schema, vs: seq<Value>, i: nat)
    requires Typed(s, vs, i, TStr)
    ensures vs[i] == VStr(StrOf(At(vs, i)))
  {
  }

  lemma NumBack(s: Schema, vs: seq<Value>, i: nat)
    requires Typed(s, vs, i, TNum)
    ensures vs[i] == VNum(NumOf(At(vs, i)))
  {
  }

  lemma OptStrBack(s: Schema, vs: seq<Value>, i: nat)
    requires Typed(s, vs, i, TOpt(TStr))
    ensures vs[i] == OptS(OptStrOf(At(vs, i)))
  {
    assert HasType(TStr, vs[i].val);
  }

  lemma OptNumBack(s: Schema, vs: seq<Value>, i: nat)
    requires Typed(s, vs, i, TOpt(TNum))
    ensures vs[i] == OptN(OptNumOf(At(vs, i)))
  {
    assert HasType(TNum, vs[i].val);
  }

  lemma OptBoolBack(s: Schema, vs: seq<Value>, i: nat)
    requires Typed(s, vs, i, TOpt(TBool))
    ensures vs[i] == OptB(OptBoolOf(At(vs, i)))
  {
    assert HasType(TBool, vs[i].val);
  }

  lemma OptMapBack(s: Schema, vs: seq<Value>, i: nat, name: string)
    requires Typed(s, vs, i, TOpt(TMap(name)))
    ensures vs[i] == OptM(OptMapOf(At(vs, i)))
  {
    assert HasType(TMap(name), vs[i].val);
  }

  /** Every well-typed struct is made of the fields of some x. */
  ghost predicate RightInverse<T(!new)>(s: Schema, fields: T -> seq<Value>, of: seq<Value> -> T) {
    forall vs :: FieldsHaveType(s, vs) ==> fields(of(vs)) == vs
  }

  lemma ListBack<T(!new)>(s: Schema, vs: seq<Value>, i: nat, elem: Schema,
                          fields: T -> seq<Value>, of: seq<Value> -> T)
    requires Typed(s, vs, i, TSlice(TStruct(elem))) && RightInverse(elem, fields, of)
    ensures vs[i] == SliceOf(ListOf(At(vs, i), of), fields)
  {
    var v := vs[i];
    if v.VSlice? {
      forall k | 0 <= k < |v.elems|
        ensures v.elems[k] == SliceOf(ListOf(v, of), fields).elems[k]
      {
        assert HasType(TStruct(elem), v.elems[k]) && FieldsHaveType(elem, v.elems[k].fields);
      }
      assert v.elems == SliceOf(ListOf(v, of), fields).elems;
    }
  }

  lemma StrsBack(v: Value)
    requires HasType(TSlice(TStr), v)
    ensures v == StrsOf(StrsIn(v))
  {
    if v.VSlice? {
      forall k | 0 <= k < |v.elems|
        ensures v.elems[k] == StrsOf(StrsIn(v)).elems[k]
      {
        assert HasType(TStr, v.elems[k]);
      }
      assert v.elems == StrsOf(StrsIn(v)).elems;
    }
  }

  lemma ListsBack(s: Schema, vs: seq<Value>, i: nat)
    requires Typed(s, vs, i, TSlice(TSlice(TStr)))
    ensures vs[i] == ListsOf(ListsIn(At(vs, i)))
  {
    var v := vs[i];
    if v.VSlice? {
      forall k | 0 <= k < |v.elems|
        ensures v.elems[k] == ListsOf(ListsIn(v)).elems[k]
      {
        assert HasType(TSlice(TStr), v.elems[k]);
        StrsBack(v.elems[k]);
      }
      assert v.elems == ListsOf(ListsIn(v)).elems;
    }
  }

  // ---- Types ----------------------------------------------------------------------------

  lemma ListHasType<T(!new)>(elem: Schema, fields: T -> seq<Value>, l: List<T>)
    requires forall x: T :: FieldsHaveType(elem, fields(x))
    ensures HasType(TSlice(TStruct(elem)), SliceOf(l, fields))
  {
    var v := SliceOf(l, fields);
    if v.VSlice? {
      forall i | 0 <= i < |v.elems|
        ensures HasType(TStruct(elem), v.elems[i])
      {
        assert v.elems[i] == VStruct(fields(l.items[i])) && FieldsHaveType(elem, fields(l.items[i]));
      }
    }
  }

  lemma ListsHaveType(l: List<List<string>>)
    ensures HasType(TSlice(TSlice(TStr)), ListsOf(l))
  {
    if l.Items? {
      forall i | 0 <= i < |l.items|
        ensures HasType(TSlice(TStr), ListsOf(l).elems[i])
      {
        assert ListsOf(l).elems[i] == StrsOf(l.items[i]);
      }
    }
  }

  /** What is decoded has the type. */
  lemma {:induction false} DecodedHasType(ty: Ty, j: Json)
    requires WfTy(ty) && DecodeVal(ty, j).Ok?
    ensures HasType(ty, DecodeVal(ty, j).value)
    decreases j, 2, ty
  {
    match ty
    case TOpt(base) => DecodedHasType(base, j);
    case TSlice(e) => DecodedElemsHaveType(e, j.elems);
    case TStruct(s) =>
      ZeroHasType(ty);
      DefaultsHaveType(s, ZeroFields(s));
      DecodedMembersHaveType(s, WithDefaults(s, ZeroFields(s)), j.members);
    case _ =>
  }

  lemma {:induction false} DecodedElemsHaveType(e: Ty, js: seq<Json>)
    requires WfTy(e) && DecodeElems(e, js).Ok?
    ensures forall i :: 0 <= i < |DecodeElems(e, js).value| ==> HasType(e, DecodeElems(e, js).value[i])
    decreases js, 0
  {
    if js != [] {
      DecodedHasType(e, js[0]);
      DecodedElemsHaveType(e, js[1..]);
    }
  }

  lemma DefaultsHaveType(s: Schema, recv: seq<Value>)
    requires WfSchema(s) && FieldsHaveType(s, recv)
    ensures FieldsHaveType(s, WithDefaults(s, recv))
  {
    forall i | 0 <= i < |recv|
      ensures HasType(s.fields[i].ty, WithDefaults(s, recv)[i])
    {
      assert WfField(s.fields[i]);
    }
  }

  lemma {:induction false} DecodedMembersHaveType(s: Schema, r: seq<Value>, ms: seq<Member>)
    requires WfSchema(s) && FieldsHaveType(s, r) && DecodeMembers(s, r, ms).Ok?
    ensures FieldsHaveType(s, DecodeMembers(s, r, ms).value)
    decreases ms, 0
  {
    if ms != [] {
      match FieldIndex(s, ms[0].key)
      case None => DecodedMembersHaveType(s, r, ms[1..]);
      case Some(i) =>
        assert WfField(s.fields[i]);
        DecodedHasType(s.fields[i].ty, ms[0].val);
        DecodedMembersHaveType(s, r[i := DecodeVal(s.fields[i].ty, ms[0].val).value], ms[1..]);
    }
  }

  lemma DecodedFieldsHaveType(s: Schema, recv: seq<Value>, ms: seq<Member>)
    requires WfSchema(s) && FieldsHaveType(s, recv) && DecodeObject(s, recv, ms).Ok?
    ensures FieldsHaveType(s, DecodeObject(s, recv, ms).value)
  {
    DefaultsHaveType(s, recv);
    DecodedMembersHaveType(s, WithDefaults(s, recv), ms);
  }
}
