/**
 The shape of the generated DTO structs and what their Encode and Decode mean.

 Every struct codec in oas_json_gen.go is one skeleton filled with a field table, a mask array
 and, for some types, a setDefaults method.  A Schema holds exactly those parts.  The functions
 below say what the skeleton means on JSON trees; the methods in Codec carry it out on tokens.
 */
module Schema {
  import opened Common
  import opened Json
  import opened RequiredFields

  // ---- Go types and values --------------------------------------------------------------

  datatype Ty =
    | TStr                        // string, and the string enums: all their Decode branches agree
    | TNum                        // float64
    | TBool                       // bool
    | TOpt(base: Ty)              // the OptX structs { Value X; Set bool }
    | TSlice(elem: Ty)            // []X
    | TStruct(schema: Schema)     // a nested DTO
    | TMap(typeName: string)      // map[string]jx.Raw

  /** One struct field.  preset is the value setDefaults stores, if it stores one. */
  datatype Field = Field(name: string, ty: Ty, required: bool, preset: Option<Value>)

  datatype Schema = Schema(typeName: string, fields: seq<Field>, masks: seq<bv8>)

  datatype Value =
    | VStr(s: string)
    | VNum(n: real)
    | VBool(b: bool)
    | VOpt(isSet: bool, val: Value)
    | VNil                                       // nil slice
    | VSlice(elems: seq<Value>)
    | VStruct(fields: seq<Value>)
    | VNilMap
    | VMap(raw: map<string, seq<Token>>)

  /** The zero value a Go variable of the type starts with, and what Reset restores. */
  function Zero(ty: Ty): Value {
    match ty
    case TStr => VStr("")
    case TNum => VNum(0.0)
    case TBool => VBool(false)
    case TOpt(base) => VOpt(false, Zero(base))
    case TSlice(_) => VNil
    case TStruct(s) => VStruct(seq(|s.fields|, i requires 0 <= i < |s.fields| => Zero(s.fields[i].ty)))
    case TMap(_) => VNilMap
  }

  ghost predicate HasType(ty: Ty, v: Value)
    decreases v
  {
    match ty
    case TStr => v.VStr?
    case TNum => v.VNum?
    case TBool => v.VBool?
    case TOpt(base) => v.VOpt? && HasType(base, v.val)
    case TSlice(e) => v.VNil? || (v.VSlice? && forall i :: 0 <= i < |v.elems| ==> HasType(e, v.elems[i]))
    case TStruct(s) => v.VStruct? && FieldsHaveType(s, v.fields)
    case TMap(_) => v.VNilMap? || v.VMap?
  }

  ghost predicate FieldsHaveType(s: Schema, vs: seq<Value>)
    decreases vs
  {
    |vs| == |s.fields| && forall i :: 0 <= i < |vs| ==> HasType(s.fields[i].ty, vs[i])
  }

  // ---- What the generator guarantees of a schema ----------------------------------------

  ghost predicate WfTy(ty: Ty) {
    match ty
    case TOpt(base) => base.TStr? || base.TNum? || base.TBool? || base.TMap?
    case TSlice(e) => !e.TOpt? && WfTy(e)
    case TStruct(s) => WfSchema(s)
    case _ => true
  }

  ghost predicate WfField(f: Field) {
    && WfTy(f.ty)
    && (if f.required then !f.ty.TOpt? else f.ty.TOpt? || f.ty.TSlice?)
    && (f.preset.Some? ==> f.ty.TOpt? && !f.ty.base.TMap? && HasType(f.ty, f.preset.value) && f.preset.value.isSet)
  }

  ghost predicate WfSchema(s: Schema) {
    && (forall i :: 0 <= i < |s.fields| ==> WfField(s.fields[i]))
    && DistinctNames(s)
    && Fields(s.masks) == RequiredSet(s)
  }

  ghost predicate DistinctNames(s: Schema) {
    forall i, k :: 0 <= i < k < |s.fields| ==> s.fields[i].name != s.fields[k].name
  }

  function RequiredSet(s: Schema): set<nat> {
    set i | 0 <= i < |s.fields| && s.fields[i].required
  }

  function FieldNames(s: Schema): seq<string> {
    seq(|s.fields|, i requires 0 <= i < |s.fields| => s.fields[i].name)
  }

  // ---- Encode ---------------------------------------------------------------------------

  /** The guards of encodeFields: X.Set for optional values, X != nil for optional slices. */
  predicate Emitted(f: Field, v: Value) {
    f.required || (if v.VOpt? then v.isSet else !v.VNil?)
  }

  /** The elements a range loop over a slice visits. */
  function Elems(v: Value): seq<Value>
    requires v.VNil? || v.VSlice?
  {
    if v.VNil? then [] else v.elems
  }

  /** The entries a range loop over a map visits. */
  function Entries(v: Value): map<string, seq<Token>>
    requires v.VNilMap? || v.VMap?
  {
    if v.VNilMap? then map[] else v.raw
  }

  /**
   j is a JSON value Encode may produce for v.  It is unique up to the order of the members that
   come from Go maps, which Go leaves open.
   */
  ghost predicate IsEncoding(ty: Ty, v: Value, j: Json)
    requires HasType(ty, v)
    decreases v, 0
  {
    match ty
    case TStr => j == JStr(v.s)
    case TNum => j == JNum(v.n)
    case TBool => j == JBool(v.b)
    case TOpt(base) => v.isSet && IsEncoding(base, v.val, j)
    case TSlice(e) =>
      && j.JArr?
      && |j.elems| == |Elems(v)|
      && forall i :: 0 <= i < |j.elems| ==> IsEncoding(e, Elems(v)[i], j.elems[i])
    case TStruct(s) => j.JObj? && FieldsEncode(s, v.fields, 0, j.members)
    case TMap(_) => j.JObj? && IsListing(j.members, Entries(v))
  }

  /** ms are the members emitted for the fields from k on, in field order. */
  ghost predicate FieldsEncode(s: Schema, vs: seq<Value>, k: nat, ms: seq<Member>)
    requires FieldsHaveType(s, vs) && k <= |vs|
    decreases vs, |vs| - k
  {
    if k == |vs| then ms == []
    else if Emitted(s.fields[k], vs[k]) then
      && ms != []
      && ms[0].key == s.fields[k].name
      && IsEncoding(s.fields[k].ty, vs[k], ms[0].val)
      && FieldsEncode(s, vs, k + 1, ms[1..])
    else FieldsEncode(s, vs, k + 1, ms)
  }

  /** ms lists the entries of a map of raw values, each once, in some order. */
  predicate IsListing(ms: seq<Member>, raw: map<string, seq<Token>>) {
    if ms == [] then raw == map[]
    else
      && ms[0].key in raw
      && raw[ms[0].key] == Tokens(ms[0].val)
      && IsListing(ms[1..], raw - {ms[0].key})
  }

  /** Every raw map element that Encode writes for v is the text of exactly one JSON value. */
  ghost predicate RawOk(v: Value) {
    match v
    case VOpt(isSet, x) => isSet ==> RawOk(x)
    case VSlice(es) => forall i :: 0 <= i < |es| ==> RawOk(es[i])
    case VStruct(vs) => forall i :: 0 <= i < |vs| ==> RawOk(vs[i])
    case VMap(raw) => RawEntriesOk(raw)
    case _ => true
  }

  predicate OneValue(ts: seq<Token>) {
    ParseValue(ts).Some? && ParseValue(ts).value.1 == []
  }

  ghost predicate RawEntriesOk(raw: map<string, seq<Token>>) {
    forall k :: k in raw ==> OneValue(raw[k])
  }

  // ---- Decode ---------------------------------------------------------------------------

  datatype DecodeError =
    | Mismatch                                        // the reader met another token
    | InField(name: string, cause: DecodeError)       // decode field "name": cause
    | InType(typeName: string, cause: DecodeError)    // decode typeName: cause
    | MissingRequired(names: seq<string>)             // validate.Error over ErrFieldRequired

  type Decoded<T> = Result<T, DecodeError>

  /** The switch on the key: the field it selects. */
  function FieldIndex(s: Schema, key: string, from: nat := 0): (r: Option<nat>)
    ensures r.Some? ==> from <= r.value < |s.fields| && s.fields[r.value].name == key
    ensures r.None? ==> forall i :: from <= i < |s.fields| ==> s.fields[i].name != key
    decreases |s.fields| - from
  {
    if from >= |s.fields| then None
    else if s.fields[from].name == key then Some(from)
    else FieldIndex(s, key, from + 1)
  }

  /** Decoding j into a fresh variable of the type. */
  function DecodeVal(ty: Ty, j: Json): Decoded<Value>
    decreases j, 2, ty
  {
    match ty
    case TStr => if j.JStr? then Ok(VStr(j.s)) else Err(Mismatch)
    case TNum => if j.JNum? then Ok(VNum(j.n)) else Err(Mismatch)
    case TBool => if j.JBool? then Ok(VBool(j.b)) else Err(Mismatch)
    case TOpt(base) => var v :- DecodeVal(base, j); Ok(VOpt(true, v))
    case TSlice(e) =>
      if !j.JArr? then Err(Mismatch)
      else var vs :- DecodeElems(e, j.elems); Ok(VSlice(vs))
    case TStruct(s) =>
      if !j.JObj? then Err(InType(s.typeName, Mismatch))
      else
        var vs :- DecodeObject(s, ZeroFields(s), j.members);
        Ok(VStruct(vs))
    case TMap(name) =>
      if !j.JObj? then Err(InType(name, Mismatch)) else Ok(VMap(RawEntries(map[], j.members)))
  }

  function DecodeElems(e: Ty, js: seq<Json>): Decoded<seq<Value>>
    decreases js, 0
  {
    if js == [] then Ok([])
    else
      var v :- DecodeVal(e, js[0]);
      var vs :- DecodeElems(e, js[1..]);
      Ok([v] + vs)
  }

  /** Decode called on a receiver whose fields hold recv. */
  function DecodeObject(s: Schema, recv: seq<Value>, ms: seq<Member>): Decoded<seq<Value>>
    requires |recv| == |s.fields|
    decreases ms, 1
  {
    match DecodeMembers(s, WithDefaults(s, recv), ms)
    case Err(e) => Err(InType(s.typeName, e))
    case Ok(r) =>
      if MissingNames(s, ms) == [] then Ok(r) else Err(MissingRequired(MissingNames(s, ms)))
  }

  /** The callback run over the members in stream order; unknown keys are skipped. */
  function DecodeMembers(s: Schema, r: seq<Value>, ms: seq<Member>): (out: Decoded<seq<Value>>)
    requires |r| == |s.fields|
    ensures out.Ok? ==> |out.value| == |r|
    decreases ms, 0
  {
    if ms == [] then Ok(r)
    else
      match FieldIndex(s, ms[0].key)
      case None => DecodeMembers(s, r, ms[1..])
      case Some(i) =>
        match DecodeVal(s.fields[i].ty, ms[0].val)
        case Err(e) => Err(InField(ms[0].key, e))
        case Ok(v) => DecodeMembers(s, r[i := v], ms[1..])
  }

  function ZeroFields(s: Schema): (r: seq<Value>)
    ensures |r| == |s.fields|
  {
    Zero(TStruct(s)).fields
  }

  /** setDefaults, on the field values of the receiver. */
  function WithDefaults(s: Schema, recv: seq<Value>): (r: seq<Value>)
    requires |recv| == |s.fields|
    ensures |r| == |recv|
  {
    seq(|recv|, i requires 0 <= i < |recv| => s.fields[i].preset.GetOr(recv[i]))
  }

  predicate HasKey(ms: seq<Member>, key: string) {
    exists m :: m in ms && m.key == key
  }

  /** Names of the required fields with no member in ms, in field order. */
  function MissingNames(s: Schema, ms: seq<Member>): seq<string> {
    NamesOf(FieldNames(s), Sorted(RequiredSet(s) - SeenSet(s, ms), 0, |s.fields|))
  }

  function SeenSet(s: Schema, ms: seq<Member>): set<nat> {
    set i | 0 <= i < |s.fields| && HasKey(ms, s.fields[i].name)
  }

  /** Storing the members of an object of raw values over the entries m. */
  function RawEntries(m: map<string, seq<Token>>, ms: seq<Member>): map<string, seq<Token>>
    decreases ms
  {
    if ms == [] then m else RawEntries(m[ms[0].key := Tokens(ms[0].val)], ms[1..])
  }

  // ---- The normal form a round trip produces --------------------------------------------

  /** What a field that is not on the wire holds after decoding into a fresh struct. */
  function Default(f: Field): Value {
    f.preset.GetOr(Zero(f.ty))
  }

  function Norm(ty: Ty, v: Value): Value
    requires HasType(ty, v)
    decreases v, 0
  {
    match ty
    case TOpt(base) => if v.isSet then VOpt(true, Norm(base, v.val)) else v
    case TSlice(e) =>
      var es := Elems(v);
      VSlice(seq(|es|, i requires 0 <= i < |es| => Norm(e, es[i])))
    case TStruct(s) => VStruct(NormFields(s, v.fields))
    case TMap(_) => VMap(Entries(v))
    case _ => v
  }

  function NormFields(s: Schema, vs: seq<Value>): (r: seq<Value>)
    requires FieldsHaveType(s, vs)
    ensures |r| == |vs|
    decreases vs, 0
  {
    seq(|vs|, i requires 0 <= i < |vs| => NormField(s.fields[i], vs[i]))
  }

  function NormField(f: Field, v: Value): Value
    requires HasType(f.ty, v)
    decreases v, 1
  {
    if Emitted(f, v) then Norm(f.ty, v) else Default(f)
  }

  /** v is already in normal form: nothing unset that has a default, nothing nil that would be emitted. */
  ghost predicate Canonical(ty: Ty, v: Value)
    requires HasType(ty, v)
    decreases v, 0
  {
    match ty
    case TOpt(base) => v.isSet ==> Canonical(base, v.val)
    case TSlice(e) => v.VSlice? && forall i :: 0 <= i < |v.elems| ==> Canonical(e, v.elems[i])
    case TStruct(s) => CanonicalFields(s, v.fields)
    case TMap(_) => v.VMap?
    case _ => true
  }

  ghost predicate CanonicalFields(s: Schema, vs: seq<Value>)
    requires FieldsHaveType(s, vs)
    decreases vs, 0
  {
    forall i :: 0 <= i < |vs| ==> CanonicalField(s.fields[i], vs[i])
  }

  ghost predicate CanonicalField(f: Field, v: Value)
    requires HasType(f.ty, v)
    decreases v, 1
  {
    if Emitted(f, v) then Canonical(f.ty, v)
    else f.preset.None? && v == Zero(f.ty)
  }
}
