/** The Go types the DTO structs are made of, their field values, and what a round trip makes of them. */
module GoStructs {
  import opened Json
  import opened Schema

  /** OptString, OptFloat64, OptBool, the optional enums and maps: { Value; Set }. */
  datatype Optional<T> = Optional(value: T, isSet: bool)

  /** A Go slice: nil, or a possibly empty list. */
  datatype List<T> = Nil | Items(items: seq<T>)

  /** map[string]jx.Raw: nil, or a possibly empty map. */
  datatype RawMap = NoMap | Stored(entries: map<string, seq<Token>>)

  /** The elements a range loop visits. */
  function ItemsOf<T>(l: List<T>): seq<T> {
    if l.Nil? then [] else l.items
  }

  function EntriesOf(m: RawMap): map<string, seq<Token>> {
    if m.NoMap? then map[] else m.entries
  }

  // ---- Their field values ---------------------------------------------------------------

  function OptS(o: Optional<string>): Value { VOpt(o.isSet, VStr(o.value)) }
  function OptN(o: Optional<real>): Value { VOpt(o.isSet, VNum(o.value)) }
  function OptB(o: Optional<bool>): Value { VOpt(o.isSet, VBool(o.value)) }

  function OptM(o: Optional<RawMap>): Value {
    VOpt(o.isSet, if o.value.NoMap? then VNilMap else VMap(o.value.entries))
  }

  /** A slice of structs, each given by its field values. */
  function SliceOf<T>(l: List<T>, fields: T -> seq<Value>): Value {
    match l
    case Nil => VNil
    case Items(xs) => VSlice(seq(|xs|, i requires 0 <= i < |xs| => VStruct(fields(xs[i]))))
  }

  function StrsOf(l: List<string>): Value {
    match l
    case Nil => VNil
    case Items(xs) => VSlice(seq(|xs|, i requires 0 <= i < |xs| => VStr(xs[i])))
  }

  function ListsOf(l: List<List<string>>): Value {
    match l
    case Nil => VNil
    case Items(xs) => VSlice(seq(|xs|, i requires 0 <= i < |xs| => StrsOf(xs[i])))
  }

  /** Where a field of a fresh struct starts, and what Reset restores: an unset option without payload, nil. */
  lemma ZeroInGo(elem: Ty, typeName: string)
    ensures Zero(TOpt(TStr)) == OptS(Optional("", false)) && Zero(TOpt(TNum)) == OptN(Optional(0.0, false))
    ensures Zero(TOpt(TBool)) == OptB(Optional(false, false))
    ensures Zero(TOpt(TMap(typeName))) == OptM(Optional(NoMap, false))
    ensures Zero(TStr) == VStr("") && Zero(TNum) == VNum(0.0) && Zero(TBool) == VBool(false)
    ensures Zero(TSlice(elem)) == StrsOf(Nil)
  {
  }

  // ---- And back -------------------------------------------------------------------------

  /** Field i, of structs with that many fields. */
  function At(vs: seq<Value>, i: nat): Value {
    if i < |vs| then vs[i] else VNil
  }

  function StrOf(v: Value): string { if v.VStr? then v.s else "" }
  function NumOf(v: Value): real { if v.VNum? then v.n else 0.0 }
  function BoolOf(v: Value): bool { if v.VBool? then v.b else false }

  function OptOf<T>(v: Value, of: Value -> T): Optional<T> {
    if v.VOpt? then Optional(of(v.val), v.isSet) else Optional(of(v), false)
  }

  function OptStrOf(v: Value): Optional<string> { OptOf(v, StrOf) }
  function OptNumOf(v: Value): Optional<real> { OptOf(v, NumOf) }
  function OptBoolOf(v: Value): Optional<bool> { OptOf(v, BoolOf) }
  function RawMapOf(v: Value): RawMap { if v.VMap? then Stored(v.raw) else NoMap }
  function OptMapOf(v: Value): Optional<RawMap> { OptOf(v, RawMapOf) }

  function ListOf<T>(v: Value, of: seq<Value> -> T): List<T> {
    match v
    case VSlice(es) => Items(seq(|es|, i requires 0 <= i < |es| => of(if es[i].VStruct? then es[i].fields else [])))
    case _ => Nil
  }

  function StrsIn(v: Value): List<string> {
    match v
    case VSlice(es) => Items(seq(|es|, i requires 0 <= i < |es| => StrOf(es[i])))
    case _ => Nil
  }

  function ListsIn(v: Value): List<List<string>> {
    match v
    case VSlice(es) => Items(seq(|es|, i requires 0 <= i < |es| => StrsIn(es[i])))
    case _ => Nil
  }

  /** The struct with these field values is x, for every x. */
  ghost predicate LeftInverse<T(!new)>(fields: T -> seq<Value>, of: seq<Value> -> T) {
    forall x: T :: of(fields(x)) == x
  }

  lemma ListOfSlice<T(!new)>(l: List<T>, fields: T -> seq<Value>, of: seq<Value> -> T)
    requires LeftInverse(fields, of)
    ensures ListOf(SliceOf(l, fields), of) == l
  {
    match l
    case Nil =>
    case Items(xs) => assert ListOf(SliceOf(l, fields), of).items == xs;
  }

  lemma StrsInOf(l: List<string>)
    ensures StrsIn(StrsOf(l)) == l
  {
    match l
    case Nil =>
    case Items(xs) => assert StrsIn(StrsOf(l)).items == xs;
  }

  lemma ListsInOf(l: List<List<string>>)
    ensures ListsIn(ListsOf(l)) == l
  {
    match l
    case Nil =>
    case Items(xs) =>
      forall i | 0 <= i < |xs|
        ensures StrsIn(StrsOf(xs[i])) == xs[i]
      {
        StrsInOf(xs[i]);
      }
      assert ListsIn(ListsOf(l)).items == xs;
  }

  // ---- Their normal forms ---------------------------------------------------------------

  /** An unset optional value arrives unset, with the zero payload. */
  function Plain<T>(o: Optional<T>, zero: T): Optional<T> {
    if o.isSet then o else Optional(zero, false)
  }

  /** An unset optional value with a default arrives set to it. */
  function OrElse<T>(o: Optional<T>, default: T): Optional<T> {
    if o.isSet then o else Optional(default, true)
  }

  function MapList<T>(l: List<T>, f: T -> T): List<T> {
    match l
    case Nil => Nil
    case Items(xs) => Items(seq(|xs|, i requires 0 <= i < |xs| => f(xs[i])))
  }
}
