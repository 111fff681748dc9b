/**
 JSON as the generated codec sees it: the token stream written by the jx encoder and read by
 the jx decoder, the value tree of RFC 8259 (sections 3 to 5), and the exact correspondence
 between the two.  String escaping, number text and whitespace stay below this level.
 */
module Json {
  import opened Common

  datatype Token =
    | ObjStart | Key(name: string) | ObjEnd
    | ArrStart | ArrEnd
    | Str(s: string) | Num(n: real) | Bool(b: bool) | Null

  datatype Json =
    | JNull
    | JBool(b: bool)
    | JNum(n: real)
    | JStr(s: string)
    | JArr(elems: seq<Json>)
    | JObj(members: seq<Member>)

  /** One name/value pair; an object is a sequence of them and names may repeat. */
  datatype Member = Member(key: string, val: Json)

  // ---- Printing -------------------------------------------------------------------------

  function Tokens(j: Json): (ts: seq<Token>)
    ensures ts != []
    ensures !ts[0].ArrEnd? && !ts[0].ObjEnd? && !ts[0].Key?
    decreases j, 0
  {
    match j
    case JNull => [Null]
    case JBool(b) => [Bool(b)]
    case JNum(n) => [Num(n)]
    case JStr(s) => [Str(s)]
    case JArr(es) => [ArrStart] + ElemTokens(es) + [ArrEnd]
    case JObj(ms) => [ObjStart] + MemberTokens(ms) + [ObjEnd]
  }

  function ElemTokens(es: seq<Json>): seq<Token>
    decreases es, 0
  {
    if es == [] then [] else Tokens(es[0]) + ElemTokens(es[1..])
  }

  function MemberTokens(ms: seq<Member>): seq<Token>
    decreases ms, 0
  {
    if ms == [] then [] else [Key(ms[0].key)] + Tokens(ms[0].val) + MemberTokens(ms[1..])
  }

  lemma {:induction false} ElemTokensConcat(xs: seq<Json>, ys: seq<Json>)
    ensures ElemTokens(xs + ys) == ElemTokens(xs) + ElemTokens(ys)
  {
    if xs == [] {
      assert xs + ys == ys;
    } else {
      ConcatTail(xs, ys);
      ElemTokensConcat(xs[1..], ys);
      ConcatAssoc(Tokens(xs[0]), ElemTokens(xs[1..]), ElemTokens(ys));
    }
  }

  // ---- Reading --------------------------------------------------------------------------

  /** The value at the front of a stream, with what follows it; None on a malformed front. */
  function ParseValue(ts: seq<Token>): (r: Option<(Json, seq<Token>)>)
    ensures r.Some? ==> |r.value.1| < |ts|
    decreases |ts|, 1
  {
    if ts == [] then None
    else
      match ts[0]
      case Null => Some((JNull, ts[1..]))
      case Bool(b) => Some((JBool(b), ts[1..]))
      case Num(n) => Some((JNum(n), ts[1..]))
      case Str(s) => Some((JStr(s), ts[1..]))
      case ArrStart => (
        match ParseElems(ts[1..])
        case Some((es, rest)) => Some((JArr(es), rest))
        case None => None)
      case ObjStart => (
        match ParseMembers(ts[1..])
        case Some((ms, rest)) => Some((JObj(ms), rest))
        case None => None)
      case _ => None
  }

  /** Array elements up to and including the closing bracket. */
  function ParseElems(ts: seq<Token>): (r: Option<(seq<Json>, seq<Token>)>)
    ensures r.Some? ==> |r.value.1| < |ts|
    decreases |ts|, 2
  {
    if ts == [] then None
    else if ts[0].ArrEnd? then Some(([], ts[1..]))
    else
      match ParseValue(ts)
      case None => None
      case Some((j, rest)) =>
        match ParseElems(rest)
        case None => None
        case Some((es, rest')) => Some(([j] + es, rest'))
  }

  /** Object members up to and including the closing brace. */
  function ParseMembers(ts: seq<Token>): (r: Option<(seq<Member>, seq<Token>)>)
    ensures r.Some? ==> |r.value.1| < |ts|
    decreases |ts|, 2
  {
    if ts == [] then None
    else if ts[0].ObjEnd? then Some(([], ts[1..]))
    else if !ts[0].Key? then None
    else
      match ParseValue(ts[1..])
      case None => None
      case Some((j, rest)) =>
        match ParseMembers(rest)
        case None => None
        case Some((ms, rest')) => Some(([Member(ts[0].name, j)] + ms, rest'))
  }

  // ---- Printing then reading ------------------------------------------------------------

  lemma {:induction false} ParseTokens(j: Json, rest: seq<Token>)
    ensures ParseValue(Tokens(j) + rest) == Some((j, rest))
    decreases j, 0
  {
    var ts := Tokens(j) + rest;
    match j
    case JArr(es) =>
      assert ts[1..] == ElemTokens(es) + ([ArrEnd] + rest);
      ParseElemTokens(es, rest);
    case JObj(ms) =>
      assert ts[1..] == MemberTokens(ms) + ([ObjEnd] + rest);
      ParseMemberTokens(ms, rest);
    case _ =>
      assert ts[1..] == rest;
  }

  lemma {:induction false} ParseElemTokens(es: seq<Json>, rest: seq<Token>)
    ensures ParseElems(ElemTokens(es) + ([ArrEnd] + rest)) == Some((es, rest))
    decreases es, 0
  {
    var ts := ElemTokens(es) + ([ArrEnd] + rest);
    if es == [] {
      assert ts[1..] == rest;
    } else {
      var tail := ElemTokens(es[1..]) + ([ArrEnd] + rest);
      assert ts == Tokens(es[0]) + tail;
      ParseTokens(es[0], tail);
      ParseElemTokens(es[1..], rest);
      assert es == [es[0]] + es[1..];
    }
  }

  lemma {:induction false} ParseMemberTokens(ms: seq<Member>, rest: seq<Token>)
    ensures ParseMembers(MemberTokens(ms) + ([ObjEnd] + rest)) == Some((ms, rest))
    decreases ms, 0
  {
    var ts := MemberTokens(ms) + ([ObjEnd] + rest);
    if ms == [] {
      assert ts[1..] == rest;
    } else {
      var tail := MemberTokens(ms[1..]) + ([ObjEnd] + rest);
      assert ts[1..] == Tokens(ms[0].val) + tail;
      ParseTokens(ms[0].val, tail);
      ParseMemberTokens(ms[1..], rest);
      assert ms == [ms[0]] + ms[1..];
    }
  }

  // ---- Reading then printing ------------------------------------------------------------

  lemma {:induction false} ParsedIsPrinted(ts: seq<Token>)
    requires ParseValue(ts).Some?
    ensures ts == Tokens(ParseValue(ts).value.0) + ParseValue(ts).value.1
    decreases |ts|, 1
  {
    match ts[0]
    case ArrStart => ParsedElemsArePrinted(ts[1..]);
    case ObjStart => ParsedMembersArePrinted(ts[1..]);
    case _ =>
  }

  lemma {:induction false} ParsedElemsArePrinted(ts: seq<Token>)
    requires ParseElems(ts).Some?
    ensures ts == ElemTokens(ParseElems(ts).value.0) + [ArrEnd] + ParseElems(ts).value.1
    decreases |ts|, 2
  {
    if !ts[0].ArrEnd? {
      ParsedIsPrinted(ts);
      var j, rest := ParseValue(ts).value.0, ParseValue(ts).value.1;
      ParsedElemsArePrinted(rest);
      var es, behind := ParseElems(rest).value.0, ParseElems(rest).value.1;
      ElemTokensCons(j, es);
      Regroup([], Tokens(j), ElemTokens(es), [ArrEnd], behind);
      ConcatEmpty(Tokens(j));
      ConcatEmpty(Tokens(j) + (ElemTokens(es) + [ArrEnd] + behind));
    }
  }

  lemma {:induction false} ParsedMembersArePrinted(ts: seq<Token>)
    requires ParseMembers(ts).Some?
    ensures ts == MemberTokens(ParseMembers(ts).value.0) + [ObjEnd] + ParseMembers(ts).value.1
    decreases |ts|, 2
  {
    if !ts[0].ObjEnd? {
      ParsedIsPrinted(ts[1..]);
      var j, rest := ParseValue(ts[1..]).value.0, ParseValue(ts[1..]).value.1;
      ParsedMembersArePrinted(rest);
      var ms, behind := ParseMembers(rest).value.0, ParseMembers(rest).value.1;
      MemberTokensCons(Member(ts[0].name, j), ms);
      Regroup([ts[0]], Tokens(j), MemberTokens(ms), [ObjEnd], behind);
      assert ts == [ts[0]] + ts[1..];
    }
  }

  lemma ElemTokensCons(j: Json, es: seq<Json>)
    ensures ElemTokens([j] + es) == Tokens(j) + ElemTokens(es)
  {
    assert ([j] + es)[1..] == es;
  }

  lemma MemberTokensCons(m: Member, ms: seq<Member>)
    ensures MemberTokens([m] + ms) == [Key(m.key)] + Tokens(m.val) + MemberTokens(ms)
  {
    assert ([m] + ms)[1..] == ms;
  }

  lemma Regroup(k: seq<Token>, a: seq<Token>, b: seq<Token>, c: seq<Token>, d: seq<Token>)
    ensures k + (a + (b + c + d)) == (k + a + b) + c + d
  {
  }

  /** A stream starts with the text of j exactly when the reader finds j there. */
  lemma ParseIffPrefix(ts: seq<Token>, j: Json, rest: seq<Token>)
    ensures ParseValue(ts) == Some((j, rest)) <==> ts == Tokens(j) + rest
  {
    if ts == Tokens(j) + rest {
      ParseTokens(j, rest);
    }
    if ParseValue(ts) == Some((j, rest)) {
      ParsedIsPrinted(ts);
    }
  }
}
