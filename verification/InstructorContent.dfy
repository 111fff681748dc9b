/**
 Refreshing instructors from a literal list: the columns it lists are overwritten and the ordered
 expertise links are deleted and rebuilt, instructor by instructor.
 */
module InstructorContent {
  import opened Common

  /** The profile is the row's other columns, by column name. */
  datatype Person<D> = Person(id: nat, name: string, profile: map<string, D>)

  datatype ExpertiseLink = ExpertiseLink(instructorId: nat, expertiseId: nat, orderIndex: nat)

  /** One literal entry: the name to match, the columns to write, the expertise keys in order. */
  datatype Entry<D> = Entry(name: string, data: map<string, D>, keys: seq<string>)

  datatype State<D> = State(people: seq<Person<D>>, links: seq<ExpertiseLink>)

  /** findFirst by name, under the sort key by which the database compares names. */
  function Find<D>(coll: string -> string, people: seq<Person<D>>, name: string, from: nat := 0): (r: Option<nat>)
    ensures match r
            case Some(i) =>
              && from <= i < |people| && coll(people[i].name) == coll(name)
              && forall k :: from <= k < i ==> coll(people[k].name) != coll(name)
            case None => forall k :: from <= k < |people| ==> coll(people[k].name) != coll(name)
    decreases |people| - from
  {
    if from >= |people| then None
    else if coll(people[from].name) == coll(name) then Some(from)
    else Find(coll, people, name, from + 1)
  }

  /** deleteMany where instructorId is id. */
  function Without(links: seq<ExpertiseLink>, id: nat): seq<ExpertiseLink> {
    if links == [] then []
    else (if links[0].instructorId == id then [] else [links[0]]) + Without(links[1..], id)
  }

  /** The links created for keys[from..]: unknown keys are passed over but still use up a position. */
  function Block(id: nat, keys: seq<string>, ids: map<string, nat>, from: nat := 0): seq<ExpertiseLink>
    decreases |keys| - from
  {
    if from >= |keys| then []
    else (if keys[from] in ids then [ExpertiseLink(id, ids[keys[from]], from)] else []) + Block(id, keys, ids, from + 1)
  }

  function Refresh<D>(coll: string -> string, ids: map<string, nat>, st: State<D>, e: Entry<D>): State<D> {
    match Find(coll, st.people, e.name)
    case None => st
    case Some(i) =>
      var id := st.people[i].id;
      State(st.people[i := st.people[i].(profile := st.people[i].profile + e.data)],
            Without(st.links, id) + Block(id, e.keys, ids))
  }

  function RefreshAll<D>(coll: string -> string, ids: map<string, nat>, st: State<D>, es: seq<Entry<D>>): State<D>
    decreases |es|
  {
    if es == [] then st else RefreshAll(coll, ids, Refresh(coll, ids, st, es[0]), es[1..])
  }

  // ---- The writes of a run --------------------------------------------------------------

  /** What one statement of the loop commits. */
  datatype Write<D> =
    | SetColumns(row: nat, data: map<string, D>)
    | DeleteLinks(id: nat)
    | CreateLink(link: ExpertiseLink)

  function Apply<D>(st: State<D>, w: Write<D>): State<D> {
    match w
    case SetColumns(i, data) =>
      if i < |st.people| then
        st.(people := st.people[i := st.people[i].(profile := st.people[i].profile + data)])
      else st
    case DeleteLinks(id) => st.(links := Without(st.links, id))
    case CreateLink(link) => st.(links := st.links + [link])
  }

  function ApplyAll<D>(st: State<D>, ws: seq<Write<D>>): State<D>
    decreases |ws|
  {
    if ws == [] then st else ApplyAll(Apply(st, ws[0]), ws[1..])
  }

  function Creates<D>(links: seq<ExpertiseLink>): seq<Write<D>> {
    if links == [] then [] else [CreateLink(links[0])] + Creates(links[1..])
  }

  function RebuildPlan<D>(id: nat, keys: seq<string>, ids: map<string, nat>): seq<Write<D>> {
    [DeleteLinks(id)] + Creates(Block(id, keys, ids))
  }

  function EntryPlan<D>(coll: string -> string, ids: map<string, nat>, people: seq<Person<D>>,
                        e: Entry<D>): seq<Write<D>>
  {
    match Find(coll, people, e.name)
    case None => []
    case Some(i) => [SetColumns(i, e.data)] + RebuildPlan(people[i].id, e.keys, ids)
  }

  /** The writes of a run in order: names decide which rows match, and no write changes a name. */
  function Plan<D>(coll: string -> string, ids: map<string, nat>, people: seq<Person<D>>,
                   es: seq<Entry<D>>): seq<Write<D>>
  {
    if es == [] then [] else EntryPlan(coll, ids, people, es[0]) + Plan(coll, ids, people, es[1..])
  }

  lemma {:induction false} ApplyConcat<D>(st: State<D>, a: seq<Write<D>>, b: seq<Write<D>>)
    ensures ApplyAll(st, a + b) == ApplyAll(ApplyAll(st, a), b)
    decreases |a|
  {
    if a == [] {
      ConcatEmpty(b);
    } else {
      ConcatTail(a, b);
      ApplyConcat(Apply(st, a[0]), a[1..], b);
    }
  }

  lemma OneMore<D>(st: State<D>, ws: seq<Write<D>>, w: Write<D>)
    ensures ApplyAll(st, ws + [w]) == Apply(ApplyAll(st, ws), w)
  {
    ApplyConcat(st, ws, [w]);
    assert [w][1..] == [];
  }

  // ---- The loop -------------------------------------------------------------------------

  class Tables<D> {
    var people: seq<Person<D>>
    var links: seq<ExpertiseLink>
    ghost const start: State<D>   // the tables at first
    ghost var log: seq<Write<D>>  // the writes committed since, in order

    constructor (st: State<D>)
      ensures Now() == start == st && log == [] && Consistent()
    {
      people, links := st.people, st.links;
      start, log := st, [];
    }

    function Now(): State<D>
      reads this
    {
      State(people, links)
    }

    /** At every moment the tables are those at first with the writes of the log applied. */
    ghost predicate Consistent()
      reads this
    {
      Now() == ApplyAll(start, log)
    }

    /** instructor.update */
    method Update(i: nat, data: map<string, D>)
      requires Consistent() && i < |people|
      modifies this
      ensures Consistent() && log == old(log) + [SetColumns(i, data)]
      ensures Now() == Apply(old(Now()), SetColumns(i, data))
    {
      OneMore(start, log, SetColumns(i, data));
      log := log + [SetColumns(i, data)];
      people := people[i := people[i].(profile := people[i].profile + data)];
    }

    /** deleteMany */
    method Delete(id: nat)
      requires Consistent()
      modifies this
      ensures Consistent() && log == old(log) + [DeleteLinks(id)]
      ensures people == old(people) && links == Without(old(links), id)
    {
      OneMore(start, log, DeleteLinks(id));
      log := log + [DeleteLinks(id)];
      links := Without(links, id);
    }

    /** instructorExpertiseLink.create */
    method Create(link: ExpertiseLink)
      requires Consistent()
      modifies this
      ensures Consistent() && log == old(log) + [CreateLink(link)]
      ensures people == old(people) && links == old(links) + [link]
    {
      OneMore(start, log, CreateLink(link));
      log := log + [CreateLink(link)];
      links := links + [link];
    }

    /** deleteMany, then one create per known key. */
    method Rebuild(id: nat, keys: seq<string>, ids: map<string, nat>)
      requires Consistent()
      modifies this
      ensures Consistent() && log == old(log) + RebuildPlan(id, keys, ids)
      ensures people == old(people) && links == Without(old(links), id) + Block(id, keys, ids)
    {
      Delete(id);
      ghost var kept, done := links, log;
      for k := 0 to |keys|
        invariant Consistent() && people == old(people)
        invariant links + Block(id, keys, ids, k) == kept + Block(id, keys, ids)
        invariant log + Creates(Block(id, keys, ids, k)) == done + Creates(Block(id, keys, ids))
      {
        ghost var rest := Block(id, keys, ids, k + 1);
        if keys[k] in ids {
          var link := ExpertiseLink(id, ids[keys[k]], k);
          CreatesCons<D>(link, rest);
          ConcatAssoc(links, [link], rest);
          ConcatAssoc(log, [CreateLink(link)], Creates(rest));
          Create(link);
        } else {
          ConcatEmpty(rest);
        }
      }
      ConcatEmpty(links);
      ConcatEmpty(log);
      ConcatAssoc(old(log), [DeleteLinks(id)], Creates(Block(id, keys, ids)));
    }

    /** One entry of the list; false when no row matches. */
    method RefreshOne(coll: string -> string, ids: map<string, nat>, e: Entry<D>) returns (found: bool)
      requires Consistent()
      modifies this
      ensures Consistent() && log == old(log) + EntryPlan(coll, ids, old(people), e)
      ensures Now() == Refresh(coll, ids, old(Now()), e)
      ensures found == Find(coll, old(people), e.name).Some?
    {
      var row := Find(coll, people, e.name);
      if row.None? {
        ConcatEmpty(log);
        return false;
      }
      var id := people[row.value].id;
      Update(row.value, e.data);
      Rebuild(id, e.keys, ids);
      ConcatAssoc(old(log), [SetColumns(row.value, e.data)], RebuildPlan(id, e.keys, ids));
      return true;
    }

    method Run(coll: string -> string, ids: map<string, nat>, es: seq<Entry<D>>) returns (updated: nat, skipped: nat)
      requires Consistent()
      modifies this
      ensures Consistent() && log == old(log) + Plan(coll, ids, old(people), es)
      ensures Now() == RefreshAll(coll, ids, old(Now()), es)
      ensures updated + skipped == |es|
      ensures updated ==
              |set m: nat | 0 <= m < |es| && (exists p :: p in old(people) && coll(p.name) == coll(es[m].name))|
    {
      updated, skipped := 0, 0;
      ghost var first := people;
      for i := 0 to |es|
        invariant Consistent() && SameRows(first, people)
        invariant log + Plan(coll, ids, first, es[i..]) == old(log) + Plan(coll, ids, first, es)
        invariant RefreshAll(coll, ids, Now(), es[i..]) == RefreshAll(coll, ids, old(Now()), es)
        invariant updated + skipped == i && updated + Hits(coll, first, es[i..]) == Hits(coll, first, es)
      {
        NextEntry(coll, ids, first, Now(), es, i);
        ConcatAssoc(log, EntryPlan(coll, ids, first, es[i]), Plan(coll, ids, first, es[i + 1..]));
        var found := RefreshOne(coll, ids, es[i]);
        if found {
          updated := updated + 1;
        } else {
          skipped := skipped + 1;
        }
      }
      ConcatEmpty(log);
      HitsCount(coll, first, es);
      assert HitAt(coll, first, es) ==
             set m: nat | 0 <= m < |es| && exists p :: p in first && coll(p.name) == coll(es[m].name);
    }
  }

  /** What the entry at position i contributes to the rest of a run. */
  lemma NextEntry<D>(coll: string -> string, ids: map<string, nat>, first: seq<Person<D>>, now: State<D>,
                     es: seq<Entry<D>>, i: nat)
    requires i < |es| && SameRows(first, now.people)
    ensures RefreshAll(coll, ids, now, es[i..]) == RefreshAll(coll, ids, Refresh(coll, ids, now, es[i]), es[i + 1..])
    ensures SameRows(first, Refresh(coll, ids, now, es[i]).people)
    ensures EntryPlan(coll, ids, now.people, es[i]) == EntryPlan(coll, ids, first, es[i])
    ensures Plan(coll, ids, first, es[i..]) == EntryPlan(coll, ids, first, es[i]) + Plan(coll, ids, first, es[i + 1..])
    ensures Find(coll, now.people, es[i].name) == Find(coll, first, es[i].name)
    ensures Hits(coll, first, es[i..]) ==
            (if Find(coll, first, es[i].name).Some? then 1 else 0) + Hits(coll, first, es[i + 1..])
  {
    assert es[i..][0] == es[i] && es[i..][1..] == es[i + 1..];
    FindSame(coll, first, now.people, es[i].name, 0);
  }

  lemma CreatesCons<D>(l: ExpertiseLink, links: seq<ExpertiseLink>)
    ensures Creates<D>([l] + links) == [CreateLink(l)] + Creates<D>(links)
  {
    assert ([l] + links)[1..] == links;
  }

  /** How many entries match a row. */
  function Hits<D>(coll: string -> string, people: seq<Person<D>>, es: seq<Entry<D>>): nat {
    if es == [] then 0 else (if Find(coll, people, es[0].name).Some? then 1 else 0) + Hits(coll, people, es[1..])
  }

  /** The entries whose name some row has. */
  ghost function HitAt<D>(coll: string -> string, people: seq<Person<D>>, es: seq<Entry<D>>): set<nat> {
    set m: nat | 0 <= m < |es| && exists p :: p in people && coll(p.name) == coll(es[m].name)
  }

  lemma {:induction false} HitsSnoc<D>(coll: string -> string, people: seq<Person<D>>, es: seq<Entry<D>>, e: Entry<D>)
    ensures Hits(coll, people, es + [e]) == Hits(coll, people, es) + if Find(coll, people, e.name).Some? then 1 else 0
  {
    if es == [] {
      assert es + [e] == [e] && [e][1..] == [];
    } else {
      ConcatTail(es, [e]);
      HitsSnoc(coll, people, es[1..], e);
    }
  }

  lemma HitAtSnoc<D>(coll: string -> string, people: seq<Person<D>>, es: seq<Entry<D>>, e: Entry<D>)
    ensures |HitAt(coll, people, es + [e])| ==
            |HitAt(coll, people, es)| + if Find(coll, people, e.name).Some? then 1 else 0
  {
    var found := Find(coll, people, e.name);
    var here, before := HitAt(coll, people, es + [e]), HitAt(coll, people, es);
    if found.Some? {
      assert people[found.value] in people;
      assert here == before + {|es|};
    } else {
      assert here == before;
    }
  }

  lemma {:induction false} HitsCount<D>(coll: string -> string, people: seq<Person<D>>, es: seq<Entry<D>>)
    ensures Hits(coll, people, es) == |HitAt(coll, people, es)|
    decreases |es|
  {
    if es == [] {
      assert HitAt(coll, people, es) == {};
    } else {
      var front, e := es[..|es| - 1], es[|es| - 1];
      HitsCount(coll, people, front);
      HitsSnoc(coll, people, front, e);
      HitAtSnoc(coll, people, front, e);
      assert es == front + [e];
    }
  }

  // ---- The rebuilt block ----------------------------------------------------------------

  lemma InCons(head: ExpertiseLink, tail: seq<ExpertiseLink>, l: ExpertiseLink)
    ensures l in [head] + tail <==> l == head || l in tail
  {
  }

  lemma {:induction false} BlockMembers(id: nat, keys: seq<string>, ids: map<string, nat>, from: nat, l: ExpertiseLink)
    ensures l in Block(id, keys, ids, from) <==>
            from <= l.orderIndex < |keys| && keys[l.orderIndex] in ids &&
            l == ExpertiseLink(id, ids[keys[l.orderIndex]], l.orderIndex)
    decreases |keys| - from
  {
    if from < |keys| {
      BlockMembers(id, keys, ids, from + 1, l);
      if keys[from] in ids {
        InCons(ExpertiseLink(id, ids[keys[from]], from), Block(id, keys, ids, from + 1), l);
      } else {
        ConcatEmpty(Block(id, keys, ids, from + 1));
      }
    }
  }

  ghost predicate Ascending(links: seq<ExpertiseLink>) {
    forall a, b :: 0 <= a < b < |links| ==> links[a].orderIndex < links[b].orderIndex
  }

  lemma {:induction false} BlockAscends(id: nat, keys: seq<string>, ids: map<string, nat>, from: nat)
    ensures Ascending(Block(id, keys, ids, from))
    decreases |keys| - from
  {
    if from < |keys| {
      var tail := Block(id, keys, ids, from + 1);
      BlockAscends(id, keys, ids, from + 1);
      forall k | 0 <= k < |tail|
        ensures from < tail[k].orderIndex
      {
        BlockMembers(id, keys, ids, from + 1, tail[k]);
      }
    }
  }

  /** A block holds, in order, exactly one link per known key, at the position of the key. */
  lemma BlockMeans(id: nat, keys: seq<string>, ids: map<string, nat>, from: nat)
    ensures forall l :: l in Block(id, keys, ids, from) <==>
              from <= l.orderIndex < |keys| && keys[l.orderIndex] in ids &&
              l == ExpertiseLink(id, ids[keys[l.orderIndex]], l.orderIndex)
    ensures Ascending(Block(id, keys, ids, from))
  {
    forall l: ExpertiseLink
      ensures l in Block(id, keys, ids, from) <==>
              from <= l.orderIndex < |keys| && keys[l.orderIndex] in ids &&
              l == ExpertiseLink(id, ids[keys[l.orderIndex]], l.orderIndex)
    {
      BlockMembers(id, keys, ids, from, l);
    }
    BlockAscends(id, keys, ids, from);
  }

  /** The commits for one entry: the update of the first row of its name, one deleteMany, then the block. */
  lemma EntryOrder<D>(coll: string -> string, ids: map<string, nat>, people: seq<Person<D>>, e: Entry<D>, i: nat)
    requires i < |people| && coll(people[i].name) == coll(e.name)
    requires forall k :: 0 <= k < i ==> coll(people[k].name) != coll(e.name)
    ensures var ws, block := EntryPlan(coll, ids, people, e), Block(people[i].id, e.keys, ids);
            && |ws| == 2 + |block|
            && ws[0] == SetColumns(i, e.data)
            && ws[1] == DeleteLinks(people[i].id)
            && forall k :: 2 <= k < |ws| ==> ws[k] == CreateLink(block[k - 2])
  {
    CreatesAt<D>(Block(people[i].id, e.keys, ids));
  }

  lemma {:induction false} CreatesAt<D>(links: seq<ExpertiseLink>)
    ensures |Creates<D>(links)| == |links|
    ensures forall k :: 0 <= k < |links| ==> Creates<D>(links)[k] == CreateLink(links[k])
  {
    if links != [] {
      CreatesAt<D>(links[1..]);
      assert forall k :: 0 < k < |links| ==> Creates<D>(links)[k] == Creates<D>(links[1..])[k - 1];
    }
  }

  // ---- Links of everybody and of nobody -------------------------------------------------

  /** The links of instructors outside s, in order. */
  function Minus(links: seq<ExpertiseLink>, s: set<nat>): seq<ExpertiseLink> {
    if links == [] then [] else (if links[0].instructorId in s then [] else [links[0]]) + Minus(links[1..], s)
  }

  lemma {:induction false} MinusConcat(a: seq<ExpertiseLink>, b: seq<ExpertiseLink>, s: set<nat>)
    ensures Minus(a + b, s) == Minus(a, s) + Minus(b, s)
  {
    if a == [] {
      assert a + b == b;
    } else {
      ConcatTail(a, b);
      MinusConcat(a[1..], b, s);
      ConcatAssoc(if a[0].instructorId in s then [] else [a[0]], Minus(a[1..], s), Minus(b, s));
    }
  }

  lemma {:induction false} MinusWithout(links: seq<ExpertiseLink>, id: nat, s: set<nat>)
    ensures Minus(Without(links, id), s) == Minus(links, s + {id})
  {
    if links != [] {
      MinusWithout(links[1..], id, s);
      MinusConcat(if links[0].instructorId == id then [] else [links[0]], Without(links[1..], id), s);
      assert [links[0]][1..] == [];
      assert Minus([links[0]], s) == if links[0].instructorId in s then [] else [links[0]];
    }
  }

  lemma {:induction false} MinusAll(links: seq<ExpertiseLink>, s: set<nat>)
    requires forall l :: l in links ==> l.instructorId in s
    ensures Minus(links, s) == []
  {
    if links != [] {
      assert links[0] in links;
      MinusAll(links[1..], s);
    }
  }

  lemma {:induction false} MinusTwice(links: seq<ExpertiseLink>, s: set<nat>)
    ensures Minus(Minus(links, s), s) == Minus(links, s)
    ensures forall l :: l in Minus(links, s) <==> l in links && l.instructorId !in s
  {
    if links != [] {
      MinusTwice(links[1..], s);
      MinusConcat(if links[0].instructorId in s then [] else [links[0]], Minus(links[1..], s), s);
      assert links == [links[0]] + links[1..];
    }
  }

  // ---- What a run does ------------------------------------------------------------------

  /** Same rows, whatever their profiles: matching cannot tell them apart. */
  ghost predicate SameRows<D>(a: seq<Person<D>>, b: seq<Person<D>>) {
    |a| == |b| && forall i :: 0 <= i < |a| ==> a[i].id == b[i].id && a[i].name == b[i].name
  }

  lemma {:induction false} FindSame<D>(coll: string -> string, a: seq<Person<D>>, b: seq<Person<D>>,
                                       name: string, from: nat)
    requires SameRows(a, b)
    ensures Find(coll, a, name, from) == Find(coll, b, name, from)
    decreases |a| - from
  {
    if from < |a| {
      FindSame(coll, a, b, name, from + 1);
    }
  }

  /** The instructors some entry matches. */
  function Matched<D>(coll: string -> string, people: seq<Person<D>>, es: seq<Entry<D>>): set<nat> {
    if es == [] then {}
    else
      (match Find(coll, people, es[0].name) case None => {} case Some(i) => {people[i].id}) +
      Matched(coll, people, es[1..])
  }

  lemma {:induction false} MatchedSame<D>(coll: string -> string, a: seq<Person<D>>, b: seq<Person<D>>,
                                          es: seq<Entry<D>>)
    requires SameRows(a, b)
    ensures Matched(coll, a, es) == Matched(coll, b, es)
  {
    if es != [] {
      FindSame(coll, a, b, es[0].name, 0);
      MatchedSame(coll, a, b, es[1..]);
    }
  }

  /** The columns the entries matching row i list; for each, the last value listed. */
  function Overlay<D>(coll: string -> string, people: seq<Person<D>>, es: seq<Entry<D>>, i: nat): map<string, D> {
    if es == [] then map[]
    else (if Find(coll, people, es[0].name) == Some(i) then es[0].data else map[]) + Overlay(coll, people, es[1..], i)
  }

  lemma {:induction false} OverlaySame<D>(coll: string -> string, a: seq<Person<D>>, b: seq<Person<D>>,
                                          es: seq<Entry<D>>, i: nat)
    requires SameRows(a, b)
    ensures Overlay(coll, a, es, i) == Overlay(coll, b, es, i)
  {
    if es != [] {
      FindSame(coll, a, b, es[0].name, 0);
      OverlaySame(coll, a, b, es[1..], i);
    }
  }

  lemma OverlayOnce<D>(profile: map<string, D>, first: map<string, D>, rest: map<string, D>)
    ensures (profile + first) + rest == profile + (first + rest)
    ensures profile + map[] == profile && map[] + rest == rest
  {
  }

  /** Every row keeps its place, id and name, and its profile is overlaid by what the entries list for it. */
  lemma {:induction false} PeopleOverlaid<D>(coll: string -> string, ids: map<string, nat>, st: State<D>,
                                             es: seq<Entry<D>>)
    ensures var after := RefreshAll(coll, ids, st, es).people;
            && SameRows(st.people, after)
            && forall i :: 0 <= i < |after| ==>
                 after[i].profile == st.people[i].profile + Overlay(coll, st.people, es, i)
    decreases |es|
  {
    if es != [] {
      var st1 := Refresh(coll, ids, st, es[0]);
      assert SameRows(st.people, st1.people);
      PeopleOverlaid(coll, ids, st1, es[1..]);
      var after := RefreshAll(coll, ids, st, es).people;
      forall i | 0 <= i < |st.people|
        ensures after[i].profile == st.people[i].profile + Overlay(coll, st.people, es, i)
      {
        OverlaySame(coll, st.people, st1.people, es[1..], i);
        OverlayOnce(st.people[i].profile, es[0].data, Overlay(coll, st.people, es[1..], i));
      }
    }
  }

  // ---- By names -------------------------------------------------------------------------

  /** The entry has the name of row i, and no earlier row has it. */
  ghost predicate Takes<D>(coll: string -> string, people: seq<Person<D>>, i: nat, e: Entry<D>) {
    && i < |people|
    && coll(people[i].name) == coll(e.name)
    && forall k :: 0 <= k < i ==> coll(people[k].name) != coll(e.name)
  }

  /** Entry m is the last of those for row i that list the column. */
  ghost predicate LastListing<D>(coll: string -> string, people: seq<Person<D>>, es: seq<Entry<D>>, i: nat,
                                 col: string, m: nat)
  {
    && m < |es| && Takes(coll, people, i, es[m]) && col in es[m].data
    && forall k :: m < k < |es| && Takes(coll, people, i, es[k]) ==> col !in es[k].data
  }

  lemma {:induction false} OverlayAt<D>(coll: string -> string, people: seq<Person<D>>, es: seq<Entry<D>>, i: nat,
                                        col: string)
    returns (m: nat)
    requires i < |people|
    ensures if col in Overlay(coll, people, es, i)
            then LastListing(coll, people, es, i, col, m) && Overlay(coll, people, es, i)[col] == es[m].data[col]
            else forall k :: 0 <= k < |es| && Takes(coll, people, i, es[k]) ==> col !in es[k].data
  {
    m := 0;
    if es != [] {
      var n := OverlayAt(coll, people, es[1..], i, col);
      assert forall k :: 0 < k < |es| ==> es[k] == es[1..][k - 1];
      if col in Overlay(coll, people, es[1..], i) {
        m := n + 1;
        assert es[m] == es[1..][n];
      }
    }
  }

  /**
   Every row keeps its place, id and name.  A column holds the value of the last entry that has the
   row's name, that no earlier row takes, and that lists the column; other columns keep theirs.
   */
  lemma PeopleAfter<D>(coll: string -> string, ids: map<string, nat>, st: State<D>, es: seq<Entry<D>>, i: nat,
                       col: string)
    requires i < |st.people|
    ensures SameRows(st.people, RefreshAll(coll, ids, st, es).people)
    ensures var was, now := st.people[i].profile, RefreshAll(coll, ids, st, es).people[i].profile;
            && (forall m: nat :: LastListing(coll, st.people, es, i, col, m) ==>
                  col in now && now[col] == es[m].data[col])
            && ((forall m :: 0 <= m < |es| && Takes(coll, st.people, i, es[m]) ==> col !in es[m].data) ==>
                  (col in now <==> col in was) && (col in was ==> now[col] == was[col]))
  {
    PeopleOverlaid(coll, ids, st, es);
    var m := OverlayAt(coll, st.people, es, i, col);
    forall k: nat | LastListing(coll, st.people, es, i, col, k)
      ensures col in Overlay(coll, st.people, es, i) && k == m
    {
      if col in Overlay(coll, st.people, es, i) {
        assert !(k < m) && !(m < k);
      }
    }
  }

  /** The links a run builds from nothing. */
  function Built<D>(coll: string -> string, ids: map<string, nat>, people: seq<Person<D>>,
                    es: seq<Entry<D>>): seq<ExpertiseLink>
  {
    RefreshAll(coll, ids, State(people, []), es).links
  }

  lemma {:induction false} BuiltSame<D>(coll: string -> string, ids: map<string, nat>, a: State<D>, b: State<D>,
                                        es: seq<Entry<D>>)
    requires SameRows(a.people, b.people) && a.links == b.links
    ensures RefreshAll(coll, ids, a, es).links == RefreshAll(coll, ids, b, es).links
    decreases |es|
  {
    if es != [] {
      FindSame(coll, a.people, b.people, es[0].name, 0);
      BuiltSame(coll, ids, Refresh(coll, ids, a, es[0]), Refresh(coll, ids, b, es[0]), es[1..]);
    }
  }

  /** One rebuild followed by the rest of the run, seen as one removal and one list of new links. */
  lemma OneRebuilt(links: seq<ExpertiseLink>, id: nat, block: seq<ExpertiseLink>, rest: set<nat>,
                   built: seq<ExpertiseLink>)
    ensures Minus(Without(links, id) + block, rest) + built == Minus(links, rest + {id}) + (Minus(block, rest) + built)
    ensures Minus(Without([], id) + block, rest) + built == Minus(block, rest) + built
  {
    MinusConcat(Without(links, id), block, rest);
    MinusWithout(links, id, rest);
    assert [] + block == block;
  }

  /** The links of unmatched instructors come first, unchanged; what follows does not depend on the old links. */
  lemma {:induction false} LinksSplit<D>(coll: string -> string, ids: map<string, nat>, st: State<D>, es: seq<Entry<D>>)
    ensures RefreshAll(coll, ids, st, es).links ==
            Minus(st.links, Matched(coll, st.people, es)) + Built(coll, ids, st.people, es)
    ensures forall l :: l in Built(coll, ids, st.people, es) ==> l.instructorId in Matched(coll, st.people, es)
    decreases |es|
  {
    if es == [] {
      NothingRemoved(st.links);
      assert st.links + [] == st.links;
    } else {
      var bare := State(st.people, []);
      var st1, bare1 := Refresh(coll, ids, st, es[0]), Refresh(coll, ids, bare, es[0]);
      var rest := Matched(coll, st1.people, es[1..]);
      var built := Built(coll, ids, st1.people, es[1..]);
      LinksSplit(coll, ids, st1, es[1..]);
      LinksSplit(coll, ids, bare1, es[1..]);
      MatchedSame(coll, st.people, st1.people, es[1..]);
      match Find(coll, st.people, es[0].name)
      case None =>
        assert {} + rest == rest && Minus([], rest) + built == built;
      case Some(i) =>
        var id := st.people[i].id;
        var block := Block(id, es[0].keys, ids);
        BlockMeans(id, es[0].keys, ids, 0);
        OneRebuilt(st.links, id, block, rest, built);
        MinusTwice(block, rest);
        assert {id} + rest == rest + {id};
    }
  }

  lemma {:induction false} NothingRemoved(links: seq<ExpertiseLink>)
    ensures Minus(links, {}) == links
  {
    if links != [] {
      NothingRemoved(links[1..]);
    }
  }

  // ---- The links of one instructor ------------------------------------------------------

  /** The links of one instructor, in order. */
  function Only(links: seq<ExpertiseLink>, id: nat): seq<ExpertiseLink> {
    if links == [] then [] else (if links[0].instructorId == id then [links[0]] else []) + Only(links[1..], id)
  }

  lemma {:induction false} OnlyConcat(a: seq<ExpertiseLink>, b: seq<ExpertiseLink>, id: nat)
    ensures Only(a + b, id) == Only(a, id) + Only(b, id)
  {
    if a == [] {
      assert a + b == b;
    } else {
      ConcatTail(a, b);
      OnlyConcat(a[1..], b, id);
      ConcatAssoc(if a[0].instructorId == id then [a[0]] else [], Only(a[1..], id), Only(b, id));
    }
  }

  lemma {:induction false} OnlyWithout(links: seq<ExpertiseLink>, other: nat, id: nat)
    ensures Only(Without(links, other), id) == if other == id then [] else Only(links, id)
  {
    if links != [] {
      OnlyWithout(links[1..], other, id);
      OnlyConcat(if links[0].instructorId == other then [] else [links[0]], Without(links[1..], other), id);
      OnlySingle(links[0], id);
    }
  }

  lemma OnlySingle(l: ExpertiseLink, id: nat)
    ensures Only([l], id) == if l.instructorId == id then [l] else []
  {
    assert [l][1..] == [];
  }

  lemma {:induction false} OnlyOfOne(links: seq<ExpertiseLink>, other: nat, id: nat)
    requires forall l :: l in links ==> l.instructorId == other
    ensures Only(links, id) == if other == id then links else []
  {
    if links != [] {
      assert links[0] in links;
      OnlyOfOne(links[1..], other, id);
    }
  }

  /** The last entry that matches a row with the id. */
  function LastMatch<D>(coll: string -> string, people: seq<Person<D>>, es: seq<Entry<D>>, id: nat): Option<Entry<D>> {
    if es == [] then None
    else
      var later := LastMatch(coll, people, es[1..], id);
      if later.Some? then later
      else
        match Find(coll, people, es[0].name)
        case Some(i) => if people[i].id == id then Some(es[0]) else None
        case None => None
  }

  lemma {:induction false} LastMatchSame<D>(coll: string -> string, a: seq<Person<D>>, b: seq<Person<D>>,
                                            es: seq<Entry<D>>, id: nat)
    requires SameRows(a, b)
    ensures LastMatch(coll, a, es, id) == LastMatch(coll, b, es, id)
  {
    if es != [] {
      FindSame(coll, a, b, es[0].name, 0);
      LastMatchSame(coll, a, b, es[1..], id);
    }
  }

  /** One refresh, seen from one instructor. */
  lemma OneRefresh<D>(coll: string -> string, ids: map<string, nat>, st: State<D>, e: Entry<D>, id: nat)
    ensures Only(Refresh(coll, ids, st, e).links, id) ==
            match Find(coll, st.people, e.name)
            case None => Only(st.links, id)
            case Some(i) => if st.people[i].id == id then Block(id, e.keys, ids) else Only(st.links, id)
  {
    match Find(coll, st.people, e.name)
    case None =>
    case Some(i) =>
      var other := st.people[i].id;
      var block := Block(other, e.keys, ids);
      BlockMeans(other, e.keys, ids, 0);
      OnlyConcat(Without(st.links, other), block, id);
      OnlyWithout(st.links, other, id);
      OnlyOfOne(block, other, id);
      ConcatEmpty(block);
      ConcatEmpty(Only(st.links, id));
  }

  lemma {:induction false} LinksOfLast<D>(coll: string -> string, ids: map<string, nat>, st: State<D>,
                                          es: seq<Entry<D>>, id: nat)
    ensures Only(RefreshAll(coll, ids, st, es).links, id) ==
            match LastMatch(coll, st.people, es, id)
            case None => Only(st.links, id)
            case Some(e) => Block(id, e.keys, ids)
    decreases |es|
  {
    if es != [] {
      var st1 := Refresh(coll, ids, st, es[0]);
      assert SameRows(st.people, st1.people);
      OneRefresh(coll, ids, st, es[0], id);
      LastMatchSame(coll, st.people, st1.people, es[1..], id);
      LinksOfLast(coll, ids, st1, es[1..], id);
    }
  }

  /** The entry is for the instructor with the id. */
  ghost predicate IsFor<D>(coll: string -> string, people: seq<Person<D>>, id: nat, e: Entry<D>) {
    exists i: nat :: Takes(coll, people, i, e) && people[i].id == id
  }

  /** Entry m is the last one for the instructor. */
  ghost predicate LastFor<D>(coll: string -> string, people: seq<Person<D>>, es: seq<Entry<D>>, id: nat, m: nat) {
    && m < |es| && IsFor(coll, people, id, es[m])
    && forall k :: m < k < |es| ==> !IsFor(coll, people, id, es[k])
  }

  lemma FoundIsFor<D>(coll: string -> string, people: seq<Person<D>>, id: nat, e: Entry<D>)
    ensures IsFor(coll, people, id, e) <==>
            Find(coll, people, e.name).Some? && people[Find(coll, people, e.name).value].id == id
  {
    var found := Find(coll, people, e.name);
    if found.Some? {
      assert Takes(coll, people, found.value, e);
      forall i: nat | Takes(coll, people, i, e)
        ensures i == found.value
      {
        assert !(i < found.value) && !(found.value < i);
      }
    }
  }

  lemma {:induction false} LastMatchIs<D>(coll: string -> string, people: seq<Person<D>>, es: seq<Entry<D>>, id: nat)
    returns (m: nat)
    ensures match LastMatch(coll, people, es, id)
            case Some(e) => LastFor(coll, people, es, id, m) && es[m] == e
            case None => forall k :: 0 <= k < |es| ==> !IsFor(coll, people, id, es[k])
  {
    m := 0;
    if es != [] {
      var n := LastMatchIs(coll, people, es[1..], id);
      FoundIsFor(coll, people, id, es[0]);
      assert forall k :: 0 < k < |es| ==> es[k] == es[1..][k - 1];
      if LastMatch(coll, people, es[1..], id).Some? {
        m := n + 1;
        assert es[m] == es[1..][n];
      }
    }
  }

  /**
   An instructor ends with the links of the last entry for it, in the order of its keys, and keeps
   the old ones, in order, when there is none.
   */
  lemma LinksAfter<D>(coll: string -> string, ids: map<string, nat>, st: State<D>, es: seq<Entry<D>>, id: nat)
    ensures forall m: nat :: LastFor(coll, st.people, es, id, m) ==>
              Only(RefreshAll(coll, ids, st, es).links, id) == Block(id, es[m].keys, ids)
    ensures (forall m :: 0 <= m < |es| ==> !IsFor(coll, st.people, id, es[m])) ==>
              Only(RefreshAll(coll, ids, st, es).links, id) == Only(st.links, id)
  {
    LinksOfLast(coll, ids, st, es, id);
    var m := LastMatchIs(coll, st.people, es, id);
    forall k: nat | LastFor(coll, st.people, es, id, k)
      ensures LastMatch(coll, st.people, es, id).Some? && k == m
    {
      if LastMatch(coll, st.people, es, id).Some? {
        assert !(k < m) && !(m < k);
      }
    }
  }

  /** The links of unmatched instructors also keep their order among each other. */
  lemma OthersKeepOrder<D>(coll: string -> string, ids: map<string, nat>, st: State<D>, es: seq<Entry<D>>)
    ensures var s := Matched(coll, st.people, es);
            Minus(RefreshAll(coll, ids, st, es).links, s) == Minus(st.links, s)
  {
    var s, built := Matched(coll, st.people, es), Built(coll, ids, st.people, es);
    LinksSplit(coll, ids, st, es);
    MinusConcat(Minus(st.links, s), built, s);
    MinusTwice(st.links, s);
    MinusAll(built, s);
    assert Minus(st.links, s) + [] == Minus(st.links, s);
  }

  /** Running the refresh twice leaves the tables exactly as running it once. */
  lemma RefreshTwice<D>(coll: string -> string, ids: map<string, nat>, st: State<D>, es: seq<Entry<D>>)
    ensures RefreshAll(coll, ids, RefreshAll(coll, ids, st, es), es) == RefreshAll(coll, ids, st, es)
  {
    var one := RefreshAll(coll, ids, st, es);
    var two := RefreshAll(coll, ids, one, es);
    var s, built := Matched(coll, st.people, es), Built(coll, ids, st.people, es);
    PeopleOverlaid(coll, ids, st, es);
    PeopleOverlaid(coll, ids, one, es);
    forall i | 0 <= i < |one.people|
      ensures two.people[i] == one.people[i]
    {
      OverlaySame(coll, st.people, one.people, es, i);
    }
    assert two.people == one.people;
    LinksSplit(coll, ids, st, es);
    LinksSplit(coll, ids, one, es);
    MatchedSame(coll, st.people, one.people, es);
    BuiltSame(coll, ids, State(st.people, []), State(one.people, []), es);
    MinusConcat(Minus(st.links, s), built, s);
    MinusTwice(st.links, s);
    MinusAll(built, s);
    assert Minus(st.links, s) + [] == Minus(st.links, s);
  }

  // ---- Stopping and running again -------------------------------------------------------

  /** A write touches only columns the entries list for the row, and only links of matched instructors. */
  ghost predicate WithinReach<D>(coll: string -> string, people: seq<Person<D>>, es: seq<Entry<D>>, w: Write<D>) {
    match w
    case SetColumns(i, data) => data.Keys <= Overlay(coll, people, es, i).Keys
    case DeleteLinks(id) => id in Matched(coll, people, es)
    case CreateLink(link) => link.instructorId in Matched(coll, people, es)
  }

  ghost predicate AllWithinReach<D>(coll: string -> string, people: seq<Person<D>>, es: seq<Entry<D>>,
                                    ws: seq<Write<D>>)
  {
    forall k :: 0 <= k < |ws| ==> WithinReach(coll, people, es, ws[k])
  }

  lemma {:induction false} CreatesAre<D>(links: seq<ExpertiseLink>, k: nat)
    requires k < |Creates<D>(links)|
    ensures k < |links| && Creates<D>(links)[k] == CreateLink(links[k])
  {
    if k > 0 {
      CreatesAre<D>(links[1..], k - 1);
    }
  }

  lemma RebuildWithinReach<D>(coll: string -> string, ids: map<string, nat>, people: seq<Person<D>>,
                              es: seq<Entry<D>>, id: nat, keys: seq<string>)
    requires id in Matched(coll, people, es)
    ensures AllWithinReach(coll, people, es, RebuildPlan(id, keys, ids))
  {
    var ws := RebuildPlan<D>(id, keys, ids);
    forall k | 0 <= k < |ws|
      ensures WithinReach(coll, people, es, ws[k])
    {
      if k > 0 {
        var block := Block(id, keys, ids);
        CreatesAre<D>(block, k - 1);
        BlockMembers(id, keys, ids, 0, block[k - 1]);
      }
    }
  }

  lemma {:induction false} PlanWithinReach<D>(coll: string -> string, ids: map<string, nat>, people: seq<Person<D>>,
                                              es: seq<Entry<D>>)
    ensures AllWithinReach(coll, people, es, Plan(coll, ids, people, es))
    decreases |es|
  {
    if es != [] {
      PlanWithinReach(coll, ids, people, es[1..]);
      match Find(coll, people, es[0].name)
      case None =>
        ConcatEmpty(Plan(coll, ids, people, es[1..]));
        ReachGrows(coll, people, es, Plan(coll, ids, people, es[1..]));
      case Some(i) =>
        var id := people[i].id;
        ReachGrows(coll, people, es, Plan(coll, ids, people, es[1..]));
        RebuildWithinReach(coll, ids, people, es, id, es[0].keys);
        assert WithinReach(coll, people, es, SetColumns(i, es[0].data));
    }
  }

  lemma ReachGrows<D>(coll: string -> string, people: seq<Person<D>>, es: seq<Entry<D>>, ws: seq<Write<D>>)
    requires es != [] && AllWithinReach(coll, people, es[1..], ws)
    ensures AllWithinReach(coll, people, es, ws)
  {
    forall k | 0 <= k < |ws|
      ensures WithinReach(coll, people, es, ws[k])
    {
      assert WithinReach(coll, people, es[1..], ws[k]);
    }
  }

  /** The two states differ only in what a run overwrites. */
  ghost predicate SameBeyondReach<D>(coll: string -> string, es: seq<Entry<D>>, a: State<D>, b: State<D>) {
    && SameRows(a.people, b.people)
    && (forall i :: 0 <= i < |a.people| ==>
          b.people[i].profile + Overlay(coll, a.people, es, i) == a.people[i].profile + Overlay(coll, a.people, es, i))
    && Minus(b.links, Matched(coll, a.people, es)) == Minus(a.links, Matched(coll, a.people, es))
  }

  lemma OverlayHides<D>(profile: map<string, D>, data: map<string, D>, overlay: map<string, D>)
    requires data.Keys <= overlay.Keys
    ensures (profile + data) + overlay == profile + overlay
  {
  }

  lemma OneWriteWithinReach<D>(coll: string -> string, es: seq<Entry<D>>, a: State<D>, b: State<D>, w: Write<D>)
    requires SameBeyondReach(coll, es, a, b) && WithinReach(coll, a.people, es, w)
    ensures SameBeyondReach(coll, es, a, Apply(b, w))
  {
    var s := Matched(coll, a.people, es);
    match w
    case SetColumns(i, data) =>
      if i < |b.people| {
        OverlayHides(b.people[i].profile, data, Overlay(coll, a.people, es, i));
      }
    case DeleteLinks(id) =>
      MinusWithout(b.links, id, s);
      assert s + {id} == s;
    case CreateLink(link) =>
      MinusConcat(b.links, [link], s);
      MinusAll([link], s);
      ConcatEmpty(Minus(b.links, s));
  }

  lemma {:induction false} WritesWithinReach<D>(coll: string -> string, es: seq<Entry<D>>, a: State<D>, b: State<D>,
                                                ws: seq<Write<D>>)
    requires SameBeyondReach(coll, es, a, b) && AllWithinReach(coll, a.people, es, ws)
    ensures SameBeyondReach(coll, es, a, ApplyAll(b, ws))
    decreases |ws|
  {
    if ws != [] {
      assert WithinReach(coll, a.people, es, ws[0]);
      OneWriteWithinReach(coll, es, a, b, ws[0]);
      assert forall k :: 0 <= k < |ws[1..]| ==> ws[1..][k] == ws[k + 1];
      WritesWithinReach(coll, es, a, Apply(b, ws[0]), ws[1..]);
    }
  }

  /** A run makes equal what differs only within its reach. */
  lemma RefreshForgets<D>(coll: string -> string, ids: map<string, nat>, es: seq<Entry<D>>, a: State<D>, b: State<D>)
    requires SameBeyondReach(coll, es, a, b)
    ensures RefreshAll(coll, ids, b, es) == RefreshAll(coll, ids, a, es)
  {
    var x, y := RefreshAll(coll, ids, a, es), RefreshAll(coll, ids, b, es);
    PeopleOverlaid(coll, ids, a, es);
    PeopleOverlaid(coll, ids, b, es);
    forall i | 0 <= i < |a.people|
      ensures x.people[i] == y.people[i]
    {
      OverlaySame(coll, a.people, b.people, es, i);
    }
    assert x.people == y.people;
    LinksSplit(coll, ids, a, es);
    LinksSplit(coll, ids, b, es);
    MatchedSame(coll, a.people, b.people, es);
    BuiltSame(coll, ids, State(a.people, []), State(b.people, []), es);
  }

  /**
   Stop a run after any k of its commits, between an update, a deleteMany and any of the creates, and
   run it again: the tables are exactly those of one uninterrupted run.
   */
  lemma CrashAndRefresh<D>(coll: string -> string, ids: map<string, nat>, st: State<D>, es: seq<Entry<D>>, k: nat)
    requires k <= |Plan(coll, ids, st.people, es)|
    ensures var after := ApplyAll(st, Plan(coll, ids, st.people, es)[..k]);
            RefreshAll(coll, ids, after, es) == RefreshAll(coll, ids, st, es)
  {
    var ws := Plan(coll, ids, st.people, es);
    PlanWithinReach(coll, ids, st.people, es);
    assert AllWithinReach(coll, st.people, es, ws[..k]);
    WritesWithinReach(coll, es, st, st, ws[..k]);
    RefreshForgets(coll, ids, es, st, ApplyAll(st, ws[..k]));
  }

  /** The tables after runs that were each stopped after at most so many commits. */
  function AfterCuts<D>(coll: string -> string, ids: map<string, nat>, st: State<D>, es: seq<Entry<D>>,
                        cuts: seq<nat>): State<D>
    decreases |cuts|
  {
    if cuts == [] then st
    else
      var ws := Plan(coll, ids, st.people, es);
      var k := if cuts[0] < |ws| then cuts[0] else |ws|;
      AfterCuts(coll, ids, ApplyAll(st, ws[..k]), es, cuts[1..])
  }

  /** Any number of stops and then one complete run: the same tables again. */
  lemma {:induction false} ManyCrashes<D>(coll: string -> string, ids: map<string, nat>, st: State<D>,
                                          es: seq<Entry<D>>, cuts: seq<nat>)
    ensures RefreshAll(coll, ids, AfterCuts(coll, ids, st, es, cuts), es) == RefreshAll(coll, ids, st, es)
    decreases |cuts|
  {
    if cuts != [] {
      var ws := Plan(coll, ids, st.people, es);
      var k := if cuts[0] < |ws| then cuts[0] else |ws|;
      CrashAndRefresh(coll, ids, st, es, k);
      ManyCrashes(coll, ids, ApplyAll(st, ws[..k]), es, cuts[1..]);
    }
  }
}
