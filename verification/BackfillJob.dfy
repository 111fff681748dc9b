/** The back-fill script itself, run against a database object, proved to carry out Backfill.RunPlan. */
module BackfillJob {
  import opened Common
  import opened Slug
  import opened Backfill
  import opened BackfillReads
  import opened BackfillLaws

  class Database {
    var instructors: seq<Instructor>
    var courses: seq<Course>
    var links: seq<Link>
    var nextId: nat
    ghost const start: Db      // the tables at first
    ghost var log: seq<Write>  // the writes committed since, in order

    constructor (db: Db)
      ensures State() == start == db && log == [] && Consistent()
    {
      instructors, courses, links, nextId := db.instructors, db.courses, db.links, db.nextId;
      start, log := db, [];
    }

    /** At every moment the tables are those at first with the writes of the log applied. */
    ghost predicate Consistent()
      reads this
    {
      State() == ApplyAll(start, log)
    }

    function State(): Db
      reads this
    {
      Db(instructors, courses, links, nextId)
    }

    /** findUnique on the slug index. */
    method SlugTaken(slug: string) returns (taken: bool)
      ensures taken == (slug in Slugs(instructors))
    {
      taken := exists r :: r in instructors && r.slug == slug;
    }

    /** instructor.create: fails on the unique slug index, otherwise appends a published row. */
    method CreateInstructor(slug: string, name: string) returns (id: Option<nat>)
      requires Consistent()
      modifies this
      ensures Consistent()
      ensures slug in Slugs(old(instructors)) ==> id == None && State() == old(State()) && log == old(log)
      ensures slug !in Slugs(old(instructors)) ==>
                && id == Some(old(nextId))
                && State() == Apply(old(State()), NewInstructor(old(nextId), slug, name))
                && log == old(log) + [NewInstructor(old(nextId), slug, name)]
    {
      if exists r :: r in instructors && r.slug == slug {
        return None;
      }
      id := Some(nextId);
      OneMore(start, log, NewInstructor(nextId, slug, name));
      log := log + [NewInstructor(nextId, slug, name)];
      instructors := instructors + [Instructor(nextId, slug, name, true, 0)];
      nextId := nextId + 1;
    }

    /** courseInstructorLink.create */
    method CreateLink(courseId: string, instructorId: nat)
      requires Consistent()
      modifies this
      ensures Consistent()
      ensures State() == Apply(old(State()), NewLink(courseId, instructorId))
      ensures log == old(log) + [NewLink(courseId, instructorId)]
    {
      OneMore(start, log, NewLink(courseId, instructorId));
      log := log + [NewLink(courseId, instructorId)];
      links := links + [Link(courseId, instructorId, RoleInstructor, true, 0)];
    }
  }

  /** ensureUniqueSlug */
  method EnsureUniqueSlug(db: Database, base: string, stamp: Digest) returns (slug: string)
    ensures slug == UniqueSlug(Slugs(db.instructors), base, stamp)
  {
    var candidate := base;
    var suffix := 0;
    while suffix < TRIES
      invariant suffix <= TRIES && candidate == Candidate(base, suffix)
      invariant FirstFree(Slugs(db.instructors), base, 0) == FirstFree(Slugs(db.instructors), base, suffix)
    {
      var existing := db.SlugTaken(candidate);
      if !existing {
        return candidate;
      }
      suffix := suffix + 1;
      candidate := base + "-" + Decimal(suffix);
    }
    return base + "-" + stamp[..6];
  }

  // ---- The first loop -------------------------------------------------------------------

  /** One plan carried out after another. */
  function Then(p: Plan, q: Plan): Plan {
    if p.done then Plan(p.writes + q.writes, q.done) else p
  }

  lemma ThenCons(w: Write, p: Plan, q: Plan)
    ensures Then(Plan([w] + p.writes, p.done), q) == Plan([w] + Then(p, q).writes, Then(p, q).done)
  {
    assert [w] + (p.writes + q.writes) == ([w] + p.writes) + q.writes;
  }

  /** Planning for a list of names is planning for its parts, one after the other. */
  lemma {:induction false} PlanConcat(env: Env, db: Db, a: seq<string>, b: seq<string>)
    ensures var p := InstructorPlan(env, db, a);
            InstructorPlan(env, db, a + b) == Then(p, InstructorPlan(env, ApplyAll(db, p.writes), b))
    decreases |a|
  {
    var p := InstructorPlan(env, db, a);
    var q := InstructorPlan(env, ApplyAll(db, p.writes), b);
    if a == [] {
      assert a + b == b && [] + q.writes == q.writes;
    } else {
      ConcatTail(a, b);
      if FindByName(env, db.instructors, a[0]).Some? {
        PlanConcat(env, db, a[1..], b);
      } else if SlugFor(env, db, a[0]) !in Slugs(db.instructors) {
        var w := NewInstructor(db.nextId, SlugFor(env, db, a[0]), a[0]);
        var rest := InstructorPlan(env, Apply(db, w), a[1..]);
        PlanConcat(env, Apply(db, w), a[1..], b);
        assert p.writes[1..] == rest.writes;
        ThenCons(w, rest, q);
      }
    }
  }

  lemma PlanOne(env: Env, db: Db, name: string)
    ensures var slug := SlugFor(env, db, name);
            InstructorPlan(env, db, [name]) ==
            if FindByName(env, db.instructors, name).Some? then Plan([], true)
            else if slug in Slugs(db.instructors) then Plan([], false)
            else Plan([NewInstructor(db.nextId, slug, name)], true)
  {
    assert [name][1..] == [];
    var w := NewInstructor(db.nextId, SlugFor(env, db, name), name);
    assert InstructorPlan(env, Apply(db, w), []) == Plan([], true);
    assert [w] + [] == [w];
  }

  /** One round: look the name up, or create it under a free slug. */
  method FindOrCreateOne(db: Database, env: Env, name: string) returns (id: Option<nat>)
    requires db.Consistent()
    modifies db
    ensures db.Consistent()
    ensures var p := InstructorPlan(env, old(db.State()), [name]);
            && db.State() == ApplyAll(old(db.State()), p.writes)
            && db.log == old(db.log) + p.writes
            && id.Some? == p.done
    ensures id.Some? ==>
              FindByName(env, db.instructors, name).Some? &&
              id.value == FindByName(env, db.instructors, name).value.id
  {
    PlanOne(env, db.State(), name);
    var existing := FindByName(env, db.instructors, name);
    if existing.Some? {
      assert db.log + [] == db.log;
      return Some(existing.value.id);
    }
    var baseSlug := Slugify(name, env.sha1);
    var slug := EnsureUniqueSlug(db, baseSlug, env.stamp(baseSlug, db.nextId));
    CreatedIsFound(env, db.State(), slug, name);
    ApplyOne(db.State(), NewInstructor(db.nextId, slug, name));
    assert db.log + [] == db.log;
    id := db.CreateInstructor(slug, name);
  }

  lemma OneMore(db: Db, ws: seq<Write>, w: Write)
    ensures ApplyAll(db, ws + [w]) == Apply(ApplyAll(db, ws), w)
  {
    ApplyConcat(db, ws, [w]);
    ApplyOne(ApplyAll(db, ws), w);
  }

  lemma ApplyOne(db: Db, w: Write)
    ensures ApplyAll(db, [w]) == Apply(db, w)
  {
    assert [w][1..] == [];
  }

  /** The names before position i are done: their writes are committed and their ids known. */
  ghost predicate FoundUpTo(env: Env, start: Db, now: Db, names: seq<string>, i: nat, ids: map<string, nat>)
    requires i <= |names|
  {
    var p := InstructorPlan(env, start, names[..i]);
    && p.done && now == ApplyAll(start, p.writes)
    && ids == Ids(env, now.instructors, names[..i])
    && forall n :: n in names[..i] ==> n in ids
  }

  lemma ApplyThen(db: Db, p: Plan, q: Plan)
    requires p.done
    ensures Then(p, q).writes == p.writes + q.writes
    ensures ApplyAll(ApplyAll(db, p.writes), q.writes) == ApplyAll(db, Then(p, q).writes)
  {
    ApplyConcat(db, p.writes, q.writes);
  }

  /** One more name: its own plan is appended. */
  lemma PlanFurther(env: Env, start: Db, now: Db, names: seq<string>, i: nat)
    requires i < |names| && InstructorPlan(env, start, names[..i]).done
    requires now == ApplyAll(start, InstructorPlan(env, start, names[..i]).writes)
    ensures InstructorPlan(env, start, names[..i + 1]) ==
            Then(InstructorPlan(env, start, names[..i]), InstructorPlan(env, now, [names[i]]))
    ensures ApplyAll(now, InstructorPlan(env, now, [names[i]]).writes) ==
            ApplyAll(start, InstructorPlan(env, start, names[..i + 1]).writes)
  {
    assert names[..i + 1] == names[..i] + [names[i]];
    PlanConcat(env, start, names[..i], [names[i]]);
    ApplyThen(start, InstructorPlan(env, start, names[..i]), InstructorPlan(env, now, [names[i]]));
  }

  /** An abort at one name is an abort of the whole loop. */
  lemma PlanAborts(env: Env, start: Db, names: seq<string>, i: nat)
    requires i <= |names| && !InstructorPlan(env, start, names[..i]).done
    ensures InstructorPlan(env, start, names) == InstructorPlan(env, start, names[..i])
  {
    assert names == names[..i] + names[i..];
    PlanConcat(env, start, names[..i], names[i..]);
  }

  lemma OneNameFurther(env: Env, start: Db, now: Db, names: seq<string>, i: nat, ids: map<string, nat>)
    requires i < |names| && FoundUpTo(env, start, now, names, i, ids)
    requires InstructorPlan(env, now, [names[i]]).done
    ensures var after := ApplyAll(now, InstructorPlan(env, now, [names[i]]).writes);
            FindByName(env, after.instructors, names[i]).Some? ==>
              var id := FindByName(env, after.instructors, names[i]).value.id;
              FoundUpTo(env, start, after, names, i + 1, ids[names[i] := id])
  {
    var p := InstructorPlan(env, now, [names[i]]);
    PlanFurther(env, start, now, names, i);
    assert names[..i] + [names[i]] == names[..i + 1];
    if FindByName(env, ApplyAll(now, p.writes).instructors, names[i]).Some? {
      IdsGrow(env, now, p.writes, names[..i], names[i]);
    }
  }

  /** The writes of two steps in the log are the writes of both. */
  lemma LogJoined(log: seq<Write>, first: seq<Write>, second: seq<Write>)
    ensures log + first + second == log + (first + second)
  {
  }

  /** The find-or-create loop; None when a create is refused. */
  method FindOrCreate(db: Database, env: Env, names: seq<string>) returns (byName: Option<map<string, nat>>)
    requires db.Consistent()
    modifies db
    ensures db.Consistent()
    ensures var p := InstructorPlan(env, old(db.State()), names);
            && db.State() == ApplyAll(old(db.State()), p.writes)
            && db.log == old(db.log) + p.writes
            && byName == if p.done then Some(Ids(env, db.instructors, names)) else None
  {
    var ids: map<string, nat> := map[];
    ghost var start := db.State();
    assert names[..0] == [] && db.log + [] == db.log;
    for i := 0 to |names|
      invariant db.Consistent()
      invariant FoundUpTo(env, start, db.State(), names, i, ids)
      invariant db.log == old(db.log) + InstructorPlan(env, start, names[..i]).writes
    {
      ghost var now := db.State();
      PlanFurther(env, start, now, names, i);
      LogJoined(old(db.log), InstructorPlan(env, start, names[..i]).writes,
                InstructorPlan(env, now, [names[i]]).writes);
      var id := FindOrCreateOne(db, env, names[i]);
      if id.None? {
        PlanAborts(env, start, names, i + 1);
        return None;
      }
      OneNameFurther(env, start, now, names, i, ids);
      ids := ids[names[i] := id.value];
    }
    assert names[..|names|] == names;
    return Some(ids);
  }

  /** Names already in the map keep their ids, and the new name joins them. */
  lemma IdsGrow(env: Env, db: Db, ws: seq<Write>, names: seq<string>, name: string)
    requires forall n :: n in names ==> n in Ids(env, db.instructors, names)
    requires FindByName(env, ApplyAll(db, ws).instructors, name).Some?
    ensures var rows := ApplyAll(db, ws).instructors;
            && Ids(env, rows, names + [name]) ==
               Ids(env, db.instructors, names)[name := FindByName(env, rows, name).value.id]
            && forall n :: n in names + [name] ==> n in Ids(env, rows, names + [name])
  {
    forall n | n in names
      ensures FindByName(env, ApplyAll(db, ws).instructors, n) == FindByName(env, db.instructors, n)
    {
      FindStable(env, db, ws, n);
    }
  }

  // ---- The second loop ------------------------------------------------------------------

  lemma {:induction false} LinkPlanConcat(db: Db, ids: map<string, nat>, a: seq<Course>, b: seq<Course>)
    ensures LinkPlan(db, ids, a + b) == LinkPlan(db, ids, a) + LinkPlan(ApplyAll(db, LinkPlan(db, ids, a)), ids, b)
    decreases |a|
  {
    if a == [] {
      assert a + b == b;
    } else {
      ConcatTail(a, b);
      if NeedsLink(db.links, ids, a[0]) {
        var w := NewLink(a[0].id, ids[Trim(a[0].instructor)]);
        var rest := LinkPlan(Apply(db, w), ids, a[1..]);
        LinkPlanConcat(Apply(db, w), ids, a[1..], b);
        assert ([w] + rest)[1..] == rest;
        ConcatAssoc([w], rest, LinkPlan(ApplyAll(Apply(db, w), rest), ids, b));
      } else {
        LinkPlanConcat(db, ids, a[1..], b);
      }
    }
  }

  lemma LinkPlanOne(db: Db, ids: map<string, nat>, c: Course)
    ensures LinkPlan(db, ids, [c]) ==
            if NeedsLink(db.links, ids, c) then [NewLink(c.id, ids[Trim(c.instructor)])] else []
  {
    assert [c][1..] == [];
  }

  /** What a round did for its course. */
  datatype Outcome = Blank | NotFound | AlreadyLinked | NewlyLinked

  method LinkOne(db: Database, byName: map<string, nat>, course: Course) returns (outcome: Outcome)
    requires db.Consistent()
    modifies db
    ensures db.Consistent()
    ensures var ws := LinkPlan(old(db.State()), byName, [course]);
            && db.State() == ApplyAll(old(db.State()), ws)
            && db.log == old(db.log) + ws
            && |ws| == if outcome == NewlyLinked then 1 else 0
    ensures outcome == Blank <==> Trim(course.instructor) == ""
    ensures outcome == NotFound <==> Trim(course.instructor) != "" && Trim(course.instructor) !in byName
  {
    LinkPlanOne(db.State(), byName, course);
    assert db.log + [] == db.log;
    var name := Trim(course.instructor);
    if name == "" {
      return Blank;
    }
    if name !in byName {
      return NotFound;
    }
    var instructorId := byName[name];
    if HasLink(db.links, course.id, instructorId) {
      return AlreadyLinked;
    }
    ApplyOne(db.State(), NewLink(course.id, instructorId));
    db.CreateLink(course.id, instructorId);
    return NewlyLinked;
  }

  lemma {:induction false} EligibleSnoc(cs: seq<Course>, c: Course)
    ensures Eligible(cs + [c]) == Eligible(cs) + if Trim(c.instructor) != "" then 1 else 0
  {
    if cs == [] {
      assert [c][1..] == [];
      assert cs + [c] == [c];
    } else {
      ConcatTail(cs, [c]);
      EligibleSnoc(cs[1..], c);
    }
  }

  /** The links planned for one more course. */
  lemma OneCourseFurther(start: Db, now: Db, ids: map<string, nat>, cs: seq<Course>, i: nat)
    requires i < |cs| && now == ApplyAll(start, LinkPlan(start, ids, cs[..i]))
    ensures LinkPlan(start, ids, cs[..i + 1]) == LinkPlan(start, ids, cs[..i]) + LinkPlan(now, ids, [cs[i]])
    ensures ApplyAll(now, LinkPlan(now, ids, [cs[i]])) == ApplyAll(start, LinkPlan(start, ids, cs[..i + 1]))
    ensures Eligible(cs[..i + 1]) == Eligible(cs[..i]) + if Trim(cs[i].instructor) != "" then 1 else 0
  {
    assert cs[..i] + [cs[i]] == cs[..i + 1];
    LinkPlanConcat(start, ids, cs[..i], [cs[i]]);
    ApplyConcat(start, LinkPlan(start, ids, cs[..i]), LinkPlan(now, ids, [cs[i]]));
    EligibleSnoc(cs[..i], cs[i]);
  }

  /** Counters of the second loop; unmatched counts the warnings about unknown instructors. */
  datatype Counts = Counts(linked: nat, skipped: nat, unmatched: nat)

  /** The loop over the courses. */
  method LinkCourses(db: Database, byName: map<string, nat>, cs: seq<Course>) returns (counts: Counts)
    requires db.Consistent()
    modifies db
    ensures db.Consistent()
    ensures var ws := LinkPlan(old(db.State()), byName, cs);
            && db.State() == ApplyAll(old(db.State()), ws)
            && db.log == old(db.log) + ws
            && counts.linked == |ws|
    ensures counts.linked + counts.skipped == Eligible(cs)
    ensures (forall c :: c in cs && Trim(c.instructor) != "" ==> Trim(c.instructor) in byName) ==> counts.unmatched == 0
  {
    var linked, skipped, unmatched := 0, 0, 0;
    ghost var start := db.State();
    assert cs[..0] == [] && db.log + [] == db.log;
    for i := 0 to |cs|
      invariant db.Consistent()
      invariant db.State() == ApplyAll(start, LinkPlan(start, byName, cs[..i]))
      invariant db.log == old(db.log) + LinkPlan(start, byName, cs[..i])
      invariant linked == |LinkPlan(start, byName, cs[..i])|
      invariant linked + skipped == Eligible(cs[..i])
      invariant (forall c :: c in cs && Trim(c.instructor) != "" ==> Trim(c.instructor) in byName) ==> unmatched == 0
    {
      ghost var now := db.State();
      OneCourseFurther(start, now, byName, cs, i);
      LogJoined(old(db.log), LinkPlan(start, byName, cs[..i]), LinkPlan(now, byName, [cs[i]]));
      var outcome := LinkOne(db, byName, cs[i]);
      match outcome {
        case Blank =>
        case NotFound => skipped, unmatched := skipped + 1, unmatched + 1;
        case AlreadyLinked => skipped := skipped + 1;
        case NewlyLinked => linked := linked + 1;
      }
    }
    assert cs[..|cs|] == cs;
    counts := Counts(linked, skipped, unmatched);
  }

  /** The second loop, started on the tables and the map the first one left, completes the plan. */
  lemma BetweenLoops(env: Env, db: Db, mid: Db, byName: map<string, nat>)
    requires InstructorPlan(env, db, Names(env, db)).done
    requires mid == Middle(env, db) && byName == Ids(env, mid.instructors, Names(env, db))
    ensures mid.courses == db.courses
    ensures Links(env, db) == LinkPlan(mid, byName, Selected(env, mid.courses))
    ensures Final(env, db) == ApplyAll(mid, Links(env, db))
    ensures RunPlan(env, db) == Plan(InstructorPlan(env, db, Names(env, db)).writes + Links(env, db), true)
    ensures forall c :: c in Selected(env, mid.courses) && Trim(c.instructor) != "" ==> Trim(c.instructor) in byName
  {
    AppendOnly(db, InstructorPlan(env, db, Names(env, db)).writes);
    ApplyConcat(db, InstructorPlan(env, db, Names(env, db)).writes, Links(env, db));
    forall c | c in Selected(env, db.courses) && Trim(c.instructor) != ""
      ensures Trim(c.instructor) in byName
    {
      SelectedExactly(env, db.courses, c);
      var i := EveryNameHasId(env, db, c);
    }
  }

  /**
   main: None when a create is refused, otherwise the counters.  The committed writes are exactly
   the planned ones, one commit at a time, so stopping the job leaves ApplyAll(start, plan[..k]).
   */
  method Run(db: Database, env: Env) returns (counts: Option<Counts>)
    requires db.Consistent()
    modifies db
    ensures db.Consistent()
    ensures db.log == old(db.log) + RunPlan(env, old(db.State())).writes
    ensures db.State() == Final(env, old(db.State()))
    ensures counts.Some? == RunPlan(env, old(db.State())).done
    ensures counts.Some? ==>
              && counts.value.unmatched == 0
              && counts.value.linked == |Links(env, old(db.State()))|
              && counts.value.linked + counts.value.skipped ==
                 |set i: nat | 0 <= i < |old(db.courses)| &&
                               env.coll(old(db.courses)[i].instructor) != env.coll("") &&
                               Trim(old(db.courses)[i].instructor) != ""|
  {
    ghost var start := db.State();
    var byName := FindOrCreate(db, env, Names(env, db.State()));
    if byName.None? {
      return None;
    }
    BetweenLoops(env, start, db.State(), byName.value);
    LogJoined(old(db.log), InstructorPlan(env, start, Names(env, start)).writes, Links(env, start));
    EligibleCounts(env, db.courses);
    assert EligibleAt(env, start.courses) ==
           set i: nat | 0 <= i < |start.courses| &&
                        env.coll(start.courses[i].instructor) != env.coll("") &&
                        Trim(start.courses[i].instructor) != "";
    var tally := LinkCourses(db, byName.value, Selected(env, db.courses));
    return Some(tally);
  }
}
