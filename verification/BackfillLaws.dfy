/** Crash-and-rerun convergence of the back-fill, and what a completed run guarantees. */
module BackfillLaws {
  import opened Common
  import opened Slug
  import opened Backfill
  import opened BackfillReads

  // ---- Applying writes ------------------------------------------------------------------

  lemma {:induction false} ApplyConcat(db: Db, a: seq<Write>, b: seq<Write>)
    ensures ApplyAll(db, a + b) == ApplyAll(ApplyAll(db, a), b)
    decreases |a|
  {
    if a == [] {
      assert a + b == b;
    } else {
      ConcatTail(a, b);
      ApplyConcat(Apply(db, a[0]), a[1..], b);
    }
  }

  lemma SplitApply(db: Db, ws: seq<Write>, k: nat)
    requires k <= |ws|
    ensures ApplyAll(db, ws) == ApplyAll(ApplyAll(db, ws[..k]), ws[k..])
  {
    assert ws[..k] + ws[k..] == ws;
    ApplyConcat(db, ws[..k], ws[k..]);
  }

  /** Tables only grow at the end, and courses are never written. */
  ghost predicate Extends(db: Db, after: Db) {
    db.instructors <= after.instructors && db.links <= after.links && db.courses == after.courses
  }

  /** The run is append-only: every existing row stays as it is, where it is. */
  lemma {:induction false} AppendOnly(db: Db, ws: seq<Write>)
    ensures Extends(db, ApplyAll(db, ws))
    decreases |ws|
  {
    if ws != [] {
      AppendOnly(Apply(db, ws[0]), ws[1..]);
    }
  }

  lemma {:induction false} FindAppended(env: Env, rows: seq<Instructor>, more: seq<Instructor>, name: string)
    ensures FindByName(env, rows + more, name) ==
            if FindByName(env, rows, name).Some? then FindByName(env, rows, name) else FindByName(env, more, name)
  {
    if rows == [] {
      assert rows + more == more;
    } else {
      ConcatTail(rows, more);
      FindAppended(env, rows[1..], more, name);
    }
  }

  /** A name once found keeps finding the same row. */
  lemma FindStable(env: Env, db: Db, ws: seq<Write>, name: string)
    requires FindByName(env, db.instructors, name).Some?
    ensures FindByName(env, ApplyAll(db, ws).instructors, name) == FindByName(env, db.instructors, name)
  {
    AppendOnly(db, ws);
    var rows, after := db.instructors, ApplyAll(db, ws).instructors;
    assert after == rows + after[|rows|..];
    FindAppended(env, rows, after[|rows|..], name);
  }

  // ---- Resuming the first loop ----------------------------------------------------------

  lemma CreatedIsFound(env: Env, db: Db, slug: string, name: string)
    requires FindByName(env, db.instructors, name).None?
    ensures FindByName(env, Apply(db, NewInstructor(db.nextId, slug, name)).instructors, name) ==
            Some(Instructor(db.nextId, slug, name, true, 0))
  {
    FindAppended(env, db.instructors, [Instructor(db.nextId, slug, name, true, 0)], name);
  }

  /** After k of its writes, the loop started again plans exactly the writes it still owed. */
  lemma {:induction false} ResumeInstructors(env: Env, db: Db, names: seq<string>, k: nat)
    requires k <= |InstructorPlan(env, db, names).writes|
    ensures var p := InstructorPlan(env, db, names);
            InstructorPlan(env, ApplyAll(db, p.writes[..k]), names) == Plan(p.writes[k..], p.done)
    ensures NoFallback(env, db, names) ==>
              NoFallback(env, ApplyAll(db, InstructorPlan(env, db, names).writes[..k]), names)
    decreases |names|
  {
    var p := InstructorPlan(env, db, names);
    if k == 0 {
      assert p.writes[..0] == [] && p.writes[0..] == p.writes;
    } else if FindByName(env, db.instructors, names[0]).Some? {
      ResumeInstructors(env, db, names[1..], k);
      FindStable(env, db, p.writes[..k], names[0]);
    } else {
      var w := p.writes[0];
      var db' := Apply(db, w);
      var rest := InstructorPlan(env, db', names[1..]);
      assert p.writes[1..] == rest.writes;
      assert p.writes[..k] == [w] + rest.writes[..k - 1];
      assert p.writes[k..] == rest.writes[k - 1..];
      assert ApplyAll(db, p.writes[..k]) == ApplyAll(db', rest.writes[..k - 1]) by {
        assert p.writes[..k][1..] == rest.writes[..k - 1];
      }
      CreatedIsFound(env, db, SlugFor(env, db, names[0]), names[0]);
      FindStable(env, db', rest.writes[..k - 1], names[0]);
      ResumeInstructors(env, db', names[1..], k - 1);
    }
  }

  /** The first loop depends only on the instructors table and the id counter. */
  lemma {:induction false} InstructorPlanCongruence(env: Env, a: Db, b: Db, names: seq<string>)
    requires a.instructors == b.instructors && a.nextId == b.nextId
    ensures InstructorPlan(env, a, names) == InstructorPlan(env, b, names)
    ensures NoFallback(env, a, names) <==> NoFallback(env, b, names)
    decreases |names|
  {
    if names != [] {
      if FindByName(env, a.instructors, names[0]).Some? {
        InstructorPlanCongruence(env, a, b, names[1..]);
      } else {
        var w := NewInstructor(a.nextId, SlugFor(env, a, names[0]), names[0]);
        InstructorPlanCongruence(env, Apply(a, w), Apply(b, w), names[1..]);
      }
    }
  }

  /** A loop with nothing left to create has found every name. */
  lemma {:induction false} NothingToCreate(env: Env, db: Db, names: seq<string>)
    requires InstructorPlan(env, db, names) == Plan([], true)
    ensures forall n :: n in names ==> FindByName(env, db.instructors, n).Some?
    decreases |names|
  {
    if names != [] {
      assert FindByName(env, db.instructors, names[0]).Some?;
      NothingToCreate(env, db, names[1..]);
      assert names == [names[0]] + names[1..];
    }
  }

  // ---- Resuming the second loop ---------------------------------------------------------

  lemma {:induction false} LinkWritesKeepInstructors(db: Db, ids: map<string, nat>, cs: seq<Course>, k: nat)
    requires k <= |LinkPlan(db, ids, cs)|
    ensures var after := ApplyAll(db, LinkPlan(db, ids, cs)[..k]);
            after.instructors == db.instructors && after.nextId == db.nextId
    decreases |cs|
  {
    var ws := LinkPlan(db, ids, cs);
    if k > 0 {
      if NeedsLink(db.links, ids, cs[0]) {
        var rest := LinkPlan(Apply(db, ws[0]), ids, cs[1..]);
        assert ws[..k][1..] == rest[..k - 1];
        LinkWritesKeepInstructors(Apply(db, ws[0]), ids, cs[1..], k - 1);
      } else {
        LinkWritesKeepInstructors(db, ids, cs[1..], k);
      }
    }
  }

  lemma {:induction false} ResumeLinks(db: Db, ids: map<string, nat>, cs: seq<Course>, k: nat)
    requires k <= |LinkPlan(db, ids, cs)|
    ensures LinkPlan(ApplyAll(db, LinkPlan(db, ids, cs)[..k]), ids, cs) == LinkPlan(db, ids, cs)[k..]
    decreases |cs|
  {
    var ws := LinkPlan(db, ids, cs);
    if k == 0 {
      assert ws[..0] == [] && ws[0..] == ws;
    } else {
      var after := ApplyAll(db, ws[..k]);
      AppendOnly(db, ws[..k]);
      if NeedsLink(db.links, ids, cs[0]) {
        var db' := Apply(db, ws[0]);
        var rest := LinkPlan(db', ids, cs[1..]);
        assert ws[..k][1..] == rest[..k - 1];
        assert ws[k..] == rest[k - 1..];
        AppendOnly(db', rest[..k - 1]);
        assert ws[0].link in db'.links && ws[0].link in after.links;
        assert !NeedsLink(after.links, ids, cs[0]);
        ResumeLinks(db', ids, cs[1..], k - 1);
      } else {
        assert !NeedsLink(after.links, ids, cs[0]) by {
          assert forall l :: l in db.links ==> l in after.links;
        }
        ResumeLinks(db, ids, cs[1..], k);
      }
    }
  }

  // ---- Crash and rerun ------------------------------------------------------------------

  /** What a run finds that starts k writes into the first loop of another. */
  lemma InFirstLoop(env: Env, db: Db, k: nat)
    requires k <= |InstructorPlan(env, db, Names(env, db)).writes|
    ensures var first := InstructorPlan(env, db, Names(env, db));
            var after := ApplyAll(db, first.writes[..k]);
            && InstructorPlan(env, after, Names(env, after)) == Plan(first.writes[k..], first.done)
            && Links(env, after) == Links(env, db)
  {
    var names := Names(env, db);
    var first := InstructorPlan(env, db, names);
    AppendOnly(db, first.writes[..k]);
    ResumeInstructors(env, db, names, k);
    SplitApply(db, first.writes, k);
    assert Middle(env, ApplyAll(db, first.writes[..k])) == Middle(env, db);
  }

  lemma SplitConcat(a: seq<Write>, b: seq<Write>, k: nat)
    requires k <= |a|
    ensures (a + b)[..k] == a[..k] && (a + b)[k..] == a[k..] + b
  {
  }

  lemma ResumeInFirstLoop(env: Env, db: Db, k: nat)
    requires k <= |InstructorPlan(env, db, Names(env, db)).writes|
    ensures var p := RunPlan(env, db);
            RunPlan(env, ApplyAll(db, p.writes[..k])) == Plan(p.writes[k..], p.done)
  {
    SplitConcat(InstructorPlan(env, db, Names(env, db)).writes, Links(env, db), k);
    InFirstLoop(env, db, k);
  }

  lemma ResumeInSecondLoop(env: Env, db: Db, j: nat)
    requires InstructorPlan(env, db, Names(env, db)).done && j <= |Links(env, db)|
    ensures RunPlan(env, ApplyAll(Middle(env, db), Links(env, db)[..j])) == Plan(Links(env, db)[j..], true)
  {
    var names, cs := Names(env, db), Selected(env, db.courses);
    var first := InstructorPlan(env, db, names);
    var db1 := Middle(env, db);
    var ids := Ids(env, db1.instructors, names);
    var after := ApplyAll(db1, Links(env, db)[..j]);
    AppendOnly(db, first.writes);
    AppendOnly(db1, Links(env, db)[..j]);
    ResumeInstructors(env, db, names, |first.writes|);
    assert first.writes[..|first.writes|] == first.writes && first.writes[|first.writes|..] == [];
    LinkWritesKeepInstructors(db1, ids, cs, j);
    InstructorPlanCongruence(env, db1, after, names);
    ResumeLinks(db1, ids, cs, j);
    assert ApplyAll(after, []) == after;
    assert [] + Links(env, db)[j..] == Links(env, db)[j..];
  }

  /**
   Stop the job after any k of its writes and start it again: it plans exactly the writes that
   were still missing, in the same order.
   */
  lemma Resume(env: Env, db: Db, k: nat)
    requires k <= |RunPlan(env, db).writes|
    ensures var p := RunPlan(env, db);
            RunPlan(env, ApplyAll(db, p.writes[..k])) == Plan(p.writes[k..], p.done)
  {
    var p := RunPlan(env, db);
    var first := InstructorPlan(env, db, Names(env, db));
    if k <= |first.writes| {
      ResumeInFirstLoop(env, db, k);
    } else {
      var j := k - |first.writes|;
      assert p.writes[..k] == first.writes + Links(env, db)[..j];
      assert p.writes[k..] == Links(env, db)[j..];
      ApplyConcat(db, first.writes, Links(env, db)[..j]);
      ResumeInSecondLoop(env, db, j);
    }
  }

  ghost predicate SameButClock(a: Env, b: Env) {
    a.coll == b.coll && a.sha1 == b.sha1
  }

  lemma {:induction false} FindIgnoresClock(a: Env, b: Env, rows: seq<Instructor>, name: string)
    requires SameButClock(a, b)
    ensures FindByName(a, rows, name) == FindByName(b, rows, name)
  {
    if rows != [] {
      FindIgnoresClock(a, b, rows[1..], name);
    }
  }

  lemma {:induction false} SelectedIgnoresClock(a: Env, b: Env, cs: seq<Course>)
    requires SameButClock(a, b)
    ensures Selected(a, cs) == Selected(b, cs)
  {
    if cs != [] {
      SelectedIgnoresClock(a, b, cs[1..]);
    }
  }

  lemma {:induction false} InstructorPlanIgnoresClock(a: Env, b: Env, db: Db, names: seq<string>)
    requires SameButClock(a, b) && NoFallback(a, db, names)
    ensures InstructorPlan(a, db, names) == InstructorPlan(b, db, names)
    ensures InstructorPlan(a, db, names).done
    decreases |names|
  {
    if names != [] {
      FindIgnoresClock(a, b, db.instructors, names[0]);
      if FindByName(a, db.instructors, names[0]).Some? {
        InstructorPlanIgnoresClock(a, b, db, names[1..]);
      } else {
        FirstFreeIsLeast(Slugs(db.instructors), Slugify(names[0], a.sha1), 0);
        assert SlugFor(a, db, names[0]) == SlugFor(b, db, names[0]);
        var w := NewInstructor(db.nextId, SlugFor(a, db, names[0]), names[0]);
        InstructorPlanIgnoresClock(a, b, Apply(db, w), names[1..]);
      }
    }
  }

  /** Two runs whose first loops agree agree altogether. */
  lemma RunFromFirstLoop(a: Env, b: Env, db: Db)
    requires SameButClock(a, b)
    requires InstructorPlan(a, db, Names(a, db)) == InstructorPlan(b, db, Names(a, db))
    ensures Names(a, db) == Names(b, db) && RunPlan(a, db) == RunPlan(b, db)
  {
    SelectedIgnoresClock(a, b, db.courses);
    var rows := ApplyAll(db, InstructorPlan(a, db, Names(a, db)).writes).instructors;
    forall n | n in Names(a, db)
      ensures FindByName(a, rows, n) == FindByName(b, rows, n)
    {
      FindIgnoresClock(a, b, rows, n);
    }
    assert Ids(a, rows, Names(a, db)) == Ids(b, rows, Names(b, db));
  }

  lemma RunIgnoresClock(a: Env, b: Env, db: Db)
    requires SameButClock(a, b) && NoFallback(a, db, Names(a, db))
    ensures RunPlan(a, db) == RunPlan(b, db) && RunPlan(a, db).done
  {
    InstructorPlanIgnoresClock(a, b, db, Names(a, db));
    RunFromFirstLoop(a, b, db);
  }

  /** A crash after any k writes leaves a state from which the probes still find free slugs. */
  lemma NoFallbackAfterCrash(env: Env, db: Db, k: nat)
    requires k <= |RunPlan(env, db).writes| && NoFallback(env, db, Names(env, db))
    ensures var after := ApplyAll(db, RunPlan(env, db).writes[..k]);
            NoFallback(env, after, Names(env, after))
  {
    var p, names := RunPlan(env, db), Names(env, db);
    var first := InstructorPlan(env, db, names);
    AppendOnly(db, p.writes[..k]);
    InstructorPlanIgnoresClock(env, env, db, names);
    if k <= |first.writes| {
      assert p.writes[..k] == first.writes[..k];
      ResumeInstructors(env, db, names, k);
    } else {
      var db1 := ApplyAll(db, first.writes);
      var ids, cs := Ids(env, db1.instructors, names), Selected(env, db.courses);
      var links := LinkPlan(db1, ids, cs);
      var j := k - |first.writes|;
      assert p.writes[..k] == first.writes + links[..j];
      ApplyConcat(db, first.writes, links[..j]);
      ResumeInstructors(env, db, names, |first.writes|);
      assert first.writes[..|first.writes|] == first.writes;
      LinkWritesKeepInstructors(db1, ids, cs, j);
      InstructorPlanCongruence(env, db1, ApplyAll(db1, links[..j]), names);
    }
  }

  /**
   Crash convergence: stopping after any prefix of the writes and running again, at any later
   time, completes and leaves exactly the tables of one uninterrupted run.
   */
  lemma CrashAndRerun(env: Env, later: Env, db: Db, k: nat)
    requires SameButClock(env, later) && NoFallback(env, db, Names(env, db))
    requires k <= |RunPlan(env, db).writes|
    ensures var after := ApplyAll(db, RunPlan(env, db).writes[..k]);
            RunPlan(later, after).done && Final(later, after) == Final(env, db)
  {
    var ws := RunPlan(env, db).writes;
    var after := ApplyAll(db, ws[..k]);
    Resume(env, db, k);
    NoFallbackAfterCrash(env, db, k);
    RunIgnoresClock(env, env, db);
    RunIgnoresClock(env, later, after);
    SplitApply(db, ws, k);
  }

  /** A run started with env and killed after at most cut of its writes. */
  datatype CutRun = CutRun(env: Env, cut: nat)

  function AfterCrashes(db: Db, runs: seq<CutRun>): Db
    decreases |runs|
  {
    if runs == [] then db
    else
      var ws := RunPlan(runs[0].env, db).writes;
      AfterCrashes(ApplyAll(db, ws[..if runs[0].cut < |ws| then runs[0].cut else |ws|]), runs[1..])
  }

  /** Any number of crashes, each at any point, and then one complete run: the same tables again. */
  lemma {:induction false} ManyCrashes(env: Env, db: Db, runs: seq<CutRun>)
    requires NoFallback(env, db, Names(env, db))
    requires forall i :: 0 <= i < |runs| ==> SameButClock(env, runs[i].env)
    ensures RunPlan(env, AfterCrashes(db, runs)).done
    ensures Final(env, AfterCrashes(db, runs)) == Final(env, db)
    decreases |runs|
  {
    if runs == [] {
      RunIgnoresClock(env, env, db);
    } else {
      var ws := RunPlan(env, db).writes;
      var k := if runs[0].cut < |ws| then runs[0].cut else |ws|;
      RunIgnoresClock(env, runs[0].env, db);
      CrashAndRerun(env, env, db, k);
      NoFallbackAfterCrash(env, db, k);
      ManyCrashes(env, ApplyAll(db, ws[..k]), runs[1..]);
    }
  }

  // ---- A crash and a rerun are one run --------------------------------------------------

  /** The clock of env up to identifier n, and the clock of later from there on. */
  function Spliced(env: Env, later: Env, n: nat): Env {
    env.(stamp := (base: string, k: nat) => SplicedStamp(env, later, n, base, k))
  }

  function SplicedStamp(env: Env, later: Env, n: nat, base: string, k: nat): Digest {
    if k < n then env.stamp(base, k) else later.stamp(base, k)
  }

  ghost predicate SameReadings(a: Env, b: Env, lo: nat, hi: nat) {
    forall base, k :: lo <= k < hi ==> a.stamp(base, k) == b.stamp(base, k)
  }

  /** The first k creates depend on the first k readings only, and a completed loop on no others. */
  lemma {:induction false} PlanReads(a: Env, b: Env, db: Db, names: seq<string>, k: nat)
    requires SameButClock(a, b) && SameReadings(a, b, db.nextId, db.nextId + k)
    requires k <= |InstructorPlan(a, db, names).writes|
    ensures k <= |InstructorPlan(b, db, names).writes|
    ensures InstructorPlan(b, db, names).writes[..k] == InstructorPlan(a, db, names).writes[..k]
    ensures k == |InstructorPlan(a, db, names).writes| && InstructorPlan(a, db, names).done ==>
              InstructorPlan(b, db, names) == InstructorPlan(a, db, names)
    decreases |names|
  {
    if names != [] {
      FindIgnoresClock(a, b, db.instructors, names[0]);
      if FindByName(a, db.instructors, names[0]).Some? {
        PlanReads(a, b, db, names[1..], k);
      } else if k > 0 {
        var slug := SlugFor(a, db, names[0]);
        assert a.stamp(Slugify(names[0], a.sha1), db.nextId) == b.stamp(Slugify(names[0], a.sha1), db.nextId);
        assert SlugFor(b, db, names[0]) == slug;
        var w := NewInstructor(db.nextId, slug, names[0]);
        PlanReads(a, b, Apply(db, w), names[1..], k - 1);
        OneWriteMore(w, InstructorPlan(a, Apply(db, w), names[1..]).writes,
                     InstructorPlan(b, Apply(db, w), names[1..]).writes, k - 1);
      }
    }
  }

  lemma OneWriteMore(w: Write, p: seq<Write>, q: seq<Write>, k: nat)
    requires k <= |p| && k <= |q| && q[..k] == p[..k]
    ensures ([w] + q)[..k + 1] == ([w] + p)[..k + 1]
  {
    assert ([w] + p)[..k + 1] == [w] + p[..k] && ([w] + q)[..k + 1] == [w] + q[..k];
  }

  /** A loop takes no reading from before it started. */
  lemma {:induction false} PlanReadsFrom(a: Env, b: Env, db: Db, names: seq<string>)
    requires SameButClock(a, b) && forall base, k :: k >= db.nextId ==> a.stamp(base, k) == b.stamp(base, k)
    ensures InstructorPlan(a, db, names) == InstructorPlan(b, db, names)
    decreases |names|
  {
    if names != [] {
      FindIgnoresClock(a, b, db.instructors, names[0]);
      if FindByName(a, db.instructors, names[0]).Some? {
        PlanReadsFrom(a, b, db, names[1..]);
      } else {
        assert SlugFor(a, db, names[0]) == SlugFor(b, db, names[0]);
        PlanReadsFrom(a, b, Apply(db, NewInstructor(db.nextId, SlugFor(a, db, names[0]), names[0])), names[1..]);
      }
    }
  }

  lemma {:induction false} CreatesCount(env: Env, db: Db, names: seq<string>, k: nat)
    requires k <= |InstructorPlan(env, db, names).writes|
    ensures ApplyAll(db, InstructorPlan(env, db, names).writes[..k]).nextId == db.nextId + k
    decreases |names|
  {
    var ws := InstructorPlan(env, db, names).writes;
    if k > 0 {
      if FindByName(env, db.instructors, names[0]).Some? {
        CreatesCount(env, db, names[1..], k);
      } else {
        CreatesCount(env, Apply(db, ws[0]), names[1..], k - 1);
        assert ws[..k][1..] == InstructorPlan(env, Apply(db, ws[0]), names[1..]).writes[..k - 1];
      }
    }
  }

  /** The plan of a run begins with the plan of its first loop. */
  lemma RunBegins(env: Env, db: Db, k: nat)
    requires k <= |InstructorPlan(env, db, Names(env, db)).writes|
    ensures k <= |RunPlan(env, db).writes|
    ensures RunPlan(env, db).writes[..k] == InstructorPlan(env, db, Names(env, db)).writes[..k]
  {
    SplitConcat(InstructorPlan(env, db, Names(env, db)).writes, Links(env, db), k);
  }

  lemma CreatesCountAll(env: Env, db: Db, names: seq<string>)
    ensures ApplyAll(db, InstructorPlan(env, db, names).writes).nextId ==
            db.nextId + |InstructorPlan(env, db, names).writes|
  {
    var ws := InstructorPlan(env, db, names).writes;
    CreatesCount(env, db, names, |ws|);
    assert ws[..|ws|] == ws;
  }

  lemma ConcatPrefix(a: seq<Write>, b: seq<Write>, j: nat)
    requires j <= |b|
    ensures (a + b)[..|a| + j] == a + b[..j]
  {
  }

  /** Links use up no identifier. */
  lemma LinksCount(env: Env, db: Db, k: nat)
    requires |InstructorPlan(env, db, Names(env, db)).writes| < k <= |RunPlan(env, db).writes|
    ensures InstructorPlan(env, db, Names(env, db)).done
    ensures ApplyAll(db, RunPlan(env, db).writes[..k]).nextId ==
            db.nextId + |InstructorPlan(env, db, Names(env, db)).writes|
  {
    var first, links := InstructorPlan(env, db, Names(env, db)).writes, Links(env, db);
    ConcatPrefix(first, links, k - |first|);
    ApplyConcat(db, first, links[..k - |first|]);
    CreatesCountAll(env, db, Names(env, db));
    LinksKeepNextId(env, db, k - |first|);
  }

  lemma LinksKeepNextId(env: Env, db: Db, j: nat)
    requires j <= |Links(env, db)|
    ensures ApplyAll(Middle(env, db), Links(env, db)[..j]).nextId == Middle(env, db).nextId
  {
    var mid := Middle(env, db);
    LinkWritesKeepInstructors(mid, Ids(env, mid.instructors, Names(env, db)), Selected(env, db.courses), j);
  }

  /** A run with the readings of env for all its creates is the run with env. */
  lemma SpliceAfterCreates(env: Env, later: Env, db: Db, n: nat)
    requires SameButClock(env, later) && InstructorPlan(env, db, Names(env, db)).done
    requires n == db.nextId + |InstructorPlan(env, db, Names(env, db)).writes|
    ensures RunPlan(Spliced(env, later, n), db) == RunPlan(env, db)
  {
    PlanReads(env, Spliced(env, later, n), db, Names(env, db), n - db.nextId);
    RunFromFirstLoop(env, Spliced(env, later, n), db);
  }

  /** A run with the clock of one leads to the state after in k writes. */
  ghost predicate Reaches(one: Env, db: Db, k: nat, after: Db) {
    k <= |RunPlan(one, db).writes| && ApplyAll(db, RunPlan(one, db).writes[..k]) == after
  }

  /** A run passes through the states its first loop passes through. */
  lemma ReachesCreates(env: Env, db: Db, k: nat)
    requires k <= |InstructorPlan(env, db, Names(env, db)).writes|
    ensures Reaches(env, db, k, ApplyAll(db, InstructorPlan(env, db, Names(env, db)).writes[..k]))
  {
    RunBegins(env, db, k);
  }

  /** The first loop with the spliced clock begins with the same k creates. */
  lemma SpliceCreates(env: Env, later: Env, db: Db, names: seq<string>, k: nat, at: nat)
    requires SameButClock(env, later) && k <= |InstructorPlan(env, db, names).writes| && at == db.nextId + k
    ensures k <= |InstructorPlan(Spliced(env, later, at), db, names).writes|
    ensures InstructorPlan(Spliced(env, later, at), db, names).writes[..k] == InstructorPlan(env, db, names).writes[..k]
  {
    PlanReads(env, Spliced(env, later, at), db, names, k);
  }

  lemma SpliceInFirstLoop(env: Env, later: Env, db: Db, k: nat, after: Db)
    requires SameButClock(env, later) && Reaches(env, db, k, after)
    requires k <= |InstructorPlan(env, db, Names(env, db)).writes|
    ensures Reaches(Spliced(env, later, after.nextId), db, k, after)
  {
    var one := Spliced(env, later, after.nextId);
    assert Names(one, db) == Names(env, db) by {
      SelectedIgnoresClock(env, one, db.courses);
    }
    ReachesCreates(env, db, k);
    CreatesCount(env, db, Names(env, db), k);
    SpliceCreates(env, later, db, Names(env, db), k, after.nextId);
    ReachesCreates(one, db, k);
  }

  lemma SpliceInSecondLoop(env: Env, later: Env, db: Db, k: nat, after: Db)
    requires SameButClock(env, later) && Reaches(env, db, k, after)
    requires k > |InstructorPlan(env, db, Names(env, db)).writes|
    ensures Reaches(Spliced(env, later, after.nextId), db, k, after)
  {
    LinksCount(env, db, k);
    SpliceAfterCreates(env, later, db, after.nextId);
  }

  /** The uninterrupted run with the clock spliced at the crash passes through the state the crash left. */
  lemma SpliceReaches(env: Env, later: Env, db: Db, k: nat, after: Db)
    requires SameButClock(env, later) && Reaches(env, db, k, after)
    ensures Reaches(Spliced(env, later, after.nextId), db, k, after)
  {
    if k <= |InstructorPlan(env, db, Names(env, db)).writes| {
      SpliceInFirstLoop(env, later, db, k, after);
    } else {
      SpliceInSecondLoop(env, later, db, k, after);
    }
  }

  /**
   Stop a run after any k writes and start the job again at another time: what the second run
   writes, and whether it completes, is the rest of one uninterrupted run whose clock is read as
   in the first up to the crash and as in the second afterwards.  No condition on the slugs.
   */
  lemma CrashIsSplice(env: Env, later: Env, db: Db, k: nat, after: Db)
    requires SameButClock(env, later) && Reaches(env, db, k, after)
    ensures var one := Spliced(env, later, after.nextId);
            && Reaches(one, db, k, after)
            && RunPlan(later, after) == Plan(RunPlan(one, db).writes[k..], RunPlan(one, db).done)
            && Final(later, after) == Final(one, db)
  {
    var one := Spliced(env, later, after.nextId);
    SpliceReaches(env, later, db, k, after);
    Resume(one, db, k);
    PlanReadsFrom(one, later, after, Names(one, after));
    RunFromFirstLoop(one, later, after);
    SplitApply(db, RunPlan(one, db).writes, k);
  }

  /** Any number of crashes at any points, each rerun at its own time: together they are one uninterrupted run. */
  lemma {:induction false} CrashesAreOneRun(db: Db, runs: seq<CutRun>, last: Env) returns (one: Env)
    requires forall i :: 0 <= i < |runs| ==> SameButClock(last, runs[i].env)
    ensures SameButClock(last, one)
    ensures Final(one, db) == Final(last, AfterCrashes(db, runs))
    ensures RunPlan(one, db).done == RunPlan(last, AfterCrashes(db, runs)).done
    decreases |runs|
  {
    if runs == [] {
      one := last;
    } else {
      var env, ws := runs[0].env, RunPlan(runs[0].env, db).writes;
      var k := if runs[0].cut < |ws| then runs[0].cut else |ws|;
      var after := ApplyAll(db, ws[..k]);
      var rest := CrashesAreOneRun(after, runs[1..], last);
      CrashIsSplice(env, rest, db, k, after);
      one := Spliced(env, rest, after.nextId);
    }
  }

  // ---- Exactly when a rerun converges ---------------------------------------------------

  /** The same surroundings at another time: every time-hashed digest comes out different. */
  function OtherClock(env: Env): Env {
    env.(stamp := (base: string, k: nat) => Flipped(env.stamp(base, k)))
  }

  function Flipped(d: Digest): Digest {
    (if d[0] == '0' then "1" else "0") + d[1..]
  }

  /** A probe that falls back aborts the loop or leaves a row whose slug depends on the clock. */
  lemma {:induction false} FallbackDependsOnClock(env: Env, db: Db, names: seq<string>)
    requires !NoFallback(env, db, names)
    ensures var here, there := InstructorPlan(env, db, names), InstructorPlan(OtherClock(env), db, names);
            here.done && there.done ==>
              ApplyAll(db, here.writes).instructors != ApplyAll(db, there.writes).instructors
    decreases |names|
  {
    var other := OtherClock(env);
    FindIgnoresClock(env, other, db.instructors, names[0]);
    if FindByName(env, db.instructors, names[0]).Some? {
      FallbackDependsOnClock(env, db, names[1..]);
    } else if FirstFree(Slugs(db.instructors), Slugify(names[0], env.sha1), 0) < TRIES {
      FirstFreeIsLeast(Slugs(db.instructors), Slugify(names[0], env.sha1), 0);
      var w := NewInstructor(db.nextId, SlugFor(env, db, names[0]), names[0]);
      assert SlugFor(other, db, names[0]) == SlugFor(env, db, names[0]);
      FallbackDependsOnClock(env, Apply(db, w), names[1..]);
    } else if InstructorPlan(env, db, names).done && InstructorPlan(other, db, names).done {
      FallbackSlugsDiffer(env, db, names[0]);
      FirstRowCreated(env, db, names);
      FirstRowCreated(other, db, names);
    }
  }

  lemma FallbackSlugsDiffer(env: Env, db: Db, name: string)
    requires FirstFree(Slugs(db.instructors), Slugify(name, env.sha1), 0) == TRIES
    ensures SlugFor(env, db, name) != SlugFor(OtherClock(env), db, name)
  {
    var base := Slugify(name, env.sha1);
    assert SlugFor(env, db, name)[|base| + 1] == env.stamp(base, db.nextId)[0];
    assert SlugFor(OtherClock(env), db, name)[|base| + 1] == Flipped(env.stamp(base, db.nextId))[0];
  }

  lemma FirstRowCreated(env: Env, db: Db, names: seq<string>)
    requires names != [] && FindByName(env, db.instructors, names[0]).None? && InstructorPlan(env, db, names).done
    ensures var after := ApplyAll(db, InstructorPlan(env, db, names).writes).instructors;
            |after| > |db.instructors| && after[|db.instructors|].slug == SlugFor(env, db, names[0])
  {
    var w := NewInstructor(db.nextId, SlugFor(env, db, names[0]), names[0]);
    AppendOnly(Apply(db, w), InstructorPlan(env, Apply(db, w), names[1..]).writes);
  }

  /** The second loop leaves the instructors of the first. */
  lemma FinalInstructors(env: Env, db: Db)
    ensures Final(env, db).instructors == ApplyAll(db, InstructorPlan(env, db, Names(env, db)).writes).instructors
  {
    var first, links := InstructorPlan(env, db, Names(env, db)), Links(env, db);
    if first.done {
      ApplyConcat(db, first.writes, links);
      assert links[..|links|] == links;
      var mid := Middle(env, db);
      LinkWritesKeepInstructors(mid, Ids(env, mid.instructors, Names(env, db)), Selected(env, db.courses), |links|);
    }
  }

  /** A run stopped after k writes and repeated at the time of later ends like the run left alone. */
  ghost predicate Converges(env: Env, later: Env, db: Db, k: nat)
    requires k <= |RunPlan(env, db).writes|
  {
    var after := ApplyAll(db, RunPlan(env, db).writes[..k]);
    RunPlan(later, after).done && Final(later, after) == Final(env, db)
  }

  ghost predicate AlwaysConverges(env: Env, db: Db) {
    forall later: Env, k: nat :: SameButClock(env, later) && k <= |RunPlan(env, db).writes| ==>
      Converges(env, later, db, k)
  }

  /** Crash convergence at every point and every later time holds exactly when no probe falls back. */
  lemma AlwaysConvergesIff(env: Env, db: Db)
    ensures AlwaysConverges(env, db) <==> NoFallback(env, db, Names(env, db))
  {
    if NoFallback(env, db, Names(env, db)) {
      forall later: Env, k: nat | SameButClock(env, later) && k <= |RunPlan(env, db).writes|
        ensures Converges(env, later, db, k)
      {
        CrashAndRerun(env, later, db, k);
      }
    } else if AlwaysConverges(env, db) {
      assert ApplyAll(db, RunPlan(env, db).writes[..0]) == db;
      assert Converges(env, env, db, 0) && Converges(env, OtherClock(env), db, 0);
      SelectedIgnoresClock(env, OtherClock(env), db.courses);
      FallbackDependsOnClock(env, db, Names(env, db));
      FinalInstructors(env, db);
      FinalInstructors(OtherClock(env), db);
    }
  }

  // ---- A table on which a probe falls back ----------------------------------------------

  /** Rows of another name that take the first n candidates of a base slug. */
  function Crowd(base: string, other: string, n: nat): (rows: seq<Instructor>)
    ensures |rows| == n && forall i :: 0 <= i < n ==> rows[i] == Instructor(i, Candidate(base, i), other, true, 0)
  {
    seq(n, i requires 0 <= i < n => Instructor(i, Candidate(base, i), other, true, 0))
  }

  /** One course, taught by name, and the given instructors. */
  function OneCourse(rows: seq<Instructor>, name: string): Db {
    Db(rows, [Course("c", name)], [], |rows|)
  }

  /** A name that is selected, needs no trimming and that the database tells apart from other. */
  ghost predicate Newcomer(env: Env, name: string, other: string) {
    name != "" && Trim(name) == name && env.coll(name) != env.coll("") && env.coll(name) != env.coll(other)
  }

  lemma {:induction false} NobodyOfThatName(env: Env, rows: seq<Instructor>, name: string)
    requires forall r :: r in rows ==> env.coll(r.name) != env.coll(name)
    ensures FindByName(env, rows, name) == None
  {
    if rows != [] {
      NobodyOfThatName(env, rows[1..], name);
    }
  }

  lemma {:induction false} AllTaken(taken: set<string>, base: string, k: nat)
    requires k <= TRIES && forall i :: 0 <= i < TRIES ==> Candidate(base, i) in taken
    ensures FirstFree(taken, base, k) == TRIES
    decreases TRIES - k
  {
    if k < TRIES {
      AllTaken(taken, base, k + 1);
    }
  }

  lemma OnlyName(env: Env, rows: seq<Instructor>, name: string)
    requires name != "" && Trim(name) == name && env.coll(name) != env.coll("")
    ensures Names(env, OneCourse(rows, name)) == [name]
  {
    var c := Course("c", name);
    assert [c][1..] == [];
    assert Selected(env, [c]) == [c];
    assert NamesOf([c][1..], {} + {name}) == [];
    assert NamesOf([c], {}) == [name];
  }

  /** The first step of a run on a table where all candidates of the name are taken. */
  lemma CrowdedProbe(env: Env, rows: seq<Instructor>, name: string)
    requires forall r :: r in rows ==> env.coll(r.name) != env.coll(name)
    requires forall i :: 0 <= i < TRIES ==> Candidate(Slugify(name, env.sha1), i) in Slugs(rows)
    ensures FindByName(env, rows, name) == None
    ensures FirstFree(Slugs(rows), Slugify(name, env.sha1), 0) == TRIES
  {
    NobodyOfThatName(env, rows, name);
    AllTaken(Slugs(rows), Slugify(name, env.sha1), 0);
  }

  lemma CrowdTakesAll(base: string, other: string, more: seq<Instructor>)
    ensures forall i :: 0 <= i < TRIES ==> Candidate(base, i) in Slugs(Crowd(base, other, TRIES) + more)
  {
    var rows := Crowd(base, other, TRIES) + more;
    forall i | 0 <= i < TRIES
      ensures Candidate(base, i) in Slugs(rows)
    {
      assert rows[i] in rows && rows[i].slug == Candidate(base, i);
    }
  }

  /** TRIES rows in the way of one name: its probe falls back, and crash convergence fails. */
  lemma FallbackReached(env: Env, name: string, other: string)
    requires Newcomer(env, name, other)
    ensures var db := OneCourse(Crowd(Slugify(name, env.sha1), other, TRIES), name);
            !NoFallback(env, db, Names(env, db)) && !AlwaysConverges(env, db)
  {
    var base := Slugify(name, env.sha1);
    var rows := Crowd(base, other, TRIES);
    var db := OneCourse(rows, name);
    CrowdTakesAll(base, other, []);
    assert rows + [] == rows;
    CrowdedProbe(env, rows, name);
    OnlyName(env, rows, name);
    AlwaysConvergesIff(env, db);
  }

  /** One row more, with the very slug the fallback builds: the create is refused and the run aborts. */
  lemma FallbackRefused(env: Env, name: string, other: string)
    requires Newcomer(env, name, other)
    ensures var base := Slugify(name, env.sha1);
            var fallback := base + "-" + env.stamp(base, TRIES + 1)[..6];
            var rows := Crowd(base, other, TRIES) + [Instructor(TRIES, fallback, other, true, 0)];
            RunPlan(env, OneCourse(rows, name)) == Plan([], false)
  {
    var base := Slugify(name, env.sha1);
    var fallback := base + "-" + env.stamp(base, TRIES + 1)[..6];
    var row := Instructor(TRIES, fallback, other, true, 0);
    var rows := Crowd(base, other, TRIES) + [row];
    var db := OneCourse(rows, name);
    CrowdTakesAll(base, other, [row]);
    CrowdedProbe(env, rows, name);
    OnlyName(env, rows, name);
    assert rows[TRIES] in rows && rows[TRIES].slug == fallback;
    assert SlugFor(env, db, name) == fallback && fallback in Slugs(rows);
  }

  // ---- Running again --------------------------------------------------------------------

  lemma {:induction false} AllFoundNeedsNoFallback(env: Env, db: Db, names: seq<string>)
    requires forall n :: n in names ==> FindByName(env, db.instructors, n).Some?
    ensures NoFallback(env, db, names)
  {
    if names != [] {
      AllFoundNeedsNoFallback(env, db, names[1..]);
    }
  }

  /** After any completed run, fallback or not, a second run at any time creates no instructor and no link. */
  lemma RerunWritesNothing(env: Env, later: Env, db: Db)
    requires SameButClock(env, later) && RunPlan(env, db).done
    ensures RunPlan(later, Final(env, db)) == Plan([], true)
  {
    var ws, after := RunPlan(env, db).writes, Final(env, db);
    assert ws[..|ws|] == ws && ws[|ws|..] == [];
    Resume(env, db, |ws|);
    assert InstructorPlan(env, after, Names(env, after)) == Plan([], true);
    NothingToCreate(env, after, Names(env, after));
    AllFoundNeedsNoFallback(env, after, Names(env, after));
    RunIgnoresClock(env, later, after);
  }

  // ---- Room for slugs, checked beforehand -----------------------------------------------

  lemma OneMoreSlug(rows: seq<Instructor>, row: Instructor, base: string)
    ensures |TakenSuffixes(Slugs(rows + [row]), base)| <= |TakenSuffixes(Slugs(rows), base)| + 1
  {
    var s, t := TakenSuffixes(Slugs(rows), base), TakenSuffixes(Slugs(rows + [row]), base);
    assert forall x :: x in Slugs(rows + [row]) <==> x in Slugs(rows) || x == row.slug;
    if k :| k in t && k !in s {
      forall i | i in t
        ensures i in s + {k}
      {
        if i !in s {
          assert Candidate(base, i) == row.slug == Candidate(base, k);
          CandidatesDiffer(base, i, k);
        }
      }
      Subset(t, s + {k});
    } else {
      Subset(t, s);
    }
  }

  lemma {:induction false} Subset<T>(a: set<T>, b: set<T>)
    requires a <= b
    ensures |a| <= |b|
  {
    if x :| x in a {
      Subset(a - {x}, b - {x});
    }
  }

  lemma NoNewCandidate(rows: seq<Instructor>, row: Instructor, base: string)
    requires forall k :: 0 <= k < TRIES ==> row.slug != Candidate(base, k)
    ensures TakenSuffixes(Slugs(rows + [row]), base) == TakenSuffixes(Slugs(rows), base)
  {
    assert forall x :: x in Slugs(rows + [row]) <==> x in Slugs(rows) || x == row.slug;
  }

  /** A new row makes no new rivals. */
  lemma {:induction false} RivalsShrink(env: Env, rows: seq<Instructor>, row: Instructor,
                                        names: seq<string>, base: string)
    ensures Rivals(env, rows + [row], names, base) <= Rivals(env, rows, names, base)
  {
    if names != [] {
      FindAppended(env, rows, [row], names[0]);
      RivalsShrink(env, rows, row, names[1..], base);
    }
  }

  /** A row under candidate i of another base takes at most as much room as its name was charged for. */
  lemma RoomLeft(env: Env, rows: seq<Instructor>, row: Instructor, names: seq<string>, base: string, i: nat)
    requires names != [] && FindByName(env, rows, names[0]).None?
    requires i < TRIES && row.slug == Candidate(Slugify(names[0], env.sha1), i)
    ensures |TakenSuffixes(Slugs(rows + [row]), base)| + Rivals(env, rows + [row], names[1..], base) <=
            |TakenSuffixes(Slugs(rows), base)| + Rivals(env, rows, names, base)
  {
    RivalsShrink(env, rows, row, names[1..], base);
    if Share(Slugify(names[0], env.sha1), base) {
      OneMoreSlug(rows, row, base);
    } else {
      NoNewCandidate(rows, row, base);
    }
  }

  /** Room for its rivals under every base slug means the fallback is never reached. */
  lemma {:induction false} RoomyNeedsNoFallback(env: Env, db: Db, names: seq<string>)
    requires Roomy(env, db.instructors, names)
    ensures NoFallback(env, db, names)
    decreases |names|
  {
    if names != [] {
      if FindByName(env, db.instructors, names[0]).Some? {
        FoundIsNoRival(env, db.instructors, names);
        RoomyNeedsNoFallback(env, db, names[1..]);
      } else {
        var base := Slugify(names[0], env.sha1);
        assert names[0] in names;
        assert Candidate(base, 0) == Candidate(base, 0) && Share(base, base);
        ProbeSucceedsIff(Slugs(db.instructors), base);
        var w := NewInstructor(db.nextId, SlugFor(env, db, names[0]), names[0]);
        StillRoomy(env, db, names);
        RoomyNeedsNoFallback(env, Apply(db, w), names[1..]);
      }
    }
  }

  lemma FoundIsNoRival(env: Env, rows: seq<Instructor>, names: seq<string>)
    requires names != [] && FindByName(env, rows, names[0]).Some? && Roomy(env, rows, names)
    ensures Roomy(env, rows, names[1..])
  {
    forall n | n in names[1..] && FindByName(env, rows, n).None?
      ensures |TakenSuffixes(Slugs(rows), Slugify(n, env.sha1))| +
              Rivals(env, rows, names[1..], Slugify(n, env.sha1)) <= TRIES
    {
      assert n in names;
    }
  }

  lemma StillRoomy(env: Env, db: Db, names: seq<string>)
    requires names != [] && FindByName(env, db.instructors, names[0]).None? && Roomy(env, db.instructors, names)
    requires FirstFree(Slugs(db.instructors), Slugify(names[0], env.sha1), 0) < TRIES
    ensures var w := NewInstructor(db.nextId, SlugFor(env, db, names[0]), names[0]);
            Roomy(env, Apply(db, w).instructors, names[1..])
  {
    var i := FirstFree(Slugs(db.instructors), Slugify(names[0], env.sha1), 0);
    var row := NewInstructor(db.nextId, SlugFor(env, db, names[0]), names[0]).row;
    var rows := db.instructors + [row];
    forall n | n in names[1..] && FindByName(env, rows, n).None?
      ensures |TakenSuffixes(Slugs(rows), Slugify(n, env.sha1))| +
              Rivals(env, rows, names[1..], Slugify(n, env.sha1)) <= TRIES
    {
      assert n in names;
      FindAppended(env, db.instructors, [row], n);
      RoomLeft(env, db.instructors, row, names, Slugify(n, env.sha1), i);
    }
  }

  // ---- What a completed run guarantees --------------------------------------------------

  ghost predicate DistinctSlugs(rows: seq<Instructor>) {
    forall i, k :: 0 <= i < k < |rows| ==> rows[i].slug != rows[k].slug
  }

  ghost predicate DistinctIds(rows: seq<Instructor>, nextId: nat) {
    && (forall i, k :: 0 <= i < k < |rows| ==> rows[i].id != rows[k].id)
    && (forall i :: 0 <= i < |rows| ==> rows[i].id < nextId)
  }

  ghost predicate DistinctCourses(cs: seq<Course>) {
    forall i, k :: 0 <= i < k < |cs| ==> cs[i].id != cs[k].id
  }

  /** The unique indexes and keys of the tables. */
  ghost predicate Valid(db: Db) {
    DistinctSlugs(db.instructors) && DistinctIds(db.instructors, db.nextId) && DistinctCourses(db.courses)
  }

  /** From row index from on, no row has the name of an earlier row. */
  ghost predicate NewNames(env: Env, rows: seq<Instructor>, from: nat) {
    forall i, k :: 0 <= i < k < |rows| && from <= k ==> env.coll(rows[i].name) != env.coll(rows[k].name)
  }

  lemma NotFoundMeans(env: Env, rows: seq<Instructor>, name: string)
    requires FindByName(env, rows, name).None?
    ensures forall i :: 0 <= i < |rows| ==> env.coll(rows[i].name) != env.coll(name)
  {
  }

  lemma SlugStaysDistinct(rows: seq<Instructor>, row: Instructor)
    requires DistinctSlugs(rows) && row.slug !in Slugs(rows)
    ensures DistinctSlugs(rows + [row])
  {
    forall i | 0 <= i < |rows|
      ensures rows[i].slug != row.slug
    {
      assert rows[i].slug in Slugs(rows);
    }
  }

  lemma NewNameStays(env: Env, rows: seq<Instructor>, row: Instructor, from: nat)
    requires NewNames(env, rows, from) && FindByName(env, rows, row.name).None?
    ensures NewNames(env, rows + [row], from)
  {
    NotFoundMeans(env, rows, row.name);
  }

  lemma CreateStaysValid(env: Env, db: Db, slug: string, name: string, from: nat)
    requires Valid(db) && NewNames(env, db.instructors, from)
    requires slug !in Slugs(db.instructors) && FindByName(env, db.instructors, name).None?
    ensures Valid(Apply(db, NewInstructor(db.nextId, slug, name)))
    ensures NewNames(env, Apply(db, NewInstructor(db.nextId, slug, name)).instructors, from)
  {
    var row := Instructor(db.nextId, slug, name, true, 0);
    SlugStaysDistinct(db.instructors, row);
    NewNameStays(env, db.instructors, row, from);
  }

  /** The first loop keeps slugs and ids distinct and creates at most one row per name. */
  lemma {:induction false} InstructorsStayValid(env: Env, db: Db, names: seq<string>, from: nat)
    requires Valid(db) && NewNames(env, db.instructors, from)
    ensures Valid(ApplyAll(db, InstructorPlan(env, db, names).writes))
    ensures NewNames(env, ApplyAll(db, InstructorPlan(env, db, names).writes).instructors, from)
    decreases |names|
  {
    if names != [] {
      var slug := SlugFor(env, db, names[0]);
      if FindByName(env, db.instructors, names[0]).Some? {
        InstructorsStayValid(env, db, names[1..], from);
      } else if slug !in Slugs(db.instructors) {
        var db' := Apply(db, NewInstructor(db.nextId, slug, names[0]));
        CreateStaysValid(env, db, slug, names[0], from);
        InstructorsStayValid(env, db', names[1..], from);
        var p := InstructorPlan(env, db, names);
        assert p.writes[1..] == InstructorPlan(env, db', names[1..]).writes;
      }
    }
  }

  /**
   A run, complete or cut short by the unique slug index, keeps the tables valid and creates at
   most one instructor per name, counting names the database takes for equal as one.
   */
  lemma RunStaysValid(env: Env, db: Db)
    requires Valid(db)
    ensures Valid(Final(env, db)) && NewNames(env, Final(env, db).instructors, |db.instructors|)
    ensures Extends(db, Final(env, db))
  {
    var first := InstructorPlan(env, db, Names(env, db));
    InstructorsStayValid(env, db, Names(env, db), |db.instructors|);
    AppendOnly(db, RunPlan(env, db).writes);
    if first.done {
      ApplyConcat(db, first.writes, Links(env, db));
      AppendOnly(Middle(env, db), Links(env, db));
      assert Links(env, db)[..|Links(env, db)|] == Links(env, db);
      LinkWritesKeepInstructors(Middle(env, db), Ids(env, Middle(env, db).instructors, Names(env, db)),
                                Selected(env, db.courses), |Links(env, db)|);
    }
  }

  /** The "instructor not found" branch is never taken: the map has the earliest row of every course's name. */
  lemma EveryNameHasId(env: Env, db: Db, c: Course) returns (i: nat)
    requires InstructorPlan(env, db, Names(env, db)).done
    requires c in db.courses && env.coll(c.instructor) != env.coll("") && Trim(c.instructor) != ""
    ensures FirstNamed(env, Middle(env, db).instructors, Trim(c.instructor), i)
    ensures var ids := Ids(env, Middle(env, db).instructors, Names(env, db));
            Trim(c.instructor) in ids && ids[Trim(c.instructor)] == Middle(env, db).instructors[i].id
  {
    var names, name := Names(env, db), Trim(c.instructor);
    var ws := InstructorPlan(env, db, names).writes;
    NamesExactly(env, db, name);
    ResumeInstructors(env, db, names, |ws|);
    assert ws[..|ws|] == ws && ws[|ws|..] == [];
    NothingToCreate(env, Middle(env, db), names);
    FindByNameExactly(env, Middle(env, db).instructors, name);
    i :| FirstNamed(env, Middle(env, db).instructors, name, i) &&
         Middle(env, db).instructors[i] == FindByName(env, Middle(env, db).instructors, name).value;
  }

  lemma {:induction false} NothingToLink(db: Db, ids: map<string, nat>, cs: seq<Course>)
    requires LinkPlan(db, ids, cs) == []
    ensures forall c :: c in cs ==> !NeedsLink(db.links, ids, c)
    decreases |cs|
  {
    if cs != [] {
      assert !NeedsLink(db.links, ids, cs[0]);
      NothingToLink(db, ids, cs[1..]);
      assert cs == [cs[0]] + cs[1..];
    }
  }

  /** The course is linked to the instructor, as its instructor. */
  ghost predicate IsTaughtBy(links: seq<Link>, c: Course, id: nat) {
    exists l :: l in links && l.courseId == c.id && l.instructorId == id && l.role == RoleInstructor
  }

  /** After a completed run every course with a non-blank instructor is linked to the earliest row of that name. */
  lemma EveryCourseLinked(env: Env, db: Db, c: Course) returns (i: nat)
    requires RunPlan(env, db).done
    requires c in db.courses && env.coll(c.instructor) != env.coll("") && Trim(c.instructor) != ""
    ensures FirstNamed(env, Final(env, db).instructors, Trim(c.instructor), i)
    ensures IsTaughtBy(Final(env, db).links, c, Final(env, db).instructors[i].id)
  {
    var cs, links, mid := Selected(env, db.courses), Links(env, db), Middle(env, db);
    var ids := Ids(env, mid.instructors, Names(env, db));
    i := EveryNameHasId(env, db, c);
    SelectedExactly(env, db.courses, c);
    ApplyConcat(db, InstructorPlan(env, db, Names(env, db)).writes, links);
    assert links[..|links|] == links && links[|links|..] == [];
    LinkWritesKeepInstructors(mid, ids, cs, |links|);
    ResumeLinks(mid, ids, cs, |links|);
    NothingToLink(Final(env, db), ids, cs);
    assert !NeedsLink(Final(env, db).links, ids, c);
  }

  lemma {:induction false} SelectedIsSubsequence(env: Env, cs: seq<Course>)
    requires DistinctCourses(cs)
    ensures DistinctCourses(Selected(env, cs))
    ensures forall c :: c in Selected(env, cs) ==> c in cs
  {
    if cs != [] {
      assert DistinctCourses(cs[1..]);
      SelectedIsSubsequence(env, cs[1..]);
      var rest := Selected(env, cs[1..]);
      forall i | 0 <= i < |rest|
        ensures rest[i].id != cs[0].id
      {
        assert rest[i] in cs[1..];
        var k :| 0 <= k < |cs[1..]| && cs[1..][k] == rest[i];
        assert cs[k + 1].id != cs[0].id;
      }
      assert cs == [cs[0]] + cs[1..];
    }
  }

  lemma {:induction false} LinkWritesAreOfCourses(db: Db, ids: map<string, nat>, cs: seq<Course>, i: nat)
    requires i < |LinkPlan(db, ids, cs)|
    ensures LinkPlan(db, ids, cs)[i].AddLink?
    ensures exists k :: 0 <= k < |cs| && cs[k].id == LinkPlan(db, ids, cs)[i].link.courseId
    decreases |cs|
  {
    if NeedsLink(db.links, ids, cs[0]) {
      if i > 0 {
        var db' := Apply(db, NewLink(cs[0].id, ids[Trim(cs[0].instructor)]));
        LinkWritesAreOfCourses(db', ids, cs[1..], i - 1);
        var k :| 0 <= k < |cs[1..]| && cs[1..][k].id == LinkPlan(db', ids, cs[1..])[i - 1].link.courseId;
        assert cs[k + 1].id == LinkPlan(db, ids, cs)[i].link.courseId;
      }
    } else {
      LinkWritesAreOfCourses(db, ids, cs[1..], i);
      var k :| 0 <= k < |cs[1..]| && cs[1..][k].id == LinkPlan(db, ids, cs[1..])[i].link.courseId;
      assert cs[k + 1].id == LinkPlan(db, ids, cs)[i].link.courseId;
    }
  }

  /** At most one link is added per course. */
  lemma {:induction false} OneLinkPerCourse(db: Db, ids: map<string, nat>, cs: seq<Course>, i: nat, k: nat)
    requires DistinctCourses(cs) && i < k < |LinkPlan(db, ids, cs)|
    ensures LinkPlan(db, ids, cs)[i].AddLink? && LinkPlan(db, ids, cs)[k].AddLink?
    ensures LinkPlan(db, ids, cs)[i].link.courseId != LinkPlan(db, ids, cs)[k].link.courseId
    decreases |cs|
  {
    assert DistinctCourses(cs[1..]);
    if NeedsLink(db.links, ids, cs[0]) {
      var db' := Apply(db, NewLink(cs[0].id, ids[Trim(cs[0].instructor)]));
      if i > 0 {
        OneLinkPerCourse(db', ids, cs[1..], i - 1, k - 1);
      } else {
        LinkWritesAreOfCourses(db', ids, cs[1..], k - 1);
        var m :| 0 <= m < |cs[1..]| && cs[1..][m].id == LinkPlan(db', ids, cs[1..])[k - 1].link.courseId;
        assert cs[0].id != cs[m + 1].id;
      }
    } else {
      OneLinkPerCourse(db, ids, cs[1..], i, k);
    }
  }

  /** A run adds at most one link per course. */
  lemma RunLinksCoursesOnce(env: Env, db: Db, i: nat, k: nat)
    requires Valid(db) && i < k < |Links(env, db)|
    ensures Links(env, db)[i].AddLink? && Links(env, db)[k].AddLink?
    ensures Links(env, db)[i].link.courseId != Links(env, db)[k].link.courseId
  {
    SelectedIsSubsequence(env, db.courses);
    var mid := Middle(env, db);
    OneLinkPerCourse(mid, Ids(env, mid.instructors, Names(env, db)), Selected(env, db.courses), i, k);
  }

  // ---- What exactly is written ----------------------------------------------------------

  /**
   A row as a run creates it: published, in front, under the given identifier, for a name no row
   before had, with the first free slug.
   */
  ghost predicate IsNewRow(env: Env, before: seq<Instructor>, id: nat, row: Instructor) {
    && row.id == id && row.published && row.orderIndex == 0
    && (forall i :: 0 <= i < |before| ==> env.coll(before[i].name) != env.coll(row.name))
    && row.slug == UniqueSlug(Slugs(before), Slugify(row.name, env.sha1), env.stamp(Slugify(row.name, env.sha1), id))
    && row.slug !in Slugs(before)
  }

  /** Write number k of the first loop creates such a row, under the k-th identifier, for one of the names. */
  lemma {:induction false} CreatedInstructor(env: Env, db: Db, names: seq<string>, k: nat, id: nat)
    returns (before: seq<Instructor>, row: Instructor)
    requires k < |InstructorPlan(env, db, names).writes| && id == db.nextId + k
    ensures before == ApplyAll(db, InstructorPlan(env, db, names).writes[..k]).instructors
    ensures InstructorPlan(env, db, names).writes[k] == AddInstructor(row)
    ensures IsNewRow(env, before, id, row) && row.name in names
    decreases |names|
  {
    if FindByName(env, db.instructors, names[0]).Some? {
      before, row := CreatedInstructor(env, db, names[1..], k, id);
    } else if k == 0 {
      before, row := FirstCreated(env, db, names);
    } else {
      LaterCreated(env, db, names, k);
      var w := InstructorPlan(env, db, names).writes[0];
      before, row := CreatedInstructor(env, Apply(db, w), names[1..], k - 1, id);
    }
  }

  lemma FirstCreated(env: Env, db: Db, names: seq<string>) returns (before: seq<Instructor>, row: Instructor)
    requires names != [] && FindByName(env, db.instructors, names[0]).None?
    requires InstructorPlan(env, db, names).writes != []
    ensures before == ApplyAll(db, InstructorPlan(env, db, names).writes[..0]).instructors
    ensures InstructorPlan(env, db, names).writes[0] == AddInstructor(row)
    ensures IsNewRow(env, before, db.nextId, row) && row.name in names
  {
    assert InstructorPlan(env, db, names).writes[..0] == [];
    NotFoundMeans(env, db.instructors, names[0]);
    before, row := db.instructors, InstructorPlan(env, db, names).writes[0].row;
  }

  lemma LaterCreated(env: Env, db: Db, names: seq<string>, k: nat)
    requires names != [] && FindByName(env, db.instructors, names[0]).None?
    requires 0 < k < |InstructorPlan(env, db, names).writes|
    ensures var ws := InstructorPlan(env, db, names).writes;
            var rest := InstructorPlan(env, Apply(db, ws[0]), names[1..]).writes;
            && ws[0].AddInstructor? && k - 1 < |rest| && ws[k] == rest[k - 1]
            && ApplyAll(db, ws[..k]) == ApplyAll(Apply(db, ws[0]), rest[..k - 1])
  {
    var ws := InstructorPlan(env, db, names).writes;
    assert ws[..k][1..] == InstructorPlan(env, Apply(db, ws[0]), names[1..]).writes[..k - 1];
  }

  /** The links of the second loop: one, as primary instructor, for each course that lacks it. */
  lemma {:induction false} CreatedLinks(db: Db, ids: map<string, nat>, cs: seq<Course>, w: Write)
    requires DistinctCourses(cs)
    ensures w in LinkPlan(db, ids, cs) <==>
            exists c :: c in cs && Trim(c.instructor) != "" && Trim(c.instructor) in ids &&
                        !IsTaughtBy(db.links, c, ids[Trim(c.instructor)]) &&
                        w == AddLink(Link(c.id, ids[Trim(c.instructor)], RoleInstructor, true, 0))
    decreases |cs|
  {
    if cs != [] {
      var rest := cs[1..];
      assert cs == [cs[0]] + rest && DistinctCourses(rest);
      if NeedsLink(db.links, ids, cs[0]) {
        var first := NewLink(cs[0].id, ids[Trim(cs[0].instructor)]);
        CreatedLinks(Apply(db, first), ids, rest, w);
        forall c, id | c in rest
          ensures IsTaughtBy(Apply(db, first).links, c, id) <==> IsTaughtBy(db.links, c, id)
        {
          OtherCoursesKeep(db, first.link, c, id, cs);
        }
        assert LinkPlan(db, ids, cs) == [first] + LinkPlan(Apply(db, first), ids, rest);
      } else {
        CreatedLinks(db, ids, rest, w);
      }
    }
  }

  /** A link of the first course says nothing about the others. */
  lemma OtherCoursesKeep(db: Db, l: Link, c: Course, id: nat, cs: seq<Course>)
    requires cs != [] && DistinctCourses(cs) && l.courseId == cs[0].id && c in cs[1..]
    ensures IsTaughtBy(db.links + [l], c, id) <==> IsTaughtBy(db.links, c, id)
  {
    var k :| 0 <= k < |cs[1..]| && cs[1..][k] == c;
    assert cs[k + 1] == c && cs[0].id != cs[k + 1].id;
    if IsTaughtBy(db.links, c, id) {
      var m :| m in db.links && m.courseId == c.id && m.instructorId == id && m.role == RoleInstructor;
      assert m in db.links + [l];
    }
  }

  lemma {:induction false} CreatesKeepLinks(env: Env, db: Db, names: seq<string>)
    ensures ApplyAll(db, InstructorPlan(env, db, names).writes).links == db.links
    decreases |names|
  {
    if names != [] {
      var ws := InstructorPlan(env, db, names).writes;
      if FindByName(env, db.instructors, names[0]).Some? {
        CreatesKeepLinks(env, db, names[1..]);
      } else if ws != [] {
        CreatesKeepLinks(env, Apply(db, ws[0]), names[1..]);
        assert ws[1..] == InstructorPlan(env, Apply(db, ws[0]), names[1..]).writes;
      }
    }
  }

  /** The course lacks the link to the earliest instructor of its name, and w adds it. */
  ghost predicate AddsMissingLink(env: Env, db: Db, c: Course, i: nat, w: Write) {
    var rows := Middle(env, db).instructors;
    && c in db.courses && env.coll(c.instructor) != env.coll("") && Trim(c.instructor) != ""
    && FirstNamed(env, rows, Trim(c.instructor), i)
    && !IsTaughtBy(db.links, c, rows[i].id)
    && w == AddLink(Link(c.id, rows[i].id, RoleInstructor, true, 0))
  }

  /** A completed first loop is followed by exactly the missing links of the courses with a non-blank instructor. */
  lemma RunLinks(env: Env, db: Db, w: Write)
    requires Valid(db) && InstructorPlan(env, db, Names(env, db)).done
    ensures w in Links(env, db) <==> exists c, i: nat :: AddsMissingLink(env, db, c, i, w)
  {
    var cs, mid := Selected(env, db.courses), Middle(env, db);
    var ids := Ids(env, mid.instructors, Names(env, db));
    SelectedIsSubsequence(env, db.courses);
    CreatesKeepLinks(env, db, Names(env, db));
    CreatedLinks(mid, ids, cs, w);
    if w in Links(env, db) {
      var c :| c in cs && Trim(c.instructor) != "" && Trim(c.instructor) in ids &&
               !IsTaughtBy(mid.links, c, ids[Trim(c.instructor)]) &&
               w == AddLink(Link(c.id, ids[Trim(c.instructor)], RoleInstructor, true, 0));
      SelectedExactly(env, db.courses, c);
      var i := EveryNameHasId(env, db, c);
      assert AddsMissingLink(env, db, c, i, w);
    }
    if c, i: nat :| AddsMissingLink(env, db, c, i, w) {
      SelectedExactly(env, db.courses, c);
      FirstNamedIsFound(env, mid.instructors, Trim(c.instructor), i);
      var k := EveryNameHasId(env, db, c);
      assert c in cs;
    }
  }
}
