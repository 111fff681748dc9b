/**
 The instructor back-fill: what one run writes, as a function of the tables it finds.

 The script turns the free-text Course.instructor column into rows of the instructors table and
 links from courses to them.  Nothing wraps its writes in a transaction, so the tables after a
 crash are the tables after some prefix of the writes planned here.
 */
module Backfill {
  import opened Common
  import opened Slug

  datatype Role = RoleInstructor | RoleMentor

  datatype Instructor = Instructor(id: nat, slug: string, name: string, published: bool, orderIndex: int)

  datatype Course = Course(id: string, instructor: string)

  datatype Link = Link(courseId: string, instructorId: nat, role: Role, isPrimary: bool, orderIndex: int)

  /** The tables, rows in insertion order, and the next identifier the database will hand out. */
  datatype Db = Db(instructors: seq<Instructor>, courses: seq<Course>, links: seq<Link>, nextId: nat)

  /**
   What the run takes from outside: the sort key under which the database compares names, SHA-1,
   and stamp(base, k), the digest of a base slug with the clock reading appended, read when k is
   the next identifier.  A run falls back at most once per identifier, so each fallback has its
   own reading.
   */
  datatype Env = Env(coll: string -> string, sha1: string -> Digest, stamp: (string, nat) -> Digest)

  // ---- Reading --------------------------------------------------------------------------

  /** The characters String.prototype.trim removes. */
  predicate Space(c: char) {
    || '\U{0009}' <= c <= '\U{000D}' || c == ' ' || c == '\U{00A0}' || c == '\U{1680}'
    || '\U{2000}' <= c <= '\U{200A}' || c == '\U{2028}' || c == '\U{2029}' || c == '\U{202F}'
    || c == '\U{205F}' || c == '\U{3000}' || c == '\U{FEFF}'
  }

  function TrimLeft(s: string): string {
    if s != "" && Space(s[0]) then TrimLeft(s[1..]) else s
  }

  function TrimRight(s: string): string {
    if s != "" && Space(s[|s| - 1]) then TrimRight(s[..|s| - 1]) else s
  }

  function Trim(s: string): string {
    TrimRight(TrimLeft(s))
  }

  /** findMany where instructor is not equal to the empty string. */
  function Selected(env: Env, cs: seq<Course>): seq<Course> {
    if cs == [] then []
    else (if env.coll(cs[0].instructor) != env.coll("") then [cs[0]] else []) + Selected(env, cs[1..])
  }

  /** Distinct raw strings in first-seen order, trimmed, blanks dropped. */
  function NamesOf(cs: seq<Course>, seen: set<string>): seq<string> {
    if cs == [] then []
    else if cs[0].instructor in seen then NamesOf(cs[1..], seen)
    else
      (if Trim(cs[0].instructor) == "" then [] else [Trim(cs[0].instructor)]) +
      NamesOf(cs[1..], seen + {cs[0].instructor})
  }

  function Names(env: Env, db: Db): seq<string> {
    NamesOf(Selected(env, db.courses), {})
  }

  /** findFirst by name: the earliest row whose name the database takes for equal. */
  function FindByName(env: Env, rows: seq<Instructor>, name: string): (r: Option<Instructor>)
    ensures r.Some? ==> r.value in rows && env.coll(r.value.name) == env.coll(name)
  {
    if rows == [] then None
    else if env.coll(rows[0].name) == env.coll(name) then Some(rows[0])
    else FindByName(env, rows[1..], name)
  }

  function Slugs(rows: seq<Instructor>): set<string> {
    set r | r in rows :: r.slug
  }

  predicate HasLink(links: seq<Link>, courseId: string, instructorId: nat) {
    exists l :: l in links && l.courseId == courseId && l.instructorId == instructorId && l.role == RoleInstructor
  }

  // ---- Writing --------------------------------------------------------------------------

  datatype Write = AddInstructor(row: Instructor) | AddLink(link: Link)

  function Apply(db: Db, w: Write): Db {
    match w
    case AddInstructor(row) => db.(instructors := db.instructors + [row], nextId := db.nextId + 1)
    case AddLink(link) => db.(links := db.links + [link])
  }

  function ApplyAll(db: Db, ws: seq<Write>): Db
    decreases |ws|
  {
    if ws == [] then db else ApplyAll(Apply(db, ws[0]), ws[1..])
  }

  function NewInstructor(id: nat, slug: string, name: string): Write {
    AddInstructor(Instructor(id, slug, name, true, 0))
  }

  function NewLink(courseId: string, instructorId: nat): Write {
    AddLink(Link(courseId, instructorId, RoleInstructor, true, 0))
  }

  // ---- The plan of a run ----------------------------------------------------------------

  /** The writes of a run in order; done is false when a create hits the unique slug index and aborts. */
  datatype Plan = Plan(writes: seq<Write>, done: bool)

  function SlugFor(env: Env, db: Db, name: string): string {
    var base := Slugify(name, env.sha1);
    UniqueSlug(Slugs(db.instructors), base, env.stamp(base, db.nextId))
  }

  /** The find-or-create loop over the names. */
  function InstructorPlan(env: Env, db: Db, names: seq<string>): Plan
    decreases |names|
  {
    if names == [] then Plan([], true)
    else if FindByName(env, db.instructors, names[0]).Some? then InstructorPlan(env, db, names[1..])
    else
      var slug := SlugFor(env, db, names[0]);
      if slug in Slugs(db.instructors) then Plan([], false)
      else
        var w := NewInstructor(db.nextId, slug, names[0]);
        var rest := InstructorPlan(env, Apply(db, w), names[1..]);
        Plan([w] + rest.writes, rest.done)
  }

  /** The name-to-id map after the first loop. */
  function Ids(env: Env, rows: seq<Instructor>, names: seq<string>): map<string, nat> {
    map n | n in names && FindByName(env, rows, n).Some? :: FindByName(env, rows, n).value.id
  }

  /** The course is linked by this step of the second loop. */
  predicate NeedsLink(links: seq<Link>, ids: map<string, nat>, c: Course) {
    var name := Trim(c.instructor);
    name != "" && name in ids && !HasLink(links, c.id, ids[name])
  }

  /** The loop over the courses. */
  function LinkPlan(db: Db, ids: map<string, nat>, cs: seq<Course>): seq<Write>
    decreases |cs|
  {
    if cs == [] then []
    else if NeedsLink(db.links, ids, cs[0]) then
      var w := NewLink(cs[0].id, ids[Trim(cs[0].instructor)]);
      [w] + LinkPlan(Apply(db, w), ids, cs[1..])
    else LinkPlan(db, ids, cs[1..])
  }

  /** The tables between the two loops. */
  function Middle(env: Env, db: Db): Db {
    ApplyAll(db, InstructorPlan(env, db, Names(env, db)).writes)
  }

  function Links(env: Env, db: Db): seq<Write> {
    LinkPlan(Middle(env, db), Ids(env, Middle(env, db).instructors, Names(env, db)), Selected(env, db.courses))
  }

  function RunPlan(env: Env, db: Db): Plan {
    var first := InstructorPlan(env, db, Names(env, db));
    if !first.done then first else Plan(first.writes + Links(env, db), true)
  }

  /** The tables after an uninterrupted run. */
  function Final(env: Env, db: Db): Db {
    ApplyAll(db, RunPlan(env, db).writes)
  }

  /** The courses the second loop does not pass over: those with a non-blank instructor. */
  function Eligible(cs: seq<Course>): nat {
    if cs == [] then 0 else (if Trim(cs[0].instructor) != "" then 1 else 0) + Eligible(cs[1..])
  }

  // ---- When the clock does not matter ---------------------------------------------------

  /** Every slug probe of the run ends at a free candidate, never at the time-hashed fallback. */
  ghost predicate NoFallback(env: Env, db: Db, names: seq<string>)
    decreases |names|
  {
    if names == [] then true
    else if FindByName(env, db.instructors, names[0]).Some? then NoFallback(env, db, names[1..])
    else
      && FirstFree(Slugs(db.instructors), Slugify(names[0], env.sha1), 0) < TRIES
      && NoFallback(env, Apply(db, NewInstructor(db.nextId, SlugFor(env, db, names[0]), names[0])), names[1..])
  }

  /** Two base slugs have a candidate in common. */
  ghost predicate Share(a: string, b: string) {
    exists i, k :: 0 <= i < TRIES && 0 <= k < TRIES && Candidate(a, i) == Candidate(b, k)
  }

  /** How many of the names have no row yet and may be given a candidate of base as slug. */
  ghost function Rivals(env: Env, rows: seq<Instructor>, names: seq<string>, base: string): nat {
    if names == [] then 0
    else
      (if FindByName(env, rows, names[0]).None? && Share(Slugify(names[0], env.sha1), base) then 1 else 0) +
      Rivals(env, rows, names[1..], base)
  }

  /** Checked before the run: each base slug that will be probed has room for its rivals. */
  ghost predicate Roomy(env: Env, rows: seq<Instructor>, names: seq<string>) {
    forall n :: n in names && FindByName(env, rows, n).None? ==>
      var base := Slugify(n, env.sha1);
      |TakenSuffixes(Slugs(rows), base)| + Rivals(env, rows, names, base) <= TRIES
  }
}
