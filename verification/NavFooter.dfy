/**
 Inserting the "instructors" entry into the top navigation and into the footer's learning column,
 alone and together with the CMS seeding that runs before it.
 */
module NavFooter {
  import opened Common
  import opened KeyedUpsert

  const INSTRUCTORS := "/instructors"
  const COURSES := "/courses"
  const LABEL := "讲师"
  const LEARN := "学习"

  // ---- Top navigation -------------------------------------------------------------------

  /** The columns the CMS seed overwrites; path is the key and isActive is set on creation only. */
  datatype NavCols = NavCols(caption: string, icon: string, orderIndex: int)

  type NavRow = Row<string, NavCols, bool>
  type NavTable = Table<string, NavCols, bool>
  type NavEntry = Entry<string, NavCols, bool>

  function OrderStart(rows: seq<NavRow>): int {
    match Find(rows, COURSES)
    case Some(i) => rows[i].upd.orderIndex
    case None => 0
  }

  /** updateMany: one up for every row behind start. */
  function Shift(row: NavRow, start: int): NavRow {
    if row.upd.orderIndex > start then row.(upd := row.upd.(orderIndex := row.upd.orderIndex + 1)) else row
  }

  function ShiftAll(rows: seq<NavRow>, start: int): (r: seq<NavRow>)
    ensures |r| == |rows|
    ensures forall i :: 0 <= i < |rows| ==> r[i] == Shift(rows[i], start)
  {
    seq(|rows|, i requires 0 <= i < |rows| => Shift(rows[i], start))
  }

  function InsertNav(t: NavTable): NavTable {
    if Find(t.rows, INSTRUCTORS).Some? then t
    else
      var start := OrderStart(t.rows);
      Table(ShiftAll(t.rows, start) + [Row(t.nextId, INSTRUCTORS, NavCols(LABEL, "Users", start + 1), true)],
            t.nextId + 1)
  }

  method AddInstructorsNav(nav: Store<string, NavCols, bool>)
    modifies nav
    ensures nav.State() == InsertNav(old(nav.State()))
  {
    var existing := Find(nav.rows, INSTRUCTORS);
    if existing.None? {
      var courses := Find(nav.rows, COURSES);
      var orderStart := if courses.Some? then nav.rows[courses.value].upd.orderIndex else 0;
      nav.rows := ShiftAll(nav.rows, orderStart);
      assert nav.State() == Shifted(old(nav.State()));
      nav.rows := nav.rows + [Row(nav.nextId, INSTRUCTORS, NavCols(LABEL, "Users", orderStart + 1), true)];
      nav.nextId := nav.nextId + 1;
    }
  }

  ghost predicate DistinctOrder(rows: seq<NavRow>) {
    forall i, k :: 0 <= i < k < |rows| ==> rows[i].upd.orderIndex != rows[k].upd.orderIndex
  }

  /**
   The insertion changes nothing but order indices, keeps the relative order of the old rows and
   the distinctness of the indices, and puts the new row strictly between start and whatever
   came behind it.
   */
  lemma NavInsertion(t: NavTable)
    requires Find(t.rows, INSTRUCTORS).None?
    ensures var n, start, after := |t.rows|, OrderStart(t.rows), InsertNav(t).rows;
            && |after| == n + 1 && InsertNav(t).nextId == t.nextId + 1
            && after[n] == Row(t.nextId, "/instructors", NavCols("讲师", "Users", start + 1), true)
            && (forall i :: 0 <= i < n ==>
                  after[i].upd.orderIndex == t.rows[i].upd.orderIndex +
                                             if t.rows[i].upd.orderIndex > start then 1 else 0)
            && (forall i :: 0 <= i < n ==>
                  after[i] == t.rows[i].(upd := t.rows[i].upd.(orderIndex := after[i].upd.orderIndex)))
            && (forall i, k :: 0 <= i < n && 0 <= k < n ==>
                  (t.rows[i].upd.orderIndex < t.rows[k].upd.orderIndex <==>
                   after[i].upd.orderIndex < after[k].upd.orderIndex))
            && (forall i :: 0 <= i < n ==>
                  if t.rows[i].upd.orderIndex <= start then after[i].upd.orderIndex < after[n].upd.orderIndex
                  else after[i].upd.orderIndex > after[n].upd.orderIndex)
            && (match Find(t.rows, "/courses")
                case Some(c) =>
                  start == t.rows[c].upd.orderIndex && after[n].upd.orderIndex == after[c].upd.orderIndex + 1
                case None => start == 0)
    ensures DistinctOrder(t.rows) ==> DistinctOrder(InsertNav(t).rows)
  {
    var after := InsertNav(t).rows;
    var start := OrderStart(t.rows);
    assert forall i :: 0 <= i < |t.rows| ==> after[i] == Shift(t.rows[i], start);
  }

  /** The order indices are exactly 0, 1, ..., up to the number of rows. */
  ghost predicate Dense(rows: seq<NavRow>) {
    forall v: int :: 0 <= v < |rows| <==> HasOrder(rows, v)
  }

  ghost predicate HasOrder(rows: seq<NavRow>, v: int) {
    exists i :: 0 <= i < |rows| && rows[i].upd.orderIndex == v
  }

  /** A dense navigation stays dense exactly when there was at least one row. */
  lemma NavStaysDense(t: NavTable)
    requires Dense(t.rows) && Find(t.rows, INSTRUCTORS).None?
    ensures Dense(InsertNav(t).rows) <==> |t.rows| > 0
  {
    var n, start, after := |t.rows|, OrderStart(t.rows), InsertNav(t).rows;
    assert forall i :: 0 <= i < n ==> after[i] == Shift(t.rows[i], start);
    if n == 0 {
      assert after[0].upd.orderIndex == 1 && HasOrder(after, 1);
      assert !(0 <= 1 < |after|);
    } else {
      assert 0 <= start < n by {
        if Find(t.rows, COURSES).Some? {
          assert t.rows[Find(t.rows, COURSES).value].upd.orderIndex == start;
          assert HasOrder(t.rows, start);
        }
      }
      forall v: int
        ensures 0 <= v < n + 1 <==> HasOrder(after, v)
      {
        if 0 <= v < n + 1 {
          if v == start + 1 {
            assert after[n].upd.orderIndex == v;
          } else {
            var was := if v <= start then v else v - 1;
            assert HasOrder(t.rows, was);
            var i :| 0 <= i < n && t.rows[i].upd.orderIndex == was;
            assert after[i].upd.orderIndex == v;
          }
        }
        if HasOrder(after, v) {
          var i :| 0 <= i < n + 1 && after[i].upd.orderIndex == v;
          if i < n {
            assert HasOrder(t.rows, t.rows[i].upd.orderIndex);
          }
        }
      }
    }
  }

  lemma NavHasInstructors(t: NavTable)
    ensures Find(InsertNav(t).rows, INSTRUCTORS).Some?
  {
    if Find(t.rows, INSTRUCTORS).None? {
      var after := InsertNav(t).rows;
      assert after[|t.rows|].key == INSTRUCTORS;
    }
  }

  /** A table that has the path is left alone, so repeating the insertion does nothing. */
  lemma NavTwice(t: NavTable)
    ensures Find(t.rows, "/instructors").Some? ==> InsertNav(t) == t
    ensures InsertNav(InsertNav(t)) == InsertNav(t)
  {
    NavHasInstructors(t);
  }

  /** The table between the two commits of the insertion. */
  function Shifted(t: NavTable): NavTable {
    t.(rows := ShiftAll(t.rows, OrderStart(t.rows)))
  }

  lemma ShiftedStart(t: NavTable)
    ensures OrderStart(Shifted(t).rows) == OrderStart(t.rows)
    ensures Find(Shifted(t).rows, INSTRUCTORS).None? <==> Find(t.rows, INSTRUCTORS).None?
  {
    FindByKeys(t.rows, Shifted(t).rows, COURSES);
    FindByKeys(Shifted(t).rows, t.rows, COURSES);
    FindByKeys(t.rows, Shifted(t).rows, INSTRUCTORS);
    FindByKeys(Shifted(t).rows, t.rows, INSTRUCTORS);
  }

  /** A row shifted twice is the row shifted once exactly when it is not shifted at all. */
  lemma ShiftTwice(row: NavRow, start: int)
    ensures Shift(Shift(row, start), start) == Shift(row, start) <==> row.upd.orderIndex <= start
  {
  }

  /**
   Nothing wraps the two commits.  Stopped between them and run again, the step shifts once more: it
   ends like one run exactly when no row lies behind the place of the new row.
   */
  lemma NavStopIff(t: NavTable)
    requires Find(t.rows, INSTRUCTORS).None?
    ensures InsertNav(Shifted(t)) == InsertNav(t) <==>
            forall i :: 0 <= i < |t.rows| ==> t.rows[i].upd.orderIndex <= OrderStart(t.rows)
  {
    var start := OrderStart(t.rows);
    var once := ShiftAll(t.rows, start);
    var again := ShiftAll(once, start);
    var row := Row(t.nextId, INSTRUCTORS, NavCols(LABEL, "Users", start + 1), true);
    ShiftedStart(t);
    assert InsertNav(t).rows == once + [row] && InsertNav(Shifted(t)).rows == again + [row];
    SameFront(once, again, row);
    forall i | 0 <= i < |t.rows|
      ensures again[i] == once[i] <==> t.rows[i].upd.orderIndex <= start
    {
      ShiftTwice(t.rows[i], start);
    }
    assert again == once <==> forall i :: 0 <= i < |t.rows| ==> again[i] == once[i];
  }

  lemma SameFront(a: seq<NavRow>, b: seq<NavRow>, row: NavRow)
    requires |a| == |b|
    ensures a + [row] == b + [row] <==> a == b
  {
    assert (a + [row])[..|a|] == a && (b + [row])[..|b|] == b;
  }

  /** Distinct indices stay distinct even then. */
  lemma NavStopStaysDistinct(t: NavTable)
    requires Find(t.rows, INSTRUCTORS).None? && DistinctOrder(t.rows)
    ensures DistinctOrder(InsertNav(Shifted(t)).rows)
  {
    ShiftedStart(t);
    NavInsertion(Shifted(t));
  }

  // ---- Top navigation after the CMS seed ------------------------------------------------

  /** The CMS loop over the navigation entries, then the insertion. */
  function SeedNav(t: NavTable, es: seq<NavEntry>): NavTable {
    InsertNav(UpsertAll(t, es))
  }

  /** The order index of the courses row once the CMS loop is done. */
  ghost function SeededStart(t: NavTable, es: seq<NavEntry>): int {
    if Listed(es, COURSES) then LastFor(es, COURSES).orderIndex else OrderStart(t.rows)
  }

  lemma StartAfterSeed(t: NavTable, es: seq<NavEntry>)
    ensures OrderStart(UpsertAll(t, es).rows) == SeededStart(t, es)
    ensures Find(UpsertAll(t, es).rows, INSTRUCTORS).Some? <==>
            Find(t.rows, INSTRUCTORS).Some? || Listed(es, INSTRUCTORS)
  {
    ListedRows(t, es, INSTRUCTORS);
    ListedRows(t, es, COURSES);
    ExistingRows(t, es);
  }

  /** No seeded entry lies behind the place of the new row. */
  ghost predicate NothingBehind(t: NavTable, es: seq<NavEntry>) {
    forall e :: e in es ==> LastFor(es, e.key).orderIndex <= SeededStart(t, es)
  }

  lemma FindInserted(t: NavTable, key: string)
    requires Find(t.rows, INSTRUCTORS).None?
    ensures Find(InsertNav(t).rows, key) ==
            if Find(t.rows, key).Some? then Find(t.rows, key) else if key == INSTRUCTORS then Some(|t.rows|) else None
  {
    var after := InsertNav(t).rows;
    FindByKeys(t.rows, after, key);
    assert after[|t.rows|].key == INSTRUCTORS;
  }

  /** Seeding the extended navigation again gives every seeded row its seeded columns back. */
  lemma SeedAgain(t: NavTable, es: seq<NavEntry>)
    requires Find(UpsertAll(t, es).rows, INSTRUCTORS).None?
    ensures var t1, t2 := UpsertAll(t, es), SeedNav(t, es);
            && |UpsertAll(t2, es).rows| == |t2.rows| == |t1.rows| + 1
            && UpsertAll(t2, es).nextId == t2.nextId
            && UpsertAll(t2, es).rows[|t1.rows|] == t2.rows[|t1.rows|]
            && (forall i :: 0 <= i < |t1.rows| ==>
                  UpsertAll(t2, es).rows[i] == if Seeded(t1, es, i) then t1.rows[i] else t2.rows[i])
            && InsertNav(UpsertAll(t2, es)) == UpsertAll(t2, es)
  {
    var t1, t2 := UpsertAll(t, es), SeedNav(t, es);
    var n := |t1.rows|;
    AllKeysPresent(t, es);
    forall e | e in es
      ensures Find(t2.rows, e.key).Some?
    {
      FindInserted(t1, e.key);
    }
    NothingCreated(t2, es);
    ExistingRows(t2, es);
    forall i | 0 <= i < n
      ensures UpsertAll(t2, es).rows[i] == if Seeded(t1, es, i) then t1.rows[i] else t2.rows[i]
    {
      FindInserted(t1, t1.rows[i].key);
      ListedRows(t, es, t1.rows[i].key);
      assert t2.rows[i] == Shift(t1.rows[i], OrderStart(t1.rows));
      assert UpsertAll(t2, es).rows[i] == RowAfter(t2, es, i);
    }
    ListedRows(t, es, INSTRUCTORS);
    assert UpsertAll(t2, es).rows[n] == RowAfter(t2, es, n);
    NavHasInstructors(t1);
    ListedRows(t2, es, INSTRUCTORS);
  }

  /** Row i is the one the CMS seed writes for a listed key. */
  ghost predicate Seeded(t: NavTable, es: seq<NavEntry>, i: nat)
    requires i < |t.rows|
  {
    Listed(es, t.rows[i].key) && Find(t.rows, t.rows[i].key) == Some(i)
  }

  lemma UnshiftedWhenNothingBehind(t: NavTable, es: seq<NavEntry>, i: nat)
    requires Find(UpsertAll(t, es).rows, INSTRUCTORS).None? && NothingBehind(t, es)
    requires i < |UpsertAll(t, es).rows| && Seeded(UpsertAll(t, es), es, i)
    ensures SeedNav(t, es).rows[i] == UpsertAll(t, es).rows[i]
  {
    var t1 := UpsertAll(t, es);
    StartAfterSeed(t, es);
    ListedRows(t, es, t1.rows[i].key);
    var e :| e in es && e.key == t1.rows[i].key;
    assert LastFor(es, e.key).orderIndex <= SeededStart(t, es);
    assert SeedNav(t, es).rows[i] == Shift(t1.rows[i], OrderStart(t1.rows));
  }

  /** With nothing behind, seeding again leaves row i of the extended navigation as it is. */
  lemma RowStaysWhenNothingBehind(t: NavTable, es: seq<NavEntry>, i: nat)
    requires Find(UpsertAll(t, es).rows, INSTRUCTORS).None? && NothingBehind(t, es)
    requires i < |UpsertAll(t, es).rows|
    ensures |UpsertAll(SeedNav(t, es), es).rows| == |SeedNav(t, es).rows| == |UpsertAll(t, es).rows| + 1
    ensures UpsertAll(SeedNav(t, es), es).rows[i] == SeedNav(t, es).rows[i]
  {
    SeedAgain(t, es);
    if Seeded(UpsertAll(t, es), es, i) {
      UnshiftedWhenNothingBehind(t, es, i);
    }
  }

  lemma PairTwiceWhenNothingBehind(t: NavTable, es: seq<NavEntry>)
    requires Find(UpsertAll(t, es).rows, INSTRUCTORS).None? && NothingBehind(t, es)
    ensures SeedNav(SeedNav(t, es), es) == SeedNav(t, es)
  {
    var t2 := SeedNav(t, es);
    var t3 := UpsertAll(t2, es);
    assert |t3.rows| == |t2.rows| && t3.nextId == t2.nextId && InsertNav(t3) == t3 &&
           t3.rows[|t2.rows| - 1] == t2.rows[|t2.rows| - 1] by {
      SeedAgain(t, es);
    }
    forall i | 0 <= i < |t2.rows| - 1
      ensures t3.rows[i] == t2.rows[i]
    {
      assert |t2.rows| == |UpsertAll(t, es).rows| + 1 by {
        SeedAgain(t, es);
      }
      RowStaysWhenNothingBehind(t, es, i);
    }
    assert t3.rows == t2.rows;
  }

  lemma PairTwiceOnlyIfNothingBehind(t: NavTable, es: seq<NavEntry>, e: NavEntry)
    requires Find(UpsertAll(t, es).rows, INSTRUCTORS).None?
    requires e in es && LastFor(es, e.key).orderIndex > SeededStart(t, es)
    ensures SeedNav(SeedNav(t, es), es) != SeedNav(t, es)
  {
    var t1, t2 := UpsertAll(t, es), SeedNav(t, es);
    StartAfterSeed(t, es);
    SeedAgain(t, es);
    ListedRows(t, es, e.key);
    var i := Find(t1.rows, e.key).value;
    assert Seeded(t1, es, i);
    assert t2.rows[i] == Shift(t1.rows[i], OrderStart(t1.rows));
    assert UpsertAll(t2, es).rows[i] != t2.rows[i];
  }

  /**
   The pair of seeding steps, run twice, equals the pair run once exactly when the new row was
   there already or no seeded entry lies behind it: the CMS seed resets the indices that the
   insertion moved, and the insertion does not move them again.
   */
  lemma NavPairTwiceIff(t: NavTable, es: seq<NavEntry>)
    ensures SeedNav(SeedNav(t, es), es) == SeedNav(t, es) <==>
            Find(t.rows, INSTRUCTORS).Some? || Listed(es, INSTRUCTORS) || NothingBehind(t, es)
  {
    StartAfterSeed(t, es);
    if Find(UpsertAll(t, es).rows, INSTRUCTORS).Some? {
      SeedTwice(t, es);
    } else if NothingBehind(t, es) {
      PairTwiceWhenNothingBehind(t, es);
    } else {
      var e :| e in es && LastFor(es, e.key).orderIndex > SeededStart(t, es);
      PairTwiceOnlyIfNothingBehind(t, es, e);
    }
  }

  // ---- When the order indices stay distinct ---------------------------------------------

  /**
   Two runs of the pair give two rows one order index: a listed row goes back to the place of the
   new row, or to that of a row the seed does not write and the insertion moved.
   */
  ghost predicate Clash(t: NavTable, es: seq<NavEntry>) {
    exists e :: e in es && ClashAt(t, es, LastFor(es, e.key).orderIndex)
  }

  ghost predicate ClashAt(t: NavTable, es: seq<NavEntry>, v: int) {
    || v == SeededStart(t, es) + 1
    || (v > SeededStart(t, es) + 1 &&
        exists k :: 0 <= k < |t.rows| && !Seeded(t, es, k) && t.rows[k].upd.orderIndex + 1 == v)
  }

  /** The rows the CMS seed does not write are rows of the table before it, as they were. */
  lemma UnseededRows(t: NavTable, es: seq<NavEntry>)
    ensures |t.rows| <= |UpsertAll(t, es).rows|
    ensures forall i :: 0 <= i < |t.rows| ==> (Seeded(UpsertAll(t, es), es, i) <==> Seeded(t, es, i))
    ensures forall i :: 0 <= i < |t.rows| && !Seeded(t, es, i) ==> UpsertAll(t, es).rows[i] == t.rows[i]
    ensures forall i :: |t.rows| <= i < |UpsertAll(t, es).rows| ==> Seeded(UpsertAll(t, es), es, i)
  {
    ExistingRows(t, es);
    forall i | 0 <= i < |t.rows|
      ensures Seeded(UpsertAll(t, es), es, i) <==> Seeded(t, es, i)
    {
      ListedRows(t, es, t.rows[i].key);
      assert UpsertAll(t, es).rows[i] == RowAfter(t, es, i);
    }
    forall i | |t.rows| <= i < |UpsertAll(t, es).rows|
      ensures Seeded(UpsertAll(t, es), es, i)
    {
      CreatedRows(t, es, i);
    }
  }

  /** The order index of a row after two runs of the pair, from the one the first CMS loop leaves. */
  function IndexAfterPairs(seeded: bool, v: int, start: int): int {
    if seeded || v <= start then v else v + 1
  }

  lemma PairIndices(t: NavTable, es: seq<NavEntry>)
    requires Find(UpsertAll(t, es).rows, INSTRUCTORS).None?
    ensures var t1, after := UpsertAll(t, es), SeedNav(SeedNav(t, es), es).rows;
            && |after| == |t1.rows| + 1
            && after[|t1.rows|].upd.orderIndex == SeededStart(t, es) + 1
            && (forall i :: 0 <= i < |t1.rows| ==>
                  after[i].upd.orderIndex ==
                  IndexAfterPairs(Seeded(t1, es, i), t1.rows[i].upd.orderIndex, SeededStart(t, es)))
  {
    var t1, t2 := UpsertAll(t, es), SeedNav(t, es);
    StartAfterSeed(t, es);
    SeedAgain(t, es);
    assert forall i :: 0 <= i < |t1.rows| ==> t2.rows[i] == Shift(t1.rows[i], OrderStart(t1.rows));
  }

  /** A seeded row carries what its key is listed with. */
  lemma SeededIndex(t: NavTable, es: seq<NavEntry>, i: nat)
    requires i < |UpsertAll(t, es).rows| && Seeded(UpsertAll(t, es), es, i)
    ensures exists e :: e in es && LastFor(es, e.key).orderIndex == UpsertAll(t, es).rows[i].upd.orderIndex
  {
    var key := UpsertAll(t, es).rows[i].key;
    ListedRows(t, es, key);
    var e :| e in es && e.key == key;
    assert LastFor(es, e.key) == UpsertAll(t, es).rows[i].upd;
  }

  lemma SharedIndex(rows: seq<NavRow>, i: nat, k: nat)
    requires i < |rows| && k < |rows| && i != k && rows[i].upd.orderIndex == rows[k].upd.orderIndex
    ensures !DistinctOrder(rows)
  {
  }

  /** After two runs a listed key has the order index it is listed with. */
  lemma ListedIndex(t: NavTable, es: seq<NavEntry>, e: NavEntry) returns (i: nat)
    requires Find(UpsertAll(t, es).rows, INSTRUCTORS).None? && e in es
    ensures i < |UpsertAll(t, es).rows| && Seeded(UpsertAll(t, es), es, i)
    ensures |SeedNav(SeedNav(t, es), es).rows| == |UpsertAll(t, es).rows| + 1
    ensures SeedNav(SeedNav(t, es), es).rows[i].upd.orderIndex == LastFor(es, e.key).orderIndex
  {
    ListedRows(t, es, e.key);
    i := Find(UpsertAll(t, es).rows, e.key).value;
    PairIndices(t, es);
  }

  /** After two runs a row the seed does not write, behind start, is one further. */
  lemma MovedIndex(t: NavTable, es: seq<NavEntry>, k: nat)
    requires Find(UpsertAll(t, es).rows, INSTRUCTORS).None? && k < |t.rows| && !Seeded(t, es, k)
    requires t.rows[k].upd.orderIndex > SeededStart(t, es)
    ensures k < |UpsertAll(t, es).rows| && !Seeded(UpsertAll(t, es), es, k)
    ensures |SeedNav(SeedNav(t, es), es).rows| == |UpsertAll(t, es).rows| + 1
    ensures SeedNav(SeedNav(t, es), es).rows[k].upd.orderIndex == t.rows[k].upd.orderIndex + 1
  {
    UnseededRows(t, es);
    PairIndices(t, es);
  }

  lemma ClashShares(t: NavTable, es: seq<NavEntry>, e: NavEntry)
    requires Find(UpsertAll(t, es).rows, INSTRUCTORS).None?
    requires e in es && ClashAt(t, es, LastFor(es, e.key).orderIndex)
    ensures !DistinctOrder(SeedNav(SeedNav(t, es), es).rows)
  {
    var v, after := LastFor(es, e.key).orderIndex, SeedNav(SeedNav(t, es), es).rows;
    var i := ListedIndex(t, es, e);
    if v == SeededStart(t, es) + 1 {
      PairIndices(t, es);
      SharedIndex(after, i, |after| - 1);
    } else {
      var k :| 0 <= k < |t.rows| && !Seeded(t, es, k) && t.rows[k].upd.orderIndex + 1 == v;
      MovedIndex(t, es, k);
      SharedIndex(after, i, k);
    }
  }

  /** Whatever else shares an index, a clash makes two rows share one after the second run, not after the first. */
  lemma NavPairCollides(t: NavTable, es: seq<NavEntry>)
    requires Find(t.rows, INSTRUCTORS).None? && !Listed(es, INSTRUCTORS) && Clash(t, es)
    ensures DistinctOrder(UpsertAll(t, es).rows) ==> DistinctOrder(SeedNav(t, es).rows)
    ensures !DistinctOrder(SeedNav(SeedNav(t, es), es).rows)
  {
    StartAfterSeed(t, es);
    assert DistinctOrder(UpsertAll(t, es).rows) ==> DistinctOrder(SeedNav(t, es).rows) by {
      NavInsertion(UpsertAll(t, es));
    }
    var e :| e in es && ClashAt(t, es, LastFor(es, e.key).orderIndex);
    ClashShares(t, es, e);
  }

  /** Without a clash, no two rows the CMS loop leaves apart end with one index. */
  lemma PairKeepsApart(t: NavTable, es: seq<NavEntry>, i: nat, k: nat)
    requires Find(UpsertAll(t, es).rows, INSTRUCTORS).None? && !Clash(t, es)
    requires i < |UpsertAll(t, es).rows| && k < |UpsertAll(t, es).rows|
    requires UpsertAll(t, es).rows[i].upd.orderIndex != UpsertAll(t, es).rows[k].upd.orderIndex
    requires Seeded(UpsertAll(t, es), es, k) ==> Seeded(UpsertAll(t, es), es, i)
    ensures var t1, start := UpsertAll(t, es), SeededStart(t, es);
            IndexAfterPairs(Seeded(t1, es, i), t1.rows[i].upd.orderIndex, start) !=
            IndexAfterPairs(Seeded(t1, es, k), t1.rows[k].upd.orderIndex, start)
  {
    var t1, start := UpsertAll(t, es), SeededStart(t, es);
    var v, w := t1.rows[i].upd.orderIndex, t1.rows[k].upd.orderIndex;
    if Seeded(t1, es, i) && !Seeded(t1, es, k) && w > start && v == w + 1 {
      UnseededRows(t, es);
      SeededIndex(t, es, i);
      assert !Seeded(t, es, k) && t.rows[k].upd.orderIndex + 1 == v;
      assert ClashAt(t, es, v);
      assert false;
    }
  }

  /** Without a clash, no row ends with the index of the new row. */
  lemma PairKeepsPlace(t: NavTable, es: seq<NavEntry>, i: nat)
    requires Find(UpsertAll(t, es).rows, INSTRUCTORS).None? && !Clash(t, es) && i < |UpsertAll(t, es).rows|
    ensures var t1, start := UpsertAll(t, es), SeededStart(t, es);
            IndexAfterPairs(Seeded(t1, es, i), t1.rows[i].upd.orderIndex, start) != start + 1
  {
    var t1, start := UpsertAll(t, es), SeededStart(t, es);
    if Seeded(t1, es, i) && t1.rows[i].upd.orderIndex == start + 1 {
      SeededIndex(t, es, i);
      assert ClashAt(t, es, start + 1);
      assert false;
    }
  }

  lemma NoClashStaysDistinct(t: NavTable, es: seq<NavEntry>)
    requires Find(UpsertAll(t, es).rows, INSTRUCTORS).None? && !Clash(t, es)
    requires DistinctOrder(UpsertAll(t, es).rows)
    ensures DistinctOrder(SeedNav(SeedNav(t, es), es).rows)
  {
    var t1, after := UpsertAll(t, es), SeedNav(SeedNav(t, es), es).rows;
    PairIndices(t, es);
    forall i, k | 0 <= i < k < |after|
      ensures after[i].upd.orderIndex != after[k].upd.orderIndex
    {
      if k == |t1.rows| {
        PairKeepsPlace(t, es, i);
      } else if Seeded(t1, es, i) {
        PairKeepsApart(t, es, i, k);
      } else {
        PairKeepsApart(t, es, k, i);
      }
    }
  }

  /**
   On a table the CMS seed leaves with distinct order indices, they are distinct after two runs of
   the pair exactly when the new row was there or listed already, or nothing clashes.
   */
  lemma NavPairDistinctIff(t: NavTable, es: seq<NavEntry>)
    requires DistinctOrder(UpsertAll(t, es).rows)
    ensures DistinctOrder(SeedNav(SeedNav(t, es), es).rows) <==>
            Find(t.rows, INSTRUCTORS).Some? || Listed(es, INSTRUCTORS) || !Clash(t, es)
  {
    StartAfterSeed(t, es);
    if Find(UpsertAll(t, es).rows, INSTRUCTORS).Some? {
      SeedTwice(t, es);
    } else if Clash(t, es) {
      NavPairCollides(t, es);
    } else {
      NoClashStaysDistinct(t, es);
    }
  }

  /** The literal list of the CMS seed; the loop takes the position as order index. */
  const NAV_ITEMS: seq<NavEntry> := [
    Entry(COURSES, NavCols("课程", "BookOpen", 0), true),
    Entry("/degrees", NavCols("学位", "GraduationCap", 1), true),
    Entry("/hackathons", NavCols("黑客松", "Trophy", 2), true),
    Entry("/enterprise", NavCols("企业培训", "Briefcase", 3), true)
  ]

  /** With the shipped list, on any table without the new row: a second run of the pair is not idempotent. */
  lemma ShippedNavCollides(t: NavTable)
    requires Find(t.rows, INSTRUCTORS).None?
    ensures SeedNav(SeedNav(t, NAV_ITEMS), NAV_ITEMS) != SeedNav(t, NAV_ITEMS)
    ensures !DistinctOrder(SeedNav(SeedNav(t, NAV_ITEMS), NAV_ITEMS).rows)
  {
    var e := NAV_ITEMS[1];
    ShippedNavList();
    assert e in NAV_ITEMS;
    NavPairTwiceIff(t, NAV_ITEMS);
    assert ClashAt(t, NAV_ITEMS, LastFor(NAV_ITEMS, e.key).orderIndex);
    NavPairCollides(t, NAV_ITEMS);
  }

  lemma ShippedNavList()
    ensures !Listed(NAV_ITEMS, INSTRUCTORS)
    ensures Listed(NAV_ITEMS, COURSES) && LastFor(NAV_ITEMS, COURSES).orderIndex == 0
    ensures Listed(NAV_ITEMS, "/degrees") && LastFor(NAV_ITEMS, "/degrees").orderIndex == 1
  {
    var es := NAV_ITEMS;
    assert |INSTRUCTORS| == 12 && |COURSES| == 8 && |"/degrees"| == 8 && |"/hackathons"| == 11 && |"/enterprise"| == 11;
    assert COURSES[1] != "/degrees"[1];
    assert es[0].key == COURSES && es[1].key == "/degrees";
    ListedCons(es, COURSES);
    ListedCons(es, "/degrees");
    ListedCons(es[1..], "/degrees");
    assert forall e :: e in es[1..] ==> e.key != COURSES;
    assert forall e :: e in es[1..][1..] ==> e.key != "/degrees";
  }

  // ---- The footer -----------------------------------------------------------------------

  datatype FooterLink = FooterLink(caption: string, path: string, orderIndex: Option<int>)

  datatype FooterCols = FooterCols(links: seq<FooterLink>, orderIndex: int)

  type FooterTable = Table<string, FooterCols, bool>
  type FooterEntry = Entry<string, FooterCols, bool>

  /** findIndex by path. */
  function LinkAt(links: seq<FooterLink>, path: string, from: nat := 0): (r: Option<nat>)
    ensures r.Some? ==> from <= r.value < |links| && links[r.value].path == path
    ensures r.Some? ==> forall i :: from <= i < r.value ==> links[i].path != path
    ensures r.None? ==> forall i :: from <= i < |links| ==> links[i].path != path
    decreases |links| - from
  {
    if from >= |links| then None
    else if links[from].path == path then Some(from)
    else LinkAt(links, path, from + 1)
  }

  /** Where splice puts the entry: behind the first courses link, else behind the first link, at most at the end. */
  function InsertPos(links: seq<FooterLink>): (p: nat)
    ensures p <= |links|
  {
    var idx := LinkAt(links, COURSES);
    var at := (if idx.Some? then idx.value else 0) + 1;
    if at <= |links| then at else |links|
  }

  function Spliced(links: seq<FooterLink>): seq<FooterLink> {
    links[..InsertPos(links)] + [FooterLink(LABEL, INSTRUCTORS, None)] + links[InsertPos(links)..]
  }

  function Renumbered(links: seq<FooterLink>): seq<FooterLink> {
    seq(|links|, i requires 0 <= i < |links| => links[i].(orderIndex := Some(i)))
  }

  function InsertLink(links: seq<FooterLink>): seq<FooterLink> {
    if LinkAt(links, INSTRUCTORS).Some? then links else Renumbered(Spliced(links))
  }

  /** The splice, and the forEach that assigns every entry its position. */
  method SpliceLink(links: seq<FooterLink>) returns (newLinks: array<FooterLink>)
    requires LinkAt(links, INSTRUCTORS).None?
    ensures fresh(newLinks) && newLinks[..] == InsertLink(links)
  {
    var spliced := Spliced(links);
    newLinks := new FooterLink[|spliced|](i requires 0 <= i < |spliced| => spliced[i]);
    for i := 0 to newLinks.Length
      invariant forall k :: 0 <= k < i ==> newLinks[k] == spliced[k].(orderIndex := Some(k))
      invariant forall k :: i <= k < newLinks.Length ==> newLinks[k] == spliced[k]
    {
      newLinks[i] := newLinks[i].(orderIndex := Some(i));
    }
  }

  function InsertFooter(t: FooterTable): FooterTable {
    match Find(t.rows, LEARN)
    case None => t
    case Some(i) => t.(rows := t.rows[i := t.rows[i].(upd := t.rows[i].upd.(links := InsertLink(t.rows[i].upd.links)))])
  }

  method AddInstructorsFooter(footer: Store<string, FooterCols, bool>)
    modifies footer
    ensures footer.State() == InsertFooter(old(footer.State()))
  {
    var learnCol := Find(footer.rows, LEARN);
    if learnCol.Some? {
      var i := learnCol.value;
      var links := footer.rows[i].upd.links;
      if LinkAt(links, INSTRUCTORS).None? {
        var newLinks := SpliceLink(links);
        footer.rows := footer.rows[i := footer.rows[i].(upd := footer.rows[i].upd.(links := newLinks[..]))];
      } else {
        assert footer.rows[i := footer.rows[i]] == footer.rows;
      }
    }
  }

  /** The same entry, whatever its order index. */
  predicate SameEntry(a: FooterLink, b: FooterLink) {
    a.caption == b.caption && a.path == b.path
  }

  lemma SplicedAt(links: seq<FooterLink>)
    ensures var mid, p := Spliced(links), InsertPos(links);
            && |mid| == |links| + 1
            && (forall i :: 0 <= i < p ==> mid[i] == links[i])
            && mid[p] == FooterLink(LABEL, INSTRUCTORS, None)
            && (forall i :: p <= i < |links| ==> mid[i + 1] == links[i])
  {
  }

  /** Only the new entry has the new path. */
  lemma NewPathAt(links: seq<FooterLink>, i: nat)
    requires LinkAt(links, INSTRUCTORS).None? && i <= |links|
    ensures |Spliced(links)| == |links| + 1
    ensures Spliced(links)[i].path == INSTRUCTORS <==> i == InsertPos(links)
  {
    SplicedAt(links);
    if i > InsertPos(links) {
      assert Spliced(links)[i] == links[i - 1];
    }
  }

  /** The old links in order with one new entry, positions written as order indices. */
  lemma FooterInsertion(links: seq<FooterLink>)
    requires LinkAt(links, INSTRUCTORS).None?
    ensures var after, p := InsertLink(links), InsertPos(links);
            && |after| == |links| + 1
            && (forall i :: 0 <= i < p ==> SameEntry(after[i], links[i]))
            && (forall i :: p <= i < |links| ==> SameEntry(after[i + 1], links[i]))
            && (forall i :: 0 <= i < |after| ==> after[i].orderIndex == Some(i))
            && (forall i :: 0 <= i < |after| ==> (after[i].path == INSTRUCTORS <==> i == p))
            && (if LinkAt(links, COURSES).Some?
                then p == LinkAt(links, COURSES).value + 1 && after[p - 1].path == COURSES
                else p == if links == [] then 0 else 1)
  {
    var after, mid, p := InsertLink(links), Spliced(links), InsertPos(links);
    SplicedAt(links);
    assert after == Renumbered(mid);
    forall i | 0 <= i < |after|
      ensures after[i].path == INSTRUCTORS <==> i == p
    {
      NewPathAt(links, i);
    }
  }

  /** The column's links as the step leaves them: the old ones in order, one new entry, positions as order indices. */
  ghost predicate OneLinkInserted(links: seq<FooterLink>, now: seq<FooterLink>, p: nat) {
    && |now| == |links| + 1 && p <= |links|
    && (forall i :: 0 <= i < p ==> now[i].caption == links[i].caption && now[i].path == links[i].path)
    && (forall i :: p <= i < |links| ==> now[i + 1].caption == links[i].caption && now[i + 1].path == links[i].path)
    && now[p].caption == "讲师" && now[p].path == "/instructors"
    && (forall i :: 0 <= i < |now| ==> now[i].orderIndex == Some(i))
  }

  /** The place of the new entry: right behind the first courses link, else behind the first link, if any. */
  ghost predicate IsPlace(links: seq<FooterLink>, p: nat) {
    if exists i :: 0 <= i < |links| && links[i].path == "/courses" then
      && 0 < p <= |links| && links[p - 1].path == "/courses"
      && forall i :: 0 <= i < p - 1 ==> links[i].path != "/courses"
    else p == if links == [] then 0 else 1
  }

  lemma InsertedOnce(links: seq<FooterLink>) returns (p: nat)
    requires forall i :: 0 <= i < |links| ==> links[i].path != "/instructors"
    ensures IsPlace(links, p) && OneLinkInserted(links, InsertLink(links), p)
  {
    p := InsertPos(links);
    FooterInsertion(links);
  }

  /**
   The footer step on the table.  Only the first learning column can change, and of it only the
   links: they gain the one entry, unless they have it already.
   */
  lemma FooterStep(t: FooterTable) returns (p: nat)
    ensures var now := InsertFooter(t);
            && now.nextId == t.nextId && |now.rows| == |t.rows|
            && forall i :: 0 <= i < |t.rows| ==>
                 var row := t.rows[i];
                 if Find(t.rows, "学习") == Some(i) &&
                    (forall l :: l in row.upd.links ==> l.path != "/instructors") then
                   && now.rows[i] == row.(upd := row.upd.(links := now.rows[i].upd.links))
                   && IsPlace(row.upd.links, p) && OneLinkInserted(row.upd.links, now.rows[i].upd.links, p)
                 else now.rows[i] == row
  {
    p := 0;
    match Find(t.rows, LEARN)
    case None =>
    case Some(i) =>
      var links := t.rows[i].upd.links;
      if LinkAt(links, INSTRUCTORS).None? {
        p := InsertedOnce(links);
      } else {
        assert links[LinkAt(links, INSTRUCTORS).value] in links;
      }
  }

  lemma LinkTwice(links: seq<FooterLink>)
    ensures LinkAt(InsertLink(links), INSTRUCTORS).Some?
    ensures InsertLink(InsertLink(links)) == InsertLink(links)
  {
    if LinkAt(links, INSTRUCTORS).None? {
      FooterInsertion(links);
      var after := InsertLink(links);
      assert after[InsertPos(links)].path == INSTRUCTORS;
    }
  }

  lemma FooterKeysKept(t: FooterTable, key: string)
    ensures Find(InsertFooter(t).rows, key) == Find(t.rows, key)
    ensures |InsertFooter(t).rows| == |t.rows|
  {
    FindByKeys(t.rows, InsertFooter(t).rows, key);
  }

  /** A second run of the footer step changes nothing. */
  lemma FooterTwice(t: FooterTable)
    ensures InsertFooter(InsertFooter(t)) == InsertFooter(t)
  {
    FooterKeysKept(t, LEARN);
    match Find(t.rows, LEARN)
    case None =>
    case Some(i) =>
      LinkTwice(t.rows[i].upd.links);
      assert InsertFooter(InsertFooter(t)).rows == InsertFooter(t).rows;
  }

  function SeedFooter(t: FooterTable, es: seq<FooterEntry>): FooterTable {
    InsertFooter(UpsertAll(t, es))
  }

  /** The CMS seed and the footer step, run twice, leave the footer as after one run: for every seed list. */
  lemma FooterPairTwice(t: FooterTable, es: seq<FooterEntry>)
    ensures SeedFooter(SeedFooter(t, es), es) == SeedFooter(t, es)
  {
    var t1 := UpsertAll(t, es);
    var t2 := InsertFooter(t1);
    AllKeysPresent(t, es);
    forall e | e in es
      ensures Find(t2.rows, e.key).Some?
    {
      FooterKeysKept(t1, e.key);
    }
    // Seeding again restores t1 when the learning column is listed, and keeps t2 when it is not.
    var goal := if Listed(es, LEARN) then t1 else t2;
    forall i | 0 <= i < |t2.rows|
      ensures goal.rows[i] == RowAfter(t2, es, i)
    {
      FooterKeysKept(t1, t1.rows[i].key);
      FooterKeysKept(t1, LEARN);
      ListedRows(t, es, t1.rows[i].key);
    }
    FooterKeysKept(t1, LEARN);
    Reseed(t2, es, goal);
    FooterTwice(t1);
  }
}
