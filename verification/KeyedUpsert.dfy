/**
 The seeding loop of the CMS tables: for every literal row, update the first row with its key, or
 create one.  An update overwrites some columns (U); the others (F) are written on creation only.
 */
module KeyedUpsert {
  import opened Common

  datatype Row<K, U, F> = Row(id: nat, key: K, upd: U, fixed: F)

  /** One literal row of the seed list. */
  datatype Entry<K, U, F> = Entry(key: K, upd: U, fixed: F)

  /** Rows in insertion order, and the next identifier. */
  datatype Table<K, U, F> = Table(rows: seq<Row<K, U, F>>, nextId: nat)

  /** findFirst / findUnique by key. */
  function Find<K(==), U, F>(rows: seq<Row<K, U, F>>, key: K): (r: Option<nat>)
    ensures r.Some? ==> r.value < |rows| && rows[r.value].key == key
    ensures r.Some? ==> forall i :: 0 <= i < r.value ==> rows[i].key != key
    ensures r.None? ==> forall i :: 0 <= i < |rows| ==> rows[i].key != key
  {
    if rows == [] then None
    else if rows[0].key == key then Some(0)
    else
      match Find(rows[1..], key)
      case None => None
      case Some(i) => Some(i + 1)
  }

  function Upsert<K(==), U, F>(t: Table<K, U, F>, e: Entry<K, U, F>): Table<K, U, F> {
    match Find(t.rows, e.key)
    case Some(i) => t.(rows := t.rows[i := t.rows[i].(upd := e.upd)])
    case None => Table(t.rows + [Row(t.nextId, e.key, e.upd, e.fixed)], t.nextId + 1)
  }

  function UpsertAll<K(==), U, F>(t: Table<K, U, F>, es: seq<Entry<K, U, F>>): Table<K, U, F>
    decreases |es|
  {
    if es == [] then t else UpsertAll(Upsert(t, es[0]), es[1..])
  }

  // ---- The loop -------------------------------------------------------------------------

  class Store<K(==), U, F> {
    var rows: seq<Row<K, U, F>>
    var nextId: nat

    function State(): Table<K, U, F>
      reads this
    {
      Table(rows, nextId)
    }

    method Seed(es: seq<Entry<K, U, F>>)
      modifies this
      ensures State() == UpsertAll(old(State()), es)
    {
      for i := 0 to |es|
        invariant UpsertAll(State(), es[i..]) == UpsertAll(old(State()), es)
      {
        assert es[i..][0] == es[i] && es[i..][1..] == es[i + 1..];
        var existing := Find(rows, es[i].key);
        match existing {
          case Some(k) =>
            rows := rows[k := rows[k].(upd := es[i].upd)];
          case None =>
            rows, nextId := rows + [Row(nextId, es[i].key, es[i].upd, es[i].fixed)], nextId + 1;
        }
      }
    }
  }

  // ---- What the loop leaves behind ------------------------------------------------------

  ghost predicate Listed<K, U, F>(es: seq<Entry<K, U, F>>, key: K) {
    exists e :: e in es && e.key == key
  }

  /** The updated columns of the last entry with the key. */
  ghost function LastFor<K, U, F>(es: seq<Entry<K, U, F>>, key: K): U
    requires Listed(es, key)
  {
    if Listed(es[1..], key) then LastFor(es[1..], key)
    else
      assert es == [es[0]] + es[1..];
      es[0].upd
  }

  lemma ListedCons<K, U, F>(es: seq<Entry<K, U, F>>, key: K)
    requires es != []
    ensures Listed(es, key) <==> es[0].key == key || Listed(es[1..], key)
  {
    if Listed(es[1..], key) {
      var e :| e in es[1..] && e.key == key;
      assert e in es;
    }
    if Listed(es, key) && es[0].key != key {
      var e :| e in es && e.key == key;
      assert e in es[1..];
    }
    assert es[0] in es;
  }

  /** Where a key is found depends on the keys alone; rows added behind matter only for new keys. */
  lemma FindByKeys<K, U, F>(a: seq<Row<K, U, F>>, b: seq<Row<K, U, F>>, key: K)
    requires |a| <= |b| && forall i :: 0 <= i < |a| ==> b[i].key == a[i].key
    ensures Find(a, key).Some? ==> Find(b, key) == Find(a, key)
    ensures Find(a, key).None? && Find(b, key).Some? ==> |a| <= Find(b, key).value
  {
    if Find(a, key).Some? {
      var i := Find(a, key).value;
      assert b[i].key == key;
      assert forall k :: 0 <= k < i ==> b[k].key != key;
    }
  }

  lemma FindAfterUpsert<K, U, F>(t: Table<K, U, F>, e: Entry<K, U, F>, key: K)
    ensures Find(Upsert(t, e).rows, key) ==
            if Find(t.rows, key).Some? then Find(t.rows, key)
            else if key == e.key then Some(|t.rows|) else None
  {
    var rows, after := t.rows, Upsert(t, e).rows;
    FindByKeys(rows, after, key);
    if Find(rows, key).None? && key == e.key {
      assert after[|rows|].key == key;
    }
  }

  /** What an existing row holds afterwards: only the first row of a listed key changes. */
  ghost function RowAfter<K, U, F>(t: Table<K, U, F>, es: seq<Entry<K, U, F>>, i: nat): Row<K, U, F>
    requires i < |t.rows|
  {
    var row := t.rows[i];
    if Listed(es, row.key) && Find(t.rows, row.key) == Some(i) then row.(upd := LastFor(es, row.key)) else row
  }

  /**
   Existing rows keep their place, id, key and creation-only columns; the first row of a listed
   key carries the last listed value; every other row is untouched.
   */
  lemma {:induction false} ExistingRows<K, U, F>(t: Table<K, U, F>, es: seq<Entry<K, U, F>>)
    ensures |t.rows| <= |UpsertAll(t, es).rows|
    ensures forall i :: 0 <= i < |t.rows| ==> UpsertAll(t, es).rows[i] == RowAfter(t, es, i)
    decreases |es|
  {
    if es != [] {
      var t1 := Upsert(t, es[0]);
      ExistingRows(t1, es[1..]);
      forall i | 0 <= i < |t.rows|
        ensures UpsertAll(t, es).rows[i] == RowAfter(t, es, i)
      {
        var key := t.rows[i].key;
        ListedCons(es, key);
        FindAfterUpsert(t, es[0], key);
        assert UpsertAll(t, es).rows[i] == RowAfter(t1, es[1..], i);
      }
    }
  }

  /** Every listed key has a row afterwards, and its first row carries the last listed value. */
  lemma {:induction false} ListedRows<K, U, F>(t: Table<K, U, F>, es: seq<Entry<K, U, F>>, key: K)
    ensures Find(t.rows, key).Some? ==> Find(UpsertAll(t, es).rows, key) == Find(t.rows, key)
    ensures Find(UpsertAll(t, es).rows, key).Some? <==> Find(t.rows, key).Some? || Listed(es, key)
    ensures Listed(es, key) ==>
              UpsertAll(t, es).rows[Find(UpsertAll(t, es).rows, key).value].upd == LastFor(es, key)
    decreases |es|
  {
    if es != [] {
      var t1 := Upsert(t, es[0]);
      FindAfterUpsert(t, es[0], key);
      ListedCons(es, key);
      ListedRows(t1, es[1..], key);
      if Listed(es, key) && !Listed(es[1..], key) {
        ExistingRows(t1, es[1..]);
      }
    }
  }

  /** Keys of a table, and keys of a seed list. */
  ghost function Keys<K, U, F>(rows: seq<Row<K, U, F>>): set<K> {
    set r | r in rows :: r.key
  }

  ghost function ListedKeys<K, U, F>(es: seq<Entry<K, U, F>>): set<K> {
    set e | e in es :: e.key
  }

  lemma KeysAfterUpsert<K, U, F>(t: Table<K, U, F>, e: Entry<K, U, F>)
    ensures Keys(Upsert(t, e).rows) == Keys(t.rows) + {e.key}
    ensures |Upsert(t, e).rows| == |t.rows| + |{e.key} - Keys(t.rows)|
  {
    var after := Upsert(t, e).rows;
    match Find(t.rows, e.key)
    case Some(k) =>
      forall x
        ensures x in Keys(after) <==> x in Keys(t.rows)
      {
        if x in Keys(t.rows) {
          var i :| 0 <= i < |t.rows| && t.rows[i].key == x;
          assert after[i] in after && after[i].key == x;
        }
        if x in Keys(after) {
          var i :| 0 <= i < |after| && after[i].key == x;
          assert t.rows[i] in t.rows && t.rows[i].key == x;
        }
      }
      assert t.rows[k] in t.rows;
      assert {e.key} - Keys(t.rows) == {};
    case None =>
      assert forall r :: r in after <==> r in t.rows || r == Row(t.nextId, e.key, e.upd, e.fixed);
      assert {e.key} - Keys(t.rows) == {e.key};
  }

  /** The table grows by exactly the number of distinct new keys. */
  lemma {:induction false} Growth<K, U, F>(t: Table<K, U, F>, es: seq<Entry<K, U, F>>)
    ensures |UpsertAll(t, es).rows| == |t.rows| + |ListedKeys(es) - Keys(t.rows)|
    decreases |es|
  {
    if es == [] {
      assert ListedKeys(es) - Keys(t.rows) == {};
    } else {
      KeysAfterUpsert(t, es[0]);
      Growth(Upsert(t, es[0]), es[1..]);
      ListedKeysCons(es);
      NewKeysSplit(es[0].key, ListedKeys(es[1..]), Keys(t.rows));
    }
  }

  lemma ListedKeysCons<K, U, F>(es: seq<Entry<K, U, F>>)
    requires es != []
    ensures ListedKeys(es) == {es[0].key} + ListedKeys(es[1..])
  {
    assert es == [es[0]] + es[1..];
  }

  lemma NewKeysSplit<K>(k: K, listed: set<K>, had: set<K>)
    ensures |({k} + listed) - had| == |{k} - had| + |listed - (had + {k})|
  {
    var a, b := {k} - had, listed - (had + {k});
    assert ({k} + listed) - had == a + b && a * b == {};
  }

  /** With every listed key present, the loop creates nothing. */
  lemma {:induction false} NothingCreated<K, U, F>(t: Table<K, U, F>, es: seq<Entry<K, U, F>>)
    requires forall e :: e in es ==> Find(t.rows, e.key).Some?
    ensures |UpsertAll(t, es).rows| == |t.rows| && UpsertAll(t, es).nextId == t.nextId
    decreases |es|
  {
    if es != [] {
      assert es[0] in es;
      forall e | e in es[1..]
        ensures Find(Upsert(t, es[0]).rows, e.key).Some?
      {
        assert e in es;
        FindAfterUpsert(t, es[0], e.key);
      }
      NothingCreated(Upsert(t, es[0]), es[1..]);
    }
  }

  /**
   Seeding a table that has all the keys puts exactly the last listed values back, so two tables
   that agree elsewhere end up equal.
   */
  lemma Reseed<K, U, F>(t: Table<K, U, F>, es: seq<Entry<K, U, F>>, goal: Table<K, U, F>)
    requires forall e :: e in es ==> Find(t.rows, e.key).Some?
    requires |goal.rows| == |t.rows| && goal.nextId == t.nextId
    requires forall i :: 0 <= i < |t.rows| ==> goal.rows[i] == RowAfter(t, es, i)
    ensures UpsertAll(t, es) == goal
  {
    NothingCreated(t, es);
    ExistingRows(t, es);
    assert UpsertAll(t, es).rows == goal.rows;
  }

  lemma AllKeysPresent<K, U, F>(t: Table<K, U, F>, es: seq<Entry<K, U, F>>)
    ensures forall e :: e in es ==> Find(UpsertAll(t, es).rows, e.key).Some?
  {
    forall e | e in es
      ensures Find(UpsertAll(t, es).rows, e.key).Some?
    {
      ListedRows(t, es, e.key);
    }
  }

  /** Seeding twice is seeding once. */
  lemma SeedTwice<K, U, F>(t: Table<K, U, F>, es: seq<Entry<K, U, F>>)
    ensures UpsertAll(UpsertAll(t, es), es) == UpsertAll(t, es)
  {
    var t1 := UpsertAll(t, es);
    AllKeysPresent(t, es);
    forall i | 0 <= i < |t1.rows|
      ensures t1.rows[i] == RowAfter(t1, es, i)
    {
      ListedRows(t, es, t1.rows[i].key);
    }
    Reseed(t1, es, t1);
  }

  // ---- Stopping and running again -------------------------------------------------------

  lemma {:induction false} UpsertAllConcat<K, U, F>(t: Table<K, U, F>, a: seq<Entry<K, U, F>>, b: seq<Entry<K, U, F>>)
    ensures UpsertAll(t, a + b) == UpsertAll(UpsertAll(t, a), b)
    decreases |a|
  {
    if a == [] {
      ConcatEmpty(b);
    } else {
      ConcatTail(a, b);
      UpsertAllConcat(Upsert(t, a[0]), a[1..], b);
    }
  }

  /** Stopping the loop after any k entries and running it again is running it once. */
  lemma SeedCrash<K, U, F>(t: Table<K, U, F>, es: seq<Entry<K, U, F>>, k: nat)
    requires k <= |es|
    ensures UpsertAll(UpsertAll(t, es[..k]), es) == UpsertAll(t, es)
  {
    var done := UpsertAll(t, es[..k]);
    assert es == es[..k] + es[k..];
    UpsertAllConcat(done, es[..k], es[k..]);
    UpsertAllConcat(t, es[..k], es[k..]);
    SeedTwice(t, es[..k]);
  }

  // ---- The created rows -----------------------------------------------------------------

  /** Position of the first entry with the key. */
  ghost function FirstAt<K, U, F>(es: seq<Entry<K, U, F>>, key: K): (k: nat)
    ensures k < |es| ==> es[k].key == key
    ensures forall m :: 0 <= m < k && m < |es| ==> es[m].key != key
    ensures k <= |es| && (k == |es| <==> !Listed(es, key))
  {
    if es == [] then 0
    else
      assert Listed(es, key) <==> es[0].key == key || Listed(es[1..], key) by { ListedCons(es, key); }
      if es[0].key == key then 0 else 1 + FirstAt(es[1..], key)
  }

  /** Row i is new: the next identifier, and everything the first entry with its key lists for creation. */
  ghost predicate IsCreated<K, U, F>(t: Table<K, U, F>, es: seq<Entry<K, U, F>>, row: Row<K, U, F>, id: nat) {
    var k := FirstAt(es, row.key);
    row.id == id && k < |es| && row.fixed == es[k].fixed && Find(t.rows, row.key).None?
  }

  /** The rows the loop appends: identifiers in sequence, creation-only columns of the first entry with the key. */
  lemma {:induction false} CreatedRowIs<K, U, F>(t: Table<K, U, F>, es: seq<Entry<K, U, F>>, i: nat)
    requires |t.rows| <= i < |UpsertAll(t, es).rows|
    ensures IsCreated(t, es, UpsertAll(t, es).rows[i], t.nextId + (i - |t.rows|))
    decreases |es|
  {
    var t1, row := Upsert(t, es[0]), UpsertAll(t, es).rows[i];
    FindAfterUpsert(t, es[0], row.key);
    ListedCons(es, row.key);
    if i < |t1.rows| {
      ExistingRows(t1, es[1..]);
      assert row.key == es[0].key && FirstAt(es, row.key) == 0;
    } else {
      CreatedRowIs(t1, es[1..], i);
      assert FirstAt(es, row.key) == 1 + FirstAt(es[1..], row.key);
    }
  }

  /** They stand in the order in which their keys are first listed. */
  lemma {:induction false} CreatedInOrder<K, U, F>(t: Table<K, U, F>, es: seq<Entry<K, U, F>>, i: nat, k: nat)
    requires |t.rows| <= i < k < |UpsertAll(t, es).rows|
    ensures FirstAt(es, UpsertAll(t, es).rows[i].key) < FirstAt(es, UpsertAll(t, es).rows[k].key)
    decreases |es|
  {
    var t1, rows := Upsert(t, es[0]), UpsertAll(t, es).rows;
    CreatedRowIs(t1, es[1..], k);
    FindAfterUpsert(t, es[0], rows[k].key);
    if i < |t1.rows| {
      ExistingRows(t1, es[1..]);
    } else {
      CreatedInOrder(t1, es[1..], i, k);
      CreatedRowIs(t1, es[1..], i);
      FindAfterUpsert(t, es[0], rows[i].key);
    }
  }

  lemma {:induction false} NextIdAfter<K, U, F>(t: Table<K, U, F>, es: seq<Entry<K, U, F>>)
    ensures |UpsertAll(t, es).rows| >= |t.rows|
    ensures UpsertAll(t, es).nextId == t.nextId + (|UpsertAll(t, es).rows| - |t.rows|)
    decreases |es|
  {
    if es != [] {
      NextIdAfter(Upsert(t, es[0]), es[1..]);
    }
  }

  ghost predicate DistinctIds<K, U, F>(t: Table<K, U, F>) {
    && (forall i, k :: 0 <= i < k < |t.rows| ==> t.rows[i].id != t.rows[k].id)
    && (forall i :: 0 <= i < |t.rows| ==> t.rows[i].id < t.nextId)
  }

  /** Identifiers stay distinct. */
  lemma IdsStayDistinct<K, U, F>(t: Table<K, U, F>, es: seq<Entry<K, U, F>>)
    requires DistinctIds(t)
    ensures DistinctIds(UpsertAll(t, es))
  {
    var rows := UpsertAll(t, es).rows;
    ExistingRows(t, es);
    NextIdAfter(t, es);
    forall i | 0 <= i < |rows|
      ensures rows[i].id == if i < |t.rows| then t.rows[i].id else t.nextId + (i - |t.rows|)
    {
      if i < |t.rows| {
        assert rows[i] == RowAfter(t, es, i);
      } else {
        CreatedRowIs(t, es, i);
      }
    }
  }

  /** The rows the loop creates: the first of their key, and the key is listed. */
  lemma {:induction false} CreatedRows<K, U, F>(t: Table<K, U, F>, es: seq<Entry<K, U, F>>, i: nat)
    requires |t.rows| <= i < |UpsertAll(t, es).rows|
    ensures var key := UpsertAll(t, es).rows[i].key;
            Listed(es, key) && Find(UpsertAll(t, es).rows, key) == Some(i)
    decreases |es|
  {
    var t1 := Upsert(t, es[0]);
    var key := UpsertAll(t, es).rows[i].key;
    ListedCons(es, key);
    if i < |t1.rows| {
      ExistingRows(t1, es[1..]);
      FindAfterUpsert(t, es[0], es[0].key);
      ListedRows(t1, es[1..], es[0].key);
    } else {
      CreatedRows(t1, es[1..], i);
    }
  }
}
