/** What the back-fill's queries and string handling return, said without their definitions. */
module BackfillReads {
  import opened Common
  import opened Backfill

  // ---- trim -----------------------------------------------------------------------------

  /** White space and line terminators of ECMAScript (section 12.2 and 12.3), by code point. */
  lemma SpaceExactly(c: char)
    ensures Space(c) <==>
            c as int in {0x9, 0xA, 0xB, 0xC, 0xD, 0x20, 0xA0, 0x1680, 0x2000, 0x2001, 0x2002, 0x2003, 0x2004, 0x2005,
                         0x2006, 0x2007, 0x2008, 0x2009, 0x200A, 0x2028, 0x2029, 0x202F, 0x205F, 0x3000, 0xFEFF}
  {
  }

  ghost predicate AllSpace(s: string) {
    forall i :: 0 <= i < |s| ==> Space(s[i])
  }

  lemma {:induction false} TrimLeftExactly(s: string) returns (cut: string)
    ensures s == cut + TrimLeft(s) && AllSpace(cut)
    ensures TrimLeft(s) != "" ==> !Space(TrimLeft(s)[0])
  {
    if s != "" && Space(s[0]) {
      var rest := TrimLeftExactly(s[1..]);
      cut := [s[0]] + rest;
    } else {
      cut := "";
    }
  }

  lemma {:induction false} TrimRightExactly(s: string) returns (cut: string)
    ensures s == TrimRight(s) + cut && AllSpace(cut)
    ensures TrimRight(s) != "" ==> !Space(TrimRight(s)[|TrimRight(s)| - 1]) && TrimRight(s)[0] == s[0]
  {
    if s != "" && Space(s[|s| - 1]) {
      var rest := TrimRightExactly(s[..|s| - 1]);
      cut := rest + [s[|s| - 1]];
    } else {
      cut := "";
    }
  }

  /** trim removes white space at both ends, and all of it. */
  lemma TrimExactly(s: string) returns (left: string, right: string)
    ensures s == left + Trim(s) + right && AllSpace(left) && AllSpace(right)
    ensures Trim(s) != "" ==> !Space(Trim(s)[0]) && !Space(Trim(s)[|Trim(s)| - 1])
  {
    left := TrimLeftExactly(s);
    right := TrimRightExactly(TrimLeft(s));
    ConcatAssoc(left, Trim(s), right);
  }

  // ---- findMany over the courses --------------------------------------------------------

  /** The course is one with a non-empty instructor, as the database compares strings. */
  ghost predicate IsSelected(env: Env, c: Course) {
    env.coll(c.instructor) != env.coll("")
  }

  lemma {:induction false} SelectedExactly(env: Env, cs: seq<Course>, c: Course)
    ensures c in Selected(env, cs) <==> c in cs && IsSelected(env, c)
  {
    if cs != [] {
      SelectedExactly(env, cs[1..], c);
      assert cs == [cs[0]] + cs[1..];
    }
  }

  lemma {:induction false} SelectedConcat(env: Env, a: seq<Course>, b: seq<Course>)
    ensures Selected(env, a + b) == Selected(env, a) + Selected(env, b)
  {
    if a == [] {
      ConcatEmpty(b);
      ConcatEmpty(Selected(env, b));
    } else {
      ConcatTail(a, b);
      SelectedConcat(env, a[1..], b);
      ConcatAssoc(if IsSelected(env, a[0]) then [a[0]] else [], Selected(env, a[1..]), Selected(env, b));
    }
  }

  /** The positions of the courses with a non-blank instructor. */
  ghost function EligibleAt(env: Env, cs: seq<Course>): set<nat> {
    set i: nat | 0 <= i < |cs| && IsSelected(env, cs[i]) && Trim(cs[i].instructor) != ""
  }

  lemma EligibleAtSnoc(env: Env, cs: seq<Course>, c: Course)
    ensures |EligibleAt(env, cs + [c])| ==
            |EligibleAt(env, cs)| + if IsSelected(env, c) && Trim(c.instructor) != "" then 1 else 0
  {
    var here, before := EligibleAt(env, cs + [c]), EligibleAt(env, cs);
    if IsSelected(env, c) && Trim(c.instructor) != "" {
      assert here == before + {|cs|};
    } else {
      assert here == before;
    }
  }

  /** The courses the second loop does not pass over are those with a non-blank instructor. */
  lemma {:induction false} EligibleCounts(env: Env, cs: seq<Course>)
    ensures Eligible(Selected(env, cs)) == |EligibleAt(env, cs)|
    decreases |cs|
  {
    if cs == [] {
      assert EligibleAt(env, cs) == {};
    } else {
      var front, c := cs[..|cs| - 1], cs[|cs| - 1];
      assert cs == front + [c];
      EligibleCounts(env, front);
      EligibleAtSnoc(env, front, c);
      SelectedConcat(env, front, [c]);
      SelectedOne(env, c);
      EligibleConcat(Selected(env, front), Selected(env, [c]));
      EligibleOne(c);
    }
  }

  lemma SelectedOne(env: Env, c: Course)
    ensures Selected(env, [c]) == if IsSelected(env, c) then [c] else []
  {
    assert [c][1..] == [];
  }

  lemma EligibleOne(c: Course)
    ensures Eligible([c]) == if Trim(c.instructor) != "" then 1 else 0
  {
    assert [c][1..] == [];
  }

  lemma {:induction false} EligibleConcat(a: seq<Course>, b: seq<Course>)
    ensures Eligible(a + b) == Eligible(a) + Eligible(b)
  {
    if a == [] {
      ConcatEmpty(b);
    } else {
      ConcatTail(a, b);
      EligibleConcat(a[1..], b);
    }
  }

  // ---- The names ------------------------------------------------------------------------

  lemma {:induction false} NamesCover(cs: seq<Course>, seen: set<string>, i: nat)
    requires i < |cs| && cs[i].instructor !in seen && Trim(cs[i].instructor) != ""
    ensures Trim(cs[i].instructor) in NamesOf(cs, seen)
    decreases i
  {
    if cs[0].instructor in seen {
      NamesCover(cs[1..], seen, i - 1);
    } else if cs[0].instructor != cs[i].instructor {
      NamesCover(cs[1..], seen + {cs[0].instructor}, i - 1);
    }
  }

  lemma {:induction false} NamesAreOfCourses(cs: seq<Course>, seen: set<string>, n: string)
    requires n in NamesOf(cs, seen)
    ensures n != "" && exists c :: c in cs && Trim(c.instructor) == n
  {
    if cs[0].instructor in seen {
      NamesAreOfCourses(cs[1..], seen, n);
      var c :| c in cs[1..] && Trim(c.instructor) == n;
      assert c in cs;
    } else if n == Trim(cs[0].instructor) && n != "" {
      assert cs[0] in cs;
    } else {
      NamesAreOfCourses(cs[1..], seen + {cs[0].instructor}, n);
      var c :| c in cs[1..] && Trim(c.instructor) == n;
      assert c in cs;
    }
  }

  /** The names of a run are the trimmed, non-blank instructor texts of the courses. */
  lemma NamesExactly(env: Env, db: Db, n: string)
    ensures n in Names(env, db) <==>
            n != "" && exists c :: c in db.courses && IsSelected(env, c) && Trim(c.instructor) == n
  {
    var cs := Selected(env, db.courses);
    if n in Names(env, db) {
      NamesAreOfCourses(cs, {}, n);
      var c :| c in cs && Trim(c.instructor) == n;
      SelectedExactly(env, db.courses, c);
    }
    if c :| c in db.courses && IsSelected(env, c) && Trim(c.instructor) == n && n != "" {
      SelectedExactly(env, db.courses, c);
      var i :| 0 <= i < |cs| && cs[i] == c;
      NamesCover(cs, {}, i);
    }
  }

  ghost function RawNames(cs: seq<Course>): set<string> {
    set c | c in cs :: c.instructor
  }

  /** One more course adds its name at the end, unless its text was there before or is blank. */
  lemma {:induction false} NamesSnoc(cs: seq<Course>, seen: set<string>, c: Course)
    ensures NamesOf(cs + [c], seen) ==
            NamesOf(cs, seen) +
            if c.instructor in seen || c.instructor in RawNames(cs) || Trim(c.instructor) == "" then []
            else [Trim(c.instructor)]
  {
    if cs == [] {
      assert cs + [c] == [c] && [c][1..] == [];
      assert RawNames(cs) == {};
    } else {
      ConcatTail(cs, [c]);
      assert forall x :: x in RawNames(cs) <==> x == cs[0].instructor || x in RawNames(cs[1..]) by {
        assert cs == [cs[0]] + cs[1..];
      }
      if cs[0].instructor in seen {
        NamesSnoc(cs[1..], seen, c);
      } else {
        NamesSnoc(cs[1..], seen + {cs[0].instructor}, c);
      }
    }
  }

  // ---- findFirst by name ----------------------------------------------------------------

  /** Row i is the earliest one the database takes for one of that name. */
  ghost predicate FirstNamed(env: Env, rows: seq<Instructor>, name: string, i: nat) {
    && i < |rows|
    && env.coll(rows[i].name) == env.coll(name)
    && forall k :: 0 <= k < i ==> env.coll(rows[k].name) != env.coll(name)
  }

  /** findFirst gives the earliest row of that name, and nothing exactly when there is none. */
  lemma {:induction false} FindByNameExactly(env: Env, rows: seq<Instructor>, name: string)
    ensures FindByName(env, rows, name).None? <==>
            forall i :: 0 <= i < |rows| ==> env.coll(rows[i].name) != env.coll(name)
    ensures FindByName(env, rows, name).Some? ==>
              exists i: nat :: FirstNamed(env, rows, name, i) && rows[i] == FindByName(env, rows, name).value
  {
    if rows != [] {
      if env.coll(rows[0].name) == env.coll(name) {
        assert FirstNamed(env, rows, name, 0);
      } else {
        FindByNameExactly(env, rows[1..], name);
        assert forall i :: 0 < i < |rows| ==> rows[i] == rows[1..][i - 1];
        assert forall i :: 0 <= i < |rows[1..]| ==> rows[1..][i] == rows[i + 1];
        if FindByName(env, rows, name).Some? {
          var i: nat :| FirstNamed(env, rows[1..], name, i) && rows[1..][i] == FindByName(env, rows, name).value;
          assert rows[i + 1] == rows[1..][i];
          assert FirstNamed(env, rows, name, i + 1);
        }
      }
    }
  }

  lemma FirstNamedIsFound(env: Env, rows: seq<Instructor>, name: string, i: nat)
    requires FirstNamed(env, rows, name, i)
    ensures FindByName(env, rows, name) == Some(rows[i])
  {
    FindByNameExactly(env, rows, name);
    if FindByName(env, rows, name).Some? {
      var k: nat :| FirstNamed(env, rows, name, k) && rows[k] == FindByName(env, rows, name).value;
      assert !(k < i) && !(i < k);
    }
  }
}
