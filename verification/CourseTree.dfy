/**
 A course sent over the wire comes back in the normal form NormCourse, at every width of the tree.
 */
module CourseTree {
  import opened Common
  import opened Json
  import opened Schema
  import opened Output
  import opened Wire
  import opened Dtos
  import opened DtosWf
  import opened GoStructs
  import opened CourseDtos
  import opened CourseKeys

  // ---- The normal form ------------------------------------------------------------------

  function NormResource(r: CreateResourceDto): CreateResourceDto {
    r.(isLocked := OrElse(r.isLocked, true))
  }

  function NormLesson(l: NestedCourseLessonDto): NestedCourseLessonDto {
    l.(description := Plain(l.description, ""), videoUrl := Plain(l.videoUrl, ""),
       videoDuration := Plain(l.videoDuration, 0.0), isPreview := OrElse(l.isPreview, false),
       orderIndex := Plain(l.orderIndex, 0.0), resources := MapList(l.resources, NormResource))
  }

  function NormChapter(c: CreateChapterDto): CreateChapterDto {
    c.(description := Plain(c.description, ""), lessons := MapList(c.lessons, NormLesson))
  }

  function NormCourse(c: CreateCourseDto): CreateCourseDto {
    c.(instructorId := Plain(c.instructorId, ""), status := Plain(c.status, ""),
       courseType := Plain(c.courseType, ""), externalUrl := Plain(c.externalUrl, ""),
       sourceVideoUrl := Plain(c.sourceVideoUrl, ""), sourcePlatform := Plain(c.sourcePlatform, ""),
       industryId := Plain(c.industryId, ""), categoryId := Plain(c.categoryId, ""),
       chapters := MapList(c.chapters, NormChapter))
  }

  // ---- Each level has its schema's type and normal form ---------------------------------

  /** Field i of vs is well typed and arrives as field i of ws. */
  ghost predicate Arrives(s: Schema, vs: seq<Value>, ws: seq<Value>, i: nat) {
    && i < |s.fields| && i < |vs| && i < |ws|
    && FieldArrives(s.fields[i], vs[i], ws[i])
  }

  ghost predicate FieldArrives(f: Field, v: Value, w: Value) {
    HasType(f.ty, v) && RawOk(v) && NormField(f, v) == w
  }

  ghost predicate AllArrive(s: Schema, vs: seq<Value>, ws: seq<Value>) {
    |vs| == |s.fields| == |ws| && forall i :: 0 <= i < |vs| ==> Arrives(s, vs, ws, i)
  }

  lemma AllArriveMeans(s: Schema, vs: seq<Value>, ws: seq<Value>)
    requires AllArrive(s, vs, ws)
    ensures FieldsHaveType(s, vs) && RawOk(VStruct(vs)) && NormFields(s, vs) == ws
  {
    forall i | 0 <= i < |vs|
      ensures HasType(s.fields[i].ty, vs[i]) && RawOk(vs[i]) && NormField(s.fields[i], vs[i]) == ws[i]
    {
      assert Arrives(s, vs, ws, i);
    }
  }

  /** Every struct of one type is well typed and arrives in its normal form. */
  ghost predicate Level<T(!new)>(s: Schema, fields: T -> seq<Value>, norm: T -> T) {
    forall x: T :: AllArrive(s, fields(x), fields(norm(x)))
  }

  /** A level lifts to slices of its structs. */
  lemma LevelSlice<T(!new)>(s: Schema, fields: T -> seq<Value>, norm: T -> T, l: List<T>)
    requires Level(s, fields, norm)
    ensures HasType(TSlice(TStruct(s)), SliceOf(l, fields)) && RawOk(SliceOf(l, fields))
    ensures l.Items? ==> Norm(TSlice(TStruct(s)), SliceOf(l, fields)) == SliceOf(MapList(l, norm), fields)
  {
    match l
    case Nil =>
    case Items(xs) =>
      var v := SliceOf(l, fields);
      forall i | 0 <= i < |xs|
        ensures HasType(TStruct(s), v.elems[i]) && RawOk(v.elems[i])
        ensures Norm(TStruct(s), v.elems[i]) == VStruct(fields(norm(xs[i])))
      {
        AllArriveMeans(s, fields(xs[i]), fields(norm(xs[i])));
      }
      assert Norm(TSlice(TStruct(s)), v).elems == SliceOf(MapList(l, norm), fields).elems;
  }

  // What each kind of field becomes.

  lemma StrField(f: Field, x: string)
    requires f == Req(f.name, TStr)
    ensures FieldArrives(f, VStr(x), VStr(x))
  {
  }

  lemma NumField(f: Field, x: real)
    requires f == Req(f.name, TNum)
    ensures FieldArrives(f, VNum(x), VNum(x))
  {
  }

  lemma OptStrField(f: Field, o: Optional<string>)
    requires f == Opt(f.name, TStr)
    ensures FieldArrives(f, OptS(o), OptS(Plain(o, "")))
  {
    assert Zero(f.ty) == VOpt(false, Zero(TStr)) && Zero(TStr) == VStr("");
    assert Norm(TStr, VStr(o.value)) == VStr(o.value);
  }

  lemma OptNumField(f: Field, o: Optional<real>)
    requires f == Opt(f.name, TNum)
    ensures FieldArrives(f, OptN(o), OptN(Plain(o, 0.0)))
  {
    assert Zero(f.ty) == VOpt(false, Zero(TNum)) && Zero(TNum) == VNum(0.0);
    assert Norm(TNum, VNum(o.value)) == VNum(o.value);
  }

  lemma OptBoolField(f: Field, o: Optional<bool>, default: bool)
    requires f == OptOr(f.name, TBool, VBool(default))
    ensures FieldArrives(f, OptB(o), OptB(OrElse(o, default)))
  {
  }

  lemma ListField<T(!new)>(f: Field, s: Schema, fields: T -> seq<Value>, norm: T -> T, l: List<T>)
    requires f == OptList(f.name, TStruct(s)) && Level(s, fields, norm)
    ensures FieldArrives(f, SliceOf(l, fields), SliceOf(MapList(l, norm), fields))
  {
    LevelSlice(s, fields, norm, l);
  }

  lemma ResourceArrives(s: Schema, vs: seq<Value>, ws: seq<Value>, x: CreateResourceDto)
    requires ResourceHolds(s, vs, x) && ResourceHolds(s, ws, NormResource(x))
    ensures forall i :: 0 <= i < 4 ==> Arrives(s, vs, ws, i)
  {
    StrField(s.fields[0], x.title);
    StrField(s.fields[1], x.url);
    StrField(s.fields[2], x.kind);
    OptBoolField(s.fields[3], x.isLocked, true);
    assert Arrives(s, vs, ws, 0) && Arrives(s, vs, ws, 1) && Arrives(s, vs, ws, 2) && Arrives(s, vs, ws, 3);
  }

  lemma ResourceLevel()
    ensures Level(CREATE_RESOURCE, ResourceFields, NormResource)
  {
    forall x: CreateResourceDto
      ensures AllArrive(CREATE_RESOURCE, ResourceFields(x), ResourceFields(NormResource(x)))
    {
      ResourceIsHeld(x);
      ResourceIsHeld(NormResource(x));
      ResourceArrives(CREATE_RESOURCE, ResourceFields(x), ResourceFields(NormResource(x)), x);
    }
  }

  lemma LessonArrives0(s: Schema, vs: seq<Value>, ws: seq<Value>, x: NestedCourseLessonDto)
    requires LessonHolds0(s, vs, x) && LessonHolds0(s, ws, NormLesson(x))
    ensures forall i :: 0 <= i < 4 ==> Arrives(s, vs, ws, i)
  {
    StrField(s.fields[0], x.title);
    OptStrField(s.fields[1], x.description);
    OptStrField(s.fields[2], x.videoUrl);
    OptNumField(s.fields[3], x.videoDuration);
    assert Arrives(s, vs, ws, 0) && Arrives(s, vs, ws, 1) && Arrives(s, vs, ws, 2) && Arrives(s, vs, ws, 3);
  }

  lemma LessonArrives4(s: Schema, vs: seq<Value>, ws: seq<Value>, x: NestedCourseLessonDto)
    requires LessonHolds4(s, vs, x) && LessonHolds4(s, ws, NormLesson(x))
    requires Level(CREATE_RESOURCE, ResourceFields, NormResource)
    ensures forall i :: 4 <= i < 7 ==> Arrives(s, vs, ws, i)
  {
    OptBoolField(s.fields[4], x.isPreview, false);
    OptNumField(s.fields[5], x.orderIndex);
    ListField(s.fields[6], CREATE_RESOURCE, ResourceFields, NormResource, x.resources);
    assert Arrives(s, vs, ws, 4) && Arrives(s, vs, ws, 5) && Arrives(s, vs, ws, 6);
  }

  lemma LessonArrives(s: Schema, vs: seq<Value>, ws: seq<Value>, x: NestedCourseLessonDto)
    requires |s.fields| == 7 == |vs| == |ws| && LessonHolds(s, vs, x) && LessonHolds(s, ws, NormLesson(x))
    requires Level(CREATE_RESOURCE, ResourceFields, NormResource)
    ensures AllArrive(s, vs, ws)
  {
    LessonArrives0(s, vs, ws, x);
    LessonArrives4(s, vs, ws, x);
  }

  lemma LessonLevel()
    ensures Level(NESTED_LESSON, LessonFields, NormLesson)
  {
    ResourceLevel();
    forall x: NestedCourseLessonDto
      ensures AllArrive(NESTED_LESSON, LessonFields(x), LessonFields(NormLesson(x)))
    {
      LessonIsHeld(x);
      LessonIsHeld(NormLesson(x));
      LessonArrives(NESTED_LESSON, LessonFields(x), LessonFields(NormLesson(x)), x);
    }
  }

  lemma ChapterArrives(s: Schema, vs: seq<Value>, ws: seq<Value>, x: CreateChapterDto)
    requires ChapterHolds(s, vs, x) && ChapterHolds(s, ws, NormChapter(x))
    requires Level(NESTED_LESSON, LessonFields, NormLesson)
    ensures forall i :: 0 <= i < 4 ==> Arrives(s, vs, ws, i)
  {
    StrField(s.fields[0], x.title);
    OptStrField(s.fields[1], x.description);
    NumField(s.fields[2], x.orderIndex);
    ListField(s.fields[3], NESTED_LESSON, LessonFields, NormLesson, x.lessons);
    assert Arrives(s, vs, ws, 0) && Arrives(s, vs, ws, 1) && Arrives(s, vs, ws, 2) && Arrives(s, vs, ws, 3);
  }

  lemma ChapterLevel()
    ensures Level(CREATE_CHAPTER, ChapterFields, NormChapter)
  {
    LessonLevel();
    forall x: CreateChapterDto
      ensures AllArrive(CREATE_CHAPTER, ChapterFields(x), ChapterFields(NormChapter(x)))
    {
      ChapterIsHeld(x);
      ChapterIsHeld(NormChapter(x));
      ChapterArrives(CREATE_CHAPTER, ChapterFields(x), ChapterFields(NormChapter(x)), x);
    }
  }

  lemma CourseArrives0(s: Schema, vs: seq<Value>, ws: seq<Value>, x: CreateCourseDto)
    requires CourseHolds0(s, vs, x) && CourseHolds0(s, ws, NormCourse(x))
    ensures forall i :: 0 <= i < 4 ==> Arrives(s, vs, ws, i)
  {
    StrField(s.fields[0], x.title);
    StrField(s.fields[1], x.description);
    StrField(s.fields[2], x.learningPoints);
    StrField(s.fields[3], x.instructor);
    assert Arrives(s, vs, ws, 0) && Arrives(s, vs, ws, 1) && Arrives(s, vs, ws, 2) && Arrives(s, vs, ws, 3);
  }

  lemma CourseArrives4(s: Schema, vs: seq<Value>, ws: seq<Value>, x: CreateCourseDto)
    requires CourseHolds4(s, vs, x) && CourseHolds4(s, ws, NormCourse(x))
    ensures forall i :: 4 <= i < 8 ==> Arrives(s, vs, ws, i)
  {
    OptStrField(s.fields[4], x.instructorId);
    StrField(s.fields[5], x.level);
    StrField(s.fields[6], x.duration);
    StrField(s.fields[7], x.thumbnail);
    assert Arrives(s, vs, ws, 4) && Arrives(s, vs, ws, 5) && Arrives(s, vs, ws, 6) && Arrives(s, vs, ws, 7);
  }

  lemma CourseArrives8(s: Schema, vs: seq<Value>, ws: seq<Value>, x: CreateCourseDto)
    requires CourseHolds8(s, vs, x) && CourseHolds8(s, ws, NormCourse(x))
    ensures forall i :: 8 <= i < 12 ==> Arrives(s, vs, ws, i)
  {
    StrField(s.fields[8], x.tags);
    StrField(s.fields[9], x.costType);
    NumField(s.fields[10], x.price);
    OptStrField(s.fields[11], x.status);
    assert Arrives(s, vs, ws, 8) && Arrives(s, vs, ws, 9) && Arrives(s, vs, ws, 10) && Arrives(s, vs, ws, 11);
  }

  lemma CourseArrives12(s: Schema, vs: seq<Value>, ws: seq<Value>, x: CreateCourseDto)
    requires CourseHolds12(s, vs, x) && CourseHolds12(s, ws, NormCourse(x))
    ensures forall i :: 12 <= i < 16 ==> Arrives(s, vs, ws, i)
  {
    OptStrField(s.fields[12], x.courseType);
    OptStrField(s.fields[13], x.externalUrl);
    OptStrField(s.fields[14], x.sourceVideoUrl);
    OptStrField(s.fields[15], x.sourcePlatform);
    assert Arrives(s, vs, ws, 12) && Arrives(s, vs, ws, 13) && Arrives(s, vs, ws, 14) && Arrives(s, vs, ws, 15);
  }

  lemma CourseArrives16(s: Schema, vs: seq<Value>, ws: seq<Value>, x: CreateCourseDto)
    requires CourseHolds16(s, vs, x) && CourseHolds16(s, ws, NormCourse(x))
    requires Level(CREATE_CHAPTER, ChapterFields, NormChapter)
    ensures forall i :: 16 <= i < 19 ==> Arrives(s, vs, ws, i)
  {
    OptStrField(s.fields[16], x.industryId);
    OptStrField(s.fields[17], x.categoryId);
    ListField(s.fields[18], CREATE_CHAPTER, ChapterFields, NormChapter, x.chapters);
    assert Arrives(s, vs, ws, 16) && Arrives(s, vs, ws, 17) && Arrives(s, vs, ws, 18);
  }

  lemma CourseArrives(s: Schema, vs: seq<Value>, ws: seq<Value>, x: CreateCourseDto)
    requires |s.fields| == 19 == |vs| == |ws| && CourseHolds(s, vs, x) && CourseHolds(s, ws, NormCourse(x))
    requires Level(CREATE_CHAPTER, ChapterFields, NormChapter)
    ensures AllArrive(s, vs, ws)
  {
    CourseArrives0(s, vs, ws, x);
    CourseArrives4(s, vs, ws, x);
    CourseArrives8(s, vs, ws, x);
    CourseArrives12(s, vs, ws, x);
    CourseArrives16(s, vs, ws, x);
  }

  lemma CourseLevel()
    ensures Level(CREATE_COURSE, CourseFields, NormCourse)
  {
    ChapterLevel();
    forall x: CreateCourseDto
      ensures AllArrive(CREATE_COURSE, CourseFields(x), CourseFields(NormCourse(x)))
    {
      CourseIsHeld(x);
      CourseIsHeld(NormCourse(x));
      CourseArrives(CREATE_COURSE, CourseFields(x), CourseFields(NormCourse(x)), x);
    }
  }

  lemma CourseIsSent(c: CreateCourseDto)
    ensures FieldsHaveType(CREATE_COURSE, CourseFields(c)) && RawOk(VStruct(CourseFields(c)))
    ensures NormFields(CREATE_COURSE, CourseFields(c)) == CourseFields(NormCourse(c))
  {
    CourseLevel();
    AllArriveMeans(CREATE_COURSE, CourseFields(c), CourseFields(NormCourse(c)));
  }

  // ---- The course round trip ------------------------------------------------------------

  /** Every encoding of a course, whatever follows it, decodes to the course's normal form. */
  lemma CourseRoundTrip(c: CreateCourseDto, j: Json, rest: seq<Token>)
    requires EncodesCourse(c, j)
    ensures ParseValue(Tokens(j) + rest) == Some((j, rest))
    ensures DecodeVal(TStruct(CREATE_COURSE), j) == Ok(VStruct(CourseFields(NormCourse(c))))
  {
    CreateCourseWf();
    CourseIsSent(c);
    ReadBack(TStruct(CREATE_COURSE), VStruct(CourseFields(c)), j, rest);
  }

  /** MarshalJSON then UnmarshalJSON into a fresh course. */
  method SendCourse(c: CreateCourseDto, rest: seq<Token>)
    returns (sent: seq<Token>, r: Decoded<()>, received: seq<Value>, left: seq<Token>)
    ensures exists j :: sent == Tokens(j) && j.JObj? && CourseWritten(c, j.members)
    ensures r == Ok(()) && received == CourseFields(NormCourse(c)) && left == rest
  {
    CreateCourseWf();
    CourseIsSent(c);
    sent, r, received, left := EncodeThenDecode(CREATE_COURSE, CourseFields(c), rest);
    ghost var j := WrittenEncodes(TStruct(CREATE_COURSE), VStruct(CourseFields(c)), sent);
    CourseOnWire(c, j);
  }

  /** Two courses with the same field values, all the way down, are the same course. */
  lemma CourseInjective(a: CreateCourseDto, b: CreateCourseDto)
    requires CourseFields(a) == CourseFields(b)
    ensures a == b
  {
    CourseLeftInverse();
    assert CourseOf(CourseFields(a)) == a && CourseOf(CourseFields(b)) == b;
  }

  /** Courses with a common encoding have one normal form: the wire loses nothing else. */
  lemma SameWireSameNorm(a: CreateCourseDto, b: CreateCourseDto, j: Json)
    requires EncodesCourse(a, j)
    ensures EncodesCourse(b, j) ==> NormCourse(a) == NormCourse(b)
  {
    if EncodesCourse(b, j) {
      CourseRoundTrip(a, j, []);
      CourseRoundTrip(b, j, []);
      CourseInjective(NormCourse(a), NormCourse(b));
    }
  }

  // ---- When a course comes back unchanged -----------------------------------------------

  predicate Tidy<T(==)>(o: Optional<T>, zero: T) {
    o.isSet || o.value == zero
  }

  ghost predicate FullLesson(l: NestedCourseLessonDto) {
    && l.isPreview.isSet
    && Tidy(l.description, "") && Tidy(l.videoUrl, "") && Tidy(l.videoDuration, 0.0) && Tidy(l.orderIndex, 0.0)
    && (l.resources.Items? ==> forall r :: r in l.resources.items ==> r.isLocked.isSet)
  }

  ghost predicate FullChapter(c: CreateChapterDto) {
    Tidy(c.description, "") && (c.lessons.Items? ==> forall l :: l in c.lessons.items ==> FullLesson(l))
  }

  ghost predicate FullCourse(c: CreateCourseDto) {
    && Tidy(c.instructorId, "") && Tidy(c.status, "") && Tidy(c.courseType, "") && Tidy(c.externalUrl, "")
    && Tidy(c.sourceVideoUrl, "") && Tidy(c.sourcePlatform, "") && Tidy(c.industryId, "") && Tidy(c.categoryId, "")
    && (c.chapters.Items? ==> forall x :: x in c.chapters.items ==> FullChapter(x))
  }

  lemma MapListIdentity<T>(l: List<T>, f: T -> T)
    ensures MapList(l, f) == l <==> (l.Items? ==> forall x :: x in l.items ==> f(x) == x)
  {
    match l
    case Nil =>
    case Items(xs) =>
      var ys := MapList(l, f).items;
      if forall x :: x in xs ==> f(x) == x {
        assert ys == xs;
      }
      if MapList(l, f) == l {
        forall x | x in xs
          ensures f(x) == x
        {
          var i :| 0 <= i < |xs| && xs[i] == x;
          assert ys[i] == f(xs[i]);
        }
      }
  }

  lemma NormLessonIdentity(l: NestedCourseLessonDto)
    ensures NormLesson(l) == l <==> FullLesson(l)
  {
    MapListIdentity(l.resources, NormResource);
  }

  lemma NormChapterIdentity(c: CreateChapterDto)
    ensures NormChapter(c) == c <==> FullChapter(c)
  {
    MapListIdentity(c.lessons, NormLesson);
    forall l: NestedCourseLessonDto
      ensures NormLesson(l) == l <==> FullLesson(l)
    {
      NormLessonIdentity(l);
    }
  }

  /**
   A course survives the wire unchanged exactly when every defaulted flag in the tree is set and
   no unset option carries a leftover payload.
   */
  lemma NormCourseIdentity(c: CreateCourseDto)
    ensures NormCourse(c) == c <==> FullCourse(c)
  {
    MapListIdentity(c.chapters, NormChapter);
    forall x: CreateChapterDto
      ensures NormChapter(x) == x <==> FullChapter(x)
    {
      NormChapterIdentity(x);
    }
  }
}
