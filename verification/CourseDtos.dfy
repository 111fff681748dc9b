/** The course-creation DTOs as the Go structs they are: course, chapters, lessons, resources. */
module CourseDtos {
  import opened Schema
  import opened Dtos
  import opened GoStructs
  import opened WireKeys

  // ---- CreateResourceDto ----------------------------------------------------------------

  datatype CreateResourceDto = CreateResourceDto(
    title: string, url: string, kind: string, isLocked: Optional<bool>)

  function ResourceValue(x: CreateResourceDto, i: nat): Value
    requires i < 4
  {
    match i
    case 0 => VStr(x.title)
    case 1 => VStr(x.url)
    case 2 => VStr(x.kind)
    case _ => OptB(x.isLocked)
  }

  function ResourceFields(x: CreateResourceDto): seq<Value> {
    seq(4, i requires 0 <= i < 4 => ResourceValue(x, i))
  }

  function ResourceOf(vs: seq<Value>): CreateResourceDto {
    CreateResourceDto(StrOf(At(vs, 0)), StrOf(At(vs, 1)), StrOf(At(vs, 2)), OptBoolOf(At(vs, 3)))
  }

  ghost predicate ResourceVals(vs: seq<Value>, x: CreateResourceDto) {
    && |vs| == 4
    && vs[0] == VStr(x.title)
    && vs[1] == VStr(x.url)
    && vs[2] == VStr(x.kind)
    && vs[3] == OptB(x.isLocked)
  }

  lemma ResourceHasVals(x: CreateResourceDto)
    ensures ResourceVals(ResourceFields(x), x)
  {
  }

  lemma ResourceOfVals(vs: seq<Value>, x: CreateResourceDto)
    requires ResourceVals(vs, x)
    ensures ResourceOf(vs) == x
  {
  }

  lemma ResourceLeftInverse()
    ensures LeftInverse(ResourceFields, ResourceOf)
  {
    forall x: CreateResourceDto
      ensures ResourceOf(ResourceFields(x)) == x
    {
      ResourceHasVals(x);
      ResourceOfVals(ResourceFields(x), x);
    }
  }

  ghost predicate ResourceTypes(s: Schema) {
    && |s.fields| == 4
    && s.fields[0].ty == TStr
    && s.fields[1].ty == TStr
    && s.fields[2].ty == TStr
    && s.fields[3].ty == TOpt(TBool)
  }

  lemma ResourceHasTypes()
    ensures ResourceTypes(CREATE_RESOURCE)
  {
  }

  ghost predicate ResourceFrom(vs: seq<Value>, x: CreateResourceDto) {
    && x.title == StrOf(At(vs, 0))
    && x.url == StrOf(At(vs, 1))
    && x.kind == StrOf(At(vs, 2))
    && x.isLocked == OptBoolOf(At(vs, 3))
  }

  /** A well-typed struct, taken apart and put together again. */
  lemma ResourceBack(s: Schema, vs: seq<Value>, ws: seq<Value>, x: CreateResourceDto)
    requires AllTyped(s, vs) && ResourceTypes(s) && ResourceVals(ws, x) && ResourceFrom(vs, x)
    ensures ws == vs
  {
    StrBack(s, vs, 0);
    StrBack(s, vs, 1);
    StrBack(s, vs, 2);
    OptBoolBack(s, vs, 3);
    assert forall i :: 0 <= i < 4 ==> ws[i] == vs[i];
  }

  lemma ResourceRightInverse()
    ensures RightInverse(CREATE_RESOURCE, ResourceFields, ResourceOf)
  {
    ResourceHasTypes();
    forall vs | FieldsHaveType(CREATE_RESOURCE, vs)
      ensures ResourceFields(ResourceOf(vs)) == vs
    {
      ResourceHasVals(ResourceOf(vs));
      ResourceBack(CREATE_RESOURCE, vs, ResourceFields(ResourceOf(vs)), ResourceOf(vs));
    }
  }

  lemma ResourceTyped(s: Schema, vs: seq<Value>, x: CreateResourceDto)
    requires ResourceTypes(s) && ResourceVals(vs, x)
    ensures FieldsHaveType(s, vs)
  {
    assert HasType(s.fields[0].ty, vs[0]) && HasType(s.fields[1].ty, vs[1]) && HasType(s.fields[2].ty, vs[2]);
    assert HasType(s.fields[3].ty, vs[3]);
  }

  lemma ResourceHasType(x: CreateResourceDto)
    ensures FieldsHaveType(CREATE_RESOURCE, ResourceFields(x))
  {
    ResourceHasTypes();
    ResourceHasVals(x);
    ResourceTyped(CREATE_RESOURCE, ResourceFields(x), x);
  }

  // ---- NestedCourseLessonDto ------------------------------------------------------------

  datatype NestedCourseLessonDto = NestedCourseLessonDto(
    title: string, description: Optional<string>, videoUrl: Optional<string>, videoDuration: Optional<real>,
    isPreview: Optional<bool>, orderIndex: Optional<real>, resources: List<CreateResourceDto>)

  function LessonValue(x: NestedCourseLessonDto, i: nat): Value
    requires i < 7
  {
    match i
    case 0 => VStr(x.title)
    case 1 => OptS(x.description)
    case 2 => OptS(x.videoUrl)
    case 3 => OptN(x.videoDuration)
    case 4 => OptB(x.isPreview)
    case 5 => OptN(x.orderIndex)
    case _ => SliceOf(x.resources, ResourceFields)
  }

  function LessonFields(x: NestedCourseLessonDto): seq<Value> {
    seq(7, i requires 0 <= i < 7 => LessonValue(x, i))
  }

  function LessonOf(vs: seq<Value>): NestedCourseLessonDto {
    NestedCourseLessonDto(StrOf(At(vs, 0)), OptStrOf(At(vs, 1)), OptStrOf(At(vs, 2)), OptNumOf(At(vs, 3)),
      OptBoolOf(At(vs, 4)), OptNumOf(At(vs, 5)), ListOf(At(vs, 6), ResourceOf))
  }

  ghost predicate LessonVals(vs: seq<Value>, x: NestedCourseLessonDto) {
    && |vs| == 7
    && vs[0] == VStr(x.title)
    && vs[1] == OptS(x.description)
    && vs[2] == OptS(x.videoUrl)
    && vs[3] == OptN(x.videoDuration)
    && vs[4] == OptB(x.isPreview)
    && vs[5] == OptN(x.orderIndex)
    && vs[6] == SliceOf(x.resources, ResourceFields)
  }

  lemma LessonHasVals(x: NestedCourseLessonDto)
    ensures LessonVals(LessonFields(x), x)
  {
  }

  lemma LessonOfVals(vs: seq<Value>, x: NestedCourseLessonDto)
    requires LessonVals(vs, x)
    requires LeftInverse(ResourceFields, ResourceOf)
    ensures LessonOf(vs) == x
  {
    ListOfSlice(x.resources, ResourceFields, ResourceOf);
  }

  lemma LessonLeftInverse()
    ensures LeftInverse(LessonFields, LessonOf)
  {
    ResourceLeftInverse();
    forall x: NestedCourseLessonDto
      ensures LessonOf(LessonFields(x)) == x
    {
      LessonHasVals(x);
      LessonOfVals(LessonFields(x), x);
    }
  }

  ghost predicate LessonTypes(s: Schema) {
    && |s.fields| == 7
    && s.fields[0].ty == TStr
    && s.fields[1].ty == TOpt(TStr)
    && s.fields[2].ty == TOpt(TStr)
    && s.fields[3].ty == TOpt(TNum)
    && s.fields[4].ty == TOpt(TBool)
    && s.fields[5].ty == TOpt(TNum)
    && s.fields[6].ty == TSlice(TStruct(CREATE_RESOURCE))
  }

  lemma LessonHasTypes()
    ensures LessonTypes(NESTED_LESSON)
  {
  }

  ghost predicate LessonFrom(vs: seq<Value>, x: NestedCourseLessonDto) {
    && x.title == StrOf(At(vs, 0))
    && x.description == OptStrOf(At(vs, 1))
    && x.videoUrl == OptStrOf(At(vs, 2))
    && x.videoDuration == OptNumOf(At(vs, 3))
    && x.isPreview == OptBoolOf(At(vs, 4))
    && x.orderIndex == OptNumOf(At(vs, 5))
    && x.resources == ListOf(At(vs, 6), ResourceOf)
  }

  /** A well-typed struct, taken apart and put together again. */
  lemma LessonBack(s: Schema, vs: seq<Value>, ws: seq<Value>, x: NestedCourseLessonDto)
    requires AllTyped(s, vs) && LessonTypes(s) && LessonVals(ws, x) && LessonFrom(vs, x)
    requires RightInverse(CREATE_RESOURCE, ResourceFields, ResourceOf)
    ensures ws == vs
  {
    StrBack(s, vs, 0);
    OptStrBack(s, vs, 1);
    OptStrBack(s, vs, 2);
    OptNumBack(s, vs, 3);
    OptBoolBack(s, vs, 4);
    OptNumBack(s, vs, 5);
    ListBack(s, vs, 6, CREATE_RESOURCE, ResourceFields, ResourceOf);
    assert forall i :: 0 <= i < 7 ==> ws[i] == vs[i];
  }

  lemma LessonRightInverse()
    ensures RightInverse(NESTED_LESSON, LessonFields, LessonOf)
  {
    LessonHasTypes();
    ResourceRightInverse();
    forall vs | FieldsHaveType(NESTED_LESSON, vs)
      ensures LessonFields(LessonOf(vs)) == vs
    {
      LessonHasVals(LessonOf(vs));
      LessonBack(NESTED_LESSON, vs, LessonFields(LessonOf(vs)), LessonOf(vs));
    }
  }

  lemma LessonTyped(s: Schema, vs: seq<Value>, x: NestedCourseLessonDto)
    requires LessonTypes(s) && LessonVals(vs, x)
    requires forall y: CreateResourceDto :: FieldsHaveType(CREATE_RESOURCE, ResourceFields(y))
    ensures FieldsHaveType(s, vs)
  {
    ListHasType(CREATE_RESOURCE, ResourceFields, x.resources);
    assert HasType(s.fields[0].ty, vs[0]) && HasType(s.fields[1].ty, vs[1]) && HasType(s.fields[2].ty, vs[2]);
    assert HasType(s.fields[3].ty, vs[3]) && HasType(s.fields[4].ty, vs[4]) && HasType(s.fields[5].ty, vs[5]);
    assert HasType(s.fields[6].ty, vs[6]);
  }

  lemma LessonHasType(x: NestedCourseLessonDto)
    ensures FieldsHaveType(NESTED_LESSON, LessonFields(x))
  {
    LessonHasTypes();
    LessonHasVals(x);
    forall y: CreateResourceDto
      ensures FieldsHaveType(CREATE_RESOURCE, ResourceFields(y))
    {
      ResourceHasType(y);
    }
    LessonTyped(NESTED_LESSON, LessonFields(x), x);
  }

  // ---- CreateChapterDto -----------------------------------------------------------------

  datatype CreateChapterDto = CreateChapterDto(
    title: string, description: Optional<string>, orderIndex: real, lessons: List<NestedCourseLessonDto>)

  function ChapterValue(x: CreateChapterDto, i: nat): Value
    requires i < 4
  {
    match i
    case 0 => VStr(x.title)
    case 1 => OptS(x.description)
    case 2 => VNum(x.orderIndex)
    case _ => SliceOf(x.lessons, LessonFields)
  }

  function ChapterFields(x: CreateChapterDto): seq<Value> {
    seq(4, i requires 0 <= i < 4 => ChapterValue(x, i))
  }

  function ChapterOf(vs: seq<Value>): CreateChapterDto {
    CreateChapterDto(StrOf(At(vs, 0)), OptStrOf(At(vs, 1)), NumOf(At(vs, 2)), ListOf(At(vs, 3), LessonOf))
  }

  ghost predicate ChapterVals(vs: seq<Value>, x: CreateChapterDto) {
    && |vs| == 4
    && vs[0] == VStr(x.title)
    && vs[1] == OptS(x.description)
    && vs[2] == VNum(x.orderIndex)
    && vs[3] == SliceOf(x.lessons, LessonFields)
  }

  lemma ChapterHasVals(x: CreateChapterDto)
    ensures ChapterVals(ChapterFields(x), x)
  {
  }

  lemma ChapterOfVals(vs: seq<Value>, x: CreateChapterDto)
    requires ChapterVals(vs, x)
    requires LeftInverse(LessonFields, LessonOf)
    ensures ChapterOf(vs) == x
  {
    ListOfSlice(x.lessons, LessonFields, LessonOf);
  }

  lemma ChapterLeftInverse()
    ensures LeftInverse(ChapterFields, ChapterOf)
  {
    LessonLeftInverse();
    forall x: CreateChapterDto
      ensures ChapterOf(ChapterFields(x)) == x
    {
      ChapterHasVals(x);
      ChapterOfVals(ChapterFields(x), x);
    }
  }

  ghost predicate ChapterTypes(s: Schema) {
    && |s.fields| == 4
    && s.fields[0].ty == TStr
    && s.fields[1].ty == TOpt(TStr)
    && s.fields[2].ty == TNum
    && s.fields[3].ty == TSlice(TStruct(NESTED_LESSON))
  }

  lemma ChapterHasTypes()
    ensures ChapterTypes(CREATE_CHAPTER)
  {
  }

  ghost predicate ChapterFrom(vs: seq<Value>, x: CreateChapterDto) {
    && x.title == StrOf(At(vs, 0))
    && x.description == OptStrOf(At(vs, 1))
    && x.orderIndex == NumOf(At(vs, 2))
    && x.lessons == ListOf(At(vs, 3), LessonOf)
  }

  /** A well-typed struct, taken apart and put together again. */
  lemma ChapterBack(s: Schema, vs: seq<Value>, ws: seq<Value>, x: CreateChapterDto)
    requires AllTyped(s, vs) && ChapterTypes(s) && ChapterVals(ws, x) && ChapterFrom(vs, x)
    requires RightInverse(NESTED_LESSON, LessonFields, LessonOf)
    ensures ws == vs
  {
    StrBack(s, vs, 0);
    OptStrBack(s, vs, 1);
    NumBack(s, vs, 2);
    ListBack(s, vs, 3, NESTED_LESSON, LessonFields, LessonOf);
    assert forall i :: 0 <= i < 4 ==> ws[i] == vs[i];
  }

  lemma ChapterRightInverse()
    ensures RightInverse(CREATE_CHAPTER, ChapterFields, ChapterOf)
  {
    ChapterHasTypes();
    LessonRightInverse();
    forall vs | FieldsHaveType(CREATE_CHAPTER, vs)
      ensures ChapterFields(ChapterOf(vs)) == vs
    {
      ChapterHasVals(ChapterOf(vs));
      ChapterBack(CREATE_CHAPTER, vs, ChapterFields(ChapterOf(vs)), ChapterOf(vs));
    }
  }

  lemma ChapterTyped(s: Schema, vs: seq<Value>, x: CreateChapterDto)
    requires ChapterTypes(s) && ChapterVals(vs, x)
    requires forall y: NestedCourseLessonDto :: FieldsHaveType(NESTED_LESSON, LessonFields(y))
    ensures FieldsHaveType(s, vs)
  {
    ListHasType(NESTED_LESSON, LessonFields, x.lessons);
    assert HasType(s.fields[0].ty, vs[0]) && HasType(s.fields[1].ty, vs[1]) && HasType(s.fields[2].ty, vs[2]);
    assert HasType(s.fields[3].ty, vs[3]);
  }

  lemma ChapterHasType(x: CreateChapterDto)
    ensures FieldsHaveType(CREATE_CHAPTER, ChapterFields(x))
  {
    ChapterHasTypes();
    ChapterHasVals(x);
    forall y: NestedCourseLessonDto
      ensures FieldsHaveType(NESTED_LESSON, LessonFields(y))
    {
      LessonHasType(y);
    }
    ChapterTyped(CREATE_CHAPTER, ChapterFields(x), x);
  }

  // ---- CreateCourseDto ------------------------------------------------------------------

  datatype CreateCourseDto = CreateCourseDto(
    title: string, description: string, learningPoints: string, instructor: string, instructorId: Optional<string>,
    level: string, duration: string, thumbnail: string, tags: string, costType: string, price: real,
    status: Optional<string>, courseType: Optional<string>, externalUrl: Optional<string>,
    sourceVideoUrl: Optional<string>, sourcePlatform: Optional<string>, industryId: Optional<string>,
    categoryId: Optional<string>, chapters: List<CreateChapterDto>)

  function CourseValue(x: CreateCourseDto, i: nat): Value
    requires i < 19
  {
    match i
    case 0 => VStr(x.title)
    case 1 => VStr(x.description)
    case 2 => VStr(x.learningPoints)
    case 3 => VStr(x.instructor)
    case 4 => OptS(x.instructorId)
    case 5 => VStr(x.level)
    case 6 => VStr(x.duration)
    case 7 => VStr(x.thumbnail)
    case 8 => VStr(x.tags)
    case 9 => VStr(x.costType)
    case 10 => VNum(x.price)
    case 11 => OptS(x.status)
    case 12 => OptS(x.courseType)
    case 13 => OptS(x.externalUrl)
    case 14 => OptS(x.sourceVideoUrl)
    case 15 => OptS(x.sourcePlatform)
    case 16 => OptS(x.industryId)
    case 17 => OptS(x.categoryId)
    case _ => SliceOf(x.chapters, ChapterFields)
  }

  function CourseFields(x: CreateCourseDto): seq<Value> {
    seq(19, i requires 0 <= i < 19 => CourseValue(x, i))
  }

  function CourseOf(vs: seq<Value>): CreateCourseDto {
    CreateCourseDto(StrOf(At(vs, 0)), StrOf(At(vs, 1)), StrOf(At(vs, 2)), StrOf(At(vs, 3)), OptStrOf(At(vs, 4)),
      StrOf(At(vs, 5)), StrOf(At(vs, 6)), StrOf(At(vs, 7)), StrOf(At(vs, 8)), StrOf(At(vs, 9)), NumOf(At(vs, 10)),
      OptStrOf(At(vs, 11)), OptStrOf(At(vs, 12)), OptStrOf(At(vs, 13)), OptStrOf(At(vs, 14)), OptStrOf(At(vs, 15)),
      OptStrOf(At(vs, 16)), OptStrOf(At(vs, 17)), ListOf(At(vs, 18), ChapterOf))
  }

  function ZeroCourse(): CreateCourseDto {
    CreateCourseDto("", "", "", "", Optional("", false), "", "", "", "", "", 0.0, Optional("", false),
      Optional("", false), Optional("", false), Optional("", false), Optional("", false), Optional("", false),
      Optional("", false), Nil)
  }

  ghost predicate CourseVals0(vs: seq<Value>, x: CreateCourseDto) {
    && |vs| == 19
    && vs[0] == VStr(x.title)
    && vs[1] == VStr(x.description)
    && vs[2] == VStr(x.learningPoints)
    && vs[3] == VStr(x.instructor)
    && vs[4] == OptS(x.instructorId)
    && vs[5] == VStr(x.level)
    && vs[6] == VStr(x.duration)
  }

  ghost predicate CourseVals7(vs: seq<Value>, x: CreateCourseDto) {
    && |vs| == 19
    && vs[7] == VStr(x.thumbnail)
    && vs[8] == VStr(x.tags)
    && vs[9] == VStr(x.costType)
    && vs[10] == VNum(x.price)
    && vs[11] == OptS(x.status)
    && vs[12] == OptS(x.courseType)
    && vs[13] == OptS(x.externalUrl)
  }

  ghost predicate CourseVals14(vs: seq<Value>, x: CreateCourseDto) {
    && |vs| == 19
    && vs[14] == OptS(x.sourceVideoUrl)
    && vs[15] == OptS(x.sourcePlatform)
    && vs[16] == OptS(x.industryId)
    && vs[17] == OptS(x.categoryId)
    && vs[18] == SliceOf(x.chapters, ChapterFields)
  }

  ghost predicate CourseVals(vs: seq<Value>, x: CreateCourseDto) {
    && CourseVals0(vs, x)
    && CourseVals7(vs, x)
    && CourseVals14(vs, x)
  }

  lemma CourseHasVals0(x: CreateCourseDto)
    ensures CourseVals0(CourseFields(x), x)
  {
  }

  lemma CourseHasVals7(x: CreateCourseDto)
    ensures CourseVals7(CourseFields(x), x)
  {
  }

  lemma CourseHasVals14(x: CreateCourseDto)
    ensures CourseVals14(CourseFields(x), x)
  {
  }

  lemma CourseHasVals(x: CreateCourseDto)
    ensures CourseVals(CourseFields(x), x)
  {
    CourseHasVals0(x);
    CourseHasVals7(x);
    CourseHasVals14(x);
  }

  lemma CourseOfVals(vs: seq<Value>, x: CreateCourseDto)
    requires CourseVals(vs, x)
    requires LeftInverse(ChapterFields, ChapterOf)
    ensures CourseOf(vs) == x
  {
    ListOfSlice(x.chapters, ChapterFields, ChapterOf);
  }

  lemma CourseLeftInverse()
    ensures LeftInverse(CourseFields, CourseOf)
  {
    ChapterLeftInverse();
    forall x: CreateCourseDto
      ensures CourseOf(CourseFields(x)) == x
    {
      CourseHasVals(x);
      CourseOfVals(CourseFields(x), x);
    }
  }

  ghost predicate CourseTypes0(s: Schema) {
    && |s.fields| == 19
    && s.fields[0].ty == TStr
    && s.fields[1].ty == TStr
    && s.fields[2].ty == TStr
    && s.fields[3].ty == TStr
    && s.fields[4].ty == TOpt(TStr)
    && s.fields[5].ty == TStr
    && s.fields[6].ty == TStr
  }

  ghost predicate CourseTypes7(s: Schema) {
    && |s.fields| == 19
    && s.fields[7].ty == TStr
    && s.fields[8].ty == TStr
    && s.fields[9].ty == TStr
    && s.fields[10].ty == TNum
    && s.fields[11].ty == TOpt(TStr)
    && s.fields[12].ty == TOpt(TStr)
    && s.fields[13].ty == TOpt(TStr)
  }

  ghost predicate CourseTypes14(s: Schema) {
    && |s.fields| == 19
    && s.fields[14].ty == TOpt(TStr)
    && s.fields[15].ty == TOpt(TStr)
    && s.fields[16].ty == TOpt(TStr)
    && s.fields[17].ty == TOpt(TStr)
    && s.fields[18].ty == TSlice(TStruct(CREATE_CHAPTER))
  }

  ghost predicate CourseTypes(s: Schema) {
    && CourseTypes0(s)
    && CourseTypes7(s)
    && CourseTypes14(s)
  }

  lemma CourseHasTypes()
    ensures CourseTypes(CREATE_COURSE)
  {
  }

  ghost predicate CourseFrom0(vs: seq<Value>, x: CreateCourseDto) {
    && x.title == StrOf(At(vs, 0))
    && x.description == StrOf(At(vs, 1))
    && x.learningPoints == StrOf(At(vs, 2))
    && x.instructor == StrOf(At(vs, 3))
    && x.instructorId == OptStrOf(At(vs, 4))
    && x.level == StrOf(At(vs, 5))
    && x.duration == StrOf(At(vs, 6))
  }

  lemma CourseIsFrom0(vs: seq<Value>)
    ensures CourseFrom0(vs, CourseOf(vs))
  {
  }

  ghost predicate CourseFrom7(vs: seq<Value>, x: CreateCourseDto) {
    && x.thumbnail == StrOf(At(vs, 7))
    && x.tags == StrOf(At(vs, 8))
    && x.costType == StrOf(At(vs, 9))
    && x.price == NumOf(At(vs, 10))
    && x.status == OptStrOf(At(vs, 11))
    && x.courseType == OptStrOf(At(vs, 12))
    && x.externalUrl == OptStrOf(At(vs, 13))
  }

  lemma CourseIsFrom7(vs: seq<Value>)
    ensures CourseFrom7(vs, CourseOf(vs))
  {
  }

  ghost predicate CourseFrom14(vs: seq<Value>, x: CreateCourseDto) {
    && x.sourceVideoUrl == OptStrOf(At(vs, 14))
    && x.sourcePlatform == OptStrOf(At(vs, 15))
    && x.industryId == OptStrOf(At(vs, 16))
    && x.categoryId == OptStrOf(At(vs, 17))
    && x.chapters == ListOf(At(vs, 18), ChapterOf)
  }

  lemma CourseIsFrom14(vs: seq<Value>)
    ensures CourseFrom14(vs, CourseOf(vs))
  {
  }

  lemma CourseBack0(s: Schema, vs: seq<Value>, ws: seq<Value>, x: CreateCourseDto)
    requires AllTyped(s, vs) && CourseTypes0(s) && CourseVals0(ws, x) && CourseFrom0(vs, x)
    ensures |vs| == |ws| && forall i :: 0 <= i < 7 ==> ws[i] == vs[i]
  {
    StrBack(s, vs, 0);
    StrBack(s, vs, 1);
    StrBack(s, vs, 2);
    StrBack(s, vs, 3);
    OptStrBack(s, vs, 4);
    StrBack(s, vs, 5);
    StrBack(s, vs, 6);
  }

  lemma CourseBack7(s: Schema, vs: seq<Value>, ws: seq<Value>, x: CreateCourseDto)
    requires AllTyped(s, vs) && CourseTypes7(s) && CourseVals7(ws, x) && CourseFrom7(vs, x)
    ensures |vs| == |ws| && forall i :: 7 <= i < 14 ==> ws[i] == vs[i]
  {
    StrBack(s, vs, 7);
    StrBack(s, vs, 8);
    StrBack(s, vs, 9);
    NumBack(s, vs, 10);
    OptStrBack(s, vs, 11);
    OptStrBack(s, vs, 12);
    OptStrBack(s, vs, 13);
  }

  lemma CourseBack14(s: Schema, vs: seq<Value>, ws: seq<Value>, x: CreateCourseDto)
    requires AllTyped(s, vs) && CourseTypes14(s) && CourseVals14(ws, x) && CourseFrom14(vs, x)
    requires RightInverse(CREATE_CHAPTER, ChapterFields, ChapterOf)
    ensures |vs| == |ws| && forall i :: 14 <= i < 19 ==> ws[i] == vs[i]
  {
    OptStrBack(s, vs, 14);
    OptStrBack(s, vs, 15);
    OptStrBack(s, vs, 16);
    OptStrBack(s, vs, 17);
    ListBack(s, vs, 18, CREATE_CHAPTER, ChapterFields, ChapterOf);
  }

  /** A well-typed struct, taken apart and put together again. */
  lemma CourseBack(s: Schema, vs: seq<Value>, ws: seq<Value>, x: CreateCourseDto)
    requires AllTyped(s, vs) && CourseTypes(s) && CourseVals(ws, x) && x == CourseOf(vs)
    requires RightInverse(CREATE_CHAPTER, ChapterFields, ChapterOf)
    ensures ws == vs
  {
    CourseIsFrom0(vs);
    CourseBack0(s, vs, ws, x);
    CourseIsFrom7(vs);
    CourseBack7(s, vs, ws, x);
    CourseIsFrom14(vs);
    CourseBack14(s, vs, ws, x);
  }

  lemma CourseRightInverse()
    ensures RightInverse(CREATE_COURSE, CourseFields, CourseOf)
  {
    CourseHasTypes();
    ChapterRightInverse();
    forall vs | FieldsHaveType(CREATE_COURSE, vs)
      ensures CourseFields(CourseOf(vs)) == vs
    {
      CourseHasVals(CourseOf(vs));
      CourseBack(CREATE_COURSE, vs, CourseFields(CourseOf(vs)), CourseOf(vs));
    }
  }

  lemma ZeroCourseVals(s: Schema, vs: seq<Value>)
    requires CourseTypes(s) && CourseVals(vs, ZeroCourse())
    ensures vs == ZeroFields(s)
  {
    assert vs[0] == Zero(s.fields[0].ty) && vs[1] == Zero(s.fields[1].ty) && vs[2] == Zero(s.fields[2].ty);
    assert vs[3] == Zero(s.fields[3].ty) && vs[4] == Zero(s.fields[4].ty) && vs[5] == Zero(s.fields[5].ty);
    assert vs[6] == Zero(s.fields[6].ty) && vs[7] == Zero(s.fields[7].ty) && vs[8] == Zero(s.fields[8].ty);
    assert vs[9] == Zero(s.fields[9].ty) && vs[10] == Zero(s.fields[10].ty) && vs[11] == Zero(s.fields[11].ty);
    assert vs[12] == Zero(s.fields[12].ty) && vs[13] == Zero(s.fields[13].ty) && vs[14] == Zero(s.fields[14].ty);
    assert vs[15] == Zero(s.fields[15].ty) && vs[16] == Zero(s.fields[16].ty) && vs[17] == Zero(s.fields[17].ty);
    assert vs[18] == Zero(s.fields[18].ty);
  }

  /** A fresh struct has the zero values. */
  lemma ZeroCourseFields()
    ensures CourseFields(ZeroCourse()) == ZeroFields(CREATE_COURSE)
  {
    CourseHasTypes();
    CourseHasVals(ZeroCourse());
    ZeroCourseVals(CREATE_COURSE, CourseFields(ZeroCourse()));
  }

  lemma CourseTyped0(s: Schema, vs: seq<Value>, x: CreateCourseDto)
    requires CourseTypes0(s) && CourseVals0(vs, x)
    ensures forall i :: 0 <= i < 7 ==> HasType(s.fields[i].ty, vs[i])
  {
    assert HasType(s.fields[0].ty, vs[0]) && HasType(s.fields[1].ty, vs[1]) && HasType(s.fields[2].ty, vs[2]);
    assert HasType(s.fields[3].ty, vs[3]) && HasType(s.fields[4].ty, vs[4]) && HasType(s.fields[5].ty, vs[5]);
    assert HasType(s.fields[6].ty, vs[6]);
  }

  lemma CourseTyped7(s: Schema, vs: seq<Value>, x: CreateCourseDto)
    requires CourseTypes7(s) && CourseVals7(vs, x)
    ensures forall i :: 7 <= i < 14 ==> HasType(s.fields[i].ty, vs[i])
  {
    assert HasType(s.fields[7].ty, vs[7]) && HasType(s.fields[8].ty, vs[8]) && HasType(s.fields[9].ty, vs[9]);
    assert HasType(s.fields[10].ty, vs[10]) && HasType(s.fields[11].ty, vs[11]) && HasType(s.fields[12].ty, vs[12]);
    assert HasType(s.fields[13].ty, vs[13]);
  }

  lemma CourseTyped14(s: Schema, vs: seq<Value>, x: CreateCourseDto)
    requires CourseTypes14(s) && CourseVals14(vs, x)
    requires forall y: CreateChapterDto :: FieldsHaveType(CREATE_CHAPTER, ChapterFields(y))
    ensures forall i :: 14 <= i < 19 ==> HasType(s.fields[i].ty, vs[i])
  {
    ListHasType(CREATE_CHAPTER, ChapterFields, x.chapters);
    assert HasType(s.fields[14].ty, vs[14]) && HasType(s.fields[15].ty, vs[15]) && HasType(s.fields[16].ty, vs[16]);
    assert HasType(s.fields[17].ty, vs[17]) && HasType(s.fields[18].ty, vs[18]);
  }

  lemma CourseTyped(s: Schema, vs: seq<Value>, x: CreateCourseDto)
    requires CourseTypes(s) && CourseVals(vs, x)
    requires forall y: CreateChapterDto :: FieldsHaveType(CREATE_CHAPTER, ChapterFields(y))
    ensures FieldsHaveType(s, vs)
  {
    CourseTyped0(s, vs, x);
    CourseTyped7(s, vs, x);
    CourseTyped14(s, vs, x);
  }

  lemma CourseHasType(x: CreateCourseDto)
    ensures FieldsHaveType(CREATE_COURSE, CourseFields(x))
  {
    CourseHasTypes();
    CourseHasVals(x);
    forall y: CreateChapterDto
      ensures FieldsHaveType(CREATE_CHAPTER, ChapterFields(y))
    {
      ChapterHasType(y);
    }
    CourseTyped(CREATE_COURSE, CourseFields(x), x);
  }
}
