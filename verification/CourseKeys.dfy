/** The course-creation DTOs key by key: which Go field each JSON key carries, in both directions. */
module CourseKeys {
  import opened Common
  import opened Json
  import opened Schema
  import opened DecodeLaws
  import opened Dtos
  import opened DtosWf
  import opened GoStructs
  import opened WireKeys
  import opened CourseDtos

  // ---- CreateResourceDto ----------------------------------------------------------------

  /** j is a JSON value Encode may write for x. */
  ghost predicate EncodesResource(x: CreateResourceDto, j: Json) {
    && HasType(TStruct(CREATE_RESOURCE), VStruct(ResourceFields(x)))
    && IsEncoding(TStruct(CREATE_RESOURCE), VStruct(ResourceFields(x)), j)
  }

  /** Decoding j into a fresh struct gives x. */
  ghost predicate DecodesResource(j: Json, x: CreateResourceDto) {
    DecodeVal(TStruct(CREATE_RESOURCE), j) == Ok(VStruct(ResourceFields(x)))
  }

  /** What stands under each key, given the Go fields. */
  ghost predicate ResourceWritten(x: CreateResourceDto, ms: seq<Member>) {
    && Vals(ms, "title") == [JStr(x.title)]
    && Vals(ms, "url") == [JStr(x.url)]
    && Vals(ms, "type") == [JStr(x.kind)]
    && Vals(ms, "isLocked") == OptBoolJson(x.isLocked)
  }

  /** What each Go field holds, given the keys and the receiver before. */
  ghost predicate ResourceIsRead(was: CreateResourceDto, ms: seq<Member>, now: CreateResourceDto) {
    && LastIs(Vals(ms, "title"), JStr(now.title))
    && LastIs(Vals(ms, "url"), JStr(now.url))
    && LastIs(Vals(ms, "type"), JStr(now.kind))
    && OptBoolFrom(Vals(ms, "isLocked"), Optional(true, true), now.isLocked)
  }

  ghost predicate ResourceHolds(s: Schema, vs: seq<Value>, x: CreateResourceDto) {
    && Holds(s, vs, 0, Req("title", TStr), VStr(x.title))
    && Holds(s, vs, 1, Req("url", TStr), VStr(x.url))
    && Holds(s, vs, 2, Req("type", TStr), VStr(x.kind))
    && Holds(s, vs, 3, OptOr("isLocked", TBool, VBool(true)), OptB(x.isLocked))
  }

  lemma ResourceIsHeld(x: CreateResourceDto)
    ensures ResourceHolds(CREATE_RESOURCE, ResourceFields(x), x)
  {
  }

  lemma ResourceWrites(s: Schema, vs: seq<Value>, ms: seq<Member>, x: CreateResourceDto)
    requires OnWire(s, vs, ms) && ResourceHolds(s, vs, x)
    ensures Vals(ms, "title") == [JStr(x.title)]
    ensures Vals(ms, "url") == [JStr(x.url)]
    ensures Vals(ms, "type") == [JStr(x.kind)]
    ensures Vals(ms, "isLocked") == OptBoolJson(x.isLocked)
  {
    StrWritten(s, vs, ms, 0, Req("title", TStr), x.title);
    StrWritten(s, vs, ms, 1, Req("url", TStr), x.url);
    StrWritten(s, vs, ms, 2, Req("type", TStr), x.kind);
    OptBoolWritten(s, vs, ms, 3, OptOr("isLocked", TBool, VBool(true)), x.isLocked);
  }

  lemma ResourceReads(s: Schema, before: seq<Value>, ms: seq<Member>, after: seq<Value>,
                      was: CreateResourceDto, now: CreateResourceDto)
    requires FromWire(s, before, ms, after)
    requires ResourceHolds(s, before, was) && ResourceHolds(s, after, now)
    ensures LastIs(Vals(ms, "title"), JStr(now.title))
    ensures LastIs(Vals(ms, "url"), JStr(now.url))
    ensures LastIs(Vals(ms, "type"), JStr(now.kind))
    ensures OptBoolFrom(Vals(ms, "isLocked"), Optional(true, true), now.isLocked)
  {
    StrRead(s, before, ms, after, 0, Req("title", TStr), now.title);
    StrRead(s, before, ms, after, 1, Req("url", TStr), now.url);
    StrRead(s, before, ms, after, 2, Req("type", TStr), now.kind);
    OptBoolReadOr(s, before, ms, after, 3, OptOr("isLocked", TBool, VBool(true)), true, now.isLocked);
  }

  lemma ResourceEncoded(x: CreateResourceDto, j: Json)
    requires EncodesResource(x, j)
    ensures j.JObj? && OnWire(CREATE_RESOURCE, ResourceFields(x), j.members)
  {
    CreateResourceNames();
  }

  /** On the wire, each key carries its own Go field. */
  lemma ResourceOnWire(x: CreateResourceDto, j: Json)
    requires EncodesResource(x, j)
    ensures j.JObj? && ResourceWritten(x, j.members)
  {
    ResourceEncoded(x, j);
    ResourceIsHeld(x);
    ResourceWrites(CREATE_RESOURCE, ResourceFields(x), j.members, x);
  }

  /** From the wire, each Go field is set by its own key. */
  lemma ResourceFromWire(was: CreateResourceDto, ms: seq<Member>, now: CreateResourceDto)
    requires DecodeObject(CREATE_RESOURCE, ResourceFields(was), ms) == Ok(ResourceFields(now))
    ensures ResourceIsRead(was, ms, now)
  {
    CreateResourceNames();
    ResourceIsHeld(was);
    ResourceIsHeld(now);
    ResourceReads(CREATE_RESOURCE, ResourceFields(was), ms, ResourceFields(now), was, now);
  }

  /** Whatever is decoded into such a struct is again such a struct. */
  lemma ResourceDecoded(was: CreateResourceDto, ms: seq<Member>) returns (now: CreateResourceDto)
    requires DecodeObject(CREATE_RESOURCE, ResourceFields(was), ms).Ok?
    ensures DecodeObject(CREATE_RESOURCE, ResourceFields(was), ms) == Ok(ResourceFields(now))
  {
    CreateResourceWf();
    ResourceHasType(was);
    DecodedFieldsHaveType(CREATE_RESOURCE, ResourceFields(was), ms);
    ResourceRightInverse();
    now := ResourceOf(DecodeObject(CREATE_RESOURCE, ResourceFields(was), ms).value);
  }

  // ---- NestedCourseLessonDto ------------------------------------------------------------

  /** j is a JSON value Encode may write for x. */
  ghost predicate EncodesLesson(x: NestedCourseLessonDto, j: Json) {
    && HasType(TStruct(NESTED_LESSON), VStruct(LessonFields(x)))
    && IsEncoding(TStruct(NESTED_LESSON), VStruct(LessonFields(x)), j)
  }

  /** Decoding j into a fresh struct gives x. */
  ghost predicate DecodesLesson(j: Json, x: NestedCourseLessonDto) {
    DecodeVal(TStruct(NESTED_LESSON), j) == Ok(VStruct(LessonFields(x)))
  }

  /** What stands under each key, given the Go fields. */
  ghost predicate LessonWritten(x: NestedCourseLessonDto, ms: seq<Member>) {
    && Vals(ms, "title") == [JStr(x.title)]
    && Vals(ms, "description") == OptStrJson(x.description)
    && Vals(ms, "videoUrl") == OptStrJson(x.videoUrl)
    && Vals(ms, "videoDuration") == OptNumJson(x.videoDuration)
    && Vals(ms, "isPreview") == OptBoolJson(x.isPreview)
    && Vals(ms, "orderIndex") == OptNumJson(x.orderIndex)
    && OptListIs(Vals(ms, "resources"), x.resources, EncodesResource)
  }

  /** What each Go field holds, given the keys and the receiver before. */
  ghost predicate LessonIsRead(was: NestedCourseLessonDto, ms: seq<Member>, now: NestedCourseLessonDto) {
    && LastIs(Vals(ms, "title"), JStr(now.title))
    && OptStrFrom(Vals(ms, "description"), was.description, now.description)
    && OptStrFrom(Vals(ms, "videoUrl"), was.videoUrl, now.videoUrl)
    && OptNumFrom(Vals(ms, "videoDuration"), was.videoDuration, now.videoDuration)
    && OptBoolFrom(Vals(ms, "isPreview"), Optional(false, true), now.isPreview)
    && OptNumFrom(Vals(ms, "orderIndex"), was.orderIndex, now.orderIndex)
    && OptListFrom(Vals(ms, "resources"), was.resources, now.resources, DecodesResource)
  }

  ghost predicate LessonHolds0(s: Schema, vs: seq<Value>, x: NestedCourseLessonDto) {
    && Holds(s, vs, 0, Req("title", TStr), VStr(x.title))
    && Holds(s, vs, 1, Opt("description", TStr), OptS(x.description))
    && Holds(s, vs, 2, Opt("videoUrl", TStr), OptS(x.videoUrl))
    && Holds(s, vs, 3, Opt("videoDuration", TNum), OptN(x.videoDuration))
  }

  lemma LessonIsHeld0(x: NestedCourseLessonDto)
    ensures LessonHolds0(NESTED_LESSON, LessonFields(x), x)
  {
  }

  lemma LessonWrites0(s: Schema, vs: seq<Value>, ms: seq<Member>, x: NestedCourseLessonDto)
    requires OnWire(s, vs, ms) && LessonHolds0(s, vs, x)
    ensures Vals(ms, "title") == [JStr(x.title)]
    ensures Vals(ms, "description") == OptStrJson(x.description)
    ensures Vals(ms, "videoUrl") == OptStrJson(x.videoUrl)
    ensures Vals(ms, "videoDuration") == OptNumJson(x.videoDuration)
  {
    StrWritten(s, vs, ms, 0, Req("title", TStr), x.title);
    OptStrWritten(s, vs, ms, 1, Opt("description", TStr), x.description);
    OptStrWritten(s, vs, ms, 2, Opt("videoUrl", TStr), x.videoUrl);
    OptNumWritten(s, vs, ms, 3, Opt("videoDuration", TNum), x.videoDuration);
  }

  lemma LessonReads0(s: Schema, before: seq<Value>, ms: seq<Member>, after: seq<Value>,
                     was: NestedCourseLessonDto, now: NestedCourseLessonDto)
    requires FromWire(s, before, ms, after)
    requires LessonHolds0(s, before, was) && LessonHolds0(s, after, now)
    ensures LastIs(Vals(ms, "title"), JStr(now.title))
    ensures OptStrFrom(Vals(ms, "description"), was.description, now.description)
    ensures OptStrFrom(Vals(ms, "videoUrl"), was.videoUrl, now.videoUrl)
    ensures OptNumFrom(Vals(ms, "videoDuration"), was.videoDuration, now.videoDuration)
  {
    StrRead(s, before, ms, after, 0, Req("title", TStr), now.title);
    OptStrRead(s, before, ms, after, 1, Opt("description", TStr), was.description, now.description);
    OptStrRead(s, before, ms, after, 2, Opt("videoUrl", TStr), was.videoUrl, now.videoUrl);
    OptNumRead(s, before, ms, after, 3, Opt("videoDuration", TNum), was.videoDuration, now.videoDuration);
  }

  ghost predicate LessonHolds4(s: Schema, vs: seq<Value>, x: NestedCourseLessonDto) {
    && Holds(s, vs, 4, OptOr("isPreview", TBool, VBool(false)), OptB(x.isPreview))
    && Holds(s, vs, 5, Opt("orderIndex", TNum), OptN(x.orderIndex))
    && Holds(s, vs, 6, OptList("resources", TStruct(CREATE_RESOURCE)), SliceOf(x.resources, ResourceFields))
  }

  lemma LessonIsHeld4(x: NestedCourseLessonDto)
    ensures LessonHolds4(NESTED_LESSON, LessonFields(x), x)
  {
  }

  lemma LessonWrites4(s: Schema, vs: seq<Value>, ms: seq<Member>, x: NestedCourseLessonDto)
    requires OnWire(s, vs, ms) && LessonHolds4(s, vs, x)
    ensures Vals(ms, "isPreview") == OptBoolJson(x.isPreview)
    ensures Vals(ms, "orderIndex") == OptNumJson(x.orderIndex)
    ensures OptListIs(Vals(ms, "resources"), x.resources, EncodesResource)
  {
    OptBoolWritten(s, vs, ms, 4, OptOr("isPreview", TBool, VBool(false)), x.isPreview);
    OptNumWritten(s, vs, ms, 5, Opt("orderIndex", TNum), x.orderIndex);
    ListWritten(s, vs, ms, 6, OptList("resources", TStruct(CREATE_RESOURCE)), CREATE_RESOURCE, ResourceFields,
                x.resources, EncodesResource);
  }

  lemma LessonReads4(s: Schema, before: seq<Value>, ms: seq<Member>, after: seq<Value>,
                     was: NestedCourseLessonDto, now: NestedCourseLessonDto)
    requires FromWire(s, before, ms, after)
    requires LessonHolds4(s, before, was) && LessonHolds4(s, after, now)
    ensures OptBoolFrom(Vals(ms, "isPreview"), Optional(false, true), now.isPreview)
    ensures OptNumFrom(Vals(ms, "orderIndex"), was.orderIndex, now.orderIndex)
    ensures OptListFrom(Vals(ms, "resources"), was.resources, now.resources, DecodesResource)
  {
    ResourceLeftInverse();
    OptBoolReadOr(s, before, ms, after, 4, OptOr("isPreview", TBool, VBool(false)), false, now.isPreview);
    OptNumRead(s, before, ms, after, 5, Opt("orderIndex", TNum), was.orderIndex, now.orderIndex);
    ListRead(s, before, ms, after, 6, OptList("resources", TStruct(CREATE_RESOURCE)), CREATE_RESOURCE,
             ResourceFields, ResourceOf, was.resources, now.resources, DecodesResource);
  }

  ghost predicate LessonHolds(s: Schema, vs: seq<Value>, x: NestedCourseLessonDto) {
    && LessonHolds0(s, vs, x)
    && LessonHolds4(s, vs, x)
  }

  lemma LessonIsHeld(x: NestedCourseLessonDto)
    ensures LessonHolds(NESTED_LESSON, LessonFields(x), x)
  {
    LessonIsHeld0(x);
    LessonIsHeld4(x);
  }

  lemma LessonWrites(s: Schema, vs: seq<Value>, ms: seq<Member>, x: NestedCourseLessonDto)
    requires OnWire(s, vs, ms) && LessonHolds(s, vs, x)
    ensures LessonWritten(x, ms)
  {
    LessonWrites0(s, vs, ms, x);
    LessonWrites4(s, vs, ms, x);
  }

  lemma LessonReads(s: Schema, before: seq<Value>, ms: seq<Member>, after: seq<Value>,
                    was: NestedCourseLessonDto, now: NestedCourseLessonDto)
    requires FromWire(s, before, ms, after) && LessonHolds(s, before, was) && LessonHolds(s, after, now)
    ensures LessonIsRead(was, ms, now)
  {
    LessonReads0(s, before, ms, after, was, now);
    LessonReads4(s, before, ms, after, was, now);
  }

  lemma LessonEncoded(x: NestedCourseLessonDto, j: Json)
    requires EncodesLesson(x, j)
    ensures j.JObj? && OnWire(NESTED_LESSON, LessonFields(x), j.members)
  {
    NestedLessonNames();
  }

  /** On the wire, each key carries its own Go field. */
  lemma LessonOnWire(x: NestedCourseLessonDto, j: Json)
    requires EncodesLesson(x, j)
    ensures j.JObj? && LessonWritten(x, j.members)
  {
    LessonEncoded(x, j);
    LessonIsHeld(x);
    LessonWrites(NESTED_LESSON, LessonFields(x), j.members, x);
  }

  /** From the wire, each Go field is set by its own key. */
  lemma LessonFromWire(was: NestedCourseLessonDto, ms: seq<Member>, now: NestedCourseLessonDto)
    requires DecodeObject(NESTED_LESSON, LessonFields(was), ms) == Ok(LessonFields(now))
    ensures LessonIsRead(was, ms, now)
  {
    NestedLessonNames();
    LessonIsHeld(was);
    LessonIsHeld(now);
    LessonReads(NESTED_LESSON, LessonFields(was), ms, LessonFields(now), was, now);
  }

  /** Whatever is decoded into such a struct is again such a struct. */
  lemma LessonDecoded(was: NestedCourseLessonDto, ms: seq<Member>) returns (now: NestedCourseLessonDto)
    requires DecodeObject(NESTED_LESSON, LessonFields(was), ms).Ok?
    ensures DecodeObject(NESTED_LESSON, LessonFields(was), ms) == Ok(LessonFields(now))
  {
    NestedLessonWf();
    LessonHasType(was);
    DecodedFieldsHaveType(NESTED_LESSON, LessonFields(was), ms);
    LessonRightInverse();
    now := LessonOf(DecodeObject(NESTED_LESSON, LessonFields(was), ms).value);
  }

  // ---- CreateChapterDto -----------------------------------------------------------------

  /** j is a JSON value Encode may write for x. */
  ghost predicate EncodesChapter(x: CreateChapterDto, j: Json) {
    && HasType(TStruct(CREATE_CHAPTER), VStruct(ChapterFields(x)))
    && IsEncoding(TStruct(CREATE_CHAPTER), VStruct(ChapterFields(x)), j)
  }

  /** Decoding j into a fresh struct gives x. */
  ghost predicate DecodesChapter(j: Json, x: CreateChapterDto) {
    DecodeVal(TStruct(CREATE_CHAPTER), j) == Ok(VStruct(ChapterFields(x)))
  }

  /** What stands under each key, given the Go fields. */
  ghost predicate ChapterWritten(x: CreateChapterDto, ms: seq<Member>) {
    && Vals(ms, "title") == [JStr(x.title)]
    && Vals(ms, "description") == OptStrJson(x.description)
    && Vals(ms, "orderIndex") == [JNum(x.orderIndex)]
    && OptListIs(Vals(ms, "lessons"), x.lessons, EncodesLesson)
  }

  /** What each Go field holds, given the keys and the receiver before. */
  ghost predicate ChapterIsRead(was: CreateChapterDto, ms: seq<Member>, now: CreateChapterDto) {
    && LastIs(Vals(ms, "title"), JStr(now.title))
    && OptStrFrom(Vals(ms, "description"), was.description, now.description)
    && LastIs(Vals(ms, "orderIndex"), JNum(now.orderIndex))
    && OptListFrom(Vals(ms, "lessons"), was.lessons, now.lessons, DecodesLesson)
  }

  ghost predicate ChapterHolds(s: Schema, vs: seq<Value>, x: CreateChapterDto) {
    && Holds(s, vs, 0, Req("title", TStr), VStr(x.title))
    && Holds(s, vs, 1, Opt("description", TStr), OptS(x.description))
    && Holds(s, vs, 2, Req("orderIndex", TNum), VNum(x.orderIndex))
    && Holds(s, vs, 3, OptList("lessons", TStruct(NESTED_LESSON)), SliceOf(x.lessons, LessonFields))
  }

  lemma ChapterIsHeld(x: CreateChapterDto)
    ensures ChapterHolds(CREATE_CHAPTER, ChapterFields(x), x)
  {
  }

  lemma ChapterWrites(s: Schema, vs: seq<Value>, ms: seq<Member>, x: CreateChapterDto)
    requires OnWire(s, vs, ms) && ChapterHolds(s, vs, x)
    ensures Vals(ms, "title") == [JStr(x.title)]
    ensures Vals(ms, "description") == OptStrJson(x.description)
    ensures Vals(ms, "orderIndex") == [JNum(x.orderIndex)]
    ensures OptListIs(Vals(ms, "lessons"), x.lessons, EncodesLesson)
  {
    StrWritten(s, vs, ms, 0, Req("title", TStr), x.title);
    OptStrWritten(s, vs, ms, 1, Opt("description", TStr), x.description);
    NumWritten(s, vs, ms, 2, Req("orderIndex", TNum), x.orderIndex);
    ListWritten(s, vs, ms, 3, OptList("lessons", TStruct(NESTED_LESSON)), NESTED_LESSON, LessonFields, x.lessons,
                EncodesLesson);
  }

  lemma ChapterReads(s: Schema, before: seq<Value>, ms: seq<Member>, after: seq<Value>,
                     was: CreateChapterDto, now: CreateChapterDto)
    requires FromWire(s, before, ms, after)
    requires ChapterHolds(s, before, was) && ChapterHolds(s, after, now)
    ensures LastIs(Vals(ms, "title"), JStr(now.title))
    ensures OptStrFrom(Vals(ms, "description"), was.description, now.description)
    ensures LastIs(Vals(ms, "orderIndex"), JNum(now.orderIndex))
    ensures OptListFrom(Vals(ms, "lessons"), was.lessons, now.lessons, DecodesLesson)
  {
    LessonLeftInverse();
    StrRead(s, before, ms, after, 0, Req("title", TStr), now.title);
    OptStrRead(s, before, ms, after, 1, Opt("description", TStr), was.description, now.description);
    NumRead(s, before, ms, after, 2, Req("orderIndex", TNum), now.orderIndex);
    ListRead(s, before, ms, after, 3, OptList("lessons", TStruct(NESTED_LESSON)), NESTED_LESSON, LessonFields,
             LessonOf, was.lessons, now.lessons, DecodesLesson);
  }

  lemma ChapterEncoded(x: CreateChapterDto, j: Json)
    requires EncodesChapter(x, j)
    ensures j.JObj? && OnWire(CREATE_CHAPTER, ChapterFields(x), j.members)
  {
    CreateChapterNames();
  }

  /** On the wire, each key carries its own Go field. */
  lemma ChapterOnWire(x: CreateChapterDto, j: Json)
    requires EncodesChapter(x, j)
    ensures j.JObj? && ChapterWritten(x, j.members)
  {
    ChapterEncoded(x, j);
    ChapterIsHeld(x);
    ChapterWrites(CREATE_CHAPTER, ChapterFields(x), j.members, x);
  }

  /** From the wire, each Go field is set by its own key. */
  lemma ChapterFromWire(was: CreateChapterDto, ms: seq<Member>, now: CreateChapterDto)
    requires DecodeObject(CREATE_CHAPTER, ChapterFields(was), ms) == Ok(ChapterFields(now))
    ensures ChapterIsRead(was, ms, now)
  {
    CreateChapterNames();
    ChapterIsHeld(was);
    ChapterIsHeld(now);
    ChapterReads(CREATE_CHAPTER, ChapterFields(was), ms, ChapterFields(now), was, now);
  }

  /** Whatever is decoded into such a struct is again such a struct. */
  lemma ChapterDecoded(was: CreateChapterDto, ms: seq<Member>) returns (now: CreateChapterDto)
    requires DecodeObject(CREATE_CHAPTER, ChapterFields(was), ms).Ok?
    ensures DecodeObject(CREATE_CHAPTER, ChapterFields(was), ms) == Ok(ChapterFields(now))
  {
    CreateChapterWf();
    ChapterHasType(was);
    DecodedFieldsHaveType(CREATE_CHAPTER, ChapterFields(was), ms);
    ChapterRightInverse();
    now := ChapterOf(DecodeObject(CREATE_CHAPTER, ChapterFields(was), ms).value);
  }

  // ---- CreateCourseDto ------------------------------------------------------------------

  /** j is a JSON value Encode may write for x. */
  ghost predicate EncodesCourse(x: CreateCourseDto, j: Json) {
    && HasType(TStruct(CREATE_COURSE), VStruct(CourseFields(x)))
    && IsEncoding(TStruct(CREATE_COURSE), VStruct(CourseFields(x)), j)
  }

  /** Decoding j into a fresh struct gives x. */
  ghost predicate DecodesCourse(j: Json, x: CreateCourseDto) {
    DecodeVal(TStruct(CREATE_COURSE), j) == Ok(VStruct(CourseFields(x)))
  }

  /** What stands under each key, given the Go fields. */
  ghost predicate CourseWritten(x: CreateCourseDto, ms: seq<Member>) {
    && Vals(ms, "title") == [JStr(x.title)]
    && Vals(ms, "description") == [JStr(x.description)]
    && Vals(ms, "learningPoints") == [JStr(x.learningPoints)]
    && Vals(ms, "instructor") == [JStr(x.instructor)]
    && Vals(ms, "instructorId") == OptStrJson(x.instructorId)
    && Vals(ms, "level") == [JStr(x.level)]
    && Vals(ms, "duration") == [JStr(x.duration)]
    && Vals(ms, "thumbnail") == [JStr(x.thumbnail)]
    && Vals(ms, "tags") == [JStr(x.tags)]
    && Vals(ms, "costType") == [JStr(x.costType)]
    && Vals(ms, "price") == [JNum(x.price)]
    && Vals(ms, "status") == OptStrJson(x.status)
    && Vals(ms, "courseType") == OptStrJson(x.courseType)
    && Vals(ms, "externalUrl") == OptStrJson(x.externalUrl)
    && Vals(ms, "sourceVideoUrl") == OptStrJson(x.sourceVideoUrl)
    && Vals(ms, "sourcePlatform") == OptStrJson(x.sourcePlatform)
    && Vals(ms, "industryId") == OptStrJson(x.industryId)
    && Vals(ms, "categoryId") == OptStrJson(x.categoryId)
    && OptListIs(Vals(ms, "chapters"), x.chapters, EncodesChapter)
  }

  /** What each Go field holds, given the keys and the receiver before. */
  ghost predicate CourseIsRead(was: CreateCourseDto, ms: seq<Member>, now: CreateCourseDto) {
    && LastIs(Vals(ms, "title"), JStr(now.title))
    && LastIs(Vals(ms, "description"), JStr(now.description))
    && LastIs(Vals(ms, "learningPoints"), JStr(now.learningPoints))
    && LastIs(Vals(ms, "instructor"), JStr(now.instructor))
    && OptStrFrom(Vals(ms, "instructorId"), was.instructorId, now.instructorId)
    && LastIs(Vals(ms, "level"), JStr(now.level))
    && LastIs(Vals(ms, "duration"), JStr(now.duration))
    && LastIs(Vals(ms, "thumbnail"), JStr(now.thumbnail))
    && LastIs(Vals(ms, "tags"), JStr(now.tags))
    && LastIs(Vals(ms, "costType"), JStr(now.costType))
    && LastIs(Vals(ms, "price"), JNum(now.price))
    && OptStrFrom(Vals(ms, "status"), was.status, now.status)
    && OptStrFrom(Vals(ms, "courseType"), was.courseType, now.courseType)
    && OptStrFrom(Vals(ms, "externalUrl"), was.externalUrl, now.externalUrl)
    && OptStrFrom(Vals(ms, "sourceVideoUrl"), was.sourceVideoUrl, now.sourceVideoUrl)
    && OptStrFrom(Vals(ms, "sourcePlatform"), was.sourcePlatform, now.sourcePlatform)
    && OptStrFrom(Vals(ms, "industryId"), was.industryId, now.industryId)
    && OptStrFrom(Vals(ms, "categoryId"), was.categoryId, now.categoryId)
    && OptListFrom(Vals(ms, "chapters"), was.chapters, now.chapters, DecodesChapter)
  }

  ghost predicate CourseHolds0(s: Schema, vs: seq<Value>, x: CreateCourseDto) {
    && Holds(s, vs, 0, Req("title", TStr), VStr(x.title))
    && Holds(s, vs, 1, Req("description", TStr), VStr(x.description))
    && Holds(s, vs, 2, Req("learningPoints", TStr), VStr(x.learningPoints))
    && Holds(s, vs, 3, Req("instructor", TStr), VStr(x.instructor))
  }

  lemma CourseIsHeld0(x: CreateCourseDto)
    ensures CourseHolds0(CREATE_COURSE, CourseFields(x), x)
  {
  }

  lemma CourseWrites0(s: Schema, vs: seq<Value>, ms: seq<Member>, x: CreateCourseDto)
    requires OnWire(s, vs, ms) && CourseHolds0(s, vs, x)
    ensures Vals(ms, "title") == [JStr(x.title)]
    ensures Vals(ms, "description") == [JStr(x.description)]
    ensures Vals(ms, "learningPoints") == [JStr(x.learningPoints)]
    ensures Vals(ms, "instructor") == [JStr(x.instructor)]
  {
    StrWritten(s, vs, ms, 0, Req("title", TStr), x.title);
    StrWritten(s, vs, ms, 1, Req("description", TStr), x.description);
    StrWritten(s, vs, ms, 2, Req("learningPoints", TStr), x.learningPoints);
    StrWritten(s, vs, ms, 3, Req("instructor", TStr), x.instructor);
  }

  lemma CourseReads0(s: Schema, before: seq<Value>, ms: seq<Member>, after: seq<Value>,
                     was: CreateCourseDto, now: CreateCourseDto)
    requires FromWire(s, before, ms, after)
    requires CourseHolds0(s, before, was) && CourseHolds0(s, after, now)
    ensures LastIs(Vals(ms, "title"), JStr(now.title))
    ensures LastIs(Vals(ms, "description"), JStr(now.description))
    ensures LastIs(Vals(ms, "learningPoints"), JStr(now.learningPoints))
    ensures LastIs(Vals(ms, "instructor"), JStr(now.instructor))
  {
    StrRead(s, before, ms, after, 0, Req("title", TStr), now.title);
    StrRead(s, before, ms, after, 1, Req("description", TStr), now.description);
    StrRead(s, before, ms, after, 2, Req("learningPoints", TStr), now.learningPoints);
    StrRead(s, before, ms, after, 3, Req("instructor", TStr), now.instructor);
  }

  ghost predicate CourseHolds4(s: Schema, vs: seq<Value>, x: CreateCourseDto) {
    && Holds(s, vs, 4, Opt("instructorId", TStr), OptS(x.instructorId))
    && Holds(s, vs, 5, Req("level", TStr), VStr(x.level))
    && Holds(s, vs, 6, Req("duration", TStr), VStr(x.duration))
    && Holds(s, vs, 7, Req("thumbnail", TStr), VStr(x.thumbnail))
  }

  lemma CourseIsHeld4(x: CreateCourseDto)
    ensures CourseHolds4(CREATE_COURSE, CourseFields(x), x)
  {
  }

  lemma CourseWrites4(s: Schema, vs: seq<Value>, ms: seq<Member>, x: CreateCourseDto)
    requires OnWire(s, vs, ms) && CourseHolds4(s, vs, x)
    ensures Vals(ms, "instructorId") == OptStrJson(x.instructorId)
    ensures Vals(ms, "level") == [JStr(x.level)]
    ensures Vals(ms, "duration") == [JStr(x.duration)]
    ensures Vals(ms, "thumbnail") == [JStr(x.thumbnail)]
  {
    OptStrWritten(s, vs, ms, 4, Opt("instructorId", TStr), x.instructorId);
    StrWritten(s, vs, ms, 5, Req("level", TStr), x.level);
    StrWritten(s, vs, ms, 6, Req("duration", TStr), x.duration);
    StrWritten(s, vs, ms, 7, Req("thumbnail", TStr), x.thumbnail);
  }

  lemma CourseReads4(s: Schema, before: seq<Value>, ms: seq<Member>, after: seq<Value>,
                     was: CreateCourseDto, now: CreateCourseDto)
    requires FromWire(s, before, ms, after)
    requires CourseHolds4(s, before, was) && CourseHolds4(s, after, now)
    ensures OptStrFrom(Vals(ms, "instructorId"), was.instructorId, now.instructorId)
    ensures LastIs(Vals(ms, "level"), JStr(now.level))
    ensures LastIs(Vals(ms, "duration"), JStr(now.duration))
    ensures LastIs(Vals(ms, "thumbnail"), JStr(now.thumbnail))
  {
    OptStrRead(s, before, ms, after, 4, Opt("instructorId", TStr), was.instructorId, now.instructorId);
    StrRead(s, before, ms, after, 5, Req("level", TStr), now.level);
    StrRead(s, before, ms, after, 6, Req("duration", TStr), now.duration);
    StrRead(s, before, ms, after, 7, Req("thumbnail", TStr), now.thumbnail);
  }

  ghost predicate CourseHolds8(s: Schema, vs: seq<Value>, x: CreateCourseDto) {
    && Holds(s, vs, 8, Req("tags", TStr), VStr(x.tags))
    && Holds(s, vs, 9, Req("costType", TStr), VStr(x.costType))
    && Holds(s, vs, 10, Req("price", TNum), VNum(x.price))
    && Holds(s, vs, 11, Opt("status", TStr), OptS(x.status))
  }

  lemma CourseIsHeld8(x: CreateCourseDto)
    ensures CourseHolds8(CREATE_COURSE, CourseFields(x), x)
  {
  }

  lemma CourseWrites8(s: Schema, vs: seq<Value>, ms: seq<Member>, x: CreateCourseDto)
    requires OnWire(s, vs, ms) && CourseHolds8(s, vs, x)
    ensures Vals(ms, "tags") == [JStr(x.tags)]
    ensures Vals(ms, "costType") == [JStr(x.costType)]
    ensures Vals(ms, "price") == [JNum(x.price)]
    ensures Vals(ms, "status") == OptStrJson(x.status)
  {
    StrWritten(s, vs, ms, 8, Req("tags", TStr), x.tags);
    StrWritten(s, vs, ms, 9, Req("costType", TStr), x.costType);
    NumWritten(s, vs, ms, 10, Req("price", TNum), x.price);
    OptStrWritten(s, vs, ms, 11, Opt("status", TStr), x.status);
  }

  lemma CourseReads8(s: Schema, before: seq<Value>, ms: seq<Member>, after: seq<Value>,
                     was: CreateCourseDto, now: CreateCourseDto)
    requires FromWire(s, before, ms, after)
    requires CourseHolds8(s, before, was) && CourseHolds8(s, after, now)
    ensures LastIs(Vals(ms, "tags"), JStr(now.tags))
    ensures LastIs(Vals(ms, "costType"), JStr(now.costType))
    ensures LastIs(Vals(ms, "price"), JNum(now.price))
    ensures OptStrFrom(Vals(ms, "status"), was.status, now.status)
  {
    StrRead(s, before, ms, after, 8, Req("tags", TStr), now.tags);
    StrRead(s, before, ms, after, 9, Req("costType", TStr), now.costType);
    NumRead(s, before, ms, after, 10, Req("price", TNum), now.price);
    OptStrRead(s, before, ms, after, 11, Opt("status", TStr), was.status, now.status);
  }

  ghost predicate CourseHolds12(s: Schema, vs: seq<Value>, x: CreateCourseDto) {
    && Holds(s, vs, 12, Opt("courseType", TStr), OptS(x.courseType))
    && Holds(s, vs, 13, Opt("externalUrl", TStr), OptS(x.externalUrl))
    && Holds(s, vs, 14, Opt("sourceVideoUrl", TStr), OptS(x.sourceVideoUrl))
    && Holds(s, vs, 15, Opt("sourcePlatform", TStr), OptS(x.sourcePlatform))
  }

  lemma CourseIsHeld12(x: CreateCourseDto)
    ensures CourseHolds12(CREATE_COURSE, CourseFields(x), x)
  {
  }

  lemma CourseWrites12(s: Schema, vs: seq<Value>, ms: seq<Member>, x: CreateCourseDto)
    requires OnWire(s, vs, ms) && CourseHolds12(s, vs, x)
    ensures Vals(ms, "courseType") == OptStrJson(x.courseType)
    ensures Vals(ms, "externalUrl") == OptStrJson(x.externalUrl)
    ensures Vals(ms, "sourceVideoUrl") == OptStrJson(x.sourceVideoUrl)
    ensures Vals(ms, "sourcePlatform") == OptStrJson(x.sourcePlatform)
  {
    OptStrWritten(s, vs, ms, 12, Opt("courseType", TStr), x.courseType);
    OptStrWritten(s, vs, ms, 13, Opt("externalUrl", TStr), x.externalUrl);
    OptStrWritten(s, vs, ms, 14, Opt("sourceVideoUrl", TStr), x.sourceVideoUrl);
    OptStrWritten(s, vs, ms, 15, Opt("sourcePlatform", TStr), x.sourcePlatform);
  }

  lemma CourseReads12(s: Schema, before: seq<Value>, ms: seq<Member>, after: seq<Value>,
                      was: CreateCourseDto, now: CreateCourseDto)
    requires FromWire(s, before, ms, after)
    requires CourseHolds12(s, before, was) && CourseHolds12(s, after, now)
    ensures OptStrFrom(Vals(ms, "courseType"), was.courseType, now.courseType)
    ensures OptStrFrom(Vals(ms, "externalUrl"), was.externalUrl, now.externalUrl)
    ensures OptStrFrom(Vals(ms, "sourceVideoUrl"), was.sourceVideoUrl, now.sourceVideoUrl)
    ensures OptStrFrom(Vals(ms, "sourcePlatform"), was.sourcePlatform, now.sourcePlatform)
  {
    OptStrRead(s, before, ms, after, 12, Opt("courseType", TStr), was.courseType, now.courseType);
    OptStrRead(s, before, ms, after, 13, Opt("externalUrl", TStr), was.externalUrl, now.externalUrl);
    OptStrRead(s, before, ms, after, 14, Opt("sourceVideoUrl", TStr), was.sourceVideoUrl, now.sourceVideoUrl);
    OptStrRead(s, before, ms, after, 15, Opt("sourcePlatform", TStr), was.sourcePlatform, now.sourcePlatform);
  }

  ghost predicate CourseHolds16(s: Schema, vs: seq<Value>, x: CreateCourseDto) {
    && Holds(s, vs, 16, Opt("industryId", TStr), OptS(x.industryId))
    && Holds(s, vs, 17, Opt("categoryId", TStr), OptS(x.categoryId))
    && Holds(s, vs, 18, OptList("chapters", TStruct(CREATE_CHAPTER)), SliceOf(x.chapters, ChapterFields))
  }

  lemma CourseIsHeld16(x: CreateCourseDto)
    ensures CourseHolds16(CREATE_COURSE, CourseFields(x), x)
  {
  }

  lemma CourseWrites16(s: Schema, vs: seq<Value>, ms: seq<Member>, x: CreateCourseDto)
    requires OnWire(s, vs, ms) && CourseHolds16(s, vs, x)
    ensures Vals(ms, "industryId") == OptStrJson(x.industryId)
    ensures Vals(ms, "categoryId") == OptStrJson(x.categoryId)
    ensures OptListIs(Vals(ms, "chapters"), x.chapters, EncodesChapter)
  {
    OptStrWritten(s, vs, ms, 16, Opt("industryId", TStr), x.industryId);
    OptStrWritten(s, vs, ms, 17, Opt("categoryId", TStr), x.categoryId);
    ListWritten(s, vs, ms, 18, OptList("chapters", TStruct(CREATE_CHAPTER)), CREATE_CHAPTER, ChapterFields,
                x.chapters, EncodesChapter);
  }

  lemma CourseReads16(s: Schema, before: seq<Value>, ms: seq<Member>, after: seq<Value>,
                      was: CreateCourseDto, now: CreateCourseDto)
    requires FromWire(s, before, ms, after)
    requires CourseHolds16(s, before, was) && CourseHolds16(s, after, now)
    ensures OptStrFrom(Vals(ms, "industryId"), was.industryId, now.industryId)
    ensures OptStrFrom(Vals(ms, "categoryId"), was.categoryId, now.categoryId)
    ensures OptListFrom(Vals(ms, "chapters"), was.chapters, now.chapters, DecodesChapter)
  {
    ChapterLeftInverse();
    OptStrRead(s, before, ms, after, 16, Opt("industryId", TStr), was.industryId, now.industryId);
    OptStrRead(s, before, ms, after, 17, Opt("categoryId", TStr), was.categoryId, now.categoryId);
    ListRead(s, before, ms, after, 18, OptList("chapters", TStruct(CREATE_CHAPTER)), CREATE_CHAPTER, ChapterFields,
             ChapterOf, was.chapters, now.chapters, DecodesChapter);
  }

  ghost predicate CourseHolds(s: Schema, vs: seq<Value>, x: CreateCourseDto) {
    && CourseHolds0(s, vs, x)
    && CourseHolds4(s, vs, x)
    && CourseHolds8(s, vs, x)
    && CourseHolds12(s, vs, x)
    && CourseHolds16(s, vs, x)
  }

  lemma CourseIsHeld(x: CreateCourseDto)
    ensures CourseHolds(CREATE_COURSE, CourseFields(x), x)
  {
    CourseIsHeld0(x);
    CourseIsHeld4(x);
    CourseIsHeld8(x);
    CourseIsHeld12(x);
    CourseIsHeld16(x);
  }

  lemma CourseWrites(s: Schema, vs: seq<Value>, ms: seq<Member>, x: CreateCourseDto)
    requires OnWire(s, vs, ms) && CourseHolds(s, vs, x)
    ensures CourseWritten(x, ms)
  {
    CourseWrites0(s, vs, ms, x);
    CourseWrites4(s, vs, ms, x);
    CourseWrites8(s, vs, ms, x);
    CourseWrites12(s, vs, ms, x);
    CourseWrites16(s, vs, ms, x);
  }

  lemma CourseReads(s: Schema, before: seq<Value>, ms: seq<Member>, after: seq<Value>,
                    was: CreateCourseDto, now: CreateCourseDto)
    requires FromWire(s, before, ms, after) && CourseHolds(s, before, was) && CourseHolds(s, after, now)
    ensures CourseIsRead(was, ms, now)
  {
    CourseReads0(s, before, ms, after, was, now);
    CourseReads4(s, before, ms, after, was, now);
    CourseReads8(s, before, ms, after, was, now);
    CourseReads12(s, before, ms, after, was, now);
    CourseReads16(s, before, ms, after, was, now);
  }

  lemma CourseEncoded(x: CreateCourseDto, j: Json)
    requires EncodesCourse(x, j)
    ensures j.JObj? && OnWire(CREATE_COURSE, CourseFields(x), j.members)
  {
    CreateCourseNames();
  }

  /** On the wire, each key carries its own Go field. */
  lemma CourseOnWire(x: CreateCourseDto, j: Json)
    requires EncodesCourse(x, j)
    ensures j.JObj? && CourseWritten(x, j.members)
  {
    CourseEncoded(x, j);
    CourseIsHeld(x);
    CourseWrites(CREATE_COURSE, CourseFields(x), j.members, x);
  }

  /** From the wire, each Go field is set by its own key. */
  lemma CourseFromWire(was: CreateCourseDto, ms: seq<Member>, now: CreateCourseDto)
    requires DecodeObject(CREATE_COURSE, CourseFields(was), ms) == Ok(CourseFields(now))
    ensures CourseIsRead(was, ms, now)
  {
    CreateCourseNames();
    CourseIsHeld(was);
    CourseIsHeld(now);
    CourseReads(CREATE_COURSE, CourseFields(was), ms, CourseFields(now), was, now);
  }

  /** A fresh struct starts from the zero values. */
  lemma CourseFreshFromWire(j: Json, x: CreateCourseDto)
    requires DecodesCourse(j, x)
    ensures j.JObj? && CourseIsRead(ZeroCourse(), j.members, x)
  {
    ZeroCourseFields();
    CourseFromWire(ZeroCourse(), j.members, x);
  }

  /** Whatever is decoded into such a struct is again such a struct. */
  lemma CourseDecoded(was: CreateCourseDto, ms: seq<Member>) returns (now: CreateCourseDto)
    requires DecodeObject(CREATE_COURSE, CourseFields(was), ms).Ok?
    ensures DecodeObject(CREATE_COURSE, CourseFields(was), ms) == Ok(CourseFields(now))
  {
    CreateCourseWf();
    CourseHasType(was);
    DecodedFieldsHaveType(CREATE_COURSE, CourseFields(was), ms);
    CourseRightInverse();
    now := CourseOf(DecodeObject(CREATE_COURSE, CourseFields(was), ms).value);
  }
}
