/** The field-name arrays of the generated code: the order of keys on the wire and of reported names. */
module DtoNames {
  import opened Schema
  import opened Dtos

  /** The names under which the types appear in decode errors. */
  lemma TypeNames()
    ensures CREATE_RESOURCE.typeName == "CreateResourceDto" && NESTED_LESSON.typeName == "NestedCourseLessonDto"
    ensures CREATE_CHAPTER.typeName == "CreateChapterDto" && CREATE_COURSE.typeName == "CreateCourseDto"
    ensures CREATE_INSTRUCTOR.typeName == "CreateInstructorDto" && UPDATE_INSTRUCTOR.typeName == "UpdateInstructorDto"
    ensures UPDATE_HACKATHON.typeName == "UpdateHackathonDto" && UPDATE_BADGE.typeName == "UpdateBadgeDto"
    ensures CREATE_EVENT.typeName == "CreateLearningEventDto"
    ensures BATCH_CREATE_EVENTS.typeName == "BatchCreateLearningEventDto"
    ensures |CREATE_EVENT.fields| == 5 && CREATE_EVENT.fields[4].ty == TOpt(TMap("CreateLearningEventDtoMetadata"))
  {
  }

  lemma ResourceKeyOrder()
    ensures FieldNames(CREATE_RESOURCE) ==
            ["title", "url", "type", "isLocked"]
  {
  }

  lemma LessonKeys0()
    ensures |FieldNames(NESTED_LESSON)| == 7
    ensures FieldNames(NESTED_LESSON)[0] == "title"
    ensures FieldNames(NESTED_LESSON)[1] == "description"
    ensures FieldNames(NESTED_LESSON)[2] == "videoUrl"
    ensures FieldNames(NESTED_LESSON)[3] == "videoDuration"
    ensures FieldNames(NESTED_LESSON)[4] == "isPreview"
    ensures FieldNames(NESTED_LESSON)[5] == "orderIndex"
  {
  }

  lemma LessonKeys6()
    ensures |FieldNames(NESTED_LESSON)| == 7
    ensures FieldNames(NESTED_LESSON)[6] == "resources"
  {
  }

  lemma LessonKeyOrder()
    ensures FieldNames(NESTED_LESSON) ==
            ["title", "description", "videoUrl", "videoDuration", "isPreview", "orderIndex", "resources"]
  {
    LessonKeys0();
    LessonKeys6();
  }

  lemma ChapterKeyOrder()
    ensures FieldNames(CREATE_CHAPTER) ==
            ["title", "description", "orderIndex", "lessons"]
  {
  }

  lemma CourseKeys0()
    ensures |FieldNames(CREATE_COURSE)| == 19
    ensures FieldNames(CREATE_COURSE)[0] == "title"
    ensures FieldNames(CREATE_COURSE)[1] == "description"
    ensures FieldNames(CREATE_COURSE)[2] == "learningPoints"
    ensures FieldNames(CREATE_COURSE)[3] == "instructor"
    ensures FieldNames(CREATE_COURSE)[4] == "instructorId"
    ensures FieldNames(CREATE_COURSE)[5] == "level"
  {
  }

  lemma CourseKeys6()
    ensures |FieldNames(CREATE_COURSE)| == 19
    ensures FieldNames(CREATE_COURSE)[6] == "duration"
    ensures FieldNames(CREATE_COURSE)[7] == "thumbnail"
    ensures FieldNames(CREATE_COURSE)[8] == "tags"
    ensures FieldNames(CREATE_COURSE)[9] == "costType"
    ensures FieldNames(CREATE_COURSE)[10] == "price"
    ensures FieldNames(CREATE_COURSE)[11] == "status"
  {
  }

  lemma CourseKeys12()
    ensures |FieldNames(CREATE_COURSE)| == 19
    ensures FieldNames(CREATE_COURSE)[12] == "courseType"
    ensures FieldNames(CREATE_COURSE)[13] == "externalUrl"
    ensures FieldNames(CREATE_COURSE)[14] == "sourceVideoUrl"
    ensures FieldNames(CREATE_COURSE)[15] == "sourcePlatform"
    ensures FieldNames(CREATE_COURSE)[16] == "industryId"
    ensures FieldNames(CREATE_COURSE)[17] == "categoryId"
  {
  }

  lemma CourseKeys18()
    ensures |FieldNames(CREATE_COURSE)| == 19
    ensures FieldNames(CREATE_COURSE)[18] == "chapters"
  {
  }

  lemma CourseKeyOrder()
    ensures FieldNames(CREATE_COURSE) ==
            ["title", "description", "learningPoints", "instructor", "instructorId", "level", "duration",
             "thumbnail", "tags", "costType", "price", "status", "courseType", "externalUrl", "sourceVideoUrl",
             "sourcePlatform", "industryId", "categoryId", "chapters"]
  {
    CourseKeys0();
    CourseKeys6();
    CourseKeys12();
    CourseKeys18();
  }

  lemma HackathonKeys0()
    ensures |FieldNames(UPDATE_HACKATHON)| == 16
    ensures FieldNames(UPDATE_HACKATHON)[0] == "title"
    ensures FieldNames(UPDATE_HACKATHON)[1] == "description"
    ensures FieldNames(UPDATE_HACKATHON)[2] == "bannerUrl"
    ensures FieldNames(UPDATE_HACKATHON)[3] == "status"
    ensures FieldNames(UPDATE_HACKATHON)[4] == "startDate"
    ensures FieldNames(UPDATE_HACKATHON)[5] == "endDate"
  {
  }

  lemma HackathonKeys6()
    ensures |FieldNames(UPDATE_HACKATHON)| == 16
    ensures FieldNames(UPDATE_HACKATHON)[6] == "submissionDeadline"
    ensures FieldNames(UPDATE_HACKATHON)[7] == "registerDeadline"
    ensures FieldNames(UPDATE_HACKATHON)[8] == "minTeamSize"
    ensures FieldNames(UPDATE_HACKATHON)[9] == "maxTeamSize"
    ensures FieldNames(UPDATE_HACKATHON)[10] == "location"
    ensures FieldNames(UPDATE_HACKATHON)[11] == "rules"
  {
  }

  lemma HackathonKeys12()
    ensures |FieldNames(UPDATE_HACKATHON)| == 16
    ensures FieldNames(UPDATE_HACKATHON)[12] == "submissionRequirements"
    ensures FieldNames(UPDATE_HACKATHON)[13] == "prizes"
    ensures FieldNames(UPDATE_HACKATHON)[14] == "registrationUrl"
    ensures FieldNames(UPDATE_HACKATHON)[15] == "registrationLabel"
  {
  }

  lemma HackathonKeyOrder()
    ensures FieldNames(UPDATE_HACKATHON) ==
            ["title", "description", "bannerUrl", "status", "startDate", "endDate", "submissionDeadline",
             "registerDeadline", "minTeamSize", "maxTeamSize", "location", "rules", "submissionRequirements",
             "prizes", "registrationUrl", "registrationLabel"]
  {
    HackathonKeys0();
    HackathonKeys6();
    HackathonKeys12();
  }

  lemma BadgeKeys0()
    ensures |FieldNames(UPDATE_BADGE)| == 10
    ensures FieldNames(UPDATE_BADGE)[0] == "code"
    ensures FieldNames(UPDATE_BADGE)[1] == "name"
    ensures FieldNames(UPDATE_BADGE)[2] == "description"
    ensures FieldNames(UPDATE_BADGE)[3] == "icon"
    ensures FieldNames(UPDATE_BADGE)[4] == "category"
    ensures FieldNames(UPDATE_BADGE)[5] == "criteriaType"
  {
  }

  lemma BadgeKeys6()
    ensures |FieldNames(UPDATE_BADGE)| == 10
    ensures FieldNames(UPDATE_BADGE)[6] == "criteriaValue"
    ensures FieldNames(UPDATE_BADGE)[7] == "points"
    ensures FieldNames(UPDATE_BADGE)[8] == "isActive"
    ensures FieldNames(UPDATE_BADGE)[9] == "orderIndex"
  {
  }

  lemma BadgeKeyOrder()
    ensures FieldNames(UPDATE_BADGE) ==
            ["code", "name", "description", "icon", "category", "criteriaType", "criteriaValue", "points",
             "isActive", "orderIndex"]
  {
    BadgeKeys0();
    BadgeKeys6();
  }

  lemma EventKeyOrder()
    ensures FieldNames(CREATE_EVENT) ==
            ["lessonId", "eventType", "positionSec", "durationMs", "metadata"]
  {
  }

  lemma BatchKeyOrder()
    ensures FieldNames(BATCH_CREATE_EVENTS) ==
            ["events"]
  {
  }

  lemma CreateInstructorKeys0()
    ensures |FieldNames(CREATE_INSTRUCTOR)| == 21
    ensures FieldNames(CREATE_INSTRUCTOR)[0] == "slug"
    ensures FieldNames(CREATE_INSTRUCTOR)[1] == "name"
    ensures FieldNames(CREATE_INSTRUCTOR)[2] == "nameEn"
    ensures FieldNames(CREATE_INSTRUCTOR)[3] == "title"
    ensures FieldNames(CREATE_INSTRUCTOR)[4] == "titleEn"
    ensures FieldNames(CREATE_INSTRUCTOR)[5] == "headline"
  {
  }

  lemma CreateInstructorKeys6()
    ensures |FieldNames(CREATE_INSTRUCTOR)| == 21
    ensures FieldNames(CREATE_INSTRUCTOR)[6] == "headlineEn"
    ensures FieldNames(CREATE_INSTRUCTOR)[7] == "bio"
    ensures FieldNames(CREATE_INSTRUCTOR)[8] == "bioEn"
    ensures FieldNames(CREATE_INSTRUCTOR)[9] == "avatarUrl"
    ensures FieldNames(CREATE_INSTRUCTOR)[10] == "company"
    ensures FieldNames(CREATE_INSTRUCTOR)[11] == "yearsOfExperience"
  {
  }

  lemma CreateInstructorKeys12()
    ensures |FieldNames(CREATE_INSTRUCTOR)| == 21
    ensures FieldNames(CREATE_INSTRUCTOR)[12] == "linkedinUrl"
    ensures FieldNames(CREATE_INSTRUCTOR)[13] == "githubUrl"
    ensures FieldNames(CREATE_INSTRUCTOR)[14] == "twitterUrl"
    ensures FieldNames(CREATE_INSTRUCTOR)[15] == "websiteUrl"
    ensures FieldNames(CREATE_INSTRUCTOR)[16] == "contactEmail"
    ensures FieldNames(CREATE_INSTRUCTOR)[17] == "notes"
  {
  }

  lemma CreateInstructorKeys18()
    ensures |FieldNames(CREATE_INSTRUCTOR)| == 21
    ensures FieldNames(CREATE_INSTRUCTOR)[18] == "orderIndex"
    ensures FieldNames(CREATE_INSTRUCTOR)[19] == "published"
    ensures FieldNames(CREATE_INSTRUCTOR)[20] == "expertiseIds"
  {
  }

  lemma CreateInstructorKeyOrder()
    ensures FieldNames(CREATE_INSTRUCTOR) ==
            ["slug", "name", "nameEn", "title", "titleEn", "headline", "headlineEn", "bio", "bioEn", "avatarUrl",
             "company", "yearsOfExperience", "linkedinUrl", "githubUrl", "twitterUrl", "websiteUrl", "contactEmail",
             "notes", "orderIndex", "published", "expertiseIds"]
  {
    CreateInstructorKeys0();
    CreateInstructorKeys6();
    CreateInstructorKeys12();
    CreateInstructorKeys18();
  }

  lemma UpdateInstructorKeys0()
    ensures |FieldNames(UPDATE_INSTRUCTOR)| == 21
    ensures FieldNames(UPDATE_INSTRUCTOR)[0] == "slug"
    ensures FieldNames(UPDATE_INSTRUCTOR)[1] == "name"
    ensures FieldNames(UPDATE_INSTRUCTOR)[2] == "nameEn"
    ensures FieldNames(UPDATE_INSTRUCTOR)[3] == "title"
    ensures FieldNames(UPDATE_INSTRUCTOR)[4] == "titleEn"
    ensures FieldNames(UPDATE_INSTRUCTOR)[5] == "headline"
  {
  }

  lemma UpdateInstructorKeys6()
    ensures |FieldNames(UPDATE_INSTRUCTOR)| == 21
    ensures FieldNames(UPDATE_INSTRUCTOR)[6] == "headlineEn"
    ensures FieldNames(UPDATE_INSTRUCTOR)[7] == "bio"
    ensures FieldNames(UPDATE_INSTRUCTOR)[8] == "bioEn"
    ensures FieldNames(UPDATE_INSTRUCTOR)[9] == "avatarUrl"
    ensures FieldNames(UPDATE_INSTRUCTOR)[10] == "company"
    ensures FieldNames(UPDATE_INSTRUCTOR)[11] == "yearsOfExperience"
  {
  }

  lemma UpdateInstructorKeys12()
    ensures |FieldNames(UPDATE_INSTRUCTOR)| == 21
    ensures FieldNames(UPDATE_INSTRUCTOR)[12] == "linkedinUrl"
    ensures FieldNames(UPDATE_INSTRUCTOR)[13] == "githubUrl"
    ensures FieldNames(UPDATE_INSTRUCTOR)[14] == "twitterUrl"
    ensures FieldNames(UPDATE_INSTRUCTOR)[15] == "websiteUrl"
    ensures FieldNames(UPDATE_INSTRUCTOR)[16] == "contactEmail"
    ensures FieldNames(UPDATE_INSTRUCTOR)[17] == "notes"
  {
  }

  lemma UpdateInstructorKeys18()
    ensures |FieldNames(UPDATE_INSTRUCTOR)| == 21
    ensures FieldNames(UPDATE_INSTRUCTOR)[18] == "orderIndex"
    ensures FieldNames(UPDATE_INSTRUCTOR)[19] == "published"
    ensures FieldNames(UPDATE_INSTRUCTOR)[20] == "expertiseIds"
  {
  }

  lemma UpdateInstructorKeyOrder()
    ensures FieldNames(UPDATE_INSTRUCTOR) ==
            ["slug", "name", "nameEn", "title", "titleEn", "headline", "headlineEn", "bio", "bioEn", "avatarUrl",
             "company", "yearsOfExperience", "linkedinUrl", "githubUrl", "twitterUrl", "websiteUrl", "contactEmail",
             "notes", "orderIndex", "published", "expertiseIds"]
  {
    UpdateInstructorKeys0();
    UpdateInstructorKeys6();
    UpdateInstructorKeys12();
    UpdateInstructorKeys18();
  }
}
