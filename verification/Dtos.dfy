/** The DTO types of the API, as the field tables, masks and defaults their codecs are generated from. */
module Dtos {
  import opened Common
  import opened Schema

  function Req(name: string, ty: Ty): Field { Field(name, ty, true, None) }

  function Opt(name: string, base: Ty): Field { Field(name, TOpt(base), false, None) }

  function OptOr(name: string, base: Ty, preset: Value): Field {
    Field(name, TOpt(base), false, Some(VOpt(true, preset)))
  }

  function OptList(name: string, elem: Ty): Field { Field(name, TSlice(elem), false, None) }

  function ResourceField(i: nat): Field
    requires i < 4
  {
    match i
    case 0 => Req("title", TStr)
    case 1 => Req("url", TStr)
    case 2 => Req("type", TStr)
    case _ => OptOr("isLocked", TBool, VBool(true))
  }

  function ResourceTable(): seq<Field> {
    seq(4, i requires 0 <= i < 4 => ResourceField(i))
  }

  const CREATE_RESOURCE := Schema("CreateResourceDto", ResourceTable(), [0x07])

  function LessonField(i: nat): Field
    requires i < 7
  {
    match i
    case 0 => Req("title", TStr)
    case 1 => Opt("description", TStr)
    case 2 => Opt("videoUrl", TStr)
    case 3 => Opt("videoDuration", TNum)
    case 4 => OptOr("isPreview", TBool, VBool(false))
    case 5 => Opt("orderIndex", TNum)
    case _ => OptList("resources", TStruct(CREATE_RESOURCE))
  }

  function LessonTable(): seq<Field> {
    seq(7, i requires 0 <= i < 7 => LessonField(i))
  }

  const NESTED_LESSON := Schema("NestedCourseLessonDto", LessonTable(), [0x01])

  function ChapterField(i: nat): Field
    requires i < 4
  {
    match i
    case 0 => Req("title", TStr)
    case 1 => Opt("description", TStr)
    case 2 => Req("orderIndex", TNum)
    case _ => OptList("lessons", TStruct(NESTED_LESSON))
  }

  function ChapterTable(): seq<Field> {
    seq(4, i requires 0 <= i < 4 => ChapterField(i))
  }

  const CREATE_CHAPTER := Schema("CreateChapterDto", ChapterTable(), [0x05])

  function CourseField(i: nat): Field
    requires i < 19
  {
    match i
    case 0 => Req("title", TStr)
    case 1 => Req("description", TStr)
    case 2 => Req("learningPoints", TStr)
    case 3 => Req("instructor", TStr)
    case 4 => Opt("instructorId", TStr)
    case 5 => Req("level", TStr)
    case 6 => Req("duration", TStr)
    case 7 => Req("thumbnail", TStr)
    case 8 => Req("tags", TStr)
    case 9 => Req("costType", TStr)
    case 10 => Req("price", TNum)
    case 11 => Opt("status", TStr)
    case 12 => Opt("courseType", TStr)
    case 13 => Opt("externalUrl", TStr)
    case 14 => Opt("sourceVideoUrl", TStr)
    case 15 => Opt("sourcePlatform", TStr)
    case 16 => Opt("industryId", TStr)
    case 17 => Opt("categoryId", TStr)
    case _ => OptList("chapters", TStruct(CREATE_CHAPTER))
  }

  function CourseTable(): seq<Field> {
    seq(19, i requires 0 <= i < 19 => CourseField(i))
  }

  const CREATE_COURSE := Schema("CreateCourseDto", CourseTable(), [0xEF, 0x07, 0x00])

  /** The profile fields; only the name differs, required on creation and optional on update. */
  function InstructorField(i: nat, name: Field): Field
    requires i < 21
  {
    if i == 1 then name
    else
      match i
      case 0 => Opt("slug", TStr)
      case 2 => Opt("nameEn", TStr)
      case 3 => Opt("title", TStr)
      case 4 => Opt("titleEn", TStr)
      case 5 => Opt("headline", TStr)
      case 6 => Opt("headlineEn", TStr)
      case 7 => Opt("bio", TStr)
      case 8 => Opt("bioEn", TStr)
      case 9 => Opt("avatarUrl", TStr)
      case 10 => Opt("company", TStr)
      case 11 => Opt("yearsOfExperience", TNum)
      case 12 => Opt("linkedinUrl", TStr)
      case 13 => Opt("githubUrl", TStr)
      case 14 => Opt("twitterUrl", TStr)
      case 15 => Opt("websiteUrl", TStr)
      case 16 => Opt("contactEmail", TStr)
      case 17 => Opt("notes", TStr)
      case 18 => OptOr("orderIndex", TNum, VNum(0.0))
      case 19 => OptOr("published", TBool, VBool(false))
      case _ => OptList("expertiseIds", TSlice(TStr))
  }

  function InstructorFields(name: Field): seq<Field> {
    seq(21, i requires 0 <= i < 21 => InstructorField(i, name))
  }

  const CREATE_INSTRUCTOR := Schema("CreateInstructorDto", InstructorFields(Req("name", TStr)), [0x02, 0x00, 0x00])

  const UPDATE_INSTRUCTOR := Schema("UpdateInstructorDto", InstructorFields(Opt("name", TStr)), [])

  function HackathonField(i: nat): Field
    requires i < 16
  {
    match i
    case 0 => Req("title", TStr)
    case 1 => Req("description", TStr)
    case 2 => Opt("bannerUrl", TStr)
    case 3 => Opt("status", TStr)
    case 4 => Req("startDate", TStr)
    case 5 => Req("endDate", TStr)
    case 6 => Opt("submissionDeadline", TStr)
    case 7 => Opt("registerDeadline", TStr)
    case 8 => OptOr("minTeamSize", TNum, VNum(1.0))
    case 9 => OptOr("maxTeamSize", TNum, VNum(5.0))
    case 10 => Opt("location", TStr)
    case 11 => Opt("rules", TStr)
    case 12 => Opt("submissionRequirements", TStr)
    case 13 => Opt("prizes", TStr)
    case 14 => Opt("registrationUrl", TStr)
    case _ => Opt("registrationLabel", TStr)
  }

  function HackathonTable(): seq<Field> {
    seq(16, i requires 0 <= i < 16 => HackathonField(i))
  }

  const UPDATE_HACKATHON := Schema("UpdateHackathonDto", HackathonTable(), [0x33, 0x00])

  function BadgeField(i: nat): Field
    requires i < 10
  {
    match i
    case 0 => Opt("code", TStr)
    case 1 => Opt("name", TStr)
    case 2 => Opt("description", TStr)
    case 3 => Opt("icon", TStr)
    case 4 => Opt("category", TStr)
    case 5 => Opt("criteriaType", TStr)
    case 6 => Opt("criteriaValue", TNum)
    case 7 => Opt("points", TNum)
    case 8 => Opt("isActive", TBool)
    case _ => Opt("orderIndex", TNum)
  }

  function BadgeTable(): seq<Field> {
    seq(10, i requires 0 <= i < 10 => BadgeField(i))
  }

  const UPDATE_BADGE := Schema("UpdateBadgeDto", BadgeTable(), [])

  function EventField(i: nat): Field
    requires i < 5
  {
    match i
    case 0 => Opt("lessonId", TStr)
    case 1 => Req("eventType", TStr)
    case 2 => Opt("positionSec", TNum)
    case 3 => Opt("durationMs", TNum)
    case _ => Opt("metadata", TMap("CreateLearningEventDtoMetadata"))
  }

  function EventTable(): seq<Field> {
    seq(5, i requires 0 <= i < 5 => EventField(i))
  }

  const CREATE_EVENT := Schema("CreateLearningEventDto", EventTable(), [0x02])

  function BatchField(i: nat): Field
    requires i < 1
  {
    Req("events", TSlice(TStruct(CREATE_EVENT)))
  }

  function BatchTable(): seq<Field> {
    seq(1, i requires 0 <= i < 1 => BatchField(i))
  }

  const BATCH_CREATE_EVENTS := Schema("BatchCreateLearningEventDto", BatchTable(), [0x01])
}
