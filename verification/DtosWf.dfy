/** The shipped field tables, masks and defaults are well formed. */
module DtosWf {
  import opened RequiredFields
  import opened Schema
  import opened Dtos

  /** A function that finds the position of every name shows that the names differ. */
  lemma PositionsTellApart(s: Schema, position: string -> nat)
    requires forall i :: 0 <= i < |s.fields| ==> position(s.fields[i].name) == i
    ensures DistinctNames(s)
  {
    forall i, k | 0 <= i < k < |s.fields|
      ensures s.fields[i].name != s.fields[k].name
    {
      assert position(s.fields[i].name) == i && position(s.fields[k].name) == k;
    }
  }

  function CreateResourcePosition(n: string): nat {
    if |n| == 3 then 1
    else if |n| == 4 then 2
    else if |n| == 5 then 0
    else if |n| == 8 then 3
    else 4
  }

  lemma CreateResourceNames()
    ensures DistinctNames(CREATE_RESOURCE)
  {
    PositionsTellApart(CREATE_RESOURCE, CreateResourcePosition);
  }

  lemma CreateResourceMasks()
    ensures Fields(CREATE_RESOURCE.masks) == RequiredSet(CREATE_RESOURCE)
  {
  }

  lemma CreateResourceFields()
    ensures forall i :: 0 <= i < |CREATE_RESOURCE.fields| ==> WfField(CREATE_RESOURCE.fields[i])
  {
  }

  lemma CreateResourceWf()
    ensures WfSchema(CREATE_RESOURCE)
  {
    CreateResourceNames();
    CreateResourceMasks();
    CreateResourceFields();
  }

  function NestedLessonPosition(n: string): nat {
    if |n| == 5 then 0
    else if |n| == 8 then 2
    else if |n| == 9 then (if n[8] == 'w' then 4 else 6)
    else if |n| == 10 then 5
    else if |n| == 11 then 1
    else if |n| == 13 then 3
    else 7
  }

  lemma NestedLessonNames()
    ensures DistinctNames(NESTED_LESSON)
  {
    assert NestedLessonPosition(NESTED_LESSON.fields[0].name) == 0;
    assert NestedLessonPosition(NESTED_LESSON.fields[1].name) == 1;
    assert NestedLessonPosition(NESTED_LESSON.fields[2].name) == 2;
    assert NestedLessonPosition(NESTED_LESSON.fields[3].name) == 3;
    assert NestedLessonPosition(NESTED_LESSON.fields[4].name) == 4;
    assert NestedLessonPosition(NESTED_LESSON.fields[5].name) == 5;
    assert NestedLessonPosition(NESTED_LESSON.fields[6].name) == 6;
    PositionsTellApart(NESTED_LESSON, NestedLessonPosition);
  }

  lemma NestedLessonMasks()
    ensures Fields(NESTED_LESSON.masks) == RequiredSet(NESTED_LESSON)
  {
  }

  lemma NestedLessonFields()
    ensures forall i :: 0 <= i < |NESTED_LESSON.fields| ==> WfField(NESTED_LESSON.fields[i])
  {
    CreateResourceWf();
    assert WfTy(TStruct(CREATE_RESOURCE));
  }

  lemma NestedLessonWf()
    ensures WfSchema(NESTED_LESSON)
  {
    NestedLessonNames();
    NestedLessonMasks();
    NestedLessonFields();
  }

  function CreateChapterPosition(n: string): nat {
    if |n| == 5 then 0
    else if |n| == 7 then 3
    else if |n| == 10 then 2
    else if |n| == 11 then 1
    else 4
  }

  lemma CreateChapterNames()
    ensures DistinctNames(CREATE_CHAPTER)
  {
    PositionsTellApart(CREATE_CHAPTER, CreateChapterPosition);
  }

  lemma CreateChapterMasks()
    ensures Fields(CREATE_CHAPTER.masks) == RequiredSet(CREATE_CHAPTER)
  {
  }

  lemma CreateChapterFields()
    ensures forall i :: 0 <= i < |CREATE_CHAPTER.fields| ==> WfField(CREATE_CHAPTER.fields[i])
  {
    NestedLessonWf();
    assert WfTy(TStruct(NESTED_LESSON));
  }

  lemma CreateChapterWf()
    ensures WfSchema(CREATE_CHAPTER)
  {
    CreateChapterNames();
    CreateChapterMasks();
    CreateChapterFields();
  }

  function CreateCoursePosition(n: string): nat {
    if |n| == 4 then 8
    else if |n| == 5 then (if n[3] == 'l' then 0 else if n[3] == 'e' then 5 else 10)
    else if |n| == 6 then 11
    else if |n| == 8 then (if n[7] == 'n' then 6 else if n[7] == 'e' then 9 else 18)
    else if |n| == 9 then 7
    else if |n| == 10 then (if n[5] == 'u' then 3 else if n[5] == 'e' then 12 else if n[5] == 't' then 16 else 17)
    else if |n| == 11 then (if n[10] == 'n' then 1 else 13)
    else if |n| == 12 then 4
    else if |n| == 14 then (if n[13] == 's' then 2 else if n[13] == 'l' then 14 else 15)
    else 19
  }

  lemma CreateCourseNames()
    ensures DistinctNames(CREATE_COURSE)
  {
    assert CreateCoursePosition(CREATE_COURSE.fields[0].name) == 0;
    assert CreateCoursePosition(CREATE_COURSE.fields[1].name) == 1;
    assert CreateCoursePosition(CREATE_COURSE.fields[2].name) == 2;
    assert CreateCoursePosition(CREATE_COURSE.fields[3].name) == 3;
    assert CreateCoursePosition(CREATE_COURSE.fields[4].name) == 4;
    assert CreateCoursePosition(CREATE_COURSE.fields[5].name) == 5;
    assert CreateCoursePosition(CREATE_COURSE.fields[6].name) == 6;
    assert CreateCoursePosition(CREATE_COURSE.fields[7].name) == 7;
    assert CreateCoursePosition(CREATE_COURSE.fields[8].name) == 8;
    assert CreateCoursePosition(CREATE_COURSE.fields[9].name) == 9;
    assert CreateCoursePosition(CREATE_COURSE.fields[10].name) == 10;
    assert CreateCoursePosition(CREATE_COURSE.fields[11].name) == 11;
    assert CreateCoursePosition(CREATE_COURSE.fields[12].name) == 12;
    assert CreateCoursePosition(CREATE_COURSE.fields[13].name) == 13;
    assert CreateCoursePosition(CREATE_COURSE.fields[14].name) == 14;
    assert CreateCoursePosition(CREATE_COURSE.fields[15].name) == 15;
    assert CreateCoursePosition(CREATE_COURSE.fields[16].name) == 16;
    assert CreateCoursePosition(CREATE_COURSE.fields[17].name) == 17;
    assert CreateCoursePosition(CREATE_COURSE.fields[18].name) == 18;
    PositionsTellApart(CREATE_COURSE, CreateCoursePosition);
  }

  lemma CreateCourseMasks()
    ensures Fields(CREATE_COURSE.masks) == RequiredSet(CREATE_COURSE)
  {
  }

  lemma CreateCourseFields()
    ensures forall i :: 0 <= i < |CREATE_COURSE.fields| ==> WfField(CREATE_COURSE.fields[i])
  {
    CreateChapterWf();
    assert WfTy(TStruct(CREATE_CHAPTER));
  }

  lemma CreateCourseWf()
    ensures WfSchema(CREATE_COURSE)
  {
    CreateCourseNames();
    CreateCourseMasks();
    CreateCourseFields();
  }

  function InstructorPosition(n: string): nat {
    if |n| == 3 then 7
    else if |n| == 4 then (if n[3] == 'g' then 0 else 1)
    else if |n| == 5 then (if n[4] == 'e' then 3 else if n[4] == 'n' then 8 else 17)
    else if |n| == 6 then 2
    else if |n| == 7 then (if n[6] == 'n' then 4 else 10)
    else if |n| == 8 then 5
    else if |n| == 9 then (if n[5] == 'r' then 9 else if n[5] == 'b' then 13 else 19)
    else if |n| == 10 then (if n[5] == 'i' then 6 else if n[5] == 'e' then 14 else if n[5] == 't' then 15 else 18)
    else if |n| == 11 then 12
    else if |n| == 12 then (if n[11] == 'l' then 16 else 20)
    else if |n| == 17 then 11
    else 21
  }

  /** Whatever the name field is otherwise, the 21 keys differ. */
  lemma InstructorNames(s: Schema, name: Field)
    requires s.fields == InstructorFields(name) && name.name == "name"
    ensures DistinctNames(s)
  {
    assert InstructorPosition(s.fields[0].name) == 0;
    assert InstructorPosition(s.fields[1].name) == 1;
    assert InstructorPosition(s.fields[2].name) == 2;
    assert InstructorPosition(s.fields[3].name) == 3;
    assert InstructorPosition(s.fields[4].name) == 4;
    assert InstructorPosition(s.fields[5].name) == 5;
    assert InstructorPosition(s.fields[6].name) == 6;
    assert InstructorPosition(s.fields[7].name) == 7;
    assert InstructorPosition(s.fields[8].name) == 8;
    assert InstructorPosition(s.fields[9].name) == 9;
    assert InstructorPosition(s.fields[10].name) == 10;
    assert InstructorPosition(s.fields[11].name) == 11;
    assert InstructorPosition(s.fields[12].name) == 12;
    assert InstructorPosition(s.fields[13].name) == 13;
    assert InstructorPosition(s.fields[14].name) == 14;
    assert InstructorPosition(s.fields[15].name) == 15;
    assert InstructorPosition(s.fields[16].name) == 16;
    assert InstructorPosition(s.fields[17].name) == 17;
    assert InstructorPosition(s.fields[18].name) == 18;
    assert InstructorPosition(s.fields[19].name) == 19;
    assert InstructorPosition(s.fields[20].name) == 20;
    PositionsTellApart(s, InstructorPosition);
  }

  lemma CreateInstructorNames()
    ensures DistinctNames(CREATE_INSTRUCTOR)
  {
    InstructorNames(CREATE_INSTRUCTOR, Req("name", TStr));
  }

  lemma CreateInstructorMasks()
    ensures Fields(CREATE_INSTRUCTOR.masks) == RequiredSet(CREATE_INSTRUCTOR)
  {
  }

  lemma CreateInstructorFields()
    ensures forall i :: 0 <= i < |CREATE_INSTRUCTOR.fields| ==> WfField(CREATE_INSTRUCTOR.fields[i])
  {
  }

  lemma CreateInstructorWf()
    ensures WfSchema(CREATE_INSTRUCTOR)
  {
    CreateInstructorNames();
    CreateInstructorMasks();
    CreateInstructorFields();
  }

  lemma UpdateInstructorNames()
    ensures DistinctNames(UPDATE_INSTRUCTOR)
  {
    InstructorNames(UPDATE_INSTRUCTOR, Opt("name", TStr));
  }

  lemma UpdateInstructorMasks()
    ensures Fields(UPDATE_INSTRUCTOR.masks) == RequiredSet(UPDATE_INSTRUCTOR)
  {
  }

  lemma UpdateInstructorFields()
    ensures forall i :: 0 <= i < |UPDATE_INSTRUCTOR.fields| ==> WfField(UPDATE_INSTRUCTOR.fields[i])
  {
  }

  lemma UpdateInstructorWf()
    ensures WfSchema(UPDATE_INSTRUCTOR)
  {
    UpdateInstructorNames();
    UpdateInstructorMasks();
    UpdateInstructorFields();
  }

  function UpdateHackathonPosition(n: string): nat {
    if |n| == 5 then (if n[4] == 'e' then 0 else 11)
    else if |n| == 6 then (if n[4] == 'u' then 3 else 13)
    else if |n| == 7 then 5
    else if |n| == 8 then 10
    else if |n| == 9 then (if n[8] == 'l' then 2 else 4)
    else if |n| == 11 then (if n[2] == 's' then 1 else if n[2] == 'n' then 8 else 9)
    else if |n| == 15 then 14
    else if |n| == 16 then 7
    else if |n| == 17 then 15
    else if |n| == 18 then 6
    else if |n| == 22 then 12
    else 16
  }

  lemma UpdateHackathonNames()
    ensures DistinctNames(UPDATE_HACKATHON)
  {
    assert UpdateHackathonPosition(UPDATE_HACKATHON.fields[0].name) == 0;
    assert UpdateHackathonPosition(UPDATE_HACKATHON.fields[1].name) == 1;
    assert UpdateHackathonPosition(UPDATE_HACKATHON.fields[2].name) == 2;
    assert UpdateHackathonPosition(UPDATE_HACKATHON.fields[3].name) == 3;
    assert UpdateHackathonPosition(UPDATE_HACKATHON.fields[4].name) == 4;
    assert UpdateHackathonPosition(UPDATE_HACKATHON.fields[5].name) == 5;
    assert UpdateHackathonPosition(UPDATE_HACKATHON.fields[6].name) == 6;
    assert UpdateHackathonPosition(UPDATE_HACKATHON.fields[7].name) == 7;
    assert UpdateHackathonPosition(UPDATE_HACKATHON.fields[8].name) == 8;
    assert UpdateHackathonPosition(UPDATE_HACKATHON.fields[9].name) == 9;
    assert UpdateHackathonPosition(UPDATE_HACKATHON.fields[10].name) == 10;
    assert UpdateHackathonPosition(UPDATE_HACKATHON.fields[11].name) == 11;
    assert UpdateHackathonPosition(UPDATE_HACKATHON.fields[12].name) == 12;
    assert UpdateHackathonPosition(UPDATE_HACKATHON.fields[13].name) == 13;
    assert UpdateHackathonPosition(UPDATE_HACKATHON.fields[14].name) == 14;
    assert UpdateHackathonPosition(UPDATE_HACKATHON.fields[15].name) == 15;
    PositionsTellApart(UPDATE_HACKATHON, UpdateHackathonPosition);
  }

  lemma UpdateHackathonMasks()
    ensures Fields(UPDATE_HACKATHON.masks) == RequiredSet(UPDATE_HACKATHON)
  {
  }

  lemma UpdateHackathonFields()
    ensures forall i :: 0 <= i < |UPDATE_HACKATHON.fields| ==> WfField(UPDATE_HACKATHON.fields[i])
  {
  }

  lemma UpdateHackathonWf()
    ensures WfSchema(UPDATE_HACKATHON)
  {
    UpdateHackathonNames();
    UpdateHackathonMasks();
    UpdateHackathonFields();
  }

  function UpdateBadgePosition(n: string): nat {
    if |n| == 4 then (if n[2] == 'd' then 0 else if n[2] == 'm' then 1 else 3)
    else if |n| == 6 then 7
    else if |n| == 8 then (if n[7] == 'y' then 4 else 8)
    else if |n| == 10 then 9
    else if |n| == 11 then 2
    else if |n| == 12 then 5
    else if |n| == 13 then 6
    else 10
  }

  lemma UpdateBadgeNames()
    ensures DistinctNames(UPDATE_BADGE)
  {
    assert UpdateBadgePosition(UPDATE_BADGE.fields[0].name) == 0;
    assert UpdateBadgePosition(UPDATE_BADGE.fields[1].name) == 1;
    assert UpdateBadgePosition(UPDATE_BADGE.fields[2].name) == 2;
    assert UpdateBadgePosition(UPDATE_BADGE.fields[3].name) == 3;
    assert UpdateBadgePosition(UPDATE_BADGE.fields[4].name) == 4;
    assert UpdateBadgePosition(UPDATE_BADGE.fields[5].name) == 5;
    assert UpdateBadgePosition(UPDATE_BADGE.fields[6].name) == 6;
    assert UpdateBadgePosition(UPDATE_BADGE.fields[7].name) == 7;
    assert UpdateBadgePosition(UPDATE_BADGE.fields[8].name) == 8;
    assert UpdateBadgePosition(UPDATE_BADGE.fields[9].name) == 9;
    PositionsTellApart(UPDATE_BADGE, UpdateBadgePosition);
  }

  lemma UpdateBadgeMasks()
    ensures Fields(UPDATE_BADGE.masks) == RequiredSet(UPDATE_BADGE)
  {
  }

  lemma UpdateBadgeFields()
    ensures forall i :: 0 <= i < |UPDATE_BADGE.fields| ==> WfField(UPDATE_BADGE.fields[i])
  {
  }

  lemma UpdateBadgeWf()
    ensures WfSchema(UPDATE_BADGE)
  {
    UpdateBadgeNames();
    UpdateBadgeMasks();
    UpdateBadgeFields();
  }

  function CreateEventPosition(n: string): nat {
    if |n| == 8 then (if n[7] == 'd' then 0 else 4)
    else if |n| == 9 then 1
    else if |n| == 10 then 3
    else if |n| == 11 then 2
    else 5
  }

  lemma CreateEventNames()
    ensures DistinctNames(CREATE_EVENT)
  {
    PositionsTellApart(CREATE_EVENT, CreateEventPosition);
  }

  lemma CreateEventMasks()
    ensures Fields(CREATE_EVENT.masks) == RequiredSet(CREATE_EVENT)
  {
  }

  lemma CreateEventFields()
    ensures forall i :: 0 <= i < |CREATE_EVENT.fields| ==> WfField(CREATE_EVENT.fields[i])
  {
  }

  lemma CreateEventWf()
    ensures WfSchema(CREATE_EVENT)
  {
    CreateEventNames();
    CreateEventMasks();
    CreateEventFields();
  }

  function BatchCreateEventsPosition(n: string): nat {
    if |n| == 6 then 0
    else 1
  }

  lemma BatchCreateEventsNames()
    ensures DistinctNames(BATCH_CREATE_EVENTS)
  {
    PositionsTellApart(BATCH_CREATE_EVENTS, BatchCreateEventsPosition);
  }

  lemma BatchCreateEventsMasks()
    ensures Fields(BATCH_CREATE_EVENTS.masks) == RequiredSet(BATCH_CREATE_EVENTS)
  {
  }

  lemma BatchCreateEventsFields()
    ensures forall i :: 0 <= i < |BATCH_CREATE_EVENTS.fields| ==> WfField(BATCH_CREATE_EVENTS.fields[i])
  {
    CreateEventWf();
    assert WfTy(TStruct(CREATE_EVENT));
  }

  lemma BatchCreateEventsWf()
    ensures WfSchema(BATCH_CREATE_EVENTS)
  {
    BatchCreateEventsNames();
    BatchCreateEventsMasks();
    BatchCreateEventsFields();
  }
}
