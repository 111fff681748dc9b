/** The other DTOs key by key: which Go field each JSON key carries, in both directions. */
module OtherKeys {
  import opened Common
  import opened Json
  import opened Schema
  import opened DecodeLaws
  import opened Dtos
  import opened DtosWf
  import opened GoStructs
  import opened WireKeys
  import opened OtherDtos

  // ---- The profile of an instructor -----------------------------------------------------

  /** What stands under each key, given the Go fields. */
  ghost predicate ProfileWritten(x: InstructorProfile, ms: seq<Member>) {
    && Vals(ms, "slug") == OptStrJson(x.slug)
    && Vals(ms, "nameEn") == OptStrJson(x.nameEn)
    && Vals(ms, "title") == OptStrJson(x.title)
    && Vals(ms, "titleEn") == OptStrJson(x.titleEn)
    && Vals(ms, "headline") == OptStrJson(x.headline)
    && Vals(ms, "headlineEn") == OptStrJson(x.headlineEn)
    && Vals(ms, "bio") == OptStrJson(x.bio)
    && Vals(ms, "bioEn") == OptStrJson(x.bioEn)
    && Vals(ms, "avatarUrl") == OptStrJson(x.avatarUrl)
    && Vals(ms, "company") == OptStrJson(x.company)
    && Vals(ms, "yearsOfExperience") == OptNumJson(x.yearsOfExperience)
    && Vals(ms, "linkedinUrl") == OptStrJson(x.linkedinUrl)
    && Vals(ms, "githubUrl") == OptStrJson(x.githubUrl)
    && Vals(ms, "twitterUrl") == OptStrJson(x.twitterUrl)
    && Vals(ms, "websiteUrl") == OptStrJson(x.websiteUrl)
    && Vals(ms, "contactEmail") == OptStrJson(x.contactEmail)
    && Vals(ms, "notes") == OptStrJson(x.notes)
    && Vals(ms, "orderIndex") == OptNumJson(x.orderIndex)
    && Vals(ms, "published") == OptBoolJson(x.published)
    && Vals(ms, "expertiseIds") == OptListsJson(x.expertiseIds)
  }

  /** What each Go field holds, given the keys and the receiver before. */
  ghost predicate ProfileIsRead(was: InstructorProfile, ms: seq<Member>, now: InstructorProfile) {
    && OptStrFrom(Vals(ms, "slug"), was.slug, now.slug)
    && OptStrFrom(Vals(ms, "nameEn"), was.nameEn, now.nameEn)
    && OptStrFrom(Vals(ms, "title"), was.title, now.title)
    && OptStrFrom(Vals(ms, "titleEn"), was.titleEn, now.titleEn)
    && OptStrFrom(Vals(ms, "headline"), was.headline, now.headline)
    && OptStrFrom(Vals(ms, "headlineEn"), was.headlineEn, now.headlineEn)
    && OptStrFrom(Vals(ms, "bio"), was.bio, now.bio)
    && OptStrFrom(Vals(ms, "bioEn"), was.bioEn, now.bioEn)
    && OptStrFrom(Vals(ms, "avatarUrl"), was.avatarUrl, now.avatarUrl)
    && OptStrFrom(Vals(ms, "company"), was.company, now.company)
    && OptNumFrom(Vals(ms, "yearsOfExperience"), was.yearsOfExperience, now.yearsOfExperience)
    && OptStrFrom(Vals(ms, "linkedinUrl"), was.linkedinUrl, now.linkedinUrl)
    && OptStrFrom(Vals(ms, "githubUrl"), was.githubUrl, now.githubUrl)
    && OptStrFrom(Vals(ms, "twitterUrl"), was.twitterUrl, now.twitterUrl)
    && OptStrFrom(Vals(ms, "websiteUrl"), was.websiteUrl, now.websiteUrl)
    && OptStrFrom(Vals(ms, "contactEmail"), was.contactEmail, now.contactEmail)
    && OptStrFrom(Vals(ms, "notes"), was.notes, now.notes)
    && OptNumFrom(Vals(ms, "orderIndex"), Optional(0.0, true), now.orderIndex)
    && OptBoolFrom(Vals(ms, "published"), Optional(false, true), now.published)
    && OptListsFrom(Vals(ms, "expertiseIds"), was.expertiseIds, now.expertiseIds)
  }

  ghost predicate ProfileHolds0(s: Schema, vs: seq<Value>, x: InstructorProfile) {
    && Holds(s, vs, 0, Opt("slug", TStr), OptS(x.slug))
    && Holds(s, vs, 2, Opt("nameEn", TStr), OptS(x.nameEn))
    && Holds(s, vs, 3, Opt("title", TStr), OptS(x.title))
  }

  lemma ProfileIsHeld0(s: Schema, x: InstructorProfile, name: Field, nm: Value)
    requires s.fields == InstructorFields(name)
    ensures ProfileHolds0(s, ProfileFields(x, nm), x)
  {
  }

  lemma ProfileWrites0(s: Schema, vs: seq<Value>, ms: seq<Member>, x: InstructorProfile)
    requires OnWire(s, vs, ms) && ProfileHolds0(s, vs, x)
    ensures Vals(ms, "slug") == OptStrJson(x.slug)
    ensures Vals(ms, "nameEn") == OptStrJson(x.nameEn)
    ensures Vals(ms, "title") == OptStrJson(x.title)
  {
    OptStrWritten(s, vs, ms, 0, Opt("slug", TStr), x.slug);
    OptStrWritten(s, vs, ms, 2, Opt("nameEn", TStr), x.nameEn);
    OptStrWritten(s, vs, ms, 3, Opt("title", TStr), x.title);
  }

  lemma ProfileReads0(s: Schema, before: seq<Value>, ms: seq<Member>, after: seq<Value>,
                      was: InstructorProfile, now: InstructorProfile)
    requires FromWire(s, before, ms, after)
    requires ProfileHolds0(s, before, was) && ProfileHolds0(s, after, now)
    ensures OptStrFrom(Vals(ms, "slug"), was.slug, now.slug)
    ensures OptStrFrom(Vals(ms, "nameEn"), was.nameEn, now.nameEn)
    ensures OptStrFrom(Vals(ms, "title"), was.title, now.title)
  {
    OptStrRead(s, before, ms, after, 0, Opt("slug", TStr), was.slug, now.slug);
    OptStrRead(s, before, ms, after, 2, Opt("nameEn", TStr), was.nameEn, now.nameEn);
    OptStrRead(s, before, ms, after, 3, Opt("title", TStr), was.title, now.title);
  }

  ghost predicate ProfileHolds4(s: Schema, vs: seq<Value>, x: InstructorProfile) {
    && Holds(s, vs, 4, Opt("titleEn", TStr), OptS(x.titleEn))
    && Holds(s, vs, 5, Opt("headline", TStr), OptS(x.headline))
    && Holds(s, vs, 6, Opt("headlineEn", TStr), OptS(x.headlineEn))
    && Holds(s, vs, 7, Opt("bio", TStr), OptS(x.bio))
  }

  lemma ProfileIsHeld4(s: Schema, x: InstructorProfile, name: Field, nm: Value)
    requires s.fields == InstructorFields(name)
    ensures ProfileHolds4(s, ProfileFields(x, nm), x)
  {
  }

  lemma ProfileWrites4(s: Schema, vs: seq<Value>, ms: seq<Member>, x: InstructorProfile)
    requires OnWire(s, vs, ms) && ProfileHolds4(s, vs, x)
    ensures Vals(ms, "titleEn") == OptStrJson(x.titleEn)
    ensures Vals(ms, "headline") == OptStrJson(x.headline)
    ensures Vals(ms, "headlineEn") == OptStrJson(x.headlineEn)
    ensures Vals(ms, "bio") == OptStrJson(x.bio)
  {
    OptStrWritten(s, vs, ms, 4, Opt("titleEn", TStr), x.titleEn);
    OptStrWritten(s, vs, ms, 5, Opt("headline", TStr), x.headline);
    OptStrWritten(s, vs, ms, 6, Opt("headlineEn", TStr), x.headlineEn);
    OptStrWritten(s, vs, ms, 7, Opt("bio", TStr), x.bio);
  }

  lemma ProfileReads4(s: Schema, before: seq<Value>, ms: seq<Member>, after: seq<Value>,
                      was: InstructorProfile, now: InstructorProfile)
    requires FromWire(s, before, ms, after)
    requires ProfileHolds4(s, before, was) && ProfileHolds4(s, after, now)
    ensures OptStrFrom(Vals(ms, "titleEn"), was.titleEn, now.titleEn)
    ensures OptStrFrom(Vals(ms, "headline"), was.headline, now.headline)
    ensures OptStrFrom(Vals(ms, "headlineEn"), was.headlineEn, now.headlineEn)
    ensures OptStrFrom(Vals(ms, "bio"), was.bio, now.bio)
  {
    OptStrRead(s, before, ms, after, 4, Opt("titleEn", TStr), was.titleEn, now.titleEn);
    OptStrRead(s, before, ms, after, 5, Opt("headline", TStr), was.headline, now.headline);
    OptStrRead(s, before, ms, after, 6, Opt("headlineEn", TStr), was.headlineEn, now.headlineEn);
    OptStrRead(s, before, ms, after, 7, Opt("bio", TStr), was.bio, now.bio);
  }

  ghost predicate ProfileHolds8(s: Schema, vs: seq<Value>, x: InstructorProfile) {
    && Holds(s, vs, 8, Opt("bioEn", TStr), OptS(x.bioEn))
    && Holds(s, vs, 9, Opt("avatarUrl", TStr), OptS(x.avatarUrl))
    && Holds(s, vs, 10, Opt("company", TStr), OptS(x.company))
    && Holds(s, vs, 11, Opt("yearsOfExperience", TNum), OptN(x.yearsOfExperience))
  }

  lemma ProfileIsHeld8(s: Schema, x: InstructorProfile, name: Field, nm: Value)
    requires s.fields == InstructorFields(name)
    ensures ProfileHolds8(s, ProfileFields(x, nm), x)
  {
  }

  lemma ProfileWrites8(s: Schema, vs: seq<Value>, ms: seq<Member>, x: InstructorProfile)
    requires OnWire(s, vs, ms) && ProfileHolds8(s, vs, x)
    ensures Vals(ms, "bioEn") == OptStrJson(x.bioEn)
    ensures Vals(ms, "avatarUrl") == OptStrJson(x.avatarUrl)
    ensures Vals(ms, "company") == OptStrJson(x.company)
    ensures Vals(ms, "yearsOfExperience") == OptNumJson(x.yearsOfExperience)
  {
    OptStrWritten(s, vs, ms, 8, Opt("bioEn", TStr), x.bioEn);
    OptStrWritten(s, vs, ms, 9, Opt("avatarUrl", TStr), x.avatarUrl);
    OptStrWritten(s, vs, ms, 10, Opt("company", TStr), x.company);
    OptNumWritten(s, vs, ms, 11, Opt("yearsOfExperience", TNum), x.yearsOfExperience);
  }

  lemma ProfileReads8(s: Schema, before: seq<Value>, ms: seq<Member>, after: seq<Value>,
                      was: InstructorProfile, now: InstructorProfile)
    requires FromWire(s, before, ms, after)
    requires ProfileHolds8(s, before, was) && ProfileHolds8(s, after, now)
    ensures OptStrFrom(Vals(ms, "bioEn"), was.bioEn, now.bioEn)
    ensures OptStrFrom(Vals(ms, "avatarUrl"), was.avatarUrl, now.avatarUrl)
    ensures OptStrFrom(Vals(ms, "company"), was.company, now.company)
    ensures OptNumFrom(Vals(ms, "yearsOfExperience"), was.yearsOfExperience, now.yearsOfExperience)
  {
    OptStrRead(s, before, ms, after, 8, Opt("bioEn", TStr), was.bioEn, now.bioEn);
    OptStrRead(s, before, ms, after, 9, Opt("avatarUrl", TStr), was.avatarUrl, now.avatarUrl);
    OptStrRead(s, before, ms, after, 10, Opt("company", TStr), was.company, now.company);
    OptNumRead(s, before, ms, after, 11, Opt("yearsOfExperience", TNum), was.yearsOfExperience,
               now.yearsOfExperience);
  }

  ghost predicate ProfileHolds12(s: Schema, vs: seq<Value>, x: InstructorProfile) {
    && Holds(s, vs, 12, Opt("linkedinUrl", TStr), OptS(x.linkedinUrl))
    && Holds(s, vs, 13, Opt("githubUrl", TStr), OptS(x.githubUrl))
    && Holds(s, vs, 14, Opt("twitterUrl", TStr), OptS(x.twitterUrl))
    && Holds(s, vs, 15, Opt("websiteUrl", TStr), OptS(x.websiteUrl))
  }

  lemma ProfileIsHeld12(s: Schema, x: InstructorProfile, name: Field, nm: Value)
    requires s.fields == InstructorFields(name)
    ensures ProfileHolds12(s, ProfileFields(x, nm), x)
  {
  }

  lemma ProfileWrites12(s: Schema, vs: seq<Value>, ms: seq<Member>, x: InstructorProfile)
    requires OnWire(s, vs, ms) && ProfileHolds12(s, vs, x)
    ensures Vals(ms, "linkedinUrl") == OptStrJson(x.linkedinUrl)
    ensures Vals(ms, "githubUrl") == OptStrJson(x.githubUrl)
    ensures Vals(ms, "twitterUrl") == OptStrJson(x.twitterUrl)
    ensures Vals(ms, "websiteUrl") == OptStrJson(x.websiteUrl)
  {
    OptStrWritten(s, vs, ms, 12, Opt("linkedinUrl", TStr), x.linkedinUrl);
    OptStrWritten(s, vs, ms, 13, Opt("githubUrl", TStr), x.githubUrl);
    OptStrWritten(s, vs, ms, 14, Opt("twitterUrl", TStr), x.twitterUrl);
    OptStrWritten(s, vs, ms, 15, Opt("websiteUrl", TStr), x.websiteUrl);
  }

  lemma ProfileReads12(s: Schema, before: seq<Value>, ms: seq<Member>, after: seq<Value>,
                       was: InstructorProfile, now: InstructorProfile)
    requires FromWire(s, before, ms, after)
    requires ProfileHolds12(s, before, was) && ProfileHolds12(s, after, now)
    ensures OptStrFrom(Vals(ms, "linkedinUrl"), was.linkedinUrl, now.linkedinUrl)
    ensures OptStrFrom(Vals(ms, "githubUrl"), was.githubUrl, now.githubUrl)
    ensures OptStrFrom(Vals(ms, "twitterUrl"), was.twitterUrl, now.twitterUrl)
    ensures OptStrFrom(Vals(ms, "websiteUrl"), was.websiteUrl, now.websiteUrl)
  {
    OptStrRead(s, before, ms, after, 12, Opt("linkedinUrl", TStr), was.linkedinUrl, now.linkedinUrl);
    OptStrRead(s, before, ms, after, 13, Opt("githubUrl", TStr), was.githubUrl, now.githubUrl);
    OptStrRead(s, before, ms, after, 14, Opt("twitterUrl", TStr), was.twitterUrl, now.twitterUrl);
    OptStrRead(s, before, ms, after, 15, Opt("websiteUrl", TStr), was.websiteUrl, now.websiteUrl);
  }

  ghost predicate ProfileHolds16(s: Schema, vs: seq<Value>, x: InstructorProfile) {
    && Holds(s, vs, 16, Opt("contactEmail", TStr), OptS(x.contactEmail))
    && Holds(s, vs, 17, Opt("notes", TStr), OptS(x.notes))
    && Holds(s, vs, 18, OptOr("orderIndex", TNum, VNum(0.0)), OptN(x.orderIndex))
    && Holds(s, vs, 19, OptOr("published", TBool, VBool(false)), OptB(x.published))
  }

  lemma ProfileIsHeld16(s: Schema, x: InstructorProfile, name: Field, nm: Value)
    requires s.fields == InstructorFields(name)
    ensures ProfileHolds16(s, ProfileFields(x, nm), x)
  {
  }

  lemma ProfileWrites16(s: Schema, vs: seq<Value>, ms: seq<Member>, x: InstructorProfile)
    requires OnWire(s, vs, ms) && ProfileHolds16(s, vs, x)
    ensures Vals(ms, "contactEmail") == OptStrJson(x.contactEmail)
    ensures Vals(ms, "notes") == OptStrJson(x.notes)
    ensures Vals(ms, "orderIndex") == OptNumJson(x.orderIndex)
    ensures Vals(ms, "published") == OptBoolJson(x.published)
  {
    OptStrWritten(s, vs, ms, 16, Opt("contactEmail", TStr), x.contactEmail);
    OptStrWritten(s, vs, ms, 17, Opt("notes", TStr), x.notes);
    OptNumWritten(s, vs, ms, 18, OptOr("orderIndex", TNum, VNum(0.0)), x.orderIndex);
    OptBoolWritten(s, vs, ms, 19, OptOr("published", TBool, VBool(false)), x.published);
  }

  lemma ProfileReads16(s: Schema, before: seq<Value>, ms: seq<Member>, after: seq<Value>,
                       was: InstructorProfile, now: InstructorProfile)
    requires FromWire(s, before, ms, after)
    requires ProfileHolds16(s, before, was) && ProfileHolds16(s, after, now)
    ensures OptStrFrom(Vals(ms, "contactEmail"), was.contactEmail, now.contactEmail)
    ensures OptStrFrom(Vals(ms, "notes"), was.notes, now.notes)
    ensures OptNumFrom(Vals(ms, "orderIndex"), Optional(0.0, true), now.orderIndex)
    ensures OptBoolFrom(Vals(ms, "published"), Optional(false, true), now.published)
  {
    OptStrRead(s, before, ms, after, 16, Opt("contactEmail", TStr), was.contactEmail, now.contactEmail);
    OptStrRead(s, before, ms, after, 17, Opt("notes", TStr), was.notes, now.notes);
    OptNumReadOr(s, before, ms, after, 18, OptOr("orderIndex", TNum, VNum(0.0)), 0.0, now.orderIndex);
    OptBoolReadOr(s, before, ms, after, 19, OptOr("published", TBool, VBool(false)), false, now.published);
  }

  ghost predicate ProfileHolds20(s: Schema, vs: seq<Value>, x: InstructorProfile) {
    && Holds(s, vs, 20, OptList("expertiseIds", TSlice(TStr)), ListsOf(x.expertiseIds))
  }

  lemma ProfileIsHeld20(s: Schema, x: InstructorProfile, name: Field, nm: Value)
    requires s.fields == InstructorFields(name)
    ensures ProfileHolds20(s, ProfileFields(x, nm), x)
  {
  }

  lemma ProfileWrites20(s: Schema, vs: seq<Value>, ms: seq<Member>, x: InstructorProfile)
    requires OnWire(s, vs, ms) && ProfileHolds20(s, vs, x)
    ensures Vals(ms, "expertiseIds") == OptListsJson(x.expertiseIds)
  {
    ListsWritten(s, vs, ms, 20, OptList("expertiseIds", TSlice(TStr)), x.expertiseIds);
  }

  lemma ProfileReads20(s: Schema, before: seq<Value>, ms: seq<Member>, after: seq<Value>,
                       was: InstructorProfile, now: InstructorProfile)
    requires FromWire(s, before, ms, after)
    requires ProfileHolds20(s, before, was) && ProfileHolds20(s, after, now)
    ensures OptListsFrom(Vals(ms, "expertiseIds"), was.expertiseIds, now.expertiseIds)
  {
    ListsRead(s, before, ms, after, 20, OptList("expertiseIds", TSlice(TStr)), was.expertiseIds, now.expertiseIds);
  }

  ghost predicate ProfileHolds(s: Schema, vs: seq<Value>, x: InstructorProfile) {
    && ProfileHolds0(s, vs, x)
    && ProfileHolds4(s, vs, x)
    && ProfileHolds8(s, vs, x)
    && ProfileHolds12(s, vs, x)
    && ProfileHolds16(s, vs, x)
    && ProfileHolds20(s, vs, x)
  }

  lemma ProfileIsHeld(s: Schema, x: InstructorProfile, name: Field, nm: Value)
    requires s.fields == InstructorFields(name)
    ensures ProfileHolds(s, ProfileFields(x, nm), x)
  {
    ProfileIsHeld0(s, x, name, nm);
    ProfileIsHeld4(s, x, name, nm);
    ProfileIsHeld8(s, x, name, nm);
    ProfileIsHeld12(s, x, name, nm);
    ProfileIsHeld16(s, x, name, nm);
    ProfileIsHeld20(s, x, name, nm);
  }

  lemma ProfileWrites(s: Schema, vs: seq<Value>, ms: seq<Member>, x: InstructorProfile)
    requires OnWire(s, vs, ms) && ProfileHolds(s, vs, x)
    ensures ProfileWritten(x, ms)
  {
    ProfileWrites0(s, vs, ms, x);
    ProfileWrites4(s, vs, ms, x);
    ProfileWrites8(s, vs, ms, x);
    ProfileWrites12(s, vs, ms, x);
    ProfileWrites16(s, vs, ms, x);
    ProfileWrites20(s, vs, ms, x);
  }

  lemma ProfileReads(s: Schema, before: seq<Value>, ms: seq<Member>, after: seq<Value>,
                     was: InstructorProfile, now: InstructorProfile)
    requires FromWire(s, before, ms, after) && ProfileHolds(s, before, was) && ProfileHolds(s, after, now)
    ensures ProfileIsRead(was, ms, now)
  {
    ProfileReads0(s, before, ms, after, was, now);
    ProfileReads4(s, before, ms, after, was, now);
    ProfileReads8(s, before, ms, after, was, now);
    ProfileReads12(s, before, ms, after, was, now);
    ProfileReads16(s, before, ms, after, was, now);
    ProfileReads20(s, before, ms, after, was, now);
  }

  lemma ProfileOnWire(s: Schema, vs: seq<Value>, ms: seq<Member>, x: InstructorProfile, name: Field, nm: Value)
    requires OnWire(s, vs, ms) && s.fields == InstructorFields(name) && vs == ProfileFields(x, nm)
    ensures ProfileWritten(x, ms)
  {
    ProfileIsHeld(s, x, name, nm);
    ProfileWrites(s, vs, ms, x);
  }

  lemma ProfileFromWire(s: Schema, before: seq<Value>, ms: seq<Member>, after: seq<Value>, was: InstructorProfile,
                        now: InstructorProfile, name: Field, nmWas: Value, nmNow: Value)
    requires FromWire(s, before, ms, after) && s.fields == InstructorFields(name)
    requires before == ProfileFields(was, nmWas) && after == ProfileFields(now, nmNow)
    ensures ProfileIsRead(was, ms, now)
  {
    ProfileIsHeld(s, was, name, nmWas);
    ProfileIsHeld(s, now, name, nmNow);
    ProfileReads(s, before, ms, after, was, now);
  }

  // ---- CreateInstructorDto --------------------------------------------------------------

  datatype CreateInstructorDto = CreateInstructorDto(name: string, profile: InstructorProfile)

  function CreateInstructorFields(x: CreateInstructorDto): seq<Value> {
    ProfileFields(x.profile, VStr(x.name))
  }

  /** j is a JSON value Encode may write for x. */
  ghost predicate EncodesCreateInstructor(x: CreateInstructorDto, j: Json) {
    && HasType(TStruct(CREATE_INSTRUCTOR), VStruct(CreateInstructorFields(x)))
    && IsEncoding(TStruct(CREATE_INSTRUCTOR), VStruct(CreateInstructorFields(x)), j)
  }

  lemma CreateInstructorEncoded(x: CreateInstructorDto, j: Json)
    requires EncodesCreateInstructor(x, j)
    ensures j.JObj? && OnWire(CREATE_INSTRUCTOR, CreateInstructorFields(x), j.members)
  {
    CreateInstructorNames();
  }

  ghost predicate CreateInstructorWritten(x: CreateInstructorDto, ms: seq<Member>) {
    ProfileWritten(x.profile, ms) && Vals(ms, "name") == [JStr(x.name)]
  }

  ghost predicate CreateInstructorIsRead(was: CreateInstructorDto, ms: seq<Member>, now: CreateInstructorDto) {
    ProfileIsRead(was.profile, ms, now.profile) && LastIs(Vals(ms, "name"), JStr(now.name))
  }

  lemma CreateInstructorWrites(s: Schema, vs: seq<Value>, ms: seq<Member>, x: CreateInstructorDto)
    requires OnWire(s, vs, ms)
    requires s.fields == InstructorFields(Req("name", TStr)) && vs == ProfileFields(x.profile, VStr(x.name))
    ensures CreateInstructorWritten(x, ms)
  {
    ProfileOnWire(s, vs, ms, x.profile, Req("name", TStr), VStr(x.name));
    StrWritten(s, vs, ms, 1, Req("name", TStr), x.name);
  }

  lemma CreateInstructorReads(s: Schema, before: seq<Value>, ms: seq<Member>, after: seq<Value>,
                              was: CreateInstructorDto, now: CreateInstructorDto)
    requires FromWire(s, before, ms, after) && s.fields == InstructorFields(Req("name", TStr))
    requires before == ProfileFields(was.profile, VStr(was.name))
    requires after == ProfileFields(now.profile, VStr(now.name))
    ensures CreateInstructorIsRead(was, ms, now)
  {
    ProfileFromWire(s, before, ms, after, was.profile, now.profile, Req("name", TStr),
                    VStr(was.name), VStr(now.name));
    CreateInstructorNameReads(s, before, ms, after, was, now);
  }

  lemma CreateInstructorNameReads(s: Schema, before: seq<Value>, ms: seq<Member>, after: seq<Value>,
                                  was: CreateInstructorDto, now: CreateInstructorDto)
    requires FromWire(s, before, ms, after) && s.fields == InstructorFields(Req("name", TStr))
    requires before == ProfileFields(was.profile, VStr(was.name))
    requires after == ProfileFields(now.profile, VStr(now.name))
    ensures LastIs(Vals(ms, "name"), JStr(now.name))
  {
    StrRead(s, before, ms, after, 1, Req("name", TStr), now.name);
  }

  /** On the wire, each key carries its own Go field. */
  lemma CreateInstructorOnWire(x: CreateInstructorDto, j: Json)
    requires EncodesCreateInstructor(x, j)
    ensures j.JObj? && CreateInstructorWritten(x, j.members)
  {
    CreateInstructorEncoded(x, j);
    CreateInstructorWrites(CREATE_INSTRUCTOR, CreateInstructorFields(x), j.members, x);
  }

  /** From the wire, each Go field is set by its own key. */
  lemma CreateInstructorFromWire(was: CreateInstructorDto, ms: seq<Member>, now: CreateInstructorDto)
    requires DecodeObject(CREATE_INSTRUCTOR, CreateInstructorFields(was), ms) == Ok(CreateInstructorFields(now))
    ensures CreateInstructorIsRead(was, ms, now)
  {
    CreateInstructorNames();
    CreateInstructorReads(CREATE_INSTRUCTOR, CreateInstructorFields(was), ms, CreateInstructorFields(now), was, now);
  }

  lemma CreateInstructorNameTyped(x: CreateInstructorDto)
    ensures HasType(TStr, VStr(x.name))
  {
    assert HasType(TStr, VStr(x.name));
  }

  lemma CreateInstructorHasType(x: CreateInstructorDto)
    ensures FieldsHaveType(CREATE_INSTRUCTOR, CreateInstructorFields(x))
  {
    CreateInstructorNameTyped(x);
    ProfileHasTypes(CREATE_INSTRUCTOR, Req("name", TStr));
    ProfileHasVals(x.profile, VStr(x.name));
    ProfileTyped(CREATE_INSTRUCTOR, CreateInstructorFields(x), x.profile, TStr, VStr(x.name));
  }

  /** Whatever is decoded into such a struct is again such a struct. */
  lemma CreateInstructorDecoded(was: CreateInstructorDto, ms: seq<Member>) returns (now: CreateInstructorDto)
    requires DecodeObject(CREATE_INSTRUCTOR, CreateInstructorFields(was), ms).Ok?
    ensures DecodeObject(CREATE_INSTRUCTOR, CreateInstructorFields(was), ms) == Ok(CreateInstructorFields(now))
  {
    CreateInstructorWf();
    CreateInstructorHasType(was);
    DecodedFieldsHaveType(CREATE_INSTRUCTOR, CreateInstructorFields(was), ms);
    now := CreateInstructorBack(DecodeObject(CREATE_INSTRUCTOR, CreateInstructorFields(was), ms).value);
  }

  lemma CreateInstructorBack(vs: seq<Value>) returns (x: CreateInstructorDto)
    requires FieldsHaveType(CREATE_INSTRUCTOR, vs)
    ensures CreateInstructorFields(x) == vs
  {
    ProfileHasTypes(CREATE_INSTRUCTOR, Req("name", TStr));
    StrBack(CREATE_INSTRUCTOR, vs, 1);
    x := CreateInstructorDto(StrOf(At(vs, 1)), ProfileOf(vs));
    ProfileHasVals(x.profile, vs[1]);
    ProfileBack(CREATE_INSTRUCTOR, vs, CreateInstructorFields(x), x.profile, TStr, vs[1]);
  }

  // ---- UpdateInstructorDto --------------------------------------------------------------

  datatype UpdateInstructorDto = UpdateInstructorDto(name: Optional<string>, profile: InstructorProfile)

  function UpdateInstructorFields(x: UpdateInstructorDto): seq<Value> {
    ProfileFields(x.profile, OptS(x.name))
  }

  /** j is a JSON value Encode may write for x. */
  ghost predicate EncodesUpdateInstructor(x: UpdateInstructorDto, j: Json) {
    && HasType(TStruct(UPDATE_INSTRUCTOR), VStruct(UpdateInstructorFields(x)))
    && IsEncoding(TStruct(UPDATE_INSTRUCTOR), VStruct(UpdateInstructorFields(x)), j)
  }

  lemma UpdateInstructorEncoded(x: UpdateInstructorDto, j: Json)
    requires EncodesUpdateInstructor(x, j)
    ensures j.JObj? && OnWire(UPDATE_INSTRUCTOR, UpdateInstructorFields(x), j.members)
  {
    UpdateInstructorNames();
  }

  ghost predicate UpdateInstructorWritten(x: UpdateInstructorDto, ms: seq<Member>) {
    ProfileWritten(x.profile, ms) && Vals(ms, "name") == OptStrJson(x.name)
  }

  ghost predicate UpdateInstructorIsRead(was: UpdateInstructorDto, ms: seq<Member>, now: UpdateInstructorDto) {
    ProfileIsRead(was.profile, ms, now.profile) && OptStrFrom(Vals(ms, "name"), was.name, now.name)
  }

  lemma UpdateInstructorWrites(s: Schema, vs: seq<Value>, ms: seq<Member>, x: UpdateInstructorDto)
    requires OnWire(s, vs, ms)
    requires s.fields == InstructorFields(Opt("name", TStr)) && vs == ProfileFields(x.profile, OptS(x.name))
    ensures UpdateInstructorWritten(x, ms)
  {
    ProfileOnWire(s, vs, ms, x.profile, Opt("name", TStr), OptS(x.name));
    OptStrWritten(s, vs, ms, 1, Opt("name", TStr), x.name);
  }

  lemma UpdateInstructorReads(s: Schema, before: seq<Value>, ms: seq<Member>, after: seq<Value>,
                              was: UpdateInstructorDto, now: UpdateInstructorDto)
    requires FromWire(s, before, ms, after) && s.fields == InstructorFields(Opt("name", TStr))
    requires before == ProfileFields(was.profile, OptS(was.name))
    requires after == ProfileFields(now.profile, OptS(now.name))
    ensures UpdateInstructorIsRead(was, ms, now)
  {
    ProfileFromWire(s, before, ms, after, was.profile, now.profile, Opt("name", TStr),
                    OptS(was.name), OptS(now.name));
    UpdateInstructorNameReads(s, before, ms, after, was, now);
  }

  lemma UpdateInstructorNameReads(s: Schema, before: seq<Value>, ms: seq<Member>, after: seq<Value>,
                                  was: UpdateInstructorDto, now: UpdateInstructorDto)
    requires FromWire(s, before, ms, after) && s.fields == InstructorFields(Opt("name", TStr))
    requires before == ProfileFields(was.profile, OptS(was.name))
    requires after == ProfileFields(now.profile, OptS(now.name))
    ensures OptStrFrom(Vals(ms, "name"), was.name, now.name)
  {
    OptStrRead(s, before, ms, after, 1, Opt("name", TStr), was.name, now.name);
  }

  /** On the wire, each key carries its own Go field. */
  lemma UpdateInstructorOnWire(x: UpdateInstructorDto, j: Json)
    requires EncodesUpdateInstructor(x, j)
    ensures j.JObj? && UpdateInstructorWritten(x, j.members)
  {
    UpdateInstructorEncoded(x, j);
    UpdateInstructorWrites(UPDATE_INSTRUCTOR, UpdateInstructorFields(x), j.members, x);
  }

  /** From the wire, each Go field is set by its own key. */
  lemma UpdateInstructorFromWire(was: UpdateInstructorDto, ms: seq<Member>, now: UpdateInstructorDto)
    requires DecodeObject(UPDATE_INSTRUCTOR, UpdateInstructorFields(was), ms) == Ok(UpdateInstructorFields(now))
    ensures UpdateInstructorIsRead(was, ms, now)
  {
    UpdateInstructorNames();
    UpdateInstructorReads(UPDATE_INSTRUCTOR, UpdateInstructorFields(was), ms, UpdateInstructorFields(now), was, now);
  }

  lemma UpdateInstructorNameTyped(x: UpdateInstructorDto)
    ensures HasType(TOpt(TStr), OptS(x.name))
  {
    assert HasType(TStr, VStr(x.name.value));
  }

  lemma UpdateInstructorHasType(x: UpdateInstructorDto)
    ensures FieldsHaveType(UPDATE_INSTRUCTOR, UpdateInstructorFields(x))
  {
    UpdateInstructorNameTyped(x);
    ProfileHasTypes(UPDATE_INSTRUCTOR, Opt("name", TStr));
    ProfileHasVals(x.profile, OptS(x.name));
    ProfileTyped(UPDATE_INSTRUCTOR, UpdateInstructorFields(x), x.profile, TOpt(TStr), OptS(x.name));
  }

  /** Whatever is decoded into such a struct is again such a struct. */
  lemma UpdateInstructorDecoded(was: UpdateInstructorDto, ms: seq<Member>) returns (now: UpdateInstructorDto)
    requires DecodeObject(UPDATE_INSTRUCTOR, UpdateInstructorFields(was), ms).Ok?
    ensures DecodeObject(UPDATE_INSTRUCTOR, UpdateInstructorFields(was), ms) == Ok(UpdateInstructorFields(now))
  {
    UpdateInstructorWf();
    UpdateInstructorHasType(was);
    DecodedFieldsHaveType(UPDATE_INSTRUCTOR, UpdateInstructorFields(was), ms);
    now := UpdateInstructorBack(DecodeObject(UPDATE_INSTRUCTOR, UpdateInstructorFields(was), ms).value);
  }

  lemma UpdateInstructorBack(vs: seq<Value>) returns (x: UpdateInstructorDto)
    requires FieldsHaveType(UPDATE_INSTRUCTOR, vs)
    ensures UpdateInstructorFields(x) == vs
  {
    ProfileHasTypes(UPDATE_INSTRUCTOR, Opt("name", TStr));
    OptStrBack(UPDATE_INSTRUCTOR, vs, 1);
    x := UpdateInstructorDto(OptStrOf(At(vs, 1)), ProfileOf(vs));
    ProfileHasVals(x.profile, vs[1]);
    ProfileBack(UPDATE_INSTRUCTOR, vs, UpdateInstructorFields(x), x.profile, TOpt(TStr), vs[1]);
  }

  // ---- UpdateHackathonDto ---------------------------------------------------------------

  /** j is a JSON value Encode may write for x. */
  ghost predicate EncodesHackathon(x: UpdateHackathonDto, j: Json) {
    && HasType(TStruct(UPDATE_HACKATHON), VStruct(HackathonFields(x)))
    && IsEncoding(TStruct(UPDATE_HACKATHON), VStruct(HackathonFields(x)), j)
  }

  /** What stands under each key, given the Go fields. */
  ghost predicate HackathonWritten(x: UpdateHackathonDto, ms: seq<Member>) {
    && Vals(ms, "title") == [JStr(x.title)]
    && Vals(ms, "description") == [JStr(x.description)]
    && Vals(ms, "bannerUrl") == OptStrJson(x.bannerUrl)
    && Vals(ms, "status") == OptStrJson(x.status)
    && Vals(ms, "startDate") == [JStr(x.startDate)]
    && Vals(ms, "endDate") == [JStr(x.endDate)]
    && Vals(ms, "submissionDeadline") == OptStrJson(x.submissionDeadline)
    && Vals(ms, "registerDeadline") == OptStrJson(x.registerDeadline)
    && Vals(ms, "minTeamSize") == OptNumJson(x.minTeamSize)
    && Vals(ms, "maxTeamSize") == OptNumJson(x.maxTeamSize)
    && Vals(ms, "location") == OptStrJson(x.location)
    && Vals(ms, "rules") == OptStrJson(x.rules)
    && Vals(ms, "submissionRequirements") == OptStrJson(x.submissionRequirements)
    && Vals(ms, "prizes") == OptStrJson(x.prizes)
    && Vals(ms, "registrationUrl") == OptStrJson(x.registrationUrl)
    && Vals(ms, "registrationLabel") == OptStrJson(x.registrationLabel)
  }

  /** What each Go field holds, given the keys and the receiver before. */
  ghost predicate HackathonIsRead(was: UpdateHackathonDto, ms: seq<Member>, now: UpdateHackathonDto) {
    && LastIs(Vals(ms, "title"), JStr(now.title))
    && LastIs(Vals(ms, "description"), JStr(now.description))
    && OptStrFrom(Vals(ms, "bannerUrl"), was.bannerUrl, now.bannerUrl)
    && OptStrFrom(Vals(ms, "status"), was.status, now.status)
    && LastIs(Vals(ms, "startDate"), JStr(now.startDate))
    && LastIs(Vals(ms, "endDate"), JStr(now.endDate))
    && OptStrFrom(Vals(ms, "submissionDeadline"), was.submissionDeadline, now.submissionDeadline)
    && OptStrFrom(Vals(ms, "registerDeadline"), was.registerDeadline, now.registerDeadline)
    && OptNumFrom(Vals(ms, "minTeamSize"), Optional(1.0, true), now.minTeamSize)
    && OptNumFrom(Vals(ms, "maxTeamSize"), Optional(5.0, true), now.maxTeamSize)
    && OptStrFrom(Vals(ms, "location"), was.location, now.location)
    && OptStrFrom(Vals(ms, "rules"), was.rules, now.rules)
    && OptStrFrom(Vals(ms, "submissionRequirements"), was.submissionRequirements, now.submissionRequirements)
    && OptStrFrom(Vals(ms, "prizes"), was.prizes, now.prizes)
    && OptStrFrom(Vals(ms, "registrationUrl"), was.registrationUrl, now.registrationUrl)
    && OptStrFrom(Vals(ms, "registrationLabel"), was.registrationLabel, now.registrationLabel)
  }

  ghost predicate HackathonHolds0(s: Schema, vs: seq<Value>, x: UpdateHackathonDto) {
    && Holds(s, vs, 0, Req("title", TStr), VStr(x.title))
    && Holds(s, vs, 1, Req("description", TStr), VStr(x.description))
    && Holds(s, vs, 2, Opt("bannerUrl", TStr), OptS(x.bannerUrl))
    && Holds(s, vs, 3, Opt("status", TStr), OptS(x.status))
  }

  lemma HackathonIsHeld0(x: UpdateHackathonDto)
    ensures HackathonHolds0(UPDATE_HACKATHON, HackathonFields(x), x)
  {
  }

  lemma HackathonWrites0(s: Schema, vs: seq<Value>, ms: seq<Member>, x: UpdateHackathonDto)
    requires OnWire(s, vs, ms) && HackathonHolds0(s, vs, x)
    ensures Vals(ms, "title") == [JStr(x.title)]
    ensures Vals(ms, "description") == [JStr(x.description)]
    ensures Vals(ms, "bannerUrl") == OptStrJson(x.bannerUrl)
    ensures Vals(ms, "status") == OptStrJson(x.status)
  {
    StrWritten(s, vs, ms, 0, Req("title", TStr), x.title);
    StrWritten(s, vs, ms, 1, Req("description", TStr), x.description);
    OptStrWritten(s, vs, ms, 2, Opt("bannerUrl", TStr), x.bannerUrl);
    OptStrWritten(s, vs, ms, 3, Opt("status", TStr), x.status);
  }

  lemma HackathonReads0(s: Schema, before: seq<Value>, ms: seq<Member>, after: seq<Value>,
                        was: UpdateHackathonDto, now: UpdateHackathonDto)
    requires FromWire(s, before, ms, after)
    requires HackathonHolds0(s, before, was) && HackathonHolds0(s, after, now)
    ensures LastIs(Vals(ms, "title"), JStr(now.title))
    ensures LastIs(Vals(ms, "description"), JStr(now.description))
    ensures OptStrFrom(Vals(ms, "bannerUrl"), was.bannerUrl, now.bannerUrl)
    ensures OptStrFrom(Vals(ms, "status"), was.status, now.status)
  {
    StrRead(s, before, ms, after, 0, Req("title", TStr), now.title);
    StrRead(s, before, ms, after, 1, Req("description", TStr), now.description);
    OptStrRead(s, before, ms, after, 2, Opt("bannerUrl", TStr), was.bannerUrl, now.bannerUrl);
    OptStrRead(s, before, ms, after, 3, Opt("status", TStr), was.status, now.status);
  }

  ghost predicate HackathonHolds4(s: Schema, vs: seq<Value>, x: UpdateHackathonDto) {
    && Holds(s, vs, 4, Req("startDate", TStr), VStr(x.startDate))
    && Holds(s, vs, 5, Req("endDate", TStr), VStr(x.endDate))
    && Holds(s, vs, 6, Opt("submissionDeadline", TStr), OptS(x.submissionDeadline))
    && Holds(s, vs, 7, Opt("registerDeadline", TStr), OptS(x.registerDeadline))
  }

  lemma HackathonIsHeld4(x: UpdateHackathonDto)
    ensures HackathonHolds4(UPDATE_HACKATHON, HackathonFields(x), x)
  {
  }

  lemma HackathonWrites4(s: Schema, vs: seq<Value>, ms: seq<Member>, x: UpdateHackathonDto)
    requires OnWire(s, vs, ms) && HackathonHolds4(s, vs, x)
    ensures Vals(ms, "startDate") == [JStr(x.startDate)]
    ensures Vals(ms, "endDate") == [JStr(x.endDate)]
    ensures Vals(ms, "submissionDeadline") == OptStrJson(x.submissionDeadline)
    ensures Vals(ms, "registerDeadline") == OptStrJson(x.registerDeadline)
  {
    StrWritten(s, vs, ms, 4, Req("startDate", TStr), x.startDate);
    StrWritten(s, vs, ms, 5, Req("endDate", TStr), x.endDate);
    OptStrWritten(s, vs, ms, 6, Opt("submissionDeadline", TStr), x.submissionDeadline);
    OptStrWritten(s, vs, ms, 7, Opt("registerDeadline", TStr), x.registerDeadline);
  }

  lemma HackathonReads4(s: Schema, before: seq<Value>, ms: seq<Member>, after: seq<Value>,
                        was: UpdateHackathonDto, now: UpdateHackathonDto)
    requires FromWire(s, before, ms, after)
    requires HackathonHolds4(s, before, was) && HackathonHolds4(s, after, now)
    ensures LastIs(Vals(ms, "startDate"), JStr(now.startDate))
    ensures LastIs(Vals(ms, "endDate"), JStr(now.endDate))
    ensures OptStrFrom(Vals(ms, "submissionDeadline"), was.submissionDeadline, now.submissionDeadline)
    ensures OptStrFrom(Vals(ms, "registerDeadline"), was.registerDeadline, now.registerDeadline)
  {
    StrRead(s, before, ms, after, 4, Req("startDate", TStr), now.startDate);
    StrRead(s, before, ms, after, 5, Req("endDate", TStr), now.endDate);
    OptStrRead(s, before, ms, after, 6, Opt("submissionDeadline", TStr), was.submissionDeadline,
               now.submissionDeadline);
    OptStrRead(s, before, ms, after, 7, Opt("registerDeadline", TStr), was.registerDeadline, now.registerDeadline);
  }

  ghost predicate HackathonHolds8(s: Schema, vs: seq<Value>, x: UpdateHackathonDto) {
    && Holds(s, vs, 8, OptOr("minTeamSize", TNum, VNum(1.0)), OptN(x.minTeamSize))
    && Holds(s, vs, 9, OptOr("maxTeamSize", TNum, VNum(5.0)), OptN(x.maxTeamSize))
    && Holds(s, vs, 10, Opt("location", TStr), OptS(x.location))
    && Holds(s, vs, 11, Opt("rules", TStr), OptS(x.rules))
  }

  lemma HackathonIsHeld8(x: UpdateHackathonDto)
    ensures HackathonHolds8(UPDATE_HACKATHON, HackathonFields(x), x)
  {
  }

  lemma HackathonWrites8(s: Schema, vs: seq<Value>, ms: seq<Member>, x: UpdateHackathonDto)
    requires OnWire(s, vs, ms) && HackathonHolds8(s, vs, x)
    ensures Vals(ms, "minTeamSize") == OptNumJson(x.minTeamSize)
    ensures Vals(ms, "maxTeamSize") == OptNumJson(x.maxTeamSize)
    ensures Vals(ms, "location") == OptStrJson(x.location)
    ensures Vals(ms, "rules") == OptStrJson(x.rules)
  {
    OptNumWritten(s, vs, ms, 8, OptOr("minTeamSize", TNum, VNum(1.0)), x.minTeamSize);
    OptNumWritten(s, vs, ms, 9, OptOr("maxTeamSize", TNum, VNum(5.0)), x.maxTeamSize);
    OptStrWritten(s, vs, ms, 10, Opt("location", TStr), x.location);
    OptStrWritten(s, vs, ms, 11, Opt("rules", TStr), x.rules);
  }

  lemma HackathonReads8(s: Schema, before: seq<Value>, ms: seq<Member>, after: seq<Value>,
                        was: UpdateHackathonDto, now: UpdateHackathonDto)
    requires FromWire(s, before, ms, after)
    requires HackathonHolds8(s, before, was) && HackathonHolds8(s, after, now)
    ensures OptNumFrom(Vals(ms, "minTeamSize"), Optional(1.0, true), now.minTeamSize)
    ensures OptNumFrom(Vals(ms, "maxTeamSize"), Optional(5.0, true), now.maxTeamSize)
    ensures OptStrFrom(Vals(ms, "location"), was.location, now.location)
    ensures OptStrFrom(Vals(ms, "rules"), was.rules, now.rules)
  {
    OptNumReadOr(s, before, ms, after, 8, OptOr("minTeamSize", TNum, VNum(1.0)), 1.0, now.minTeamSize);
    OptNumReadOr(s, before, ms, after, 9, OptOr("maxTeamSize", TNum, VNum(5.0)), 5.0, now.maxTeamSize);
    OptStrRead(s, before, ms, after, 10, Opt("location", TStr), was.location, now.location);
    OptStrRead(s, before, ms, after, 11, Opt("rules", TStr), was.rules, now.rules);
  }

  ghost predicate HackathonHolds12(s: Schema, vs: seq<Value>, x: UpdateHackathonDto) {
    && Holds(s, vs, 12, Opt("submissionRequirements", TStr), OptS(x.submissionRequirements))
    && Holds(s, vs, 13, Opt("prizes", TStr), OptS(x.prizes))
    && Holds(s, vs, 14, Opt("registrationUrl", TStr), OptS(x.registrationUrl))
    && Holds(s, vs, 15, Opt("registrationLabel", TStr), OptS(x.registrationLabel))
  }

  lemma HackathonIsHeld12(x: UpdateHackathonDto)
    ensures HackathonHolds12(UPDATE_HACKATHON, HackathonFields(x), x)
  {
  }

  lemma HackathonWrites12(s: Schema, vs: seq<Value>, ms: seq<Member>, x: UpdateHackathonDto)
    requires OnWire(s, vs, ms) && HackathonHolds12(s, vs, x)
    ensures Vals(ms, "submissionRequirements") == OptStrJson(x.submissionRequirements)
    ensures Vals(ms, "prizes") == OptStrJson(x.prizes)
    ensures Vals(ms, "registrationUrl") == OptStrJson(x.registrationUrl)
    ensures Vals(ms, "registrationLabel") == OptStrJson(x.registrationLabel)
  {
    OptStrWritten(s, vs, ms, 12, Opt("submissionRequirements", TStr), x.submissionRequirements);
    OptStrWritten(s, vs, ms, 13, Opt("prizes", TStr), x.prizes);
    OptStrWritten(s, vs, ms, 14, Opt("registrationUrl", TStr), x.registrationUrl);
    OptStrWritten(s, vs, ms, 15, Opt("registrationLabel", TStr), x.registrationLabel);
  }

  lemma HackathonReads12(s: Schema, before: seq<Value>, ms: seq<Member>, after: seq<Value>,
                         was: UpdateHackathonDto, now: UpdateHackathonDto)
    requires FromWire(s, before, ms, after)
    requires HackathonHolds12(s, before, was) && HackathonHolds12(s, after, now)
    ensures OptStrFrom(Vals(ms, "submissionRequirements"), was.submissionRequirements, now.submissionRequirements)
    ensures OptStrFrom(Vals(ms, "prizes"), was.prizes, now.prizes)
    ensures OptStrFrom(Vals(ms, "registrationUrl"), was.registrationUrl, now.registrationUrl)
    ensures OptStrFrom(Vals(ms, "registrationLabel"), was.registrationLabel, now.registrationLabel)
  {
    OptStrRead(s, before, ms, after, 12, Opt("submissionRequirements", TStr), was.submissionRequirements,
               now.submissionRequirements);
    OptStrRead(s, before, ms, after, 13, Opt("prizes", TStr), was.prizes, now.prizes);
    OptStrRead(s, before, ms, after, 14, Opt("registrationUrl", TStr), was.registrationUrl, now.registrationUrl);
    OptStrRead(s, before, ms, after, 15, Opt("registrationLabel", TStr), was.registrationLabel,
               now.registrationLabel);
  }

  ghost predicate HackathonHolds(s: Schema, vs: seq<Value>, x: UpdateHackathonDto) {
    && HackathonHolds0(s, vs, x)
    && HackathonHolds4(s, vs, x)
    && HackathonHolds8(s, vs, x)
    && HackathonHolds12(s, vs, x)
  }

  lemma HackathonIsHeld(x: UpdateHackathonDto)
    ensures HackathonHolds(UPDATE_HACKATHON, HackathonFields(x), x)
  {
    HackathonIsHeld0(x);
    HackathonIsHeld4(x);
    HackathonIsHeld8(x);
    HackathonIsHeld12(x);
  }

  lemma HackathonWrites(s: Schema, vs: seq<Value>, ms: seq<Member>, x: UpdateHackathonDto)
    requires OnWire(s, vs, ms) && HackathonHolds(s, vs, x)
    ensures HackathonWritten(x, ms)
  {
    HackathonWrites0(s, vs, ms, x);
    HackathonWrites4(s, vs, ms, x);
    HackathonWrites8(s, vs, ms, x);
    HackathonWrites12(s, vs, ms, x);
  }

  lemma HackathonReads(s: Schema, before: seq<Value>, ms: seq<Member>, after: seq<Value>,
                       was: UpdateHackathonDto, now: UpdateHackathonDto)
    requires FromWire(s, before, ms, after) && HackathonHolds(s, before, was) && HackathonHolds(s, after, now)
    ensures HackathonIsRead(was, ms, now)
  {
    HackathonReads0(s, before, ms, after, was, now);
    HackathonReads4(s, before, ms, after, was, now);
    HackathonReads8(s, before, ms, after, was, now);
    HackathonReads12(s, before, ms, after, was, now);
  }

  lemma HackathonEncoded(x: UpdateHackathonDto, j: Json)
    requires EncodesHackathon(x, j)
    ensures j.JObj? && OnWire(UPDATE_HACKATHON, HackathonFields(x), j.members)
  {
    UpdateHackathonNames();
  }

  /** On the wire, each key carries its own Go field. */
  lemma HackathonOnWire(x: UpdateHackathonDto, j: Json)
    requires EncodesHackathon(x, j)
    ensures j.JObj? && HackathonWritten(x, j.members)
  {
    HackathonEncoded(x, j);
    HackathonIsHeld(x);
    HackathonWrites(UPDATE_HACKATHON, HackathonFields(x), j.members, x);
  }

  /** From the wire, each Go field is set by its own key. */
  lemma HackathonFromWire(was: UpdateHackathonDto, ms: seq<Member>, now: UpdateHackathonDto)
    requires DecodeObject(UPDATE_HACKATHON, HackathonFields(was), ms) == Ok(HackathonFields(now))
    ensures HackathonIsRead(was, ms, now)
  {
    UpdateHackathonNames();
    HackathonIsHeld(was);
    HackathonIsHeld(now);
    HackathonReads(UPDATE_HACKATHON, HackathonFields(was), ms, HackathonFields(now), was, now);
  }

  /** Whatever is decoded into such a struct is again such a struct. */
  lemma HackathonDecoded(was: UpdateHackathonDto, ms: seq<Member>) returns (now: UpdateHackathonDto)
    requires DecodeObject(UPDATE_HACKATHON, HackathonFields(was), ms).Ok?
    ensures DecodeObject(UPDATE_HACKATHON, HackathonFields(was), ms) == Ok(HackathonFields(now))
  {
    UpdateHackathonWf();
    HackathonHasType(was);
    DecodedFieldsHaveType(UPDATE_HACKATHON, HackathonFields(was), ms);
    HackathonRightInverse();
    now := HackathonOf(DecodeObject(UPDATE_HACKATHON, HackathonFields(was), ms).value);
  }

  // ---- UpdateBadgeDto -------------------------------------------------------------------

  /** j is a JSON value Encode may write for x. */
  ghost predicate EncodesBadge(x: UpdateBadgeDto, j: Json) {
    && HasType(TStruct(UPDATE_BADGE), VStruct(BadgeFields(x)))
    && IsEncoding(TStruct(UPDATE_BADGE), VStruct(BadgeFields(x)), j)
  }

  /** What stands under each key, given the Go fields. */
  ghost predicate BadgeWritten(x: UpdateBadgeDto, ms: seq<Member>) {
    && Vals(ms, "code") == OptStrJson(x.code)
    && Vals(ms, "name") == OptStrJson(x.name)
    && Vals(ms, "description") == OptStrJson(x.description)
    && Vals(ms, "icon") == OptStrJson(x.icon)
    && Vals(ms, "category") == OptStrJson(x.category)
    && Vals(ms, "criteriaType") == OptStrJson(x.criteriaType)
    && Vals(ms, "criteriaValue") == OptNumJson(x.criteriaValue)
    && Vals(ms, "points") == OptNumJson(x.points)
    && Vals(ms, "isActive") == OptBoolJson(x.isActive)
    && Vals(ms, "orderIndex") == OptNumJson(x.orderIndex)
  }

  /** What each Go field holds, given the keys and the receiver before. */
  ghost predicate BadgeIsRead(was: UpdateBadgeDto, ms: seq<Member>, now: UpdateBadgeDto) {
    && OptStrFrom(Vals(ms, "code"), was.code, now.code)
    && OptStrFrom(Vals(ms, "name"), was.name, now.name)
    && OptStrFrom(Vals(ms, "description"), was.description, now.description)
    && OptStrFrom(Vals(ms, "icon"), was.icon, now.icon)
    && OptStrFrom(Vals(ms, "category"), was.category, now.category)
    && OptStrFrom(Vals(ms, "criteriaType"), was.criteriaType, now.criteriaType)
    && OptNumFrom(Vals(ms, "criteriaValue"), was.criteriaValue, now.criteriaValue)
    && OptNumFrom(Vals(ms, "points"), was.points, now.points)
    && OptBoolFrom(Vals(ms, "isActive"), was.isActive, now.isActive)
    && OptNumFrom(Vals(ms, "orderIndex"), was.orderIndex, now.orderIndex)
  }

  ghost predicate BadgeHolds0(s: Schema, vs: seq<Value>, x: UpdateBadgeDto) {
    && Holds(s, vs, 0, Opt("code", TStr), OptS(x.code))
    && Holds(s, vs, 1, Opt("name", TStr), OptS(x.name))
    && Holds(s, vs, 2, Opt("description", TStr), OptS(x.description))
    && Holds(s, vs, 3, Opt("icon", TStr), OptS(x.icon))
  }

  lemma BadgeIsHeld0(x: UpdateBadgeDto)
    ensures BadgeHolds0(UPDATE_BADGE, BadgeFields(x), x)
  {
  }

  lemma BadgeWrites0(s: Schema, vs: seq<Value>, ms: seq<Member>, x: UpdateBadgeDto)
    requires OnWire(s, vs, ms) && BadgeHolds0(s, vs, x)
    ensures Vals(ms, "code") == OptStrJson(x.code)
    ensures Vals(ms, "name") == OptStrJson(x.name)
    ensures Vals(ms, "description") == OptStrJson(x.description)
    ensures Vals(ms, "icon") == OptStrJson(x.icon)
  {
    OptStrWritten(s, vs, ms, 0, Opt("code", TStr), x.code);
    OptStrWritten(s, vs, ms, 1, Opt("name", TStr), x.name);
    OptStrWritten(s, vs, ms, 2, Opt("description", TStr), x.description);
    OptStrWritten(s, vs, ms, 3, Opt("icon", TStr), x.icon);
  }

  lemma BadgeReads0(s: Schema, before: seq<Value>, ms: seq<Member>, after: seq<Value>,
                    was: UpdateBadgeDto, now: UpdateBadgeDto)
    requires FromWire(s, before, ms, after)
    requires BadgeHolds0(s, before, was) && BadgeHolds0(s, after, now)
    ensures OptStrFrom(Vals(ms, "code"), was.code, now.code)
    ensures OptStrFrom(Vals(ms, "name"), was.name, now.name)
    ensures OptStrFrom(Vals(ms, "description"), was.description, now.description)
    ensures OptStrFrom(Vals(ms, "icon"), was.icon, now.icon)
  {
    OptStrRead(s, before, ms, after, 0, Opt("code", TStr), was.code, now.code);
    OptStrRead(s, before, ms, after, 1, Opt("name", TStr), was.name, now.name);
    OptStrRead(s, before, ms, after, 2, Opt("description", TStr), was.description, now.description);
    OptStrRead(s, before, ms, after, 3, Opt("icon", TStr), was.icon, now.icon);
  }

  ghost predicate BadgeHolds4(s: Schema, vs: seq<Value>, x: UpdateBadgeDto) {
    && Holds(s, vs, 4, Opt("category", TStr), OptS(x.category))
    && Holds(s, vs, 5, Opt("criteriaType", TStr), OptS(x.criteriaType))
    && Holds(s, vs, 6, Opt("criteriaValue", TNum), OptN(x.criteriaValue))
    && Holds(s, vs, 7, Opt("points", TNum), OptN(x.points))
  }

  lemma BadgeIsHeld4(x: UpdateBadgeDto)
    ensures BadgeHolds4(UPDATE_BADGE, BadgeFields(x), x)
  {
  }

  lemma BadgeWrites4(s: Schema, vs: seq<Value>, ms: seq<Member>, x: UpdateBadgeDto)
    requires OnWire(s, vs, ms) && BadgeHolds4(s, vs, x)
    ensures Vals(ms, "category") == OptStrJson(x.category)
    ensures Vals(ms, "criteriaType") == OptStrJson(x.criteriaType)
    ensures Vals(ms, "criteriaValue") == OptNumJson(x.criteriaValue)
    ensures Vals(ms, "points") == OptNumJson(x.points)
  {
    OptStrWritten(s, vs, ms, 4, Opt("category", TStr), x.category);
    OptStrWritten(s, vs, ms, 5, Opt("criteriaType", TStr), x.criteriaType);
    OptNumWritten(s, vs, ms, 6, Opt("criteriaValue", TNum), x.criteriaValue);
    OptNumWritten(s, vs, ms, 7, Opt("points", TNum), x.points);
  }

  lemma BadgeReads4(s: Schema, before: seq<Value>, ms: seq<Member>, after: seq<Value>,
                    was: UpdateBadgeDto, now: UpdateBadgeDto)
    requires FromWire(s, before, ms, after)
    requires BadgeHolds4(s, before, was) && BadgeHolds4(s, after, now)
    ensures OptStrFrom(Vals(ms, "category"), was.category, now.category)
    ensures OptStrFrom(Vals(ms, "criteriaType"), was.criteriaType, now.criteriaType)
    ensures OptNumFrom(Vals(ms, "criteriaValue"), was.criteriaValue, now.criteriaValue)
    ensures OptNumFrom(Vals(ms, "points"), was.points, now.points)
  {
    OptStrRead(s, before, ms, after, 4, Opt("category", TStr), was.category, now.category);
    OptStrRead(s, before, ms, after, 5, Opt("criteriaType", TStr), was.criteriaType, now.criteriaType);
    OptNumRead(s, before, ms, after, 6, Opt("criteriaValue", TNum), was.criteriaValue, now.criteriaValue);
    OptNumRead(s, before, ms, after, 7, Opt("points", TNum), was.points, now.points);
  }

  ghost predicate BadgeHolds8(s: Schema, vs: seq<Value>, x: UpdateBadgeDto) {
    && Holds(s, vs, 8, Opt("isActive", TBool), OptB(x.isActive))
    && Holds(s, vs, 9, Opt("orderIndex", TNum), OptN(x.orderIndex))
  }

  lemma BadgeIsHeld8(x: UpdateBadgeDto)
    ensures BadgeHolds8(UPDATE_BADGE, BadgeFields(x), x)
  {
  }

  lemma BadgeWrites8(s: Schema, vs: seq<Value>, ms: seq<Member>, x: UpdateBadgeDto)
    requires OnWire(s, vs, ms) && BadgeHolds8(s, vs, x)
    ensures Vals(ms, "isActive") == OptBoolJson(x.isActive)
    ensures Vals(ms, "orderIndex") == OptNumJson(x.orderIndex)
  {
    OptBoolWritten(s, vs, ms, 8, Opt("isActive", TBool), x.isActive);
    OptNumWritten(s, vs, ms, 9, Opt("orderIndex", TNum), x.orderIndex);
  }

  lemma BadgeReads8(s: Schema, before: seq<Value>, ms: seq<Member>, after: seq<Value>,
                    was: UpdateBadgeDto, now: UpdateBadgeDto)
    requires FromWire(s, before, ms, after)
    requires BadgeHolds8(s, before, was) && BadgeHolds8(s, after, now)
    ensures OptBoolFrom(Vals(ms, "isActive"), was.isActive, now.isActive)
    ensures OptNumFrom(Vals(ms, "orderIndex"), was.orderIndex, now.orderIndex)
  {
    OptBoolRead(s, before, ms, after, 8, Opt("isActive", TBool), was.isActive, now.isActive);
    OptNumRead(s, before, ms, after, 9, Opt("orderIndex", TNum), was.orderIndex, now.orderIndex);
  }

  ghost predicate BadgeHolds(s: Schema, vs: seq<Value>, x: UpdateBadgeDto) {
    && BadgeHolds0(s, vs, x)
    && BadgeHolds4(s, vs, x)
    && BadgeHolds8(s, vs, x)
  }

  lemma BadgeIsHeld(x: UpdateBadgeDto)
    ensures BadgeHolds(UPDATE_BADGE, BadgeFields(x), x)
  {
    BadgeIsHeld0(x);
    BadgeIsHeld4(x);
    BadgeIsHeld8(x);
  }

  lemma BadgeWrites(s: Schema, vs: seq<Value>, ms: seq<Member>, x: UpdateBadgeDto)
    requires OnWire(s, vs, ms) && BadgeHolds(s, vs, x)
    ensures BadgeWritten(x, ms)
  {
    BadgeWrites0(s, vs, ms, x);
    BadgeWrites4(s, vs, ms, x);
    BadgeWrites8(s, vs, ms, x);
  }

  lemma BadgeReads(s: Schema, before: seq<Value>, ms: seq<Member>, after: seq<Value>,
                   was: UpdateBadgeDto, now: UpdateBadgeDto)
    requires FromWire(s, before, ms, after) && BadgeHolds(s, before, was) && BadgeHolds(s, after, now)
    ensures BadgeIsRead(was, ms, now)
  {
    BadgeReads0(s, before, ms, after, was, now);
    BadgeReads4(s, before, ms, after, was, now);
    BadgeReads8(s, before, ms, after, was, now);
  }

  lemma BadgeEncoded(x: UpdateBadgeDto, j: Json)
    requires EncodesBadge(x, j)
    ensures j.JObj? && OnWire(UPDATE_BADGE, BadgeFields(x), j.members)
  {
    UpdateBadgeNames();
  }

  /** On the wire, each key carries its own Go field. */
  lemma BadgeOnWire(x: UpdateBadgeDto, j: Json)
    requires EncodesBadge(x, j)
    ensures j.JObj? && BadgeWritten(x, j.members)
  {
    BadgeEncoded(x, j);
    BadgeIsHeld(x);
    BadgeWrites(UPDATE_BADGE, BadgeFields(x), j.members, x);
  }

  /** From the wire, each Go field is set by its own key. */
  lemma BadgeFromWire(was: UpdateBadgeDto, ms: seq<Member>, now: UpdateBadgeDto)
    requires DecodeObject(UPDATE_BADGE, BadgeFields(was), ms) == Ok(BadgeFields(now))
    ensures BadgeIsRead(was, ms, now)
  {
    UpdateBadgeNames();
    BadgeIsHeld(was);
    BadgeIsHeld(now);
    BadgeReads(UPDATE_BADGE, BadgeFields(was), ms, BadgeFields(now), was, now);
  }

  /** Whatever is decoded into such a struct is again such a struct. */
  lemma BadgeDecoded(was: UpdateBadgeDto, ms: seq<Member>) returns (now: UpdateBadgeDto)
    requires DecodeObject(UPDATE_BADGE, BadgeFields(was), ms).Ok?
    ensures DecodeObject(UPDATE_BADGE, BadgeFields(was), ms) == Ok(BadgeFields(now))
  {
    UpdateBadgeWf();
    BadgeHasType(was);
    DecodedFieldsHaveType(UPDATE_BADGE, BadgeFields(was), ms);
    BadgeRightInverse();
    now := BadgeOf(DecodeObject(UPDATE_BADGE, BadgeFields(was), ms).value);
  }

  // ---- CreateLearningEventDto -----------------------------------------------------------

  /** j is a JSON value Encode may write for x. */
  ghost predicate EncodesEvent(x: CreateLearningEventDto, j: Json) {
    && HasType(TStruct(CREATE_EVENT), VStruct(EventFields(x)))
    && IsEncoding(TStruct(CREATE_EVENT), VStruct(EventFields(x)), j)
  }

  /** Decoding j into a fresh struct gives x. */
  ghost predicate DecodesEvent(j: Json, x: CreateLearningEventDto) {
    DecodeVal(TStruct(CREATE_EVENT), j) == Ok(VStruct(EventFields(x)))
  }

  /** What stands under each key, given the Go fields. */
  ghost predicate EventWritten(x: CreateLearningEventDto, ms: seq<Member>) {
    && Vals(ms, "lessonId") == OptStrJson(x.lessonId)
    && Vals(ms, "eventType") == [JStr(x.eventType)]
    && Vals(ms, "positionSec") == OptNumJson(x.positionSec)
    && Vals(ms, "durationMs") == OptNumJson(x.durationMs)
    && OptMapIs(Vals(ms, "metadata"), x.metadata)
  }

  /** What each Go field holds, given the keys and the receiver before. */
  ghost predicate EventIsRead(was: CreateLearningEventDto, ms: seq<Member>, now: CreateLearningEventDto) {
    && OptStrFrom(Vals(ms, "lessonId"), was.lessonId, now.lessonId)
    && LastIs(Vals(ms, "eventType"), JStr(now.eventType))
    && OptNumFrom(Vals(ms, "positionSec"), was.positionSec, now.positionSec)
    && OptNumFrom(Vals(ms, "durationMs"), was.durationMs, now.durationMs)
    && OptMapFrom(Vals(ms, "metadata"), was.metadata, now.metadata)
  }

  ghost predicate EventHolds(s: Schema, vs: seq<Value>, x: CreateLearningEventDto) {
    && Holds(s, vs, 0, Opt("lessonId", TStr), OptS(x.lessonId))
    && Holds(s, vs, 1, Req("eventType", TStr), VStr(x.eventType))
    && Holds(s, vs, 2, Opt("positionSec", TNum), OptN(x.positionSec))
    && Holds(s, vs, 3, Opt("durationMs", TNum), OptN(x.durationMs))
    && Holds(s, vs, 4, Opt("metadata", TMap("CreateLearningEventDtoMetadata")), OptM(x.metadata))
  }

  lemma EventIsHeld(x: CreateLearningEventDto)
    ensures EventHolds(CREATE_EVENT, EventFields(x), x)
  {
  }

  lemma EventWrites(s: Schema, vs: seq<Value>, ms: seq<Member>, x: CreateLearningEventDto)
    requires OnWire(s, vs, ms) && EventHolds(s, vs, x)
    ensures Vals(ms, "lessonId") == OptStrJson(x.lessonId)
    ensures Vals(ms, "eventType") == [JStr(x.eventType)]
    ensures Vals(ms, "positionSec") == OptNumJson(x.positionSec)
    ensures Vals(ms, "durationMs") == OptNumJson(x.durationMs)
    ensures OptMapIs(Vals(ms, "metadata"), x.metadata)
  {
    OptStrWritten(s, vs, ms, 0, Opt("lessonId", TStr), x.lessonId);
    StrWritten(s, vs, ms, 1, Req("eventType", TStr), x.eventType);
    OptNumWritten(s, vs, ms, 2, Opt("positionSec", TNum), x.positionSec);
    OptNumWritten(s, vs, ms, 3, Opt("durationMs", TNum), x.durationMs);
    MapWritten(s, vs, ms, 4, Opt("metadata", TMap("CreateLearningEventDtoMetadata")), x.metadata);
  }

  lemma EventReads(s: Schema, before: seq<Value>, ms: seq<Member>, after: seq<Value>,
                   was: CreateLearningEventDto, now: CreateLearningEventDto)
    requires FromWire(s, before, ms, after)
    requires EventHolds(s, before, was) && EventHolds(s, after, now)
    ensures OptStrFrom(Vals(ms, "lessonId"), was.lessonId, now.lessonId)
    ensures LastIs(Vals(ms, "eventType"), JStr(now.eventType))
    ensures OptNumFrom(Vals(ms, "positionSec"), was.positionSec, now.positionSec)
    ensures OptNumFrom(Vals(ms, "durationMs"), was.durationMs, now.durationMs)
    ensures OptMapFrom(Vals(ms, "metadata"), was.metadata, now.metadata)
  {
    OptStrRead(s, before, ms, after, 0, Opt("lessonId", TStr), was.lessonId, now.lessonId);
    StrRead(s, before, ms, after, 1, Req("eventType", TStr), now.eventType);
    OptNumRead(s, before, ms, after, 2, Opt("positionSec", TNum), was.positionSec, now.positionSec);
    OptNumRead(s, before, ms, after, 3, Opt("durationMs", TNum), was.durationMs, now.durationMs);
    MapRead(s, before, ms, after, 4, Opt("metadata", TMap("CreateLearningEventDtoMetadata")), was.metadata,
            now.metadata);
  }

  lemma EventEncoded(x: CreateLearningEventDto, j: Json)
    requires EncodesEvent(x, j)
    ensures j.JObj? && OnWire(CREATE_EVENT, EventFields(x), j.members)
  {
    CreateEventNames();
  }

  /** On the wire, each key carries its own Go field. */
  lemma EventOnWire(x: CreateLearningEventDto, j: Json)
    requires EncodesEvent(x, j)
    ensures j.JObj? && EventWritten(x, j.members)
  {
    EventEncoded(x, j);
    EventIsHeld(x);
    EventWrites(CREATE_EVENT, EventFields(x), j.members, x);
  }

  /** From the wire, each Go field is set by its own key. */
  lemma EventFromWire(was: CreateLearningEventDto, ms: seq<Member>, now: CreateLearningEventDto)
    requires DecodeObject(CREATE_EVENT, EventFields(was), ms) == Ok(EventFields(now))
    ensures EventIsRead(was, ms, now)
  {
    CreateEventNames();
    EventIsHeld(was);
    EventIsHeld(now);
    EventReads(CREATE_EVENT, EventFields(was), ms, EventFields(now), was, now);
  }

  /** Whatever is decoded into such a struct is again such a struct. */
  lemma EventDecoded(was: CreateLearningEventDto, ms: seq<Member>) returns (now: CreateLearningEventDto)
    requires DecodeObject(CREATE_EVENT, EventFields(was), ms).Ok?
    ensures DecodeObject(CREATE_EVENT, EventFields(was), ms) == Ok(EventFields(now))
  {
    CreateEventWf();
    EventHasType(was);
    DecodedFieldsHaveType(CREATE_EVENT, EventFields(was), ms);
    EventRightInverse();
    now := EventOf(DecodeObject(CREATE_EVENT, EventFields(was), ms).value);
  }

  // ---- BatchCreateLearningEventDto ------------------------------------------------------

  /** j is a JSON value Encode may write for x. */
  ghost predicate EncodesBatch(x: BatchCreateLearningEventDto, j: Json) {
    && HasType(TStruct(BATCH_CREATE_EVENTS), VStruct(BatchFields(x)))
    && IsEncoding(TStruct(BATCH_CREATE_EVENTS), VStruct(BatchFields(x)), j)
  }

  /** What stands under each key, given the Go fields. */
  ghost predicate BatchWritten(x: BatchCreateLearningEventDto, ms: seq<Member>) {
    && ListIs(Vals(ms, "events"), x.events, EncodesEvent)
  }

  /** What each Go field holds, given the keys and the receiver before. */
  ghost predicate BatchIsRead(was: BatchCreateLearningEventDto, ms: seq<Member>, now: BatchCreateLearningEventDto) {
    && ListReads(Vals(ms, "events"), now.events, DecodesEvent)
  }

  ghost predicate BatchHolds(s: Schema, vs: seq<Value>, x: BatchCreateLearningEventDto) {
    && Holds(s, vs, 0, Req("events", TSlice(TStruct(CREATE_EVENT))), SliceOf(x.events, EventFields))
  }

  lemma BatchIsHeld(x: BatchCreateLearningEventDto)
    ensures BatchHolds(BATCH_CREATE_EVENTS, BatchFields(x), x)
  {
  }

  lemma BatchWrites(s: Schema, vs: seq<Value>, ms: seq<Member>, x: BatchCreateLearningEventDto)
    requires OnWire(s, vs, ms) && BatchHolds(s, vs, x)
    ensures ListIs(Vals(ms, "events"), x.events, EncodesEvent)
  {
    ReqListWritten(s, vs, ms, 0, Req("events", TSlice(TStruct(CREATE_EVENT))), CREATE_EVENT, EventFields, x.events,
                   EncodesEvent);
  }

  lemma BatchReads(s: Schema, before: seq<Value>, ms: seq<Member>, after: seq<Value>,
                   was: BatchCreateLearningEventDto, now: BatchCreateLearningEventDto)
    requires FromWire(s, before, ms, after)
    requires BatchHolds(s, before, was) && BatchHolds(s, after, now)
    ensures ListReads(Vals(ms, "events"), now.events, DecodesEvent)
  {
    ReqListRead(s, before, ms, after, 0, Req("events", TSlice(TStruct(CREATE_EVENT))), CREATE_EVENT, EventFields,
                now.events, DecodesEvent);
  }

  lemma BatchEncoded(x: BatchCreateLearningEventDto, j: Json)
    requires EncodesBatch(x, j)
    ensures j.JObj? && OnWire(BATCH_CREATE_EVENTS, BatchFields(x), j.members)
  {
    BatchCreateEventsNames();
  }

  /** On the wire, each key carries its own Go field. */
  lemma BatchOnWire(x: BatchCreateLearningEventDto, j: Json)
    requires EncodesBatch(x, j)
    ensures j.JObj? && BatchWritten(x, j.members)
  {
    BatchEncoded(x, j);
    BatchIsHeld(x);
    BatchWrites(BATCH_CREATE_EVENTS, BatchFields(x), j.members, x);
  }

  /** From the wire, each Go field is set by its own key. */
  lemma BatchFromWire(was: BatchCreateLearningEventDto, ms: seq<Member>, now: BatchCreateLearningEventDto)
    requires DecodeObject(BATCH_CREATE_EVENTS, BatchFields(was), ms) == Ok(BatchFields(now))
    ensures BatchIsRead(was, ms, now)
  {
    BatchCreateEventsNames();
    BatchIsHeld(was);
    BatchIsHeld(now);
    BatchReads(BATCH_CREATE_EVENTS, BatchFields(was), ms, BatchFields(now), was, now);
  }

  /** Whatever is decoded into such a struct is again such a struct. */
  lemma BatchDecoded(was: BatchCreateLearningEventDto, ms: seq<Member>) returns (now: BatchCreateLearningEventDto)
    requires DecodeObject(BATCH_CREATE_EVENTS, BatchFields(was), ms).Ok?
    ensures DecodeObject(BATCH_CREATE_EVENTS, BatchFields(was), ms) == Ok(BatchFields(now))
  {
    BatchCreateEventsWf();
    BatchHasType(was);
    DecodedFieldsHaveType(BATCH_CREATE_EVENTS, BatchFields(was), ms);
    BatchRightInverse();
    now := BatchOf(DecodeObject(BATCH_CREATE_EVENTS, BatchFields(was), ms).value);
  }
}
