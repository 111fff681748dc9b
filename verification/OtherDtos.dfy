/** The instructor, hackathon, badge and event DTOs as the Go structs they are. */
module OtherDtos {
  import opened Schema
  import opened Dtos
  import opened GoStructs
  import opened WireKeys

  // ---- InstructorProfile ----------------------------------------------------------------

  datatype InstructorProfile = InstructorProfile(
    slug: Optional<string>, nameEn: Optional<string>, title: Optional<string>, titleEn: Optional<string>,
    headline: Optional<string>, headlineEn: Optional<string>, bio: Optional<string>, bioEn: Optional<string>,
    avatarUrl: Optional<string>, company: Optional<string>, yearsOfExperience: Optional<real>,
    linkedinUrl: Optional<string>, githubUrl: Optional<string>, twitterUrl: Optional<string>,
    websiteUrl: Optional<string>, contactEmail: Optional<string>, notes: Optional<string>,
    orderIndex: Optional<real>, published: Optional<bool>, expertiseIds: List<List<string>>)

  function ProfileValue(x: InstructorProfile, nm: Value, i: nat): Value
    requires i < 21
  {
    if i == 1 then nm
    else
      match i
      case 0 => OptS(x.slug)
      case 2 => OptS(x.nameEn)
      case 3 => OptS(x.title)
      case 4 => OptS(x.titleEn)
      case 5 => OptS(x.headline)
      case 6 => OptS(x.headlineEn)
      case 7 => OptS(x.bio)
      case 8 => OptS(x.bioEn)
      case 9 => OptS(x.avatarUrl)
      case 10 => OptS(x.company)
      case 11 => OptN(x.yearsOfExperience)
      case 12 => OptS(x.linkedinUrl)
      case 13 => OptS(x.githubUrl)
      case 14 => OptS(x.twitterUrl)
      case 15 => OptS(x.websiteUrl)
      case 16 => OptS(x.contactEmail)
      case 17 => OptS(x.notes)
      case 18 => OptN(x.orderIndex)
      case 19 => OptB(x.published)
      case _ => ListsOf(x.expertiseIds)
  }

  function ProfileFields(x: InstructorProfile, nm: Value): seq<Value> {
    seq(21, i requires 0 <= i < 21 => ProfileValue(x, nm, i))
  }

  function ProfileOf(vs: seq<Value>): InstructorProfile {
    InstructorProfile(OptStrOf(At(vs, 0)), OptStrOf(At(vs, 2)), OptStrOf(At(vs, 3)), OptStrOf(At(vs, 4)),
      OptStrOf(At(vs, 5)), OptStrOf(At(vs, 6)), OptStrOf(At(vs, 7)), OptStrOf(At(vs, 8)), OptStrOf(At(vs, 9)),
      OptStrOf(At(vs, 10)), OptNumOf(At(vs, 11)), OptStrOf(At(vs, 12)), OptStrOf(At(vs, 13)), OptStrOf(At(vs, 14)),
      OptStrOf(At(vs, 15)), OptStrOf(At(vs, 16)), OptStrOf(At(vs, 17)), OptNumOf(At(vs, 18)), OptBoolOf(At(vs, 19)),
      ListsIn(At(vs, 20)))
  }

  ghost predicate ProfileVals0(vs: seq<Value>, x: InstructorProfile, nm: Value) {
    && |vs| == 21
    && vs[0] == OptS(x.slug)
    && vs[1] == nm
    && vs[2] == OptS(x.nameEn)
    && vs[3] == OptS(x.title)
    && vs[4] == OptS(x.titleEn)
  }

  ghost predicate ProfileVals5(vs: seq<Value>, x: InstructorProfile, nm: Value) {
    && |vs| == 21
    && vs[5] == OptS(x.headline)
    && vs[6] == OptS(x.headlineEn)
    && vs[7] == OptS(x.bio)
    && vs[8] == OptS(x.bioEn)
    && vs[9] == OptS(x.avatarUrl)
  }

  ghost predicate ProfileVals10(vs: seq<Value>, x: InstructorProfile, nm: Value) {
    && |vs| == 21
    && vs[10] == OptS(x.company)
    && vs[11] == OptN(x.yearsOfExperience)
    && vs[12] == OptS(x.linkedinUrl)
    && vs[13] == OptS(x.githubUrl)
    && vs[14] == OptS(x.twitterUrl)
  }

  ghost predicate ProfileVals15(vs: seq<Value>, x: InstructorProfile, nm: Value) {
    && |vs| == 21
    && vs[15] == OptS(x.websiteUrl)
    && vs[16] == OptS(x.contactEmail)
    && vs[17] == OptS(x.notes)
    && vs[18] == OptN(x.orderIndex)
    && vs[19] == OptB(x.published)
  }

  ghost predicate ProfileVals20(vs: seq<Value>, x: InstructorProfile, nm: Value) {
    && |vs| == 21
    && vs[20] == ListsOf(x.expertiseIds)
  }

  ghost predicate ProfileVals(vs: seq<Value>, x: InstructorProfile, nm: Value) {
    && ProfileVals0(vs, x, nm)
    && ProfileVals5(vs, x, nm)
    && ProfileVals10(vs, x, nm)
    && ProfileVals15(vs, x, nm)
    && ProfileVals20(vs, x, nm)
  }

  lemma ProfileHasVals0(x: InstructorProfile, nm: Value)
    ensures ProfileVals0(ProfileFields(x, nm), x, nm)
  {
  }

  lemma ProfileHasVals5(x: InstructorProfile, nm: Value)
    ensures ProfileVals5(ProfileFields(x, nm), x, nm)
  {
  }

  lemma ProfileHasVals10(x: InstructorProfile, nm: Value)
    ensures ProfileVals10(ProfileFields(x, nm), x, nm)
  {
  }

  lemma ProfileHasVals15(x: InstructorProfile, nm: Value)
    ensures ProfileVals15(ProfileFields(x, nm), x, nm)
  {
  }

  lemma ProfileHasVals20(x: InstructorProfile, nm: Value)
    ensures ProfileVals20(ProfileFields(x, nm), x, nm)
  {
  }

  lemma ProfileHasVals(x: InstructorProfile, nm: Value)
    ensures ProfileVals(ProfileFields(x, nm), x, nm)
  {
    ProfileHasVals0(x, nm);
    ProfileHasVals5(x, nm);
    ProfileHasVals10(x, nm);
    ProfileHasVals15(x, nm);
    ProfileHasVals20(x, nm);
  }

  ghost predicate ProfileTypes0(s: Schema, nmTy: Ty) {
    && |s.fields| == 21
    && s.fields[0].ty == TOpt(TStr)
    && s.fields[1].ty == nmTy
    && s.fields[2].ty == TOpt(TStr)
    && s.fields[3].ty == TOpt(TStr)
    && s.fields[4].ty == TOpt(TStr)
  }

  ghost predicate ProfileTypes5(s: Schema, nmTy: Ty) {
    && |s.fields| == 21
    && s.fields[5].ty == TOpt(TStr)
    && s.fields[6].ty == TOpt(TStr)
    && s.fields[7].ty == TOpt(TStr)
    && s.fields[8].ty == TOpt(TStr)
    && s.fields[9].ty == TOpt(TStr)
  }

  ghost predicate ProfileTypes10(s: Schema, nmTy: Ty) {
    && |s.fields| == 21
    && s.fields[10].ty == TOpt(TStr)
    && s.fields[11].ty == TOpt(TNum)
    && s.fields[12].ty == TOpt(TStr)
    && s.fields[13].ty == TOpt(TStr)
    && s.fields[14].ty == TOpt(TStr)
  }

  ghost predicate ProfileTypes15(s: Schema, nmTy: Ty) {
    && |s.fields| == 21
    && s.fields[15].ty == TOpt(TStr)
    && s.fields[16].ty == TOpt(TStr)
    && s.fields[17].ty == TOpt(TStr)
    && s.fields[18].ty == TOpt(TNum)
    && s.fields[19].ty == TOpt(TBool)
  }

  ghost predicate ProfileTypes20(s: Schema, nmTy: Ty) {
    && |s.fields| == 21
    && s.fields[20].ty == TSlice(TSlice(TStr))
  }

  ghost predicate ProfileTypes(s: Schema, nmTy: Ty) {
    && ProfileTypes0(s, nmTy)
    && ProfileTypes5(s, nmTy)
    && ProfileTypes10(s, nmTy)
    && ProfileTypes15(s, nmTy)
    && ProfileTypes20(s, nmTy)
  }

  lemma ProfileHasTypes(s: Schema, name: Field)
    requires s.fields == InstructorFields(name)
    ensures ProfileTypes(s, name.ty)
  {
  }

  ghost predicate ProfileFrom0(vs: seq<Value>, x: InstructorProfile) {
    && x.slug == OptStrOf(At(vs, 0))
    && x.nameEn == OptStrOf(At(vs, 2))
    && x.title == OptStrOf(At(vs, 3))
    && x.titleEn == OptStrOf(At(vs, 4))
  }

  lemma ProfileIsFrom0(vs: seq<Value>)
    ensures ProfileFrom0(vs, ProfileOf(vs))
  {
  }

  ghost predicate ProfileFrom5(vs: seq<Value>, x: InstructorProfile) {
    && x.headline == OptStrOf(At(vs, 5))
    && x.headlineEn == OptStrOf(At(vs, 6))
    && x.bio == OptStrOf(At(vs, 7))
    && x.bioEn == OptStrOf(At(vs, 8))
    && x.avatarUrl == OptStrOf(At(vs, 9))
  }

  lemma ProfileIsFrom5(vs: seq<Value>)
    ensures ProfileFrom5(vs, ProfileOf(vs))
  {
  }

  ghost predicate ProfileFrom10(vs: seq<Value>, x: InstructorProfile) {
    && x.company == OptStrOf(At(vs, 10))
    && x.yearsOfExperience == OptNumOf(At(vs, 11))
    && x.linkedinUrl == OptStrOf(At(vs, 12))
    && x.githubUrl == OptStrOf(At(vs, 13))
    && x.twitterUrl == OptStrOf(At(vs, 14))
  }

  lemma ProfileIsFrom10(vs: seq<Value>)
    ensures ProfileFrom10(vs, ProfileOf(vs))
  {
  }

  ghost predicate ProfileFrom15(vs: seq<Value>, x: InstructorProfile) {
    && x.websiteUrl == OptStrOf(At(vs, 15))
    && x.contactEmail == OptStrOf(At(vs, 16))
    && x.notes == OptStrOf(At(vs, 17))
    && x.orderIndex == OptNumOf(At(vs, 18))
    && x.published == OptBoolOf(At(vs, 19))
  }

  lemma ProfileIsFrom15(vs: seq<Value>)
    ensures ProfileFrom15(vs, ProfileOf(vs))
  {
  }

  ghost predicate ProfileFrom20(vs: seq<Value>, x: InstructorProfile) {
    && x.expertiseIds == ListsIn(At(vs, 20))
  }

  lemma ProfileIsFrom20(vs: seq<Value>)
    ensures ProfileFrom20(vs, ProfileOf(vs))
  {
  }

  lemma ProfileBack0(s: Schema, vs: seq<Value>, ws: seq<Value>, x: InstructorProfile, nmTy: Ty, nm: Value)
    requires AllTyped(s, vs) && ProfileTypes0(s, nmTy) && ProfileVals0(ws, x, nm) && ProfileFrom0(vs, x)
    requires |vs| == 21 && vs[1] == nm
    ensures |vs| == |ws| && forall i :: 0 <= i < 5 ==> ws[i] == vs[i]
  {
    OptStrBack(s, vs, 0);
    OptStrBack(s, vs, 2);
    OptStrBack(s, vs, 3);
    OptStrBack(s, vs, 4);
  }

  lemma ProfileBack5(s: Schema, vs: seq<Value>, ws: seq<Value>, x: InstructorProfile, nmTy: Ty, nm: Value)
    requires AllTyped(s, vs) && ProfileTypes5(s, nmTy) && ProfileVals5(ws, x, nm) && ProfileFrom5(vs, x)
    requires |vs| == 21 && vs[1] == nm
    ensures |vs| == |ws| && forall i :: 5 <= i < 10 ==> ws[i] == vs[i]
  {
    OptStrBack(s, vs, 5);
    OptStrBack(s, vs, 6);
    OptStrBack(s, vs, 7);
    OptStrBack(s, vs, 8);
    OptStrBack(s, vs, 9);
  }

  lemma ProfileBack10(s: Schema, vs: seq<Value>, ws: seq<Value>, x: InstructorProfile, nmTy: Ty, nm: Value)
    requires AllTyped(s, vs) && ProfileTypes10(s, nmTy) && ProfileVals10(ws, x, nm) && ProfileFrom10(vs, x)
    requires |vs| == 21 && vs[1] == nm
    ensures |vs| == |ws| && forall i :: 10 <= i < 15 ==> ws[i] == vs[i]
  {
    OptStrBack(s, vs, 10);
    OptNumBack(s, vs, 11);
    OptStrBack(s, vs, 12);
    OptStrBack(s, vs, 13);
    OptStrBack(s, vs, 14);
  }

  lemma ProfileBack15(s: Schema, vs: seq<Value>, ws: seq<Value>, x: InstructorProfile, nmTy: Ty, nm: Value)
    requires AllTyped(s, vs) && ProfileTypes15(s, nmTy) && ProfileVals15(ws, x, nm) && ProfileFrom15(vs, x)
    requires |vs| == 21 && vs[1] == nm
    ensures |vs| == |ws| && forall i :: 15 <= i < 20 ==> ws[i] == vs[i]
  {
    OptStrBack(s, vs, 15);
    OptStrBack(s, vs, 16);
    OptStrBack(s, vs, 17);
    OptNumBack(s, vs, 18);
    OptBoolBack(s, vs, 19);
  }

  lemma ProfileBack20(s: Schema, vs: seq<Value>, ws: seq<Value>, x: InstructorProfile, nmTy: Ty, nm: Value)
    requires AllTyped(s, vs) && ProfileTypes20(s, nmTy) && ProfileVals20(ws, x, nm) && ProfileFrom20(vs, x)
    requires |vs| == 21 && vs[1] == nm
    ensures |vs| == |ws| && forall i :: 20 <= i < 21 ==> ws[i] == vs[i]
  {
    ListsBack(s, vs, 20);
  }

  /** A well-typed struct, taken apart and put together again. */
  lemma ProfileBack(s: Schema, vs: seq<Value>, ws: seq<Value>, x: InstructorProfile, nmTy: Ty, nm: Value)
    requires AllTyped(s, vs) && ProfileTypes(s, nmTy) && ProfileVals(ws, x, nm) && x == ProfileOf(vs)
    requires |vs| == 21 && vs[1] == nm
    ensures ws == vs
  {
    ProfileIsFrom0(vs);
    ProfileBack0(s, vs, ws, x, nmTy, nm);
    ProfileIsFrom5(vs);
    ProfileBack5(s, vs, ws, x, nmTy, nm);
    ProfileIsFrom10(vs);
    ProfileBack10(s, vs, ws, x, nmTy, nm);
    ProfileIsFrom15(vs);
    ProfileBack15(s, vs, ws, x, nmTy, nm);
    ProfileIsFrom20(vs);
    ProfileBack20(s, vs, ws, x, nmTy, nm);
  }

  lemma ProfileTyped0(s: Schema, vs: seq<Value>, x: InstructorProfile, nmTy: Ty, nm: Value)
    requires ProfileTypes0(s, nmTy) && ProfileVals0(vs, x, nm)
    requires HasType(nmTy, nm)
    ensures forall i :: 0 <= i < 5 ==> HasType(s.fields[i].ty, vs[i])
  {
    assert HasType(s.fields[0].ty, vs[0]) && HasType(s.fields[1].ty, vs[1]) && HasType(s.fields[2].ty, vs[2]);
    assert HasType(s.fields[3].ty, vs[3]) && HasType(s.fields[4].ty, vs[4]);
  }

  lemma ProfileTyped5(s: Schema, vs: seq<Value>, x: InstructorProfile, nmTy: Ty, nm: Value)
    requires ProfileTypes5(s, nmTy) && ProfileVals5(vs, x, nm)
    requires HasType(nmTy, nm)
    ensures forall i :: 5 <= i < 10 ==> HasType(s.fields[i].ty, vs[i])
  {
    assert HasType(s.fields[5].ty, vs[5]) && HasType(s.fields[6].ty, vs[6]) && HasType(s.fields[7].ty, vs[7]);
    assert HasType(s.fields[8].ty, vs[8]) && HasType(s.fields[9].ty, vs[9]);
  }

  lemma ProfileTyped10(s: Schema, vs: seq<Value>, x: InstructorProfile, nmTy: Ty, nm: Value)
    requires ProfileTypes10(s, nmTy) && ProfileVals10(vs, x, nm)
    requires HasType(nmTy, nm)
    ensures forall i :: 10 <= i < 15 ==> HasType(s.fields[i].ty, vs[i])
  {
    assert HasType(s.fields[10].ty, vs[10]) && HasType(s.fields[11].ty, vs[11]) && HasType(s.fields[12].ty, vs[12]);
    assert HasType(s.fields[13].ty, vs[13]) && HasType(s.fields[14].ty, vs[14]);
  }

  lemma ProfileTyped15(s: Schema, vs: seq<Value>, x: InstructorProfile, nmTy: Ty, nm: Value)
    requires ProfileTypes15(s, nmTy) && ProfileVals15(vs, x, nm)
    requires HasType(nmTy, nm)
    ensures forall i :: 15 <= i < 20 ==> HasType(s.fields[i].ty, vs[i])
  {
    assert HasType(s.fields[15].ty, vs[15]) && HasType(s.fields[16].ty, vs[16]) && HasType(s.fields[17].ty, vs[17]);
    assert HasType(s.fields[18].ty, vs[18]) && HasType(s.fields[19].ty, vs[19]);
  }

  lemma ProfileTyped20(s: Schema, vs: seq<Value>, x: InstructorProfile, nmTy: Ty, nm: Value)
    requires ProfileTypes20(s, nmTy) && ProfileVals20(vs, x, nm)
    requires HasType(nmTy, nm)
    ensures forall i :: 20 <= i < 21 ==> HasType(s.fields[i].ty, vs[i])
  {
    ListsHaveType(x.expertiseIds);
    assert HasType(s.fields[20].ty, vs[20]);
  }

  lemma ProfileTyped(s: Schema, vs: seq<Value>, x: InstructorProfile, nmTy: Ty, nm: Value)
    requires ProfileTypes(s, nmTy) && ProfileVals(vs, x, nm)
    requires HasType(nmTy, nm)
    ensures FieldsHaveType(s, vs)
  {
    ProfileTyped0(s, vs, x, nmTy, nm);
    ProfileTyped5(s, vs, x, nmTy, nm);
    ProfileTyped10(s, vs, x, nmTy, nm);
    ProfileTyped15(s, vs, x, nmTy, nm);
    ProfileTyped20(s, vs, x, nmTy, nm);
  }

  // ---- UpdateHackathonDto ---------------------------------------------------------------

  datatype UpdateHackathonDto = UpdateHackathonDto(
    title: string, description: string, bannerUrl: Optional<string>, status: Optional<string>, startDate: string,
    endDate: string, submissionDeadline: Optional<string>, registerDeadline: Optional<string>,
    minTeamSize: Optional<real>, maxTeamSize: Optional<real>, location: Optional<string>, rules: Optional<string>,
    submissionRequirements: Optional<string>, prizes: Optional<string>, registrationUrl: Optional<string>,
    registrationLabel: Optional<string>)

  function HackathonValue(x: UpdateHackathonDto, i: nat): Value
    requires i < 16
  {
    match i
    case 0 => VStr(x.title)
    case 1 => VStr(x.description)
    case 2 => OptS(x.bannerUrl)
    case 3 => OptS(x.status)
    case 4 => VStr(x.startDate)
    case 5 => VStr(x.endDate)
    case 6 => OptS(x.submissionDeadline)
    case 7 => OptS(x.registerDeadline)
    case 8 => OptN(x.minTeamSize)
    case 9 => OptN(x.maxTeamSize)
    case 10 => OptS(x.location)
    case 11 => OptS(x.rules)
    case 12 => OptS(x.submissionRequirements)
    case 13 => OptS(x.prizes)
    case 14 => OptS(x.registrationUrl)
    case _ => OptS(x.registrationLabel)
  }

  function HackathonFields(x: UpdateHackathonDto): seq<Value> {
    seq(16, i requires 0 <= i < 16 => HackathonValue(x, i))
  }

  function HackathonOf(vs: seq<Value>): UpdateHackathonDto {
    UpdateHackathonDto(StrOf(At(vs, 0)), StrOf(At(vs, 1)), OptStrOf(At(vs, 2)), OptStrOf(At(vs, 3)),
      StrOf(At(vs, 4)), StrOf(At(vs, 5)), OptStrOf(At(vs, 6)), OptStrOf(At(vs, 7)), OptNumOf(At(vs, 8)),
      OptNumOf(At(vs, 9)), OptStrOf(At(vs, 10)), OptStrOf(At(vs, 11)), OptStrOf(At(vs, 12)), OptStrOf(At(vs, 13)),
      OptStrOf(At(vs, 14)), OptStrOf(At(vs, 15)))
  }

  ghost predicate HackathonVals0(vs: seq<Value>, x: UpdateHackathonDto) {
    && |vs| == 16
    && vs[0] == VStr(x.title)
    && vs[1] == VStr(x.description)
    && vs[2] == OptS(x.bannerUrl)
    && vs[3] == OptS(x.status)
    && vs[4] == VStr(x.startDate)
    && vs[5] == VStr(x.endDate)
    && vs[6] == OptS(x.submissionDeadline)
  }

  ghost predicate HackathonVals7(vs: seq<Value>, x: UpdateHackathonDto) {
    && |vs| == 16
    && vs[7] == OptS(x.registerDeadline)
    && vs[8] == OptN(x.minTeamSize)
    && vs[9] == OptN(x.maxTeamSize)
    && vs[10] == OptS(x.location)
    && vs[11] == OptS(x.rules)
    && vs[12] == OptS(x.submissionRequirements)
    && vs[13] == OptS(x.prizes)
  }

  ghost predicate HackathonVals14(vs: seq<Value>, x: UpdateHackathonDto) {
    && |vs| == 16
    && vs[14] == OptS(x.registrationUrl)
    && vs[15] == OptS(x.registrationLabel)
  }

  ghost predicate HackathonVals(vs: seq<Value>, x: UpdateHackathonDto) {
    && HackathonVals0(vs, x)
    && HackathonVals7(vs, x)
    && HackathonVals14(vs, x)
  }

  lemma HackathonHasVals0(x: UpdateHackathonDto)
    ensures HackathonVals0(HackathonFields(x), x)
  {
  }

  lemma HackathonHasVals7(x: UpdateHackathonDto)
    ensures HackathonVals7(HackathonFields(x), x)
  {
  }

  lemma HackathonHasVals14(x: UpdateHackathonDto)
    ensures HackathonVals14(HackathonFields(x), x)
  {
  }

  lemma HackathonHasVals(x: UpdateHackathonDto)
    ensures HackathonVals(HackathonFields(x), x)
  {
    HackathonHasVals0(x);
    HackathonHasVals7(x);
    HackathonHasVals14(x);
  }

  ghost predicate HackathonTypes0(s: Schema) {
    && |s.fields| == 16
    && s.fields[0].ty == TStr
    && s.fields[1].ty == TStr
    && s.fields[2].ty == TOpt(TStr)
    && s.fields[3].ty == TOpt(TStr)
    && s.fields[4].ty == TStr
    && s.fields[5].ty == TStr
    && s.fields[6].ty == TOpt(TStr)
  }

  ghost predicate HackathonTypes7(s: Schema) {
    && |s.fields| == 16
    && s.fields[7].ty == TOpt(TStr)
    && s.fields[8].ty == TOpt(TNum)
    && s.fields[9].ty == TOpt(TNum)
    && s.fields[10].ty == TOpt(TStr)
    && s.fields[11].ty == TOpt(TStr)
    && s.fields[12].ty == TOpt(TStr)
    && s.fields[13].ty == TOpt(TStr)
  }

  ghost predicate HackathonTypes14(s: Schema) {
    && |s.fields| == 16
    && s.fields[14].ty == TOpt(TStr)
    && s.fields[15].ty == TOpt(TStr)
  }

  ghost predicate HackathonTypes(s: Schema) {
    && HackathonTypes0(s)
    && HackathonTypes7(s)
    && HackathonTypes14(s)
  }

  lemma HackathonHasTypes()
    ensures HackathonTypes(UPDATE_HACKATHON)
  {
  }

  ghost predicate HackathonFrom0(vs: seq<Value>, x: UpdateHackathonDto) {
    && x.title == StrOf(At(vs, 0))
    && x.description == StrOf(At(vs, 1))
    && x.bannerUrl == OptStrOf(At(vs, 2))
    && x.status == OptStrOf(At(vs, 3))
    && x.startDate == StrOf(At(vs, 4))
    && x.endDate == StrOf(At(vs, 5))
    && x.submissionDeadline == OptStrOf(At(vs, 6))
  }

  lemma HackathonIsFrom0(vs: seq<Value>)
    ensures HackathonFrom0(vs, HackathonOf(vs))
  {
  }

  ghost predicate HackathonFrom7(vs: seq<Value>, x: UpdateHackathonDto) {
    && x.registerDeadline == OptStrOf(At(vs, 7))
    && x.minTeamSize == OptNumOf(At(vs, 8))
    && x.maxTeamSize == OptNumOf(At(vs, 9))
    && x.location == OptStrOf(At(vs, 10))
    && x.rules == OptStrOf(At(vs, 11))
    && x.submissionRequirements == OptStrOf(At(vs, 12))
    && x.prizes == OptStrOf(At(vs, 13))
  }

  lemma HackathonIsFrom7(vs: seq<Value>)
    ensures HackathonFrom7(vs, HackathonOf(vs))
  {
  }

  ghost predicate HackathonFrom14(vs: seq<Value>, x: UpdateHackathonDto) {
    && x.registrationUrl == OptStrOf(At(vs, 14))
    && x.registrationLabel == OptStrOf(At(vs, 15))
  }

  lemma HackathonIsFrom14(vs: seq<Value>)
    ensures HackathonFrom14(vs, HackathonOf(vs))
  {
  }

  lemma HackathonBack0(s: Schema, vs: seq<Value>, ws: seq<Value>, x: UpdateHackathonDto)
    requires AllTyped(s, vs) && HackathonTypes0(s) && HackathonVals0(ws, x) && HackathonFrom0(vs, x)
    ensures |vs| == |ws| && forall i :: 0 <= i < 7 ==> ws[i] == vs[i]
  {
    StrBack(s, vs, 0);
    StrBack(s, vs, 1);
    OptStrBack(s, vs, 2);
    OptStrBack(s, vs, 3);
    StrBack(s, vs, 4);
    StrBack(s, vs, 5);
    OptStrBack(s, vs, 6);
  }

  lemma HackathonBack7(s: Schema, vs: seq<Value>, ws: seq<Value>, x: UpdateHackathonDto)
    requires AllTyped(s, vs) && HackathonTypes7(s) && HackathonVals7(ws, x) && HackathonFrom7(vs, x)
    ensures |vs| == |ws| && forall i :: 7 <= i < 14 ==> ws[i] == vs[i]
  {
    OptStrBack(s, vs, 7);
    OptNumBack(s, vs, 8);
    OptNumBack(s, vs, 9);
    OptStrBack(s, vs, 10);
    OptStrBack(s, vs, 11);
    OptStrBack(s, vs, 12);
    OptStrBack(s, vs, 13);
  }

  lemma HackathonBack14(s: Schema, vs: seq<Value>, ws: seq<Value>, x: UpdateHackathonDto)
    requires AllTyped(s, vs) && HackathonTypes14(s) && HackathonVals14(ws, x) && HackathonFrom14(vs, x)
    ensures |vs| == |ws| && forall i :: 14 <= i < 16 ==> ws[i] == vs[i]
  {
    OptStrBack(s, vs, 14);
    OptStrBack(s, vs, 15);
  }

  /** A well-typed struct, taken apart and put together again. */
  lemma HackathonBack(s: Schema, vs: seq<Value>, ws: seq<Value>, x: UpdateHackathonDto)
    requires AllTyped(s, vs) && HackathonTypes(s) && HackathonVals(ws, x) && x == HackathonOf(vs)
    ensures ws == vs
  {
    HackathonIsFrom0(vs);
    HackathonBack0(s, vs, ws, x);
    HackathonIsFrom7(vs);
    HackathonBack7(s, vs, ws, x);
    HackathonIsFrom14(vs);
    HackathonBack14(s, vs, ws, x);
  }

  lemma HackathonRightInverse()
    ensures RightInverse(UPDATE_HACKATHON, HackathonFields, HackathonOf)
  {
    HackathonHasTypes();
    forall vs | FieldsHaveType(UPDATE_HACKATHON, vs)
      ensures HackathonFields(HackathonOf(vs)) == vs
    {
      HackathonHasVals(HackathonOf(vs));
      HackathonBack(UPDATE_HACKATHON, vs, HackathonFields(HackathonOf(vs)), HackathonOf(vs));
    }
  }

  lemma HackathonTyped0(s: Schema, vs: seq<Value>, x: UpdateHackathonDto)
    requires HackathonTypes0(s) && HackathonVals0(vs, x)
    ensures forall i :: 0 <= i < 7 ==> HasType(s.fields[i].ty, vs[i])
  {
    assert HasType(s.fields[0].ty, vs[0]) && HasType(s.fields[1].ty, vs[1]) && HasType(s.fields[2].ty, vs[2]);
    assert HasType(s.fields[3].ty, vs[3]) && HasType(s.fields[4].ty, vs[4]) && HasType(s.fields[5].ty, vs[5]);
    assert HasType(s.fields[6].ty, vs[6]);
  }

  lemma HackathonTyped7(s: Schema, vs: seq<Value>, x: UpdateHackathonDto)
    requires HackathonTypes7(s) && HackathonVals7(vs, x)
    ensures forall i :: 7 <= i < 14 ==> HasType(s.fields[i].ty, vs[i])
  {
    assert HasType(s.fields[7].ty, vs[7]) && HasType(s.fields[8].ty, vs[8]) && HasType(s.fields[9].ty, vs[9]);
    assert HasType(s.fields[10].ty, vs[10]) && HasType(s.fields[11].ty, vs[11]) && HasType(s.fields[12].ty, vs[12]);
    assert HasType(s.fields[13].ty, vs[13]);
  }

  lemma HackathonTyped14(s: Schema, vs: seq<Value>, x: UpdateHackathonDto)
    requires HackathonTypes14(s) && HackathonVals14(vs, x)
    ensures forall i :: 14 <= i < 16 ==> HasType(s.fields[i].ty, vs[i])
  {
    assert HasType(s.fields[14].ty, vs[14]) && HasType(s.fields[15].ty, vs[15]);
  }

  lemma HackathonTyped(s: Schema, vs: seq<Value>, x: UpdateHackathonDto)
    requires HackathonTypes(s) && HackathonVals(vs, x)
    ensures FieldsHaveType(s, vs)
  {
    HackathonTyped0(s, vs, x);
    HackathonTyped7(s, vs, x);
    HackathonTyped14(s, vs, x);
  }

  lemma HackathonHasType(x: UpdateHackathonDto)
    ensures FieldsHaveType(UPDATE_HACKATHON, HackathonFields(x))
  {
    HackathonHasTypes();
    HackathonHasVals(x);
    HackathonTyped(UPDATE_HACKATHON, HackathonFields(x), x);
  }

  // ---- UpdateBadgeDto -------------------------------------------------------------------

  datatype UpdateBadgeDto = UpdateBadgeDto(
    code: Optional<string>, name: Optional<string>, description: Optional<string>, icon: Optional<string>,
    category: Optional<string>, criteriaType: Optional<string>, criteriaValue: Optional<real>,
    points: Optional<real>, isActive: Optional<bool>, orderIndex: Optional<real>)

  function BadgeValue(x: UpdateBadgeDto, i: nat): Value
    requires i < 10
  {
    match i
    case 0 => OptS(x.code)
    case 1 => OptS(x.name)
    case 2 => OptS(x.description)
    case 3 => OptS(x.icon)
    case 4 => OptS(x.category)
    case 5 => OptS(x.criteriaType)
    case 6 => OptN(x.criteriaValue)
    case 7 => OptN(x.points)
    case 8 => OptB(x.isActive)
    case _ => OptN(x.orderIndex)
  }

  function BadgeFields(x: UpdateBadgeDto): seq<Value> {
    seq(10, i requires 0 <= i < 10 => BadgeValue(x, i))
  }

  function BadgeOf(vs: seq<Value>): UpdateBadgeDto {
    UpdateBadgeDto(OptStrOf(At(vs, 0)), OptStrOf(At(vs, 1)), OptStrOf(At(vs, 2)), OptStrOf(At(vs, 3)),
      OptStrOf(At(vs, 4)), OptStrOf(At(vs, 5)), OptNumOf(At(vs, 6)), OptNumOf(At(vs, 7)), OptBoolOf(At(vs, 8)),
      OptNumOf(At(vs, 9)))
  }

  ghost predicate BadgeVals0(vs: seq<Value>, x: UpdateBadgeDto) {
    && |vs| == 10
    && vs[0] == OptS(x.code)
    && vs[1] == OptS(x.name)
    && vs[2] == OptS(x.description)
    && vs[3] == OptS(x.icon)
    && vs[4] == OptS(x.category)
    && vs[5] == OptS(x.criteriaType)
    && vs[6] == OptN(x.criteriaValue)
  }

  ghost predicate BadgeVals7(vs: seq<Value>, x: UpdateBadgeDto) {
    && |vs| == 10
    && vs[7] == OptN(x.points)
    && vs[8] == OptB(x.isActive)
    && vs[9] == OptN(x.orderIndex)
  }

  ghost predicate BadgeVals(vs: seq<Value>, x: UpdateBadgeDto) {
    && BadgeVals0(vs, x)
    && BadgeVals7(vs, x)
  }

  lemma BadgeHasVals0(x: UpdateBadgeDto)
    ensures BadgeVals0(BadgeFields(x), x)
  {
  }

  lemma BadgeHasVals7(x: UpdateBadgeDto)
    ensures BadgeVals7(BadgeFields(x), x)
  {
  }

  lemma BadgeHasVals(x: UpdateBadgeDto)
    ensures BadgeVals(BadgeFields(x), x)
  {
    BadgeHasVals0(x);
    BadgeHasVals7(x);
  }

  ghost predicate BadgeTypes0(s: Schema) {
    && |s.fields| == 10
    && s.fields[0].ty == TOpt(TStr)
    && s.fields[1].ty == TOpt(TStr)
    && s.fields[2].ty == TOpt(TStr)
    && s.fields[3].ty == TOpt(TStr)
    && s.fields[4].ty == TOpt(TStr)
    && s.fields[5].ty == TOpt(TStr)
    && s.fields[6].ty == TOpt(TNum)
  }

  ghost predicate BadgeTypes7(s: Schema) {
    && |s.fields| == 10
    && s.fields[7].ty == TOpt(TNum)
    && s.fields[8].ty == TOpt(TBool)
    && s.fields[9].ty == TOpt(TNum)
  }

  ghost predicate BadgeTypes(s: Schema) {
    && BadgeTypes0(s)
    && BadgeTypes7(s)
  }

  lemma BadgeHasTypes()
    ensures BadgeTypes(UPDATE_BADGE)
  {
  }

  ghost predicate BadgeFrom0(vs: seq<Value>, x: UpdateBadgeDto) {
    && x.code == OptStrOf(At(vs, 0))
    && x.name == OptStrOf(At(vs, 1))
    && x.description == OptStrOf(At(vs, 2))
    && x.icon == OptStrOf(At(vs, 3))
    && x.category == OptStrOf(At(vs, 4))
    && x.criteriaType == OptStrOf(At(vs, 5))
    && x.criteriaValue == OptNumOf(At(vs, 6))
  }

  lemma BadgeIsFrom0(vs: seq<Value>)
    ensures BadgeFrom0(vs, BadgeOf(vs))
  {
  }

  ghost predicate BadgeFrom7(vs: seq<Value>, x: UpdateBadgeDto) {
    && x.points == OptNumOf(At(vs, 7))
    && x.isActive == OptBoolOf(At(vs, 8))
    && x.orderIndex == OptNumOf(At(vs, 9))
  }

  lemma BadgeIsFrom7(vs: seq<Value>)
    ensures BadgeFrom7(vs, BadgeOf(vs))
  {
  }

  lemma BadgeBack0(s: Schema, vs: seq<Value>, ws: seq<Value>, x: UpdateBadgeDto)
    requires AllTyped(s, vs) && BadgeTypes0(s) && BadgeVals0(ws, x) && BadgeFrom0(vs, x)
    ensures |vs| == |ws| && forall i :: 0 <= i < 7 ==> ws[i] == vs[i]
  {
    OptStrBack(s, vs, 0);
    OptStrBack(s, vs, 1);
    OptStrBack(s, vs, 2);
    OptStrBack(s, vs, 3);
    OptStrBack(s, vs, 4);
    OptStrBack(s, vs, 5);
    OptNumBack(s, vs, 6);
  }

  lemma BadgeBack7(s: Schema, vs: seq<Value>, ws: seq<Value>, x: UpdateBadgeDto)
    requires AllTyped(s, vs) && BadgeTypes7(s) && BadgeVals7(ws, x) && BadgeFrom7(vs, x)
    ensures |vs| == |ws| && forall i :: 7 <= i < 10 ==> ws[i] == vs[i]
  {
    OptNumBack(s, vs, 7);
    OptBoolBack(s, vs, 8);
    OptNumBack(s, vs, 9);
  }

  /** A well-typed struct, taken apart and put together again. */
  lemma BadgeBack(s: Schema, vs: seq<Value>, ws: seq<Value>, x: UpdateBadgeDto)
    requires AllTyped(s, vs) && BadgeTypes(s) && BadgeVals(ws, x) && x == BadgeOf(vs)
    ensures ws == vs
  {
    BadgeIsFrom0(vs);
    BadgeBack0(s, vs, ws, x);
    BadgeIsFrom7(vs);
    BadgeBack7(s, vs, ws, x);
  }

  lemma BadgeRightInverse()
    ensures RightInverse(UPDATE_BADGE, BadgeFields, BadgeOf)
  {
    BadgeHasTypes();
    forall vs | FieldsHaveType(UPDATE_BADGE, vs)
      ensures BadgeFields(BadgeOf(vs)) == vs
    {
      BadgeHasVals(BadgeOf(vs));
      BadgeBack(UPDATE_BADGE, vs, BadgeFields(BadgeOf(vs)), BadgeOf(vs));
    }
  }

  lemma BadgeTyped0(s: Schema, vs: seq<Value>, x: UpdateBadgeDto)
    requires BadgeTypes0(s) && BadgeVals0(vs, x)
    ensures forall i :: 0 <= i < 7 ==> HasType(s.fields[i].ty, vs[i])
  {
    assert HasType(s.fields[0].ty, vs[0]) && HasType(s.fields[1].ty, vs[1]) && HasType(s.fields[2].ty, vs[2]);
    assert HasType(s.fields[3].ty, vs[3]) && HasType(s.fields[4].ty, vs[4]) && HasType(s.fields[5].ty, vs[5]);
    assert HasType(s.fields[6].ty, vs[6]);
  }

  lemma BadgeTyped7(s: Schema, vs: seq<Value>, x: UpdateBadgeDto)
    requires BadgeTypes7(s) && BadgeVals7(vs, x)
    ensures forall i :: 7 <= i < 10 ==> HasType(s.fields[i].ty, vs[i])
  {
    assert HasType(s.fields[7].ty, vs[7]) && HasType(s.fields[8].ty, vs[8]) && HasType(s.fields[9].ty, vs[9]);
  }

  lemma BadgeTyped(s: Schema, vs: seq<Value>, x: UpdateBadgeDto)
    requires BadgeTypes(s) && BadgeVals(vs, x)
    ensures FieldsHaveType(s, vs)
  {
    BadgeTyped0(s, vs, x);
    BadgeTyped7(s, vs, x);
  }

  lemma BadgeHasType(x: UpdateBadgeDto)
    ensures FieldsHaveType(UPDATE_BADGE, BadgeFields(x))
  {
    BadgeHasTypes();
    BadgeHasVals(x);
    BadgeTyped(UPDATE_BADGE, BadgeFields(x), x);
  }

  // ---- CreateLearningEventDto -----------------------------------------------------------

  datatype CreateLearningEventDto = CreateLearningEventDto(
    lessonId: Optional<string>, eventType: string, positionSec: Optional<real>, durationMs: Optional<real>,
    metadata: Optional<RawMap>)

  function EventValue(x: CreateLearningEventDto, i: nat): Value
    requires i < 5
  {
    match i
    case 0 => OptS(x.lessonId)
    case 1 => VStr(x.eventType)
    case 2 => OptN(x.positionSec)
    case 3 => OptN(x.durationMs)
    case _ => OptM(x.metadata)
  }

  function EventFields(x: CreateLearningEventDto): seq<Value> {
    seq(5, i requires 0 <= i < 5 => EventValue(x, i))
  }

  function EventOf(vs: seq<Value>): CreateLearningEventDto {
    CreateLearningEventDto(OptStrOf(At(vs, 0)), StrOf(At(vs, 1)), OptNumOf(At(vs, 2)), OptNumOf(At(vs, 3)),
      OptMapOf(At(vs, 4)))
  }

  ghost predicate EventVals(vs: seq<Value>, x: CreateLearningEventDto) {
    && |vs| == 5
    && vs[0] == OptS(x.lessonId)
    && vs[1] == VStr(x.eventType)
    && vs[2] == OptN(x.positionSec)
    && vs[3] == OptN(x.durationMs)
    && vs[4] == OptM(x.metadata)
  }

  lemma EventHasVals(x: CreateLearningEventDto)
    ensures EventVals(EventFields(x), x)
  {
  }

  ghost predicate EventTypes(s: Schema) {
    && |s.fields| == 5
    && s.fields[0].ty == TOpt(TStr)
    && s.fields[1].ty == TStr
    && s.fields[2].ty == TOpt(TNum)
    && s.fields[3].ty == TOpt(TNum)
    && s.fields[4].ty == TOpt(TMap("CreateLearningEventDtoMetadata"))
  }

  lemma EventHasTypes()
    ensures EventTypes(CREATE_EVENT)
  {
  }

  ghost predicate EventFrom(vs: seq<Value>, x: CreateLearningEventDto) {
    && x.lessonId == OptStrOf(At(vs, 0))
    && x.eventType == StrOf(At(vs, 1))
    && x.positionSec == OptNumOf(At(vs, 2))
    && x.durationMs == OptNumOf(At(vs, 3))
    && x.metadata == OptMapOf(At(vs, 4))
  }

  /** A well-typed struct, taken apart and put together again. */
  lemma EventBack(s: Schema, vs: seq<Value>, ws: seq<Value>, x: CreateLearningEventDto)
    requires AllTyped(s, vs) && EventTypes(s) && EventVals(ws, x) && EventFrom(vs, x)
    ensures ws == vs
  {
    OptStrBack(s, vs, 0);
    StrBack(s, vs, 1);
    OptNumBack(s, vs, 2);
    OptNumBack(s, vs, 3);
    OptMapBack(s, vs, 4, "CreateLearningEventDtoMetadata");
    assert forall i :: 0 <= i < 5 ==> ws[i] == vs[i];
  }

  lemma EventRightInverse()
    ensures RightInverse(CREATE_EVENT, EventFields, EventOf)
  {
    EventHasTypes();
    forall vs | FieldsHaveType(CREATE_EVENT, vs)
      ensures EventFields(EventOf(vs)) == vs
    {
      EventHasVals(EventOf(vs));
      EventBack(CREATE_EVENT, vs, EventFields(EventOf(vs)), EventOf(vs));
    }
  }

  lemma EventTyped(s: Schema, vs: seq<Value>, x: CreateLearningEventDto)
    requires EventTypes(s) && EventVals(vs, x)
    ensures FieldsHaveType(s, vs)
  {
    assert HasType(s.fields[0].ty, vs[0]) && HasType(s.fields[1].ty, vs[1]) && HasType(s.fields[2].ty, vs[2]);
    assert HasType(s.fields[3].ty, vs[3]) && HasType(s.fields[4].ty, vs[4]);
  }

  lemma EventHasType(x: CreateLearningEventDto)
    ensures FieldsHaveType(CREATE_EVENT, EventFields(x))
  {
    EventHasTypes();
    EventHasVals(x);
    EventTyped(CREATE_EVENT, EventFields(x), x);
  }

  // ---- BatchCreateLearningEventDto ------------------------------------------------------

  datatype BatchCreateLearningEventDto = BatchCreateLearningEventDto(
    events: List<CreateLearningEventDto>)

  function BatchValue(x: BatchCreateLearningEventDto, i: nat): Value
    requires i < 1
  {
    SliceOf(x.events, EventFields)
  }

  function BatchFields(x: BatchCreateLearningEventDto): seq<Value> {
    seq(1, i requires 0 <= i < 1 => BatchValue(x, i))
  }

  function BatchOf(vs: seq<Value>): BatchCreateLearningEventDto {
    BatchCreateLearningEventDto(ListOf(At(vs, 0), EventOf))
  }

  ghost predicate BatchVals(vs: seq<Value>, x: BatchCreateLearningEventDto) {
    && |vs| == 1
    && vs[0] == SliceOf(x.events, EventFields)
  }

  lemma BatchHasVals(x: BatchCreateLearningEventDto)
    ensures BatchVals(BatchFields(x), x)
  {
  }

  ghost predicate BatchTypes(s: Schema) {
    && |s.fields| == 1
    && s.fields[0].ty == TSlice(TStruct(CREATE_EVENT))
  }

  lemma BatchHasTypes()
    ensures BatchTypes(BATCH_CREATE_EVENTS)
  {
  }

  ghost predicate BatchFrom(vs: seq<Value>, x: BatchCreateLearningEventDto) {
    && x.events == ListOf(At(vs, 0), EventOf)
  }

  /** A well-typed struct, taken apart and put together again. */
  lemma BatchBack(s: Schema, vs: seq<Value>, ws: seq<Value>, x: BatchCreateLearningEventDto)
    requires AllTyped(s, vs) && BatchTypes(s) && BatchVals(ws, x) && BatchFrom(vs, x)
    requires RightInverse(CREATE_EVENT, EventFields, EventOf)
    ensures ws == vs
  {
    ListBack(s, vs, 0, CREATE_EVENT, EventFields, EventOf);
    assert forall i :: 0 <= i < 1 ==> ws[i] == vs[i];
  }

  lemma BatchRightInverse()
    ensures RightInverse(BATCH_CREATE_EVENTS, BatchFields, BatchOf)
  {
    BatchHasTypes();
    EventRightInverse();
    forall vs | FieldsHaveType(BATCH_CREATE_EVENTS, vs)
      ensures BatchFields(BatchOf(vs)) == vs
    {
      BatchHasVals(BatchOf(vs));
      BatchBack(BATCH_CREATE_EVENTS, vs, BatchFields(BatchOf(vs)), BatchOf(vs));
    }
  }

  lemma BatchTyped(s: Schema, vs: seq<Value>, x: BatchCreateLearningEventDto)
    requires BatchTypes(s) && BatchVals(vs, x)
    requires forall y: CreateLearningEventDto :: FieldsHaveType(CREATE_EVENT, EventFields(y))
    ensures FieldsHaveType(s, vs)
  {
    ListHasType(CREATE_EVENT, EventFields, x.events);
    assert HasType(s.fields[0].ty, vs[0]);
  }

  lemma BatchHasType(x: BatchCreateLearningEventDto)
    ensures FieldsHaveType(BATCH_CREATE_EVENTS, BatchFields(x))
  {
    BatchHasTypes();
    BatchHasVals(x);
    forall y: CreateLearningEventDto
      ensures FieldsHaveType(CREATE_EVENT, EventFields(y))
    {
      EventHasType(y);
    }
    BatchTyped(BATCH_CREATE_EVENTS, BatchFields(x), x);
  }
}
