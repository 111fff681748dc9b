# Codec, back-fill and seeding: a Dafny model

This project models three parts of the learning platform's back end and proves what they promise.

**The generated JSON codec** (`Json`, `RequiredFields`, `Schema`, `Output`, `Codec`, `RoundTrip`,
`DecodeSpec`, `DecodeLaws`, `Wire`, `Dtos`, `DtosWf`, `DtoNames`, `GoStructs`, `WireKeys`, `CourseDtos`,
`CourseKeys`, `OtherDtos`, `OtherKeys`, `CourseTree`, `DtoLaws`). Every DTO codec of the Go API is one
skeleton filled with a field table, an array of masks and, for some types, a `setDefaults` method. A `Schema`
holds exactly those parts, and `Dtos` holds the tables of ten DTO types. `Codec` carries out Encode and Decode
on a token stream, with a receiver array, a required-key bitset and the bit loop that lists missing keys;
`Output` says which tokens Encode may write, `Schema` what both directions mean on JSON trees (RFC 8259,
sections 3 to 5), and `DecodeSpec` which JSON decodes to which value, without the decoder. `CourseKeys` and
`OtherKeys` tie every JSON key to its Go field in both directions. Main results: the round trip is a normal
form, not the identity, and exactly when it is the identity; Decode succeeds exactly on the objects it should
and the last duplicate wins; two decodes into one receiver merge exactly when no default gets in between; a
struct with maps of raw values survives exactly when each element written is one JSON value.

**The instructor back-fill** (`Slug`, `Backfill`, `BackfillReads`, `BackfillLaws`, `BackfillJob`). The script
that turns the free-text instructor column into instructors and links. `BackfillJob` is the script against a
`Database` object that logs its committed writes; `Backfill.RunPlan` is the list of writes as a function of
the tables. Main result: stop the job after any prefix of its writes, any number of times, and run it again:
the tables end as after one uninterrupted run whose clock readings are those of the pieces. They are the same
tables at every time exactly when no slug probe reaches the time-hashed fallback; a check before the run
(`Roomy`) guarantees that, and two tables show that the fallback can be reached and refused.

**Navigation, footer and content seeds** (`KeyedUpsert`, `NavFooter`, `InstructorContent`).  Key-based upsert
loops, index shifting, splicing and delete-and-rebuild, over arbitrary tables and lists, run once, twice, and stopped
between commits and run again.

Where the code and its own comments disagree, the model follows the code:

- `migration-seed-instructors-from-string.ts:29` says a transaction wraps the job.  None does; the crash laws are
  about the unprotected sequence of writes.
- `migration-seed-instructors-from-string.ts:28` says the job is idempotent.  It is once a run has completed
  (`BackfillLaws.RerunWritesNothing`); a run that reaches the fallback can be refused by the slug index, or
  depend on the clock (`BackfillLaws.FallbackRefused`, `BackfillLaws.AlwaysConvergesIff`).
- `seed-demo.ts:17` says all steps are idempotent.  The pair of `seed-cms.ts` and `seed-nav-footer.ts` is not, on
  the top navigation: the CMS loop resets the order indices the insertion had moved, and the insertion, finding its
  row, does not move them again.  `NavFooter.NavPairTwiceIff` says exactly when the pair is idempotent,
  `NavFooter.NavPairDistinctIff` exactly when the indices stay distinct, and `NavFooter.ShippedNavCollides` shows
  the shipped list is a case of neither.  On the footer the pair is always idempotent.
- `seed-nav-footer.ts:5` says a repeated run inserts nothing twice.  That holds, but a run stopped between its two
  commits and repeated moves the rows behind twice (`NavFooter.NavStopIff`).

`Env` holds what the back-fill takes from outside: the sort key by which the database compares names, SHA-1, and
the digest of a slug with the clock reading appended, with a reading of its own for each identifier to be created.
Query order is insertion order.

## Model

| member | source | states |
|---|---|---|
| `Json.ParseTokens` | apps/api-go/api/gen/oas_json_gen.go:1717-1722 | Printing any JSON value, with anything behind it, and reading it gives that value and leaves exactly what was behind it |
| `Json.ParsedIsPrinted` | apps/api-go/api/gen/oas_json_gen.go:1854-1856 | Whatever the reader accepts is the text of the value it returns followed by the rest, so the reader accepts no other streams |
| `Json.ParseIffPrefix` | apps/api-go/api/gen/oas_json_gen.go:1854-1856 | The reader finds j at the front of a stream exactly when the stream starts with the text of j |
| `RequiredFields.MissedBits` | apps/api-go/api/gen/oas_json_gen.go:2083 | (seen & mask) ^ mask has exactly the bits demanded and not seen |
| `RequiredFields.ClearLowest` | apps/api-go/api/gen/oas_json_gen.go:2090-2103 | TrailingZeros8 names the lowest set bit and result &^= 1 << bitIdx removes that bit and no other |
| `RequiredFields.ReportByte` | apps/api-go/api/gen/oas_json_gen.go:2088-2104 | The inner loop appends one name for each set bit of a byte, in increasing field index, and ends with result zero |
| `RequiredFields.ReportMissing` | apps/api-go/api/gen/oas_json_gen.go:2076-2106 | For every bitset and mask array the loop reports exactly the demanded fields whose bit is unset, each once, in increasing index, by declared name or else by decimal index |
| `RequiredFields.SortedIncreasing` | apps/api-go/api/gen/oas_json_gen.go:2088-2104 | The reported indices are strictly increasing, hence each is reported once |
| `RequiredFields.SortedMembers` | apps/api-go/api/gen/oas_json_gen.go:2088-2104 | The list of missing fields has exactly the members of the set of missing fields |
| `RequiredFields.NamesOfAt` | apps/api-go/api/gen/oas_json_gen.go:2092-2098 | Each reported index is under its declared name, or under its decimal text when the table is too short |
| `DecodeLaws.MissingError` | apps/api-go/api/gen/oas_json_gen.go:2075-2109 | When every value fits and required keys are missing, the error lists exactly the required fields with no member, once each, in field order |
| `DecodeLaws.FieldError` | apps/api-go/api/gen/oas_json_gen.go:1854-2074 | The first value that does not fit is the error, under its key and the type, whatever follows it and whatever is missing |
| `DecodeLaws.ErrorCause` | apps/api-go/api/gen/oas_json_gen.go:10620-10632 | The cause of that error: a mismatch for a token of another kind, for an option that of its base, for an array that of its first bad element |
| `DtoLaws.ReportedNamesDeclared` | apps/api-go/api/gen/oas_json_gen.go:2092-2098 | With masks that demand the required fields, every reported index is a declared required field not seen, every such field is reported, in increasing order: the numeric fallback is unreachable |
| `Codec.SetField` | apps/api-go/api/gen/oas_json_gen.go:1857 | requiredBitSet[i/8] or-ed with 1 << (i%8) adds field i to the set and changes nothing else |
| `Codec.MarkSeen` | apps/api-go/api/gen/oas_json_gen.go:1855-1870 | The bit of a key is set in the cases of required keys and left alone in all others |
| `Codec.BitsTellMissing` | apps/api-go/api/gen/oas_json_gen.go:2075-2109 | When the bitset holds the required keys seen, the bit loop reports the names of the required keys that have no member |
| `DtoNames.ResourceKeyOrder` | apps/api-go/api/gen/oas_json_gen.go:6777-6782 | The keys of CreateResourceDto in field order are exactly those of the generated name array |
| `DtoNames.LessonKeyOrder` | apps/api-go/api/gen/oas_json_gen.go:9810-9818 | The same for NestedCourseLessonDto |
| `DtoNames.ChapterKeyOrder` | apps/api-go/api/gen/oas_json_gen.go:1463-1468 | The same for CreateChapterDto |
| `DtoNames.CourseKeyOrder` | apps/api-go/api/gen/oas_json_gen.go:1825-1845 | The same for CreateCourseDto |
| `DtoNames.CreateInstructorKeyOrder` | apps/api-go/api/gen/oas_json_gen.go:4602-4624 | The same for CreateInstructorDto |
| `DtoNames.UpdateInstructorKeyOrder` | apps/api-go/api/gen/oas_json_gen.go:15302-15324 | The same for UpdateInstructorDto |
| `DtoNames.HackathonKeyOrder` | apps/api-go/api/gen/oas_json_gen.go:14381-14398 | The same for UpdateHackathonDto |
| `DtoNames.BadgeKeyOrder` | apps/api-go/api/gen/oas_json_gen.go:12516-12527 | The same for UpdateBadgeDto |
| `DtoNames.EventKeyOrder` | apps/api-go/api/gen/oas_json_gen.go:5185-5191 | The same for CreateLearningEventDto |
| `DtoNames.BatchKeyOrder` | apps/api-go/api/gen/oas_json_gen.go:35-37 | The same for BatchCreateLearningEventDto |
| `DtoNames.TypeNames` | apps/api-go/api/gen/oas_json_gen.go:2074 | The type names that stand in decode errors |
| `DtosWf.CreateResourceWf` | apps/api-go/api/gen/oas_json_gen.go:6748-6879 | The CreateResourceDto table: distinct keys, mask bits exactly at the required fields, presets of the field type |
| `DtosWf.NestedLessonWf` | apps/api-go/api/gen/oas_json_gen.go:9755-9950 | The same for NestedCourseLessonDto |
| `DtosWf.CreateChapterWf` | apps/api-go/api/gen/oas_json_gen.go:1428-1571 | The same for CreateChapterDto |
| `DtosWf.CreateCourseWf` | apps/api-go/api/gen/oas_json_gen.go:1825-2112 | The same for CreateCourseDto: masks 0xEF, 0x07, 0x00 are exactly the required fields among the 19 |
| `DtosWf.CreateInstructorWf` | apps/api-go/api/gen/oas_json_gen.go:4460-4905 | The same for CreateInstructorDto |
| `DtosWf.CreateEventWf` | apps/api-go/api/gen/oas_json_gen.go:5146-5293 | The same for CreateLearningEventDto |
| `DtosWf.BatchCreateEventsWf` | apps/api-go/api/gen/oas_json_gen.go:16-106 | The same for BatchCreateLearningEventDto |
| `DtosWf.UpdateBadgeWf` | apps/api-go/api/gen/oas_json_gen.go:12446-12646 | The same for UpdateBadgeDto: no required field, no preset |
| `DtosWf.UpdateHackathonWf` | apps/api-go/api/gen/oas_json_gen.go:14283-14620 | The same for UpdateHackathonDto |
| `DtosWf.UpdateInstructorWf` | apps/api-go/api/gen/oas_json_gen.go:15158-15571 | The same for UpdateInstructorDto |
| `Codec.EncodeMap` | apps/api-go/api/gen/oas_json_gen.go:5359-5373 | Encode of a raw map writes one brace pair around the entries, in some order that visits each key once; an empty element leaves its key bare |
| `Codec.EncodeEntries` | apps/api-go/api/gen/oas_json_gen.go:5366-5373 | The range loop over a map writes each key once with its own element right behind it |
| `Output.MapListed` | apps/api-go/api/gen/oas_json_gen.go:5359-5373 | When each element is one JSON value, what is written is the text of one object that lists the map |
| `Output.EntriesListMap` | apps/api-go/api/gen/oas_json_gen.go:5366-5373 | In every iteration order the entries are the members of an object listing each key once with its own element |
| `Codec.EncodeVal` | apps/api-go/api/gen/oas_json_gen.go:10612-10617 | Nothing is written for an unset optional; otherwise exactly the tokens of the value, whatever raw elements it holds |
| `Codec.EncodeStruct` | apps/api-go/api/gen/oas_json_gen.go:1717-1722 | Encode writes exactly one brace pair around the outputs of the emitted fields in declared order |
| `Codec.EncodeFields` | apps/api-go/api/gen/oas_json_gen.go:1724-1823 | Each emitted field is one key with the output for its value right behind it; unset options and nil optional slices write nothing; required slices are always written |
| `Codec.EncodeSlice` | apps/api-go/api/gen/oas_json_gen.go:4586-4599 | A slice, nil or not, is written as one bracket pair around the outputs of its elements in order |
| `Codec.EncodeElems` | apps/api-go/api/gen/oas_json_gen.go:30-36 | The range loop writes the outputs of the elements in order and nothing else |
| `Output.WrittenEncodes` | apps/api-go/api/gen/oas_json_gen.go:1717-1823 | When every raw element written is one value, the output is the text of exactly one JSON value, and that value encodes the Go value |
| `Output.DecodedRawOk` | apps/api-go/api/gen/oas_json_gen.go:5377-5401 | Whatever Decode returns, every raw element in it is one value |
| `Output.NormRawOk` | apps/api-go/api/gen/oas_json_gen.go:1717-2112 | A round trip that succeeds keeps the raw elements: the normal form holds whole ones exactly when the value writes whole ones |
| `GoStructs.ZeroInGo` | apps/api-go/api/gen/oas_schemas_gen.go:5634-5638 | A fresh field, and one that was reset, is the Go zero value: an unset option with no payload, an empty string, 0, false, nil |
| `WireKeys.KeyOnWireFrom` | apps/api-go/api/gen/oas_json_gen.go:1724-1823 | Under the key of an emitted field stands exactly one value, encoding that field; under the key of any other field nothing |
| `WireKeys.KeysInOrder` | apps/api-go/api/gen/oas_json_gen.go:1724-1823 | Keys are written in field order |
| `WireKeys.NoOtherKey` | apps/api-go/api/gen/oas_json_gen.go:1724-1823 | No key outside the table is written |
| `CourseKeys.CourseOnWire` | apps/api-go/api/gen/oas_json_gen.go:1724-1823 | Key by key for every course: "title" carries Title, "description" carries Description, and so on; an unset option or nil list writes nothing, a list of chapters one array of their encodings |
| `CourseKeys.ChapterOnWire` | apps/api-go/api/gen/oas_json_gen.go:1436-1461 | The same for chapters |
| `CourseKeys.LessonOnWire` | apps/api-go/api/gen/oas_json_gen.go:9763-9808 | The same for lessons |
| `CourseKeys.ResourceOnWire` | apps/api-go/api/gen/oas_json_gen.go:6756-6775 | The same for resources |
| `OtherKeys.CreateInstructorOnWire` | apps/api-go/api/gen/oas_json_gen.go:4467-4600 | The same for CreateInstructorDto, expertiseIds row by row |
| `OtherKeys.UpdateInstructorOnWire` | apps/api-go/api/gen/oas_json_gen.go:15165-15300 | The same for UpdateInstructorDto |
| `OtherKeys.HackathonOnWire` | apps/api-go/api/gen/oas_json_gen.go:14290-14379 | The same for UpdateHackathonDto |
| `OtherKeys.BadgeOnWire` | apps/api-go/api/gen/oas_json_gen.go:12453-12514 | The same for UpdateBadgeDto |
| `OtherKeys.EventOnWire` | apps/api-go/api/gen/oas_json_gen.go:5154-5183 | The same for CreateLearningEventDto, metadata being one object that lists the map |
| `OtherKeys.BatchOnWire` | apps/api-go/api/gen/oas_json_gen.go:24-33 | The same for BatchCreateLearningEventDto: a nil list is the empty array |
| `CourseKeys.CourseFromWire` | apps/api-go/api/gen/oas_json_gen.go:1854-2073 | Key by key for every receiver and object: Title is the last value of "title", and so on; an option keeps what it held when its key is absent, a list is replaced by the decoded elements |
| `CourseKeys.ChapterFromWire` | apps/api-go/api/gen/oas_json_gen.go:1477-1529 | The same for chapters |
| `CourseKeys.LessonFromWire` | apps/api-go/api/gen/oas_json_gen.go:9828-9909 | The same for lessons, isPreview starting from false |
| `CourseKeys.ResourceFromWire` | apps/api-go/api/gen/oas_json_gen.go:6792-6841 | The same for resources, isLocked starting from true |
| `CourseKeys.CourseFreshFromWire` | apps/api-go/api/gen/oas_json_gen.go:1848-2112 | A course decoded into a fresh struct starts from the Go zero values |
| `CourseKeys.CourseDecoded` | apps/api-go/api/gen/oas_json_gen.go:1848-2112 | Whatever is decoded into a course is again a course, so the key-by-key statements cover every successful Decode |
| `CourseKeys.ChapterDecoded` | apps/api-go/api/gen/oas_json_gen.go:1471-1571 | The same for chapters |
| `CourseKeys.LessonDecoded` | apps/api-go/api/gen/oas_json_gen.go:9821-9950 | The same for lessons |
| `CourseKeys.ResourceDecoded` | apps/api-go/api/gen/oas_json_gen.go:6785-6879 | The same for resources |
| `OtherKeys.CreateInstructorDecoded` | apps/api-go/api/gen/oas_json_gen.go:4627-4908 | The same for CreateInstructorDto |
| `OtherKeys.UpdateInstructorDecoded` | apps/api-go/api/gen/oas_json_gen.go:15327-15571 | The same for UpdateInstructorDto |
| `OtherKeys.HackathonDecoded` | apps/api-go/api/gen/oas_json_gen.go:14401-14620 | The same for UpdateHackathonDto |
| `OtherKeys.BadgeDecoded` | apps/api-go/api/gen/oas_json_gen.go:12530-12646 | The same for UpdateBadgeDto |
| `OtherKeys.EventDecoded` | apps/api-go/api/gen/oas_json_gen.go:5194-5293 | The same for CreateLearningEventDto |
| `OtherKeys.BatchDecoded` | apps/api-go/api/gen/oas_json_gen.go:40-107 | The same for BatchCreateLearningEventDto |
| `OtherKeys.CreateInstructorFromWire` | apps/api-go/api/gen/oas_json_gen.go:4635-4864 | The same for CreateInstructorDto, orderIndex starting from 0 and published from false |
| `OtherKeys.UpdateInstructorFromWire` | apps/api-go/api/gen/oas_json_gen.go:15333-15571 | The same for UpdateInstructorDto, with the same presets |
| `OtherKeys.HackathonFromWire` | apps/api-go/api/gen/oas_json_gen.go:14409-14580 | The same for UpdateHackathonDto, the team sizes starting from 1 and 5 |
| `OtherKeys.BadgeFromWire` | apps/api-go/api/gen/oas_json_gen.go:12535-12646 | The same for UpdateBadgeDto |
| `OtherKeys.EventFromWire` | apps/api-go/api/gen/oas_json_gen.go:5200-5252 | The same for CreateLearningEventDto, metadata holding the last text of each of its keys |
| `OtherKeys.BatchFromWire` | apps/api-go/api/gen/oas_json_gen.go:46-69 | The same for BatchCreateLearningEventDto |
| `Codec.SetDefaults` | apps/api-go/api/gen/oas_defaults_gen.go:113-135 | setDefaults stores every preset and leaves every other field as it was |
| `Codec.DecodeStruct` | apps/api-go/api/gen/oas_json_gen.go:1848-2112 | Decode of the value at the front of any well-formed stream: defaults and last values and the stream behind; or the first bad field, every other field as the members before made it; or the missing required names, with everything read in the receiver |
| `Codec.DecodeFields` | apps/api-go/api/gen/oas_json_gen.go:1854-2074 | Running the callback over the members leaves the receiver DecodeMembers gives, the bitset of required keys seen, and the stream just behind the object; a bad value stops it there, every other field as the members before made it |
| `Codec.OnKey` | apps/api-go/api/gen/oas_json_gen.go:1855-2073 | One key: a known key sets its bit if required and stores its decoded value, an unknown key is skipped and changes nothing, a bad value is the field error; no other field is touched in any case |
| `Codec.DecodeNext` | apps/api-go/api/gen/oas_json_gen.go:10620-10632 | A value is decoded into a fresh variable and exactly its tokens are consumed |
| `Codec.DecodeSlice` | apps/api-go/api/gen/oas_json_gen.go:4838-4864 | A slice decodes to the decoded elements in order and consumes exactly the array |
| `Codec.DecodeItems` | apps/api-go/api/gen/oas_json_gen.go:4838-4864 | The element loop decodes each element into a fresh variable, in order, up to the closing bracket; the first bad element is its error |
| `Codec.DecodeMap` | apps/api-go/api/gen/oas_json_gen.go:5377-5401 | The member loop adds the last raw text of each key to the entries the map already has and consumes exactly the object |
| `Codec.Decoder.RawAppend` | apps/api-go/api/gen/oas_json_gen.go:5384-5394 | One value is consumed and its own text returned |
| `Codec.MembersSnoc` | apps/api-go/api/gen/oas_json_gen.go:1854-2073 | Reading one more member stores it, skips it, or decides the error of the whole object |
| `Codec.MemberFails` | apps/api-go/api/gen/oas_json_gen.go:1858-1866 | The first bad value of a known key is the error of the object whatever follows |
| `Codec.LeftBehind` | apps/api-go/api/gen/oas_json_gen.go:1854-2073 | After a bad value every field but its own holds what the members before it gave |
| `RoundTrip.DecodeEncode` | apps/api-go/api/gen/oas_json_gen.go:1717-2112 | Every encoding of a well-typed value of any generated type decodes, into a fresh variable, to its normal form |
| `RoundTrip.NormIsCanonical` | apps/api-go/api/gen/oas_json_gen.go:1848-1853 | The normal form has the type and is canonical: defaults filled, nothing nil that is always emitted |
| `RoundTrip.NormIdentityIff` | apps/api-go/api/gen/oas_json_gen.go:1848-1853 | A round trip returns the value itself exactly when the value is canonical |
| `RoundTrip.NormIdempotent` | apps/api-go/api/gen/oas_json_gen.go:1848-1853 | A second round trip changes nothing |
| `RoundTrip.NothingMissing` | apps/api-go/api/gen/oas_json_gen.go:1724-1823 | What encodeFields writes lacks no required key, so Decode never reports one after Encode |
| `RoundTrip.ListingRebuildsMap` | apps/api-go/api/gen/oas_json_gen.go:5377-5401 | Storing the members of any listing of a map over other entries gives the other entries overlaid by the map |
| `Wire.RoundTripIff` | apps/api-go/api/gen/oas_json_gen.go:1717-2129 | Whatever Encode wrote for a value, in any map order and with anything behind it, reads back as its normal form exactly when every raw element written is one value |
| `Wire.EncodeThenDecode` | apps/api-go/api/gen/oas_json_gen.go:1717-2129 | Encode then Decode on the stream gives success, the normal form and every following token untouched exactly when every raw element written is one value |
| `Wire.ReadBack` | apps/api-go/api/gen/oas_json_gen.go:1717-2129 | Any encoding, with anything behind it, is read back as the normal form and leaves what was behind it |
| `Wire.MetadataRoundTripIff` | apps/api-go/api/gen/oas_json_gen.go:5359-5401 | In every iteration order a raw map reads back as itself exactly when each element is one JSON value |
| `Wire.EmptyElementRejected` | apps/api-go/api/gen/oas_json_gen.go:5366-5373 | With one empty element, in any order and whatever the other elements are, no reader gets to the end of the object; with the others single values it finds no value at all |
| `Wire.BareKeyStops` | apps/api-go/api/gen/oas_json_gen.go:5366-5373 | On any stream, a value read from the front ends before the first key that has no value behind it |
| `CourseTree.CourseRoundTrip` | apps/api-go/api/gen/oas_json_gen.go:1717-2112 | Every encoding of every course tree decodes to the normal form of the tree and leaves what follows |
| `CourseTree.SendCourse` | apps/api-go/api/gen/oas_json_gen.go:2115-2125 | MarshalJSON then UnmarshalJSON of any course: what is sent carries each field under its own key, and what arrives is the normal form: unset isPreview false, unset isLocked true, nil and empty lists kept apart |
| `CourseTree.CourseIsSent` | apps/api-go/api/gen/oas_json_gen.go:1724-1823 | The field-by-field normal form is the normal form of the Go structs at all four levels |
| `CourseTree.NormCourseIdentity` | apps/api-go/api/gen/oas_defaults_gen.go:73-99 | A course comes back unchanged exactly when every defaulted flag in the tree is set and no unset option holds a payload |
| `CourseTree.CourseInjective` | apps/api-go/api/gen/oas_json_gen.go:1724-1823 | The field values of a course, through all four levels, determine the course |
| `CourseTree.SameWireSameNorm` | apps/api-go/api/gen/oas_json_gen.go:1724-2112 | Two courses that share an encoding have the same normal form: nothing but what the normal form drops is lost on the wire |
| `DtoLaws.ExpertiseRows` | apps/api-go/api/gen/oas_json_gen.go:4838-4864 | expertiseIds: rows and entries keep their order and a nil row arrives as an empty one |
| `DtoLaws.ExpertiseNilKept` | apps/api-go/api/gen/oas_json_gen.go:4586-4599 | expertiseIds: a nil outer slice arrives nil and an empty one empty |
| `DtoLaws.BatchRoundTrip` | apps/api-go/api/gen/oas_json_gen.go:16-106 | A batch arrives event by event in normal form, and a nil list arrives empty |
| `DtoLaws.BatchRoundTripIff` | apps/api-go/api/gen/oas_json_gen.go:16-106 | A written batch reads back in normal form exactly when every event that has metadata has one value per key in it |
| `DecodeSpec.DecodeFits` | apps/api-go/api/gen/oas_json_gen.go:10620-10632 | Which JSON decodes, said on JSON alone: strings, numbers and booleans of their own kind, an option what its base accepts (never null), arrays of such elements, objects whose known keys all fit and whose required keys occur |
| `DecodeSpec.DecodeReads` | apps/api-go/api/gen/oas_json_gen.go:1848-2112 | What is decoded, said on JSON alone: the value itself, set options, arrays element by element, for each key its last occurrence, for absent keys the default or zero value |
| `DecodeSpec.ReadsUnique` | apps/api-go/api/gen/oas_json_gen.go:1848-2112 | JSON reads as one value only |
| `DecodeSpec.DecodeIs` | apps/api-go/api/gen/oas_json_gen.go:1848-2112 | Decode returns v exactly when the JSON fits and reads as v |
| `DecodeLaws.DecodeExactly` | apps/api-go/api/gen/oas_json_gen.go:1848-2112 | Decode into any receiver succeeds exactly when every occurrence of a known key fits and every required key occurs; then each field holds what the last value of its key reads as, else its default, else what it held |
| `DecodeLaws.OrderIrrelevant` | apps/api-go/api/gen/oas_json_gen.go:1854-2073 | Objects giving each known key the same values in the same order decode alike, whatever else they contain |
| `DecodeLaws.UnknownKeysIgnored` | apps/api-go/api/gen/oas_json_gen.go:2069-2071 | An unknown key may be inserted anywhere |
| `DecodeLaws.NeighboursCommute` | apps/api-go/api/gen/oas_json_gen.go:1854-2073 | Neighbouring members with different keys may be exchanged |
| `DecodeLaws.DecodeTwice` | apps/api-go/api/gen/oas_defaults_gen.go:113-135 | Decoding a then b into one receiver is decoding a + b exactly when no key of a missing from b is reset to a different default |
| `DecodeLaws.DecodeTwiceIsConcat` | apps/api-go/api/gen/oas_json_gen.go:12530-12646 | Without defaults and required keys, two decodes succeed and end exactly as one of the concatenation, and absent keys keep their value |
| `DecodeLaws.AbsentIsDefault` | apps/api-go/api/gen/oas_defaults_gen.go:113-135 | Leaving out a defaulted key decodes exactly like giving its default |
| `DecodeLaws.FieldTwice` | apps/api-go/api/gen/oas_defaults_gen.go:113-135 | One field: decoding twice differs from decoding the concatenation in exactly one case |
| `DtoLaws.BadgeUpdatesMerge` | apps/api-go/api/gen/oas_json_gen.go:12530-12646 | UpdateBadgeDto: two decodes are one decode of the concatenation, and keys in neither keep their old value |
| `DtoLaws.OmittedKeyIsReset` | apps/api-go/api/gen/oas_defaults_gen.go:113-135 | A defaulted key left out ends at its default whatever the receiver held |
| `DtoLaws.InstructorUpdateResets` | apps/api-go/api/gen/oas_defaults_gen.go:125-135 | UpdateInstructorDto: leaving out orderIndex or published resets it to 0 or false |
| `DtoLaws.HackathonUpdateResets` | apps/api-go/api/gen/oas_defaults_gen.go:113-123 | UpdateHackathonDto: leaving out the team sizes resets them to 1 and 5 |
| `DtoLaws.SettingIsUndone` | apps/api-go/api/gen/oas_defaults_gen.go:113-135 | For every type without required keys: giving a defaulted key another value than its default is undone by an empty update |
| `DtoLaws.InstructorUpdatesDoNotMerge` | apps/api-go/api/gen/oas_json_gen.go:15327-15571 | Concrete input: publishing and then an empty update is not publishing |
| `Slug.AsciiIsJoinedWords` | apps/api/prisma/migration-seed-instructors-from-string.ts:38-44 | The readable part of a slug is the maximal runs of [a-z0-9] of the lower-cased name joined by single hyphens |
| `Slug.SlugOf` | apps/api/prisma/migration-seed-instructors-from-string.ts:38-53 | A name with no ASCII letter or digit (nor Kelvin sign nor dotted I) gets i- and four digits of its hash; any other its words joined by hyphens, cut at 40 |
| `Slug.SlugIgnoresCase` | apps/api/prisma/migration-seed-instructors-from-string.ts:40-41 | Names that differ only in the case of ASCII letters have one slug |
| `Slug.SlugShape` | apps/api/prisma/migration-seed-instructors-from-string.ts:38-53 | Every slug is non-empty, at most 40 characters, over [a-z0-9-], with no leading or doubled hyphen |
| `Slug.SlugifySlug` | apps/api/prisma/migration-seed-instructors-from-string.ts:38-53 | slugify of any well-shaped slug removes a trailing hyphen and nothing else |
| `Slug.SlugifyTwice` | apps/api/prisma/migration-seed-instructors-from-string.ts:38-53 | slugify of a slug is a fixed point, and equals the slug exactly when truncation did not end on a hyphen |
| `Slug.CandidatesDiffer` | apps/api/prisma/migration-seed-instructors-from-string.ts:65-66 | The candidates base, base-1, base-2, ... are pairwise distinct |
| `Slug.FirstFreeIsLeast` | apps/api/prisma/migration-seed-instructors-from-string.ts:59-67 | The suffix found is the least whose candidate is free |
| `Slug.ProbeSucceedsIff` | apps/api/prisma/migration-seed-instructors-from-string.ts:59-69 | The loop returns a free slug exactly when not all 100 candidates are taken |
| `Slug.SmallTableSuffices` | apps/api/prisma/migration-seed-instructors-from-string.ts:55-70 | Fewer than 100 slugs in the table always leave a free candidate, and the least one is taken |
| `Slug.UniqueSlugExactly` | apps/api/prisma/migration-seed-instructors-from-string.ts:55-70 | The slug is the first free one of base, base-1 to base-99, and only when all 100 are taken the time-hashed one |
| `Slug.CandidateReads` | apps/api/prisma/migration-seed-instructors-from-string.ts:65-66 | The first candidate is the base itself, the k-th the base, a hyphen and the decimal text of k |
| `Common.DecimalReads` | apps/api/prisma/migration-seed-instructors-from-string.ts:66 | The suffix text reads back as its number and has no leading zero |
| `BackfillReads.TrimExactly` | apps/api/prisma/migration-seed-instructors-from-string.ts:83 | trim removes white space at both ends, all of it and nothing else |
| `BackfillReads.SpaceExactly` | apps/api/prisma/migration-seed-instructors-from-string.ts:83 | White space is exactly the 25 code points of the language |
| `BackfillReads.SelectedExactly` | apps/api/prisma/migration-seed-instructors-from-string.ts:76-80 | The query returns exactly the courses whose instructor is not equal to the empty string |
| `BackfillReads.SelectedConcat` | apps/api/prisma/migration-seed-instructors-from-string.ts:122-125 | It keeps their order and multiplicity |
| `BackfillReads.NamesExactly` | apps/api/prisma/migration-seed-instructors-from-string.ts:82-84 | The names are exactly the trimmed non-blank instructor texts of those courses |
| `BackfillReads.NamesSnoc` | apps/api/prisma/migration-seed-instructors-from-string.ts:76-84 | In order of first occurrence of the raw text, each raw text once |
| `BackfillReads.FindByNameExactly` | apps/api/prisma/migration-seed-instructors-from-string.ts:93-96 | findFirst gives the earliest row of that name, and nothing exactly when there is none |
| `BackfillJob.EnsureUniqueSlug` | apps/api/prisma/migration-seed-instructors-from-string.ts:55-70 | The loop returns the first free candidate, and the time-hashed fallback when there is none |
| `BackfillJob.Database.CreateInstructor` | apps/api/prisma/migration-seed-instructors-from-string.ts:106-116 | A create appends one published row under the next id, or is refused by the unique slug index and changes nothing; the tables stay the starting ones with the log applied |
| `BackfillJob.Database.CreateLink` | apps/api/prisma/migration-seed-instructors-from-string.ts:154-162 | A link create appends one link; the tables stay the starting ones with the log applied |
| `BackfillJob.FindOrCreateOne` | apps/api/prisma/migration-seed-instructors-from-string.ts:91-118 | One name: the earliest row of that name is used, else one is created under a free slug; its id is the one found afterwards |
| `BackfillJob.FindOrCreate` | apps/api/prisma/migration-seed-instructors-from-string.ts:89-119 | The loop commits exactly the planned writes and maps every name to the id of its row, or aborts where a create is refused |
| `BackfillJob.LinkOne` | apps/api/prisma/migration-seed-instructors-from-string.ts:130-163 | One course: blank, unmatched, already linked, or one new link |
| `BackfillJob.LinkCourses` | apps/api/prisma/migration-seed-instructors-from-string.ts:127-164 | The loop commits exactly the planned links; linked counts them, and linked + skipped is the number of courses with a non-blank name |
| `BackfillJob.Run` | apps/api/prisma/migration-seed-instructors-from-string.ts:72-170 | main commits exactly the planned writes in order, never takes the not-found branch, keeps the tables equal to the starting ones with the log applied, and linked + skipped is the number of courses with a non-empty, non-blank instructor |
| `BackfillJob.PlanConcat` | apps/api/prisma/migration-seed-instructors-from-string.ts:91-119 | Planning for a list of names is planning for its parts one after the other |
| `BackfillJob.LinkPlanConcat` | apps/api/prisma/migration-seed-instructors-from-string.ts:130-164 | The same for the courses of the second loop |
| `BackfillLaws.ResumeInstructors` | apps/api/prisma/migration-seed-instructors-from-string.ts:91-119 | After any prefix of its writes the first loop, restarted with the clock readings it would have taken, plans exactly the remaining ones |
| `BackfillLaws.ResumeLinks` | apps/api/prisma/migration-seed-instructors-from-string.ts:130-164 | After any prefix of the links the second loop, restarted, plans exactly the remaining ones |
| `BackfillLaws.Resume` | apps/api/prisma/migration-seed-instructors-from-string.ts:72-164 | Stop the job after any prefix of its writes and start it again with the readings it would have taken: it plans exactly the missing writes, in order |
| `BackfillLaws.PlanReads` | apps/api/prisma/migration-seed-instructors-from-string.ts:68-69 | The first k creates depend on no reading but those for their own k identifiers |
| `BackfillLaws.CrashIsSplice` | apps/api/prisma/migration-seed-instructors-from-string.ts:72-164 | Stopped after any prefix and rerun at any other time, fallback or not, the job ends like one uninterrupted run whose clock reads as in the first run up to the crash and as in the second afterwards |
| `BackfillLaws.CrashesAreOneRun` | apps/api/prisma/migration-seed-instructors-from-string.ts:72-164 | Any number of crashes, each rerun at its own time, fallback or not: the tables and the outcome of one uninterrupted run at some times |
| `BackfillLaws.RunIgnoresClock` | apps/api/prisma/migration-seed-instructors-from-string.ts:68-69 | When no probe falls back the whole run is independent of the time it runs at, and completes |
| `BackfillLaws.NoFallbackAfterCrash` | apps/api/prisma/migration-seed-instructors-from-string.ts:72-164 | A crash at any point preserves that no probe falls back |
| `BackfillLaws.CrashAndRerun` | apps/api/prisma/migration-seed-instructors-from-string.ts:72-164 | Stopped after any prefix and rerun at any later time, the job completes with exactly the tables of one uninterrupted run |
| `BackfillLaws.AlwaysConvergesIff` | apps/api/prisma/migration-seed-instructors-from-string.ts:55-164 | That convergence, at every point and every later time, holds exactly when no probe falls back to the time hash |
| `BackfillLaws.FallbackDependsOnClock` | apps/api/prisma/migration-seed-instructors-from-string.ts:68-69 | A run that falls back aborts, or leaves instructors that depend on the clock |
| `BackfillLaws.FallbackReached` | apps/api/prisma/migration-seed-instructors-from-string.ts:55-70 | Concrete tables: 100 rows hold the candidates of a new name; its probe falls back and crash convergence fails |
| `BackfillLaws.FallbackRefused` | apps/api/prisma/migration-seed-instructors-from-string.ts:103-116 | Concrete tables: one row more holds the very slug the fallback builds; the create is refused and the run aborts with nothing written |
| `BackfillLaws.ManyCrashes` | apps/api/prisma/migration-seed-instructors-from-string.ts:72-164 | Any number of crashes at any points, then one complete run: again the same tables |
| `BackfillLaws.RerunWritesNothing` | apps/api/prisma/migration-seed-instructors-from-string.ts:28 | After any completed run a second run, at any time, creates no instructor and no link |
| `BackfillLaws.RoomyNeedsNoFallback` | apps/api/prisma/migration-seed-instructors-from-string.ts:55-70 | Checked before the run, for any number of names: if each base slug that will be probed has room for the new names that may take a candidate of it, no probe falls back |
| `BackfillLaws.AppendOnly` | apps/api/prisma/migration-seed-instructors-from-string.ts:91-164 | Existing rows stay as and where they are; courses are never written |
| `BackfillLaws.FindStable` | apps/api/prisma/migration-seed-instructors-from-string.ts:91-101 | A name once found keeps finding the same row |
| `BackfillLaws.RunStaysValid` | apps/api/prisma/migration-seed-instructors-from-string.ts:91-119 | A run, complete or aborted, keeps slugs and ids distinct, adds at most one row per name, and only appends |
| `BackfillLaws.EveryNameHasId` | apps/api/prisma/migration-seed-instructors-from-string.ts:130-139 | For every course with a non-empty, non-blank instructor the map holds the id of the earliest row of that name: the not-found branch is never taken |
| `BackfillLaws.EveryCourseLinked` | apps/api/prisma/migration-seed-instructors-from-string.ts:121-164 | After a completed run every such course has an instructor link to the earliest row of its name |
| `BackfillLaws.CreatedInstructor` | apps/api/prisma/migration-seed-instructors-from-string.ts:103-116 | Each row a run creates is published, has order 0, the next id, a name of the courses that no row before has, and the slug the probe gives on the rows before |
| `BackfillLaws.RunLinks` | apps/api/prisma/migration-seed-instructors-from-string.ts:130-163 | The links a run creates are exactly the missing ones: for each such course without an instructor link to that row, one primary link of order 0 |
| `BackfillLaws.OneLinkPerCourse` | apps/api/prisma/migration-seed-instructors-from-string.ts:130-163 | On any list of courses with distinct ids the loop adds at most one link per course |
| `BackfillLaws.RunLinksCoursesOnce` | apps/api/prisma/migration-seed-instructors-from-string.ts:121-164 | A run on valid tables adds at most one link per course |
| `KeyedUpsert.Store.Seed` | apps/api/prisma/seed-cms.ts:784-806 | The loop over the literal rows: update the first row with the key, or append a new one |
| `KeyedUpsert.ExistingRows` | apps/api/prisma/seed-cms.ts:620-648 | Existing rows keep place, id, key and creation-only columns; a listed key's first row carries the last listed values; all other rows are untouched |
| `KeyedUpsert.ListedRows` | apps/api/prisma/seed-cms.ts:620-648 | Afterwards the keys are the old ones and the listed ones, and each listed key carries the last listed values |
| `KeyedUpsert.Growth` | apps/api/prisma/seed-cms.ts:739-748 | The row count grows by exactly the number of distinct new keys |
| `KeyedUpsert.SeedTwice` | apps/api/prisma/seed-cms.ts:739-748 | Running the loop twice is running it once |
| `KeyedUpsert.Reseed` | apps/api/prisma/seed-cms.ts:784-806 | On a table that has all listed keys the loop creates nothing and restores exactly the listed columns |
| `KeyedUpsert.SeedCrash` | apps/api/prisma/seed-cms.ts:784-806 | Stopping the loop after any number of entries and running it again is running it once |
| `KeyedUpsert.CreatedRows` | apps/api/prisma/seed-cms.ts:784-806 | Each row the loop creates has a listed key and is the first row of that key |
| `KeyedUpsert.CreatedRowIs` | apps/api/prisma/seed-cms.ts:784-806 | It takes the next identifier and the creation-only columns of the first entry with its key, and its key was not in the table |
| `KeyedUpsert.CreatedInOrder` | apps/api/prisma/seed-cms.ts:784-806 | New rows stand in the order in which their keys are first listed |
| `KeyedUpsert.IdsStayDistinct` | apps/api/prisma/seed-cms.ts:784-806 | Identifiers stay distinct |
| `NavFooter.AddInstructorsNav` | apps/api/prisma/seed-nav-footer.ts:25-45 | The step shifts every row behind the courses row and appends the new row, or does nothing when the path is there |
| `NavFooter.NavInsertion` | apps/api/prisma/seed-nav-footer.ts:29-43 | The new row is the literal one, right behind the courses row or at 1; every row behind moves by one and nothing else changes; relative order and distinctness are kept |
| `NavFooter.NavStaysDense` | apps/api/prisma/seed-nav-footer.ts:29-43 | Indices 0..n-1 become 0..n exactly when the table was not empty |
| `NavFooter.NavTwice` | apps/api/prisma/seed-nav-footer.ts:25-28 | A table that has the path is left alone, so repeating the step does nothing |
| `NavFooter.NavStopIff` | apps/api/prisma/seed-nav-footer.ts:30-42 | Stopped between updateMany and create and run again, the step ends like one run exactly when no row lies behind /courses |
| `NavFooter.NavStopStaysDistinct` | apps/api/prisma/seed-nav-footer.ts:30-42 | Distinct order indices stay distinct even then |
| `NavFooter.StartAfterSeed` | apps/api/prisma/seed-cms.ts:784-794 | The place of the new row and whether it exists already, computed from the table and list before the CMS loop |
| `NavFooter.NavPairTwiceIff` | apps/api/prisma/seed-demo.ts:10-19 | CMS seed then nav step, run twice, equals once exactly when the new row was there or listed, or no listed row lies behind it |
| `NavFooter.NavPairDistinctIff` | apps/api/prisma/seed-cms.ts:784-794 | On a table whose order indices the CMS loop leaves distinct, they are distinct after two runs of the pair exactly when the new row was there or listed, or no listed row goes back to the place of the new row or of an unlisted row the insertion moved |
| `NavFooter.NavPairCollides` | apps/api/prisma/seed-cms.ts:784-794 | In either of those two cases two rows share an order index after the second run, whatever else does, and after the first they do only if the CMS loop left them so |
| `NavFooter.UnseededRows` | apps/api/prisma/seed-cms.ts:784-794 | The rows the CMS loop does not write are rows of the table before it, unchanged |
| `NavFooter.ShippedNavCollides` | apps/api/prisma/seed-cms.ts:528-533 | With the shipped list, on every table without the new row, the second run of the pair changes the table and makes two indices equal |
| `NavFooter.SpliceLink` | apps/api/prisma/seed-nav-footer.ts:58-62 | The splice and the forEach give the old links with the new one inserted and every position written as orderIndex |
| `NavFooter.AddInstructorsFooter` | apps/api/prisma/seed-nav-footer.ts:47-69 | The step changes the links of the learning column and nothing else, or does nothing |
| `NavFooter.FooterStep` | apps/api/prisma/seed-nav-footer.ts:47-69 | On the table: only the links of the first learning column change; they are the old ones in order with one new entry right behind the first /courses link, else at min(1, length), positions as orderIndex; a column that has /instructors is left alone |
| `NavFooter.FooterInsertion` | apps/api/prisma/seed-nav-footer.ts:56-62 | The same on a list of links |
| `NavFooter.FooterTwice` | apps/api/prisma/seed-nav-footer.ts:47-69 | Repeating the step does nothing |
| `NavFooter.LinkTwice` | apps/api/prisma/seed-nav-footer.ts:52-62 | On any list of links: the new link is there afterwards and a second insertion does nothing |
| `NavFooter.FooterPairTwice` | apps/api/prisma/seed-cms.ts:796-806 | For every seed list and table, CMS seed then footer step, run twice, leaves the footer as after running the pair once |
| `InstructorContent.Tables.Rebuild` | apps/api/prisma/seed-instructors-content.ts:204-213 | Delete and re-create, one commit each: the other instructors' links are kept in order and the rebuilt block follows |
| `InstructorContent.Tables.RefreshOne` | apps/api/prisma/seed-instructors-content.ts:191-215 | One entry: no commit when no row matches, else an update, a deleteMany and the creates, in this order |
| `InstructorContent.Tables.Run` | apps/api/prisma/seed-instructors-content.ts:188-216 | The loop refreshes entry by entry and commits exactly the planned writes in order; updated is the number of entries whose name some row has, skipped the others |
| `InstructorContent.EntryOrder` | apps/api/prisma/seed-instructors-content.ts:191-213 | The commits for one entry, in order: the update of the first row of its name, one deleteMany for that row, one create per link of the block |
| `InstructorContent.BlockMeans` | apps/api/prisma/seed-instructors-content.ts:206-213 | A rebuilt block holds, in order, exactly one link per known key at the position of the key, unknown keys leaving a gap |
| `InstructorContent.PeopleAfter` | apps/api/prisma/seed-instructors-content.ts:191-203 | Every row keeps place, id and name; a column holds the value of the last entry with the row's name that lists it, no earlier row having that name; every other column keeps its old value |
| `InstructorContent.LinksAfter` | apps/api/prisma/seed-instructors-content.ts:191-213 | Each instructor ends with exactly the links of the last entry whose name is first found at its row, in the order of the keys, and with the old ones, in order, when there is none |
| `InstructorContent.OthersKeepOrder` | apps/api/prisma/seed-instructors-content.ts:204-213 | The links of unmatched instructors also keep their order among each other |
| `InstructorContent.RefreshTwice` | apps/api/prisma/seed-instructors-content.ts:14 | Running the refresh twice leaves the tables exactly as running it once |
| `InstructorContent.CrashAndRefresh` | apps/api/prisma/seed-instructors-content.ts:191-213 | Stopped after any of its commits, between update, deleteMany and any create, and run again: exactly the tables of one uninterrupted run |
| `InstructorContent.ManyCrashes` | apps/api/prisma/seed-instructors-content.ts:191-213 | The same after any number of stops |

## Left out

- Codec.DecodeStruct: on a malformed stream only that an error is returned, because which one depends on the reader's internals; after a bad value the field it was meant for is not described, for the same reason.
- Codec.DecodeFields: leaves open the same two things, and the bitset after a bad value, which nothing reads.
- Codec.OnKey: leaves open the value of the selected field after a bad value.
- BackfillLaws.Resume: speaks of a restart with the readings the stopped run would have taken; `BackfillLaws.CrashIsSplice` is the statement for any later readings.
- BackfillLaws.ResumeInstructors: the same, for the first loop alone.
- BackfillJob.EnsureUniqueSlug: whether the fallback slug is free is not promised, because the code does not check it; a create under a taken slug is the abort of `BackfillJob.FindOrCreate`.
- BackfillJob.Run: the list of names is computed by the functions `Selected` and `NamesOf`, not by a loop, as in the source's expression chain; `distinct` compares raw strings exactly and keeps the first of each, where a collating `distinct` could merge spellings.
- Number text, string escaping, whitespace, NaN and infinities: numbers are reals, strings are opaque, and the stream is one of tokens.
- String enums decode as plain strings, because every branch of their Decode assigns the text it read.
- Decode and Encode on a nil receiver, the byte buffers of MarshalJSON, and the positions and wrapping text of errors beyond the field or type named.
- The DTO types not in `Dtos`: copies of the same skeleton with other tables.
- Slug lookup, link lookup and path lookup compare exactly; only instructor names go through the database's sort key.
- Identifiers are counted from `nextId`, not random; AuditLog rows, timestamps other than the published flag, and console output do not appear.
- Errors of the database other than the unique slug index, and other writers running at the same time.
- The composite key of the expertise links, which would refuse a literal entry that repeats an expertise key.
- `seed-instructors-content.ts` step 1 is an instance of `KeyedUpsert.Store.Seed`; step 3 (one mentor link) is not modelled.
- The CMS loops that find a row by a key of several columns or by id are instances of the same loop with a tuple as key; their literal rows do not appear, except the navigation list.
- The footer's `forEach` writes into objects shared with the list that was read; that list is not used again, so the sharing is not modelled.
- Other seed scripts, routing, handlers, security and response encoders: plumbing, or no rule to state.
