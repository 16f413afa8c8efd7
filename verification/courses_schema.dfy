/** The course records of clients/courses/courses_schema.py. Every model
    with aliases sets `populate_by_name=True`. A course as returned by the
    server embeds its preview file and its author in full; a create request
    refers to them by id only. */
module CoursesSchema {
  import opened Wrappers
  import opened Wire
  import opened FilesSchema
  import opened UsersSchema

  /** CourseSchema. The server assigns `id`. */
  datatype Course = Course(
    id: string, title: string, maxScore: int, minScore: int, description: string,
    previewFile: File, estimatedTime: string, createdByUser: User)

  /** GetCoursesQuerySchema: the query string of the course list. */
  datatype GetCoursesQuery = GetCoursesQuery(userId: string)

  /** CreateCourseRequestSchema: no `id`; file and author by id. */
  datatype CreateCourseRequest = CreateCourseRequest(
    title: string, maxScore: int, minScore: int, description: string,
    estimatedTime: string, previewFileId: string, createdByUserId: string)

  /** CreateCourseResponseSchema: one course under the key `course`. The
      update response, imported by the assertions as
      UpdateCourseResponseSchema, has no class in the schema file; it is
      modelled with the same shape. */
  datatype CourseResponse = CourseResponse(course: Course)

  /** UpdateCourseRequestSchema: five nullable fields; no `id`, no file,
      no author. */
  datatype UpdateCourseRequest = UpdateCourseRequest(
    title: Option<string>, maxScore: Option<int>, minScore: Option<int>,
    description: Option<string>, estimatedTime: Option<string>)

  /** The course list response, imported by the assertions as
      GetCoursesResponseSchema; it has no class in the schema file. */
  datatype CoursesResponse = CoursesResponse(courses: seq<Course>)

  const CourseFields: seq<Field> := [
    Field("id", "id"), Field("title", "title"), Field("max_score", "maxScore"), Field("min_score", "minScore"),
    Field("description", "description"), Field("preview_file", "previewFile"),
    Field("estimated_time", "estimatedTime"), Field("created_by_user", "createdByUser")]

  const GetCoursesQueryFields: seq<Field> := [Field("user_id", "userId")]

  const CreateCourseRequestFields: seq<Field> := [
    Field("title", "title"), Field("max_score", "maxScore"), Field("min_score", "minScore"),
    Field("description", "description"), Field("estimated_time", "estimatedTime"),
    Field("preview_file_id", "previewFileId"), Field("created_by_user_id", "createdByUserId")]

  const CourseResponseFields: seq<Field> := [Field("course", "course")]

  const CoursesResponseFields: seq<Field> := [Field("courses", "courses")]

  const UpdateCourseRequestFields: seq<Field> := [
    Field("title", "title"), Field("max_score", "maxScore"), Field("min_score", "minScore"),
    Field("description", "description"), Field("estimated_time", "estimatedTime")]

  lemma CourseTablesInjective()
    ensures DistinctAliases(CourseFields) && DistinctAliases(CreateCourseRequestFields)
    ensures DistinctAliases(UpdateCourseRequestFields)
  {
  }

  predicate ValidCourse(c: Course, fm: Formats) {
    ValidFile(c.previewFile, fm) && ValidUser(c.createdByUser, fm)
  }

  function CourseValues(c: Course): seq<Value> {
    [Str(c.id), Str(c.title), Int(c.maxScore), Int(c.minScore), Str(c.description),
     Obj(EncodeFile(c.previewFile)), Str(c.estimatedTime), Obj(EncodeUser(c.createdByUser))]
  }

  /** The nested file and user are dumped as whole objects, not as ids. */
  function EncodeCourse(c: Course): (m: Object)
    ensures m.Keys == AliasKeys(CourseFields)
  {
    Encode(CourseFields, CourseValues(c))
  }

  lemma EncodeCourseEmbeds(c: Course)
    ensures EncodeCourse(c)["previewFile"] == Obj(EncodeFile(c.previewFile))
    ensures EncodeCourse(c)["createdByUser"] == Obj(EncodeUser(c.createdByUser))
  {
    CourseTablesInjective();
    var vals := CourseValues(c);
    EncodeField(CourseFields, vals, 5);
    EncodeField(CourseFields, vals, 7);
  }

  /** The field values of a course object, in table order, have the kinds
      a course needs: strings and ints where it has them, and nested
      objects that parse as a file and a user. */
  predicate CourseKinds(vals: seq<Value>, fm: Formats)
    requires |vals| == |CourseFields|
  {
    vals[0].Str? && vals[1].Str? && vals[2].Int? && vals[3].Int? && vals[4].Str? &&
    vals[5].Obj? && DecodeFile(vals[5].fields, fm).Success? && vals[6].Str? &&
    vals[7].Obj? && DecodeUser(vals[7].fields, fm).Success?
  }

  /** The field values of a course object hold the course `c`: its scalar
      fields are the values found, and its file and author are what the
      nested objects parse to. */
  predicate HoldsCourse(vals: seq<Value>, c: Course, fm: Formats)
    requires |vals| == |CourseFields|
  {
    vals[0] == Str(c.id) && vals[1] == Str(c.title) && vals[2] == Int(c.maxScore) &&
    vals[3] == Int(c.minScore) && vals[4] == Str(c.description) &&
    vals[5].Obj? && DecodeFile(vals[5].fields, fm) == Success(c.previewFile) &&
    vals[6] == Str(c.estimatedTime) &&
    vals[7].Obj? && DecodeUser(vals[7].fields, fm) == Success(c.createdByUser)
  }

  /** The course held by the field values of a course object, in table order. */
  function CourseFromValues(vals: seq<Value>, fm: Formats): (r: Result<Course, DecodeError>)
    requires |vals| == |CourseFields|
    ensures r.Success? <==> CourseKinds(vals, fm)
    ensures r.Success? ==> HoldsCourse(vals, r.value, fm)
    ensures r.Success? && Canonical(fm) ==> ValidCourse(r.value, fm)
  {
    var id :- AsStr(vals[0], At(CourseFields, 0));
    var title :- AsStr(vals[1], At(CourseFields, 1));
    var maxScore :- AsInt(vals[2], At(CourseFields, 2));
    var minScore :- AsInt(vals[3], At(CourseFields, 3));
    var description :- AsStr(vals[4], At(CourseFields, 4));
    var fileObj :- AsObj(vals[5], At(CourseFields, 5));
    var previewFile :- Within("previewFile", DecodeFile(fileObj, fm));
    var estimatedTime :- AsStr(vals[6], At(CourseFields, 6));
    var userObj :- AsObj(vals[7], At(CourseFields, 7));
    var createdByUser :- Within("createdByUser", DecodeUser(userObj, fm));
    Success(Course(id, title, maxScore, minScore, description, previewFile, estimatedTime, createdByUser))
  }

  /** A payload parses exactly when all eight fields are found with the
      kinds a course needs; the course then holds the values found. */
  function DecodeCourse(obj: Object, fm: Formats): (r: Result<Course, DecodeError>)
    ensures r.Success? <==>
              DecodeFields(CourseFields, obj, true).Success? && CourseKinds(DecodeFields(CourseFields, obj, true).value, fm)
    ensures r.Success? ==>
              DecodeFields(CourseFields, obj, true).Success? && HoldsCourse(DecodeFields(CourseFields, obj, true).value, r.value, fm)
    ensures r.Success? && Canonical(fm) ==> ValidCourse(r.value, fm)
  {
    var vals :- DecodeFields(CourseFields, obj, true);
    CourseFromValues(vals, fm)
  }

  /** A payload carrying every camelCase key of a course, and of its
      author, dumps back to exactly those keys with the values received,
      except that the nested file and author are dumped as re-encoded by
      FileReencode and UserReencode. */
  lemma CourseReencode(obj: Object, fm: Formats)
    requires DecodeCourse(obj, fm).Success? && AliasKeys(CourseFields) <= obj.Keys
    requires "previewFile" in obj && "createdByUser" in obj && obj["createdByUser"].Obj?
    requires AliasKeys(UserFields) <= obj["createdByUser"].fields.Keys
    ensures obj["previewFile"].Obj?
    ensures var fileObj := obj["previewFile"].fields;
            var userObj := obj["createdByUser"].fields;
            EncodeCourse(DecodeCourse(obj, fm).value) ==
              Project(obj, AliasKeys(CourseFields))
                ["previewFile" := Obj(Project(fileObj, AliasKeys(FileFields))["url" := Normalised(fileObj["url"], fm.httpUrl)])]
                ["createdByUser" := Obj(Project(userObj, AliasKeys(UserFields))["email" := Normalised(userObj["email"], fm.email)])]
  {
    var c := DecodeCourse(obj, fm).value;
    var vals := DecodeFields(CourseFields, obj, true).value;
    assert HoldsCourse(vals, c, fm);
    assert vals[5] == obj["previewFile"] && vals[7] == obj["createdByUser"] by {
      assert Lookup(obj, CourseFields[5], true) == Some(vals[5]);
      assert Lookup(obj, CourseFields[7], true) == Some(vals[7]);
    }
    var fileObj := obj["previewFile"].fields;
    var userObj := obj["createdByUser"].fields;
    FileReencode(fileObj, fm);
    UserReencode(userObj, fm);
    CourseTablesInjective();
    ReencodeFields(CourseFields, obj, true, vals);
    ReplaceNested(vals, c);
    EncodeReplaced(CourseFields, vals, 5, Obj(EncodeFile(c.previewFile)));
    EncodeReplaced(CourseFields, vals[5 := Obj(EncodeFile(c.previewFile))], 7, Obj(EncodeUser(c.createdByUser)));
  }

  /** Values holding a course differ from the course's own dump only in the
      nested file and author. */
  lemma ReplaceNested(vals: seq<Value>, c: Course)
    requires |vals| == |CourseFields|
    requires vals[0] == Str(c.id) && vals[1] == Str(c.title) && vals[2] == Int(c.maxScore)
    requires vals[3] == Int(c.minScore) && vals[4] == Str(c.description) && vals[6] == Str(c.estimatedTime)
    ensures CourseValues(c) == vals[5 := Obj(EncodeFile(c.previewFile))][7 := Obj(EncodeUser(c.createdByUser))]
  {
  }

  /** A valid course, nested records included, survives a by-alias dump
      and a parse unchanged. */
  lemma CourseRoundTrip(c: Course, fm: Formats)
    requires ValidCourse(c, fm)
    ensures DecodeCourse(EncodeCourse(c), fm) == Success(c)
  {
    CourseTablesInjective();
    DecodeEncodeFields(CourseFields, CourseValues(c), true);
    CourseFromOwnValues(c, fm);
  }

  lemma CourseFromOwnValues(c: Course, fm: Formats)
    requires ValidCourse(c, fm)
    ensures CourseFromValues(CourseValues(c), fm) == Success(c)
  {
    FileRoundTrip(c.previewFile, fm);
    UserRoundTrip(c.createdByUser, fm);
    CourseFromNestedValues(c, fm, EncodeFile(c.previewFile), EncodeUser(c.createdByUser));
  }

  lemma CourseFromNestedValues(c: Course, fm: Formats, fileObj: Object, userObj: Object)
    requires DecodeFile(fileObj, fm) == Success(c.previewFile)
    requires DecodeUser(userObj, fm) == Success(c.createdByUser)
    ensures CourseFromValues([Str(c.id), Str(c.title), Int(c.maxScore), Int(c.minScore), Str(c.description),
                              Obj(fileObj), Str(c.estimatedTime), Obj(userObj)], fm) == Success(c)
  {
    var t := CourseFields;
    assert AsObj(Obj(fileObj), At(t, 5)) == Success(fileObj);
    assert Within("previewFile", DecodeFile(fileObj, fm)) == Success(c.previewFile);
    assert AsObj(Obj(userObj), At(t, 7)) == Success(userObj);
    assert Within("createdByUser", DecodeUser(userObj, fm)) == Success(c.createdByUser);
  }

  function EncodeGetCoursesQuery(q: GetCoursesQuery): (m: Object)
  {
    Encode(GetCoursesQueryFields, [Str(q.userId)])
  }

  function DecodeGetCoursesQuery(obj: Object): (r: Result<GetCoursesQuery, DecodeError>)
    ensures r.Success? <==> ("userId" in obj && obj["userId"].Str?) || ("userId" !in obj && "user_id" in obj && obj["user_id"].Str?)
    ensures r.Success? ==> Lookup(obj, GetCoursesQueryFields[0], true) == Some(Str(r.value.userId))
  {
    var vals :- DecodeFields(GetCoursesQueryFields, obj, true);
    var userId :- AsStr(vals[0], At(GetCoursesQueryFields, 0));
    Success(GetCoursesQuery(userId))
  }

  lemma GetCoursesQueryRoundTrip(q: GetCoursesQuery)
    ensures DecodeGetCoursesQuery(EncodeGetCoursesQuery(q)) == Success(q)
  {
    DecodeEncodeFields(GetCoursesQueryFields, [Str(q.userId)], true);
  }

  function CreateCourseRequestValues(q: CreateCourseRequest): seq<Value> {
    [Str(q.title), Int(q.maxScore), Int(q.minScore), Str(q.description),
     Str(q.estimatedTime), Str(q.previewFileId), Str(q.createdByUserId)]
  }

  function EncodeCreateCourseRequest(q: CreateCourseRequest): (m: Object)
  {
    Encode(CreateCourseRequestFields, CreateCourseRequestValues(q))
  }

  /** Strings and ints where a create-course request has them. */
  predicate CreateCourseRequestKinds(vals: seq<Value>)
    requires |vals| == |CreateCourseRequestFields|
  {
    vals[0].Str? && vals[1].Int? && vals[2].Int? && vals[3].Str? && vals[4].Str? && vals[5].Str? && vals[6].Str?
  }

  function CreateCourseRequestFromValues(vals: seq<Value>): (r: Result<CreateCourseRequest, DecodeError>)
    requires |vals| == |CreateCourseRequestFields|
    ensures r.Success? <==> CreateCourseRequestKinds(vals)
    ensures r.Success? ==> CreateCourseRequestValues(r.value) == vals
  {
    var title :- AsStr(vals[0], At(CreateCourseRequestFields, 0));
    var maxScore :- AsInt(vals[1], At(CreateCourseRequestFields, 1));
    var minScore :- AsInt(vals[2], At(CreateCourseRequestFields, 2));
    var description :- AsStr(vals[3], At(CreateCourseRequestFields, 3));
    var estimatedTime :- AsStr(vals[4], At(CreateCourseRequestFields, 4));
    var previewFileId :- AsStr(vals[5], At(CreateCourseRequestFields, 5));
    var createdByUserId :- AsStr(vals[6], At(CreateCourseRequestFields, 6));
    Success(CreateCourseRequest(title, maxScore, minScore, description, estimatedTime, previewFileId, createdByUserId))
  }

  /** A request parses exactly when its seven fields are found with the
      kinds of a create request; its fields are then the values found. */
  function DecodeCreateCourseRequest(obj: Object): (r: Result<CreateCourseRequest, DecodeError>)
    ensures r.Success? <==>
              DecodeFields(CreateCourseRequestFields, obj, true).Success? &&
              CreateCourseRequestKinds(DecodeFields(CreateCourseRequestFields, obj, true).value)
    ensures r.Success? ==>
              DecodeFields(CreateCourseRequestFields, obj, true).Success? &&
              CreateCourseRequestValues(r.value) == DecodeFields(CreateCourseRequestFields, obj, true).value
  {
    var vals :- DecodeFields(CreateCourseRequestFields, obj, true);
    CreateCourseRequestFromValues(vals)
  }

  /** The create request of courses_client.py (`model_dump(by_alias=True)`)
      parses back to the same request. */
  lemma CreateCourseRequestRoundTrip(q: CreateCourseRequest)
    ensures DecodeCreateCourseRequest(EncodeCreateCourseRequest(q)) == Success(q)
  {
    CourseTablesInjective();
    DecodeEncodeFields(CreateCourseRequestFields, CreateCourseRequestValues(q), true);
  }

  function UpdateCourseRequestValues(q: UpdateCourseRequest): seq<Value> {
    [OptStr(q.title), OptInt(q.maxScore), OptInt(q.minScore), OptStr(q.description), OptStr(q.estimatedTime)]
  }

  /** A None field is dumped as JSON null, not left out. */
  function EncodeUpdateCourseRequest(q: UpdateCourseRequest): (m: Object)
  {
    Encode(UpdateCourseRequestFields, UpdateCourseRequestValues(q))
  }

  /** Every key must be present, but each may hold null. A request parses
      exactly when every field is null or of its kind, and its fields are
      then the values found. */
  function DecodeUpdateCourseRequest(obj: Object): (r: Result<UpdateCourseRequest, DecodeError>)
    ensures r.Success? <==>
              DecodeFields(UpdateCourseRequestFields, obj, true).Success? &&
              (var vals := DecodeFields(UpdateCourseRequestFields, obj, true).value;
               (vals[0].Null? || vals[0].Str?) && (vals[1].Null? || vals[1].Int?) && (vals[2].Null? || vals[2].Int?) &&
               (vals[3].Null? || vals[3].Str?) && (vals[4].Null? || vals[4].Str?))
    ensures r.Success? ==>
              DecodeFields(UpdateCourseRequestFields, obj, true).Success? &&
              UpdateCourseRequestValues(r.value) == DecodeFields(UpdateCourseRequestFields, obj, true).value
  {
    var vals :- DecodeFields(UpdateCourseRequestFields, obj, true);
    var title :- AsOptStr(vals[0], At(UpdateCourseRequestFields, 0));
    var maxScore :- AsOptInt(vals[1], At(UpdateCourseRequestFields, 1));
    var minScore :- AsOptInt(vals[2], At(UpdateCourseRequestFields, 2));
    var description :- AsOptStr(vals[3], At(UpdateCourseRequestFields, 3));
    var estimatedTime :- AsOptStr(vals[4], At(UpdateCourseRequestFields, 4));
    Success(UpdateCourseRequest(title, maxScore, minScore, description, estimatedTime))
  }

  lemma UpdateCourseRequestRoundTrip(q: UpdateCourseRequest)
    ensures DecodeUpdateCourseRequest(EncodeUpdateCourseRequest(q)) == Success(q)
  {
    CourseTablesInjective();
    DecodeEncodeFields(UpdateCourseRequestFields, UpdateCourseRequestValues(q), true);
    OptStrRoundTrip(q.title, At(UpdateCourseRequestFields, 0));
    OptIntRoundTrip(q.maxScore, At(UpdateCourseRequestFields, 1));
    OptIntRoundTrip(q.minScore, At(UpdateCourseRequestFields, 2));
    OptStrRoundTrip(q.description, At(UpdateCourseRequestFields, 3));
    OptStrRoundTrip(q.estimatedTime, At(UpdateCourseRequestFields, 4));
  }

  function EncodeCourseResponse(r: CourseResponse): (m: Object)
  {
    Encode(CourseResponseFields, [Obj(EncodeCourse(r.course))])
  }

  function DecodeCourseResponse(obj: Object, fm: Formats): (r: Result<CourseResponse, DecodeError>)
    ensures r.Success? <==> "course" in obj && obj["course"].Obj? && DecodeCourse(obj["course"].fields, fm).Success?
    ensures r.Success? ==> "course" in obj && obj["course"].Obj? && DecodeCourse(obj["course"].fields, fm) == Success(r.value.course)
  {
    var vals :- DecodeFields(CourseResponseFields, obj, false);
    var inner :- AsObj(vals[0], At(CourseResponseFields, 0));
    var course :- Within("course", DecodeCourse(inner, fm));
    Success(CourseResponse(course))
  }

  lemma CourseResponseRoundTrip(r: CourseResponse, fm: Formats)
    requires ValidCourse(r.course, fm)
    ensures DecodeCourseResponse(EncodeCourseResponse(r), fm) == Success(r)
  {
    var inner := EncodeCourse(r.course);
    assert DecodeFields(CourseResponseFields, EncodeCourseResponse(r), false) == Success([Obj(inner)]) by {
      DecodeEncodeFields(CourseResponseFields, [Obj(inner)], false);
    }
    assert DecodeCourse(inner, fm) == Success(r.course) by {
      CourseRoundTrip(r.course, fm);
    }
    DecodeCourseResponseOf(EncodeCourseResponse(r), inner, r.course, fm);
  }

  /** The response parses to whatever its one `course` object parses to. */
  lemma DecodeCourseResponseOf(obj: Object, inner: Object, c: Course, fm: Formats)
    requires DecodeFields(CourseResponseFields, obj, false) == Success([Obj(inner)])
    requires DecodeCourse(inner, fm) == Success(c)
    ensures DecodeCourseResponse(obj, fm) == Success(CourseResponse(c))
  {
  }

  function EncodeCoursesResponse(r: CoursesResponse): (m: Object)
  {
    Encode(CoursesResponseFields, [Arr(EncodeList(r.courses, EncodeCourse))])
  }

  /** A response parses exactly when `courses` holds a list of objects that
      all parse as courses; course i is then what element i parses to. */
  function DecodeCoursesResponse(obj: Object, fm: Formats): (r: Result<CoursesResponse, DecodeError>)
    ensures r.Success? <==>
              "courses" in obj && obj["courses"].Arr? &&
              forall i :: 0 <= i < |obj["courses"].items| ==>
                obj["courses"].items[i].Obj? && DecodeCourse(obj["courses"].items[i].fields, fm).Success?
    ensures r.Success? ==>
              "courses" in obj && obj["courses"].Arr? && |r.value.courses| == |obj["courses"].items| &&
              forall i :: 0 <= i < |obj["courses"].items| ==>
                obj["courses"].items[i].Obj? && DecodeCourse(obj["courses"].items[i].fields, fm) == Success(r.value.courses[i])
  {
    var dec := o => DecodeCourse(o, fm);
    CourseListElements(obj, fm);
    var vals :- DecodeFields(CoursesResponseFields, obj, false);
    var items :- if vals[0].Arr? then Success(vals[0].items) else Failure(DecodeError(WrongType, At(CoursesResponseFields, 0)));
    var courses :- Within("courses", DecodeList(items, 0, dec));
    Success(CoursesResponse(courses))
  }

  /** The course list parses element by element. */
  lemma CourseListElements(obj: Object, fm: Formats)
    ensures "courses" in obj && obj["courses"].Arr? ==>
              var items := obj["courses"].items;
              var r := DecodeList(items, 0, o => DecodeCourse(o, fm));
              (r.Success? <==> forall i :: 0 <= i < |items| ==> items[i].Obj? && DecodeCourse(items[i].fields, fm).Success?) &&
              (r.Success? ==> forall i :: 0 <= i < |items| ==> DecodeCourse(items[i].fields, fm) == Success(r.value[i]))
  {
    if "courses" in obj && obj["courses"].Arr? {
      DecodeListElements(obj["courses"].items, 0, o => DecodeCourse(o, fm));
    }
  }

  /** The list response keeps every valid course and their order. */
  lemma CoursesResponseRoundTrip(r: CoursesResponse, fm: Formats)
    requires forall i :: 0 <= i < |r.courses| ==> ValidCourse(r.courses[i], fm)
    ensures DecodeCoursesResponse(EncodeCoursesResponse(r), fm) == Success(r)
  {
    DecodeEncodeFields(CoursesResponseFields, [Arr(EncodeList(r.courses, EncodeCourse))], false);
    var dec := o => DecodeCourse(o, fm);
    forall i | 0 <= i < |r.courses| ensures dec(EncodeCourse(r.courses[i])) == Success(r.courses[i]) {
      CourseRoundTrip(r.courses[i], fm);
    }
    DecodeEncodeList(r.courses, 0, EncodeCourse, dec);
  }

  lemma GetCoursesQueryWireKeys(q: GetCoursesQuery)
    ensures EncodeGetCoursesQuery(q).Keys == {"userId"}
  {
  }

  lemma CreateCourseRequestWireKeys(q: CreateCourseRequest)
    ensures EncodeCreateCourseRequest(q).Keys == {"title", "maxScore", "minScore", "description", "estimatedTime", "previewFileId", "createdByUserId"}
  {
    AliasKeysListed(CreateCourseRequestFields, ["title", "maxScore", "minScore", "description", "estimatedTime", "previewFileId", "createdByUserId"]);
  }

  lemma UpdateCourseRequestWireKeys(q: UpdateCourseRequest)
    ensures EncodeUpdateCourseRequest(q).Keys == {"title", "maxScore", "minScore", "description", "estimatedTime"}
  {
    AliasKeysListed(UpdateCourseRequestFields, ["title", "maxScore", "minScore", "description", "estimatedTime"]);
  }

  lemma CourseResponseWireKeys(r: CourseResponse)
    ensures EncodeCourseResponse(r).Keys == {"course"}
  {
  }

  lemma CoursesResponseWireKeys(r: CoursesResponse)
    ensures EncodeCoursesResponse(r).Keys == {"courses"}
  {
  }
}
