/** The checks of tools/assertions/courses.py. */
module CourseAssertions {
  import opened Wrappers
  import opened Wire
  import opened Checks
  import opened FilesSchema
  import opened UsersSchema
  import opened CoursesSchema
  import opened FileAssertions
  import opened UserAssertions

  /** The update that sets every updatable field of `c` to its value. */
  function FullUpdateOf(c: Course): UpdateCourseRequest {
    UpdateCourseRequest(Some(c.title), Some(c.maxScore), Some(c.minScore), Some(c.description), Some(c.estimatedTime))
  }

  /** assert_update_course_response: title, max score, min score,
      description and estimated time compared with the request's. A None in
      the request never equals the response's value, so the check passes
      exactly when the request is the full update of the returned course. */
  function AssertUpdateCourseResponse(q: UpdateCourseRequest, r: CourseResponse): (c: Check)
    ensures c.Pass? <==> q == FullUpdateOf(r.course)
  {
    UpdateCourseComparisonsAgree(q, r.course);
    CompareAll(UpdateCourseComparisons(q, r.course))
  }

  /** The five assert_equal lines of assert_update_course_response. */
  function UpdateCourseComparisons(q: UpdateCourseRequest, c: Course): seq<Comparison> {
    [Comparison("title", Str(c.title), OptStr(q.title)),
     Comparison("max_score", Int(c.maxScore), OptInt(q.maxScore)),
     Comparison("min_score", Int(c.minScore), OptInt(q.minScore)),
     Comparison("description", Str(c.description), OptStr(q.description)),
     Comparison("estimated_time", Str(c.estimatedTime), OptStr(q.estimatedTime))]
  }

  /** When all five lines agree, the request is the full update. */
  lemma UpdateCourseComparisonsAgree(q: UpdateCourseRequest, c: Course)
    ensures var cs := UpdateCourseComparisons(q, c);
            (forall i :: 0 <= i < |cs| ==> Agrees(cs[i])) ==> q == FullUpdateOf(c)
  {
    var cs := UpdateCourseComparisons(q, c);
    if forall i :: 0 <= i < |cs| ==> Agrees(cs[i]) {
      assert Agrees(cs[0]) && Agrees(cs[1]);
      assert Agrees(cs[2]) && Agrees(cs[3]);
      assert Agrees(cs[4]);
    }
  }

  /** A partial update, one that leaves any field None, fails the check. */
  lemma PartialCourseUpdateFails(q: UpdateCourseRequest, r: CourseResponse)
    requires q.title.None? || q.maxScore.None? || q.minScore.None? || q.description.None? || q.estimatedTime.None?
    ensures AssertUpdateCourseResponse(q, r).Fail?
  {
  }

  /** The update check never looks at the course id, its preview file or its
      author. */
  lemma UpdateCourseCheckIgnoresIdFileUser(q: UpdateCourseRequest, r: CourseResponse, id: string, f: File, u: User)
    ensures AssertUpdateCourseResponse(q, r.(course := r.course.(id := id, previewFile := f, createdByUser := u)))
            == AssertUpdateCourseResponse(q, r)
  {
  }

  /** The scalar assert_equal lines of assert_course. */
  function CourseComparisons(actual: Course, expected: Course): seq<Comparison> {
    [Comparison("id", Str(actual.id), Str(expected.id)),
     Comparison("title", Str(actual.title), Str(expected.title)),
     Comparison("max_score", Int(actual.maxScore), Int(expected.maxScore)),
     Comparison("min_score", Int(actual.minScore), Int(expected.minScore)),
     Comparison("description", Str(actual.description), Str(expected.description)),
     Comparison("estimated_time", Str(actual.estimatedTime), Str(expected.estimatedTime))]
  }

  /** assert_course: the scalar fields, then the preview file through
      assert_file and the author through assert_user. Passes exactly when
      the two courses are the same record, nested records included. */
  function AssertCourse(actual: Course, expected: Course): (c: Check)
    ensures c.Pass? <==> actual == expected
  {
    CourseComparisonsAgree(actual, expected);
    Then(CompareAll(CourseComparisons(actual, expected)),
         Then(AssertFile(actual.previewFile, expected.previewFile),
              AssertUser(actual.createdByUser, expected.createdByUser)))
  }

  /** The scalar lines agree exactly when the courses are equal apart from
      the nested file and author. */
  lemma CourseComparisonsAgree(actual: Course, expected: Course)
    ensures var cs := CourseComparisons(actual, expected);
            (forall i :: 0 <= i < |cs| ==> Agrees(cs[i])) <==>
            actual.(previewFile := expected.previewFile, createdByUser := expected.createdByUser) == expected
  {
    var cs := CourseComparisons(actual, expected);
    if forall i :: 0 <= i < |cs| ==> Agrees(cs[i]) {
      assert Agrees(cs[0]) && Agrees(cs[1]);
      assert Agrees(cs[2]) && Agrees(cs[3]);
      assert Agrees(cs[4]) && Agrees(cs[5]);
    }
  }

  /** The courses the create responses carry, in order. */
  function CreatedCourses(created: seq<CourseResponse>): (cs: seq<Course>)
    ensures |cs| == |created| && forall i :: 0 <= i < |created| ==> cs[i] == created[i].course
  {
    seq(|created|, i requires 0 <= i < |created| => created[i].course)
  }

  /** assert_get_courses_response: the number of courses first, then each
      listed course against the course of the create response at the same
      position. Passes exactly when the list is the created courses in
      creation order. */
  function AssertGetCoursesResponse(got: CoursesResponse, created: seq<CourseResponse>): (c: Check)
    ensures c.Pass? <==> got.courses == CreatedCourses(created)
    ensures |got.courses| != |created| ==> c == Fail(LengthMismatch("courses", |created|, |got.courses|))
  {
    var expected := seq(|created|, i requires 0 <= i < |created| => created[i].course);
    EachIsListEquality(got.courses, expected, "courses", AssertCourse);
    AssertEach(got.courses, expected, "courses", AssertCourse)
  }

  /** The listed courses are compared by position: listing two different
      created courses in swapped order fails. */
  lemma CourseOrderMatters(created: seq<CourseResponse>, i: nat, j: nat)
    requires i < |created| && j < |created| && created[i].course != created[j].course
    ensures var cs := CreatedCourses(created);
            AssertGetCoursesResponse(CoursesResponse(cs[i := cs[j]][j := cs[i]]), created).Fail?
  {
    var cs := CreatedCourses(created);
    assert cs[i := cs[j]][j := cs[i]][j] != cs[j];
  }

  /** The create request that `c` answers: its scalar fields, and its file
      and author by id. */
  function CreateRequestFor(c: Course): CreateCourseRequest {
    CreateCourseRequest(c.title, c.maxScore, c.minScore, c.description, c.estimatedTime,
                        c.previewFile.id, c.createdByUser.id)
  }

  /** assert_create_course_response: title, max score, min score, preview
      file id, description, estimated time and author id, in that order.
      Passes exactly when the returned course answers the request. */
  function AssertCreateCourseResponse(q: CreateCourseRequest, r: CourseResponse): (c: Check)
    ensures c.Pass? <==> CreateRequestFor(r.course) == q
  {
    CreateCourseComparisonsAgree(q, r.course);
    CompareAll(CreateCourseComparisons(q, r.course))
  }

  /** The seven assert_equal lines of assert_create_course_response. */
  function CreateCourseComparisons(q: CreateCourseRequest, c: Course): seq<Comparison> {
    [Comparison("title", Str(c.title), Str(q.title)),
     Comparison("max_score", Int(c.maxScore), Int(q.maxScore)),
     Comparison("min_score", Int(c.minScore), Int(q.minScore)),
     Comparison("preview_file_id", Str(c.previewFile.id), Str(q.previewFileId)),
     Comparison("description", Str(c.description), Str(q.description)),
     Comparison("estimated_time", Str(c.estimatedTime), Str(q.estimatedTime)),
     Comparison("created_by_user_id", Str(c.createdByUser.id), Str(q.createdByUserId))]
  }

  /** When all seven lines agree, the course answers the request. */
  lemma CreateCourseComparisonsAgree(q: CreateCourseRequest, c: Course)
    ensures var cs := CreateCourseComparisons(q, c);
            (forall i :: 0 <= i < |cs| ==> Agrees(cs[i])) ==> CreateRequestFor(c) == q
  {
    var cs := CreateCourseComparisons(q, c);
    if forall i :: 0 <= i < |cs| ==> Agrees(cs[i]) {
      assert Agrees(cs[0]) && Agrees(cs[1]);
      assert Agrees(cs[2]) && Agrees(cs[3]);
      assert Agrees(cs[4]) && Agrees(cs[5]);
      assert Agrees(cs[6]);
    }
  }

  /** Only the ids of the embedded file and author are examined on create:
      the rest of the nested records may be anything. */
  lemma CreateCourseCheckSeesOnlyNestedIds(q: CreateCourseRequest, r: CourseResponse, f: File, u: User)
    requires f.id == r.course.previewFile.id && u.id == r.course.createdByUser.id
    ensures AssertCreateCourseResponse(q, r.(course := r.course.(previewFile := f, createdByUser := u)))
            == AssertCreateCourseResponse(q, r)
  {
  }
}
