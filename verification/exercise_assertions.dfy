/** The checks of tools/assertions/exercises.py. */
module ExerciseAssertions {
  import opened Wrappers
  import opened Wire
  import opened Checks
  import opened ExercisesSchema
  import opened ErrorsSchema
  import opened ErrorAssertions

  /** The create request that `e` answers: every field but the id. */
  function CreateRequestFor(e: Exercise): CreateExerciseRequest {
    CreateExerciseRequest(e.title, e.courseId, e.maxScore, e.minScore, e.orderIndex, e.description, e.estimatedTime)
  }

  /** assert_create_exercise_response: the seven request fields echoed
      back, in the order title, course id, max score, min score, order
      index, description, estimated time. Passes exactly when the returned
      exercise answers the request, whatever its id. */
  function AssertCreateExerciseResponse(q: CreateExerciseRequest, r: ExerciseResponse): (c: Check)
    ensures c.Pass? <==> CreateRequestFor(r.exercise) == q
  {
    CreateExerciseComparisonsAgree(q, r.exercise);
    CompareAll(CreateExerciseComparisons(q, r.exercise))
  }

  /** The seven assert_equal lines of assert_create_exercise_response. */
  function CreateExerciseComparisons(q: CreateExerciseRequest, e: Exercise): seq<Comparison> {
    [Comparison("title", Str(e.title), Str(q.title)),
     Comparison("course_id", Str(e.courseId), Str(q.courseId)),
     Comparison("max_score", Int(e.maxScore), Int(q.maxScore)),
     Comparison("min_score", Int(e.minScore), Int(q.minScore)),
     Comparison("order_index", Int(e.orderIndex), Int(q.orderIndex)),
     Comparison("description", Str(e.description), Str(q.description)),
     Comparison("estimated_time", Str(e.estimatedTime), Str(q.estimatedTime))]
  }

  /** When all seven lines agree, the exercise answers the request. */
  lemma CreateExerciseComparisonsAgree(q: CreateExerciseRequest, e: Exercise)
    ensures var cs := CreateExerciseComparisons(q, e);
            (forall i :: 0 <= i < |cs| ==> Agrees(cs[i])) ==> CreateRequestFor(e) == q
  {
    var cs := CreateExerciseComparisons(q, e);
    if forall i :: 0 <= i < |cs| ==> Agrees(cs[i]) {
      assert Agrees(cs[0]) && Agrees(cs[1]);
      assert Agrees(cs[2]) && Agrees(cs[3]);
      assert Agrees(cs[4]) && Agrees(cs[5]);
      assert Agrees(cs[6]);
    }
  }

  /** The create check does not look at the id. */
  lemma CreateExerciseCheckIgnoresId(q: CreateExerciseRequest, r: ExerciseResponse, id: string)
    ensures AssertCreateExerciseResponse(q, r.(exercise := r.exercise.(id := id))) == AssertCreateExerciseResponse(q, r)
  {
  }

  /** The eight assert_equal lines of assert_exercise. */
  function ExerciseComparisons(actual: Exercise, expected: Exercise): seq<Comparison> {
    [Comparison("id", Str(actual.id), Str(expected.id)),
     Comparison("title", Str(actual.title), Str(expected.title)),
     Comparison("course_id", Str(actual.courseId), Str(expected.courseId)),
     Comparison("max_score", Int(actual.maxScore), Int(expected.maxScore)),
     Comparison("min_score", Int(actual.minScore), Int(expected.minScore)),
     Comparison("order_index", Int(actual.orderIndex), Int(expected.orderIndex)),
     Comparison("description", Str(actual.description), Str(expected.description)),
     Comparison("estimated_time", Str(actual.estimatedTime), Str(expected.estimatedTime))]
  }

  /** assert_exercise: passes exactly when the two exercises are the same
      record, id included. */
  function AssertExercise(actual: Exercise, expected: Exercise): (c: Check)
    ensures c.Pass? <==> actual == expected
  {
    ExerciseComparisonsAgree(actual, expected);
    CompareAll(ExerciseComparisons(actual, expected))
  }

  /** All eight lines agree exactly when the records are equal. */
  lemma ExerciseComparisonsAgree(actual: Exercise, expected: Exercise)
    ensures var cs := ExerciseComparisons(actual, expected);
            (forall i :: 0 <= i < |cs| ==> Agrees(cs[i])) <==> actual == expected
  {
    var cs := ExerciseComparisons(actual, expected);
    if forall i :: 0 <= i < |cs| ==> Agrees(cs[i]) {
      assert Agrees(cs[0]) && Agrees(cs[1]);
      assert Agrees(cs[2]) && Agrees(cs[3]);
      assert Agrees(cs[4]) && Agrees(cs[5]);
      assert Agrees(cs[6]) && Agrees(cs[7]);
    }
  }

  /** The exercises the create responses carry, in order. */
  function CreatedExercises(created: seq<ExerciseResponse>): (es: seq<Exercise>)
    ensures |es| == |created| && forall i :: 0 <= i < |created| ==> es[i] == created[i].exercise
  {
    seq(|created|, i requires 0 <= i < |created| => created[i].exercise)
  }

  /** assert_get_exercises_response: the number of exercises first, then
      assert_exercise at each position. Passes exactly when the list is the
      created exercises in creation order. */
  function AssertGetExercisesResponse(got: ExercisesResponse, created: seq<ExerciseResponse>): (c: Check)
    ensures c.Pass? <==> got.exercises == CreatedExercises(created)
    ensures |got.exercises| != |created| ==> c == Fail(LengthMismatch("exercises", |created|, |got.exercises|))
  {
    var expected := seq(|created|, i requires 0 <= i < |created| => created[i].exercise);
    EachIsListEquality(got.exercises, expected, "exercises", AssertExercise);
    AssertEach(got.exercises, expected, "exercises", AssertExercise)
  }

  /** Listing two different created exercises in swapped order fails. */
  lemma ExerciseOrderMatters(created: seq<ExerciseResponse>, i: nat, j: nat)
    requires i < |created| && j < |created| && created[i].exercise != created[j].exercise
    ensures var es := CreatedExercises(created);
            AssertGetExercisesResponse(ExercisesResponse(es[i := es[j]][j := es[i]]), created).Fail?
  {
    var es := CreatedExercises(created);
    assert es[i := es[j]][j := es[i]][j] != es[j];
  }

  /** An empty list answers no creations. */
  lemma NoExercisesPass()
    ensures AssertGetExercisesResponse(ExercisesResponse([]), []) == Pass
  {
  }

  /** assert_get_exercise_response: assert_exercise on the wrapped records. */
  function AssertGetExerciseResponse(got: ExerciseResponse, created: ExerciseResponse): (c: Check)
    ensures c.Pass? <==> got == created
  {
    AssertExercise(got.exercise, created.exercise)
  }

  /** The update that sets every updatable field of `e` to its value. */
  function FullUpdateOf(e: Exercise): UpdateExerciseRequest {
    UpdateExerciseRequest(Some(e.title), Some(e.maxScore), Some(e.minScore), Some(e.orderIndex),
                          Some(e.description), Some(e.estimatedTime))
  }

  /** assert_update_exercise_response: six fields compared with the
      request's. A None never equals the response's value, so the check
      passes exactly when the request is the full update of the returned
      exercise. */
  function AssertUpdateExerciseResponse(q: UpdateExerciseRequest, r: ExerciseResponse): (c: Check)
    ensures c.Pass? <==> q == FullUpdateOf(r.exercise)
  {
    UpdateExerciseComparisonsAgree(q, r.exercise);
    CompareAll(UpdateExerciseComparisons(q, r.exercise))
  }

  /** The six assert_equal lines of assert_update_exercise_response. */
  function UpdateExerciseComparisons(q: UpdateExerciseRequest, e: Exercise): seq<Comparison> {
    [Comparison("title", Str(e.title), OptStr(q.title)),
     Comparison("max_score", Int(e.maxScore), OptInt(q.maxScore)),
     Comparison("min_score", Int(e.minScore), OptInt(q.minScore)),
     Comparison("order_index", Int(e.orderIndex), OptInt(q.orderIndex)),
     Comparison("description", Str(e.description), OptStr(q.description)),
     Comparison("estimated_time", Str(e.estimatedTime), OptStr(q.estimatedTime))]
  }

  /** When all six lines agree, the request is the full update. */
  lemma UpdateExerciseComparisonsAgree(q: UpdateExerciseRequest, e: Exercise)
    ensures var cs := UpdateExerciseComparisons(q, e);
            (forall i :: 0 <= i < |cs| ==> Agrees(cs[i])) ==> q == FullUpdateOf(e)
  {
    var cs := UpdateExerciseComparisons(q, e);
    if forall i :: 0 <= i < |cs| ==> Agrees(cs[i]) {
      assert Agrees(cs[0]) && Agrees(cs[1]);
      assert Agrees(cs[2]) && Agrees(cs[3]);
      assert Agrees(cs[4]) && Agrees(cs[5]);
    }
  }

  /** The update check never looks at the exercise id or its course. */
  lemma UpdateExerciseCheckIgnoresIdAndCourse(q: UpdateExerciseRequest, r: ExerciseResponse, id: string, courseId: string)
    ensures AssertUpdateExerciseResponse(q, r.(exercise := r.exercise.(id := id, courseId := courseId)))
            == AssertUpdateExerciseResponse(q, r)
  {
  }

  /** A partial update, one that leaves any field None, fails the check. */
  lemma PartialExerciseUpdateFails(q: UpdateExerciseRequest, r: ExerciseResponse)
    requires q.title.None? || q.maxScore.None? || q.minScore.None? || q.orderIndex.None? ||
             q.description.None? || q.estimatedTime.None?
    ensures AssertUpdateExerciseResponse(q, r).Fail?
  {
  }

  /** assert_exercise_not_found_response. */
  function AssertExerciseNotFoundResponse(actual: InternalErrorResponse): (c: Check)
    ensures c.Pass? <==> actual.details == "Exercise not found"
  {
    AssertInternalErrorResponse(actual, InternalErrorResponse("Exercise not found"))
  }
}
