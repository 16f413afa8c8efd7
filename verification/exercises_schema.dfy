/** The exercise records of clients/exercises/exercises_schema.py. Every
    model with aliases sets `populate_by_name=True`. An exercise refers to
    its course by id. */
module ExercisesSchema {
  import opened Wrappers
  import opened Wire

  /** ExerciseSchema. The server assigns `id`. */
  datatype Exercise = Exercise(
    id: string, title: string, courseId: string, maxScore: int, minScore: int,
    orderIndex: int, description: string, estimatedTime: string)

  /** GetExercisesQuerySchema: the query string of the exercise list. */
  datatype GetExercisesQuery = GetExercisesQuery(courseId: string)

  /** GetExercisesResponseSchema: an ordered list under `exercises`. */
  datatype ExercisesResponse = ExercisesResponse(exercises: seq<Exercise>)

  /** ExerciseResponseSchema: one exercise under `exercise`. */
  datatype ExerciseResponse = ExerciseResponse(exercise: Exercise)

  /** CreateExerciseRequestSchema: every field of an exercise but `id`. */
  datatype CreateExerciseRequest = CreateExerciseRequest(
    title: string, courseId: string, maxScore: int, minScore: int,
    orderIndex: int, description: string, estimatedTime: string)

  /** UpdateExerciseRequestSchema: six nullable fields; no `course_id`, no `id`. */
  datatype UpdateExerciseRequest = UpdateExerciseRequest(
    title: Option<string>, maxScore: Option<int>, minScore: Option<int>,
    orderIndex: Option<int>, description: Option<string>, estimatedTime: Option<string>)

  const ExerciseFields: seq<Field> := [
    Field("id", "id"), Field("title", "title"), Field("course_id", "courseId"),
    Field("max_score", "maxScore"), Field("min_score", "minScore"), Field("order_index", "orderIndex"),
    Field("description", "description"), Field("estimated_time", "estimatedTime")]

  const GetExercisesQueryFields: seq<Field> := [Field("course_id", "courseId")]

  const ExercisesResponseFields: seq<Field> := [Field("exercises", "exercises")]

  const ExerciseResponseFields: seq<Field> := [Field("exercise", "exercise")]

  const CreateExerciseRequestFields: seq<Field> := [
    Field("title", "title"), Field("course_id", "courseId"),
    Field("max_score", "maxScore"), Field("min_score", "minScore"), Field("order_index", "orderIndex"),
    Field("description", "description"), Field("estimated_time", "estimatedTime")]

  /** The update table declares `description` with an explicit alias equal
      to its own name. */
  const UpdateExerciseRequestFields: seq<Field> := [
    Field("title", "title"), Field("max_score", "maxScore"), Field("min_score", "minScore"),
    Field("order_index", "orderIndex"), Field("description", "description"),
    Field("estimated_time", "estimatedTime")]

  lemma ExerciseTablesInjective()
    ensures DistinctAliases(ExerciseFields) && DistinctAliases(CreateExerciseRequestFields)
    ensures DistinctAliases(UpdateExerciseRequestFields)
    ensures UpdateExerciseRequestFields[4] == Field("description", "description")
  {
  }

  /** The create table is the exercise table without its first row, `id`. */
  lemma CreateExerciseTableDropsId()
    ensures ExerciseFields[0].name == "id" && CreateExerciseRequestFields == ExerciseFields[1..]
  {
  }

  function ExerciseValues(e: Exercise): seq<Value> {
    [Str(e.id), Str(e.title), Str(e.courseId), Int(e.maxScore), Int(e.minScore),
     Int(e.orderIndex), Str(e.description), Str(e.estimatedTime)]
  }

  function EncodeExercise(e: Exercise): (m: Object)
  {
    Encode(ExerciseFields, ExerciseValues(e))
  }

  /** Strings and ints where an exercise has them. */
  predicate ExerciseKinds(vals: seq<Value>)
    requires |vals| == |ExerciseFields|
  {
    vals[0].Str? && vals[1].Str? && vals[2].Str? && vals[3].Int? && vals[4].Int? &&
    vals[5].Int? && vals[6].Str? && vals[7].Str?
  }

  function ExerciseFromValues(vals: seq<Value>): (r: Result<Exercise, DecodeError>)
    requires |vals| == |ExerciseFields|
    ensures r.Success? <==> ExerciseKinds(vals)
    ensures r.Success? ==> ExerciseValues(r.value) == vals
  {
    var id :- AsStr(vals[0], At(ExerciseFields, 0));
    var title :- AsStr(vals[1], At(ExerciseFields, 1));
    var courseId :- AsStr(vals[2], At(ExerciseFields, 2));
    var maxScore :- AsInt(vals[3], At(ExerciseFields, 3));
    var minScore :- AsInt(vals[4], At(ExerciseFields, 4));
    var orderIndex :- AsInt(vals[5], At(ExerciseFields, 5));
    var description :- AsStr(vals[6], At(ExerciseFields, 6));
    var estimatedTime :- AsStr(vals[7], At(ExerciseFields, 7));
    Success(Exercise(id, title, courseId, maxScore, minScore, orderIndex, description, estimatedTime))
  }

  /** A payload parses exactly when its eight fields are found with an
      exercise's kinds; the exercise then holds the values found. */
  function DecodeExercise(obj: Object): (r: Result<Exercise, DecodeError>)
    ensures r.Success? <==>
              DecodeFields(ExerciseFields, obj, true).Success? && ExerciseKinds(DecodeFields(ExerciseFields, obj, true).value)
    ensures r.Success? ==>
              DecodeFields(ExerciseFields, obj, true).Success? &&
              ExerciseValues(r.value) == DecodeFields(ExerciseFields, obj, true).value
  {
    var vals :- DecodeFields(ExerciseFields, obj, true);
    ExerciseFromValues(vals)
  }

  lemma ExerciseRoundTrip(e: Exercise)
    ensures DecodeExercise(EncodeExercise(e)) == Success(e)
  {
    ExerciseTablesInjective();
    DecodeEncodeFields(ExerciseFields, ExerciseValues(e), true);
  }

  /** A payload carrying every camelCase key of an exercise dumps back to
      exactly those keys with the values received. */
  lemma ExerciseReencode(obj: Object)
    requires DecodeExercise(obj).Success? && AliasKeys(ExerciseFields) <= obj.Keys
    ensures EncodeExercise(DecodeExercise(obj).value) == Project(obj, AliasKeys(ExerciseFields))
  {
    ExerciseTablesInjective();
    EncodeDecodedFields(ExerciseFields, obj, true);
  }

  /** Every exercise of a list survives a dump and a parse, in order. */
  lemma ExerciseListRoundTrip(es: seq<Exercise>)
    ensures DecodeList(EncodeList(es, EncodeExercise), 0, DecodeExercise) == Success(es)
  {
    forall i | 0 <= i < |es| ensures DecodeExercise(EncodeExercise(es[i])) == Success(es[i]) {
      ExerciseRoundTrip(es[i]);
    }
    DecodeEncodeList(es, 0, EncodeExercise, DecodeExercise);
  }

  function EncodeExercisesResponse(r: ExercisesResponse): (m: Object)
  {
    Encode(ExercisesResponseFields, [Arr(EncodeList(r.exercises, EncodeExercise))])
  }

  /** A response parses exactly when `exercises` holds a list of objects
      that all parse as exercises; exercise i is then what element i parses
      to. */
  function DecodeExercisesResponse(obj: Object): (r: Result<ExercisesResponse, DecodeError>)
    ensures r.Success? <==>
              "exercises" in obj && obj["exercises"].Arr? &&
              forall i :: 0 <= i < |obj["exercises"].items| ==>
                obj["exercises"].items[i].Obj? && DecodeExercise(obj["exercises"].items[i].fields).Success?
    ensures r.Success? ==>
              "exercises" in obj && obj["exercises"].Arr? && |r.value.exercises| == |obj["exercises"].items| &&
              forall i :: 0 <= i < |obj["exercises"].items| ==>
                obj["exercises"].items[i].Obj? && DecodeExercise(obj["exercises"].items[i].fields) == Success(r.value.exercises[i])
  {
    ExerciseListElements(obj);
    var vals :- DecodeFields(ExercisesResponseFields, obj, false);
    var items :- if vals[0].Arr? then Success(vals[0].items) else Failure(DecodeError(WrongType, At(ExercisesResponseFields, 0)));
    var exercises :- Within("exercises", DecodeList(items, 0, DecodeExercise));
    Success(ExercisesResponse(exercises))
  }

  /** The exercise list parses element by element. */
  lemma ExerciseListElements(obj: Object)
    ensures "exercises" in obj && obj["exercises"].Arr? ==>
              var items := obj["exercises"].items;
              var r := DecodeList(items, 0, DecodeExercise);
              (r.Success? <==> forall i :: 0 <= i < |items| ==> items[i].Obj? && DecodeExercise(items[i].fields).Success?) &&
              (r.Success? ==> forall i :: 0 <= i < |items| ==> DecodeExercise(items[i].fields) == Success(r.value[i]))
  {
    if "exercises" in obj && obj["exercises"].Arr? {
      DecodeListElements(obj["exercises"].items, 0, DecodeExercise);
    }
  }

  /** The list response keeps every exercise and their order. */
  lemma ExercisesResponseRoundTrip(r: ExercisesResponse)
    ensures DecodeExercisesResponse(EncodeExercisesResponse(r)) == Success(r)
  {
    DecodeEncodeFields(ExercisesResponseFields, [Arr(EncodeList(r.exercises, EncodeExercise))], false);
    ExerciseListRoundTrip(r.exercises);
  }

  function EncodeExerciseResponse(r: ExerciseResponse): (m: Object)
  {
    Encode(ExerciseResponseFields, [Obj(EncodeExercise(r.exercise))])
  }

  function DecodeExerciseResponse(obj: Object): (r: Result<ExerciseResponse, DecodeError>)
    ensures r.Success? <==> "exercise" in obj && obj["exercise"].Obj? && DecodeExercise(obj["exercise"].fields).Success?
    ensures r.Success? ==> "exercise" in obj && obj["exercise"].Obj? && DecodeExercise(obj["exercise"].fields) == Success(r.value.exercise)
  {
    var vals :- DecodeFields(ExerciseResponseFields, obj, false);
    var inner :- AsObj(vals[0], At(ExerciseResponseFields, 0));
    var exercise :- Within("exercise", DecodeExercise(inner));
    Success(ExerciseResponse(exercise))
  }

  lemma ExerciseResponseRoundTrip(r: ExerciseResponse)
    ensures DecodeExerciseResponse(EncodeExerciseResponse(r)) == Success(r)
  {
    DecodeEncodeFields(ExerciseResponseFields, [Obj(EncodeExercise(r.exercise))], false);
    ExerciseRoundTrip(r.exercise);
  }

  function EncodeGetExercisesQuery(q: GetExercisesQuery): (m: Object)
  {
    Encode(GetExercisesQueryFields, [Str(q.courseId)])
  }

  function DecodeGetExercisesQuery(obj: Object): (r: Result<GetExercisesQuery, DecodeError>)
    ensures r.Success? <==> ("courseId" in obj && obj["courseId"].Str?) || ("courseId" !in obj && "course_id" in obj && obj["course_id"].Str?)
    ensures r.Success? ==> Lookup(obj, GetExercisesQueryFields[0], true) == Some(Str(r.value.courseId))
  {
    var vals :- DecodeFields(GetExercisesQueryFields, obj, true);
    var courseId :- AsStr(vals[0], At(GetExercisesQueryFields, 0));
    Success(GetExercisesQuery(courseId))
  }

  lemma GetExercisesQueryRoundTrip(q: GetExercisesQuery)
    ensures DecodeGetExercisesQuery(EncodeGetExercisesQuery(q)) == Success(q)
  {
    DecodeEncodeFields(GetExercisesQueryFields, [Str(q.courseId)], true);
  }

  function CreateExerciseRequestValues(q: CreateExerciseRequest): seq<Value> {
    [Str(q.title), Str(q.courseId), Int(q.maxScore), Int(q.minScore),
     Int(q.orderIndex), Str(q.description), Str(q.estimatedTime)]
  }

  function EncodeCreateExerciseRequest(q: CreateExerciseRequest): (m: Object)
  {
    Encode(CreateExerciseRequestFields, CreateExerciseRequestValues(q))
  }

  /** The kinds of a create request: an exercise's, without the id. */
  predicate CreateExerciseRequestKinds(vals: seq<Value>)
    requires |vals| == |CreateExerciseRequestFields|
  {
    vals[0].Str? && vals[1].Str? && vals[2].Int? && vals[3].Int? && vals[4].Int? && vals[5].Str? && vals[6].Str?
  }

  function CreateExerciseRequestFromValues(vals: seq<Value>): (r: Result<CreateExerciseRequest, DecodeError>)
    requires |vals| == |CreateExerciseRequestFields|
    ensures r.Success? <==> CreateExerciseRequestKinds(vals)
    ensures r.Success? ==> CreateExerciseRequestValues(r.value) == vals
  {
    var title :- AsStr(vals[0], At(CreateExerciseRequestFields, 0));
    var courseId :- AsStr(vals[1], At(CreateExerciseRequestFields, 1));
    var maxScore :- AsInt(vals[2], At(CreateExerciseRequestFields, 2));
    var minScore :- AsInt(vals[3], At(CreateExerciseRequestFields, 3));
    var orderIndex :- AsInt(vals[4], At(CreateExerciseRequestFields, 4));
    var description :- AsStr(vals[5], At(CreateExerciseRequestFields, 5));
    var estimatedTime :- AsStr(vals[6], At(CreateExerciseRequestFields, 6));
    Success(CreateExerciseRequest(title, courseId, maxScore, minScore, orderIndex, description, estimatedTime))
  }

  /** A request parses exactly when its seven fields are found with the
      kinds of a create request; its fields are then the values found. */
  function DecodeCreateExerciseRequest(obj: Object): (r: Result<CreateExerciseRequest, DecodeError>)
    ensures r.Success? <==>
              DecodeFields(CreateExerciseRequestFields, obj, true).Success? &&
              CreateExerciseRequestKinds(DecodeFields(CreateExerciseRequestFields, obj, true).value)
    ensures r.Success? ==>
              DecodeFields(CreateExerciseRequestFields, obj, true).Success? &&
              CreateExerciseRequestValues(r.value) == DecodeFields(CreateExerciseRequestFields, obj, true).value
  {
    var vals :- DecodeFields(CreateExerciseRequestFields, obj, true);
    CreateExerciseRequestFromValues(vals)
  }

  lemma CreateExerciseRequestRoundTrip(q: CreateExerciseRequest)
    ensures DecodeCreateExerciseRequest(EncodeCreateExerciseRequest(q)) == Success(q)
  {
    ExerciseTablesInjective();
    DecodeEncodeFields(CreateExerciseRequestFields, CreateExerciseRequestValues(q), true);
  }

  function UpdateExerciseRequestValues(q: UpdateExerciseRequest): seq<Value> {
    [OptStr(q.title), OptInt(q.maxScore), OptInt(q.minScore), OptInt(q.orderIndex),
     OptStr(q.description), OptStr(q.estimatedTime)]
  }

  /** A None field is dumped as JSON null, not left out. */
  function EncodeUpdateExerciseRequest(q: UpdateExerciseRequest): (m: Object)
  {
    Encode(UpdateExerciseRequestFields, UpdateExerciseRequestValues(q))
  }

  /** Every value is null or of its field's kind. */
  predicate UpdateExerciseRequestKinds(vals: seq<Value>)
    requires |vals| == |UpdateExerciseRequestFields|
  {
    (vals[0].Null? || vals[0].Str?) && (vals[1].Null? || vals[1].Int?) && (vals[2].Null? || vals[2].Int?) &&
    (vals[3].Null? || vals[3].Int?) && (vals[4].Null? || vals[4].Str?) && (vals[5].Null? || vals[5].Str?)
  }

  function UpdateExerciseRequestFromValues(vals: seq<Value>): (r: Result<UpdateExerciseRequest, DecodeError>)
    requires |vals| == |UpdateExerciseRequestFields|
    ensures r.Success? <==> UpdateExerciseRequestKinds(vals)
    ensures r.Success? ==> UpdateExerciseRequestValues(r.value) == vals
  {
    var title :- AsOptStr(vals[0], At(UpdateExerciseRequestFields, 0));
    var maxScore :- AsOptInt(vals[1], At(UpdateExerciseRequestFields, 1));
    var minScore :- AsOptInt(vals[2], At(UpdateExerciseRequestFields, 2));
    var orderIndex :- AsOptInt(vals[3], At(UpdateExerciseRequestFields, 3));
    var description :- AsOptStr(vals[4], At(UpdateExerciseRequestFields, 4));
    var estimatedTime :- AsOptStr(vals[5], At(UpdateExerciseRequestFields, 5));
    Success(UpdateExerciseRequest(title, maxScore, minScore, orderIndex, description, estimatedTime))
  }

  /** Every key must be present, but each may hold null. A request parses
      exactly when every field is null or of its kind; its fields are then
      the values found. */
  function DecodeUpdateExerciseRequest(obj: Object): (r: Result<UpdateExerciseRequest, DecodeError>)
    ensures r.Success? <==>
              DecodeFields(UpdateExerciseRequestFields, obj, true).Success? &&
              UpdateExerciseRequestKinds(DecodeFields(UpdateExerciseRequestFields, obj, true).value)
    ensures r.Success? ==>
              DecodeFields(UpdateExerciseRequestFields, obj, true).Success? &&
              UpdateExerciseRequestValues(r.value) == DecodeFields(UpdateExerciseRequestFields, obj, true).value
  {
    var vals :- DecodeFields(UpdateExerciseRequestFields, obj, true);
    UpdateExerciseRequestFromValues(vals)
  }

  lemma UpdateExerciseRequestRoundTrip(q: UpdateExerciseRequest)
    ensures DecodeUpdateExerciseRequest(EncodeUpdateExerciseRequest(q)) == Success(q)
  {
    ExerciseTablesInjective();
    DecodeEncodeFields(UpdateExerciseRequestFields, UpdateExerciseRequestValues(q), true);
    OptStrRoundTrip(q.title, At(UpdateExerciseRequestFields, 0));
    OptIntRoundTrip(q.maxScore, At(UpdateExerciseRequestFields, 1));
    OptIntRoundTrip(q.minScore, At(UpdateExerciseRequestFields, 2));
    OptIntRoundTrip(q.orderIndex, At(UpdateExerciseRequestFields, 3));
    OptStrRoundTrip(q.description, At(UpdateExerciseRequestFields, 4));
    OptStrRoundTrip(q.estimatedTime, At(UpdateExerciseRequestFields, 5));
  }

  lemma ExercisesResponseWireKeys(r: ExercisesResponse)
    ensures EncodeExercisesResponse(r).Keys == {"exercises"}
  {
  }

  lemma ExerciseResponseWireKeys(r: ExerciseResponse)
    ensures EncodeExerciseResponse(r).Keys == {"exercise"}
  {
  }

  lemma GetExercisesQueryWireKeys(q: GetExercisesQuery)
    ensures EncodeGetExercisesQuery(q).Keys == {"courseId"}
  {
  }

  lemma CreateExerciseRequestWireKeys(q: CreateExerciseRequest)
    ensures EncodeCreateExerciseRequest(q).Keys ==
              {"title", "courseId", "maxScore", "minScore", "orderIndex", "description", "estimatedTime"}
  {
    AliasKeysListed(CreateExerciseRequestFields,
                    ["title", "courseId", "maxScore", "minScore", "orderIndex", "description", "estimatedTime"]);
  }

  /** The update request has no key for the exercise id or its course id. */
  lemma UpdateExerciseRequestWireKeys(q: UpdateExerciseRequest)
    ensures EncodeUpdateExerciseRequest(q).Keys ==
              {"title", "maxScore", "minScore", "orderIndex", "description", "estimatedTime"}
  {
    AliasKeysListed(UpdateExerciseRequestFields, ["title", "maxScore", "minScore", "orderIndex", "description", "estimatedTime"]);
  }
}
