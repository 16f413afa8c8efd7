/** The checks of tools/assertions/files.py. */
module FileAssertions {
  import opened Wire
  import opened Checks
  import opened FilesSchema
  import opened ErrorsSchema
  import opened ErrorAssertions

  const StaticRoot: string := "http://localhost:8000/static/"

  /** Where the server is expected to publish an uploaded file. */
  function ExpectedFileUrl(q: CreateFileRequest): string {
    StaticRoot + q.directory + "/" + q.filename
  }

  /** assert_create_file_response: the url, then the filename and the
      directory echoed back. Passes exactly when the response's file is the
      one the request describes, published under the expected url, whatever
      id the server gave it. */
  function AssertCreateFileResponse(q: CreateFileRequest, r: FileResponse): (c: Check)
    ensures c.Pass? <==> r.file == File(r.file.id, ExpectedFileUrl(q), q.filename, q.directory)
  {
    var cs := [Comparison("url", Str(r.file.url), Str(ExpectedFileUrl(q))),
               Comparison("filename", Str(r.file.filename), Str(q.filename)),
               Comparison("directory", Str(r.file.directory), Str(q.directory))];
    assert (forall i :: 0 <= i < |cs| ==> Agrees(cs[i])) <==>
      r.file == File(r.file.id, ExpectedFileUrl(q), q.filename, q.directory) by {
      if forall i :: 0 <= i < |cs| ==> Agrees(cs[i]) {
        assert Agrees(cs[0]) && Agrees(cs[1]) && Agrees(cs[2]);
      }
    }
    CompareAll(cs)
  }

  /** Neither the file id nor the uploaded content takes part in the create
      check. */
  lemma CreateFileCheckIgnoresIdAndContent(q: CreateFileRequest, r: FileResponse, id: string, content: string)
    ensures AssertCreateFileResponse(q.(uploadFile := content), r.(file := r.file.(id := id)))
            == AssertCreateFileResponse(q, r)
  {
  }

  /** For the sample upload of the tests, the expected url. */
  lemma SampleFileUrl(content: string)
    ensures ExpectedFileUrl(CreateFileRequest("image.png", "courses", content))
            == "http://localhost:8000/static/courses/image.png"
  {
  }

  /** When the directory has no slash, the expected url determines the
      directory and the filename. */
  lemma ExpectedFileUrlInjective(q1: CreateFileRequest, q2: CreateFileRequest)
    requires '/' !in q1.directory && '/' !in q2.directory
    requires ExpectedFileUrl(q1) == ExpectedFileUrl(q2)
    ensures q1.directory == q2.directory && q1.filename == q2.filename
  {
    var u1 := q1.directory + "/" + q1.filename;
    var u2 := q2.directory + "/" + q2.filename;
    assert u1 == u2 by {
      assert ExpectedFileUrl(q1) == StaticRoot + u1;
      assert ExpectedFileUrl(q2) == StaticRoot + u2;
      assert u1 == ExpectedFileUrl(q1)[|StaticRoot|..];
      assert u2 == ExpectedFileUrl(q2)[|StaticRoot|..];
    }
    SlashSplit(q1.directory, q1.filename, q2.directory, q2.filename);
  }

  /** Cutting at the first slash undoes `d + "/" + f` when `d` has no slash. */
  lemma SlashSplit(d1: string, f1: string, d2: string, f2: string)
    requires '/' !in d1 && '/' !in d2
    requires d1 + "/" + f1 == d2 + "/" + f2
    ensures d1 == d2 && f1 == f2
  {
    var u := d1 + "/" + f1;
    assert u[|d1|] == '/';
    assert u == d2 + "/" + f2;
    assert u[|d2|] == '/';
    assert |d1| == |d2|;
    assert d1 == u[..|d1|] == d2;
    assert f1 == u[|d1| + 1..] == f2;
  }

  /** The four assert_equal lines of assert_file. */
  function FileComparisons(actual: File, expected: File): seq<Comparison> {
    [Comparison("id", Str(actual.id), Str(expected.id)),
     Comparison("url", Str(actual.url), Str(expected.url)),
     Comparison("filename", Str(actual.filename), Str(expected.filename)),
     Comparison("directory", Str(actual.directory), Str(expected.directory))]
  }

  /** assert_file: passes exactly when the two files are the same record. */
  function AssertFile(actual: File, expected: File): (c: Check)
    ensures c.Pass? <==> actual == expected
  {
    var cs := FileComparisons(actual, expected);
    assert (forall i :: 0 <= i < |cs| ==> Agrees(cs[i])) ==> actual == expected by {
      if forall i :: 0 <= i < |cs| ==> Agrees(cs[i]) {
        assert Agrees(cs[0]) && Agrees(cs[1]);
        assert Agrees(cs[2]) && Agrees(cs[3]);
      }
    }
    CompareAll(cs)
  }

  /** assert_get_file_response: assert_file on the two wrapped files. */
  function AssertGetFileResponse(got: FileResponse, created: FileResponse): (c: Check)
    ensures c.Pass? <==> got == created
  {
    AssertFile(got.file, created.file)
  }

  const StringTooShort: string := "String should have at least 1 character"

  /** The single error a 422 response carries when a required string of the
      request body is empty. */
  function EmptyStringError(field: string): ValidationErrorResponse {
    ValidationErrorResponse([
      ValidationError("string_too_short", Str(""), map["min_length" := Int(1)], StringTooShort, ["body", field])])
  }

  /** What the single expected error of an empty `field` accepts: the
      fixed type, input, message and location, and a context whose one key
      `min_length` holds 1, or `True`, which Python's `==` takes for 1. */
  predicate IsEmptyStringError(d: ValidationError, field: string) {
    d.errorType == "string_too_short" && d.input == Str("") &&
    d.context.Keys == {"min_length"} && d.context["min_length"] in {Int(1), Bool(true)} &&
    d.message == StringTooShort && d.location == ["body", field]
  }

  lemma EmptyStringErrorAccepts(actual: ValidationErrorResponse, field: string)
    ensures SameErrors(actual.details, EmptyStringError(field).details) <==>
              |actual.details| == 1 && IsEmptyStringError(actual.details[0], field)
  {
    var e := EmptyStringError(field).details[0];
    if |actual.details| == 1 {
      var d := actual.details[0];
      PyEqStr(d.input, "");
      if "min_length" in d.context {
        PyEqInt(d.context["min_length"], 1);
      }
      assert PyEq(Obj(d.context), Obj(e.context)) <==>
             d.context.Keys == {"min_length"} && PyEq(d.context["min_length"], Int(1));
    }
  }

  /** assert_create_file_with_empty_filename_response. */
  function AssertCreateFileWithEmptyFilenameResponse(actual: ValidationErrorResponse): (c: Check)
    ensures c.Pass? <==> |actual.details| == 1 && IsEmptyStringError(actual.details[0], "filename")
  {
    EmptyStringErrorAccepts(actual, "filename");
    AssertValidationErrorResponse(actual, EmptyStringError("filename"))
  }

  /** assert_create_file_with_empty_directory_response. */
  function AssertCreateFileWithEmptyDirectoryResponse(actual: ValidationErrorResponse): (c: Check)
    ensures c.Pass? <==> |actual.details| == 1 && IsEmptyStringError(actual.details[0], "directory")
  {
    EmptyStringErrorAccepts(actual, "directory");
    AssertValidationErrorResponse(actual, EmptyStringError("directory"))
  }

  /** The two empty-field expectations differ only in the location, so no
      response passes both. */
  lemma EmptyFieldChecksExclusive(actual: ValidationErrorResponse)
    ensures !(AssertCreateFileWithEmptyFilenameResponse(actual).Pass? &&
              AssertCreateFileWithEmptyDirectoryResponse(actual).Pass?)
  {
    if AssertCreateFileWithEmptyFilenameResponse(actual).Pass? {
      assert actual.details[0].location[1] == "filename";
    }
  }

  /** assert_file_not_found_response. */
  function AssertFileNotFoundResponse(actual: InternalErrorResponse): (c: Check)
    ensures c.Pass? <==> actual.details == "File not found"
  {
    AssertInternalErrorResponse(actual, InternalErrorResponse("File not found"))
  }

  const UuidParsingReason: string :=
    "invalid character: expected an optional prefix of `urn:uuid:` followed by [0-9a-fA-F-], found `i` at 1"

  /** The error of a file id that is not a UUID. */
  const IncorrectFileIdError: ValidationError :=
    ValidationError("uuid_parsing", Str("incorrect-file-id"), map["error" := Str(UuidParsingReason)],
                    "Input should be a valid UUID, " + UuidParsingReason, ["path", "file_id"])

  /** assert_get_file_with_incorrect_file_id_response: exactly one
      uuid_parsing error about the path parameter `file_id`. */
  function AssertGetFileWithIncorrectFileIdResponse(actual: ValidationErrorResponse): (c: Check)
    ensures c.Pass? <==> actual.details == [IncorrectFileIdError]
    ensures c.Pass? ==> actual.details[0].input == Str("incorrect-file-id") &&
                        actual.details[0].location == ["path", "file_id"]
  {
    IncorrectFileIdErrorAccepts(actual);
    AssertValidationErrorResponse(actual, ValidationErrorResponse([IncorrectFileIdError]))
  }

  /** The expected error holds no bool, so only an equal record is the
      same error. */
  lemma IncorrectFileIdErrorAccepts(actual: ValidationErrorResponse)
    ensures SameErrors(actual.details, [IncorrectFileIdError]) <==> actual.details == [IncorrectFileIdError]
  {
    if |actual.details| == 1 {
      var d := actual.details[0];
      var e := IncorrectFileIdError;
      PyEqStr(d.input, "incorrect-file-id");
      if "error" in d.context {
        PyEqStr(d.context["error"], UuidParsingReason);
      }
      assert PyEq(Obj(d.context), Obj(e.context)) <==> d.context == e.context;
    }
  }
}
