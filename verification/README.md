# API test-automation toolkit: cURL serialiser, wire schemas, assertions

A Dafny model of the pure parts of an API test-automation toolkit for a
learning-management backend. The backend serves users, authentication,
courses, exercises and files. Three parts are modelled:

- **The cURL serialiser** (`Curl`, with `Utf8`). `make_curl_from_request`
  turns a request into a cURL command:
  - the method part comes first, then the url;
  - one `-H` part per header follows, in order;
  - a `-d` part comes last, but only when the body was read and is not
    empty;
  - the parts are joined with `" \\\n "`.

  The body is decoded as strict UTF-8. A body that is not valid UTF-8 is
  modelled as the error the source lets escape (`UnicodeDecodeError`,
  with its offset).
- **The wire schemas** (`Wire` plus one module per schema file).
  - Every pydantic model is a datatype plus an alias table
    (`seq<Field(name, alias)>`).
  - One generic encoder gives `model_dump(by_alias=True)`: every field
    becomes its alias key, and None is dumped as `null`.
  - One generic decoder gives `model_validate`:
    - each field is looked up under its alias;
    - with `populate_by_name=True`, the field name is the fallback;
    - other keys are ignored;
    - a missing key or a value of the wrong JSON kind is an error that
      records the key path.
  - The EmailStr and HttpUrl validators are parameters (`Wire.Formats`).
    Each maps a string it accepts to its normal form, which is what the
    parsed record holds, and a string it rejects to None.
- **The assertion predicates** (`Checks`, the `*Assertions` modules).
  - A check is a value: `Pass`, or `Fail` carrying what the raised
    AssertionError reports.
  - `assert_equal` compares with Python's `==` (`Checks.PyEq`): a bool
    equals the integer it stands for (`True == 1`), lists compare item by
    item and dicts key by key. On values without bools this is plain
    equality (`Checks.PyEqNoBools`).
  - A run of `assert_equal` lines is a list of `Comparison`s. The first
    line that disagrees is the one reported.
  - List checks compare the lengths first, then the items by position.
  - Each check is characterised exactly: a create check passes exactly
    when the response answers the request, whatever the server-assigned
    id is, and a record check passes exactly when the two records are
    equal.

Each operation is paired with a partner and a lemma connecting them:
- Encoders with decoders: a round trip, and re-encoding a parsed payload.
- Message builders with readers: `StatusMessage` with `ReadStatusMessage`,
  and `ShowInt` with `ReadInt`.
- The cURL command with its displayed lines and `ReadParts`.
- Each assertion with record equality, or with an explicit "answers the
  request" relation; the validation-error checks with `SameError`,
  equality up to Python's `==` on the free-form input and context.

Names that clash with Dafny keywords are renamed:
- the request's `method` is `verb`;
- the validation error's `type` is `errorType`;
- snake_case fields are camelCase, as on the wire.

Three facts about the code:
- `clients/private_http_builder.py:13-22` logs in on every call. There is
  no session cache, and none is modelled.
- `CreateFileRequestSchema.upload_file` is an ordinary field. It is
  dumped on the wire like the others, and is not excluded.
- The file url check does not derive the address from a configured base.
  It hard-codes `http://localhost:8000/static/`.

## Model

| member | source | states |
|---|---|---|
| Curl.BodyText | tools/http/curl.py:18-22 | The body takes part only when the content was read and is non-empty; unread or empty content gives no body and no error; a read body that is not UTF-8 is an error at the offset of its first ill-formed bytes |
| Curl.HeaderParts | tools/http/curl.py:15-16 | Exactly one `-H 'name: value'` part per header, in header order |
| Curl.Parts | tools/http/curl.py:13-22 | The list is the method part `curl -X '<method>'`, then `'<url>'`, then the header parts in order, and a `-d '<body>'` part last exactly when there is a body; its length is 2 + #headers (+1 with a body); it fails exactly when the body does not decode |
| Curl.MakeCurlFromRequest | tools/http/curl.py:6-24 | Building the list part by part as the source does gives the parts of `Parts`, joined with `" \\\n "`; it fails exactly when a body is present and is not UTF-8, at an offset inside the body |
| Curl.UnreadContentIsSkipped | tools/http/curl.py:18-22 | Content not read yet (RequestNotRead) adds no `-d` part and raises nothing |
| Curl.MethodIsVisible | tools/http/curl.py:13 | Changing only the method changes the command's parts: the method is inserted verbatim |
| Curl.JoinedLines | tools/http/curl.py:24 | When no part contains a newline, the joined command's lines are exactly the parts, every line after the first indented by one space and every line but the last ending in a backslash |
| Curl.ReadCommandLines | tools/http/curl.py:24 | Stripping the indent and the continuation from the displayed lines gives back the parts |
| Curl.CommandGivesBackParts | tools/http/curl.py:6-24 | When no part contains a newline, splitting the command into lines and stripping the layout recovers the method, url, header and body parts: the command loses nothing |
| Utf8.Decode | tools/http/curl.py:20 | Strict `bytes.decode('utf-8')`; a failure's offset lies inside the input |
| Utf8.ReadEncodedChar | tools/http/curl.py:20 | The UTF-8 encoding of any scalar value reads back as that value and its length, whatever follows it |
| Utf8.ReadCharIsEncoding | tools/http/curl.py:20 | A well-formed sequence is exactly the encoding of the value read from it (no overlong or second spelling is accepted) |
| Utf8.DecodeEncode | tools/http/curl.py:20 | Every string encodes and decodes back to itself |
| Utf8.EncodeDecoded | tools/http/curl.py:20 | Every byte string that decodes encodes back to the same bytes, so the `-d` text determines the body |
| Decimal.NatDigitsValue | tools/assertions/base.py:13 | The decimal digits that f-string formatting gives a natural number have that number as their value |
| Decimal.ReadShownInt | tools/assertions/base.py:13 | A formatted integer (with a minus sign when negative) followed by a non-digit reads back as that integer and the rest |
| Decimal.ShowIntInjective | tools/assertions/base.py:13 | Different integers are formatted differently |
| Checks.AssertStatusCode | tools/assertions/base.py:3-14 | Passes exactly when the codes are equal; a failure records the expected and the actual code |
| Checks.StatusMessageRoundTrip | tools/assertions/base.py:11-14 | Both codes can be read back out of the status failure message, expected first |
| Checks.StatusMessageInjective | tools/assertions/base.py:12-13 | Different pairs of (expected, actual) codes give different messages |
| Checks.AssertEqual | tools/assertions/base.py:17-29 | Passes exactly when the values are equal under Python's `==` (a bool equal to the integer it stands for, lists item by item, dicts key by key); a failure names the field and records the expected and the actual value |
| Checks.PyEqReflexive | tools/assertions/base.py:26 | Every value passes `==` against itself |
| Checks.PyEqNoBools | tools/assertions/base.py:26 | On values that hold no bool anywhere, Python's `==` is exactly equality of the values |
| Checks.BoolsEqualNumbers | tools/assertions/base.py:26 | `True == 1` and `False == 0` hold though the values differ, while `True == 2` and `"1" == 1` do not |
| Checks.PyEqStr | tools/assertions/base.py:26 | A string equals only the same string |
| Checks.PyEqInt | tools/assertions/base.py:26 | An integer equals the same integer and the bool that stands for it, nothing else |
| Checks.EqualMessageShowsValues | tools/assertions/base.py:26-29 | The failure message shows the field name after its fixed opening, then the expected value, and ends with the actual value |
| Checks.StatusFailureMessage | tools/assertions/base.py:11-14 | A failed status check raises the status message of its expected and actual code, and both codes read back from it in that order |
| Checks.EqualFailureMessage | tools/assertions/base.py:26-29 | A failed assert_equal raises the message that names the field and shows the expected and then the actual value |
| Checks.Then | tools/assertions/errors.py:23-27 | Two asserts in sequence pass exactly when both do; the first failure ends the check and is the one reported |
| Checks.CompareAll | tools/assertions/files.py:34-37 | A run of assert_equal lines passes exactly when every line's sides agree; otherwise it reports the first line that disagrees, with both values |
| Checks.AssertLength | tools/assertions/errors.py:41 | Passes exactly when the two lists have the same length; a failure records both lengths |
| Checks.AssertIsTrue | tools/assertions/authentication.py:23-24 | A string passes exactly when it is non-empty (Python truthiness) |
| Checks.AssertEach | tools/assertions/errors.py:41-44 | The list checks' shape: a length mismatch is reported before any item is looked at; with equal lengths, it passes exactly when every item pair at the same index passes |
| Checks.EachIsListEquality | tools/assertions/errors.py:41-44 | When the item check is record equality, the list check passes exactly when the lists are equal, order included |
| Checks.SwapFails | tools/assertions/errors.py:43-44 | Swapping two different items of the expected list makes the list check fail: order matters |
| Wire.Encode | clients/users/users_schema.py:10-14 | A by-alias dump has exactly the table's aliases as keys |
| Wire.DecodeFields | clients/courses/courses_schema.py:10-19 | Decoding succeeds exactly when every field is found under its alias, or under its name when the model populates by name; the values come in table order; a failure names the alias of the first missing field |
| Wire.DecodeEncodeFields | clients/users/users_schema.py:8-14 | With distinct aliases, a by-alias dump decodes back to the same field values, in either lookup mode |
| Wire.EncodeDecodedFields | clients/courses/courses_schema.py:10-19 | A payload that carries every alias decodes, and dumping the values again gives the payload restricted to the schema's keys: no key invented or lost, every value the one received, extra keys dropped |
| Wire.RoundTripNeedsDistinctAliases | clients/courses/courses_schema.py:12-19 | Distinct aliases are also necessary: with a repeated alias, some record does not survive a dump and a parse |
| Wire.AsOptStr | clients/users/users_schema.py:43-46 | A nullable string field accepts exactly a string or JSON null, and null is None |
| Wire.AsOptInt | clients/courses/courses_schema.py:60-61 | A nullable integer field accepts exactly an integer or JSON null, and null is None |
| Wire.AsFormatted | clients/users/users_schema.py:11 | A validated string field (EmailStr, HttpUrl) accepts exactly the strings the validator accepts and holds the validator's normal form of them; a non-string is a wrong-kind error, a refused string a rejection |
| Wire.AsOptFormatted | clients/users/users_schema.py:43 | A nullable validated field accepts null, or a string the validator accepts, held in its normal form |
| Wire.OptStrRoundTrip | clients/users/users_schema.py:43-46 | A nullable string dumped (None as null) reads back unchanged |
| Wire.OptIntRoundTrip | clients/courses/courses_schema.py:60-61 | A nullable integer dumped (None as null) reads back unchanged |
| Wire.Within | clients/courses/courses_schema.py:17-19 | An error inside a nested record is reported under the key of that record, with the same kind |
| Wire.DecodeList | clients/exercises/exercises_schema.py:37 | A parsed list has as many items as the array; an error is located at the index of a failing element |
| Wire.DecodeListElements | clients/exercises/exercises_schema.py:37 | A list parses exactly when every element is an object the element decoder accepts, and then item i is the decoding of element i |
| Wire.DecodeEncodeList | clients/exercises/exercises_schema.py:37 | A list of records survives a dump and a parse with its order kept |
| Wire.EncodeReplaced | clients/users/users_schema.py:10-14 | With distinct aliases, changing one field's value changes only that field's key in the dump |
| FilesSchema.FileTablesUnaliased | clients/files/files_schema.py:8-27 | No file schema declares an alias: every wire key is its field name, and none is repeated |
| FilesSchema.DecodeFile | clients/files/files_schema.py:8-11 | A file payload parses exactly when id, url, filename and directory all hold strings and the url passes the HttpUrl validator; the fields are then the values found, the url in its normal form; with validators that keep their own output, the parsed file is valid |
| FilesSchema.FileRoundTrip | clients/files/files_schema.py:8-11 | A valid file survives a dump and a parse unchanged |
| FilesSchema.FileReencode | clients/files/files_schema.py:8-11 | Parsing a payload and dumping the file gives back exactly the payload's four schema keys with their values, the url in its normal form |
| FilesSchema.FileWireKeys | clients/files/files_schema.py:8-11 | A dumped file has exactly the keys id, url, filename, directory |
| FilesSchema.DecodeCreateFileRequest | clients/files/files_schema.py:18-20 | A create-file request parses exactly when filename, directory and upload_file all hold strings, and its fields are then the values found |
| FilesSchema.CreateFileRequestRoundTrip | clients/files/files_schema.py:18-20 | A create-file request survives a dump and a parse |
| FilesSchema.CreateFileRequestWireKeys | clients/files/files_schema.py:18-20 | A dumped create-file request has exactly filename, directory and upload_file (no id) |
| FilesSchema.DecodeFileResponse | clients/files/files_schema.py:27 | A create-file response parses exactly when `file` holds an object that parses as a file, and the response's file is then that parse |
| FilesSchema.FileResponseRoundTrip | clients/files/files_schema.py:27 | A response with a valid file survives a dump and a parse |
| FilesSchema.FileResponseWireKeys | clients/files/files_schema.py:27 | A dumped create-file response has the single key `file` |
| UsersSchema.UserTablesInjective | clients/users/users_schema.py:10-53 | No user table repeats a wire key |
| UsersSchema.DecodeUser | clients/users/users_schema.py:8-14 | A user payload parses exactly when id, email, lastName, firstName, middleName are found (alias first, then field name) as strings and the email passes the EmailStr validator; the fields are then the values found, the email in its normal form |
| UsersSchema.UserMissingKeyFirst | clients/users/users_schema.py:8-14 | When a key is missing, the error reported is that missing key, whatever kinds the other values have |
| UsersSchema.UserRoundTrip | clients/users/users_schema.py:8-14 | A valid user survives a by-alias dump and a parse unchanged |
| UsersSchema.UserReencode | clients/users/users_schema.py:10-14 | A payload that parses and carries every camelCase key dumps back to exactly those keys with the values received, the email in its normal form |
| UsersSchema.UserParsesByFieldName | clients/users/users_schema.py:8 | Because of populate_by_name, a payload keyed by the snake_case field names parses to the same user |
| UsersSchema.UserWireKeys | clients/users/users_schema.py:10-14 | A dumped user has exactly the keys id, email, lastName, firstName, middleName |
| UsersSchema.DecodeCreateUserRequest | clients/users/users_schema.py:21-27 | A create-user request parses exactly when its five fields are found as strings and the email passes the EmailStr validator; the fields are then the values found, the email in its normal form |
| UsersSchema.CreateUserRequestRoundTrip | clients/users/users_schema.py:23-27 | A create-user request with a valid email survives a dump and a parse |
| UsersSchema.CreateUserRequestWireKeys | clients/users/users_schema.py:23-27 | A dumped create-user request has exactly email, password, lastName, firstName, middleName (a password, no id) |
| UsersSchema.DecodeUpdateUserRequest | clients/users/users_schema.py:41-46 | An update-user request parses exactly when its four fields are found, each null or a string, with a string email passing the EmailStr validator; the fields are then the values found, the email in its normal form |
| UsersSchema.UpdateUserRequestRoundTrip | clients/users/users_schema.py:43-46 | An update-user request, with any of its four fields None, survives a dump and a parse |
| UsersSchema.UpdateUserRequestWireKeys | clients/users/users_schema.py:43-46 | A dumped update-user request has exactly email, lastName, firstName, middleName (no password, no id), None fields included as null |
| UsersSchema.DecodeUserResponse | clients/users/users_schema.py:34 | A user response parses exactly when `user` holds an object that parses as a user, and the response's user is then that parse |
| UsersSchema.UserResponseRoundTrip | clients/users/users_schema.py:53 | A create, update or get user response survives a dump and a parse |
| UsersSchema.UserResponseWireKeys | clients/users/users_schema.py:60 | A dumped user response has the single key `user` |
| AuthenticationSchema.AuthenticationTablesInjective | clients/authentication/authentication_schema.py:7-24 | The token table repeats no wire key; the login request and response declare no alias |
| AuthenticationSchema.DecodeToken | clients/authentication/authentication_schema.py:7-9 | A token parses exactly when tokenType, accessToken and refreshToken are all present as strings, and its fields are those values |
| AuthenticationSchema.TokenRoundTrip | clients/authentication/authentication_schema.py:7-9 | A token survives a dump and a parse |
| AuthenticationSchema.TokenReencode | clients/authentication/authentication_schema.py:7-9 | Parsing a token payload and dumping it gives back exactly its three camelCase keys with their values |
| AuthenticationSchema.TokenRejectsFieldNames | clients/authentication/authentication_schema.py:3-9 | Without populate_by_name, a token keyed by the snake_case names is refused, for the missing key tokenType |
| AuthenticationSchema.TokenWireKeys | clients/authentication/authentication_schema.py:7-9 | A dumped token has exactly the keys tokenType, accessToken, refreshToken |
| AuthenticationSchema.DecodeLoginRequest | clients/authentication/authentication_schema.py:16-17 | A login request parses exactly when email and password are present as strings, and then holds those two strings |
| AuthenticationSchema.LoginRequestRoundTrip | clients/authentication/authentication_schema.py:16-17 | A login request survives a dump and a parse |
| AuthenticationSchema.LoginRequestWireKeys | clients/authentication/authentication_schema.py:16-17 | A dumped login request has exactly the keys email and password |
| AuthenticationSchema.DecodeLoginResponse | clients/authentication/authentication_schema.py:24 | A login response parses exactly when `token` holds an object that parses as a token, and the response's token is then that parse |
| AuthenticationSchema.LoginResponseRoundTrip | clients/authentication/authentication_schema.py:24 | A login response survives a dump and a parse |
| AuthenticationSchema.LoginResponseWireKeys | clients/authentication/authentication_schema.py:24 | A dumped login response has the single key `token` |
| AuthenticationSchema.DecodeRefreshRequest | clients/authentication/authentication_schema.py:31 | A refresh request parses exactly when refreshToken is present as a string, and then holds that string |
| AuthenticationSchema.RefreshRequestRoundTrip | clients/authentication/authentication_schema.py:31 | A refresh request survives a dump and a parse |
| AuthenticationSchema.RefreshRequestWireKeys | clients/authentication/authentication_schema.py:31 | A dumped refresh request has the single key refreshToken |
| CoursesSchema.CourseTablesInjective | clients/courses/courses_schema.py:12-63 | No course table repeats a wire key |
| CoursesSchema.EncodeCourse | clients/courses/courses_schema.py:12-19 | A dumped course has exactly the aliases of the course table as keys |
| CoursesSchema.EncodeCourseEmbeds | clients/courses/courses_schema.py:17-19 | A dumped course embeds the whole dumped preview file and the whole dumped author, not ids |
| CoursesSchema.CourseFromValues | clients/courses/courses_schema.py:12-19 | The values build a course exactly when they have a course's kinds and the nested objects parse; the course's scalar fields are then the values and its file and author are what the nested objects parse to |
| CoursesSchema.DecodeCourse | clients/courses/courses_schema.py:10-19 | A course payload parses exactly when its eight fields are found with a course's kinds and the nested file and author parse; the scalar fields are then the values found and the nested records the parses of the nested objects |
| CoursesSchema.CourseReencode | clients/courses/courses_schema.py:10-19 | A payload that parses and carries every camelCase key dumps back to exactly those keys with the values received, the nested file and author re-dumped as FileReencode and UserReencode state |
| CoursesSchema.CourseRoundTrip | clients/courses/courses_schema.py:10-19 | A valid course, with its nested file and user, survives a by-alias dump and a parse unchanged |
| CoursesSchema.DecodeGetCoursesQuery | clients/courses/courses_schema.py:26-28 | The course-list query parses exactly when userId, or else user_id, is present as a string, and its user id is then the string under the key that was used |
| CoursesSchema.GetCoursesQueryRoundTrip | clients/courses/courses_schema.py:28 | The course-list query survives a dump and a parse |
| CoursesSchema.GetCoursesQueryWireKeys | clients/courses/courses_schema.py:28 | A dumped course-list query has the single key userId |
| CoursesSchema.DecodeCreateCourseRequest | clients/courses/courses_schema.py:35-43 | A create-course request parses exactly when its seven fields are found with their kinds (ints for the two scores, strings elsewhere); it then holds exactly the values found, in table order |
| CoursesSchema.CreateCourseRequestRoundTrip | clients/courses/courses_schema.py:37-43 | A create-course request survives a dump and a parse |
| CoursesSchema.CreateCourseRequestWireKeys | clients/courses/courses_schema.py:37-43 | A dumped create-course request has exactly title, maxScore, minScore, description, estimatedTime, previewFileId, createdByUserId (no id; file and author by id) |
| CoursesSchema.DecodeUpdateCourseRequest | clients/courses/courses_schema.py:57-63 | An update-course request parses exactly when all five keys are found, each null or of its kind; the fields are then the values found |
| CoursesSchema.UpdateCourseRequestRoundTrip | clients/courses/courses_schema.py:59-63 | An update-course request, with any fields None, survives a dump and a parse |
| CoursesSchema.UpdateCourseRequestWireKeys | clients/courses/courses_schema.py:59-63 | A dumped update-course request has exactly title, maxScore, minScore, description, estimatedTime (no id, file or author) |
| CoursesSchema.DecodeCourseResponse | clients/courses/courses_schema.py:50 | A course response parses exactly when `course` holds an object that parses as a course, and the response's course is then that parse |
| CoursesSchema.CourseResponseRoundTrip | clients/courses/courses_schema.py:50 | A course response with a valid course survives a dump and a parse |
| CoursesSchema.CourseResponseWireKeys | clients/courses/courses_schema.py:50 | A dumped course response has the single key `course` |
| CoursesSchema.DecodeCoursesResponse | tools/assertions/courses.py:39-42 | A course list parses exactly when `courses` is an array of objects that all parse as courses; course i is then the parse of element i |
| CoursesSchema.CoursesResponseRoundTrip | tools/assertions/courses.py:39-42 | A list of valid courses survives a dump and a parse with its order kept |
| CoursesSchema.CoursesResponseWireKeys | tools/assertions/courses.py:39 | A dumped course list has the single key `courses` |
| ExercisesSchema.ExerciseTablesInjective | clients/exercises/exercises_schema.py:14-73 | No exercise table repeats a wire key, and in the update table description's alias is "description" itself |
| ExercisesSchema.CreateExerciseTableDropsId | clients/exercises/exercises_schema.py:14-59 | The create-exercise table is the exercise table without its first field, id |
| ExercisesSchema.ExerciseFromValues | clients/exercises/exercises_schema.py:14-21 | An exercise is built from decoded values exactly when each has its field's kind (ints for the scores and order index, strings elsewhere), and then holds exactly those values |
| ExercisesSchema.DecodeExercise | clients/exercises/exercises_schema.py:12-21 | An exercise payload parses exactly when its eight fields are found with their kinds, and the exercise then holds exactly the values found, in table order |
| ExercisesSchema.ExerciseRoundTrip | clients/exercises/exercises_schema.py:14-21 | An exercise survives a by-alias dump and a parse unchanged |
| ExercisesSchema.ExerciseReencode | clients/exercises/exercises_schema.py:14-21 | A payload that parses and carries every camelCase key dumps back to exactly those keys with the values received |
| ExercisesSchema.ExerciseListRoundTrip | clients/exercises/exercises_schema.py:37 | A list of exercises survives a dump and a parse with its order kept |
| ExercisesSchema.DecodeExercisesResponse | clients/exercises/exercises_schema.py:37 | An exercise list parses exactly when `exercises` is an array of objects that all parse as exercises; exercise i is then the parse of element i |
| ExercisesSchema.ExercisesResponseRoundTrip | clients/exercises/exercises_schema.py:37 | An exercise list response survives a dump and a parse |
| ExercisesSchema.ExercisesResponseWireKeys | clients/exercises/exercises_schema.py:37 | A dumped exercise list has the single key `exercises` |
| ExercisesSchema.DecodeExerciseResponse | clients/exercises/exercises_schema.py:44 | An exercise response parses exactly when `exercise` holds an object that parses as an exercise, and the response's exercise is then that parse |
| ExercisesSchema.ExerciseResponseRoundTrip | clients/exercises/exercises_schema.py:44 | An exercise response survives a dump and a parse |
| ExercisesSchema.ExerciseResponseWireKeys | clients/exercises/exercises_schema.py:44 | A dumped exercise response has the single key `exercise` |
| ExercisesSchema.DecodeGetExercisesQuery | clients/exercises/exercises_schema.py:28-30 | The exercise-list query parses exactly when courseId, or else course_id, is present as a string, and its course id is then the string under the key that was used |
| ExercisesSchema.GetExercisesQueryRoundTrip | clients/exercises/exercises_schema.py:30 | The exercise-list query survives a dump and a parse |
| ExercisesSchema.GetExercisesQueryWireKeys | clients/exercises/exercises_schema.py:30 | A dumped exercise-list query has the single key courseId |
| ExercisesSchema.DecodeCreateExerciseRequest | clients/exercises/exercises_schema.py:47-59 | A create-exercise request parses exactly when its seven fields are found with their kinds; it then holds exactly the values found, in table order |
| ExercisesSchema.CreateExerciseRequestWireKeys | clients/exercises/exercises_schema.py:53-59 | A dumped create-exercise request has exactly title, courseId, maxScore, minScore, orderIndex, description, estimatedTime (no id) |
| ExercisesSchema.DecodeUpdateExerciseRequest | clients/exercises/exercises_schema.py:62-73 | An update-exercise request parses exactly when its six keys are found, each holding null or a value of its field's kind; it then holds exactly the values found |
| ExercisesSchema.UpdateExerciseRequestWireKeys | clients/exercises/exercises_schema.py:68-73 | A dumped update-exercise request has exactly title, maxScore, minScore, orderIndex, description, estimatedTime (no id, no course id) |
| ExercisesSchema.CreateExerciseRequestFromValues | clients/exercises/exercises_schema.py:53-59 | A create-exercise request is built from decoded values exactly when each has its field's kind, and then holds exactly those values |
| ExercisesSchema.CreateExerciseRequestRoundTrip | clients/exercises/exercises_schema.py:53-59 | A create-exercise request survives a dump and a parse |
| ExercisesSchema.UpdateExerciseRequestFromValues | clients/exercises/exercises_schema.py:68-73 | An update-exercise request is built from decoded values exactly when each is null or of its field's kind, and then holds exactly those values, None as null |
| ExercisesSchema.UpdateExerciseRequestRoundTrip | clients/exercises/exercises_schema.py:68-73 | An update-exercise request, with any fields None, survives a dump and a parse |
| ErrorAssertions.ValidationErrorComparisonsAgree | tools/assertions/errors.py:23-27 | The five compared lines (type, input, context, message, location) all agree exactly when the errors are the same: equal type, message and location, input and context equal under Python's `==` |
| ErrorAssertions.StrListPyEq | tools/assertions/errors.py:27 | Two locations pass `==` exactly when they are the same list |
| ErrorAssertions.SameErrorIsEquality | tools/assertions/errors.py:23-27 | Equal errors are the same, and without bools in input and context only equal errors are |
| ErrorAssertions.AssertValidationError | tools/assertions/errors.py:13-27 | assert_validation_error passes exactly when the two errors are the same under Python's `==`, in particular whenever they are equal |
| ErrorAssertions.TrueInputMatchesOne | tools/assertions/errors.py:24 | An error with input `true` passes against the same error with input `1` |
| ErrorAssertions.ValidationErrorReportsFirst | tools/assertions/errors.py:23-27 | When several fields differ under `==`, the one reported is the first in the order type, input, context, message, location |
| ErrorAssertions.AssertValidationErrorResponse | tools/assertions/errors.py:31-44 | Passes exactly when the two detail lists have the same length and the errors at each position are the same, so equal responses pass; different lengths are reported as a length mismatch before any item |
| ErrorAssertions.ValidationErrorOrderMatters | tools/assertions/errors.py:43-44 | Swapping two errors of the expected list that are not the same fails the check |
| ErrorAssertions.AssertInternalErrorResponse | tools/assertions/errors.py:48-58 | Passes exactly when the `details` texts are equal; a failure names `details` and keeps both texts |
| FileAssertions.AssertCreateFileResponse | tools/assertions/files.py:10-22 | Passes exactly when the response's file has url `http://localhost:8000/static/<directory>/<filename>` and echoes the request's filename and directory, whatever its id |
| FileAssertions.CreateFileCheckIgnoresIdAndContent | tools/assertions/files.py:18-22 | Neither the file id nor the uploaded content affects the create check |
| FileAssertions.ExpectedFileUrlInjective | tools/assertions/files.py:18 | For directories without a slash, the expected url determines the directory and the filename |
| FileAssertions.AssertFile | tools/assertions/files.py:26-37 | assert_file passes exactly when the two files are equal in id, url, filename and directory |
| FileAssertions.AssertGetFileResponse | tools/assertions/files.py:41-49 | Passes exactly when the two responses wrap the same file |
| FileAssertions.AssertCreateFileWithEmptyFilenameResponse | tools/assertions/files.py:53-71 | Passes exactly when there is one detail: string_too_short, input "", context {min_length: 1} (or `true`, which `==` takes for 1), the fixed message, location ["body", "filename"] |
| FileAssertions.EmptyStringErrorAccepts | tools/assertions/files.py:60-71 | The detail list is the same as the one expected empty-string error exactly when it has one detail with those fixed fields |
| FileAssertions.AssertCreateFileWithEmptyDirectoryResponse | tools/assertions/files.py:75-93 | The same, with location ["body", "directory"] |
| FileAssertions.EmptyFieldChecksExclusive | tools/assertions/files.py:60-93 | No response passes both the empty-filename and the empty-directory check |
| FileAssertions.AssertFileNotFoundResponse | tools/assertions/files.py:97-105 | Passes exactly when `details` is "File not found" |
| FileAssertions.AssertGetFileWithIncorrectFileIdResponse | tools/assertions/files.py:109-129 | Passes exactly when the details are the one uuid_parsing error for input "incorrect-file-id" at location ["path", "file_id"] |
| FileAssertions.IncorrectFileIdErrorAccepts | tools/assertions/files.py:116-129 | The expected error holds strings only, so only that exact record passes |
| UserAssertions.AssertCreateUserResponse | tools/assertions/users.py:5-16 | Passes exactly when the response's user has the request's email, last, first and middle name |
| UserAssertions.CreateUserCheckIgnoresPasswordAndId | tools/assertions/users.py:13-16 | Neither the password nor the server-assigned user id affects the check |
| UserAssertions.AssertUser | tools/assertions/courses.py:32 | assert_user passes exactly when the two users are equal |
| AuthenticationAssertions.AssertLoginResponse | tools/assertions/authentication.py:13-24 | Passes exactly when token_type is "bearer" and both tokens are non-empty; a wrong token_type is the failure reported |
| AuthenticationAssertions.CapitalisedBearerFails | tools/assertions/authentication.py:22 | "Bearer" with a capital fails: the comparison is exact |
| AuthenticationAssertions.SameTokensPass | tools/assertions/authentication.py:22-24 | Equal access and refresh tokens pass: no relation between the tokens is checked |
| AuthenticationAssertions.EmptyAccessTokenReportedFirst | tools/assertions/authentication.py:23-24 | An empty access token is reported before the refresh token is looked at |
| CourseAssertions.AssertUpdateCourseResponse | tools/assertions/courses.py:8-20 | Passes exactly when the request sets all five fields to the returned course's values (a None never equals a value) |
| CourseAssertions.UpdateCourseComparisonsAgree | tools/assertions/courses.py:16-20 | When the five compared lines agree, the request is the full update of the course |
| CourseAssertions.PartialCourseUpdateFails | tools/assertions/courses.py:16-20 | A request with any field None fails the update check |
| CourseAssertions.UpdateCourseCheckIgnoresIdFileUser | tools/assertions/courses.py:16-20 | The course id, preview file and author do not affect the update check |
| CourseAssertions.CourseComparisonsAgree | tools/assertions/courses.py:24-29 | The six scalar lines agree exactly when the courses are equal apart from the nested file and user |
| CourseAssertions.AssertCourse | tools/assertions/courses.py:23-32 | assert_course passes exactly when the two courses are equal, the nested file (assert_file) and author (assert_user) included |
| CourseAssertions.AssertGetCoursesResponse | tools/assertions/courses.py:35-42 | Passes exactly when the listed courses are the created ones in the same order; different lengths are reported as a length mismatch first |
| CourseAssertions.CourseOrderMatters | tools/assertions/courses.py:41-42 | Swapping two different courses in the list fails the check |
| CourseAssertions.AssertCreateCourseResponse | tools/assertions/courses.py:45-59 | Passes exactly when the returned course answers the request: the five scalar fields, the preview file's id and the author's id |
| CourseAssertions.CreateCourseComparisonsAgree | tools/assertions/courses.py:53-59 | When the seven compared lines agree, the course answers the request |
| CourseAssertions.CreateCourseCheckSeesOnlyNestedIds | tools/assertions/courses.py:56-59 | Only the ids of the nested file and author affect the create check |
| ExerciseAssertions.AssertCreateExerciseResponse | tools/assertions/exercises.py:17-33 | Passes exactly when the returned exercise answers the request in all seven fields, whatever its id |
| ExerciseAssertions.CreateExerciseComparisonsAgree | tools/assertions/exercises.py:27-33 | When the seven compared lines agree, the exercise answers the request |
| ExerciseAssertions.CreateExerciseCheckIgnoresId | tools/assertions/exercises.py:27-33 | The exercise id does not affect the create check |
| ExerciseAssertions.ExerciseComparisonsAgree | tools/assertions/exercises.py:47-54 | The eight compared lines agree exactly when the exercises are equal |
| ExerciseAssertions.AssertExercise | tools/assertions/exercises.py:37-54 | assert_exercise passes exactly when the two exercises are equal, id included |
| ExerciseAssertions.AssertGetExercisesResponse | tools/assertions/exercises.py:58-74 | Passes exactly when the listed exercises are the created ones in the same order; different lengths are reported as a length mismatch first |
| ExerciseAssertions.ExerciseOrderMatters | tools/assertions/exercises.py:73-74 | Swapping two different exercises in the list fails the check |
| ExerciseAssertions.AssertGetExerciseResponse | tools/assertions/exercises.py:78-88 | Passes exactly when the two responses wrap the same exercise |
| ExerciseAssertions.AssertUpdateExerciseResponse | tools/assertions/exercises.py:92-107 | Passes exactly when the request sets all six fields to the returned exercise's values (a None never equals a value) |
| ExerciseAssertions.UpdateExerciseComparisonsAgree | tools/assertions/exercises.py:102-107 | When the six compared lines agree, the request is the full update of the exercise |
| ExerciseAssertions.UpdateExerciseCheckIgnoresIdAndCourse | tools/assertions/exercises.py:102-107 | Neither the exercise id nor its course id affects the update check |
| ExerciseAssertions.PartialExerciseUpdateFails | tools/assertions/exercises.py:102-107 | A request with any field None fails the update check |
| ExerciseAssertions.AssertExerciseNotFoundResponse | tools/assertions/exercises.py:111-121 | Passes exactly when `details` is "Exercise not found" |

## Left out

- The HTTP transport and the domain clients (`clients/api_client.py`, the `*_client.py` files, the public and private builders). They are network I/O; a request enters the model as a `Curl.Request` value.
- Session caching. `clients/private_http_builder.py:13-22` logs in on every call, so there is nothing to cache.
- Pydantic's lax coercion (for example a numeric string accepted as an int). The decoder accepts only the JSON kind a field declares.
- Pydantic reports every validation error of a payload, in field order. The decoder reports one: the first missing key in table order when any key is missing, and otherwise the first value of the wrong kind (or refused by a validator) in table order. When a key is missing, that is not necessarily pydantic's first error.
- Wire.Value: JSON numbers with a fraction or an exponent are not modelled; a number is an `int`. So `Checks.PyEq` does not cover Python's equality between an int and a float (`1 == 1.0`), and a float `input` of a validation error is outside the model.
- EmailStr and HttpUrl validation. These are library validators and enter as the functions of `Wire.Formats`, which give the normal form of an accepted string (the lower-cased domain of an email, the `str()` of a url). Their rules are not modelled, and the fact that each keeps its own output unchanged is stated as the hypothesis `Wire.Canonical`, not proved.
- `model_json_schema` and `validate_json_schema` (tools/assertions/schema.py). These are library behaviour.
- httpx's header handling (merging, lower-casing, default headers). A request's headers are the list `headers.items()` yields.
- Shell quoting. The source does none, and neither does the model: a value holding `'` or a newline ends up verbatim in the command, which is why `Curl.CommandGivesBackParts` requires parts without newlines.
- Checks.EqualMessageShowsValues: Python's `str()` of arbitrary values is a parameter `show`. The lemma states where the field name and the two shown values sit, not how `str()` prints them.
- Checks.AssertLength: `assert_length` is imported by the assertion files but not defined in tools/assertions/base.py. It is given its evident meaning, and the model does not state its message.
- Checks.AssertIsTrue: `assert_is_true` is imported but not defined in tools/assertions/base.py. It is given Python's truthiness on strings, and the model does not state its message.
- UserAssertions.AssertUser: `assert_user` is imported by tools/assertions/courses.py but not defined in tools/assertions/users.py. It is given the shape of `assert_file`: every field compared, id included.
- clients/errors_schema.py is not part of this model. The error records take their fields from their uses in tools/assertions/errors.py and tools/assertions/files.py.
- GetFileResponseSchema, UpdateCourseResponseSchema and GetCoursesResponseSchema are imported but have no class in the schema files. They are modelled as one-field wrappers shaped like their create counterparts: `FileResponse`, `CourseResponse` and `CoursesResponse`.
- Faker test data (tools/fakers.py), Allure steps, logging and the event hooks. These are random generation and reporting side channels with no effect on any result.
- Tests, fixtures and the tutorial or demo scripts. None of them is part of the core.
