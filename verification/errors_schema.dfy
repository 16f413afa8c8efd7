/** The error payloads the assertions compare. clients/errors_schema.py is
    not part of this model; the records' fields are the ones the assertions
    read (tools/assertions/errors.py) and build (tools/assertions/files.py,
    tools/assertions/exercises.py). */
module ErrorsSchema {
  import opened Wire

  /** ValidationErrorSchema: one item of a 422 response. The Python field
      `type` is `errorType` here; `input` may hold any `Value` (so not a
      float), and `context` is a JSON object. */
  datatype ValidationError = ValidationError(
    errorType: string, input: Value, context: map<string, Value>, message: string, location: seq<string>)

  /** ValidationErrorResponseSchema: the ordered list of validation errors. */
  datatype ValidationErrorResponse = ValidationErrorResponse(details: seq<ValidationError>)

  /** InternalErrorResponseSchema: a single text, e.g. "File not found". */
  datatype InternalErrorResponse = InternalErrorResponse(details: string)
}
