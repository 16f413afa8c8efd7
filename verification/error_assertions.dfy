/** The checks of tools/assertions/errors.py. */
module ErrorAssertions {
  import opened Wire
  import opened Checks
  import opened ErrorsSchema

  /** A list of strings as a JSON array, for comparing `location`. */
  function StrList(xs: seq<string>): (v: Value)
    ensures v.Arr? && |v.items| == |xs| && forall i :: 0 <= i < |xs| ==> v.items[i] == Str(xs[i])
  {
    Arr(seq(|xs|, i requires 0 <= i < |xs| => Str(xs[i])))
  }

  /** Lists of strings are equal under Python's `==` exactly when they are
      the same list. */
  lemma StrListPyEq(xs: seq<string>, ys: seq<string>)
    ensures PyEq(StrList(xs), StrList(ys)) <==> xs == ys
  {
    if PyEq(StrList(xs), StrList(ys)) {
      assert |xs| == |ys|;
      forall i | 0 <= i < |xs| ensures xs[i] == ys[i] {
        assert PyEq(StrList(xs).items[i], StrList(ys).items[i]);
      }
    }
    if xs == ys {
      PyEqReflexive(StrList(xs));
    }
  }

  /** The five assert_equal lines of assert_validation_error, in order. */
  function ValidationErrorComparisons(actual: ValidationError, expected: ValidationError): seq<Comparison> {
    [Comparison("type", Str(actual.errorType), Str(expected.errorType)),
     Comparison("input", actual.input, expected.input),
     Comparison("context", Obj(actual.context), Obj(expected.context)),
     Comparison("message", Str(actual.message), Str(expected.message)),
     Comparison("location", StrList(actual.location), StrList(expected.location))]
  }

  /** What assert_validation_error accepts: the same type, message and
      location, and an input and a context equal under Python's `==`. */
  predicate SameError(actual: ValidationError, expected: ValidationError) {
    actual.errorType == expected.errorType && PyEq(actual.input, expected.input) &&
    PyEq(Obj(actual.context), Obj(expected.context)) &&
    actual.message == expected.message && actual.location == expected.location
  }

  /** An error is the same as itself, and without bools in its input and
      context it is the same only as an equal record. */
  lemma SameErrorIsEquality(actual: ValidationError, expected: ValidationError)
    ensures actual == expected ==> SameError(actual, expected)
    ensures NoBools(actual.input) && NoBools(Obj(actual.context)) &&
            NoBools(expected.input) && NoBools(Obj(expected.context)) ==>
              (SameError(actual, expected) <==> actual == expected)
  {
    PyEqReflexive(actual.input);
    PyEqReflexive(Obj(actual.context));
    if NoBools(actual.input) && NoBools(Obj(actual.context)) &&
       NoBools(expected.input) && NoBools(Obj(expected.context)) {
      PyEqNoBools(actual.input, expected.input);
      PyEqNoBools(Obj(actual.context), Obj(expected.context));
    }
  }

  /** All five lines agree exactly when the errors are the same. */
  lemma ValidationErrorComparisonsAgree(actual: ValidationError, expected: ValidationError)
    ensures var cs := ValidationErrorComparisons(actual, expected);
            (forall i :: 0 <= i < |cs| ==> Agrees(cs[i])) <==> SameError(actual, expected)
  {
    var cs := ValidationErrorComparisons(actual, expected);
    StrListPyEq(actual.location, expected.location);
    assert Agrees(cs[0]) <==> actual.errorType == expected.errorType;
    assert Agrees(cs[1]) <==> PyEq(actual.input, expected.input);
    assert Agrees(cs[2]) <==> PyEq(Obj(actual.context), Obj(expected.context));
    assert Agrees(cs[3]) <==> actual.message == expected.message;
    assert Agrees(cs[4]) <==> actual.location == expected.location;
    assert (forall i :: 0 <= i < |cs| ==> Agrees(cs[i])) <==>
           Agrees(cs[0]) && Agrees(cs[1]) && Agrees(cs[2]) && Agrees(cs[3]) && Agrees(cs[4]);
  }

  /** assert_validation_error: passes exactly when the two errors are the
      same under Python's `==`, and so whenever they are equal records. */
  function AssertValidationError(actual: ValidationError, expected: ValidationError): (c: Check)
    ensures c.Pass? <==> SameError(actual, expected)
    ensures actual == expected ==> c.Pass?
  {
    ValidationErrorComparisonsAgree(actual, expected);
    SameErrorIsEquality(actual, expected);
    CompareAll(ValidationErrorComparisons(actual, expected))
  }

  /** An error whose input is `true` passes against one whose input is `1`,
      as `True == 1` in Python. */
  lemma TrueInputMatchesOne(e: ValidationError)
    requires e.input == Int(1)
    ensures AssertValidationError(e.(input := Bool(true)), e).Pass?
  {
    PyEqReflexive(Obj(e.context));
  }

  /** The name of the first field, in the order type, input, context,
      message, location, on which two errors disagree. */
  function FirstDifference(actual: ValidationError, expected: ValidationError): string {
    if actual.errorType != expected.errorType then "type"
    else if !PyEq(actual.input, expected.input) then "input"
    else if !PyEq(Obj(actual.context), Obj(expected.context)) then "context"
    else if actual.message != expected.message then "message"
    else "location"
  }

  /** When several fields differ, the one reported is the first of them. */
  lemma ValidationErrorReportsFirst(actual: ValidationError, expected: ValidationError)
    requires !SameError(actual, expected)
    ensures AssertValidationError(actual, expected).failure.ValueMismatch?
    ensures AssertValidationError(actual, expected).failure.name == FirstDifference(actual, expected)
  {
    var cs := ValidationErrorComparisons(actual, expected);
    var c := CompareAll(cs);
    assert c == AssertValidationError(actual, expected);
    assert c.Fail?;
    var k := FirstMismatch(cs);
    assert c.failure.name == cs[k].name;
    if k == 4 {
      assert Agrees(cs[0]) && Agrees(cs[1]);
      assert Agrees(cs[2]) && Agrees(cs[3]);
    } else if k == 3 {
      assert Agrees(cs[0]) && Agrees(cs[1]);
      assert Agrees(cs[2]);
    } else if k == 2 {
      assert Agrees(cs[0]) && Agrees(cs[1]);
    } else if k == 1 {
      assert Agrees(cs[0]);
    }
  }

  /** Two error lists of the same length whose errors at equal positions
      are the same. */
  predicate SameErrors(actual: seq<ValidationError>, expected: seq<ValidationError>) {
    |actual| == |expected| && forall i :: 0 <= i < |expected| ==> SameError(actual[i], expected[i])
  }

  /** assert_validation_error_response: the lengths first, then the errors
      at equal positions; equal responses pass. */
  function AssertValidationErrorResponse(actual: ValidationErrorResponse, expected: ValidationErrorResponse): (c: Check)
    ensures c.Pass? <==> SameErrors(actual.details, expected.details)
    ensures actual == expected ==> c.Pass?
    ensures |actual.details| != |expected.details| ==>
              c == Fail(LengthMismatch("details", |expected.details|, |actual.details|))
  {
    AssertEach(actual.details, expected.details, "details", AssertValidationError)
  }

  /** The errors are compared by position, so swapping two expected errors
      that are not the same fails the check. */
  lemma ValidationErrorOrderMatters(expected: ValidationErrorResponse, i: nat, j: nat)
    requires i < |expected.details| && j < |expected.details| && !SameError(expected.details[i], expected.details[j])
    ensures var d := expected.details;
            AssertValidationErrorResponse(ValidationErrorResponse(d[i := d[j]][j := d[i]]), expected).Fail?
  {
    var d := expected.details;
    assert d[i := d[j]][j := d[i]][j] == d[i];
  }

  /** Two responses without errors pass. */
  lemma NoErrorsPass()
    ensures AssertValidationErrorResponse(ValidationErrorResponse([]), ValidationErrorResponse([])) == Pass
  {
  }

  /** assert_internal_error_response: passes exactly when the `details`
      texts are equal. */
  function AssertInternalErrorResponse(actual: InternalErrorResponse, expected: InternalErrorResponse): (c: Check)
    ensures c.Pass? <==> actual.details == expected.details
    ensures c.Fail? ==> c.failure == ValueMismatch("details", Str(expected.details), Str(actual.details))
  {
    AssertEqual(Str(actual.details), Str(expected.details), "details")
  }
}
