/** The assertion primitives of tools/assertions/base.py, and the two helpers
    the other assertion files import from it without it defining them
    (`assert_length`, `assert_is_true`), given their evident meaning.

    A Python assertion either returns or raises AssertionError with a
    message. Here a check is a value: `Pass`, or `Fail` carrying what the
    raised error reports. The compared values are lifted to `Wire.Value` and
    compared as Python's `==` compares them (`PyEq`): a str field compared
    with a None update field is a mismatch, and `True` equals `1`. No check
    changes any state. */
module Checks {
  import opened Wrappers
  import opened Wire
  import opened Decimal

  datatype Failure =
    | StatusMismatch(expectedCode: int, actualCode: int)
    | ValueMismatch(name: string, expected: Value, actual: Value)
    | LengthMismatch(name: string, expectedLength: nat, actualLength: nat)
    | NotTruthy(name: string)

  datatype Check = Pass | Fail(failure: Failure)

  /** Two asserts in sequence: the first that raises ends the check. */
  function Then(first: Check, next: Check): (c: Check)
    ensures c.Pass? <==> first.Pass? && next.Pass?
    ensures first.Fail? ==> c == first
    ensures first.Pass? ==> c == next
  {
    if first.Fail? then first else next
  }

  /** assert_status_code: passes exactly when the codes are equal. */
  function AssertStatusCode(actual: int, expected: int): (c: Check)
    ensures c.Pass? <==> actual == expected
    ensures c.Fail? ==> c.failure == StatusMismatch(expected, actual)
  {
    if actual == expected then Pass else Fail(StatusMismatch(expected, actual))
  }

  const StatusPrefix: string := "Некорректный статус-код ответа. Ожидался "
  const StatusMiddle: string := ", получен "

  /** The message assert_status_code raises with. */
  function StatusMessage(expected: int, actual: int): string {
    StatusPrefix + ShowInt(expected) + StatusMiddle + ShowInt(actual) + "."
  }

  /** Reads the expected and the actual code back out of a status message. */
  function ReadStatusMessage(msg: string): Option<(int, int)> {
    if |msg| < |StatusPrefix| || msg[..|StatusPrefix|] != StatusPrefix then None
    else
      match ReadInt(msg[|StatusPrefix|..])
      case None => None
      case Some((expected, rest)) =>
        if |rest| < |StatusMiddle| || rest[..|StatusMiddle|] != StatusMiddle then None
        else
          match ReadInt(rest[|StatusMiddle|..])
          case None => None
          case Some((actual, tail)) => if tail == "." then Some((expected, actual)) else None
  }

  /** The status message carries both codes: they can be read back from it. */
  lemma StatusMessageRoundTrip(expected: int, actual: int)
    ensures ReadStatusMessage(StatusMessage(expected, actual)) == Some((expected, actual))
  {
    var e := ShowInt(expected);
    var a := ShowInt(actual);
    var msg := StatusMessage(expected, actual);
    var rest := StatusMiddle + a + ".";
    assert msg[..|StatusPrefix|] == StatusPrefix && msg[|StatusPrefix|..] == e + rest by {
      assert msg == StatusPrefix + (e + rest);
    }
    assert ReadInt(e + rest) == Some((expected, rest)) by {
      assert rest[0] == ',';
      ReadShownInt(expected, rest);
    }
    assert rest[..|StatusMiddle|] == StatusMiddle && rest[|StatusMiddle|..] == a + "." by {
      assert rest == StatusMiddle + (a + ".");
    }
    assert ReadInt(a + ".") == Some((actual, ".")) by {
      ReadShownInt(actual, ".");
    }
  }

  /** Different pairs of codes give different messages. */
  lemma StatusMessageInjective(e1: int, a1: int, e2: int, a2: int)
    requires StatusMessage(e1, a1) == StatusMessage(e2, a2)
    ensures e1 == e2 && a1 == a2
  {
    StatusMessageRoundTrip(e1, a1);
    StatusMessageRoundTrip(e2, a2);
  }

  /** The integer a bool or an int stands for: in Python `bool` is a
      subclass of `int`, with `True == 1` and `False == 0`. */
  function Number(v: Value): int
    requires v.Bool? || v.Int?
  {
    if v.Bool? then (if v.b then 1 else 0) else v.i
  }

  /** Python's `==` on JSON values: a bool and an int compare as numbers,
      lists item by item, dicts by their keys and then value by value;
      values of any other two different kinds are unequal. */
  function PyEq(a: Value, b: Value): bool
    decreases a
  {
    match a
    case Null => b.Null?
    case Str(s) => b.Str? && b.s == s
    case Bool(_) => (b.Bool? || b.Int?) && Number(a) == Number(b)
    case Int(_) => (b.Bool? || b.Int?) && Number(a) == Number(b)
    case Arr(xs) => b.Arr? && |xs| == |b.items| && forall i :: 0 <= i < |xs| ==> PyEq(xs[i], b.items[i])
    case Obj(m) => b.Obj? && m.Keys == b.fields.Keys && forall k :: k in m ==> PyEq(m[k], b.fields[k])
  }

  /** Nowhere inside the value is there a bool. */
  predicate NoBools(v: Value)
    decreases v
  {
    match v
    case Bool(_) => false
    case Arr(xs) => forall i :: 0 <= i < |xs| ==> NoBools(xs[i])
    case Obj(m) => forall k :: k in m ==> NoBools(m[k])
    case _ => true
  }

  /** Every value equals itself. */
  lemma {:induction false} PyEqReflexive(a: Value)
    ensures PyEq(a, a)
    decreases a
  {
    match a
    case Arr(xs) =>
      forall i | 0 <= i < |xs| ensures PyEq(xs[i], xs[i]) {
        PyEqReflexive(xs[i]);
      }
    case Obj(m) =>
      forall k | k in m ensures PyEq(m[k], m[k]) {
        PyEqReflexive(m[k]);
      }
    case _ =>
  }

  /** Bools are the only difference: on values without bools, Python's
      `==` is structural equality. */
  lemma {:induction false} PyEqNoBools(a: Value, b: Value)
    requires NoBools(a) && NoBools(b)
    ensures PyEq(a, b) <==> a == b
    decreases a
  {
    PyEqReflexive(a);
    if PyEq(a, b) {
      match a
      case Arr(xs) =>
        forall i | 0 <= i < |xs| ensures xs[i] == b.items[i] {
          PyEqNoBools(xs[i], b.items[i]);
        }
        assert xs == b.items;
      case Obj(m) =>
        forall k | k in m ensures m[k] == b.fields[k] {
          PyEqNoBools(m[k], b.fields[k]);
        }
        assert m == b.fields;
      case _ =>
    }
  }

  /** Under Python's `==` a string equals only itself. */
  lemma PyEqStr(v: Value, s: string)
    ensures PyEq(v, Str(s)) <==> v == Str(s)
  {
  }

  /** Under Python's `==` an integer equals itself and the bool that
      stands for it. */
  lemma PyEqInt(v: Value, n: int)
    ensures PyEq(v, Int(n)) <==> v == Int(n) || (v.Bool? && Number(v) == n)
  {
  }

  /** The one place where Python's `==` is looser than equality of values:
      `True == 1` and `False == 0`. */
  lemma BoolsEqualNumbers()
    ensures PyEq(Bool(true), Int(1)) && PyEq(Int(0), Bool(false)) && Bool(true) != Int(1)
    ensures !PyEq(Bool(true), Int(2)) && !PyEq(Str("1"), Int(1))
  {
  }

  /** assert_equal: passes exactly when the values are equal under Python's
      `==`. The failure names the field and keeps both values. */
  function AssertEqual(actual: Value, expected: Value, name: string): (c: Check)
    ensures c.Pass? <==> PyEq(actual, expected)
    ensures c.Fail? ==> c.failure == ValueMismatch(name, expected, actual)
  {
    if PyEq(actual, expected) then Pass else Fail(ValueMismatch(name, expected, actual))
  }

  const EqualPrefix: string := "Некорректное значение "
  const EqualExpected: string := ". Ожидалось "
  const EqualActual: string := ", получено "

  /** The message assert_equal raises with; `show` is Python's `str` on the
      compared values, which the model does not reimplement. */
  function EqualMessage(name: string, expected: Value, actual: Value, show: Value -> string): string {
    EqualPrefix + name + EqualExpected + show(expected) + EqualActual + show(actual) + "."
  }

  /** The message names the field right after its fixed opening, then shows
      the expected value, and ends with the actual one. */
  lemma EqualMessageShowsValues(name: string, expected: Value, actual: Value, show: Value -> string)
    ensures var msg := EqualMessage(name, expected, actual, show);
            var e := |EqualPrefix| + |name| + |EqualExpected|;
            |msg| == e + |show(expected)| + |EqualActual| + |show(actual)| + 1 &&
            msg[|EqualPrefix|..|EqualPrefix| + |name|] == name &&
            msg[e..e + |show(expected)|] == show(expected) &&
            msg[|msg| - 1 - |show(actual)|..|msg| - 1] == show(actual)
  {
    var msg := EqualMessage(name, expected, actual, show);
    var head := EqualPrefix + name + EqualExpected;
    var tail := show(expected) + EqualActual + show(actual) + ".";
    assert msg == head + tail;
    assert msg[|EqualPrefix|..|EqualPrefix| + |name|] == name;
  }

  /** The text of the AssertionError a failure raises, for the two asserts
      whose message the source writes out; `show` is Python's `str`. */
  function Message(f: Failure, show: Value -> string): Option<string> {
    match f
    case StatusMismatch(expected, actual) => Some(StatusMessage(expected, actual))
    case ValueMismatch(name, expected, actual) => Some(EqualMessage(name, expected, actual, show))
    case _ => None
  }

  /** A failed assert_status_code raises a message that gives back the
      expected and the actual code, in that order. */
  lemma StatusFailureMessage(actual: int, expected: int, show: Value -> string)
    requires AssertStatusCode(actual, expected).Fail?
    ensures Message(AssertStatusCode(actual, expected).failure, show) == Some(StatusMessage(expected, actual))
    ensures ReadStatusMessage(Message(AssertStatusCode(actual, expected).failure, show).value) == Some((expected, actual))
  {
    StatusMessageRoundTrip(expected, actual);
  }

  /** A failed assert_equal raises a message that names the field and shows
      the expected and then the actual value. */
  lemma EqualFailureMessage(actual: Value, expected: Value, name: string, show: Value -> string)
    requires AssertEqual(actual, expected, name).Fail?
    ensures Message(AssertEqual(actual, expected, name).failure, show) == Some(EqualMessage(name, expected, actual, show))
    ensures var msg := Message(AssertEqual(actual, expected, name).failure, show).value;
            msg[|EqualPrefix|..|EqualPrefix| + |name|] == name &&
            msg[|msg| - 1 - |show(actual)|..|msg| - 1] == show(actual)
  {
    EqualMessageShowsValues(name, expected, actual, show);
  }

  /** assert_length: the two collections have the same number of items. */
  function AssertLength<T>(actual: seq<T>, expected: seq<T>, name: string): (c: Check)
    ensures c.Pass? <==> |actual| == |expected|
    ensures c.Fail? ==> c.failure == LengthMismatch(name, |expected|, |actual|)
  {
    if |actual| == |expected| then Pass else Fail(LengthMismatch(name, |expected|, |actual|))
  }

  /** assert_is_true on a string: Python's truthiness, i.e. non-empty. */
  function AssertIsTrue(actual: string, name: string): (c: Check)
    ensures c.Pass? <==> actual != ""
    ensures c.Fail? ==> c.failure == NotTruthy(name)
  {
    if |actual| > 0 then Pass else Fail(NotTruthy(name))
  }

  /** One `assert_equal(actual, expected, name=...)` line of a check. */
  datatype Comparison = Comparison(name: string, actual: Value, expected: Value)

  /** The two sides of a line are equal under Python's `==`. */
  predicate Agrees(c: Comparison) {
    PyEq(c.actual, c.expected)
  }

  /** The position of the first comparison whose sides differ, or the
      number of comparisons when they all agree. */
  function FirstMismatch(cs: seq<Comparison>): (k: nat)
    ensures k <= |cs|
    ensures forall j :: 0 <= j < k ==> Agrees(cs[j])
    ensures k < |cs| ==> !Agrees(cs[k])
    decreases |cs|
  {
    if |cs| == 0 || !Agrees(cs[0]) then 0 else 1 + FirstMismatch(cs[1..])
  }

  /** A run of assert_equal lines: passes exactly when every line's sides
      agree, and otherwise reports the first line that disagrees. */
  function CompareAll(cs: seq<Comparison>): (c: Check)
    ensures c.Pass? <==> forall i :: 0 <= i < |cs| ==> Agrees(cs[i])
    ensures c.Fail? ==>
              var k := FirstMismatch(cs);
              k < |cs| && c.failure == ValueMismatch(cs[k].name, cs[k].expected, cs[k].actual)
    decreases |cs|
  {
    if |cs| == 0 then Pass
    else Then(AssertEqual(cs[0].actual, cs[0].expected, cs[0].name), CompareAll(cs[1..]))
  }

  /** Checks two lists item by item, at equal positions. */
  function Pairwise<T>(actual: seq<T>, expected: seq<T>, check: (T, T) -> Check): (c: Check)
    requires |actual| == |expected|
    ensures c.Pass? <==> forall i :: 0 <= i < |expected| ==> check(actual[i], expected[i]).Pass?
    decreases |expected|
  {
    if |expected| == 0 then Pass
    else Then(check(actual[0], expected[0]), Pairwise(actual[1..], expected[1..], check))
  }

  /** The list checks' shape: the lengths first, then item by item over the
      expected list's positions. */
  function AssertEach<T>(actual: seq<T>, expected: seq<T>, name: string, check: (T, T) -> Check): (c: Check)
    ensures c.Pass? <==> |actual| == |expected| && forall i :: 0 <= i < |expected| ==> check(actual[i], expected[i]).Pass?
    ensures |actual| != |expected| ==> c == Fail(LengthMismatch(name, |expected|, |actual|))
  {
    if |actual| != |expected| then AssertLength(actual, expected, name)
    else Pairwise(actual, expected, check)
  }

  /** When the item check is record equality, the list check is list
      equality: same items in the same order. */
  lemma EachIsListEquality<T>(actual: seq<T>, expected: seq<T>, name: string, check: (T, T) -> Check)
    requires forall x, y :: check(x, y).Pass? <==> x == y
    ensures AssertEach(actual, expected, name, check).Pass? <==> actual == expected
  {
    if |actual| == |expected| && forall i :: 0 <= i < |expected| ==> check(actual[i], expected[i]).Pass? {
      assert forall i :: 0 <= i < |expected| ==> actual[i] == expected[i];
    }
  }

  /** Two empty lists pass any list check. */
  lemma EmptyListsPass<T>(name: string, check: (T, T) -> Check)
    ensures AssertEach([], [], name, check) == Pass
  {
  }

  /** With record equality as the item check, swapping two different items
      of the expected list makes the check fail. */
  lemma SwapFails<T>(expected: seq<T>, i: nat, j: nat, name: string, check: (T, T) -> Check)
    requires forall x, y :: check(x, y).Pass? <==> x == y
    requires i < |expected| && j < |expected| && expected[i] != expected[j]
    ensures AssertEach(expected[i := expected[j]][j := expected[i]], expected, name, check).Fail?
  {
    var swapped := expected[i := expected[j]][j := expected[i]];
    EachIsListEquality(swapped, expected, name, check);
    assert swapped[j] != expected[j];
  }
}
