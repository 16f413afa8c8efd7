/** The checks of tools/assertions/users.py, and `assert_user`, which
    tools/assertions/courses.py imports from that file although the file
    does not define it; it is given the evident field-by-field meaning. */
module UserAssertions {
  import opened Wire
  import opened Checks
  import opened UsersSchema

  /** The create request a user record answers, given the password that the
      record does not carry. */
  function CreateRequestFor(u: User, password: string): CreateUserRequest {
    CreateUserRequest(u.email, password, u.lastName, u.firstName, u.middleName)
  }

  /** assert_create_user_response: email, last name, first name and middle
      name echoed back. Passes exactly when the response's user answers the
      request; the password and the user id play no part. */
  function AssertCreateUserResponse(q: CreateUserRequest, r: UserResponse): (c: Check)
    ensures c.Pass? <==> CreateRequestFor(r.user, q.password) == q
  {
    var cs := [Comparison("email", Str(r.user.email), Str(q.email)),
               Comparison("last_name", Str(r.user.lastName), Str(q.lastName)),
               Comparison("first_name", Str(r.user.firstName), Str(q.firstName)),
               Comparison("middle_name", Str(r.user.middleName), Str(q.middleName))];
    assert (forall i :: 0 <= i < |cs| ==> Agrees(cs[i])) ==> CreateRequestFor(r.user, q.password) == q by {
      if forall i :: 0 <= i < |cs| ==> Agrees(cs[i]) {
        assert Agrees(cs[0]) && Agrees(cs[1]);
        assert Agrees(cs[2]) && Agrees(cs[3]);
      }
    }
    CompareAll(cs)
  }

  /** The check's verdict is the same whatever the password sent and
      whatever id the server assigned. */
  lemma CreateUserCheckIgnoresPasswordAndId(q: CreateUserRequest, r: UserResponse, password: string, id: string)
    ensures AssertCreateUserResponse(q.(password := password), r.(user := r.user.(id := id)))
            == AssertCreateUserResponse(q, r)
  {
  }

  /** The five assert_equal lines of assert_user. */
  function UserComparisons(actual: User, expected: User): seq<Comparison> {
    [Comparison("id", Str(actual.id), Str(expected.id)),
     Comparison("email", Str(actual.email), Str(expected.email)),
     Comparison("last_name", Str(actual.lastName), Str(expected.lastName)),
     Comparison("first_name", Str(actual.firstName), Str(expected.firstName)),
     Comparison("middle_name", Str(actual.middleName), Str(expected.middleName))]
  }

  /** assert_user: passes exactly when the two users are the same record. */
  function AssertUser(actual: User, expected: User): (c: Check)
    ensures c.Pass? <==> actual == expected
  {
    var cs := UserComparisons(actual, expected);
    assert (forall i :: 0 <= i < |cs| ==> Agrees(cs[i])) ==> actual == expected by {
      if forall i :: 0 <= i < |cs| ==> Agrees(cs[i]) {
        assert Agrees(cs[0]) && Agrees(cs[1]);
        assert Agrees(cs[2]) && Agrees(cs[3]);
        assert Agrees(cs[4]);
      }
    }
    CompareAll(cs)
  }
}
