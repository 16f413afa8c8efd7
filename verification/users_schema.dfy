/** The user records of clients/users/users_schema.py. Every model sets
    `populate_by_name=True`, so an incoming object may use either the
    camelCase alias or the snake_case field name. */
module UsersSchema {
  import opened Wrappers
  import opened Wire

  /** UserSchema: a user as the server returns it. The server assigns `id`. */
  datatype User = User(id: string, email: string, lastName: string, firstName: string, middleName: string)

  /** CreateUserRequestSchema: carries the password; no `id`. */
  datatype CreateUserRequest =
    CreateUserRequest(email: string, password: string, lastName: string, firstName: string, middleName: string)

  /** UpdateUserRequestSchema: every field nullable; no password, no `id`. */
  datatype UpdateUserRequest = UpdateUserRequest(
    email: Option<string>, lastName: Option<string>, firstName: Option<string>, middleName: Option<string>)

  /** CreateUserResponseSchema, UpdateUserResponseSchema and
      GetUserResponseSchema: three classes of the same shape, one user
      under the key `user`. */
  datatype UserResponse = UserResponse(user: User)

  const UserFields: seq<Field> := [
    Field("id", "id"), Field("email", "email"), Field("last_name", "lastName"),
    Field("first_name", "firstName"), Field("middle_name", "middleName")]

  const CreateUserRequestFields: seq<Field> := [
    Field("email", "email"), Field("password", "password"), Field("last_name", "lastName"),
    Field("first_name", "firstName"), Field("middle_name", "middleName")]

  const UpdateUserRequestFields: seq<Field> := [
    Field("email", "email"), Field("last_name", "lastName"),
    Field("first_name", "firstName"), Field("middle_name", "middleName")]

  const UserResponseFields: seq<Field> := [Field("user", "user")]

  lemma UserTablesInjective()
    ensures DistinctAliases(UserFields) && DistinctAliases(CreateUserRequestFields)
    ensures DistinctAliases(UpdateUserRequestFields) && DistinctAliases(UserResponseFields)
  {
  }

  /** `email` is an EmailStr, held in its normal form. */
  predicate ValidUser(u: User, fm: Formats) {
    Normal(fm.email, u.email)
  }

  function UserValues(u: User): seq<Value> {
    [Str(u.id), Str(u.email), Str(u.lastName), Str(u.firstName), Str(u.middleName)]
  }

  function EncodeUser(u: User): (m: Object)
  {
    Encode(UserFields, UserValues(u))
  }

  /** A payload parses exactly when all five fields are found and hold
      strings and the email passes the EmailStr validator; the fields are
      then the values found, the email in its normal form. */
  function DecodeUser(obj: Object, fm: Formats): (r: Result<User, DecodeError>)
    ensures r.Success? <==>
              DecodeFields(UserFields, obj, true).Success? &&
              (var vals := DecodeFields(UserFields, obj, true).value;
               vals[0].Str? && vals[1].Str? && fm.email(vals[1].s).Some? && vals[2].Str? && vals[3].Str? && vals[4].Str?)
    ensures r.Success? ==>
              DecodeFields(UserFields, obj, true).Success? &&
              (var vals := DecodeFields(UserFields, obj, true).value;
               UserValues(r.value) == vals[1 := Normalised(vals[1], fm.email)])
    ensures r.Success? && Canonical(fm) ==> ValidUser(r.value, fm)
  {
    var vals :- DecodeFields(UserFields, obj, true);
    var id :- AsStr(vals[0], At(UserFields, 0));
    var email :- AsFormatted(vals[1], fm.email, At(UserFields, 1));
    var lastName :- AsStr(vals[2], At(UserFields, 2));
    var firstName :- AsStr(vals[3], At(UserFields, 3));
    var middleName :- AsStr(vals[4], At(UserFields, 4));
    Success(User(id, email, lastName, firstName, middleName))
  }

  /** A valid user survives a by-alias dump and a parse unchanged. */
  lemma UserRoundTrip(u: User, fm: Formats)
    requires ValidUser(u, fm)
    ensures DecodeUser(EncodeUser(u), fm) == Success(u)
  {
    DecodeEncodeFields(UserFields, UserValues(u), true);
  }

  /** A payload that carries every camelCase key re-encodes to exactly
      those keys (listed by UserWireKeys) with the values received, except
      that the email is in its normal form. */
  lemma UserReencode(obj: Object, fm: Formats)
    requires DecodeUser(obj, fm).Success? && AliasKeys(UserFields) <= obj.Keys
    ensures EncodeUser(DecodeUser(obj, fm).value) ==
              Project(obj, AliasKeys(UserFields))["email" := Normalised(obj["email"], fm.email)]
  {
    UserTablesInjective();
    var vals := DecodeFields(UserFields, obj, true).value;
    assert UserFields[1].alias in AliasKeys(UserFields);
    assert Lookup(obj, UserFields[1], true) == Some(vals[1]);
    ReencodeFields(UserFields, obj, true, vals);
    EncodeReplaced(UserFields, vals, 1, Normalised(vals[1], fm.email));
  }

  /** Presence is checked before kinds: when any key is missing, the error
      reported is the first missing key, whatever the other values hold. */
  lemma UserMissingKeyFirst(obj: Object, fm: Formats)
    requires DecodeFields(UserFields, obj, true).Failure?
    ensures DecodeUser(obj, fm) == Failure(DecodeFields(UserFields, obj, true).error)
    ensures DecodeUser(obj, fm).error.kind == Missing
  {
  }

  /** Because of `populate_by_name=True`, a payload keyed by the Python
      field names parses to the same user as the camelCase one. */
  lemma UserParsesByFieldName(u: User, fm: Formats)
    requires ValidUser(u, fm)
    ensures DecodeUser(map["id" := Str(u.id), "email" := Str(u.email), "last_name" := Str(u.lastName),
                           "first_name" := Str(u.firstName), "middle_name" := Str(u.middleName)], fm)
            == Success(u)
  {
    var obj := map["id" := Str(u.id), "email" := Str(u.email), "last_name" := Str(u.lastName),
                   "first_name" := Str(u.firstName), "middle_name" := Str(u.middleName)];
    assert DecodeFields(UserFields, obj, true) == Success(UserValues(u)) by {
      var t := UserFields;
      var vals := UserValues(u);
      assert Lookup(obj, t[0], true) == Some(vals[0]) && Lookup(obj, t[1], true) == Some(vals[1]);
      assert Lookup(obj, t[2], true) == Some(vals[2]) && Lookup(obj, t[3], true) == Some(vals[3]);
      assert Lookup(obj, t[4], true) == Some(vals[4]);
      DecodeFieldsOf(t, obj, true, vals);
    }
    DecodeUserOf(obj, u, fm);
  }

  /** An object whose fields read, in table order, as the values of `u`
      parses to `u`. */
  lemma DecodeUserOf(obj: Object, u: User, fm: Formats)
    requires ValidUser(u, fm) && DecodeFields(UserFields, obj, true) == Success(UserValues(u))
    ensures DecodeUser(obj, fm) == Success(u)
  {
  }

  function CreateUserRequestValues(q: CreateUserRequest): seq<Value> {
    [Str(q.email), Str(q.password), Str(q.lastName), Str(q.firstName), Str(q.middleName)]
  }

  function EncodeCreateUserRequest(q: CreateUserRequest): (m: Object)
  {
    Encode(CreateUserRequestFields, CreateUserRequestValues(q))
  }

  /** A request parses exactly when all five fields are found and hold
      strings and the email passes the EmailStr validator; the fields are
      then the values found, the email in its normal form. */
  function DecodeCreateUserRequest(obj: Object, fm: Formats): (r: Result<CreateUserRequest, DecodeError>)
    ensures r.Success? <==>
              DecodeFields(CreateUserRequestFields, obj, true).Success? &&
              (var vals := DecodeFields(CreateUserRequestFields, obj, true).value;
               vals[0].Str? && fm.email(vals[0].s).Some? && vals[1].Str? && vals[2].Str? && vals[3].Str? && vals[4].Str?)
    ensures r.Success? ==>
              DecodeFields(CreateUserRequestFields, obj, true).Success? &&
              (var vals := DecodeFields(CreateUserRequestFields, obj, true).value;
               CreateUserRequestValues(r.value) == vals[0 := Normalised(vals[0], fm.email)])
  {
    var vals :- DecodeFields(CreateUserRequestFields, obj, true);
    var email :- AsFormatted(vals[0], fm.email, At(CreateUserRequestFields, 0));
    var password :- AsStr(vals[1], At(CreateUserRequestFields, 1));
    var lastName :- AsStr(vals[2], At(CreateUserRequestFields, 2));
    var firstName :- AsStr(vals[3], At(CreateUserRequestFields, 3));
    var middleName :- AsStr(vals[4], At(CreateUserRequestFields, 4));
    Success(CreateUserRequest(email, password, lastName, firstName, middleName))
  }

  lemma CreateUserRequestRoundTrip(q: CreateUserRequest, fm: Formats)
    requires Normal(fm.email, q.email)
    ensures DecodeCreateUserRequest(EncodeCreateUserRequest(q), fm) == Success(q)
  {
    DecodeEncodeFields(CreateUserRequestFields, CreateUserRequestValues(q), true);
  }

  function UpdateUserRequestValues(q: UpdateUserRequest): seq<Value> {
    [OptStr(q.email), OptStr(q.lastName), OptStr(q.firstName), OptStr(q.middleName)]
  }

  /** A None field is dumped as JSON null, not left out. */
  function EncodeUpdateUserRequest(q: UpdateUserRequest): (m: Object)
  {
    Encode(UpdateUserRequestFields, UpdateUserRequestValues(q))
  }

  /** Every key must be present (the fields have no default), but each may
      hold null. A request parses exactly when every field is null or a
      string, and a string email passes the EmailStr validator; the fields
      are then the values found, the email in its normal form. */
  function DecodeUpdateUserRequest(obj: Object, fm: Formats): (r: Result<UpdateUserRequest, DecodeError>)
    ensures r.Success? <==>
              DecodeFields(UpdateUserRequestFields, obj, true).Success? &&
              (var vals := DecodeFields(UpdateUserRequestFields, obj, true).value;
               (vals[0].Null? || (vals[0].Str? && fm.email(vals[0].s).Some?)) &&
               (vals[1].Null? || vals[1].Str?) && (vals[2].Null? || vals[2].Str?) && (vals[3].Null? || vals[3].Str?))
    ensures r.Success? ==>
              DecodeFields(UpdateUserRequestFields, obj, true).Success? &&
              (var vals := DecodeFields(UpdateUserRequestFields, obj, true).value;
               UpdateUserRequestValues(r.value) == vals[0 := Normalised(vals[0], fm.email)])
  {
    var vals :- DecodeFields(UpdateUserRequestFields, obj, true);
    var email :- AsOptFormatted(vals[0], fm.email, At(UpdateUserRequestFields, 0));
    var lastName :- AsOptStr(vals[1], At(UpdateUserRequestFields, 1));
    var firstName :- AsOptStr(vals[2], At(UpdateUserRequestFields, 2));
    var middleName :- AsOptStr(vals[3], At(UpdateUserRequestFields, 3));
    Success(UpdateUserRequest(email, lastName, firstName, middleName))
  }

  lemma UpdateUserRequestRoundTrip(q: UpdateUserRequest, fm: Formats)
    requires q.email.Some? ==> Normal(fm.email, q.email.value)
    ensures DecodeUpdateUserRequest(EncodeUpdateUserRequest(q), fm) == Success(q)
  {
    var vals := UpdateUserRequestValues(q);
    DecodeEncodeFields(UpdateUserRequestFields, vals, true);
    OptFormattedRoundTrip(q.email, fm.email, At(UpdateUserRequestFields, 0));
    OptStrRoundTrip(q.lastName, At(UpdateUserRequestFields, 1));
    OptStrRoundTrip(q.firstName, At(UpdateUserRequestFields, 2));
    OptStrRoundTrip(q.middleName, At(UpdateUserRequestFields, 3));
  }

  function EncodeUserResponse(r: UserResponse): (m: Object)
  {
    Encode(UserResponseFields, [Obj(EncodeUser(r.user))])
  }

  function DecodeUserResponse(obj: Object, fm: Formats): (r: Result<UserResponse, DecodeError>)
    ensures r.Success? <==> "user" in obj && obj["user"].Obj? && DecodeUser(obj["user"].fields, fm).Success?
    ensures r.Success? ==> "user" in obj && obj["user"].Obj? && DecodeUser(obj["user"].fields, fm) == Success(r.value.user)
  {
    var vals :- DecodeFields(UserResponseFields, obj, false);
    var inner :- AsObj(vals[0], At(UserResponseFields, 0));
    var user :- Within("user", DecodeUser(inner, fm));
    Success(UserResponse(user))
  }

  lemma UserResponseRoundTrip(r: UserResponse, fm: Formats)
    requires ValidUser(r.user, fm)
    ensures DecodeUserResponse(EncodeUserResponse(r), fm) == Success(r)
  {
    DecodeEncodeFields(UserResponseFields, [Obj(EncodeUser(r.user))], false);
    UserRoundTrip(r.user, fm);
  }

  lemma UserWireKeys(u: User)
    ensures EncodeUser(u).Keys == AliasKeys(UserFields) == {"id", "email", "lastName", "firstName", "middleName"}
  {
    AliasKeysListed(UserFields, ["id", "email", "lastName", "firstName", "middleName"]);
  }

  lemma CreateUserRequestWireKeys(q: CreateUserRequest)
    ensures EncodeCreateUserRequest(q).Keys == {"email", "password", "lastName", "firstName", "middleName"}
  {
    AliasKeysListed(CreateUserRequestFields, ["email", "password", "lastName", "firstName", "middleName"]);
  }

  lemma UpdateUserRequestWireKeys(q: UpdateUserRequest)
    ensures EncodeUpdateUserRequest(q).Keys == {"email", "lastName", "firstName", "middleName"}
  {
    AliasKeysListed(UpdateUserRequestFields, ["email", "lastName", "firstName", "middleName"]);
  }

  lemma UserResponseWireKeys(r: UserResponse)
    ensures EncodeUserResponse(r).Keys == {"user"}
  {
  }
}
