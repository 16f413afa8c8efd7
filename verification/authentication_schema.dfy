/** The authentication records of
    clients/authentication/authentication_schema.py. None of these models
    sets `populate_by_name`, so an incoming token is accepted only under its
    camelCase keys. */
module AuthenticationSchema {
  import opened Wrappers
  import opened Wire

  /** TokenSchema: three opaque strings issued by the server. */
  datatype Token = Token(tokenType: string, accessToken: string, refreshToken: string)

  /** LoginRequestSchema: only the credentials. */
  datatype LoginRequest = LoginRequest(email: string, password: string)

  /** LoginResponseSchema: one token under the key `token`. */
  datatype LoginResponse = LoginResponse(token: Token)

  /** RefreshRequestSchema: only the refresh token. */
  datatype RefreshRequest = RefreshRequest(refreshToken: string)

  const TokenFields: seq<Field> := [
    Field("token_type", "tokenType"), Field("access_token", "accessToken"), Field("refresh_token", "refreshToken")]

  const LoginRequestFields: seq<Field> := [Field("email", "email"), Field("password", "password")]

  const LoginResponseFields: seq<Field> := [Field("token", "token")]

  const RefreshRequestFields: seq<Field> := [Field("refresh_token", "refreshToken")]

  lemma AuthenticationTablesInjective()
    ensures DistinctAliases(TokenFields) && DistinctAliases(LoginRequestFields)
    ensures Unaliased(LoginRequestFields) && Unaliased(LoginResponseFields)
  {
  }

  function TokenValues(t: Token): seq<Value> {
    [Str(t.tokenType), Str(t.accessToken), Str(t.refreshToken)]
  }

  function EncodeToken(t: Token): (m: Object)
  {
    Encode(TokenFields, TokenValues(t))
  }

  function DecodeToken(obj: Object): (r: Result<Token, DecodeError>)
    ensures r.Success? <==> (forall i :: 0 <= i < 3 ==> TokenFields[i].alias in obj && obj[TokenFields[i].alias].Str?)
    ensures r.Success? ==> AliasKeys(TokenFields) <= obj.Keys && DecodeFields(TokenFields, obj, false).Success? &&
                           TokenValues(r.value) == DecodeFields(TokenFields, obj, false).value
  {
    var vals :- DecodeFields(TokenFields, obj, false);
    var tokenType :- AsStr(vals[0], At(TokenFields, 0));
    var accessToken :- AsStr(vals[1], At(TokenFields, 1));
    var refreshToken :- AsStr(vals[2], At(TokenFields, 2));
    Success(Token(tokenType, accessToken, refreshToken))
  }

  lemma TokenRoundTrip(t: Token)
    ensures DecodeToken(EncodeToken(t)) == Success(t)
  {
    DecodeEncodeFields(TokenFields, TokenValues(t), false);
  }

  /** A parsed token dumps back to exactly the payload's three keys
      (listed by TokenWireKeys). */
  lemma TokenReencode(obj: Object)
    requires DecodeToken(obj).Success?
    ensures EncodeToken(DecodeToken(obj).value) == Project(obj, AliasKeys(TokenFields))
  {
    AuthenticationTablesInjective();
    ReencodeFields(TokenFields, obj, false, TokenValues(DecodeToken(obj).value));
  }

  /** Without `populate_by_name`, a token keyed by the Python field names is
      refused: the first field is reported missing under its alias. */
  lemma TokenRejectsFieldNames(t: Token)
    ensures DecodeToken(map["token_type" := Str(t.tokenType), "access_token" := Str(t.accessToken),
                            "refresh_token" := Str(t.refreshToken)])
            == Failure(DecodeError(Missing, [Key("tokenType")]))
  {
  }

  function EncodeLoginRequest(q: LoginRequest): (m: Object)
  {
    Encode(LoginRequestFields, [Str(q.email), Str(q.password)])
  }

  function DecodeLoginRequest(obj: Object): (r: Result<LoginRequest, DecodeError>)
    ensures r.Success? <==> "email" in obj && obj["email"].Str? && "password" in obj && obj["password"].Str?
    ensures r.Success? ==> obj["email"] == Str(r.value.email) && obj["password"] == Str(r.value.password)
  {
    var vals :- DecodeFields(LoginRequestFields, obj, false);
    var email :- AsStr(vals[0], At(LoginRequestFields, 0));
    var password :- AsStr(vals[1], At(LoginRequestFields, 1));
    Success(LoginRequest(email, password))
  }

  lemma LoginRequestRoundTrip(q: LoginRequest)
    ensures DecodeLoginRequest(EncodeLoginRequest(q)) == Success(q)
  {
    DecodeEncodeFields(LoginRequestFields, [Str(q.email), Str(q.password)], false);
  }

  function EncodeLoginResponse(r: LoginResponse): (m: Object)
  {
    Encode(LoginResponseFields, [Obj(EncodeToken(r.token))])
  }

  function DecodeLoginResponse(obj: Object): (r: Result<LoginResponse, DecodeError>)
    ensures r.Success? <==> "token" in obj && obj["token"].Obj? && DecodeToken(obj["token"].fields).Success?
    ensures r.Success? ==> "token" in obj && obj["token"].Obj? && DecodeToken(obj["token"].fields) == Success(r.value.token)
  {
    var vals :- DecodeFields(LoginResponseFields, obj, false);
    var inner :- AsObj(vals[0], At(LoginResponseFields, 0));
    var token :- Within("token", DecodeToken(inner));
    Success(LoginResponse(token))
  }

  lemma LoginResponseRoundTrip(r: LoginResponse)
    ensures DecodeLoginResponse(EncodeLoginResponse(r)) == Success(r)
  {
    DecodeEncodeFields(LoginResponseFields, [Obj(EncodeToken(r.token))], false);
    TokenRoundTrip(r.token);
  }

  function EncodeRefreshRequest(q: RefreshRequest): (m: Object)
  {
    Encode(RefreshRequestFields, [Str(q.refreshToken)])
  }

  function DecodeRefreshRequest(obj: Object): (r: Result<RefreshRequest, DecodeError>)
    ensures r.Success? <==> "refreshToken" in obj && obj["refreshToken"].Str?
    ensures r.Success? ==> obj["refreshToken"] == Str(r.value.refreshToken)
  {
    var vals :- DecodeFields(RefreshRequestFields, obj, false);
    var refreshToken :- AsStr(vals[0], At(RefreshRequestFields, 0));
    Success(RefreshRequest(refreshToken))
  }

  lemma RefreshRequestRoundTrip(q: RefreshRequest)
    ensures DecodeRefreshRequest(EncodeRefreshRequest(q)) == Success(q)
  {
    DecodeEncodeFields(RefreshRequestFields, [Str(q.refreshToken)], false);
  }

  lemma TokenWireKeys(t: Token)
    ensures EncodeToken(t).Keys == AliasKeys(TokenFields) == {"tokenType", "accessToken", "refreshToken"}
  {
    AliasKeysListed(TokenFields, ["tokenType", "accessToken", "refreshToken"]);
  }

  lemma LoginRequestWireKeys(q: LoginRequest)
    ensures EncodeLoginRequest(q).Keys == {"email", "password"}
  {
  }

  lemma LoginResponseWireKeys(r: LoginResponse)
    ensures EncodeLoginResponse(r).Keys == {"token"}
  {
  }

  lemma RefreshRequestWireKeys(q: RefreshRequest)
    ensures EncodeRefreshRequest(q).Keys == {"refreshToken"}
  {
  }
}
