/** The check of tools/assertions/authentication.py. */
module AuthenticationAssertions {
  import opened Wire
  import opened Checks
  import opened AuthenticationSchema

  /** assert_login_response: the token type is exactly "bearer", then both
      tokens are non-empty. */
  function AssertLoginResponse(r: LoginResponse): (c: Check)
    ensures c.Pass? <==> r.token.tokenType == "bearer" && r.token.accessToken != "" && r.token.refreshToken != ""
    ensures r.token.tokenType != "bearer" ==>
              c == Fail(ValueMismatch("token_type", Str("bearer"), Str(r.token.tokenType)))
  {
    Then(AssertEqual(Str(r.token.tokenType), Str("bearer"), "token_type"),
         Then(AssertIsTrue(r.token.accessToken, "access_token"),
              AssertIsTrue(r.token.refreshToken, "refresh_token")))
  }

  /** The token type is compared case-sensitively. */
  lemma CapitalisedBearerFails(access: string, refresh: string)
    ensures AssertLoginResponse(LoginResponse(Token("Bearer", access, refresh))).Fail?
  {
    assert "Bearer"[0] != "bearer"[0];
  }

  /** Nothing relates the two tokens: the same non-empty string for both
      passes. */
  lemma SameTokensPass(t: string)
    requires t != ""
    ensures AssertLoginResponse(LoginResponse(Token("bearer", t, t))) == Pass
  {
  }

  /** An empty access token is reported before the refresh token is looked
      at. */
  lemma EmptyAccessTokenReportedFirst(refresh: string)
    ensures AssertLoginResponse(LoginResponse(Token("bearer", "", refresh))) == Fail(NotTruthy("access_token"))
  {
  }
}
