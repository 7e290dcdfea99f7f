/** The mock bearer-token check of src/middleware/auth.ts. Its effects (setting
    the user on the context, then calling the next handler once) are modelled as
    the outcome it returns. */
module Auth {
  import opened Values
  import opened Strings

  datatype User = User(id: int, username: string)

  datatype AuthOutcome =
    | Rejected(status: int, error: string)
    | Authenticated(user: User, token: string)  // the user is set and `next` runs once

  const BearerPrefix: string := "Bearer "

  const DemoUser: User := User(1, "demo_participant")

  /** `authMiddleware` on the value of the `Authorization` header (None when absent). */
  function AuthMiddleware(header: Option<string>): (r: AuthOutcome)
    ensures r.Rejected? ==> r.status == 401
    ensures r == Rejected(401, "Missing or invalid authorization token")
      <==> header.None? || !StartsWith(header.value, BearerPrefix)
    ensures r == Rejected(401, "Invalid authorization token") <==> header == Some(BearerPrefix)
    ensures r.Authenticated? <==> exists t :: t != "" && header == Some(BearerPrefix + t)
    ensures r.Authenticated? ==> r.user == DemoUser && header.value == BearerPrefix + r.token
  {
    if !Present(header) || !StartsWith(header.value, BearerPrefix) then
      Rejected(401, "Missing or invalid authorization token")
    else
      var token := header.value[7..];
      assert header.value == BearerPrefix + token;
      if token == "" then
        assert header.value == BearerPrefix;
        Rejected(401, "Invalid authorization token")
      else Authenticated(DemoUser, token)
  }

  /** Every header `"Bearer " + t` with a non-empty `t` is accepted with token `t`. */
  lemma BearerAccepted(t: string)
    requires t != ""
    ensures AuthMiddleware(Some(BearerPrefix + t)) == Authenticated(DemoUser, t)
  {
    assert (BearerPrefix + t)[..7] == BearerPrefix;
    assert (BearerPrefix + t)[7..] == t;
  }
}
