/** The OAuth 2.0 authorization-code callback (sections 4.1.3 and 4.1.4 of RFC 6749): exchange
    the code for an access token, fetch the profile with it, provision the user, hand the browser
    a session token. */
module OAuth {
  import opened Wrappers
  import opened Config
  import opened Sessions
  import opened Users

  /** The form POSTed to the provider's token endpoint. */
  datatype TokenRequest = TokenRequest(grantType: string, code: string, clientId: string,
                                       clientSecret: string, redirectUri: string)

  /** The token endpoint's answer: its status and the `access_token` member of its JSON body. */
  datatype TokenResponse = TokenResponse(status: int, accessToken: Option<string>)

  /** The profile endpoint's answer: its status and the `username` and `email` members of its body. */
  datatype ProfileResponse = ProfileResponse(status: int, username: Option<string>, email: Option<string>)

  /** The provider, as the two answers it gives: to a token request, and to a profile request
      carrying `Authorization: Bearer <access token>`. */
  type TokenEndpoint = TokenRequest -> TokenResponse
  type ProfileEndpoint = string -> ProfileResponse

  /** The identity the provider vouched for. */
  datatype Profile = Profile(username: string, email: string)

  /** The access token request of section 4.1.3 of RFC 6749, with the client credentials in the body. */
  function TokenRequestFor(code: string, cfg: Settings): (q: TokenRequest)
    ensures q.grantType == "authorization_code" && q.code == code
    ensures q.redirectUri == cfg.redirectUri && q.clientId == cfg.clientId
    ensures q.clientSecret == cfg.clientSecret
  {
    TokenRequest("authorization_code", code, cfg.clientId, cfg.clientSecret, cfg.redirectUri)
  }

  /** The exchange part of `oauth_callback`: each failure ends the flow with its own status, in
      this order; the profile is asked for with exactly the access token the token endpoint gave. */
  function Exchange(code: string, cfg: Settings, tokenEndpoint: TokenEndpoint,
                    profileEndpoint: ProfileEndpoint): (r: Result<Profile>)
    ensures var tr := tokenEndpoint(TokenRequestFor(code, cfg));
            tr.status != 200 ==> r == Err(HttpError(tr.status, "Token exchange failed"))
    ensures var tr := tokenEndpoint(TokenRequestFor(code, cfg));
            tr.status == 200 && !Truthy(tr.accessToken) ==>
              r == Err(HttpError(BadRequest, "No access token received from OAuth provider"))
    ensures var tr := tokenEndpoint(TokenRequestFor(code, cfg));
            tr.status == 200 && Truthy(tr.accessToken) && profileEndpoint(tr.accessToken.value).status != 200 ==>
              r == Err(HttpError(BadRequest, "Failed to fetch user information"))
    ensures var tr := tokenEndpoint(TokenRequestFor(code, cfg));
            tr.status == 200 && Truthy(tr.accessToken) ==>
              var pr := profileEndpoint(tr.accessToken.value);
              pr.status == 200 && !(Truthy(pr.username) && Truthy(pr.email)) ==>
                r == Err(HttpError(BadRequest, "Incomplete user information"))
    ensures r.Ok? <==>
              var tr := tokenEndpoint(TokenRequestFor(code, cfg));
              tr.status == 200 && Truthy(tr.accessToken) &&
              var pr := profileEndpoint(tr.accessToken.value);
              pr.status == 200 && Truthy(pr.username) && Truthy(pr.email)
    ensures r.Ok? ==>
              var pr := profileEndpoint(tokenEndpoint(TokenRequestFor(code, cfg)).accessToken.value);
              r.value == Profile(pr.username.value, pr.email.value)
    ensures r.Ok? ==> r.value.username != "" && r.value.email != ""
  {
    var tokenResp := tokenEndpoint(TokenRequestFor(code, cfg));
    if tokenResp.status != 200 then
      Err(HttpError(tokenResp.status, "Token exchange failed"))
    else if !Truthy(tokenResp.accessToken) then
      Err(HttpError(BadRequest, "No access token received from OAuth provider"))
    else
      var profileResp := profileEndpoint(tokenResp.accessToken.value);
      if profileResp.status != 200 then
        Err(HttpError(BadRequest, "Failed to fetch user information"))
      else if !Truthy(profileResp.username) || !Truthy(profileResp.email) then
        Err(HttpError(BadRequest, "Incomplete user information"))
      else
        Ok(Profile(profileResp.username.value, profileResp.email.value))
  }

  /** The frontend address the callback redirects to, up to and including `?token=`. */
  function RedirectPrefix(cfg: Settings): string {
    cfg.frontendUrl + cfg.frontendRedirectPath + "?token="
  }

  /** Where the browser is sent with its new session token: the frontend's redirect path with the
      token, unencoded, as the rest of the address, so the frontend reads back exactly that token. */
  function FrontendRedirect(cfg: Settings, token: string): (url: string)
    ensures |url| == |RedirectPrefix(cfg)| + |token|
    ensures url[..|RedirectPrefix(cfg)|] == RedirectPrefix(cfg)
    ensures url[|RedirectPrefix(cfg)|..] == token
  {
    RedirectPrefix(cfg) + token
  }

  /** `oauth_callback`: on any exchange failure the table is untouched and the error is returned;
      otherwise the user is saved as a non-local account with the hash of the empty password and
      the browser is redirected with a token whose subject is the provider's username. */
  method Callback(table: UserTable, code: string, cfg: Settings, tokenEndpoint: TokenEndpoint,
                  profileEndpoint: ProfileEndpoint, now: int, encode: Encoder, hash: string -> string)
    returns (r: Result<string>)
    requires table.Valid()
    modifies table
    ensures table.Valid()
    ensures var x := Exchange(code, cfg, tokenEndpoint, profileEndpoint);
            if x.Err? then r == Err(x.error) && table.rows == old(table.rows)
            else
              && table.rows == Saved(old(table.rows), x.value.username, hash(""), x.value.email, false)
              && r == Ok(FrontendRedirect(cfg, encode(IssueClaims(x.value.username, now, cfg))))
  {
    var exchanged := Exchange(code, cfg, tokenEndpoint, profileEndpoint);
    if exchanged.Err? {
      return Err(exchanged.error);
    }
    var profile := exchanged.value;
    table.SaveUser(profile.username, "", profile.email, false, hash);
    var payload := IssueClaims(profile.username, now, cfg);
    r := Ok(FrontendRedirect(cfg, encode(payload)));
  }

  /** A username whose row was first created by the OAuth callback can never log in with a
      password, whatever later saves happen and whatever password is offered. */
  lemma {:induction false} ProvisionedUserNeverLogsIn(rows: Table, p: Profile, hashed: string,
                                                      later: seq<SaveRequest>, password: string,
                                                      verify: (string, string) -> bool, now: int,
                                                      cfg: Settings, encode: Encoder)
    requires p.username !in rows
    ensures var after := SavedAll(Saved(rows, p.username, hashed, p.email, false), later);
            Login(after, p.username, password, verify, now, cfg, encode)
              == Err(HttpError(Unauthorized, "Local login not allowed"))
  {
    var provisioned := Saved(rows, p.username, hashed, p.email, false);
    LaterSavesKeepRow(provisioned, later, p.username);
  }

  /** The token carried by a successful callback's redirect is accepted by `get_current_user` with
      the provider's username as subject until the configured lifetime has elapsed, and refused as
      expired from then on; `present` is what `jwt.decode` sees in a token's text. */
  lemma RedirectTokenAccepted(cfg: Settings, username: string, issuedAt: int, now: int,
                              encode: Encoder, present: Decoder)
    requires DecodesEncoded(present, encode)
    ensures var url := FrontendRedirect(cfg, encode(IssueClaims(username, issuedAt, cfg)));
            var r := GetCurrentUser(present(url[|RedirectPrefix(cfg)|..]), now);
            if now < issuedAt + cfg.accessTokenExpireSeconds
            then r.Ok? && r.value.sub == Some(username)
            else r == Err(HttpError(Unauthorized, "Token expired"))
  {
    var c := IssueClaims(username, issuedAt, cfg);
    assert present(encode(c)) == PresentedToken(true, c);
    IssuedTokenLifetime(username, issuedAt, cfg, now);
  }

  /** With the default settings the browser lands on the frontend's login page with the token as
      the `token` query parameter. */
  lemma DefaultRedirect(clientId: string, clientSecret: string, secretKey: string, token: string)
    ensures FrontendRedirect(Defaults(clientId, clientSecret, secretKey), token)
         == "https://ta.userwei.com/login?token=" + token
  {
  }
}
