/** Session tokens: the payload the backend signs, what `jwt.decode` makes of a presented
    token, and the `get_current_user` dependency that every protected route runs first. */
module Sessions {
  import opened Wrappers
  import opened Config

  /** The payload of a session token: the registered claims `sub` and `exp` of RFC 7519
      (sections 4.1.2 and 4.1.4), `exp` in whole seconds since the epoch. */
  datatype Claims = Claims(sub: Option<string>, exp: Option<int>)

  /** `jwt.encode(payload, SECRET_KEY, algorithm="HS256")`: HMAC with SHA-256 as in section 3.2
      of RFC 7518. The encoding is uninterpreted; only the payload it is applied to matters. */
  type Encoder = Claims -> string

  /** The payload issued to `sub` when the clock reads `now` (that is, `int(time.time())`): it
      names `sub` and counts as expired exactly from `now + ACCESS_TOKEN_EXPIRE_SECONDS` on. */
  function IssueClaims(sub: string, now: int, cfg: Settings): (c: Claims)
    ensures c.sub == Some(sub)
    ensures forall t :: Expired(c, t) <==> now + cfg.accessTokenExpireSeconds <= t
  {
    Claims(Some(sub), Some(now + cfg.accessTokenExpireSeconds))
  }

  /** A bearer token as `jwt.decode` sees it: `authentic` says whether it is a well-formed JWS
      naming HS256 whose signature verifies under SECRET_KEY; `claims` is the payload it carries. */
  datatype PresentedToken = PresentedToken(authentic: bool, claims: Claims)

  /** The payload's expiry has passed: section 4.1.4 of RFC 7519 requires the current time to be
      before `exp`. A payload without `exp` never expires (PyJWT requires no claim by default). */
  predicate Expired(c: Claims, now: int)
    ensures c.exp.None? ==> !Expired(c, now)
    ensures c.exp.Some? ==> (Expired(c, now) <==> now >= c.exp.value)
  {
    c.exp.Some? && c.exp.value <= now
  }

  /** What `jwt.decode` under SECRET_KEY sees in a token's text. */
  type Decoder = string -> PresentedToken

  /** PyJWT's round trip, taken as an assumption about the library rather than proved: the text
      `encode` produces for a payload decodes as authentic with that very payload. */
  ghost predicate DecodesEncoded(present: Decoder, encode: Encoder) {
    forall c :: present(encode(c)) == PresentedToken(true, c)
  }

  /** The three ways `jwt.decode` ends: the payload, `ExpiredSignatureError`, or another `PyJWTError`. */
  datatype DecodeOutcome = Decoded(claims: Claims) | ExpiredSignature | DecodeError

  /** `jwt.decode(token, SECRET_KEY, algorithms=["HS256"])` at clock reading `now`:
      the signature is checked before the claims. */
  function Decode(t: PresentedToken, now: int): (d: DecodeOutcome)
    ensures d.Decoded? <==> t.authentic && !Expired(t.claims, now)
    ensures d.Decoded? ==> d.claims == t.claims
    ensures d.ExpiredSignature? <==> t.authentic && Expired(t.claims, now)
  {
    if !t.authentic then DecodeError
    else if Expired(t.claims, now) then ExpiredSignature
    else Decoded(t.claims)
  }

  /** `get_current_user`: the payload of an authentic, unexpired token that names a subject;
      every other token is refused with 401 and one of three details. */
  function GetCurrentUser(t: PresentedToken, now: int): (r: Result<Claims>)
    ensures r.Ok? <==> t.authentic && !Expired(t.claims, now) && t.claims.sub.Some?
    ensures r.Ok? ==> r.value == t.claims
    ensures r.Err? ==> r.error.status == Unauthorized
    ensures !t.authentic ==> r == Err(HttpError(Unauthorized, "Token decode error"))
    ensures t.authentic && Expired(t.claims, now) ==> r == Err(HttpError(Unauthorized, "Token expired"))
    ensures t.authentic && !Expired(t.claims, now) && t.claims.sub.None? ==>
              r == Err(HttpError(Unauthorized, "Invalid token payload"))
  {
    match Decode(t, now)
    case DecodeError => Err(HttpError(Unauthorized, "Token decode error"))
    case ExpiredSignature => Err(HttpError(Unauthorized, "Token expired"))
    case Decoded(payload) =>
      if payload.sub.None? then Err(HttpError(Unauthorized, "Invalid token payload"))
      else Ok(payload)
  }

  /** A token the backend issued at `issuedAt` is accepted, with its subject, exactly until
      `issuedAt + ACCESS_TOKEN_EXPIRE_SECONDS`, and refused as expired from then on. */
  lemma IssuedTokenLifetime(sub: string, issuedAt: int, cfg: Settings, now: int)
    ensures var r := GetCurrentUser(PresentedToken(true, IssueClaims(sub, issuedAt, cfg)), now);
            if now < issuedAt + cfg.accessTokenExpireSeconds
            then r.Ok? && r.value.sub == Some(sub)
            else r == Err(HttpError(Unauthorized, "Token expired"))
  {
  }
}
