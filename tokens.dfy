/** Access tokens: `create_access_token` and the claims check of
    `get_current_user`. Signing and decoding belong to the JWT library; a token
    is seen here as the claims it carries plus whether its signature checks out
    under the server's secret. Time is a whole number of seconds. */
module Tokens {
  import opened Results
  import Credentials

  /** Lifetime used when the caller gives no delta: 15 minutes. */
  const DEFAULT_EXPIRY_SECONDS: int := 15 * 60

  /** The payload of a token: the subject (`sub`, possibly absent) and `exp`. */
  datatype Claims = Claims(sub: Option<string>, exp: int)

  /** A presented token as the JWT library sees it. */
  datatype Token = Token(claims: Claims, signatureValid: bool)

  /** `expire = now + (expires_delta or 15 minutes)`. A zero delta is falsy in
      Python, so it too falls back to the default. */
  function ExpiryFor(now: int, delta: Option<int>): (exp: int)
    ensures delta.None? ==> exp == now + DEFAULT_EXPIRY_SECONDS
    ensures delta.Some? && delta.value != 0 ==> exp == now + delta.value
    ensures delta == Some(0) ==> exp == now + DEFAULT_EXPIRY_SECONDS
  {
    match delta
    case Some(d) => if d != 0 then now + d else now + DEFAULT_EXPIRY_SECONDS
    case None => now + DEFAULT_EXPIRY_SECONDS
  }

  /** `create_access_token({"sub": subject}, delta)`, signed with the server key. */
  function CreateAccessToken(subject: string, now: int, delta: Option<int>): (t: Token)
    ensures t.signatureValid
    ensures t.claims.sub == Some(subject)
    ensures t.claims.exp == ExpiryFor(now, delta)
  {
    Token(Claims(Some(subject), ExpiryFor(now, delta)), true)
  }

  /** `jwt.decode`: the claims of a token whose signature checks out and whose
      expiry has not passed (the library refuses only when `exp < now`). */
  function Decode(t: Token, now: int): (r: Option<Claims>)
    ensures r.Some? <==> t.signatureValid && now <= t.claims.exp
    ensures r.Some? ==> r.value == t.claims
  {
    if !t.signatureValid then None
    else if t.claims.exp < now then None
    else Some(t.claims)
  }

  /** `get_current_user`: the registered user a bearer token speaks for. A
      missing token, an undecodable or expired one, a missing `sub` and an
      unknown subject all end in the one `Unauthorized` outcome. */
  function CurrentUser(users: Credentials.Users, bearer: Option<Token>, now: int): (r: Result<Credentials.UserRecord>)
    ensures r.Err? ==> r.error == Unauthorized
    ensures r.Ok? <==> bearer.Some? && Decode(bearer.value, now).Some?
                       && bearer.value.claims.sub.Some? && bearer.value.claims.sub.value in users
    ensures r.Ok? ==> r.value == users[bearer.value.claims.sub.value]
  {
    if bearer.None? then Err(Unauthorized)
    else
      match Decode(bearer.value, now)
      case None => Err(Unauthorized)
      case Some(payload) =>
        match payload.sub
        case None => Err(Unauthorized)
        case Some(username) =>
          match Credentials.GetUser(users, username)
          case None => Err(Unauthorized)
          case Some(user) => Ok(user)
  }

  /** A token issued for a registered user admits that user exactly up to and
      including its expiry second, and no later. */
  lemma IssuedTokenLifetime(users: Credentials.Users, subject: string, issuedAt: int, delta: Option<int>, now: int)
    requires subject in users
    ensures CurrentUser(users, Some(CreateAccessToken(subject, issuedAt, delta)), now).Ok?
            <==> now <= ExpiryFor(issuedAt, delta)
    ensures now <= ExpiryFor(issuedAt, delta) ==>
            CurrentUser(users, Some(CreateAccessToken(subject, issuedAt, delta)), now) == Ok(users[subject])
  {
  }

  /** A token whose signature does not check out is refused whatever it claims. */
  lemma ForgedTokenRejected(users: Credentials.Users, claims: Claims, now: int)
    ensures CurrentUser(users, Some(Token(claims, false)), now) == Err(Unauthorized)
  {
  }
}
