/** Access and refresh tokens: JSON Web Tokens (RFC 7519) signed with HMAC
    SHA-256 (section 3.2 of RFC 7518). The signature is abstract: a token the
    signer produced records the key it was signed with and its claims, and
    decoding with a key succeeds exactly when that is the key and the `exp`
    claim (section 4.1.4 of RFC 7519) lies after the current time. Times are
    integer seconds. */
module Jwt {
  import opened Wrappers
  import Users
  import Database

  /** Lifetime of the access token issued at login and refresh, in minutes. */
  const AccessTokenExpireMin: int := 60
  /** Lifetime of an access token issued without an explicit lifetime. */
  const DefaultAccessSeconds: int := 15 * 60
  /** Lifetime of a refresh token. */
  const RefreshSeconds: int := 7 * 24 * 60 * 60

  const CouldNotValidate: string := "Could not validate credentials."
  const InvalidTokenType: string := "Invalid token type"
  const RefreshTokenExpired: string := "Refresh token expired"

  datatype Claims = Claims(userId: Option<int>, tokenType: string, exp: int)

  /** A token string: one the signer produced, or any other text. */
  datatype Token = Signed(key: string, claims: Claims) | Malformed(text: string)

  /** The two process-wide signing keys. */
  datatype Keys = Keys(secret: string, refresh: string)

  /** The claims a caller asks to have encoded. */
  datatype TokenPayload = TokenPayload(userId: Option<int>)

  /** What the request state records about a verified access token. */
  datatype TokenData = TokenData(accessToken: Token, tokenType: string, id: Option<int>)

  /** Decoding failures; every one of them is an InvalidTokenError. */
  datatype DecodeError = DecodeFailed | InvalidSignature | ExpiredSignature

  predicate IsInvalidTokenError(e: DecodeError) {
    match e
    case DecodeFailed => true
    case InvalidSignature => true
    case ExpiredSignature => true
  }

  /** Decode and verify a token with a key: the signature first, then expiry. */
  function Decode(token: Token, key: string, now: int): (r: Result<Claims, DecodeError>)
    ensures r.Success? <==> token.Signed? && token.key == key && token.claims.exp > now
    ensures r.Success? ==> r.value == token.claims
    ensures token.Signed? && token.key == key && token.claims.exp <= now ==> r == Failure(ExpiredSignature)
  {
    match token
    case Malformed(_) => Failure(DecodeFailed)
    case Signed(k, claims) =>
      if k != key then Failure(InvalidSignature)
      else if claims.exp <= now then Failure(ExpiredSignature)
      else Success(claims)
  }

  /** An access token: the payload's claims plus `exp` and type "access",
      signed with the secret key. A missing or zero lifetime means 15 minutes. */
  function CreateAccessToken(data: TokenPayload, expiresDelta: Option<int>, keys: Keys, now: int): (t: Token)
    ensures t.Signed? && t.key == keys.secret
    ensures t.claims.userId == data.userId && t.claims.tokenType == "access"
    ensures expiresDelta.Some? && expiresDelta.value != 0 ==> t.claims.exp == now + expiresDelta.value
    ensures expiresDelta.None? || expiresDelta.value == 0 ==> t.claims.exp == now + DefaultAccessSeconds
  {
    var expire := if expiresDelta.Some? && expiresDelta.value != 0 then now + expiresDelta.value
                  else now + DefaultAccessSeconds;
    Signed(keys.secret, Claims(data.userId, "access", expire))
  }

  /** A refresh token: type "refresh", seven days, signed with the refresh key. */
  function CreateRefreshToken(data: TokenPayload, keys: Keys, now: int): (t: Token)
    ensures t.Signed? && t.key == keys.refresh
    ensures t.claims == Claims(data.userId, "refresh", now + RefreshSeconds)
  {
    Signed(keys.refresh, Claims(data.userId, "refresh", now + RefreshSeconds))
  }

  /** The except clauses of refresh verification, in order: the InvalidTokenError
      clause comes first, so an expired token gets the generic message; the
      second clause is reached only by an error outside the first's class. */
  function RefreshDecodeFailure(e: DecodeError): Error {
    if IsInvalidTokenError(e) then Http(401, CouldNotValidate)
    else Http(401, RefreshTokenExpired)
  }

  /** Verify a refresh token and return its claims. */
  function VerifyRefreshToken(token: Token, keys: Keys, now: int): (r: Result<Claims, Error>)
    ensures r.Success? <==>
      token.Signed? && token.key == keys.refresh && token.claims.exp > now && token.claims.tokenType == "refresh"
    ensures r.Success? ==> r.value == token.claims
    ensures (token.Signed? && token.key == keys.refresh && token.claims.exp > now &&
             token.claims.tokenType != "refresh") ==> r == Failure(Http(403, InvalidTokenType))
    ensures !(token.Signed? && token.key == keys.refresh && token.claims.exp > now) ==>
      r == Failure(Http(401, CouldNotValidate))
    ensures r != Failure(Http(401, RefreshTokenExpired))
  {
    match Decode(token, keys.refresh, now)
    case Failure(e) => Failure(RefreshDecodeFailure(e))
    case Success(payload) =>
      if payload.tokenType != "refresh" then Failure(Http(403, InvalidTokenType))
      else Success(payload)
  }

  /** The outcome of verifying the access-token cookie: what is recorded in the
      request state on success, and the HTTP error otherwise. A wrong token type
      is a 403 that the InvalidTokenError clause does not catch; every other
      failure is the generic 401. */
  function VerifyTokenOutcome(cookie: Option<Token>, keys: Keys, now: int): (r: Result<TokenData, Error>)
    ensures r.Success? <==>
      cookie.Some? && cookie.value.Signed? && cookie.value.key == keys.secret &&
      cookie.value.claims.exp > now && cookie.value.claims.tokenType == "access" &&
      cookie.value.claims.userId.Some?
    ensures r.Success? ==> r.value == TokenData(cookie.value, "access", cookie.value.claims.userId)
    ensures r == Failure(Http(403, InvalidTokenType)) <==>
      cookie.Some? && cookie.value.Signed? && cookie.value.key == keys.secret &&
      cookie.value.claims.exp > now && cookie.value.claims.tokenType != "access"
    ensures r.Failure? ==> r.error == Http(403, InvalidTokenType) || r.error == Http(401, CouldNotValidate)
  {
    if cookie.None? then Failure(Http(401, CouldNotValidate))
    else
      match Decode(cookie.value, keys.secret, now)
      case Failure(_) => Failure(Http(401, CouldNotValidate))
      case Success(payload) =>
        if payload.tokenType != "access" then Failure(Http(403, InvalidTokenType))
        else if payload.userId.None? then Failure(Http(401, CouldNotValidate))
        else Success(TokenData(cookie.value, payload.tokenType, payload.userId))
  }

  /** Round trip: an access token for user `u`, presented before it expires,
      verifies and records `u`. */
  lemma AccessTokenRoundTrip(u: int, expiresDelta: Option<int>, keys: Keys, issued: int, now: int)
    requires now < CreateAccessToken(TokenPayload(Some(u)), expiresDelta, keys, issued).claims.exp
    ensures var t := CreateAccessToken(TokenPayload(Some(u)), expiresDelta, keys, issued);
      VerifyTokenOutcome(Some(t), keys, now) == Success(TokenData(t, "access", Some(u)))
  {
  }

  /** A refresh token never passes access-token verification, even before it
      expires: with distinct keys its signature fails (401); with equal keys
      its type does (403). */
  lemma RefreshTokenNeverAuthenticates(data: TokenPayload, keys: Keys, issued: int, now: int)
    ensures var t := CreateRefreshToken(data, keys, issued);
      && VerifyTokenOutcome(Some(t), keys, now).Failure?
      && (keys.secret != keys.refresh ==> VerifyTokenOutcome(Some(t), keys, now) == Failure(Http(401, CouldNotValidate)))
      && (keys.secret == keys.refresh && now < issued + RefreshSeconds ==>
            VerifyTokenOutcome(Some(t), keys, now) == Failure(Http(403, InvalidTokenType)))
  {
  }

  /** An access token never passes refresh verification. */
  lemma AccessTokenNeverRefreshes(data: TokenPayload, expiresDelta: Option<int>, keys: Keys, issued: int, now: int)
    ensures VerifyRefreshToken(CreateAccessToken(data, expiresDelta, keys, issued), keys, now).Failure?
  {
  }

  /** The state of one incoming request. */
  class Request {
    const path: string
    /** The `jwt_token` cookie, when present. */
    const jwtCookie: Option<Token>
    var token: Option<TokenData>
    var user: Option<Users.User>

    constructor(path: string, jwtCookie: Option<Token>)
      ensures this.path == path && this.jwtCookie == jwtCookie
      ensures token.None? && user.None?
    {
      this.path := path;
      this.jwtCookie := jwtCookie;
      token := None;
      user := None;
    }
  }

  /** Token verification bound to a database session. */
  class JwtHelper {
    const db: Database.DbSession
    const keys: Keys

    constructor(db: Database.DbSession, keys: Keys)
      ensures this.db == db && this.keys == keys
    {
      this.db := db;
      this.keys := keys;
    }

    /** Verify the request's access-token cookie; on success record the token
        data and the user it names in the request state, otherwise leave the
        state alone and report the error. */
    method VerifyToken(request: Request, now: int) returns (err: Option<Error>)
      modifies request
      ensures match VerifyTokenOutcome(request.jwtCookie, keys, now)
        case Failure(e) =>
          err == Some(e) && request.token == old(request.token) && request.user == old(request.user)
        case Success(data) =>
          err.None? && request.token == Some(data) &&
          request.user == Users.GetUserById(db.users.users, data.id.value)
    {
      var cookie := request.jwtCookie;
      if cookie.None? {
        return Some(Http(401, CouldNotValidate));
      }
      var decoded := Decode(cookie.value, keys.secret, now);
      if decoded.Failure? {
        return Some(Http(401, CouldNotValidate));
      }
      var payload := decoded.value;
      if payload.tokenType != "access" {
        return Some(Http(403, InvalidTokenType));
      }
      var userId := payload.userId;
      if userId.None? {
        return Some(Http(401, CouldNotValidate));
      }
      request.token := Some(TokenData(cookie.value, payload.tokenType, userId));
      request.user := Users.GetUserById(db.users.users, userId.value);
      err := None;
    }
  }
}
