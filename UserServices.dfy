/** The account service: signup with field validation and uniqueness, login
    issuing a token pair, and refresh-token rotation. */
module UserServices {
  import opened Wrappers
  import opened Users
  import opened Jwt

  const AllFieldsRequired: string := "All fields are required. Please try again."
  const AlreadyRegistered: string := "Email and(or) username already registered."
  const UserNotFound: string := "User does not exist. Please try again."
  const WrongPassword: string := "The password you entered is incorrect. Please try again."
  const RefreshMissing: string := "Refresh token missing"
  const InvalidRefresh: string := "Invalid refresh token"

  /** Signup payloads need every field non-empty. */
  function ValidateUserCreateData(u: UserCreate): (r: Outcome<Error>)
    ensures r.Fail? <==> u.username == "" || u.email == "" || u.password == "" || u.name == ""
    ensures r.Fail? ==> r.error == Http(400, AllFieldsRequired)
  {
    if u.username == "" || u.email == "" || u.password == "" || u.name == "" then
      Fail(Http(400, AllFieldsRequired))
    else Pass
  }

  /** Login payloads need username, email and password non-empty. */
  function ValidateUserLoginData(u: UserLogin): (r: Outcome<Error>)
    ensures r.Fail? <==> u.username == "" || u.email == "" || u.password == ""
    ensures r.Fail? ==> r.error == Http(400, AllFieldsRequired)
  {
    if u.username == "" || u.email == "" || u.password == "" then Fail(Http(400, AllFieldsRequired))
    else Pass
  }

  /** The checks before a signup, in order: validation, then no stored user
      with the same email or the same username. */
  function SignupCheck(users: seq<User>, u: UserCreate): (r: Outcome<Error>)
    ensures ValidateUserCreateData(u).Fail? ==> r == ValidateUserCreateData(u)
    ensures ValidateUserCreateData(u).Pass? && r.Fail? ==> r.error == Http(400, AlreadyRegistered)
    ensures r.Pass? <==>
      u.username != "" && u.email != "" && u.password != "" && u.name != "" &&
      forall v :: v in users ==> v.email != u.email && v.username != u.username
  {
    match ValidateUserCreateData(u)
    case Fail(e) => Fail(e)
    case Pass =>
      if GetUserByData(users, u).Some? then Fail(Http(400, AlreadyRegistered)) else Pass
  }

  /** No two accounts share an email or a username. */
  predicate AccountsUnique(users: seq<User>) {
    forall i, j :: 0 <= i < j < |users| ==>
      users[i].email != users[j].email && users[i].username != users[j].username
  }

  /** A signup that passes its checks keeps emails and usernames unique. */
  lemma {:induction false} SignupPreservesAccountsUnique(users: seq<User>, u: UserCreate, created: User)
    requires AccountsUnique(users)
    requires SignupCheck(users, u).Pass?
    requires created.email == u.email && created.username == u.username
    ensures AccountsUnique(users + [created])
  {
    var all := users + [created];
    forall i, j | 0 <= i < j < |all|
      ensures all[i].email != all[j].email && all[i].username != all[j].username
    {
      assert all[i] == users[i];
      if j == |users| {
        assert users[i] in users;
      } else {
        assert all[j] == users[j];
      }
    }
  }

  /** What a successful login returns. */
  datatype LoginResult = LoginResult(accessToken: Token, refreshToken: Token, user: User)

  /** Log in: validate, look the user up by username AND email, check the
      password, then issue a 60-minute access token and a refresh token, both
      naming the user's id. */
  function LoginUser(users: seq<User>, login: UserLogin, keys: Keys, now: int): (r: Result<LoginResult, Error>)
    ensures ValidateUserLoginData(login).Fail? ==> r == Failure(Http(400, AllFieldsRequired))
    ensures ValidateUserLoginData(login).Pass? && GetUser(users, login).None? ==>
      r == Failure(Http(404, UserNotFound))
    ensures ValidateUserLoginData(login).Pass? && GetUser(users, login).Some? &&
            !CheckPassword(login.password, GetUser(users, login).value.password) ==>
      r == Failure(Http(404, WrongPassword))
    ensures ValidateUserLoginData(login).Pass? && GetUser(users, login).Some? &&
            CheckPassword(login.password, GetUser(users, login).value.password) ==>
      r.Success? && r.value.user == GetUser(users, login).value
    ensures r.Success? ==>
      r.value.user in users && r.value.user.username == login.username && r.value.user.email == login.email &&
      CheckPassword(login.password, r.value.user.password)
    ensures r.Success? ==>
      r.value.accessToken == Signed(keys.secret, Claims(Some(r.value.user.id), "access", now + AccessTokenExpireMin * 60)) &&
      r.value.refreshToken == Signed(keys.refresh, Claims(Some(r.value.user.id), "refresh", now + RefreshSeconds))
  {
    if ValidateUserLoginData(login).Fail? then Failure(ValidateUserLoginData(login).error)
    else
      match GetUser(users, login)
      case None => Failure(Http(404, UserNotFound))
      case Some(current) =>
        if !CheckPassword(login.password, current.password) then Failure(Http(404, WrongPassword))
        else
          var expiresTime := AccessTokenExpireMin * 60;
          var access := CreateAccessToken(TokenPayload(Some(current.id)), Some(expiresTime), keys, now);
          var refresh := CreateRefreshToken(TokenPayload(Some(current.id)), keys, now);
          Success(LoginResult(access, refresh, current))
  }

  /** What a successful refresh returns. */
  datatype RefreshResult = RefreshResult(accessToken: Token, refreshToken: Token, userId: int)

  /** The empty string is falsy, like a missing cookie. */
  predicate IsMissing(cookie: Option<Token>) {
    cookie.None? || cookie.value == Malformed("")
  }

  /** Rotate a refresh token: a missing token and a payload without a truthy
      `user_id` are 401s; verification errors pass through; otherwise a new
      access/refresh pair is issued for the same user id. */
  function HandleRefreshToken(cookie: Option<Token>, keys: Keys, now: int): (r: Result<RefreshResult, Error>)
    ensures IsMissing(cookie) ==> r == Failure(Http(401, RefreshMissing))
    ensures !IsMissing(cookie) && VerifyRefreshToken(cookie.value, keys, now).Failure? ==>
      r == Failure(VerifyRefreshToken(cookie.value, keys, now).error)
    ensures r.Success? <==>
      cookie.Some? && cookie.value.Signed? && cookie.value.key == keys.refresh &&
      cookie.value.claims.exp > now && cookie.value.claims.tokenType == "refresh" &&
      cookie.value.claims.userId.Some? && cookie.value.claims.userId.value != 0
    ensures r.Success? ==>
      Some(r.value.userId) == cookie.value.claims.userId &&
      r.value.accessToken == Signed(keys.secret, Claims(Some(r.value.userId), "access", now + AccessTokenExpireMin * 60)) &&
      r.value.refreshToken == Signed(keys.refresh, Claims(Some(r.value.userId), "refresh", now + RefreshSeconds))
    ensures (cookie.Some? && cookie.value.Signed? && cookie.value.key == keys.refresh &&
             cookie.value.claims.exp > now && cookie.value.claims.tokenType == "refresh" &&
             (cookie.value.claims.userId.None? || cookie.value.claims.userId.value == 0)) ==>
      r == Failure(Http(401, InvalidRefresh))
  {
    if IsMissing(cookie) then Failure(Http(401, RefreshMissing))
    else
      match VerifyRefreshToken(cookie.value, keys, now)
      case Failure(e) => Failure(e)
      case Success(payload) =>
        if payload.userId.None? || payload.userId.value == 0 then Failure(Http(401, InvalidRefresh))
        else
          var userId := payload.userId.value;
          var expiresTime := AccessTokenExpireMin * 60;
          var access := CreateAccessToken(TokenPayload(Some(userId)), Some(expiresTime), keys, now);
          var refresh := CreateRefreshToken(TokenPayload(Some(userId)), keys, now);
          Success(RefreshResult(access, refresh, userId))
  }

  /** A login's tokens work: within the hour its access token verifies as the
      user, and within the week its refresh token rotates to a pair for the
      same user. */
  lemma {:induction false} LoginTokensAreUsable(
    users: seq<User>, nextId: int, login: UserLogin, keys: Keys, issued: int, now: int)
    requires UserIdsValid(users, nextId)
    requires LoginUser(users, login, keys, issued).Success?
    requires issued <= now
    ensures var res := LoginUser(users, login, keys, issued).value;
      (now < issued + AccessTokenExpireMin * 60 ==>
        VerifyTokenOutcome(Some(res.accessToken), keys, now) ==
          Success(TokenData(res.accessToken, "access", Some(res.user.id)))) &&
      (now < issued + RefreshSeconds ==>
        HandleRefreshToken(Some(res.refreshToken), keys, now).Success? &&
        HandleRefreshToken(Some(res.refreshToken), keys, now).value.userId == res.user.id)
  {
    var res := LoginUser(users, login, keys, issued).value;
    var i :| 0 <= i < |users| && users[i] == res.user;
    assert res.user.id >= 1;
  }

  /** Refresh rotation: the new access token verifies as the same user within
      the hour, and the new refresh token can be rotated again within the week. */
  lemma RefreshRotation(cookie: Option<Token>, keys: Keys, issued: int, now: int)
    requires HandleRefreshToken(cookie, keys, issued).Success?
    requires issued <= now
    ensures var res := HandleRefreshToken(cookie, keys, issued).value;
      (now < issued + AccessTokenExpireMin * 60 ==>
        VerifyTokenOutcome(Some(res.accessToken), keys, now) ==
          Success(TokenData(res.accessToken, "access", Some(res.userId)))) &&
      (now < issued + RefreshSeconds ==>
        HandleRefreshToken(Some(res.refreshToken), keys, now).Success? &&
        HandleRefreshToken(Some(res.refreshToken), keys, now).value.userId == res.userId)
  {
  }

  /** The account service over the user table. */
  class UserServices {
    const dao: UserTable

    ghost predicate Valid()
      reads this, dao
    {
      dao.Valid() && AccountsUnique(dao.users)
    }

    constructor(dao: UserTable)
      requires dao.Valid() && AccountsUnique(dao.users)
      ensures Valid() && this.dao == dao
    {
      this.dao := dao;
    }

    /** Sign up: validate, reject a taken email or username, then insert. */
    method AddUser(u: UserCreate, salt: int) returns (r: Result<User, Error>)
      requires Valid()
      modifies dao
      ensures Valid()
      ensures SignupCheck(old(dao.users), u).Fail? ==>
        r == Failure(SignupCheck(old(dao.users), u).error) &&
        dao.users == old(dao.users) && dao.nextId == old(dao.nextId)
      ensures SignupCheck(old(dao.users), u).Pass? ==>
        r.Success? && dao.users == old(dao.users) + [r.value] && r.value.id == old(dao.nextId) &&
        r.value.name == u.name && r.value.username == u.username && r.value.email == u.email &&
        r.value.password == SetPassword(u.password, salt)
    {
      var v := ValidateUserCreateData(u);
      if v.Fail? {
        return Failure(v.error);
      }
      if GetUserByData(dao.users, u).Some? {
        return Failure(Http(400, AlreadyRegistered));
      }
      var created := dao.CreateUser(u, salt);
      SignupPreservesAccountsUnique(old(dao.users), u, created);
      r := Success(created);
    }
  }
}
