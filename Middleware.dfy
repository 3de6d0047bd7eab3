/** The request gate in front of every route: requests to a fixed set of public
    paths go straight to the handler; every other request opens a database
    session, must carry a valid access token, has its exceptions turned into
    JSON error responses, and closes the session on every way out. */
module Middleware {
  import opened Wrappers
  import Users
  import Database
  import Jwt

  /** The public paths, matched exactly. */
  const ExcludedPaths: set<string> :=
    {"/openapi.json", "/docs", "/user/login", "/user/create-account", "/user/refresh-token"}

  predicate IsExcludedPath(path: string) {
    path in ExcludedPaths
  }

  /** Matching is exact: a public path with a trailing slash is not public. */
  lemma TrailingSlashIsNotExcluded(path: string)
    requires IsExcludedPath(path)
    ensures !IsExcludedPath(path + "/")
  {
    var p := path + "/";
    assert p[|p| - 1] == '/';
    assert forall q :: q in ExcludedPaths ==> |q| > 0 && q[|q| - 1] != '/';
  }

  /** What the downstream handler does with the request. */
  datatype HandlerOutcome = Returned(status: int, body: string) | Raised(error: Error)

  /** What the gate hands back: the handler's own outcome, or a JSON response
      with a status code and a detail message. */
  datatype Response = Passed(outcome: HandlerOutcome) | JsonResponse(status: int, detail: string)

  /** The request as the handler sees it, after verification. */
  datatype RequestView = RequestView(path: string, token: Option<Jwt.TokenData>, user: Option<Users.User>)

  /** The two except clauses: an HTTPException keeps its status code and
      detail; any other exception is a 500 whose detail names it. */
  function ErrorResponse(e: Error): (r: Response)
    ensures r.JsonResponse?
    ensures e.Http? ==> r.status == e.status && r.detail == e.detail
    ensures e.Internal? ==> r.status == 500 && r.detail == "Error: " + e.message
  {
    match e
    case Http(status, detail) => JsonResponse(status, detail)
    case Internal(message) => JsonResponse(500, "Error: " + message)
  }

  /** A handler's outcome inside the gate: a response passes through and an
      exception is converted, so no exception ever leaves the gate. */
  function Relay(outcome: HandlerOutcome): (r: Response)
    ensures r.Passed? ==> r.outcome == outcome && outcome.Returned?
    ensures outcome.Returned? ==> r == Passed(outcome)
    ensures outcome.Raised? ==> r == ErrorResponse(outcome.error)
  {
    match outcome
    case Returned(_, _) => Passed(outcome)
    case Raised(e) => ErrorResponse(e)
  }

  class JwtMiddleware {
    /** The user table behind every session the gate opens. */
    const users: Users.UserTable
    const keys: Jwt.Keys

    constructor(users: Users.UserTable, keys: Jwt.Keys)
      ensures this.users == users && this.keys == keys
    {
      this.users := users;
      this.keys := keys;
    }

    /** Gate one request. `session` is the session the call opened (null when
        it opened none), returned so that its final state can be stated. */
    method Dispatch(request: Jwt.Request, callNext: RequestView -> HandlerOutcome, now: int)
      returns (response: Response, session: Database.DbSession?)
      modifies request
      ensures IsExcludedPath(request.path) ==>
        session == null &&
        request.token == old(request.token) && request.user == old(request.user) &&
        response == Passed(callNext(RequestView(request.path, request.token, request.user)))
      ensures !IsExcludedPath(request.path) ==>
        session != null && fresh(session) && session.users == users && !session.isOpen
      ensures !IsExcludedPath(request.path) ==> !(response.Passed? && response.outcome.Raised?)
      ensures !IsExcludedPath(request.path) ==>
        match Jwt.VerifyTokenOutcome(request.jwtCookie, keys, now)
        case Failure(e) =>
          response == ErrorResponse(e) &&
          request.token == old(request.token) && request.user == old(request.user)
        case Success(data) =>
          request.token == Some(data) &&
          request.user == Users.GetUserById(users.users, data.id.value) &&
          response == Relay(callNext(RequestView(request.path, request.token, request.user)))
    {
      if IsExcludedPath(request.path) {
        response := Passed(callNext(RequestView(request.path, request.token, request.user)));
        session := null;
        return;
      }
      var db := new Database.DbSession(users);
      var helper := new Jwt.JwtHelper(db, keys);
      var err := helper.VerifyToken(request, now);
      if err.Some? {
        response := ErrorResponse(err.value);
      } else {
        var outcome := callNext(RequestView(request.path, request.token, request.user));
        response := Relay(outcome);
      }
      db.Close();
      session := db;
    }
  }
}
