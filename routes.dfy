/** backend/routes/routes.go: the route table, the middleware each route
    sits behind, and the order gin runs them in (the CORS middleware on
    every request, then route lookup, then the `/api` group's
    authentication, then a route's role check, then the handler). A request
    path is given as its segments: `/api/projects/7` is
    `["api", "projects", "7"]` and `/` is `[]`. */
module Routes {
  import opened Wrappers
  import opened Models
  import opened Http
  import opened Auth

  datatype Method = GET | POST | PUT | DELETE | OPTIONS | OtherMethod

  /** The handlers a request can reach; `id` is the text of the `:id` path
      parameter, passed on unconverted. */
  datatype Endpoint =
    | Welcome | Register | Login
    | DebugUsers | ResetPassword | CreateTestUser
    | Profile | ListUsers | UpdateUserRole(id: string)
    | ListProjects | GetProject(id: string) | CreateProject | UpdateProject(id: string) | DeleteProject(id: string)
    | ListDefectComments(id: string) | ListDefects | GetDefect(id: string) | CreateDefect
    | UpdateDefect(id: string) | DeleteDefect(id: string)
    | CreateComment | DeleteComment(id: string)

  /** The route table. Within `/api/defects` the static segment `comments`
      is tried before the `:id` parameter, so `DELETE
      /api/defects/comments/5` deletes a comment while `DELETE
      /api/defects/comments` falls back to deleting the defect whose id
      text is `comments`. */
  function Resolve(m: Method, path: seq<string>): Option<Endpoint>
  {
    if path == [] then (if m == GET then Some(Welcome) else None)
    else if path[0] == "auth" then
      if |path| == 2 && m == POST && path[1] == "register" then Some(Register)
      else if |path| == 2 && m == POST && path[1] == "login" then Some(Login)
      else None
    else if path[0] == "debug" then
      if |path| == 2 && m == GET && path[1] == "users" then Some(DebugUsers)
      else if |path| == 2 && m == POST && path[1] == "reset-password" then Some(ResetPassword)
      else if |path| == 2 && m == POST && path[1] == "create-test-user" then Some(CreateTestUser)
      else None
    else if path[0] == "api" then ResolveApi(m, path[1..])
    else None
  }

  function ResolveApi(m: Method, p: seq<string>): Option<Endpoint>
  {
    if p == [] then None
    else if p[0] == "profile" then (if |p| == 1 && m == GET then Some(Profile) else None)
    else if p[0] == "users" then
      if |p| == 1 && m == GET then Some(ListUsers)
      else if |p| == 3 && m == PUT && p[1] != "" && p[2] == "role" then Some(UpdateUserRole(p[1]))
      else None
    else if p[0] == "projects" then
      if |p| == 1 then
        (if m == GET then Some(ListProjects) else if m == POST then Some(CreateProject) else None)
      else if |p| == 2 && p[1] != "" then
        (if m == GET then Some(GetProject(p[1]))
         else if m == PUT then Some(UpdateProject(p[1]))
         else if m == DELETE then Some(DeleteProject(p[1]))
         else None)
      else None
    else if p[0] == "defects" then ResolveDefects(m, p[1..])
    else None
  }

  function ResolveDefects(m: Method, q: seq<string>): Option<Endpoint>
  {
    if q == [] then
      (if m == GET then Some(ListDefects) else if m == POST then Some(CreateDefect) else None)
    else if |q| == 1 && q[0] != "" then
      if m == POST then (if q[0] == "comments" then Some(CreateComment) else None)
      else if m == GET then Some(GetDefect(q[0]))
      else if m == PUT then Some(UpdateDefect(q[0]))
      else if m == DELETE then Some(DeleteDefect(q[0]))
      else None
    else if |q| == 2 && q[0] != "" && q[1] != "" then
      if m == GET && q[1] == "comments" then Some(ListDefectComments(q[0]))
      else if m == DELETE && q[0] == "comments" then Some(DeleteComment(q[1]))
      else None
    else None
  }

  /** What stands in front of a handler: nothing, a valid token, or a valid
      token whose role is one of `roles`. */
  datatype Gate = Public | SignedIn | RoleIn(roles: seq<Role>)

  function GateOf(e: Endpoint): Gate
  {
    match e
    case Welcome => Public
    case Register => Public
    case Login => Public
    case DebugUsers => Public
    case ResetPassword => Public
    case CreateTestUser => Public
    case ListUsers => RoleIn([Manager])
    case UpdateUserRole(_) => RoleIn([Manager])
    case CreateProject => RoleIn([Manager])
    case UpdateProject(_) => RoleIn([Manager])
    case DeleteProject(_) => RoleIn([Manager])
    case DeleteDefect(_) => RoleIn([Manager, Engineer])
    case _ => SignedIn
  }

  /** A request either is answered by the middleware chain with a status,
      or reaches a handler with the context values the chain set. */
  datatype Outcome = Answered(status: Status) | Handled(endpoint: Endpoint, values: ContextValues)

  /** The whole middleware chain as one decision. */
  function Admit(m: Method, path: seq<string>, header: string, validate: string -> Option<Claims>): Outcome
  {
    if m == OPTIONS then Answered(NoContent)
    else
      match Resolve(m, path)
      case None => Answered(NotFound)
      case Some(e) =>
        match GateOf(e)
        case Public => Handled(e, NoValues)
        case SignedIn =>
          (match Authenticate(header, validate)
           case Rejected => Answered(Unauthorized)
           case Admitted(c) => Handled(e, ValuesOf(c)))
        case RoleIn(roles) =>
          match Authenticate(header, validate)
          case Rejected => Answered(Unauthorized)
          case Admitted(c) =>
            match RoleGate(Some(c.role), roles)
            case Some(s) => Answered(s)
            case None => Handled(e, ValuesOf(c))
  }

  /** gin's request handling, step by step on a fresh context: the CORS
      middleware, the route lookup, then the middlewares of the matched
      route; it returns the handler that runs, if any. */
  method Serve(ctx: Context, m: Method, path: seq<string>, header: string, validate: string -> Option<Claims>)
    returns (handler: Option<Endpoint>)
    requires ctx.values == NoValues && !ctx.aborted && ctx.status == None
    modifies ctx
    ensures Admit(m, path, header, validate).Answered? ==>
              handler.None? && ctx.aborted && ctx.status == Some(Admit(m, path, header, validate).status)
    ensures Admit(m, path, header, validate).Handled? ==>
              && handler == Some(Admit(m, path, header, validate).endpoint)
              && !ctx.aborted && ctx.status == None
              && ctx.values == Admit(m, path, header, validate).values
  {
    if m == OPTIONS {
      ctx.AbortWith(NoContent);
      return None;
    }
    var route := Resolve(m, path);
    if route.None? {
      ctx.AbortWith(NotFound);
      return None;
    }
    var e := route.value;
    var gate := GateOf(e);
    if !gate.Public? {
      AuthMiddleware(ctx, header, validate);
      if ctx.aborted {
        return None;
      }
      if gate.RoleIn? {
        RoleMiddleware(ctx, gate.roles);
        if ctx.aborted {
          return None;
        }
      }
    }
    return Some(e);
  }

  // ------------------------------------------------------------ properties

  /** The CORS middleware answers every OPTIONS request with 204 before
      routing and before any token is read. */
  lemma OptionsAnsweredFirst(path: seq<string>, header: string, validate: string -> Option<Claims>)
    ensures Admit(OPTIONS, path, header, validate) == Answered(NoContent)
  {
  }

  /** Every request under `/api` that names a route needs a token the
      verifier accepts; without one the answer is 401 whatever the route. */
  lemma ApiRoutesNeedToken(m: Method, path: seq<string>, header: string, validate: string -> Option<Claims>)
    requires m != OPTIONS && |path| > 0 && path[0] == "api"
    requires Authenticate(header, validate).Rejected?
    ensures Resolve(m, path).Some? ==> Admit(m, path, header, validate) == Answered(Unauthorized)
    ensures Resolve(m, path).None? ==> Admit(m, path, header, validate) == Answered(NotFound)
  {
    if Resolve(m, path).Some? {
      var p := path[1..];
      assert Resolve(m, path) == ResolveApi(m, p);
      assert GateOf(Resolve(m, path).value) != Public;
    }
  }

  /** The authentication and debug routes never look at the header. */
  lemma PublicRoutesIgnoreHeader(m: Method, path: seq<string>, h1: string, h2: string,
                                 v1: string -> Option<Claims>, v2: string -> Option<Claims>)
    requires |path| > 0 && (path[0] == "auth" || path[0] == "debug")
    ensures Admit(m, path, h1, v1) == Admit(m, path, h2, v2)
  {
  }

  /** Listing users, changing a role and creating, updating or deleting a
      project reach their handler only for a manager's token. */
  lemma ManagerOnlyRoutes(m: Method, path: seq<string>, header: string, validate: string -> Option<Claims>)
    requires Admit(m, path, header, validate).Handled?
    requires Admit(m, path, header, validate).endpoint in
               [ListUsers, CreateProject] ||
             Admit(m, path, header, validate).endpoint.UpdateUserRole? ||
             Admit(m, path, header, validate).endpoint.UpdateProject? ||
             Admit(m, path, header, validate).endpoint.DeleteProject?
    ensures Authenticate(header, validate).Admitted?
    ensures Authenticate(header, validate).claims.role == Manager
    ensures Admit(m, path, header, validate).values.role == Some(Manager)
  {
  }

  /** Deleting a defect needs a manager's or an engineer's token. */
  lemma DefectDeletionRoles(m: Method, path: seq<string>, header: string, validate: string -> Option<Claims>)
    requires Admit(m, path, header, validate).Handled?
    requires Admit(m, path, header, validate).endpoint.DeleteDefect?
    ensures Authenticate(header, validate).Admitted?
    ensures Admit(m, path, header, validate).values.role in {Some(Manager), Some(Engineer)}
  {
  }

  /** Every other `/api` route, comment deletion included, admits any
      accepted token, an observer's too; the handler then sees the token's
      claims. */
  lemma SignedInRoutesAdmitEveryRole(m: Method, path: seq<string>, header: string, validate: string -> Option<Claims>)
    requires m != OPTIONS && Resolve(m, path).Some? && GateOf(Resolve(m, path).value) == SignedIn
    requires Authenticate(header, validate).Admitted?
    ensures Admit(m, path, header, validate) ==
              Handled(Resolve(m, path).value, ValuesOf(Authenticate(header, validate).claims))
  {
  }

  /** A role-gated route answers 403, not 401, to an accepted token whose
      role is not allowed. */
  lemma WrongRoleIsForbidden(m: Method, path: seq<string>, header: string, validate: string -> Option<Claims>)
    requires m != OPTIONS && Resolve(m, path).Some? && GateOf(Resolve(m, path).value).RoleIn?
    requires Authenticate(header, validate).Admitted?
    requires Authenticate(header, validate).claims.role !in GateOf(Resolve(m, path).value).roles
    ensures Admit(m, path, header, validate) == Answered(Forbidden)
  {
  }

  /** The static `comments` segment takes precedence over a defect id. */
  lemma CommentRoutesBeforeDefectIds(id: string)
    requires id != ""
    ensures Resolve(DELETE, ["api", "defects", "comments", id]) == Some(DeleteComment(id))
    ensures Resolve(POST, ["api", "defects", "comments"]) == Some(CreateComment)
    ensures Resolve(DELETE, ["api", "defects", "comments"]) == Some(DeleteDefect("comments"))
    ensures Resolve(GET, ["api", "defects", id, "comments"]) == Some(ListDefectComments(id))
  {
    assert ["api", "defects", "comments", id][1..] == ["defects", "comments", id];
    assert ["defects", "comments", id][1..] == ["comments", id];
    assert ["api", "defects", "comments"][1..] == ["defects", "comments"];
    assert ["defects", "comments"][1..] == ["comments"];
    assert ["api", "defects", id, "comments"][1..] == ["defects", id, "comments"];
    assert ["defects", id, "comments"][1..] == [id, "comments"];
  }
}
