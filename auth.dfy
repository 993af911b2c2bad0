/** backend/middleware/auth.go: the claims a token carries, the parsing of
    the Authorization header, and the two middlewares that put the caller's
    identity into the request context and gate a route on its role.
    Signing and verifying tokens is the JWT library's business: the model
    takes the verifier as a function from token text to claims. */
module Auth {
  import opened Wrappers
  import opened Models
  import opened Http
  import opened Config

  // --------------------------------------------------------------- claims

  /** The signed claims: who the caller is and the token's lifetime, in
      whole seconds since the Unix epoch. */
  datatype Claims = Claims(userId: nat, username: string, role: Role, issuedAt: int, expiresAt: int)

  const NanosPerHour: int := 3600 * NanosPerSecond

  /** The claims `GenerateToken` signs for `u` at wall-clock time `now`
      (nanoseconds since the Unix epoch). The lifetime is
      `time.Hour * time.Duration(hrs)`, an `int64` product that wraps; the
      JWT dates keep whole seconds, rounding down. */
  function IssueClaims(u: User, expirationHrs: int, now: int): (c: Claims)
    ensures c.userId == u.id && c.username == u.username && c.role == u.role
    ensures c.issuedAt == now / NanosPerSecond
    ensures Strconv.MinInt64 <= expirationHrs * NanosPerHour <= Strconv.MaxInt64 ==>
              c.expiresAt == c.issuedAt + expirationHrs * 3600
  {
    var lifetime := WrapInt64(expirationHrs * NanosPerHour);
    Claims(u.id, u.username, u.role, now / NanosPerSecond, (now + lifetime) / NanosPerSecond)
  }

  // ------------------------------------------------------ header parsing

  /** `strings.Split(s, string(sep))`: the pieces between separators, empty
      pieces included. */
  function Split(s: string, sep: char): (parts: seq<string>)
    ensures |parts| >= 1
  {
    if s == [] then [""]
    else
      var rest := Split(s[1..], sep);
      if s[0] == sep then [""] + rest else [[s[0]] + rest[0]] + rest[1..]
  }

  /** `strings.Join(parts, string(sep))`. */
  function Join(parts: seq<string>, sep: char): string
    requires |parts| >= 1
  {
    if |parts| == 1 then parts[0] else parts[0] + [sep] + Join(parts[1..], sep)
  }

  lemma {:induction false} JoinSplit(s: string, sep: char)
    ensures Join(Split(s, sep), sep) == s
  {
    if s != [] {
      var rest := Split(s[1..], sep);
      JoinSplit(s[1..], sep);
      if s[0] != sep {
        var parts := [[s[0]] + rest[0]] + rest[1..];
        if |rest| == 1 {
          assert Join(parts, sep) == [s[0]] + rest[0];
        } else {
          assert parts[1..] == rest[1..];
          assert Join(rest, sep) == rest[0] + [sep] + Join(rest[1..], sep);
        }
      } else {
        assert ([""] + rest)[1..] == rest;
      }
    }
  }

  lemma {:induction false} SplitPiecesHaveNoSeparator(s: string, sep: char)
    ensures forall i :: 0 <= i < |Split(s, sep)| ==> sep !in Split(s, sep)[i]
  {
    if s != [] {
      SplitPiecesHaveNoSeparator(s[1..], sep);
    }
  }

  lemma {:induction false} SplitWithoutSeparator(s: string, sep: char)
    requires sep !in s
    ensures Split(s, sep) == [s]
  {
    if s != [] {
      SplitWithoutSeparator(s[1..], sep);
      assert [s[0]] + s[1..] == s;
    }
  }

  lemma {:induction false} SplitAtFirstSeparator(a: string, sep: char, b: string)
    requires sep !in a
    ensures Split(a + [sep] + b, sep) == [a] + Split(b, sep)
  {
    if a == [] {
      assert a + [sep] + b == [sep] + b;
      assert ([sep] + b)[1..] == b;
    } else {
      assert (a + [sep] + b)[1..] == a[1..] + [sep] + b;
      SplitAtFirstSeparator(a[1..], sep, b);
      assert [a[0]] + a[1..] == a;
    }
  }

  /** The token text `AuthMiddleware` passes on: the header must split on
      single spaces into exactly two pieces, the first being `Bearer`. */
  function BearerToken(header: string): Option<string>
  {
    var parts := Split(header, ' ');
    if |parts| != 2 || parts[0] != "Bearer" then None else Some(parts[1])
  }

  /** The header is accepted exactly when it is `Bearer`, one space, and a
      token containing no space (possibly empty). Tabs or repeated spaces,
      which section 2.1 of RFC 6750 admits, are refused. */
  lemma BearerTokenExact(header: string, token: string)
    ensures BearerToken(header) == Some(token) <==> (header == "Bearer " + token && ' ' !in token)
  {
    var parts := Split(header, ' ');
    if BearerToken(header) == Some(token) {
      JoinSplit(header, ' ');
      SplitPiecesHaveNoSeparator(header, ' ');
      assert parts[1..] == [token];
      assert header == "Bearer" + [' '] + token;
    }
    if header == "Bearer " + token && ' ' !in token {
      assert header == "Bearer" + [' '] + token;
      SplitAtFirstSeparator("Bearer", ' ', token);
      SplitWithoutSeparator(token, ' ');
    }
  }

  // ------------------------------------------------------ authentication

  datatype AuthResult = Rejected | Admitted(claims: Claims)

  /** What `AuthMiddleware` decides: an empty header, a malformed header
      and a token the verifier refuses are all rejected (401). */
  function Authenticate(header: string, validate: string -> Option<Claims>): (r: AuthResult)
    ensures r.Admitted? <==>
              exists token :: header == "Bearer " + token && ' ' !in token && validate(token).Some?
    ensures r.Admitted? ==> validate(header[7..]) == Some(r.claims)
  {
    if header == "" then Rejected
    else
      match BearerToken(header)
      case None =>
        assert forall token :: header == "Bearer " + token && ' ' !in token ==> false by {
          forall token | header == "Bearer " + token && ' ' !in token ensures false {
            BearerTokenExact(header, token);
          }
        }
        Rejected
      case Some(token) =>
        BearerTokenExact(header, token);
        assert header[7..] == token;
        match validate(token)
        case None =>
          assert forall t :: header == "Bearer " + t && ' ' !in t ==> t == token by {
            forall t | header == "Bearer " + t && ' ' !in t ensures t == token {
              assert t == header[7..];
            }
          }
          Rejected
        case Some(claims) => Admitted(claims)
  }

  // ------------------------------------------------- the request context

  /** The keys the middleware writes into the gin context. */
  datatype ContextValues = ContextValues(userID: Option<nat>, username: Option<string>, role: Option<Role>)

  const NoValues: ContextValues := ContextValues(None, None, None)

  /** The values an accepted token puts into the context: exactly its id,
      username and role. */
  function ValuesOf(c: Claims): (v: ContextValues)
    ensures v.userID == Some(c.userId) && v.username == Some(c.username) && v.role == Some(c.role)
  {
    ContextValues(Some(c.userId), Some(c.username), Some(c.role))
  }

  /** The part of `gin.Context` the core touches: the values set on it,
      whether the handler chain was aborted, and the status written. */
  class Context {
    var values: ContextValues
    var aborted: bool
    var status: Option<Status>

    constructor ()
      ensures values == NoValues && !aborted && status == None
    {
      values := NoValues;
      aborted := false;
      status := None;
    }

    /** `c.JSON(code, ...)` followed by `c.Abort()`. */
    method AbortWith(code: Status)
      modifies this
      ensures aborted && status == Some(code) && values == old(values)
    {
      status := Some(code);
      aborted := true;
    }
  }

  /** `AuthMiddleware`: rejects with 401 and stops the chain, or stores the
      claims' id, username and role in the context and lets it go on. */
  method AuthMiddleware(ctx: Context, header: string, validate: string -> Option<Claims>)
    modifies ctx
    ensures Authenticate(header, validate).Rejected? ==>
              ctx.aborted && ctx.status == Some(Unauthorized) && ctx.values == old(ctx.values)
    ensures Authenticate(header, validate).Admitted? ==>
              && ctx.aborted == old(ctx.aborted) && ctx.status == old(ctx.status)
              && ctx.values == ValuesOf(Authenticate(header, validate).claims)
  {
    if header == "" {
      ctx.AbortWith(Unauthorized);
      return;
    }
    var tokenParts := Split(header, ' ');
    if |tokenParts| != 2 || tokenParts[0] != "Bearer" {
      ctx.AbortWith(Unauthorized);
      return;
    }
    var claims := validate(tokenParts[1]);
    if claims.None? {
      ctx.AbortWith(Unauthorized);
      return;
    }
    ctx.values := ValuesOf(claims.value);
  }

  /** What `RoleMiddleware(roles...)` answers: nothing (the chain goes on)
      when the context's role is one of `roles`, 401 when there is no role,
      403 otherwise. */
  function RoleGate(role: Option<Role>, roles: seq<Role>): Option<Status>
  {
    if role.None? then Some(Unauthorized)
    else if role.value in roles then None
    else Some(Forbidden)
  }

  lemma RoleGateAdmitsMembers(r: Role, roles: seq<Role>)
    ensures RoleGate(Some(r), roles) == None <==> r in roles
    ensures RoleGate(Some(r), roles) != None ==> RoleGate(Some(r), roles) == Some(Forbidden)
    ensures RoleGate(None, roles) == Some(Unauthorized)
  {
  }

  /** `RoleMiddleware`: searches the allowed roles for the context's role
      and aborts when it is missing or not found. */
  method RoleMiddleware(ctx: Context, roles: seq<Role>)
    modifies ctx
    ensures RoleGate(old(ctx.values.role), roles).Some? ==>
              ctx.aborted && ctx.status == RoleGate(old(ctx.values.role), roles)
    ensures RoleGate(old(ctx.values.role), roles).None? ==>
              ctx.aborted == old(ctx.aborted) && ctx.status == old(ctx.status)
    ensures ctx.values == old(ctx.values)
  {
    if ctx.values.role.None? {
      ctx.AbortWith(Unauthorized);
      return;
    }
    var role := ctx.values.role.value;
    var authorized := false;
    var i := 0;
    while i < |roles|
      invariant 0 <= i <= |roles|
      invariant role !in roles[..i]
      invariant !authorized
    {
      if role == roles[i] {
        authorized := true;
        break;
      }
      i := i + 1;
    }
    assert authorized <==> role in roles by {
      if !authorized {
        assert roles[..i] == roles;
      }
    }
    if !authorized {
      ctx.AbortWith(Forbidden);
      return;
    }
  }
}
