/** The authentication middleware (backend/src/middleware/auth.js): bearer-token
    extraction, the `verifyToken` gate chain, `checkRole`, `authorize` and
    `optionalAuth`. JWT verification is a function parameter whose outcome
    names the error the library would throw. */
module AuthMiddleware {
  import opened Common
  import opened Strings
  import opened Users

  /** What `jwt.verify` does with a token: the id it carries, or the error it
      throws (any other failure, such as the user lookup failing, is `Failure`). */
  datatype Decoded = Valid(id: Id) | Malformed | Expired | Failure

  /** The outcome of a middleware: `next()` with the request's user, or a response. */
  datatype Gate = Next(user: Option<User>) | Reject(status: Status, message: string)

  /** `req.headers.authorization?.split(' ')[1]`, kept only when non-empty. */
  function BearerToken(header: Option<string>): (token: Option<string>)
    ensures token.Some? ==> header.Some? && token.value != "" && ' ' !in token.value
    ensures token.Some? ==> |Split(header.value, ' ')| >= 2 && token.value == Split(header.value, ' ')[1]
    ensures header.None? ==> token.None?
  {
    if header.None? then None
    else
      var pieces := Split(header.value, ' ');
      if |pieces| >= 2 && pieces[1] != "" then Some(pieces[1]) else None
  }

  /** The header "Bearer <token>" yields the token. */
  lemma BearerTokenOfScheme(scheme: string, token: string)
    requires ' ' !in scheme && ' ' !in token && token != ""
    ensures BearerToken(Some(scheme + " " + token)) == Some(token)
  {
    SplitJoin([scheme, token], ' ');
    assert Join([scheme, token], ' ') == scheme + " " + Join([token], ' ');
  }

  /** `verifyToken`: no token 401; a malformed or expired token 401; a decoded
      id without a user 401; then inactive 403, then unapproved 403; otherwise
      next with the user. Any other failure is 500. */
  function VerifyToken(header: Option<string>, verify: string -> Decoded, users: seq<User>): (g: Gate)
    ensures g.Next? <==>
              BearerToken(header).Some? && verify(BearerToken(header).value).Valid?
              && var u := FindUser(users, verify(BearerToken(header).value).id);
                 u.Some? && u.value.isActive && u.value.isApproved
    ensures g.Next? ==> g.user.Some? && g.user.value in users && g.user.value.isActive && g.user.value.isApproved
    ensures g.Reject? ==> g.status in {Unauthorized, Forbidden, ServerError}
    ensures BearerToken(header).None? ==> g == Reject(Unauthorized, "Access denied. No token provided.")
  {
    match BearerToken(header)
    case None => Reject(Unauthorized, "Access denied. No token provided.")
    case Some(token) =>
      match verify(token)
      case Malformed => Reject(Unauthorized, "Invalid token.")
      case Expired => Reject(Unauthorized, "Token expired.")
      case Failure => Reject(ServerError, "Internal server error.")
      case Valid(id) =>
        match FindUser(users, id)
        case None => Reject(Unauthorized, "Invalid token. User not found.")
        case Some(u) =>
          if !u.isActive then Reject(Forbidden, "Account is deactivated.")
          else if !u.isApproved then Reject(Forbidden, "Account is pending approval.")
          else Next(Some(u))
  }

  /** The gate order: a deactivated account is reported as such even when it is
      also unapproved. */
  lemma InactiveBeforeUnapproved(header: Option<string>, verify: string -> Decoded, users: seq<User>, u: User)
    requires BearerToken(header).Some? && verify(BearerToken(header).value) == Valid(u.id)
    requires FindUser(users, u.id) == Some(u) && !u.isActive
    ensures VerifyToken(header, verify, users) == Reject(Forbidden, "Account is deactivated.")
  {
  }

  /** `checkRole(...roles)`: 401 without a user, 403 when the role is not listed. */
  function CheckRole(roles: seq<Role>, user: Option<User>): (g: Gate)
    ensures g.Next? <==> user.Some? && user.value.role in roles
    ensures g.Next? ==> g.user == user
    ensures user.None? ==> g.Reject? && g.status == Unauthorized
    ensures user.Some? && user.value.role !in roles ==> g.Reject? && g.status == Forbidden
  {
    if user.None? then Reject(Unauthorized, "Authentication required.")
    else if user.value.role !in roles then Reject(Forbidden, "Access denied. Required role: " + RoleList(roles))
    else Next(user)
  }

  /** `roles.join(' or ')` */
  function RoleList(roles: seq<Role>): string {
    if roles == [] then ""
    else if |roles| == 1 then RoleName(roles[0])
    else RoleName(roles[0]) + " or " + RoleList(roles[1..])
  }

  /** `authorize(...roles)`: `verifyToken` and then `checkRole`. */
  function Authorize(roles: seq<Role>, header: Option<string>, verify: string -> Decoded, users: seq<User>): (g: Gate)
    ensures g.Next? <==> VerifyToken(header, verify, users).Next? && VerifyToken(header, verify, users).user.value.role in roles
    ensures g.Next? ==> g.user.Some? && g.user.value.isActive && g.user.value.isApproved && g.user.value.role in roles
    ensures VerifyToken(header, verify, users).Reject? ==> g == VerifyToken(header, verify, users)
  {
    match VerifyToken(header, verify, users)
    case Reject(s, m) => Reject(s, m)
    case Next(u) => CheckRole(roles, u)
  }

  /** `optionalAuth`: always continues; the user is attached only for a valid
      token of an active, approved user, and every failure is swallowed. */
  function OptionalAuth(header: Option<string>, verify: string -> Decoded, users: seq<User>): (g: Gate)
    ensures g.Next?
    ensures g.user.Some? <==> VerifyToken(header, verify, users).Next?
    ensures g.user.Some? ==> g.user == VerifyToken(header, verify, users).user
  {
    match BearerToken(header)
    case None => Next(None)
    case Some(token) =>
      match verify(token)
      case Valid(id) =>
        var u := FindUser(users, id);
        if u.Some? && u.value.isActive && u.value.isApproved then Next(u) else Next(None)
      case _ => Next(None)
  }
}
