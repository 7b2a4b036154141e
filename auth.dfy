/** The access-control middleware (src/middleware/auth.js): each check looks
    at the request's user, verb, path and ids and ends in exactly one
    outcome, `next()` or one status response.  Database lookups and token
    verification are parameters; ids and roles are JavaScript values
    compared with `===`. */
module Auth {
  import opened Wrappers
  import opened JsText

  /** What a middleware does with a request. */
  datatype Outcome = Next | Status(code: nat)

  /** A request field: absent (`undefined`), a string or a number. */
  datatype Value = Missing | Str(s: string) | Num(n: int)

  /** JavaScript truthiness of a field (NaN is not modelled). */
  predicate Truthy(v: Value) {
    match v
    case Missing => false
    case Str(s) => s != ""
    case Num(n) => n != 0
  }

  /** `a || b` */
  function Or(a: Value, b: Value): (r: Value)
    ensures Truthy(r) <==> Truthy(a) || Truthy(b)
  {
    if Truthy(a) then a else b
  }

  /** `req.user`, as `authenticateToken` sets it from the token. */
  datatype User = User(id: Value, role: Value, companyId: Value, teamId: Value)

  const CompanyAdmin := Str("COMPANY_ADMIN")
  const TeamAdmin := Str("TEAM_ADMIN")
  const TeamMember := Str("TEAM_MEMBER")

  /** `['POST', 'PUT', 'DELETE'].includes(verb)` */
  predicate IsWrite(verb: string) {
    verb == "POST" || verb == "PUT" || verb == "DELETE"
  }

  /** A database lookup: the record, none, or a thrown error. */
  datatype Lookup<T> = Found(record: T) | NotFound | Failed

  // authenticateToken

  /** `s.split(' ')`: the pieces between spaces, always at least one. */
  function SplitSpace(s: string): (r: seq<string>)
    ensures |r| >= 1
    ensures forall i :: 0 <= i < |r| ==> ' ' !in r[i]
  {
    if s == [] then [""]
    else if s[0] == ' ' then [""] + SplitSpace(s[1..])
    else
      var rest := SplitSpace(s[1..]);
      [[s[0]] + rest[0]] + rest[1..]
  }

  lemma {:induction false} SplitSpaceNone(s: string)
    requires ' ' !in s
    ensures SplitSpace(s) == [s]
  {
    if s != [] {
      assert s[0] != ' ' by { assert s[0] in s; }
      assert ' ' !in s[1..] by { assert forall c :: c in s[1..] ==> c in s; }
      SplitSpaceNone(s[1..]);
      assert [s[0]] + s[1..] == s;
    }
  }

  lemma {:induction false} SplitSpaceAt(x: string, y: string)
    ensures SplitSpace(x + " " + y) == SplitSpace(x) + SplitSpace(y)
  {
    if x == [] {
      assert x + " " + y == " " + y;
      assert (" " + y)[1..] == y;
    } else {
      assert (x + " " + y)[1..] == x[1..] + " " + y;
      assert (x + " " + y)[0] == x[0];
      SplitSpaceAt(x[1..], y);
    }
  }

  /** `authHeader && authHeader.split(' ')[1]`: the second space-separated
      part of the header, when there is one. */
  function Token(header: Option<string>): (r: Option<string>)
    ensures r.Some? ==> ' ' !in r.value
  {
    match header
    case None => None
    case Some(h) =>
      if h == "" then None
      else
        var parts := SplitSpace(h);
        if |parts| > 1 then Some(parts[1]) else None
  }

  /** `authenticateToken`: a missing or empty token, or one that `verify`
      rejects (`jwt.verify` throwing), is answered with 401; otherwise
      the request goes on with the token's user. */
  function Authenticate(header: Option<string>, verify: string -> Option<User>): (r: (Outcome, Option<User>))
    ensures r.0 == Next <==> r.1.Some?
    ensures r.0 == Next || r.0 == Status(401)
  {
    match Token(header)
    case None => (Status(401), None)
    case Some(token) =>
      if token == "" then (Status(401), None)
      else
        match verify(token)
        case None => (Status(401), None)
        case Some(user) => (Next, Some(user))
  }

  /** "Bearer <token>" yields the token, for a token without spaces. */
  lemma BearerToken(scheme: string, token: string)
    requires ' ' !in scheme && ' ' !in token
    ensures Token(Some(scheme + " " + token)) == Some(token)
  {
    SplitSpaceAt(scheme, token);
    SplitSpaceNone(scheme);
    SplitSpaceNone(token);
  }

  /** A request gets past `authenticateToken` only with a non-empty second
      header part that verifies, and then carries exactly that user. */
  lemma AuthenticatedOnlyByToken(header: Option<string>, verify: string -> Option<User>)
    ensures var (outcome, user) := Authenticate(header, verify);
      outcome == Next <==> (Token(header).Some? && Token(header).value != "" && verify(Token(header).value).Some?)
    ensures var (outcome, user) := Authenticate(header, verify);
      outcome == Next ==> user == verify(Token(header).value)
  {
  }

  /** A header with no space carries no token and is refused. */
  lemma NoSpaceNoToken(h: string, verify: string -> Option<User>)
    requires ' ' !in h
    ensures Authenticate(Some(h), verify).0 == Status(401)
  {
    if h != "" {
      SplitSpaceNone(h);
    }
  }

  // checkRole

  /** `checkRole(roles)`: COMPANY_ADMIN always passes; another user passes
      when the role is listed. */
  function CheckRole(roles: seq<string>, user: Option<User>): (r: Outcome)
    ensures r == Next || r == Status(401) || r == Status(403)
    ensures r == Status(401) <==> user.None?
  {
    match user
    case None => Status(401)
    case Some(u) =>
      if u.role == CompanyAdmin then Next
      else if !(u.role.Str? && u.role.s in roles) then Status(403)
      else Next
  }

  /** COMPANY_ADMIN passes whatever the role list, even an empty one. */
  lemma CompanyAdminPassesAnyRoleCheck(roles: seq<string>, u: User)
    requires u.role == CompanyAdmin
    ensures CheckRole(roles, Some(u)) == Next
  {
  }

  /** Any other user passes exactly when the role is listed, and is
      refused with 403 otherwise. */
  lemma RoleCheckIff(roles: seq<string>, u: User)
    requires u.role != CompanyAdmin
    ensures CheckRole(roles, Some(u)) == Next <==> u.role.Str? && u.role.s in roles
    ensures CheckRole(roles, Some(u)) != Next ==> CheckRole(roles, Some(u)) == Status(403)
  {
  }

  /** Widening the role list never turns a pass into a refusal. */
  lemma RoleCheckMonotone(roles: seq<string>, more: seq<string>, user: Option<User>)
    requires forall r :: r in roles ==> r in more
    requires CheckRole(roles, user) == Next
    ensures CheckRole(more, user) == Next
  {
  }

  // checkCompanyAccess

  /** `checkCompanyAccess`: the company id comes from the route, else from
      the body (`req.body.companyId` throws, giving 500, when there is no
      body); users of that company may read it, and only its
      COMPANY_ADMIN may write. */
  function CheckCompanyAccess(user: Option<User>, verb: string, paramCompany: Value, body: Option<Value>): (r: Outcome)
    ensures r == Next || r.code in {400, 401, 403, 500}
  {
    match user
    case None => Status(401)
    case Some(u) =>
      if !Truthy(paramCompany) && body.None? then Status(500)
      else
        var companyId := if Truthy(paramCompany) then paramCompany else body.value;
        if !Truthy(companyId) then Status(400)
        else if u.role == CompanyAdmin && u.companyId == companyId then Next
        else if u.companyId == companyId then
          if IsWrite(verb) && u.role != CompanyAdmin then Status(403) else Next
        else Status(403)
  }

  /** Whoever passes `checkCompanyAccess` belongs to the company named by
      the request, and a write passes only for that company's
      COMPANY_ADMIN. */
  lemma CompanyAccessSafety(user: Option<User>, verb: string, paramCompany: Value, body: Option<Value>)
    requires CheckCompanyAccess(user, verb, paramCompany, body) == Next
    ensures user.Some? && Truthy(Or(paramCompany, body.GetOr(Missing)))
    ensures user.value.companyId == Or(paramCompany, body.GetOr(Missing))
    ensures IsWrite(verb) ==> user.value.role == CompanyAdmin
  {
  }

  /** A member of the company: PATCH and GET pass, POST, PUT and DELETE get
      403 unless the member is its COMPANY_ADMIN. */
  lemma CompanyMethods(u: User, verb: string, company: Value)
    requires Truthy(company) && u.companyId == company
    ensures verb == "PATCH" || verb == "GET" ==> CheckCompanyAccess(Some(u), verb, company, None) == Next
    ensures IsWrite(verb) ==> (CheckCompanyAccess(Some(u), verb, company, None) == Next <==> u.role == CompanyAdmin)
    ensures IsWrite(verb) && u.role != CompanyAdmin ==> CheckCompanyAccess(Some(u), verb, company, None) == Status(403)
  {
  }

  /** A user of another company is refused with 403, whatever the role. */
  lemma OtherCompanyRefused(u: User, verb: string, company: Value)
    requires Truthy(company) && u.companyId != company
    ensures CheckCompanyAccess(Some(u), verb, company, None) == Status(403)
  {
  }

  // checkTeamAccess

  /** The team record `Team.findOne` returns. */
  datatype Team = Team(companyId: Value)

  /** `checkTeamAccess`: the team's COMPANY_ADMIN passes; its TEAM_ADMIN
      passes reads and, on member and keyword paths, writes; its
      TEAM_MEMBER passes GET only. */
  function CheckTeamAccess(user: Option<User>, verb: string, path: string, teamId: Value, team: Lookup<Team>): (r: Outcome)
    ensures r == Next || r.code in {400, 401, 403, 404, 500}
  {
    match user
    case None => Status(401)
    case Some(u) =>
      if !Truthy(teamId) then Status(400)
      else
        match team
        case Failed => Status(500)
        case NotFound => Status(404)
        case Found(t) =>
          if u.role == CompanyAdmin && t.companyId == u.companyId then Next
          else if u.role == TeamAdmin && u.teamId == teamId then
            if IsWrite(verb) then
              if Contains(path, "/members") || Contains(path, "/keywords") then Next else Status(403)
            else Next
          else if u.role == TeamMember && u.teamId == teamId then
            if verb == "GET" then Next else Status(403)
          else Status(403)
  }

  /** Whoever passes `checkTeamAccess` is the COMPANY_ADMIN of the team's
      company or a TEAM_ADMIN or TEAM_MEMBER of the team itself. */
  lemma TeamAccessSafety(user: Option<User>, verb: string, path: string, teamId: Value, team: Lookup<Team>)
    requires CheckTeamAccess(user, verb, path, teamId, team) == Next
    ensures user.Some? && team.Found?
    ensures var u := user.value;
      (u.role == CompanyAdmin && u.companyId == team.record.companyId) ||
      ((u.role == TeamAdmin || u.role == TeamMember) && u.teamId == teamId)
  {
  }

  /** A write passes only for the team's company admin, or for its team
      admin on a members or keywords path. */
  lemma TeamWriteSafety(user: Option<User>, verb: string, path: string, teamId: Value, team: Lookup<Team>)
    requires IsWrite(verb) && CheckTeamAccess(user, verb, path, teamId, team) == Next
    ensures var u := user.value;
      (u.role == CompanyAdmin && u.companyId == team.record.companyId) ||
      (u.role == TeamAdmin && u.teamId == teamId && (Contains(path, "/members") || Contains(path, "/keywords")))
  {
  }

  /** A COMPANY_ADMIN passes exactly for a team of its own company and
      gets 403 for any other team. */
  lemma TeamCompanyAdmin(u: User, verb: string, path: string, teamId: Value, t: Team)
    requires u.role == CompanyAdmin && Truthy(teamId)
    ensures CheckTeamAccess(Some(u), verb, path, teamId, Found(t)) ==
      if t.companyId == u.companyId then Next else Status(403)
  {
  }

  /** A user who is neither that admin nor on the team gets 403. */
  lemma TeamOutsiderRefused(u: User, verb: string, path: string, teamId: Value, t: Team)
    requires Truthy(teamId) && u.teamId != teamId
    requires !(u.role == CompanyAdmin && t.companyId == u.companyId)
    ensures CheckTeamAccess(Some(u), verb, path, teamId, Found(t)) == Status(403)
  {
  }

  /** A missing team is 404 and a failed lookup is 500, before any role
      is looked at. */
  lemma TeamLookupErrors(u: User, verb: string, path: string, teamId: Value)
    requires Truthy(teamId)
    ensures CheckTeamAccess(Some(u), verb, path, teamId, NotFound) == Status(404)
    ensures CheckTeamAccess(Some(u), verb, path, teamId, Failed) == Status(500)
  {
  }

  /** A TEAM_MEMBER of the team passes exactly the GET requests. */
  lemma TeamMemberReadsOnly(u: User, verb: string, path: string, teamId: Value, t: Team)
    requires u.role == TeamMember && u.teamId == teamId && Truthy(teamId)
    ensures CheckTeamAccess(Some(u), verb, path, teamId, Found(t)) == Next <==> verb == "GET"
  {
  }

  /** A TEAM_ADMIN of the team passes every non-write verb. */
  lemma TeamAdminReads(u: User, verb: string, path: string, teamId: Value, t: Team)
    requires u.role == TeamAdmin && u.teamId == teamId && Truthy(teamId) && !IsWrite(verb)
    ensures CheckTeamAccess(Some(u), verb, path, teamId, Found(t)) == Next
  {
  }

  // checkUserRoleUpdateAccess

  /** The user record `User.findByPk` returns. */
  datatype Target = Target(companyId: Value, teamId: Value)

  /** `checkUserRoleUpdateAccess`: any COMPANY_ADMIN passes (the company
      comparison is commented out), a TEAM_ADMIN passes for a user of the
      same team. */
  function CheckUserRoleUpdateAccess(user: Option<User>, userId: Value, target: Lookup<Target>): (r: Outcome)
    ensures r == Next || r.code in {400, 401, 403, 404, 500}
  {
    match user
    case None => Status(401)
    case Some(u) =>
      if !Truthy(userId) then Status(400)
      else
        match target
        case Failed => Status(500)
        case NotFound => Status(404)
        case Found(t) =>
          if u.role == CompanyAdmin then Next
          else if u.role == TeamAdmin && t.teamId == u.teamId then Next
          else Status(403)
  }

  /** A COMPANY_ADMIN may update a user of any company, its own or not. */
  lemma CompanyAdminUpdatesAnyCompany(u: User, userId: Value, t: Target)
    requires u.role == CompanyAdmin && Truthy(userId)
    ensures CheckUserRoleUpdateAccess(Some(u), userId, Found(t)) == Next
  {
  }

  /** Whoever passes is a COMPANY_ADMIN, or a TEAM_ADMIN of the target's
      team; a missing target is 404. */
  lemma RoleUpdateSafety(user: Option<User>, userId: Value, target: Lookup<Target>)
    ensures target == NotFound && user.Some? && Truthy(userId) ==> CheckUserRoleUpdateAccess(user, userId, target) == Status(404)
    ensures CheckUserRoleUpdateAccess(user, userId, target) == Next ==>
      user.Some? && target.Found? &&
      (user.value.role == CompanyAdmin || (user.value.role == TeamAdmin && target.record.teamId == user.value.teamId))
  {
  }
}
