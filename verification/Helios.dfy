/** Helios's answers and how the SDK reads them. */
module Helios {
  import opened Prelude

  /**
    The union Helios returns for a membership. Nothing checks a decoded body: a role may be missing,
    and the status may be a fourth one.
   */
  datatype Resolution =
    | Active(role: Option<string>, permissions: Perms)
    | Inactive(role: Option<string>)
    | NotAMember
    | OtherStatus(givenRole: Option<string>, given: Option<Perms>)   // any other status, and the fields it has

  /** What one `fetch_user_permissions` call comes back with. */
  datatype FetchResult =
    | Resolved(resolution: Resolution)
    | Unreachable   // HeliosUnreachableError
    | Malformed     // any other exception, for instance while decoding the body

  /** The transport's view of one request: an exception, or a status code with a decoded body. */
  datatype Response =
    | NetworkError
    | Http(status: int, body: Option<Resolution>)

  /** The answer for a response: 404 is "not a member", other non-2xx codes are an outage. */
  function ReadResponse(r: Response): FetchResult {
    match r
    case NetworkError => Unreachable
    case Http(status, body) =>
      if status == 404 then Resolved(NotAMember)
      else if status < 200 || status >= 300 then Unreachable
      else match body
        case None => Malformed
        case Some(resolution) => Resolved(resolution)
  }

  function ToPerms(r: Resolution): Perms {
    match r
    case Active(_, permissions) => permissions
    case Inactive(_) => []
    case NotAMember => []
    case OtherStatus(_, _) => []
  }

  datatype Reason = GrantedByRole | RoleLacksPermission | MembershipInactive | NoMembership | FailClosed

  datatype Explanation = Explanation(granted: bool, role: Option<string>, reason: Reason)

  function ParseRole(roles: set<string>, role: string): Option<string> {
    if role in roles then Some(role) else None
  }

  /** `explain` for an answer; `None` when an exception propagates. */
  function Explain(roles: set<string>, result: FetchResult, perm: string): Option<Explanation> {
    match result
    case Unreachable => Some(Explanation(false, None, FailClosed))
    case Malformed => None
    case Resolved(NotAMember) => Some(Explanation(false, None, NoMembership))
    case Resolved(Inactive(Some(role))) => Some(Explanation(false, ParseRole(roles, role), MembershipInactive))
    case Resolved(Active(Some(role), permissions)) => Some(ExplainActive(roles, role, permissions, perm))
    case Resolved(OtherStatus(Some(role), Some(permissions))) => Some(ExplainActive(roles, role, permissions, perm))
    case Resolved(_) => None
  }

  /** The branch `explain` takes when the status is none of the two it tests for. */
  function ExplainActive(roles: set<string>, role: string, permissions: Perms, perm: string): Explanation {
    if perm in permissions then Explanation(true, ParseRole(roles, role), GrantedByRole)
    else Explanation(false, ParseRole(roles, role), RoleLacksPermission)
  }

  /** A network error, or a status that is neither 404 nor 2xx. */
  predicate IsOutage(r: Response) {
    match r
    case NetworkError => true
    case Http(status, _) => status != 404 && !(200 <= status < 300)
  }

  /** A 404, or a 2xx with a body that can be decoded. */
  predicate SettlesMembership(r: Response) {
    r.Http? && (r.status == 404 || (200 <= r.status < 300 && r.body.Some?))
  }

  /** The list a response stands for. */
  predicate StandsFor(r: Response, perms: Perms) {
    SettlesMembership(r) &&
    perms == if r.status != 404 && r.body.value.Active? then r.body.value.permissions else []
  }

  /**
    Which responses settle a membership, and how: exactly a 404, which is no membership whatever its
    body, and a 2xx with a decodable body, which is that body. An outage is exactly a network error or
    another status, and all that is left is a 2xx whose body cannot be decoded.
   */
  lemma ResponsesAreReadExactly(r: Response, perms: Perms)
    ensures ReadResponse(r).Resolved? <==> SettlesMembership(r)
    ensures ReadResponse(r).Unreachable? <==> IsOutage(r)
    ensures ReadResponse(r).Malformed? <==> r.Http? && 200 <= r.status < 300 && r.body.None?
    ensures r.Http? && r.status == 404 ==> ReadResponse(r) == Resolved(NotAMember)
    ensures r.Http? && 200 <= r.status < 300 && r.body.Some? ==> ReadResponse(r) == Resolved(r.body.value)
    ensures StandsFor(r, perms) <==> ReadResponse(r).Resolved? && ToPerms(ReadResponse(r).resolution) == perms
  {
  }

  /** A permission is only ever granted from a 2xx answer other than 404 that carries an active membership. */
  lemma GrantsComeFromActiveAnswers(r: Response, perm: string)
    ensures (ReadResponse(r).Resolved? && perm in ToPerms(ReadResponse(r).resolution)) <==>
            (r.Http? && 200 <= r.status < 300 && r.body.Some? && r.body.value.Active? &&
             perm in r.body.value.permissions)
  {
  }

  predicate ExplainGrants(roles: set<string>, result: FetchResult, perm: string) {
    var e := Explain(roles, result, perm);
    e.Some? && e.value.granted
  }

  /** What the decision path answers with, from one result of a fetch. */
  predicate DecisionGrants(result: FetchResult, perm: string) {
    result.Resolved? && perm in ToPerms(result.resolution)
  }

  /** A body with a status of its own that nevertheless has a role and lists the permission. */
  predicate OtherStatusLists(result: FetchResult, perm: string) {
    result.Resolved? && result.resolution.OtherStatus? && result.resolution.givenRole.Some? &&
    result.resolution.given.Some? && perm in result.resolution.given.value
  }

  /** An active body that lists the permission but has no role. */
  predicate RolelessLists(result: FetchResult, perm: string) {
    result.Resolved? && result.resolution.Active? && result.resolution.role.None? &&
    perm in result.resolution.permissions
  }

  /** A field that `explain` reads is missing from the body. */
  predicate LacksField(r: Resolution) {
    match r
    case Active(role, _) => role.None?
    case Inactive(role) => role.None?
    case NotAMember => false
    case OtherStatus(role, permissions) => role.None? || permissions.None?
  }

  /**
    `explain` and the cached decision path agree on a permission if and only if the body that lists
    it is neither of a fourth status, where only `explain` grants, nor without a role, where
    `explain` raises and only the decision path grants.
   */
  lemma ExplainAgreesWithDecision(roles: set<string>, result: FetchResult, perm: string)
    ensures (ExplainGrants(roles, result, perm) <==> DecisionGrants(result, perm)) <==>
            !OtherStatusLists(result, perm) && !RolelessLists(result, perm)
    ensures Explain(roles, result, perm).Some? ==>
              (Explain(roles, result, perm).value.granted <==>
               Explain(roles, result, perm).value.reason == GrantedByRole)
    // the exception propagates exactly for an undecodable body and a missing field
    ensures Explain(roles, result, perm).None? <==>
              result.Malformed? || (result.Resolved? && LacksField(result.resolution))
  {
  }

  /** The role a result carries. */
  predicate CarriesRole(result: FetchResult, role: string) {
    result.Resolved? &&
    match result.resolution
    case Active(given, _) => given == Some(role)
    case Inactive(given) => given == Some(role)
    case NotAMember => false
    case OtherStatus(given, _) => given == Some(role)
  }

  /**
    What an explanation says: its role is the one the result carries, if that is one of the known
    roles; and each reason for a denial has its own cause.
   */
  lemma ExplanationIsExact(roles: set<string>, result: FetchResult, perm: string)
    requires Explain(roles, result, perm).Some?
    ensures var e := Explain(roles, result, perm).value;
            && (forall role :: e.role == Some(role) <==> CarriesRole(result, role) && role in roles)
            && (e.reason == FailClosed <==> result.Unreachable?)
            && (e.reason == NoMembership <==> result.Resolved? && result.resolution.NotAMember?)
            && (e.reason == MembershipInactive <==> result.Resolved? && result.resolution.Inactive?)
            && (e.reason == GrantedByRole <==> DecisionGrants(result, perm) || OtherStatusLists(result, perm))
            && (e.granted <==> e.reason == GrantedByRole)
  {
  }
}
