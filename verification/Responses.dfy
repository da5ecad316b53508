/** Runs with the HTTP responses behind their fetches: what a failed request does, and what a cached list rests on. */
module Responses {
  import opened Prelude
  import opened Keys
  import opened Helios
  import opened Client
  import opened Protocol
  import opened Coherence
  import opened Grants
  import opened Freshness

  /** Each served fetch came back with the response at its place. */
  ghost predicate Behind(ls: seq<Label>, rs: seq<Response>) {
    |rs| == |ls| && forall m | 0 <= m < |ls| && ls[m].ServeFetch? :: ls[m].result == ReadResponse(rs[m])
  }

  /** The call is at or past an outage: it has nothing for the cache. */
  predicate FailsClosed(pc: Pc, staleOnError: bool) {
    match pc
    case Fetched(_, result) => result.Unreachable?
    case Done(answer, source) =>
      source.Led? && answer == if staleOnError then Granted([]) else RaisedUnreachable
    case _ => false
  }

  lemma OutageFailsClosed(pc: Pc, staleOnError: bool)
    requires Carries(pc, staleOnError, Unreachable)
    ensures FailsClosed(pc, staleOnError)
  {
  }

  lemma FailingCallLeavesCache(s: State, l: Label, i: TaskId, mode: bool)
    requires Enabled(s, l) && IsTaskLabel(l) && l.i == i && i < |s.tasks| && FailsClosed(s.tasks[i].pc, mode)
    ensures Apply(s, l).cache == s.cache
  {
  }

  /**
    A request that fails, with a network error or a status such as 503, leaves the cache as it was:
    from then on no event of its call changes it, and the call ends with the fail-closed list, or with
    HeliosUnreachableError when the client was made so.
   */
  lemma FailedRequestLeavesCache(s0: State, ls: seq<Label>, rs: seq<Response>, m: nat, n: nat)
    requires IsRun(s0, ls) && Behind(ls, rs) && m < n <= |ls| && ls[m].ServeFetch? && IsOutage(rs[m])
    ensures IsRun(s0, ls[..n]) && IsTask(s0, ls[m].i) && IsTask(Exec(s0, ls[..n]), ls[m].i)
    ensures FailsClosed(Exec(s0, ls[..n]).tasks[ls[m].i].pc, StaleOnError(s0, ls[m].i))
    ensures n < |ls| && IsTaskLabel(ls[n]) && ls[n].i == ls[m].i ==>
              IsRun(s0, ls[..n + 1]) && Exec(s0, ls[..n + 1]).cache == Exec(s0, ls[..n]).cache
  {
    ResponsesAreReadExactly(rs[m], []);
    FetchDecides(s0, ls, m, n);
    OutageFailsClosed(Exec(s0, ls[..n]).tasks[ls[m].i].pc, StaleOnError(s0, ls[m].i));
    RunPrefix(s0, ls, n);
    if n < |ls| && IsTaskLabel(ls[n]) && ls[n].i == ls[m].i {
      FailingCallLeavesCache(Exec(s0, ls[..n]), ls[n], ls[m].i, StaleOnError(s0, ls[m].i));
    }
  }

  /** A call of `id` got a 404 or 2xx response that stands for the list, or it was written through. */
  predicate Rests(s0: State, l: Label, r: Response, id: Pair, perms: Perms) {
    match l
    case ServeFetch(i, _, _) => i < |s0.tasks| && s0.tasks[i].id == id && StandsFor(r, perms)
    case WriteThrough(target, written, _) => target == id && written == perms
    case _ => false
  }

  lemma BroughtByResponse(s0: State, l: Label, r: Response, id: Pair, perms: Perms)
    requires l.ServeFetch? ==> l.result == ReadResponse(r)
    ensures Brings(s0.tasks, l, id, perms) <==> Rests(s0, l, r, id, perms)
  {
    ResponsesAreReadExactly(r, perms);
  }

  /** Every cached list rests on a 404 or 2xx response to a call for that membership, or on a write-through. */
  lemma CachedListsRestOnResponses(s0: State, ids: set<Pair>, ls: seq<Label>, rs: seq<Response>, id: Pair)
    requires Start(s0) && IsRun(s0, ls) && Separated(ids) && InPlay(ids, s0, ls) && id in ids && Behind(ls, rs)
    requires KeyOf(id) in Exec(s0, ls).cache
    ensures exists j | 0 <= j < |ls| :: Rests(s0, ls[j], rs[j], id, Exec(s0, ls).cache[KeyOf(id)])
  {
    var perms := Exec(s0, ls).cache[KeyOf(id)];
    CachedListsHaveOrigins(s0, ids, ls, id);
    var j :| 0 <= j < |ls| && Brings(s0.tasks, ls[j], id, perms);
    BroughtByResponse(s0, ls[j], rs[j], id, perms);
    assert Rests(s0, ls[j], rs[j], id, perms);
  }

  /**
    What `caller_has_permission` says, exactly. For a call that did not hit: True if and only if the
    response that decided it, its own or its leader's, stands for a list with the permission.
   */
  lemma DecisionRestsOnResponse(
    s0: State, ids: set<Pair>, ls: seq<Label>, rs: seq<Response>, i: TaskId, perm: string) returns (m: nat)
    requires Start(s0) && Separated(ids) && CallsIn(s0, ids) && IsRun(s0, ls) && i < |s0.tasks| && Behind(ls, rs)
    requires var s := Exec(s0, ls); i < |s.tasks| && s.tasks[i].pc.Done? && !s.tasks[i].pc.source.FromCache?
    ensures FetchOf(ls, m, LeaderOf(i, Exec(s0, ls).tasks[i].pc.source))
    ensures SaysYes(Exec(s0, ls), i, perm) <==>
            rs[m].Http? && 200 <= rs[m].status < 300 && rs[m].body.Some? && rs[m].body.value.Active? &&
            perm in rs[m].body.value.permissions
    // an active list is answered verbatim
    ensures forall perms | StandsFor(rs[m], perms) :: Exec(s0, ls).tasks[i].pc.answer == Granted(perms)
  {
    m := AnswerIsDecidedByFetch(s0, ids, ls, i);
    GrantsComeFromActiveAnswers(rs[m], perm);
    forall perms
      ensures StandsFor(rs[m], perms) <==> ls[m].result.Resolved? && ToPerms(ls[m].result.resolution) == perms
    {
      ResponsesAreReadExactly(rs[m], perms);
    }
  }

  /** For a call that hits: True if and only if the list its GET read contains the permission. */
  lemma HitDecidesExactly(s0: State, ls: seq<Label>, i: TaskId, perm: string) returns (m: nat)
    requires Start(s0) && IsRun(s0, ls) && i < |s0.tasks| && i < |Exec(s0, ls).tasks|
    requires Exec(s0, ls).tasks[i].pc.Done? && Exec(s0, ls).tasks[i].pc.source.FromCache?
    ensures m < |ls| && ls[m] == ServeGet(i, true) && IsRun(s0, ls[..m]) && KeyOfTask(s0, i) in Exec(s0, ls[..m]).cache
    ensures SaysYes(Exec(s0, ls), i, perm) <==> perm in Exec(s0, ls[..m]).cache[KeyOfTask(s0, i)]
  {
    HitAnswersGranted(s0, ls, i);
    m := HitHasGet(s0, ls, i, Exec(s0, ls).tasks[i].pc.answer.perms);
  }
}
