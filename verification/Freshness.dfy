/**
  How fresh an answer is. A hit is decided when its GET is served; every other answer is decided
  when one fetch is served: the call's own, or that of the leader it joined.
 */
module Freshness {
  import opened Prelude
  import opened Keys
  import opened Helios
  import opened Client
  import opened Protocol
  import opened Ownership
  import opened Coherence
  import opened Grants

  /** How a leader ends on the result of its fetch. */
  function Outcome(staleOnError: bool, result: FetchResult): Answer {
    match result
    case Resolved(resolution) => Granted(ToPerms(resolution))
    case Unreachable => if staleOnError then Granted([]) else RaisedUnreachable
    case Malformed => RaisedOther
  }

  /** From the served fetch to the answer, a leader carries the result. */
  predicate Carries(pc: Pc, staleOnError: bool, result: FetchResult) {
    match pc
    case Fetched(_, r) => r == result
    case Populating(perms, _) => result.Resolved? && perms == ToPerms(result.resolution)
    case Populated(perms) => result.Resolved? && perms == ToPerms(result.resolution)
    case Done(answer, Led) => answer == Outcome(staleOnError, result)
    case _ => false
  }

  /** The `stale_on_error` option of the client that makes call `i`. */
  predicate StaleOnError(s: State, i: TaskId)
    requires IsTask(s, i)
  {
    ClientOf(s, i).staleOnError
  }

  lemma CarriedIsKept(s: State, l: Label, i: TaskId, result: FetchResult)
    requires Enabled(s, l) && IsTask(s, i) && Carries(s.tasks[i].pc, StaleOnError(s, i), result)
    ensures IsTask(Apply(s, l), i) && Carries(Apply(s, l).tasks[i].pc, StaleOnError(Apply(s, l), i), result)
  {
    StepKeepsCalls(s, l);
    if IsTaskLabel(l) && l.i != i {
      assert Apply(s, l).tasks[i] == s.tasks[i];
    }
  }

  lemma FetchIsCarried(s: State, l: Label)
    requires Enabled(s, l) && l.ServeFetch?
    ensures IsTask(Apply(s, l), l.i) && Carries(Apply(s, l).tasks[l.i].pc, StaleOnError(Apply(s, l), l.i), l.result)
  {
  }

  lemma SameClientSameMode(s0: State, ls: seq<Label>, i: TaskId)
    requires IsRun(s0, ls) && (IsTask(s0, i) || IsTask(Exec(s0, ls), i))
    ensures IsTask(s0, i) && IsTask(Exec(s0, ls), i) && StaleOnError(Exec(s0, ls), i) == StaleOnError(s0, i)
  {
    RunKeepsCalls(s0, ls);
  }

  /** Call `i` carries the result after the first `n` events. */
  ghost predicate CarriesAt(s0: State, ls: seq<Label>, n: nat, i: TaskId, result: FetchResult) {
    n <= |ls| && IsRun(s0, ls[..n]) && IsTask(s0, i) && IsTask(Exec(s0, ls[..n]), i) &&
    Carries(Exec(s0, ls[..n]).tasks[i].pc, StaleOnError(s0, i), result)
  }

  lemma CarriedNext(s0: State, ls: seq<Label>, n: nat, i: TaskId, result: FetchResult)
    requires IsRun(s0, ls) && n < |ls|
    requires CarriesAt(s0, ls, n, i, result) || (ls[n].ServeFetch? && ls[n].i == i && ls[n].result == result)
    ensures CarriesAt(s0, ls, n + 1, i, result)
  {
    RunPrefix(s0, ls, n);
    var before, after := Exec(s0, ls[..n]), Exec(s0, ls[..n + 1]);
    SameClientSameMode(s0, ls[..n], i);
    if CarriesAt(s0, ls, n, i, result) {
      CarriedIsKept(before, ls[n], i, result);
    } else {
      FetchIsCarried(before, ls[n]);
    }
    SameClientSameMode(s0, ls[..n + 1], i);
  }

  /** A served fetch decides how its call ends: from then on the call carries that result. */
  lemma {:induction false} FetchDecides(s0: State, ls: seq<Label>, m: nat, n: nat)
    requires IsRun(s0, ls) && m < n <= |ls| && ls[m].ServeFetch?
    ensures CarriesAt(s0, ls, n, ls[m].i, ls[m].result)
    decreases n
  {
    if m + 1 < n {
      FetchDecides(s0, ls, m, n - 1);
    }
    CarriedNext(s0, ls, n - 1, ls[m].i, ls[m].result);
  }

  /** A leader answers with the permissions Helios had when its fetch was served, whatever happens later. */
  lemma LeaderAnswersAsServed(s0: State, ls: seq<Label>, m: nat, n: nat)
    requires IsRun(s0, ls) && m < n <= |ls| && ls[m].ServeFetch? && ls[m].result.Resolved?
    ensures IsRun(s0, ls[..m]) && IsRun(s0, ls[..n]) && ls[m].i < |s0.tasks| == |Exec(s0, ls[..n]).tasks|
    ensures var pc := Exec(s0, ls[..n]).tasks[ls[m].i].pc;
            pc.Done? && pc.source.Led? ==> pc.answer == Granted(Current(Exec(s0, ls[..m]), s0.tasks[ls[m].i].id))
    ensures Exec(s0, ls[..n]).tasks[ls[m].i].pc.Done? ==> Exec(s0, ls[..n]).tasks[ls[m].i].pc.source.Led?
  {
    FetchDecides(s0, ls, m, n);
    RunPrefix(s0, ls, m);
    RunKeepsCalls(s0, ls[..m]);
    RunKeepsCalls(s0, ls[..n]);
  }

  /** Event `m` is the served fetch of call `i`. */
  predicate FetchOf(ls: seq<Label>, m: nat, i: TaskId) {
    m < |ls| && ls[m].ServeFetch? && ls[m].i == i
  }

  predicate PastFetch(pc: Pc) {
    pc.Fetched? || pc.Populating? || pc.Populated? || (pc.Done? && pc.source.Led?)
  }

  lemma {:induction false} LeaderHasFetch(s0: State, ls: seq<Label>, i: TaskId) returns (m: nat)
    requires Start(s0) && IsRun(s0, ls) && i < |Exec(s0, ls).tasks| && PastFetch(Exec(s0, ls).tasks[i].pc)
    ensures FetchOf(ls, m, i)
  {
    var before, l := Exec(s0, Front(ls)), Last(ls);
    StepKeepsCalls(before, l);
    if l.ServeFetch? && l.i == i {
      m := |ls| - 1;
    } else {
      m := LeaderHasFetch(s0, Front(ls), i);
    }
  }

  /** A call has at most one served fetch. */
  lemma FetchIsUnique(s0: State, ls: seq<Label>, m: nat, m': nat, i: TaskId)
    requires IsRun(s0, ls) && FetchOf(ls, m, i) && FetchOf(ls, m', i)
    ensures m == m'
  {
    if m < m' {
      FetchDecides(s0, ls, m, m');
      RunPrefix(s0, ls, m');
    } else if m' < m {
      FetchDecides(s0, ls, m', m);
      RunPrefix(s0, ls, m);
    }
  }

  /** The call whose fetch decides the answer of a call that did not hit. */
  function LeaderOf(i: TaskId, source: Source): TaskId {
    if source.Joined? then source.leader else i
  }

  /**
    Every answer that is not a hit is decided by one served fetch, the call's own or the one of the
    leader it joined, for the call's own membership. If the fetch brought an answer, that is what
    Helios had when it was served.
   */
  lemma AnswerIsDecidedByFetch(s0: State, ids: set<Pair>, ls: seq<Label>, i: TaskId) returns (m: nat)
    requires Start(s0) && Separated(ids) && CallsIn(s0, ids) && IsRun(s0, ls) && i < |s0.tasks|
    requires var s := Exec(s0, ls); i < |s.tasks| && s.tasks[i].pc.Done? && !s.tasks[i].pc.source.FromCache?
    ensures var pc := Exec(s0, ls).tasks[i].pc;
            && FetchOf(ls, m, LeaderOf(i, pc.source)) && IsTask(s0, i) && IsRun(s0, ls[..m])
            && pc.answer == Outcome(StaleOnError(s0, i), ls[m].result)
            && (ls[m].result.Resolved? ==> pc.answer == Granted(Current(Exec(s0, ls[..m]), s0.tasks[i].id)))
  {
    RunKeepsCalls(s0, ls);
    RunIsOwned(s0, ls);
    var s := Exec(s0, ls);
    var leader := LeaderOf(i, s.tasks[i].pc.source);
    assert FollowerFits(s, i);
    assert s.tasks[leader].pc == Done(s.tasks[i].pc.answer, Led);
    m := LeaderHasFetch(s0, ls, leader);
    FetchDecides(s0, ls, m, |ls|);
    assert ls[..|ls|] == ls;
    RunPrefix(s0, ls, m);
    RunKeepsCalls(s0, ls[..m]);
    assert s0.tasks[leader].id == s0.tasks[i].id && s0.tasks[leader].client == s0.tasks[i].client;
  }

  /**
    When a fetched answer is fresh, exactly: at any moment of the run it is the list Helios has now
    if and only if the list did not change on balance since the deciding fetch was served.
   */
  lemma FetchedAnswerIsFreshIff(s0: State, ids: set<Pair>, ls: seq<Label>, i: TaskId, m: nat)
    requires Start(s0) && Separated(ids) && CallsIn(s0, ids) && IsRun(s0, ls) && i < |s0.tasks|
    requires var s := Exec(s0, ls); i < |s.tasks| && s.tasks[i].pc.Done? && !s.tasks[i].pc.source.FromCache?
    requires FetchOf(ls, m, LeaderOf(i, Exec(s0, ls).tasks[i].pc.source)) && ls[m].result.Resolved?
    ensures IsRun(s0, ls[..m])
    ensures Exec(s0, ls).tasks[i].pc.answer == Granted(Current(Exec(s0, ls), s0.tasks[i].id)) <==>
            Current(Exec(s0, ls[..m]), s0.tasks[i].id) == Current(Exec(s0, ls), s0.tasks[i].id)
  {
    var m' := AnswerIsDecidedByFetch(s0, ids, ls, i);
    FetchIsUnique(s0, ls, m, m', LeaderOf(i, Exec(s0, ls).tasks[i].pc.source));
  }

  predicate HasStarted(s: State, i: TaskId) {
    i < |s.tasks| && !s.tasks[i].pc.Calling?
  }

  lemma StepStarts(s: State, l: Label, i: TaskId)
    requires Enabled(s, l) && (HasStarted(s, i) || (IsTaskLabel(l) && l.i == i))
    ensures HasStarted(Apply(s, l), i)
  {
    StepKeepsCalls(s, l);
  }

  lemma {:induction false} StartedStays(s0: State, ls: seq<Label>, m: nat, k: nat)
    requires IsRun(s0, ls) && m < k <= |ls| && IsTaskLabel(ls[m])
    ensures IsRun(s0, ls[..k]) && HasStarted(Exec(s0, ls[..k]), ls[m].i)
    decreases k
  {
    RunPrefix(s0, ls, k - 1);
    if m + 1 < k {
      StartedStays(s0, ls, m, k - 1);
    }
    StepStarts(Exec(s0, ls[..k - 1]), ls[k - 1], ls[m].i);
  }

  /** No event of a call comes before it starts. */
  lemma NotStartedNotServed(s0: State, ls: seq<Label>, m: nat, k: nat)
    requires IsRun(s0, ls) && m < |ls| && k <= |ls| && IsTaskLabel(ls[m])
    requires IsRun(s0, ls[..k]) && !HasStarted(Exec(s0, ls[..k]), ls[m].i)
    ensures k <= m
  {
    if m < k {
      StartedStays(s0, ls, m, k);
    }
  }

  lemma GetBeforeHit(s: State, l: Label, i: TaskId, perms: Perms)
    requires Enabled(s, l) && i < |s.tasks| && !WillAnswer(s.tasks[i].pc, perms)
    requires i < |Apply(s, l).tasks| && WillAnswer(Apply(s, l).tasks[i].pc, perms)
    requires s.tasks[i].pc.Done? ==> Apply(s, l).tasks[i].pc == s.tasks[i].pc
    ensures l == ServeGet(i, true) && CacheLookup(s, KeyOfTask(s, i)) == Some(perms)
  {
  }

  /** A hit has a served GET that found the list it answers with. */
  lemma {:induction false} HitHasGet(s0: State, ls: seq<Label>, i: TaskId, perms: Perms) returns (m: nat)
    requires Start(s0) && IsRun(s0, ls) && i < |s0.tasks|
    requires i < |Exec(s0, ls).tasks| && WillAnswer(Exec(s0, ls).tasks[i].pc, perms)
    ensures m < |ls| && ls[m] == ServeGet(i, true) && IsRun(s0, ls[..m])
    ensures CacheLookup(Exec(s0, ls[..m]), KeyOfTask(s0, i)) == Some(perms)
  {
    var before, l := Exec(s0, Front(ls)), Last(ls);
    RunKeepsCalls(s0, Front(ls));
    if WillAnswer(before.tasks[i].pc, perms) {
      m := HitHasGet(s0, Front(ls), i, perms);
      assert Front(ls)[..m] == ls[..m];
    } else {
      GetBeforeHit(before, l, i, perms);
      m := |ls| - 1;
      assert ls[..m] == Front(ls);
    }
  }

  /** From `k` on Helios keeps answering `perms`, and no write-through is due. */
  ghost predicate SteadyFrom(s0: State, ls: seq<Label>, k: nat, id: Pair, perms: Perms) {
    forall j | k <= j <= |ls| && IsRun(s0, ls[..j]) ::
      Current(Exec(s0, ls[..j]), id) == perms && !WritePending(Exec(s0, ls[..j]), id)
  }

  /** The deciding fetch of a joined leader was served before `k`, with a list that is not `perms`. */
  ghost predicate JoinedOlderFetch(s0: State, ls: seq<Label>, k: nat, i: TaskId, source: Source, perms: Perms)
    requires i < |s0.tasks|
  {
    source.Joined? &&
    exists m: nat | m < k && FetchOf(ls, m, source.leader) && ls[m].result.Resolved? ::
      IsRun(s0, ls[..m]) && Current(Exec(s0, ls[..m]), s0.tasks[i].id) != perms
  }

  /** The fetch that decides the answer brought none. */
  predicate EndedInOutage(ls: seq<Label>, i: TaskId, source: Source) {
    !source.FromCache? && exists m | 0 <= m < |ls| :: FetchOf(ls, m, LeaderOf(i, source)) && !ls[m].result.Resolved?
  }

  /**
    What a call answers that starts after a change has landed, exactly: under the conditions of
    quiescent coherence, and but for an outage, it answers with the new list if and only if it does
    not join a leader whose fetch was served earlier with another list.
   */
  lemma AnswerAfterChange(s0: State, ids: set<Pair>, ls: seq<Label>, k: nat, i: TaskId, perms: Perms)
    requires Start(s0) && Separated(ids) && CallsIn(s0, ids) && IsRun(s0, ls) && OrderlyRun(s0, ids, ls)
    requires k <= |ls| && IsRun(s0, ls[..k]) && i < |s0.tasks| && i < |Exec(s0, ls[..k]).tasks|
    requires Exec(s0, ls[..k]).tasks[i].pc.Calling? && SteadyFrom(s0, ls, k, s0.tasks[i].id, perms)
    requires i < |Exec(s0, ls).tasks| && Exec(s0, ls).tasks[i].pc.Done?
    ensures var pc := Exec(s0, ls).tasks[i].pc;
            if EndedInOutage(ls, i, pc.source) then pc.answer == Granted([]) || !pc.answer.Granted?
            else pc.answer == Granted(perms) <==> !JoinedOlderFetch(s0, ls, k, i, pc.source, perms)
  {
    var pc, id := Exec(s0, ls).tasks[i].pc, s0.tasks[i].id;
    if pc.source.FromCache? {
      HitAnswersGranted(s0, ls, i);
      var m := HitHasGet(s0, ls, i, pc.answer.perms);
      NotStartedNotServed(s0, ls, m, k);
      OrderlyPrefix(s0, ids, ls, m);
      QuiescentCoherence(s0, ids, ls[..m], id);
    } else {
      var leader := LeaderOf(i, pc.source);
      var m := AnswerIsDecidedByFetch(s0, ids, ls, i);
      forall m': nat | FetchOf(ls, m', leader)
        ensures m' == m
      {
        FetchIsUnique(s0, ls, m, m', leader);
      }
      if pc.source.Led? {
        NotStartedNotServed(s0, ls, m, k);
      }
    }
  }

  lemma {:induction false} HitAnswersGranted(s0: State, ls: seq<Label>, i: TaskId)
    requires Start(s0) && IsRun(s0, ls) && i < |Exec(s0, ls).tasks|
    ensures Exec(s0, ls).tasks[i].pc.Done? && Exec(s0, ls).tasks[i].pc.source.FromCache? ==>
              Exec(s0, ls).tasks[i].pc.answer.Granted?
  {
    if ls != [] {
      StepKeepsCalls(Exec(s0, Front(ls)), Last(ls));
      HitAnswersGranted(s0, Front(ls), i);
    }
  }

  /**
    `explain` on the result that decided an answer says the same as the answer, if and only if that
    result is not a body of a fourth status, or without a role, that lists the permission.
   */
  lemma ExplainMatchesAnswer(
    s0: State, ids: set<Pair>, ls: seq<Label>, i: TaskId, roles: set<string>, perm: string) returns (m: nat)
    requires Start(s0) && Separated(ids) && CallsIn(s0, ids) && IsRun(s0, ls) && i < |s0.tasks|
    requires var s := Exec(s0, ls); i < |s.tasks| && s.tasks[i].pc.Done? && !s.tasks[i].pc.source.FromCache?
    ensures FetchOf(ls, m, LeaderOf(i, Exec(s0, ls).tasks[i].pc.source))
    ensures (SaysYes(Exec(s0, ls), i, perm) <==> ExplainGrants(roles, ls[m].result, perm)) <==>
            !OtherStatusLists(ls[m].result, perm) && !RolelessLists(ls[m].result, perm)
  {
    m := AnswerIsDecidedByFetch(s0, ids, ls, i);
    ExplainAgreesWithDecision(roles, ls[m].result, perm);
  }
}
