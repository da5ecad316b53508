/**
  Calls that start after a change has landed: when does every one of them answer with the new list?
  The condition is on the state in which the call starts.
 */
module LateCalls {
  import opened Prelude
  import opened Keys
  import opened Helios
  import opened Client
  import opened Protocol
  import opened Ownership
  import opened Liveness
  import opened Coherence
  import opened Freshness

  /** Call `j`, of the client of call `i` and for its key, leads with a list that is not `perms`. */
  predicate LeadsWithOther(s: State, i: TaskId, j: TaskId, perms: Perms) {
    SameSlot(s, i, j) && Bearing(s.tasks[j].pc).Some? && Bearing(s.tasks[j].pc).value != perms
  }

  predicate NotFollowing(s: State, i: TaskId, f: TaskId) {
    i < |s.tasks| && s.tasks[i].pc != Waiting(f) && !(s.tasks[i].pc.Done? && s.tasks[i].pc.source == Joined(f))
  }

  predicate HasEnded(s: State, f: TaskId) {
    f < |s.tasks| && s.tasks[f].pc.Done?
  }

  lemma JoinedIsLive(s: State, i: TaskId)
    requires Owned(s) && IsTask(s, i) && KeyOfTask(s, i) in ClientOf(s, i).inFlight
    ensures !HasEnded(s, ClientOf(s, i).inFlight[KeyOfTask(s, i)])
  {
    assert LiveLeader(s, s.tasks[i].client, KeyOfTask(s, i), ClientOf(s, i).inFlight[KeyOfTask(s, i)]);
  }

  lemma EndedIsNotFollowed(s: State, l: Label, i: TaskId, f: TaskId)
    requires Enabled(s, l) && Owned(s) && HasEnded(s, f) && NotFollowing(s, i, f)
    ensures HasEnded(Apply(s, l), f) && NotFollowing(Apply(s, l), i, f)
  {
    StepKeepsCalls(s, l);
    if l == ResumeGet(i) && KeyOfTask(s, i) in ClientOf(s, i).inFlight {
      JoinedIsLive(s, i);
    }
  }

  /** A leader that has ended when a call starts is never joined by it. */
  lemma {:induction false} EndedIsNeverJoined(s0: State, ls: seq<Label>, k: nat, n: nat, i: TaskId, f: TaskId)
    requires Start(s0) && IsRun(s0, ls) && k <= n <= |ls| && IsRun(s0, ls[..k])
    requires HasEnded(Exec(s0, ls[..k]), f) && NotFollowing(Exec(s0, ls[..k]), i, f)
    ensures IsRun(s0, ls[..n]) && HasEnded(Exec(s0, ls[..n]), f) && NotFollowing(Exec(s0, ls[..n]), i, f)
    decreases n
  {
    if k < n {
      RunPrefix(s0, ls, n - 1);
      EndedIsNeverJoined(s0, ls, k, n - 1, i, f);
      RunIsOwned(s0, ls[..n - 1]);
      EndedIsNotFollowed(Exec(s0, ls[..n - 1]), ls[n - 1], i, f);
    }
  }

  /** What a leader bears after its fetch was served. */
  lemma CarriedIsBorne(s: State, f: TaskId, mode: bool, result: FetchResult)
    requires f < |s.tasks| && Carries(s.tasks[f].pc, mode, result) && result.Resolved?
    ensures HasEnded(s, f) || Bearing(s.tasks[f].pc) == Some(ToPerms(result.resolution))
  {
  }

  lemma ServedIsCurrent(s0: State, ls: seq<Label>, m: nat)
    requires IsRun(s0, ls) && m < |ls| && ls[m].ServeFetch? && ls[m].result.Resolved?
    ensures IsRun(s0, ls[..m]) && ls[m].i < |s0.tasks|
    ensures Current(Exec(s0, ls[..m]), s0.tasks[ls[m].i].id) == ToPerms(ls[m].result.resolution)
  {
    RunPrefix(s0, ls, m);
    RunKeepsCalls(s0, ls[..m]);
  }

  lemma SlotsAreKept(s0: State, ls: seq<Label>, k: nat, i: TaskId, j: TaskId)
    requires IsRun(s0, ls) && k <= |ls| && IsRun(s0, ls[..k]) && SameSlot(Exec(s0, ls), i, j)
    ensures SameSlot(Exec(s0, ls[..k]), i, j)
    ensures i < |s0.tasks| && j < |s0.tasks| && KeyOf(s0.tasks[i].id) == KeyOf(s0.tasks[j].id)
  {
    RunKeepsCalls(s0, ls);
    RunKeepsCalls(s0, ls[..k]);
  }

  /** A leader that a call joins after it started had not ended by then. */
  lemma JoinedHadNotEnded(s0: State, ls: seq<Label>, k: nat, i: TaskId, f: TaskId)
    requires Start(s0) && IsRun(s0, ls) && k <= |ls| && IsRun(s0, ls[..k])
    requires i < |Exec(s0, ls[..k]).tasks| && Exec(s0, ls[..k]).tasks[i].pc.Calling?
    requires i < |Exec(s0, ls).tasks| && Exec(s0, ls).tasks[i].pc.Done? && Exec(s0, ls).tasks[i].pc.source == Joined(f)
    ensures !HasEnded(Exec(s0, ls[..k]), f)
  {
    assert ls[..|ls|] == ls;
    if HasEnded(Exec(s0, ls[..k]), f) {
      EndedIsNeverJoined(s0, ls, k, |ls|, i, f);
    }
  }

  /** A leader whose fetch was served before `k`, and who has not ended by then, bears that list. */
  lemma ServedLeaderBears(s0: State, ls: seq<Label>, m: nat, k: nat)
    requires IsRun(s0, ls) && m < k <= |ls| && ls[m].ServeFetch? && ls[m].result.Resolved?
    ensures IsRun(s0, ls[..m]) && IsRun(s0, ls[..k]) && ls[m].i < |Exec(s0, ls[..k]).tasks| == |s0.tasks|
    ensures HasEnded(Exec(s0, ls[..k]), ls[m].i) ||
            Bearing(Exec(s0, ls[..k]).tasks[ls[m].i].pc) == Some(Current(Exec(s0, ls[..m]), s0.tasks[ls[m].i].id))
  {
    FetchDecides(s0, ls, m, k);
    ServedIsCurrent(s0, ls, m);
    RunKeepsCalls(s0, ls[..k]);
    CarriedIsBorne(Exec(s0, ls[..k]), ls[m].i, StaleOnError(s0, ls[m].i), ls[m].result);
  }

  /** A joined older fetch was, when the call started, with a leader that still bore its list. */
  lemma JoinedLeaderWasBearing(s0: State, ids: set<Pair>, ls: seq<Label>, k: nat, i: TaskId, perms: Perms)
    returns (j: TaskId)
    requires Start(s0) && Separated(ids) && CallsIn(s0, ids) && IsRun(s0, ls) && i < |s0.tasks|
    requires k <= |ls| && IsRun(s0, ls[..k]) && i < |Exec(s0, ls[..k]).tasks| && Exec(s0, ls[..k]).tasks[i].pc.Calling?
    requires i < |Exec(s0, ls).tasks| && Exec(s0, ls).tasks[i].pc.Done?
    requires JoinedOlderFetch(s0, ls, k, i, Exec(s0, ls).tasks[i].pc.source, perms)
    ensures LeadsWithOther(Exec(s0, ls[..k]), i, j, perms)
  {
    j := Exec(s0, ls).tasks[i].pc.source.leader;
    var m: nat :| m < k && FetchOf(ls, m, j) && ls[m].result.Resolved? &&
                  IsRun(s0, ls[..m]) && Current(Exec(s0, ls[..m]), s0.tasks[i].id) != perms;
    LeaderIsOfSlot(s0, ls, i);
    SlotsAreKept(s0, ls, k, i, j);
    assert s0.tasks[j].id == s0.tasks[i].id;
    JoinedHadNotEnded(s0, ls, k, i, j);
    ServedLeaderBears(s0, ls, m, k);
  }

  lemma LeaderIsOfSlot(s0: State, ls: seq<Label>, i: TaskId)
    requires Start(s0) && IsRun(s0, ls) && i < |Exec(s0, ls).tasks|
    requires Exec(s0, ls).tasks[i].pc.Done? && Exec(s0, ls).tasks[i].pc.source.Joined?
    ensures SameSlot(Exec(s0, ls), i, Exec(s0, ls).tasks[i].pc.source.leader)
  {
    RunIsOwned(s0, ls);
    assert FollowerFits(Exec(s0, ls), i);
  }

  /** Call `i` misses by a failed GET and joins leader `j`. */
  lemma MissAndJoin(s: State, i: TaskId, j: TaskId) returns (ls: seq<Label>)
    requires Owned(s) && IsTask(s, i) && s.tasks[i].pc.Calling? && SameSlot(s, i, j) && Live(s.tasks[j].pc)
    ensures ls == [ServeGet(i, false), ResumeGet(i)] && IsRun(s, ls)
    ensures Exec(s, ls) == SetPc(s, i, Waiting(j))
  {
    assert OwnsEntry(s, j);
    ls := [ServeGet(i, false), ResumeGet(i)];
    var t := Apply(s, ServeGet(i, false));
    assert t == SetPc(s, i, GotReply(None));
    var u := Apply(t, ResumeGet(i));
    assert u.clients == s.clients && u.tasks == SetPc(s, i, Waiting(j)).tasks;
    RunOfTwo(s, ServeGet(i, false), ResumeGet(i));
  }

  /** Then the leader finishes, and the call answers with its list. */
  lemma FinishAndWake(s: State, i: TaskId, j: TaskId) returns (ls: seq<Label>)
    requires IsTask(s, i) && IsTask(s, j) && s.tasks[i].client == s.tasks[j].client
    requires s.tasks[i].pc == Waiting(j) && Bearing(s.tasks[j].pc).Some?
    ensures IsRun(s, ls) && forall l | l in ls :: IsTaskLabel(l) && !l.ServeFetch?
    ensures i < |Exec(s, ls).tasks|
    ensures Exec(s, ls).tasks[i].pc == Done(Granted(Bearing(s.tasks[j].pc).value), Joined(j))
  {
    var finish := LeaderFinishes(s, j);
    var t := Exec(s, finish);
    assert t.tasks[i] == s.tasks[i];
    RunOfOne(t, Wake(i));
    RunConcat(s, finish, [Wake(i)]);
    ls := finish + [Wake(i)];
  }

  /** A call that starts beside such a leader can end with the leader's list, by steps of calls alone. */
  lemma CanAnswerWithOther(s: State, i: TaskId, j: TaskId) returns (ls: seq<Label>)
    requires Owned(s) && IsTask(s, i) && s.tasks[i].pc.Calling?
    requires SameSlot(s, i, j) && Bearing(s.tasks[j].pc).Some?
    ensures IsRun(s, ls) && forall l | l in ls :: IsTaskLabel(l) && !l.ServeFetch?
    ensures i < |Exec(s, ls).tasks|
    ensures Exec(s, ls).tasks[i].pc == Done(Granted(Bearing(s.tasks[j].pc).value), Joined(j))
  {
    assert OwnsEntry(s, j);
    var join := MissAndJoin(s, i, j);
    var t := Exec(s, join);
    var finish := FinishAndWake(t, i, j);
    RunConcat(s, join, finish);
    ls := join + finish;
  }

  lemma {:induction false} CallStepsKeepRows(s: State, ls: seq<Label>)
    requires IsRun(s, ls) && forall l | l in ls :: IsTaskLabel(l)
    ensures Exec(s, ls).rows == s.rows
  {
    if ls != [] {
      CallStepsKeepRows(s, Front(ls));
      assert Last(ls) in ls;
    }
  }

  lemma CallStepsKeepRowsAt(s0: State, ls: seq<Label>, more: seq<Label>, n: nat)
    requires IsRun(s0, ls) && IsRun(Exec(s0, ls), more) && (forall l | l in more :: IsTaskLabel(l))
    requires |ls| <= n <= |ls + more|
    ensures IsRun(s0, (ls + more)[..n]) && Exec(s0, (ls + more)[..n]).rows == Exec(s0, ls).rows
  {
    var part := more[..n - |ls|];
    RunPrefix(Exec(s0, ls), more, n - |ls|);
    RunConcat(s0, ls, part);
    PrefixOfConcat(ls, more, n);
    CallStepsKeepRows(Exec(s0, ls), part);
  }

  lemma PrefixOfConcat(ls: seq<Label>, more: seq<Label>, n: nat)
    requires |ls| <= n <= |ls + more|
    ensures (ls + more)[..n] == ls + more[..n - |ls|]
  {
  }

  lemma SameRowsSameList(s: State, t: State, id: Pair)
    requires t.rows == s.rows
    ensures Current(t, id) == Current(s, id) && WritePending(t, id) == WritePending(s, id)
  {
  }

  /** Steps of calls leave Helios as it is. */
  lemma CallStepsAreSteady(s0: State, ls: seq<Label>, more: seq<Label>, id: Pair)
    requires IsRun(s0, ls) && IsRun(Exec(s0, ls), more) && (forall l | l in more :: IsTaskLabel(l))
    requires !WritePending(Exec(s0, ls), id)
    ensures SteadyFrom(s0, ls + more, |ls|, id, Current(Exec(s0, ls), id))
  {
    var run := ls + more;
    forall n | |ls| <= n <= |run|
      ensures IsRun(s0, run[..n])
      ensures Current(Exec(s0, run[..n]), id) == Current(Exec(s0, ls), id) && !WritePending(Exec(s0, run[..n]), id)
    {
      CallStepsKeepRowsAt(s0, ls, more, n);
      SameRowsSameList(Exec(s0, ls), Exec(s0, run[..n]), id);
    }
  }

  ghost predicate AnsweredButForOutage(s0: State, ls: seq<Label>, i: TaskId) {
    IsRun(s0, ls) && i < |Exec(s0, ls).tasks| && Exec(s0, ls).tasks[i].pc.Done? &&
    !EndedInOutage(ls, i, Exec(s0, ls).tasks[i].pc.source)
  }

  /** The run goes on in order, with the list of `id` unchanged and no write-through due. */
  ghost predicate Continues(s0: State, ids: set<Pair>, ls: seq<Label>, more: seq<Label>, id: Pair, perms: Perms) {
    IsRun(s0, ls + more) && OrderlyRun(s0, ids, ls + more) && SteadyFrom(s0, ls + more, |ls|, id, perms)
  }

  /** However the run goes on, call `i` answers with `perms`, but for an outage. */
  ghost predicate AlwaysAnswers(s0: State, ids: set<Pair>, ls: seq<Label>, i: TaskId, perms: Perms)
    requires i < |s0.tasks|
  {
    forall more | Continues(s0, ids, ls, more, s0.tasks[i].id, perms) && AnsweredButForOutage(s0, ls + more, i) ::
      Exec(s0, ls + more).tasks[i].pc.answer == Granted(perms)
  }

  /** A leader that bears a list when `ls` ends has not been decided by an outage. */
  lemma BearerHadAnswer(s0: State, ls: seq<Label>, more: seq<Label>, j: TaskId, m: nat)
    requires IsRun(s0, ls) && IsRun(s0, ls + more)
    requires j < |Exec(s0, ls).tasks| && Bearing(Exec(s0, ls).tasks[j].pc).Some?
    requires (forall l | l in more :: !l.ServeFetch?) && FetchOf(ls + more, m, j)
    ensures (ls + more)[m].result.Resolved?
  {
    FetchIsInFirst(ls, more, m, j);
    FetchDecides(s0, ls, m, |ls|);
    assert ls[..|ls|] == ls;
  }

  lemma FetchIsInFirst(ls: seq<Label>, more: seq<Label>, m: nat, j: TaskId)
    requires (forall l | l in more :: !l.ServeFetch?) && FetchOf(ls + more, m, j)
    ensures FetchOf(ls, m, j) && ls[m] == (ls + more)[m]
  {
    assert forall n | 0 <= n < |more| :: more[n] in more;
  }

  lemma OtherListIsAnswered(s0: State, ids: set<Pair>, ls: seq<Label>, i: TaskId, j: TaskId, perms: Perms)
    requires Start(s0) && IsRun(s0, ls) && OrderlyRun(s0, ids, ls) && i < |s0.tasks|
    requires IsTask(Exec(s0, ls), i) && Exec(s0, ls).tasks[i].pc.Calling?
    requires Current(Exec(s0, ls), s0.tasks[i].id) == perms && !WritePending(Exec(s0, ls), s0.tasks[i].id)
    requires LeadsWithOther(Exec(s0, ls), i, j, perms)
    ensures !AlwaysAnswers(s0, ids, ls, i, perms)
  {
    RunIsOwned(s0, ls);
    var more := CanAnswerWithOther(Exec(s0, ls), i, j);
    RunConcat(s0, ls, more);
    CallStepsKeepOrderly(s0, ids, ls, more);
    CallStepsAreSteady(s0, ls, more, s0.tasks[i].id);
    assert Continues(s0, ids, ls, more, s0.tasks[i].id, perms);
    forall m | 0 <= m < |ls + more| && FetchOf(ls + more, m, j)
      ensures (ls + more)[m].result.Resolved?
    {
      BearerHadAnswer(s0, ls, more, j, m);
    }
    assert AnsweredButForOutage(s0, ls + more, i);
  }

  /**
    When does every call that starts now answer with the list the change has left? In any state of an
    orderly run in which that list is written through: if and only if no leader of the call's client
    and key is on its way with another list. However the run goes on while the list stays, the call
    then answers with it, but for an outage; otherwise it can join that leader and answer with the
    other list.
   */
  lemma LateCallIsFreshIff(s0: State, ids: set<Pair>, ls: seq<Label>, i: TaskId, perms: Perms)
    requires Start(s0) && Separated(ids) && CallsIn(s0, ids) && IsRun(s0, ls) && OrderlyRun(s0, ids, ls)
    requires i < |s0.tasks| && IsTask(Exec(s0, ls), i) && Exec(s0, ls).tasks[i].pc.Calling?
    requires Current(Exec(s0, ls), s0.tasks[i].id) == perms && !WritePending(Exec(s0, ls), s0.tasks[i].id)
    ensures AlwaysAnswers(s0, ids, ls, i, perms) <==> forall j :: !LeadsWithOther(Exec(s0, ls), i, j, perms)
  {
    if j :| LeadsWithOther(Exec(s0, ls), i, j, perms) {
      OtherListIsAnswered(s0, ids, ls, i, j, perms);
    } else {
      forall more | Continues(s0, ids, ls, more, s0.tasks[i].id, perms) && AnsweredButForOutage(s0, ls + more, i)
        ensures Exec(s0, ls + more).tasks[i].pc.answer == Granted(perms)
      {
        var run := ls + more;
        assert run[..|ls|] == ls;
        AnswerAfterChange(s0, ids, run, |ls|, i, perms);
        if JoinedOlderFetch(s0, run, |ls|, i, Exec(s0, run).tasks[i].pc.source, perms) {
          var j := JoinedLeaderWasBearing(s0, ids, run, |ls|, i, perms);
        }
      }
    }
  }
}
