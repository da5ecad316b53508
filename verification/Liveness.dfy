/**
  Termination: calls take finitely many steps whatever the environment does in between, and a
  call that can take no step is answered, or waits for a leader that left without settling.
 */
module Liveness {
  import opened Prelude
  import opened Helios
  import opened Client
  import opened Protocol
  import opened Ownership

  /** The steps a call still has in front of it, at most. */
  function Rank(pc: Pc): nat {
    match pc
    case Calling => 6
    case GotReply(_) => 5
    case Fetching => 4
    case Fetched(_, _) => 3
    case Populating(_, _) => 2
    case Populated(_) => 1
    case Waiting(_) => 1
    case Done(_, _) => 0
  }

  function RankSum(tasks: seq<Task>): nat {
    if tasks == [] then 0 else RankSum(Front(tasks)) + Rank(Last(tasks).pc)
  }

  lemma {:induction false} RankSumOfUpdate(tasks: seq<Task>, i: nat, t: Task)
    requires i < |tasks|
    ensures RankSum(tasks[i := t]) + Rank(tasks[i].pc) == RankSum(tasks) + Rank(t.pc)
  {
    var updated := tasks[i := t];
    if i == |tasks| - 1 {
      assert Front(updated) == Front(tasks);
    } else {
      assert Front(updated) == Front(tasks)[i := t];
      RankSumOfUpdate(Front(tasks), i, t);
    }
  }

  lemma {:induction false} RankSumAtMost(tasks: seq<Task>)
    requires forall i | 0 <= i < |tasks| :: tasks[i].pc.Calling?
    ensures RankSum(tasks) == 6 * |tasks|
  {
    if tasks != [] {
      RankSumAtMost(Front(tasks));
    }
  }

  /** Every step of a call makes the summed rank smaller; the environment leaves it alone. */
  lemma StepDecreasesRank(s: State, l: Label)
    requires Enabled(s, l)
    ensures IsTaskLabel(l) ==> RankSum(Apply(s, l).tasks) < RankSum(s.tasks)
    ensures !IsTaskLabel(l) ==> RankSum(Apply(s, l).tasks) == RankSum(s.tasks)
  {
    if IsTaskLabel(l) {
      var t := Apply(s, l).tasks[l.i];
      assert Apply(s, l).tasks == s.tasks[l.i := t];
      assert Rank(t.pc) < Rank(s.tasks[l.i].pc);
      RankSumOfUpdate(s.tasks, l.i, t);
    }
  }

  function CallSteps(ls: seq<Label>): nat {
    if ls == [] then 0 else CallSteps(Front(ls)) + if IsTaskLabel(Last(ls)) then 1 else 0
  }

  /** In every run, of any length and with any environment, `n` calls take at most `6 n` steps. */
  lemma {:induction false} CallStepsBounded(s0: State, ls: seq<Label>)
    requires Start(s0) && IsRun(s0, ls)
    ensures CallSteps(ls) + RankSum(Exec(s0, ls).tasks) <= 6 * |s0.tasks|
  {
    if ls == [] {
      RankSumAtMost(s0.tasks);
    } else {
      CallStepsBounded(s0, Front(ls));
      StepDecreasesRank(Exec(s0, Front(ls)), Last(ls));
    }
  }

  ghost predicate CanStep(s: State) {
    exists l :: IsTaskLabel(l) && Enabled(s, l)
  }

  predicate Answered(s: State, i: TaskId) {
    i < |s.tasks| && s.tasks[i].pc.Done?
  }

  /** The call joined a leader whose fetch ended in an exception other than HeliosUnreachableError. */
  predicate Stranded(s: State, i: TaskId) {
    i < |s.tasks| && s.tasks[i].pc.Waiting? && s.tasks[i].pc.leader < |s.tasks| &&
    s.tasks[s.tasks[i].pc.leader].pc == Done(RaisedOther, Led)
  }

  /** The next event of a call that is neither answered nor waiting. */
  function NextLabel(s: State, i: TaskId): (l: Label)
    requires IsTask(s, i) && !s.tasks[i].pc.Done? && !s.tasks[i].pc.Waiting?
    ensures IsTaskLabel(l) && Enabled(s, l) && !IsMalformed(l)
  {
    match s.tasks[i].pc
    case Calling => ServeGet(i, true)
    case GotReply(_) => ResumeGet(i)
    case Fetching => ServeFetch(i, 0, Unreachable)
    case Fetched(_, _) => ResumeFetch(i)
    case Populating(_, _) => ServeSet(i, true)
    case Populated(_) => ResumeSet(i)
  }

  predicate IsMalformed(l: Label) {
    l.ServeFetch? && l.result.Malformed?
  }

  /**
    A call that is neither answered nor stranded makes some call step: itself, or the leader it
    waits for.
   */
  lemma Progress(s: State, i: TaskId) returns (l: Label)
    requires Owned(s) && i < |s.tasks| && !Answered(s, i) && !Stranded(s, i)
    ensures IsTaskLabel(l) && Enabled(s, l) && !IsMalformed(l)
  {
    assert FollowerFits(s, i);
    if s.tasks[i].pc.Waiting? {
      var leader := s.tasks[i].pc.leader;
      assert FutureLed(s, s.tasks[i].client, leader) && FollowerFits(s, leader);
      if ClientOf(s, i).futures[leader].Pending? {
        l := NextLabel(s, leader);
      } else {
        l := Wake(i);
      }
    } else {
      l := NextLabel(s, i);
    }
  }

  /**
    When no call can step, every call is answered or stranded. A follower whose leader is still
    at work does not block: the leader can step.
   */
  lemma NoStepMeansAnsweredOrStranded(s0: State, ls: seq<Label>, i: TaskId)
    requires Start(s0) && IsRun(s0, ls) && i < |s0.tasks| && !CanStep(Exec(s0, ls))
    ensures Answered(Exec(s0, ls), i) || Stranded(Exec(s0, ls), i)
  {
    RunIsOwned(s0, ls);
    RunKeepsCalls(s0, ls);
    if !Answered(Exec(s0, ls), i) && !Stranded(Exec(s0, ls), i) {
      var l := Progress(Exec(s0, ls), i);
      assert false;
    }
  }

  /** Some leader's fetch ended in an exception other than HeliosUnreachableError. */
  ghost predicate SomeMalformed(ls: seq<Label>) {
    exists j | 0 <= j < |ls| :: IsMalformed(ls[j])
  }

  predicate NotCrashing(s: State, i: TaskId) {
    i < |s.tasks| ==>
      var pc := s.tasks[i].pc;
      !(pc.Done? && pc.answer.RaisedOther?) && !(pc.Fetched? && pc.result.Malformed?)
  }

  lemma StepKeepsNotCrashing(s: State, l: Label, i: TaskId)
    requires Enabled(s, l) && NotCrashing(s, i) && !IsMalformed(l)
    ensures NotCrashing(Apply(s, l), i)
  {
  }

  lemma {:induction false} CrashesComeFromMalformed(s0: State, ls: seq<Label>, i: TaskId)
    requires Start(s0) && IsRun(s0, ls) && i < |s0.tasks| && !SomeMalformed(ls)
    ensures |Exec(s0, ls).tasks| == |s0.tasks| && NotCrashing(Exec(s0, ls), i)
  {
    if ls != [] {
      assert forall j | 0 <= j < |Front(ls)| :: Front(ls)[j] == ls[j];
      CrashesComeFromMalformed(s0, Front(ls), i);
      assert Last(ls) == ls[|ls| - 1];
      StepKeepsNotCrashing(Exec(s0, Front(ls)), Last(ls), i);
      StepKeepsCalls(Exec(s0, Front(ls)), Last(ls));
    }
  }

  /**
    No deadlock: when every fetch ends in an answer or in HeliosUnreachableError, a state in which
    some call is unanswered lets some call step. With `CallStepsBounded`, every run that goes on as
    long as a call can step ends with all calls answered.
   */
  lemma UnansweredCanStep(s0: State, ls: seq<Label>)
    requires Start(s0) && IsRun(s0, ls) && !SomeMalformed(ls)
    ensures CanStep(Exec(s0, ls)) <==> exists i | 0 <= i < |s0.tasks| :: !Answered(Exec(s0, ls), i)
  {
    var s := Exec(s0, ls);
    RunKeepsCalls(s0, ls);
    if CanStep(s) {
      var l :| IsTaskLabel(l) && Enabled(s, l);
      assert !Answered(s, l.i);
    } else {
      forall i | 0 <= i < |s0.tasks|
        ensures Answered(s, i)
      {
        NoStepMeansAnsweredOrStranded(s0, ls, i);
        if Stranded(s, i) {
          CrashesComeFromMalformed(s0, ls, s.tasks[i].pc.leader);
          assert false;
        }
      }
    }
  }

  lemma NotStranded(s0: State, ls: seq<Label>, i: TaskId)
    requires Start(s0) && IsRun(s0, ls) && !SomeMalformed(ls) && i < |s0.tasks|
    ensures !Stranded(Exec(s0, ls), i)
  {
    RunKeepsCalls(s0, ls);
    if Stranded(Exec(s0, ls), i) {
      CrashesComeFromMalformed(s0, ls, Exec(s0, ls).tasks[i].pc.leader);
    }
  }

  lemma StillNoneMalformed(ls: seq<Label>, l: Label)
    requires !SomeMalformed(ls) && !IsMalformed(l)
    ensures !SomeMalformed(ls + [l])
  {
  }

  /** An unanswered call gives the run a next step of some call. */
  lemma OneMoreStep(s0: State, ls: seq<Label>, i: TaskId) returns (l: Label)
    requires Start(s0) && IsRun(s0, ls) && !SomeMalformed(ls)
    requires i < |s0.tasks| && !Answered(Exec(s0, ls), i)
    ensures IsTaskLabel(l) && IsRun(s0, ls + [l]) && !SomeMalformed(ls + [l])
    ensures RankSum(Exec(s0, ls + [l]).tasks) < RankSum(Exec(s0, ls).tasks)
  {
    RunIsOwned(s0, ls);
    RunKeepsCalls(s0, ls);
    NotStranded(s0, ls, i);
    l := Progress(Exec(s0, ls), i);
    RunExtends(s0, ls, l);
    StillNoneMalformed(ls, l);
    StepDecreasesRank(Exec(s0, ls), l);
  }

  lemma AppendAssociates(ls: seq<Label>, l: Label, rest: seq<Label>)
    ensures ls + [l] + rest == ls + ([l] + rest)
  {
  }

  ghost predicate AllAnswered(s: State, n: nat) {
    forall i | 0 <= i < n :: Answered(s, i)
  }

  /**
    And every such run can in fact be finished by steps of the calls alone: whatever happened so
    far, all calls can still be answered.
   */
  lemma {:induction false} EveryRunCanBeFinished(s0: State, ls: seq<Label>) returns (more: seq<Label>)
    requires Start(s0) && IsRun(s0, ls) && !SomeMalformed(ls)
    ensures IsRun(s0, ls + more) && forall l | l in more :: IsTaskLabel(l)
    ensures AllAnswered(Exec(s0, ls + more), |s0.tasks|)
    decreases RankSum(Exec(s0, ls).tasks)
  {
    if AllAnswered(Exec(s0, ls), |s0.tasks|) {
      more := [];
      assert ls + more == ls;
    } else {
      var i :| 0 <= i < |s0.tasks| && !Answered(Exec(s0, ls), i);
      var l := OneMoreStep(s0, ls, i);
      var rest := EveryRunCanBeFinished(s0, ls + [l]);
      more := [l] + rest;
      AppendAssociates(ls, l, rest);
    }
  }

  lemma StrandedCannotWake(s: State, i: TaskId)
    requires Owned(s) && Stranded(s, i)
    ensures !Enabled(s, Wake(i))
  {
    assert FollowerFits(s, i);
    assert FutureLed(s, s.tasks[i].client, s.tasks[i].pc.leader);
  }

  lemma OnlyWakeEndsWaiting(s: State, l: Label, i: TaskId)
    requires Enabled(s, l) && i < |s.tasks| && s.tasks[i].pc.Waiting? && l != Wake(i)
    ensures i < |Apply(s, l).tasks| && Apply(s, l).tasks[i].pc == s.tasks[i].pc
  {
  }

  lemma StepKeepsStranded(s: State, l: Label, i: TaskId)
    requires Owned(s) && Enabled(s, l) && Stranded(s, i)
    ensures Stranded(Apply(s, l), i)
  {
    StrandedCannotWake(s, i);
    OnlyWakeEndsWaiting(s, l, i);
    StepKeepsCalls(s, l);
  }

  /** The list a leader has on its way to the cache and to its followers. */
  function Bearing(pc: Pc): Option<Perms> {
    match pc
    case Fetched(_, Resolved(resolution)) => Some(ToPerms(resolution))
    case Populating(perms, _) => Some(perms)
    case Populated(perms) => Some(perms)
    case _ => None
  }

  /** Only call `j` moves, and nothing leaves the cache. */
  ghost predicate OnlyMoves(s: State, t: State, j: TaskId) {
    && |t.tasks| == |s.tasks| && t.rows == s.rows && s.clients.Keys <= t.clients.Keys
    && (forall i | 0 <= i < |s.tasks| && i != j :: t.tasks[i] == s.tasks[i])
    && (j < |s.tasks| ==> t.tasks[j].id == s.tasks[j].id && t.tasks[j].client == s.tasks[j].client)
    && s.cache.Keys <= t.cache.Keys
  }

  /** A step of leader `j` in which its fetch or populate does not fail. */
  predicate Undisturbed(l: Label, j: TaskId) {
    IsTaskLabel(l) && l.i == j && !l.ServeGet? && (l.ServeFetch? ==> l.result.Resolved?) && (l.ServeSet? ==> l.ok)
  }

  /** Leader `j` has left: its key is released, and if it bore a list it answered with that. */
  predicate HasLeft(t: State, j: TaskId, bore: Option<Perms>) {
    IsTask(t, j) && KeyOfTask(t, j) !in ClientOf(t, j).inFlight &&
    t.tasks[j].pc.Done? && t.tasks[j].pc.source == Led &&
    (bore.Some? ==>
      t.tasks[j].pc.answer == Granted(bore.value) &&
      j in ClientOf(t, j).futures && ClientOf(t, j).futures[j] == HasResult(bore.value))
  }

  lemma LeaderMoves(s: State, j: TaskId) returns (l: Label)
    requires IsTask(s, j) && Live(s.tasks[j].pc)
    ensures Enabled(s, l) && Undisturbed(l, j) && OnlyMoves(s, Apply(s, l), j) && IsTask(Apply(s, l), j)
    ensures Bearing(s.tasks[j].pc).Some? ==> !l.ServeFetch?
    ensures var pc := Apply(s, l).tasks[j].pc;
            if Live(pc)
            then Rank(pc) < Rank(s.tasks[j].pc) &&
                 (Bearing(s.tasks[j].pc).Some? ==> Bearing(pc) == Bearing(s.tasks[j].pc))
            else HasLeft(Apply(s, l), j, Bearing(s.tasks[j].pc))
  {
    match s.tasks[j].pc {
      case Fetching =>
        var versions := RowOf(s, s.tasks[j].id).versions;
        l := ServeFetch(j, |versions| - 1, Resolved(Last(versions)));
      case Fetched(_, _) => l := ResumeFetch(j);
      case Populating(_, _) => l := ServeSet(j, true);
      case Populated(_) => l := ResumeSet(j);
    }
  }

  /** A live leader can always finish by its own steps, without a failure. */
  lemma {:induction false} LeaderFinishes(s: State, j: TaskId) returns (ls: seq<Label>)
    requires IsTask(s, j) && Live(s.tasks[j].pc)
    ensures IsRun(s, ls) && OnlyMoves(s, Exec(s, ls), j) && HasLeft(Exec(s, ls), j, Bearing(s.tasks[j].pc))
    ensures forall l | l in ls :: Undisturbed(l, j) && (Bearing(s.tasks[j].pc).Some? ==> !l.ServeFetch?)
    decreases Rank(s.tasks[j].pc)
  {
    var l := LeaderMoves(s, j);
    var t := Apply(s, l);
    RunOfOne(s, l);
    ls := [l];
    if Live(t.tasks[j].pc) {
      var rest := LeaderFinishes(t, j);
      RunConcat(s, [l], rest);
      ls := [l] + rest;
    }
  }

  /** A stranded call stays stranded in every continuation: it is never answered. */
  lemma {:induction false} StrandedForever(s0: State, ls: seq<Label>, more: seq<Label>, i: TaskId)
    requires Start(s0) && IsRun(s0, ls) && IsRun(Exec(s0, ls), more) && Stranded(Exec(s0, ls), i)
    ensures Stranded(Exec(Exec(s0, ls), more), i)
  {
    if more != [] {
      StrandedForever(s0, ls, Front(more), i);
      RunConcat(s0, ls, Front(more));
      RunIsOwned(s0, ls + Front(more));
      StepKeepsStranded(Exec(Exec(s0, ls), Front(more)), Last(more), i);
    }
  }

  /**
    Exactly which calls are answered at the end of a run that cannot go on: all of them, if and
    only if none joined a leader that ended in such an exception.
   */
  lemma AllAnsweredIffNoneStranded(s0: State, ls: seq<Label>)
    requires Start(s0) && IsRun(s0, ls) && !CanStep(Exec(s0, ls))
    ensures (forall i | 0 <= i < |s0.tasks| :: Answered(Exec(s0, ls), i)) <==>
            (forall i | 0 <= i < |s0.tasks| :: !Stranded(Exec(s0, ls), i))
  {
    forall i | 0 <= i < |s0.tasks|
      ensures Answered(Exec(s0, ls), i) <==> !Stranded(Exec(s0, ls), i)
    {
      NoStepMeansAnsweredOrStranded(s0, ls, i);
    }
  }
}
