/**
  Coherence: when is a cached value Helios's current value? The theorem covers every
  interleaving of reads (failing or not), role changes and in-order write-throughs, and says
  exactly which removals it survives.
 */
module Coherence {
  import opened Prelude
  import opened Keys
  import opened Helios
  import opened Client
  import opened Protocol

  /** An answer of Helios that a leader has received but not yet offered to the cache. */
  predicate Holds(pc: Pc) {
    (pc.Fetched? && pc.result.Resolved?) || pc.Populating?
  }

  function HeldPerms(pc: Pc): Perms
    requires Holds(pc)
  {
    match pc
    case Fetched(_, Resolved(resolution)) => ToPerms(resolution)
    case Populating(perms, _) => perms
  }

  function HeldVersion(pc: Pc): nat
    requires Holds(pc)
  {
    pc.version
  }

  predicate HeldIsCurrent(s: State, id: Pair, i: TaskId) {
    i < |s.tasks| && s.tasks[i].id == id && Holds(s.tasks[i].pc) ==> HeldPerms(s.tasks[i].pc) == Current(s, id)
  }

  /** A cached value, if there is one, is the current one, unless a write-through is still due. */
  predicate Coherent(s: State, id: Pair) {
    WritePending(s, id) || (KeyOf(id) in s.cache ==> s.cache[KeyOf(id)] == Current(s, id))
  }

  /** Removing the entry now is harmless: a write is due, or every answer held for it is current. */
  ghost predicate RemovalIsSafe(s: State, id: Pair) {
    WritePending(s, id) || forall i | 0 <= i < |s.tasks| :: HeldIsCurrent(s, id, i)
  }

  /** The invariant: coherent now, and no held answer can spoil an empty slot. */
  ghost predicate Settled(s: State, id: Pair) {
    Coherent(s, id) && (KeyOf(id) !in s.cache ==> RemovalIsSafe(s, id))
  }

  ghost predicate AllSettled(s: State, ids: set<Pair>) {
    forall id | id in ids :: Settled(s, id)
  }

  ghost predicate CallsIn(s: State, ids: set<Pair>) {
    forall i | 0 <= i < |s.tasks| :: s.tasks[i].id in ids
  }

  /** Write-throughs are Helios's own, in order; removals hit only memberships where that is safe. */
  ghost predicate Orderly(s: State, ids: set<Pair>, l: Label) {
    match l
    case ChangeRole(id, _) => id in ids
    case WriteThrough(id, _, of) => id in ids && of.Some?
    case Remove(keys) => forall id | id in ids && KeyOf(id) in keys :: RemovalIsSafe(s, id)
    case _ => true
  }

  ghost predicate OrderlyRun(s: State, ids: set<Pair>, ls: seq<Label>)
    requires IsRun(s, ls)
    decreases |ls|
  {
    ls == [] || (OrderlyRun(s, ids, Front(ls)) && Orderly(Exec(s, Front(ls)), ids, Last(ls)))
  }

  lemma OrderlyExtends(s: State, ids: set<Pair>, ls: seq<Label>, l: Label)
    requires IsRun(s, ls) && OrderlyRun(s, ids, ls) && Enabled(Exec(s, ls), l) && Orderly(Exec(s, ls), ids, l)
    ensures IsRun(s, ls + [l]) && OrderlyRun(s, ids, ls + [l])
  {
    RunExtends(s, ls, l);
    assert Front(ls + [l]) == ls && Last(ls + [l]) == l;
  }

  lemma CallStepKeepsSettled(s: State, ids: set<Pair>, l: Label, id: Pair)
    requires Separated(ids) && CallsIn(s, ids) && id in ids
    requires Enabled(s, l) && IsTaskLabel(l) && Settled(s, id)
    ensures Settled(Apply(s, l), id)
  {
    var t := Apply(s, l);
    assert Current(t, id) == Current(s, id) && WritePending(t, id) == WritePending(s, id);
    assert HeldIsCurrent(s, id, l.i) || KeyOf(id) in s.cache || WritePending(s, id);
    forall i | 0 <= i < |t.tasks|
      ensures HeldIsCurrent(s, id, i) ==> HeldIsCurrent(t, id, i)
    {
    }
  }

  lemma OutsideStepKeepsSettled(s: State, ids: set<Pair>, l: Label, id: Pair)
    requires Separated(ids) && id in ids
    requires Enabled(s, l) && !IsTaskLabel(l) && Orderly(s, ids, l) && Settled(s, id)
    ensures Settled(Apply(s, l), id)
  {
    var t := Apply(s, l);
    forall i | 0 <= i < |t.tasks|
      ensures !(l.ChangeRole? && l.id == id) && HeldIsCurrent(s, id, i) ==> HeldIsCurrent(t, id, i)
    {
    }
  }

  lemma {:induction false} RunKeepsSettled(s: State, ids: set<Pair>, ls: seq<Label>)
    requires Separated(ids) && CallsIn(s, ids) && AllSettled(s, ids)
    requires IsRun(s, ls) && OrderlyRun(s, ids, ls)
    ensures AllSettled(Exec(s, ls), ids)
  {
    if ls != [] {
      RunKeepsSettled(s, ids, Front(ls));
      var before, l := Exec(s, Front(ls)), Last(ls);
      RunKeepsCalls(s, Front(ls));
      assert CallsIn(before, ids);
      forall id | id in ids
        ensures Settled(Exec(s, ls), id)
      {
        if IsTaskLabel(l) {
          CallStepKeepsSettled(before, ids, l, id);
        } else {
          OutsideStepKeepsSettled(before, ids, l, id);
        }
      }
    }
  }

  /**
    Quiescent coherence: in every run with in-order write-throughs and safe removals, a membership
    with no write-through due is cached, if at all, with Helios's current permissions.
   */
  lemma QuiescentCoherence(s0: State, ids: set<Pair>, ls: seq<Label>, id: Pair)
    requires Start(s0) && Separated(ids) && CallsIn(s0, ids) && id in ids
    requires IsRun(s0, ls) && OrderlyRun(s0, ids, ls)
    ensures var s := Exec(s0, ls);
            !WritePending(s, id) && KeyOf(id) in s.cache ==> s.cache[KeyOf(id)] == Current(s, id)
  {
    RunKeepsSettled(s0, ids, ls);
    assert Settled(Exec(s0, ls), id);
  }

  lemma {:induction false} CallStepsAreOrderly(s: State, ids: set<Pair>, ls: seq<Label>)
    requires IsRun(s, ls) && forall l | l in ls :: IsTaskLabel(l)
    ensures OrderlyRun(s, ids, ls)
  {
    if ls != [] {
      CallStepsAreOrderly(s, ids, Front(ls));
      assert Last(ls) in ls;
    }
  }

  lemma {:induction false} CallStepsKeepOrderly(s0: State, ids: set<Pair>, ls: seq<Label>, more: seq<Label>)
    requires IsRun(s0, ls + more) && IsRun(s0, ls) && OrderlyRun(s0, ids, ls)
    requires forall l | l in more :: IsTaskLabel(l)
    ensures OrderlyRun(s0, ids, ls + more)
    decreases |more|
  {
    if more == [] {
      assert ls + more == ls;
    } else {
      assert Front(ls + more) == ls + Front(more);
      CallStepsKeepOrderly(s0, ids, ls, Front(more));
      assert Last(more) in more;
    }
  }

  lemma StalePopulateLands(t: State, id: Pair, i: TaskId)
    requires IsTask(t, i) && t.tasks[i].id == id && t.tasks[i].pc.Populating?
    requires t.tasks[i].pc.perms != Current(t, id) && !WritePending(t, id) && KeyOf(id) !in t.cache
    ensures Enabled(t, ServeSet(i, true)) && !Coherent(Apply(t, ServeSet(i, true)), id)
  {
    var u := Apply(t, ServeSet(i, true));
    assert u.rows == t.rows && u.cache == t.cache[KeyOf(id) := t.tasks[i].pc.perms];
  }

  /** A held answer that differs from the current one reaches the empty slot in at most two steps. */
  lemma StaleAnswerLands(t: State, ids: set<Pair>, id: Pair, i: TaskId) returns (ls: seq<Label>)
    requires IsTask(t, i) && !HeldIsCurrent(t, id, i) && !WritePending(t, id) && KeyOf(id) !in t.cache
    ensures IsRun(t, ls) && OrderlyRun(t, ids, ls) && !Coherent(Exec(t, ls), id)
    ensures |ls| <= 2 && forall l | l in ls :: IsTaskLabel(l) && l.i == i
  {
    if t.tasks[i].pc.Fetched? {
      var u := Apply(t, ResumeFetch(i));
      assert u.cache == t.cache && u.rows == t.rows && IsTask(u, i);
      StalePopulateLands(u, id, i);
      RunOfTwo(t, ResumeFetch(i), ServeSet(i, true));
      ls := [ResumeFetch(i), ServeSet(i, true)];
    } else {
      StalePopulateLands(t, id, i);
      RunOfOne(t, ServeSet(i, true));
      ls := [ServeSet(i, true)];
    }
    CallStepsAreOrderly(t, ids, ls);
  }

  /**
    Which removals coherence survives, exactly: from a settled state, every continuation after
    dropping the entry of `id` stays coherent if and only if a write-through of `id` is still due
    or every answer currently held for `id` is the current one.
   */
  lemma RemovalExactness(s: State, ids: set<Pair>, id: Pair)
    requires Separated(ids) && CallsIn(s, ids) && AllSettled(s, ids) && id in ids
    requires forall i | 0 <= i < |s.tasks| :: IsTask(s, i)
    ensures var t := Apply(s, Remove({KeyOf(id)}));
            RemovalIsSafe(s, id) <==>
            forall ls | IsRun(t, ls) && OrderlyRun(t, ids, ls) :: Coherent(Exec(t, ls), id)
  {
    var t := Apply(s, Remove({KeyOf(id)}));
    if RemovalIsSafe(s, id) {
      forall other | other in ids
        ensures Settled(t, other)
      {
        OutsideStepKeepsSettled(s, ids, Remove({KeyOf(id)}), other);
      }
      forall ls | IsRun(t, ls) && OrderlyRun(t, ids, ls)
        ensures Coherent(Exec(t, ls), id)
      {
        RunKeepsSettled(t, ids, ls);
        assert Settled(Exec(t, ls), id);
      }
    } else {
      var i :| 0 <= i < |s.tasks| && !HeldIsCurrent(s, id, i);
      assert IsTask(s, i);
      var ls := StaleAnswerLands(t, ids, id, i);
    }
  }

  /** A held answer is what Helios answered with at the version recorded next to it. */
  predicate HeldMatchesVersion(s: State, i: TaskId) {
    i < |s.tasks| && Holds(s.tasks[i].pc) ==>
      var versions := RowOf(s, s.tasks[i].id).versions;
      HeldVersion(s.tasks[i].pc) < |versions| &&
      ToPerms(versions[HeldVersion(s.tasks[i].pc)]) == HeldPerms(s.tasks[i].pc)
  }

  lemma VersionsOnlyGrow(s: State, l: Label, id: Pair)
    requires Enabled(s, l)
    ensures RowOf(s, id).versions <= RowOf(Apply(s, l), id).versions
  {
  }

  lemma StepKeepsGenuine(s: State, l: Label, i: TaskId)
    requires Enabled(s, l) && HeldMatchesVersion(s, i)
    ensures HeldMatchesVersion(Apply(s, l), i)
  {
    var t := Apply(s, l);
    if IsTaskLabel(l) {
      assert t.rows == s.rows;
      if l.i != i && i < |s.tasks| {
        assert t.tasks[i] == s.tasks[i];
      }
    } else {
      assert t.tasks == s.tasks;
      if i < |s.tasks| {
        VersionsOnlyGrow(s, l, s.tasks[i].id);
      }
    }
  }

  lemma {:induction false} HeldAnswersAreGenuine(s0: State, ls: seq<Label>, i: TaskId)
    requires Start(s0) && IsRun(s0, ls)
    ensures HeldMatchesVersion(Exec(s0, ls), i)
  {
    if ls != [] {
      HeldAnswersAreGenuine(s0, Front(ls), i);
      StepKeepsGenuine(Exec(s0, Front(ls)), Last(ls), i);
    }
  }

  /** Every fetch of `id` under way read a version no older than the last write-through. */
  ghost predicate FetchesAreRecent(s: State, id: Pair) {
    forall i | 0 <= i < |s.tasks| && s.tasks[i].id == id && Holds(s.tasks[i].pc) ::
      HeldVersion(s.tasks[i].pc) >= RowOf(s, id).written
  }

  ghost predicate VersionsDiffer(r: Row) {
    forall a, b | 0 <= a < b < |r.versions| :: ToPerms(r.versions[a]) != ToPerms(r.versions[b])
  }

  lemma HeldByVersion(s: State, id: Pair, i: TaskId)
    requires i < |s.tasks| && s.tasks[i].id == id && Holds(s.tasks[i].pc) && HeldMatchesVersion(s, i)
    ensures HeldVersion(s.tasks[i].pc) >= RowOf(s, id).written && !WritePending(s, id) ==> HeldIsCurrent(s, id, i)
    ensures VersionsDiffer(RowOf(s, id)) && HeldIsCurrent(s, id, i) ==>
              HeldVersion(s.tasks[i].pc) >= RowOf(s, id).written
  {
    var versions, held := RowOf(s, id).versions, HeldVersion(s.tasks[i].pc);
    assert Current(s, id) == ToPerms(versions[|versions| - 1]);
    assert VersionsDiffer(RowOf(s, id)) && held < |versions| - 1 ==>
        ToPerms(versions[held]) != ToPerms(versions[|versions| - 1]);
  }

  /**
    In terms of database versions: a removal is safe when no write-through is due and every held
    answer is at least as recent as the last one written; when no two versions of the row carry the
    same permissions, that is also necessary.
   */
  lemma SafeRemovalByVersion(s0: State, ls: seq<Label>, id: Pair)
    requires Start(s0) && IsRun(s0, ls)
    ensures FetchesAreRecent(Exec(s0, ls), id) ==> RemovalIsSafe(Exec(s0, ls), id)
    ensures VersionsDiffer(RowOf(Exec(s0, ls), id)) && !WritePending(Exec(s0, ls), id) ==>
              (RemovalIsSafe(Exec(s0, ls), id) <==> FetchesAreRecent(Exec(s0, ls), id))
  {
    var s := Exec(s0, ls);
    forall i | 0 <= i < |s.tasks| && s.tasks[i].id == id && Holds(s.tasks[i].pc)
      ensures HeldVersion(s.tasks[i].pc) >= RowOf(s, id).written && !WritePending(s, id) ==> HeldIsCurrent(s, id, i)
      ensures VersionsDiffer(RowOf(s, id)) && HeldIsCurrent(s, id, i) ==>
                HeldVersion(s.tasks[i].pc) >= RowOf(s, id).written
    {
      HeldAnswersAreGenuine(s0, ls, i);
      HeldByVersion(s, id, i);
    }
  }
}
