/**
  The cache never falls behind the last write-through that landed, also while another one is due:
  what that asks of removals, exactly.
 */
module NeverBehind {
  import opened Prelude
  import opened Keys
  import opened Helios
  import opened Client
  import opened Protocol
  import opened Coherence

  /** The list is that of the last version written through, or of a later one. */
  predicate IsSince(row: Row, perms: Perms) {
    exists v | row.written <= v < |row.versions| :: ToPerms(row.versions[v]) == perms
  }

  predicate NotBehind(s: State, id: Pair) {
    KeyOf(id) in s.cache ==> IsSince(RowOf(s, id), s.cache[KeyOf(id)])
  }

  predicate HeldNotBehind(s: State, id: Pair, i: TaskId) {
    i < |s.tasks| && s.tasks[i].id == id && Holds(s.tasks[i].pc) ==> IsSince(RowOf(s, id), HeldPerms(s.tasks[i].pc))
  }

  /** Every answer held for the membership is one of the lists it had since that write-through. */
  ghost predicate NoneHeldBehind(s: State, id: Pair) {
    forall i | 0 <= i < |s.tasks| :: HeldNotBehind(s, id, i)
  }

  ghost predicate UpToDate(s: State, id: Pair) {
    NotBehind(s, id) && (KeyOf(id) !in s.cache ==> NoneHeldBehind(s, id))
  }

  ghost predicate AllUpToDate(s: State, ids: set<Pair>) {
    forall id | id in ids :: UpToDate(s, id)
  }

  ghost predicate Punctual(s: State, ids: set<Pair>, l: Label) {
    match l
    case WriteThrough(id, _, of) => id in ids && of.Some?
    case Remove(keys) => forall id | id in ids && KeyOf(id) in keys :: NoneHeldBehind(s, id)
    case _ => true
  }

  ghost predicate PunctualRun(s: State, ids: set<Pair>, ls: seq<Label>)
    requires IsRun(s, ls)
    decreases |ls|
  {
    ls == [] || (PunctualRun(s, ids, Front(ls)) && Punctual(Exec(s, Front(ls)), ids, Last(ls)))
  }

  /** A held answer stays fit for an empty slot as long as no write-through of the membership lands. */
  lemma HeldStaysNotBehind(s: State, l: Label, id: Pair, i: TaskId)
    requires Enabled(s, l) && HeldNotBehind(s, id, i) && !(l.WriteThrough? && l.id == id)
    ensures HeldNotBehind(Apply(s, l), id, i)
  {
    var row, row' := RowOf(s, id), RowOf(Apply(s, l), id);
    assert row.versions <= row'.versions && row'.written == row.written;
    assert Last(row'.versions) == row'.versions[|row'.versions| - 1];
    assert forall v | 0 <= v < |row.versions| :: row'.versions[v] == row.versions[v];
  }

  lemma StepKeepsUpToDate(s: State, ids: set<Pair>, l: Label, id: Pair)
    requires Separated(ids) && CallsIn(s, ids) && id in ids
    requires Enabled(s, l) && Punctual(s, ids, l) && UpToDate(s, id)
    ensures UpToDate(Apply(s, l), id)
  {
    var t := Apply(s, l);
    var row, row' := RowOf(s, id), RowOf(t, id);
    if l.WriteThrough? && l.id == id {
      assert row'.versions == row.versions && row'.written == l.of.value;
      assert ToPerms(row'.versions[l.of.value]) == t.cache[KeyOf(id)];
    } else {
      assert row.versions <= row'.versions && row'.written == row.written;
      assert forall v | 0 <= v < |row.versions| :: row'.versions[v] == row.versions[v];
      if l.ServeSet? {
        assert KeyOf(id) in s.cache || HeldNotBehind(s, id, l.i);
      }
      forall i | 0 <= i < |t.tasks| && HeldNotBehind(s, id, i)
        ensures HeldNotBehind(t, id, i)
      {
        HeldStaysNotBehind(s, l, id, i);
      }
      assert |t.tasks| == |s.tasks|;
    }
  }

  lemma {:induction false} RunKeepsUpToDate(s: State, ids: set<Pair>, ls: seq<Label>)
    requires Separated(ids) && CallsIn(s, ids) && AllUpToDate(s, ids)
    requires IsRun(s, ls) && PunctualRun(s, ids, ls)
    ensures AllUpToDate(Exec(s, ls), ids)
  {
    if ls != [] {
      RunKeepsUpToDate(s, ids, Front(ls));
      RunKeepsCalls(s, Front(ls));
      assert CallsIn(Exec(s, Front(ls)), ids);
      forall id | id in ids
        ensures UpToDate(Exec(s, ls), id)
      {
        StepKeepsUpToDate(Exec(s, Front(ls)), ids, Last(ls), id);
      }
    }
  }

  /**
    The cache is never behind: at all times, also while a write-through is due, a cached list is the
    one of the last version written through or of a later version.
   */
  lemma CacheIsNeverBehind(s0: State, ids: set<Pair>, ls: seq<Label>, id: Pair)
    requires Start(s0) && Separated(ids) && CallsIn(s0, ids) && id in ids
    requires IsRun(s0, ls) && PunctualRun(s0, ids, ls)
    ensures NotBehind(Exec(s0, ls), id)
  {
    RunKeepsUpToDate(s0, ids, ls);
    assert UpToDate(Exec(s0, ls), id);
  }

  /** Removals while every fetch under way is recent are such removals. */
  lemma RecentFetchesAreNotBehind(s0: State, ls: seq<Label>, id: Pair)
    requires Start(s0) && IsRun(s0, ls) && FetchesAreRecent(Exec(s0, ls), id)
    ensures NoneHeldBehind(Exec(s0, ls), id)
  {
    var s := Exec(s0, ls);
    forall i | 0 <= i < |s.tasks|
      ensures HeldNotBehind(s, id, i)
    {
      HeldAnswersAreGenuine(s0, ls, i);
    }
  }

  lemma {:induction false} CallStepsArePunctual(s: State, ids: set<Pair>, ls: seq<Label>)
    requires IsRun(s, ls) && forall l | l in ls :: IsTaskLabel(l)
    ensures PunctualRun(s, ids, ls)
  {
    if ls != [] {
      CallStepsArePunctual(s, ids, Front(ls));
      assert Last(ls) in ls;
    }
  }

  lemma OldPopulateLands(t: State, id: Pair, i: TaskId)
    requires IsTask(t, i) && t.tasks[i].id == id && t.tasks[i].pc.Populating?
    requires !IsSince(RowOf(t, id), t.tasks[i].pc.perms) && KeyOf(id) !in t.cache
    ensures Enabled(t, ServeSet(i, true)) && !NotBehind(Apply(t, ServeSet(i, true)), id)
  {
    var u := Apply(t, ServeSet(i, true));
    assert u.rows == t.rows && u.cache == t.cache[KeyOf(id) := t.tasks[i].pc.perms];
  }

  lemma OldAnswerLands(t: State, ids: set<Pair>, id: Pair, i: TaskId) returns (ls: seq<Label>)
    requires IsTask(t, i) && !HeldNotBehind(t, id, i) && KeyOf(id) !in t.cache
    ensures IsRun(t, ls) && PunctualRun(t, ids, ls) && !NotBehind(Exec(t, ls), id)
    ensures |ls| <= 2 && forall l | l in ls :: IsTaskLabel(l) && l.i == i
  {
    if t.tasks[i].pc.Fetched? {
      var u := Apply(t, ResumeFetch(i));
      assert u.cache == t.cache && u.rows == t.rows && IsTask(u, i);
      OldPopulateLands(u, id, i);
      RunOfTwo(t, ResumeFetch(i), ServeSet(i, true));
      ls := [ResumeFetch(i), ServeSet(i, true)];
    } else {
      OldPopulateLands(t, id, i);
      RunOfOne(t, ServeSet(i, true));
      ls := [ServeSet(i, true)];
    }
    CallStepsArePunctual(t, ids, ls);
  }

  /**
    Exactly which removals this survives: every continuation after dropping the entry stays not
    behind if and only if no held answer is.
   */
  lemma RemovalKeepsUpExactly(s: State, ids: set<Pair>, id: Pair)
    requires Separated(ids) && CallsIn(s, ids) && AllUpToDate(s, ids) && id in ids
    requires forall i | 0 <= i < |s.tasks| :: IsTask(s, i)
    ensures var t := Apply(s, Remove({KeyOf(id)}));
            NoneHeldBehind(s, id) <==>
            forall ls | IsRun(t, ls) && PunctualRun(t, ids, ls) :: NotBehind(Exec(t, ls), id)
  {
    var t := Apply(s, Remove({KeyOf(id)}));
    if NoneHeldBehind(s, id) {
      forall other | other in ids
        ensures UpToDate(t, other)
      {
        StepKeepsUpToDate(s, ids, Remove({KeyOf(id)}), other);
      }
      forall ls | IsRun(t, ls) && PunctualRun(t, ids, ls)
        ensures NotBehind(Exec(t, ls), id)
      {
        RunKeepsUpToDate(t, ids, ls);
        assert UpToDate(Exec(t, ls), id);
      }
    } else {
      var i :| 0 <= i < |s.tasks| && !HeldNotBehind(s, id, i);
      assert IsTask(s, i);
      var ls := OldAnswerLands(t, ids, id, i);
    }
  }
}
