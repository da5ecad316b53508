/**
  Where grants come from, and what a landed write-through guarantees to later readers.
 */
module Grants {
  import opened Prelude
  import opened Keys
  import opened Helios
  import opened Client
  import opened Protocol
  import opened Ownership
  import opened Coherence

  /** The list an event brings into the system, and the membership it is for. */
  function Brought(calls: seq<Task>, l: Label): Option<(Pair, Perms)> {
    match l
    case ServeFetch(i, _, Resolved(resolution)) =>
      if i < |calls| then Some((calls[i].id, ToPerms(resolution))) else None
    case WriteThrough(target, written, _) => Some((target, written))
    case _ => None
  }

  predicate Brings(calls: seq<Task>, l: Label, id: Pair, perms: Perms) {
    Brought(calls, l) == Some((id, perms))
  }

  predicate BringsForKey(calls: seq<Task>, l: Label, key: Key, perms: Perms) {
    var brought := Brought(calls, l);
    brought.Some? && KeyOf(brought.value.0) == key && brought.value.1 == perms
  }

  ghost predicate Origin(calls: seq<Task>, ls: seq<Label>, key: Key, perms: Perms) {
    exists j | 0 <= j < |ls| :: BringsForKey(calls, ls[j], key, perms)
  }

  /** Every cached value has an origin: an outage answer is never stored. */
  ghost predicate CacheJustified(calls: seq<Task>, ls: seq<Label>, s: State) {
    forall key | key in s.cache :: Origin(calls, ls, key, s.cache[key])
  }

  /** The list a call carries or has answered with, except the empty list of a fail-closed answer. */
  function Carried(pc: Pc): Option<Perms> {
    match pc
    case GotReply(cached) => cached
    case Fetched(_, Resolved(resolution)) => Some(ToPerms(resolution))
    case Populating(perms, _) => Some(perms)
    case Populated(perms) => Some(perms)
    case Done(Granted(perms), source) => if perms == [] && !source.FromCache? then None else Some(perms)
    case _ => None
  }

  ghost predicate CallJustified(calls: seq<Task>, ls: seq<Label>, s: State, i: TaskId)
    requires i < |s.tasks|
  {
    var carried := Carried(s.tasks[i].pc);
    carried.Some? ==> Origin(calls, ls, KeyOfTask(s, i), carried.value)
  }

  ghost predicate AllJustified(calls: seq<Task>, ls: seq<Label>, s: State) {
    CacheJustified(calls, ls, s) && forall i | 0 <= i < |s.tasks| :: CallJustified(calls, ls, s, i)
  }

  lemma OriginPersists(calls: seq<Task>, ls: seq<Label>, l: Label, key: Key, perms: Perms)
    ensures Origin(calls, ls, key, perms) ==> Origin(calls, ls + [l], key, perms)
    ensures BringsForKey(calls, l, key, perms) ==> Origin(calls, ls + [l], key, perms)
  {
    var more := ls + [l];
    if Origin(calls, ls, key, perms) {
      var j :| 0 <= j < |ls| && BringsForKey(calls, ls[j], key, perms);
      assert more[j] == ls[j];
    }
    assert more[|ls|] == l;
  }

  lemma StepKeepsCacheJustified(calls: seq<Task>, ls: seq<Label>, s: State, l: Label)
    requires Enabled(s, l) && AllJustified(calls, ls, s)
    ensures CacheJustified(calls, ls + [l], Apply(s, l))
  {
    var t := Apply(s, l);
    forall key | key in t.cache
      ensures Origin(calls, ls + [l], key, t.cache[key])
    {
      OriginPersists(calls, ls, l, key, t.cache[key]);
      if l.ServeSet? {
        assert CallJustified(calls, ls, s, l.i);
        assert Carried(s.tasks[l.i].pc) == Some(s.tasks[l.i].pc.perms);
      }
    }
  }

  /** After its step a call carries what call `f` of its key carried, or a list from the cache or Helios. */
  lemma WhereCarriedComesFrom(s: State, l: Label) returns (f: TaskId)
    requires Enabled(s, l) && IsTaskLabel(l) && Owned(s)
    ensures SameSlot(s, f, l.i) && l.i < |Apply(s, l).tasks|
    ensures var carried := Carried(Apply(s, l).tasks[l.i].pc);
            carried.Some? ==>
              || carried == Carried(s.tasks[f].pc)
              || carried == CacheLookup(s, KeyOfTask(s, l.i))
              || (l.ServeFetch? && l.result.Resolved? && carried == Some(ToPerms(l.result.resolution)))
  {
    f := l.i;
    if l.Wake? {
      f := s.tasks[l.i].pc.leader;
      assert FollowerFits(s, l.i) && FutureLed(s, s.tasks[l.i].client, f);
    }
  }

  lemma StepKeepsCallJustified(calls: seq<Task>, ls: seq<Label>, s: State, l: Label, i: TaskId)
    requires Enabled(s, l) && Owned(s) && AllJustified(calls, ls, s) && i < |s.tasks|
    requires |calls| == |s.tasks| && forall j | 0 <= j < |calls| :: calls[j].id == s.tasks[j].id
    ensures CallJustified(calls, ls + [l], Apply(s, l), i)
  {
    var t := Apply(s, l);
    var carried := Carried(t.tasks[i].pc);
    assert t.tasks[i].id == s.tasks[i].id;
    if carried.Some? {
      OriginPersists(calls, ls, l, KeyOfTask(s, i), carried.value);
      if IsTaskLabel(l) && l.i == i {
        var f := WhereCarriedComesFrom(s, l);
        assert CallJustified(calls, ls, s, f);
      } else {
        assert t.tasks[i] == s.tasks[i];
      }
      assert CallJustified(calls, ls, s, i);
    }
  }

  lemma {:induction false} RunIsJustified(s0: State, ls: seq<Label>)
    requires Start(s0) && IsRun(s0, ls)
    ensures AllJustified(s0.tasks, ls, Exec(s0, ls))
  {
    if ls != [] {
      RunIsJustified(s0, Front(ls));
      RunIsOwned(s0, Front(ls));
      RunKeepsCalls(s0, Front(ls));
      var before, l := Exec(s0, Front(ls)), Last(ls);
      assert Front(ls) + [l] == ls;
      StepKeepsCacheJustified(s0.tasks, Front(ls), before, l);
      forall i | 0 <= i < |before.tasks|
        ensures CallJustified(s0.tasks, ls, Apply(before, l), i)
      {
        StepKeepsCallJustified(s0.tasks, Front(ls), before, l, i);
      }
      StepKeepsCalls(before, l);
    }
  }

  /** All memberships named by the calls and by the outside events of a run. */
  ghost predicate InPlay(ids: set<Pair>, s0: State, ls: seq<Label>) {
    && CallsIn(s0, ids)
    && forall l | l in ls && (l.WriteThrough? || l.ChangeRole?) :: l.id in ids
  }

  lemma OriginForMembership(s0: State, ids: set<Pair>, ls: seq<Label>, id: Pair, perms: Perms)
    requires Separated(ids) && InPlay(ids, s0, ls) && id in ids
    requires Origin(s0.tasks, ls, KeyOf(id), perms)
    ensures exists j | 0 <= j < |ls| :: Brings(s0.tasks, ls[j], id, perms)
  {
    var j :| 0 <= j < |ls| && BringsForKey(s0.tasks, ls[j], KeyOf(id), perms);
    assert ls[j] in ls;
    assert Brings(s0.tasks, ls[j], id, perms);
  }

  /** `caller_has_permission` of call `i` has returned True for `perm`. */
  predicate SaysYes(s: State, i: TaskId, perm: string) {
    i < |s.tasks| && s.tasks[i].pc.Done? && s.tasks[i].pc.answer.Granted? && perm in s.tasks[i].pc.answer.perms
  }

  /** The event is an active answer of Helios, or a write-through, for `id` that contains `perm`. */
  predicate Justifies(calls: seq<Task>, l: Label, id: Pair, perm: string) {
    match l
    case ServeFetch(i, _, Resolved(Active(_, permissions))) =>
      i < |calls| && calls[i].id == id && perm in permissions
    case WriteThrough(target, written, _) => target == id && perm in written
    case _ => false
  }

  /**
    Justified grants: in every run, a True answer for `(user, tenant)` was preceded by an active
    answer of Helios or a write-through for that same pair that contains the permission.
   */
  lemma JustifiedGrants(s0: State, ids: set<Pair>, ls: seq<Label>, i: TaskId, perm: string)
    requires Start(s0) && IsRun(s0, ls) && Separated(ids) && InPlay(ids, s0, ls)
    requires SaysYes(Exec(s0, ls), i, perm)
    ensures i < |s0.tasks| && exists j | 0 <= j < |ls| :: Justifies(s0.tasks, ls[j], s0.tasks[i].id, perm)
  {
    RunIsJustified(s0, ls);
    RunKeepsCalls(s0, ls);
    var s := Exec(s0, ls);
    var perms := s.tasks[i].pc.answer.perms;
    assert CallJustified(s0.tasks, ls, s, i);
    OriginForMembership(s0, ids, ls, s0.tasks[i].id, perms);
    var j :| 0 <= j < |ls| && Brings(s0.tasks, ls[j], s0.tasks[i].id, perms);
    assert Justifies(s0.tasks, ls[j], s0.tasks[i].id, perm);
  }

  /** And every cached list, `[]` included, is the whole list of one such earlier event. */
  lemma CachedListsHaveOrigins(s0: State, ids: set<Pair>, ls: seq<Label>, id: Pair)
    requires Start(s0) && IsRun(s0, ls) && Separated(ids) && InPlay(ids, s0, ls) && id in ids
    requires KeyOf(id) in Exec(s0, ls).cache
    ensures exists j | 0 <= j < |ls| :: Brings(s0.tasks, ls[j], id, Exec(s0, ls).cache[KeyOf(id)])
  {
    RunIsJustified(s0, ls);
    OriginForMembership(s0, ids, ls, id, Exec(s0, ls).cache[KeyOf(id)]);
  }

  /** The event removes or overwrites the entry of `key`. */
  predicate Disturbs(l: Label, key: Key) {
    (l.Remove? && key in l.keys) || (l.WriteThrough? && KeyOf(l.id) == key)
  }

  /** No populate changes an entry that is present. */
  lemma OnlyDisturbancesChangeEntries(s: State, l: Label, key: Key)
    requires Enabled(s, l) && key in s.cache && !Disturbs(l, key)
    ensures key in Apply(s, l).cache && Apply(s, l).cache[key] == s.cache[key]
  {
  }

  /** After a write-through at `j`, the entry holds its value until something disturbs the key. */
  lemma {:induction false} WriteThroughSticks(s0: State, ls: seq<Label>, j: nat, n: nat)
    requires IsRun(s0, ls) && j < n <= |ls| && ls[j].WriteThrough?
    requires forall m | j < m < n :: !Disturbs(ls[m], KeyOf(ls[j].id))
    ensures IsRun(s0, ls[..n])
    ensures CacheLookup(Exec(s0, ls[..n]), KeyOf(ls[j].id)) == Some(ls[j].perms)
  {
    RunPrefix(s0, ls, n - 1);
    if j + 1 < n {
      WriteThroughSticks(s0, ls, j, n - 1);
      OnlyDisturbancesChangeEntries(Exec(s0, ls[..n - 1]), ls[n - 1], KeyOf(ls[j].id));
    }
  }

  predicate WillAnswer(pc: Pc, perms: Perms) {
    pc == GotReply(Some(perms)) || pc == Done(Granted(perms), FromCache)
  }

  predicate CallWillAnswer(s: State, i: TaskId, perms: Perms) {
    i < |s.tasks| && WillAnswer(s.tasks[i].pc, perms)
  }

  lemma AnswerIsKept(s: State, l: Label, i: TaskId, perms: Perms)
    requires Enabled(s, l) && CallWillAnswer(s, i, perms)
    ensures CallWillAnswer(Apply(s, l), i, perms)
  {
  }

  lemma GetIsKept(s: State, i: TaskId, perms: Perms)
    requires Enabled(s, ServeGet(i, true)) && CacheLookup(s, KeyOfTask(s, i)) == Some(perms)
    ensures CallWillAnswer(Apply(s, ServeGet(i, true)), i, perms)
  {
  }

  /** The GET decides: a call whose GET hits answers with what it read, whatever happens later. */
  lemma {:induction false} GetDecides(s0: State, ls: seq<Label>, m: nat, n: nat, i: TaskId, perms: Perms)
    requires IsRun(s0, ls) && m < n <= |ls| && ls[m] == ServeGet(i, true)
    requires IsRun(s0, ls[..m]) && i < |Exec(s0, ls[..m]).tasks|
    requires CacheLookup(Exec(s0, ls[..m]), KeyOfTask(Exec(s0, ls[..m]), i)) == Some(perms)
    ensures IsRun(s0, ls[..n])
    ensures CallWillAnswer(Exec(s0, ls[..n]), i, perms)
    decreases n
  {
    RunPrefix(s0, ls, n - 1);
    if m + 1 < n {
      GetDecides(s0, ls, m, n - 1, i, perms);
      AnswerIsKept(Exec(s0, ls[..n - 1]), ls[n - 1], i, perms);
    } else {
      GetIsKept(Exec(s0, ls[..m]), i, perms);
    }
  }

  /**
    Sticky write-through: from a write-through of a list until the key is removed or overwritten by
    another write-through, no populate of any client changes the entry, and every call whose GET
    is served in that span answers with exactly that list.
   */
  lemma StickyWriteThrough(s0: State, ls: seq<Label>, j: nat, m: nat, n: nat, i: TaskId)
    requires IsRun(s0, ls) && j < m < n <= |ls|
    requires ls[j].WriteThrough? && ls[m] == ServeGet(i, true)
    requires i < |s0.tasks| && KeyOfTask(s0, i) == KeyOf(ls[j].id)
    requires forall k | j < k < m :: !Disturbs(ls[k], KeyOf(ls[j].id))
    ensures IsRun(s0, ls[..n]) && i < |Exec(s0, ls[..n]).tasks|
    ensures WillAnswer(Exec(s0, ls[..n]).tasks[i].pc, ls[j].perms)
  {
    WriteThroughSticks(s0, ls, j, m);
    RunKeepsCalls(s0, ls[..m]);
    GetDecides(s0, ls, m, n, i, ls[j].perms);
  }

  lemma {:induction false} OrderlyPrefix(s0: State, ids: set<Pair>, ls: seq<Label>, n: nat)
    requires IsRun(s0, ls) && OrderlyRun(s0, ids, ls) && n <= |ls|
    ensures IsRun(s0, ls[..n]) && OrderlyRun(s0, ids, ls[..n])
  {
    if n == |ls| {
      assert ls[..n] == ls;
    } else {
      OrderlyPrefix(s0, ids, Front(ls), n);
      assert Front(ls)[..n] == ls[..n];
    }
  }

  /**
    Freshness is decided at the GET: under the conditions of quiescent coherence, a call whose GET
    hits while no write-through is due answers with the permissions Helios had at that moment.
   */
  lemma HitsAreFreshAtTheGet(s0: State, ids: set<Pair>, ls: seq<Label>, m: nat, n: nat, i: TaskId)
    requires Start(s0) && Separated(ids) && CallsIn(s0, ids)
    requires IsRun(s0, ls) && OrderlyRun(s0, ids, ls)
    requires m < n <= |ls| && ls[m] == ServeGet(i, true) && IsRun(s0, ls[..m]) && i < |s0.tasks|
    requires !WritePending(Exec(s0, ls[..m]), s0.tasks[i].id)
    requires KeyOfTask(s0, i) in Exec(s0, ls[..m]).cache
    ensures IsRun(s0, ls[..n]) && i < |Exec(s0, ls[..n]).tasks|
    ensures WillAnswer(Exec(s0, ls[..n]).tasks[i].pc, Current(Exec(s0, ls[..m]), s0.tasks[i].id))
  {
    OrderlyPrefix(s0, ids, ls, m);
    RunKeepsCalls(s0, ls[..m]);
    QuiescentCoherence(s0, ids, ls[..m], s0.tasks[i].id);
    GetDecides(s0, ls, m, n, i, Current(Exec(s0, ls[..m]), s0.tasks[i].id));
  }
}
