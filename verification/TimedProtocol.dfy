/**
  The protocol over a cache whose entries expire: runs with a clock, in which the cache is the timed
  map that both implementations behave as. Every such run is a run of the protocol, in which an
  invalidation and an expiry are removals; so what holds in every run of the protocol holds here.
 */
module TimedProtocol {
  import opened Prelude
  import opened Keys
  import opened TimedMap
  import opened Client
  import opened Protocol
  import opened Grants
  import opened ProtocolCache

  datatype Step =
    | Happens(l: Label)
    | Invalidates(op: Op)

  /** A step with its two clock readings. */
  datatype Stamped = Stamped(now: Ms, later: Ms, step: Step)

  /** The entries of the cache are in the timed map, and `rest` holds none. */
  datatype TimedState = TimedState(rest: State, entries: Timed)

  function Bare(s: State): State {
    s.(cache := map[])
  }

  predicate StepEnabled(ts: TimedState, e: Stamped) {
    match e.step
    case Happens(l) => !l.Remove? && Enabled(ts.rest, l)
    case Invalidates(op) => IsInvalidation(op)
  }

  function TimedApply(ts: TimedState, e: Stamped, ttl: Option<Ms>): TimedState
    requires StepEnabled(ts, e)
  {
    match e.step
    case Happens(l) =>
      if OperationOf(ts.rest, l).None? then TimedState(Bare(Apply(ts.rest, l)), ts.entries)
      else
        var (entries, observed) := Do(ts.entries, Event(e.now, e.later, OperationOf(ts.rest, l).value), ttl);
        if l.ServeGet? then TimedState(SetPc(ts.rest, l.i, GotReply(observed)), entries)
        else TimedState(Bare(Apply(ts.rest, l)), entries)
    case Invalidates(op) => TimedState(ts.rest, Do(ts.entries, Event(e.now, e.later, op), ttl).0)
  }

  predicate IsTimedRun(ts: TimedState, es: seq<Stamped>, ttl: Option<Ms>)
    decreases |es|, 0
  {
    es == [] || (IsTimedRun(ts, Front(es), ttl) && StepEnabled(TimedExec(ts, Front(es), ttl), Last(es)))
  }

  function TimedExec(ts: TimedState, es: seq<Stamped>, ttl: Option<Ms>): TimedState
    requires IsTimedRun(ts, es, ttl)
    decreases |es|, 1
  {
    if es == [] then ts else TimedApply(TimedExec(ts, Front(es), ttl), Last(es), ttl)
  }

  /** The clock never goes back. */
  predicate Clocked(es: seq<Stamped>) {
    es == [] ||
    (Clocked(Front(es)) && Last(es).now <= Last(es).later &&
     (|es| > 1 ==> Last(Front(es)).later <= Last(es).now))
  }

  /** The events of the run that are not removals. */
  function Visible(ls: seq<Label>): seq<Label> {
    if ls == [] then [] else Visible(Front(ls)) + if Last(ls).Remove? then [] else [Last(ls)]
  }

  function Labels(es: seq<Stamped>): seq<Label> {
    if es == [] then []
    else
      Labels(Front(es)) + match Last(es).step
                          case Happens(l) => [l]
                          case Invalidates(_) => []
  }

  /** The protocol state shows at time `now` what the timed state shows. */
  ghost predicate Shows(s: State, ts: TimedState, now: Ms) {
    Bare(s) == ts.rest && SameCache(s.cache, ts.entries, now)
  }

  ghost predicate GoodCalls(s: State) {
    forall i | 0 <= i < |s.tasks| :: Good(s.tasks[i].id)
  }

  predicate GoodStep(e: Stamped) {
    match e.step
    case Happens(l) => l.WriteThrough? ==> Good(l.id)
    case Invalidates(op) => GoodOp(op)
  }

  ghost predicate GoodSteps(es: seq<Stamped>) {
    forall e | e in es :: GoodStep(e)
  }

  /** What the cache holds decides nothing but the reply to a GET. */
  lemma CacheDecidesRepliesOnly(s: State, l: Label)
    requires Enabled(Bare(s), l) && !l.Remove?
    ensures Enabled(s, l) && OperationOf(s, l) == OperationOf(Bare(s), l)
    ensures !(l.ServeGet? && l.ok) ==> Bare(Apply(s, l)) == Bare(Apply(Bare(s), l))
    ensures l.ServeGet? && l.ok ==>
              Bare(Apply(s, l)) == SetPc(Bare(s), l.i, GotReply(CacheLookup(s, KeyOfTask(s, l.i))))
  {
  }

  /** A cache operation, for any time-to-live, followed by the expiries up to its second clock reading. */
  lemma OperationThenExpiry(s: State, l: Label, m: Timed, now: Ms, later: Ms, ttl: Option<Ms>)
    requires Enabled(s, l) && OperationOf(s, l).Some? && GoodOp(OperationOf(s, l).value)
    requires SameCache(s.cache, m, now) && now <= later
    ensures var (m', observed) := Do(m, Event(now, later, OperationOf(s, l).value), ttl);
            && SameCache(Apply(s, l).cache - ExpiredKeys(m', later), m', later)
            && (l.ServeGet? ==> observed == CacheLookup(s, KeyOfTask(s, l.i)))
  {
    var op := OperationOf(s, l).value;
    var m', key := Do(m, Event(now, later, op), ttl).0, KeyOf(op.id);
    var cache' := Apply(s, l).cache - ExpiredKeys(m', later);
    assert CacheLookup(s, key) == PermsOf(Live(m, op.id, now));
    forall id | Good(id)
      ensures (if KeyOf(id) in cache' then Some(cache'[KeyOf(id)]) else None) == PermsOf(Live(m', id, later))
    {
      ExpiredKeyIsExpired(m', later, id);
      UserColonFreeInjective(op.id, id);
      assert CacheLookup(s, KeyOf(id)) == PermsOf(Live(m, id, now));
    }
  }

  lemma VisibleOfThree(a: Label, l: Label, b: Label)
    requires a.Remove? && b.Remove?
    ensures Visible([a, l, b]) == if l.Remove? then [] else [l]
  {
    assert [a, l, b] == [a] + [l] + [b];
    VisibleOfConcat([a], [l]);
    VisibleOfConcat([a] + [l], [b]);
  }

  lemma RunOfThree(s: State, a: Label, l: Label, b: Label)
    requires Enabled(s, a) && Enabled(Apply(s, a), l) && Enabled(Apply(Apply(s, a), l), b)
    ensures IsRun(s, [a, l, b]) && Exec(s, [a, l, b]) == Apply(Apply(Apply(s, a), l), b)
  {
    RunOfTwo(s, a, l);
    RunExtends(s, [a, l], b);
    assert [a, l] + [b] == [a, l, b];
  }

  /** The event of the protocol that a step stands for. */
  function MainLabel(ts: TimedState, e: Stamped): Label
    requires StepEnabled(ts, e)
  {
    match e.step
    case Happens(l) => l
    case Invalidates(op) => Remove(TakenKeys(ts.entries, op, e.now))
  }

  predicate UsesCache(ts: TimedState, e: Stamped)
    requires StepEnabled(ts, e)
  {
    e.step.Happens? && OperationOf(ts.rest, e.step.l).Some?
  }

  /**
    The entry of `id` is gone by the second clock reading. A cache operation drops what has expired
    by the first one, so what it leaves was live then or is new.
   */
  predicate Lapses(ts: TimedState, e: Stamped, ttl: Option<Ms>, id: Pair)
    requires StepEnabled(ts, e)
  {
    var m := TimedApply(ts, e, ttl).entries;
    id in m && Expired(m[id].deadline, e.later) && (UsesCache(ts, e) || !Expired(m[id].deadline, e.now))
  }

  function LapsedKeys(ts: TimedState, e: Stamped, ttl: Option<Ms>): set<Key>
    requires StepEnabled(ts, e)
  {
    var m := TimedApply(ts, e, ttl).entries;
    if UsesCache(ts, e) then ExpiredKeys(m, e.later) else ExpiringKeys(m, e.now, e.later)
  }

  lemma LapsedKeyLapses(ts: TimedState, e: Stamped, ttl: Option<Ms>, id: Pair)
    requires StepEnabled(ts, e) && Good(id)
    ensures KeyOf(id) in LapsedKeys(ts, e, ttl) <==> Lapses(ts, e, ttl, id)
  {
    var m := TimedApply(ts, e, ttl).entries;
    ExpiredKeyIsExpired(m, e.later, id);
    ExpiringKeyExpires(m, e.now, e.later, id);
  }

  /** The events of the protocol for one step: expiries, the event itself, expiries. */
  function Expand(ts: TimedState, before: Ms, e: Stamped, ttl: Option<Ms>): seq<Label>
    requires StepEnabled(ts, e)
  {
    [Remove(ExpiringKeys(ts.entries, before, e.now)), MainLabel(ts, e), Remove(LapsedKeys(ts, e, ttl))]
  }

  /** A cache event of the protocol, and the removal of what has expired by its later reading. */
  lemma CacheEventRefines(t: State, ts: TimedState, e: Stamped, ttl: Option<Ms>)
    requires Shows(t, ts, e.now) && e.now <= e.later && StepEnabled(ts, e) && UsesCache(ts, e)
    requires GoodCalls(t) && GoodStep(e)
    ensures Enabled(t, e.step.l)
    ensures Shows(Apply(Apply(t, e.step.l), Remove(LapsedKeys(ts, e, ttl))), TimedApply(ts, e, ttl), e.later)
  {
    CacheDecidesRepliesOnly(t, e.step.l);
    OperationThenExpiry(t, e.step.l, ts.entries, e.now, e.later, ttl);
    assert Bare(Apply(t, e.step.l)) == TimedApply(ts, e, ttl).rest;
  }

  /** Any other event. */
  lemma OtherEventRefines(t: State, ts: TimedState, e: Stamped, ttl: Option<Ms>)
    requires Shows(t, ts, e.now) && e.now <= e.later && StepEnabled(ts, e) && e.step.Happens? && !UsesCache(ts, e)
    ensures Enabled(t, e.step.l)
    ensures Shows(Apply(Apply(t, e.step.l), Remove(LapsedKeys(ts, e, ttl))), TimedApply(ts, e, ttl), e.later)
  {
    CacheDecidesRepliesOnly(t, e.step.l);
    var u := Apply(t, e.step.l);
    assert u.cache == t.cache;
    ExpiryIsRemoval(u, ts.entries, e.now, e.later);
    assert Bare(u) == TimedApply(ts, e, ttl).rest;
  }

  /** An invalidation, and the removal of what has expired by its later reading. */
  lemma InvalidationRefines(t: State, ts: TimedState, e: Stamped, ttl: Option<Ms>)
    requires Shows(t, ts, e.now) && e.now <= e.later && StepEnabled(ts, e) && e.step.Invalidates?
    ensures Shows(Apply(Apply(t, MainLabel(ts, e)), Remove(LapsedKeys(ts, e, ttl))), TimedApply(ts, e, ttl), e.later)
  {
    TakingIsInvalidation(t, ts.entries, e.step.op, e.now, e.later, ttl);
    var u := Apply(t, MainLabel(ts, e));
    ExpiryIsRemoval(u, TimedApply(ts, e, ttl).entries, e.now, e.later);
    assert Bare(u) == Bare(t);
  }

  /** One step of the timed protocol is the three events it expands to. */
  lemma StepRefines(s: State, ts: TimedState, before: Ms, e: Stamped, ttl: Option<Ms>)
    requires Shows(s, ts, before) && before <= e.now <= e.later && StepEnabled(ts, e)
    requires GoodCalls(s) && GoodStep(e)
    ensures IsRun(s, Expand(ts, before, e, ttl))
    ensures Shows(Exec(s, Expand(ts, before, e, ttl)), TimedApply(ts, e, ttl), e.later)
  {
    var gone := Remove(ExpiringKeys(ts.entries, before, e.now));
    ExpiryIsRemoval(s, ts.entries, before, e.now);
    var t := Apply(s, gone);
    assert Bare(t) == ts.rest;
    if UsesCache(ts, e) {
      CacheEventRefines(t, ts, e, ttl);
    } else if e.step.Happens? {
      OtherEventRefines(t, ts, e, ttl);
    } else {
      InvalidationRefines(t, ts, e, ttl);
    }
    RunOfThree(s, gone, MainLabel(ts, e), Remove(LapsedKeys(ts, e, ttl)));
  }

  lemma StepIsVisible(ts: TimedState, before: Ms, e: Stamped, ttl: Option<Ms>)
    requires StepEnabled(ts, e)
    ensures Visible(Expand(ts, before, e, ttl)) == if e.step.Happens? then [e.step.l] else []
  {
    VisibleOfThree(Remove(ExpiringKeys(ts.entries, before, e.now)), MainLabel(ts, e), Remove(LapsedKeys(ts, e, ttl)));
  }

  lemma {:induction false} VisibleOfConcat(a: seq<Label>, b: seq<Label>)
    ensures Visible(a + b) == Visible(a) + Visible(b)
    decreases |b|
  {
    if b == [] {
      assert a + b == a;
    } else {
      VisibleOfConcat(a, Front(b));
      assert Front(a + b) == a + Front(b);
    }
  }

  /** The time up to which a run has come. */
  function Reached(es: seq<Stamped>, start: Ms): Ms {
    if es == [] then start else Last(es).later
  }

  function ExpandAll(ts: TimedState, es: seq<Stamped>, start: Ms, ttl: Option<Ms>): seq<Label>
    requires IsTimedRun(ts, es, ttl)
    decreases |es|
  {
    if es == [] then []
    else
      ExpandAll(ts, Front(es), start, ttl) +
      Expand(TimedExec(ts, Front(es), ttl), Reached(Front(es), start), Last(es), ttl)
  }

  /** What is assumed of a run with a clock. */
  ghost predicate TimedRun(s0: State, es: seq<Stamped>, start: Ms, ttl: Option<Ms>) {
    && Start(s0) && GoodCalls(s0) && GoodSteps(es) && IsTimedRun(TimedState(s0, map[]), es, ttl)
    && Clocked(es) && (es != [] ==> start <= es[0].now)
  }

  lemma TimedRunPrefix(s0: State, es: seq<Stamped>, start: Ms, ttl: Option<Ms>)
    requires TimedRun(s0, es, start, ttl) && es != []
    ensures TimedRun(s0, Front(es), start, ttl) && GoodStep(Last(es))
    ensures Reached(Front(es), start) <= Last(es).now <= Last(es).later
  {
    assert forall e | e in Front(es) :: e in es;
    assert Front(es) != [] ==> Front(es)[0] == es[0];
    assert Last(es) in es;
  }

  /**
    Refinement: every run with a clock is a run of the protocol with the same events in the same
    order and removals in between, which ends with the same calls, clients and database, and with a
    cache that shows the same entries.
   */
  lemma {:induction false} TimedRunsRefine(s0: State, es: seq<Stamped>, start: Ms, ttl: Option<Ms>)
    requires TimedRun(s0, es, start, ttl)
    ensures var ls := ExpandAll(TimedState(s0, map[]), es, start, ttl);
            && IsRun(s0, ls) && Visible(ls) == Labels(es)
            && Shows(Exec(s0, ls), TimedExec(TimedState(s0, map[]), es, ttl), Reached(es, start))
    decreases |es|
  {
    if es != [] {
      TimedRunPrefix(s0, es, start, ttl);
      TimedRunsRefine(s0, Front(es), start, ttl);
      var first := ExpandAll(TimedState(s0, map[]), Front(es), start, ttl);
      var ts, before := TimedExec(TimedState(s0, map[]), Front(es), ttl), Reached(Front(es), start);
      RunKeepsCalls(s0, first);
      StepRefines(Exec(s0, first), ts, before, Last(es), ttl);
      StepIsVisible(ts, before, Last(es), ttl);
      RunConcat(s0, first, Expand(ts, before, Last(es), ttl));
      VisibleOfConcat(first, Expand(ts, before, Last(es), ttl));
    }
  }

  lemma {:induction false} VisibleHolds(ls: seq<Label>, j: nat)
    requires j < |ls| && !ls[j].Remove?
    ensures ls[j] in Visible(ls)
    decreases |ls|
  {
    if j < |ls| - 1 {
      VisibleHolds(Front(ls), j);
    }
  }

  lemma {:induction false} LabelsAreSteps(es: seq<Stamped>, l: Label) returns (j: nat)
    requires l in Labels(es)
    ensures j < |es| && es[j].step == Happens(l)
    decreases |es|
  {
    if Last(es).step == Happens(l) {
      j := |es| - 1;
    } else {
      j := LabelsAreSteps(Front(es), l);
    }
  }

  /**
    Justified grants over an expiring cache: whatever expires or is invalidated when, a True answer
    has an earlier step that brought the permission for the same membership.
   */
  lemma TimedGrantsAreJustified(
    s0: State, es: seq<Stamped>, start: Ms, ttl: Option<Ms>, i: TaskId, perm: string) returns (j: nat)
    requires TimedRun(s0, es, start, ttl)
    requires forall e | e in es :: e.step.Happens? && e.step.l.ChangeRole? ==> Good(e.step.l.id)
    requires SaysYes(TimedExec(TimedState(s0, map[]), es, ttl).rest, i, perm)
    ensures i < |s0.tasks| && j < |es| && es[j].step.Happens?
    ensures Justifies(s0.tasks, es[j].step.l, s0.tasks[i].id, perm)
  {
    TimedRunsRefine(s0, es, start, ttl);
    var ls := ExpandAll(TimedState(s0, map[]), es, start, ttl);
    var ids := IdsOf(s0, ls);
    forall l | l in ls && (l.WriteThrough? || l.ChangeRole?)
      ensures Good(l.id) && l.id in ids
    {
      var k :| 0 <= k < |ls| && ls[k] == l;
      VisibleHolds(ls, k);
      var n := LabelsAreSteps(es, l);
      assert es[n] in es;
    }
    forall p | p in ids
      ensures ColonFree(p.user)
    {
    }
    ColonFreeUsersAreSeparated(ids);
    JustifiedGrants(s0, ids, ls, i, perm);
    var k :| 0 <= k < |ls| && Justifies(s0.tasks, ls[k], s0.tasks[i].id, perm);
    VisibleHolds(ls, k);
    j := LabelsAreSteps(es, ls[k]);
  }

  /** The memberships a run is about. */
  function IdsOf(s0: State, ls: seq<Label>): set<Pair> {
    (set i | 0 <= i < |s0.tasks| :: s0.tasks[i].id) +
    (set l | l in ls && (l.WriteThrough? || l.ChangeRole?) :: l.id)
  }
}
