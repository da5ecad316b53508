/**
  Coherence over a cache whose entries expire: what it asks of the moments at which entries reach
  their deadline. An expiry is a removal that nobody times, so it is harmless exactly as a removal is.
 */
module TimedCoherence {
  import opened Prelude
  import opened Keys
  import opened TimedMap
  import opened Protocol
  import opened Coherence
  import opened NeverBehind
  import opened ProtocolCache
  import opened TimedProtocol

  /** Which of the two conditions on removals is meant. */
  datatype Guard = Safe | Punctually

  ghost predicate Permits(g: Guard, s: State, id: Pair) {
    match g
    case Safe => RemovalIsSafe(s, id)
    case Punctually => NoneHeldBehind(s, id)
  }

  ghost predicate Allows(g: Guard, s: State, ids: set<Pair>, l: Label) {
    match g
    case Safe => Orderly(s, ids, l)
    case Punctually => Punctual(s, ids, l)
  }

  ghost predicate AllowsRun(g: Guard, s: State, ids: set<Pair>, ls: seq<Label>)
    requires IsRun(s, ls)
  {
    match g
    case Safe => OrderlyRun(s, ids, ls)
    case Punctually => PunctualRun(s, ids, ls)
  }

  lemma AllowsNext(g: Guard, s: State, ids: set<Pair>, ls: seq<Label>, l: Label)
    requires IsRun(s, ls) && AllowsRun(g, s, ids, ls) && Enabled(Exec(s, ls), l) && Allows(g, Exec(s, ls), ids, l)
    ensures IsRun(s, ls + [l]) && AllowsRun(g, s, ids, ls + [l])
  {
    RunExtends(s, ls, l);
    assert Front(ls + [l]) == ls && Last(ls + [l]) == l;
  }

  /** The conditions are about the calls and the database, not about the cache. */
  lemma CacheDoesNotMatter(g: Guard, s: State, t: State, id: Pair)
    requires Bare(s) == Bare(t)
    ensures Permits(g, s, id) <==> Permits(g, t, id)
  {
    assert forall i :: HeldIsCurrent(s, id, i) <==> HeldIsCurrent(t, id, i);
    assert forall i :: HeldNotBehind(s, id, i) <==> HeldNotBehind(t, id, i);
  }

  ghost predicate EventIsGuarded(ids: set<Pair>, l: Label) {
    match l
    case ChangeRole(id, _) => id in ids
    case WriteThrough(id, _, of) => id in ids && of.Some?
    case _ => true
  }

  /**
    The step is in order, and the entries that expire before, are invalidated by, or expire during
    it are all ones whose removal is harmless at that moment.
   */
  ghost predicate GuardedStep(
    g: Guard, ids: set<Pair>, ts: TimedState, before: Ms, e: Stamped, ttl: Option<Ms>)
    requires StepEnabled(ts, e)
  {
    && (forall id | id in ids && Expires(ts.entries, id, before, e.now) :: Permits(g, ts.rest, id))
    && (match e.step
        case Happens(l) => EventIsGuarded(ids, l)
        case Invalidates(op) => forall id | id in ids && Takes(ts.entries, op, e.now, id) :: Permits(g, ts.rest, id))
    && (forall id | id in ids && Lapses(ts, e, ttl, id) :: Permits(g, TimedApply(ts, e, ttl).rest, id))
  }

  ghost predicate GuardedRun(g: Guard, ids: set<Pair>, ts: TimedState, es: seq<Stamped>, start: Ms, ttl: Option<Ms>)
    requires IsTimedRun(ts, es, ttl)
    decreases |es|
  {
    es == [] ||
    (GuardedRun(g, ids, ts, Front(es), start, ttl) &&
     GuardedStep(g, ids, TimedExec(ts, Front(es), ttl), Reached(Front(es), start), Last(es), ttl))
  }

  ghost predicate AllGood(ids: set<Pair>) {
    forall id | id in ids :: Good(id)
  }

  lemma RemovalAllowed(g: Guard, s: State, ids: set<Pair>, keys: set<Key>)
    requires forall id | id in ids && KeyOf(id) in keys :: Permits(g, s, id)
    ensures Allows(g, s, ids, Remove(keys))
  {
  }

  lemma FirstRemovalAllowed(
    g: Guard, ids: set<Pair>, s: State, ts: TimedState, before: Ms, e: Stamped, ttl: Option<Ms>)
    requires AllGood(ids) && Bare(s) == ts.rest && StepEnabled(ts, e) && GuardedStep(g, ids, ts, before, e, ttl)
    ensures Allows(g, s, ids, Remove(ExpiringKeys(ts.entries, before, e.now)))
  {
    forall id | id in ids && KeyOf(id) in ExpiringKeys(ts.entries, before, e.now)
      ensures Permits(g, s, id)
    {
      ExpiringKeyExpires(ts.entries, before, e.now, id);
      CacheDoesNotMatter(g, s, ts.rest, id);
    }
    RemovalAllowed(g, s, ids, ExpiringKeys(ts.entries, before, e.now));
  }

  lemma MainAllowed(g: Guard, ids: set<Pair>, t: State, ts: TimedState, before: Ms, e: Stamped, ttl: Option<Ms>)
    requires AllGood(ids) && Bare(t) == ts.rest && StepEnabled(ts, e) && GuardedStep(g, ids, ts, before, e, ttl)
    ensures Allows(g, t, ids, MainLabel(ts, e))
  {
    match e.step {
      case Happens(l) =>
      case Invalidates(op) =>
        forall id | id in ids && KeyOf(id) in TakenKeys(ts.entries, op, e.now)
          ensures Permits(g, t, id)
        {
          TakenKeyIsTaken(ts.entries, op, e.now, id);
          CacheDoesNotMatter(g, t, ts.rest, id);
        }
        RemovalAllowed(g, t, ids, TakenKeys(ts.entries, op, e.now));
    }
  }

  lemma LastRemovalAllowed(
    g: Guard, ids: set<Pair>, u: State, ts: TimedState, before: Ms, e: Stamped, ttl: Option<Ms>)
    requires AllGood(ids) && StepEnabled(ts, e) && GuardedStep(g, ids, ts, before, e, ttl)
    requires Bare(u) == TimedApply(ts, e, ttl).rest
    ensures Allows(g, u, ids, Remove(LapsedKeys(ts, e, ttl)))
  {
    forall id | id in ids && KeyOf(id) in LapsedKeys(ts, e, ttl)
      ensures Permits(g, u, id)
    {
      LapsedKeyLapses(ts, e, ttl, id);
      CacheDoesNotMatter(g, u, TimedApply(ts, e, ttl).rest, id);
    }
    RemovalAllowed(g, u, ids, LapsedKeys(ts, e, ttl));
  }

  /** A guarded step adds three allowed events to a run. */
  lemma StepAllowed(
    g: Guard, ids: set<Pair>, s0: State, ls: seq<Label>, ts: TimedState, before: Ms, e: Stamped, ttl: Option<Ms>)
    requires AllGood(ids) && IsRun(s0, ls) && AllowsRun(g, s0, ids, ls)
    requires Shows(Exec(s0, ls), ts, before) && before <= e.now <= e.later && StepEnabled(ts, e)
    requires GoodCalls(Exec(s0, ls)) && GoodStep(e) && GuardedStep(g, ids, ts, before, e, ttl)
    ensures var more := Expand(ts, before, e, ttl); IsRun(s0, ls + more) && AllowsRun(g, s0, ids, ls + more)
  {
    var s := Exec(s0, ls);
    var a, l, b := Remove(ExpiringKeys(ts.entries, before, e.now)), MainLabel(ts, e), Remove(LapsedKeys(ts, e, ttl));
    StepRunsInParts(s, ts, before, e, ttl);
    var t := Apply(s, a);
    FirstRemovalAllowed(g, ids, s, ts, before, e, ttl);
    AllowsNext(g, s0, ids, ls, a);
    RunExtends(s0, ls, a);
    MainAllowed(g, ids, t, ts, before, e, ttl);
    AllowsNext(g, s0, ids, ls + [a], l);
    RunExtends(s0, ls + [a], l);
    LastRemovalAllowed(g, ids, Apply(t, l), ts, before, e, ttl);
    AllowsNext(g, s0, ids, ls + [a] + [l], b);
    assert ls + [a] + [l] + [b] == ls + Expand(ts, before, e, ttl);
  }

  /** The states a step passes through. */
  lemma StepRunsInParts(s: State, ts: TimedState, before: Ms, e: Stamped, ttl: Option<Ms>)
    requires Shows(s, ts, before) && before <= e.now <= e.later && StepEnabled(ts, e)
    requires GoodCalls(s) && GoodStep(e)
    ensures var t := Apply(s, Remove(ExpiringKeys(ts.entries, before, e.now)));
            Bare(t) == ts.rest && Enabled(t, MainLabel(ts, e)) &&
            Bare(Apply(t, MainLabel(ts, e))) == TimedApply(ts, e, ttl).rest
  {
    ExpiryIsRemoval(s, ts.entries, before, e.now);
    var t := Apply(s, Remove(ExpiringKeys(ts.entries, before, e.now)));
    assert Bare(t) == ts.rest;
    if UsesCache(ts, e) {
      CacheEventRefines(t, ts, e, ttl);
    } else if e.step.Happens? {
      OtherEventRefines(t, ts, e, ttl);
    } else {
      InvalidationRefines(t, ts, e, ttl);
    }
  }

  lemma {:induction false} GuardedRunIsAllowed(
    g: Guard, ids: set<Pair>, s0: State, es: seq<Stamped>, start: Ms, ttl: Option<Ms>)
    requires AllGood(ids) && TimedRun(s0, es, start, ttl) && GuardedRun(g, ids, TimedState(s0, map[]), es, start, ttl)
    ensures var ls := ExpandAll(TimedState(s0, map[]), es, start, ttl);
            IsRun(s0, ls) && AllowsRun(g, s0, ids, ls)
    decreases |es|
  {
    if es != [] {
      TimedRunPrefix(s0, es, start, ttl);
      GuardedRunIsAllowed(g, ids, s0, Front(es), start, ttl);
      TimedRunsRefine(s0, Front(es), start, ttl);
      var ts := TimedState(s0, map[]);
      var first := ExpandAll(ts, Front(es), start, ttl);
      RunKeepsCalls(s0, first);
      StepAllowed(g, ids, s0, first, TimedExec(ts, Front(es), ttl), Reached(Front(es), start), Last(es), ttl);
    }
  }

  /** What the timed map shows of a membership is what the protocol's cache holds for it. */
  lemma ShownIsCached(s: State, ts: TimedState, now: Ms, id: Pair)
    requires Shows(s, ts, now) && Good(id)
    ensures CacheLookup(s, KeyOf(id)) == PermsOf(Live(ts.entries, id, now))
    ensures Current(s, id) == Current(ts.rest, id) && WritePending(s, id) == WritePending(ts.rest, id)
    ensures RowOf(s, id) == RowOf(ts.rest, id)
  {
  }

  lemma GoodIsSeparated(ids: set<Pair>)
    requires AllGood(ids)
    ensures Separated(ids)
  {
    ColonFreeUsersAreSeparated(ids);
  }

  /**
    Quiescent coherence with a clock: if entries expire and are invalidated only when a write-through
    is due or every held answer is current, then at the end of every run a live entry of a membership
    with no write-through due shows Helios's current permissions.
   */
  lemma TimedQuiescentCoherence(
    s0: State, ids: set<Pair>, es: seq<Stamped>, start: Ms, ttl: Option<Ms>, id: Pair)
    requires AllGood(ids) && CallsIn(s0, ids) && id in ids && TimedRun(s0, es, start, ttl)
    requires GuardedRun(Safe, ids, TimedState(s0, map[]), es, start, ttl)
    ensures var ts := TimedExec(TimedState(s0, map[]), es, ttl);
            var shown := PermsOf(Live(ts.entries, id, Reached(es, start)));
            !WritePending(ts.rest, id) && shown.Some? ==> shown.value == Current(ts.rest, id)
  {
    var ts := TimedState(s0, map[]);
    var ls := ExpandAll(ts, es, start, ttl);
    TimedRunsRefine(s0, es, start, ttl);
    GuardedRunIsAllowed(Safe, ids, s0, es, start, ttl);
    GoodIsSeparated(ids);
    QuiescentCoherence(s0, ids, ls, id);
    ShownIsCached(Exec(s0, ls), TimedExec(ts, es, ttl), Reached(es, start), id);
  }

  /**
    Never behind with a clock: if entries expire and are invalidated only while no held answer is
    older than the last write-through, a live entry always shows the list of the last version written
    through, or of a later one.
   */
  lemma TimedCacheIsNeverBehind(
    s0: State, ids: set<Pair>, es: seq<Stamped>, start: Ms, ttl: Option<Ms>, id: Pair)
    requires AllGood(ids) && CallsIn(s0, ids) && id in ids && TimedRun(s0, es, start, ttl)
    requires GuardedRun(Punctually, ids, TimedState(s0, map[]), es, start, ttl)
    ensures var ts := TimedExec(TimedState(s0, map[]), es, ttl);
            var shown := PermsOf(Live(ts.entries, id, Reached(es, start)));
            shown.Some? ==> IsSince(RowOf(ts.rest, id), shown.value)
  {
    var ts := TimedState(s0, map[]);
    var ls := ExpandAll(ts, es, start, ttl);
    TimedRunsRefine(s0, es, start, ttl);
    GuardedRunIsAllowed(Punctually, ids, s0, es, start, ttl);
    GoodIsSeparated(ids);
    CacheIsNeverBehind(s0, ids, ls, id);
    ShownIsCached(Exec(s0, ls), TimedExec(ts, es, ttl), Reached(es, start), id);
  }
}
