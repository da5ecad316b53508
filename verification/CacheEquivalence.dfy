/** The Redis cache and the in-memory cache cannot be told apart by the operations of the protocol. */
module CacheEquivalence {
  import opened Prelude
  import opened Keys
  import opened TimedMap
  import opened Json
  import opened Glob
  import opened RedisCache
  import opened InMemoryCache

  /** Any operation on the Redis store, undisturbed, and what it returns. */
  function RedisDo(store: Store, e: Event, ttlSeconds: int): (Store, Option<Perms>) {
    match e.op
    case Get(id) => (store, ReadCached(LiveRaw(store, RedisKey(id), e.now)))
    case Set(id, perms) => (StoreSet(store, RedisKey(id), Dumps(perms), true, e.now, Ex(ttlSeconds)), None)
    case Write(id, perms) => (StoreSet(store, RedisKey(id), Dumps(perms), false, e.now, Ex(ttlSeconds)), None)
    case Invalidate(id) => (store - {RedisKey(id)}, None)
    case InvalidateUser(user) => (WithoutMatching(store, UserPattern(user)), None)
    case InvalidateTenant(tenant) => (WithoutMatching(store, TenantPattern(tenant)), None)
  }

  function RedisAfter(es: seq<Event>, n: nat, ttlSeconds: int): Store
    requires n <= |es|
    decreases n
  {
    if n == 0 then map[] else RedisDo(RedisAfter(es, n - 1, ttlSeconds), es[n - 1], ttlSeconds).0
  }

  function RedisObservation(es: seq<Event>, j: nat, ttlSeconds: int): Option<Perms>
    requires j < |es|
  {
    RedisDo(RedisAfter(es, j, ttlSeconds), es[j], ttlSeconds).1
  }

  /** The ids an operation puts into a pattern are free of glob characters. */
  predicate PlainOp(op: Op) {
    GoodOp(op) &&
    match op
    case InvalidateUser(user) => GlobFree(user)
    case InvalidateTenant(tenant) => GlobFree(tenant)
    case _ => true
  }

  /** Redis reads its clock once per command; with a time-to-live the in-memory `set` must agree with that. */
  predicate Plain(e: Event, ttlSeconds: int) {
    PlainOp(e.op) && (ttlSeconds > 0 && (e.op.Set? || e.op.Write?) ==> e.later == e.now)
  }

  ghost predicate PlainEvents(es: seq<Event>, ttlSeconds: int) {
    forall e | e in es :: Plain(e, ttlSeconds)
  }

  function LiveItem(store: Store, key: string, now: Ms): Option<Item> {
    if key in store && !Expired(store[key].deadline, now) then Some(store[key]) else None
  }

  /** A stored item represents an entry: same deadline, and its text decodes to the list. */
  predicate Represents(item: Option<Item>, entry: Option<Entry>) {
    match (item, entry)
    case (None, None) => true
    case (Some(i), Some(e)) => i.deadline == e.deadline && Loads(i.raw) == Some(e.perms)
    case _ => false
  }

  /** From `now` on, store and timed map show the same for the good pair `id`. */
  ghost predicate AgreeAt(store: Store, m: Timed, id: Pair, now: Ms) {
    forall t | now <= t :: Represents(LiveItem(store, RedisKey(id), t), Live(m, id, t))
  }

  ghost predicate StoreAgrees(store: Store, m: Timed, now: Ms) {
    forall id | Good(id) :: AgreeAt(store, m, id, now)
  }

  /** What an operation selects among the Redis keys of good pairs. */
  lemma RedisOpSelects(op: Op, id: Pair)
    requires PlainOp(op) && Good(id)
    ensures match op
            case InvalidateUser(user) => Match(UserPattern(user), RedisKey(id)) <==> id.user == user
            case InvalidateTenant(tenant) => Match(TenantPattern(tenant), RedisKey(id)) <==> id.tenant == tenant
            case _ => RedisKey(op.id) == RedisKey(id) <==> op.id == id
  {
    match op {
      case InvalidateUser(user) => UserPatternSelectsUser(user, id);
      case InvalidateTenant(tenant) => TenantPatternSelectsTenant(tenant, id);
      case _ => RedisKeyInjective(op.id, id);
    }
  }

  lemma WritesAgree(store: Store, m: Timed, e: Event, ttlSeconds: int, id: Pair)
    requires StoreAgrees(store, m, e.now) && Plain(e, ttlSeconds) && Good(id) && (e.op.Set? || e.op.Write?)
    ensures AgreeAt(RedisDo(store, e, ttlSeconds).0, Do(m, e, Ex(ttlSeconds)).0, id, e.now)
  {
    RedisOpSelects(e.op, id);
    JsonRoundTrip(e.op.perms, ", ");
    assert AgreeAt(store, m, id, e.now);
    assert Represents(LiveItem(store, RedisKey(id), e.now), Live(m, id, e.now));
  }

  lemma OthersAgree(store: Store, m: Timed, e: Event, ttlSeconds: int, id: Pair)
    requires StoreAgrees(store, m, e.now) && Plain(e, ttlSeconds) && Good(id) && !e.op.Set? && !e.op.Write?
    ensures AgreeAt(RedisDo(store, e, ttlSeconds).0, Do(m, e, Ex(ttlSeconds)).0, id, e.now)
  {
    RedisOpSelects(e.op, id);
    var store', m' := RedisDo(store, e, ttlSeconds).0, Do(m, e, Ex(ttlSeconds)).0;
    assert AgreeAt(store, m, id, e.now);
    forall t | e.now <= t
      ensures Represents(LiveItem(store', RedisKey(id), t), Live(m', id, t))
    {
      assert Represents(LiveItem(store, RedisKey(id), t), Live(m, id, t));
    }
  }

  lemma RedisStepRefinesTimedMap(store: Store, m: Timed, e: Event, ttlSeconds: int)
    requires StoreAgrees(store, m, e.now) && Plain(e, ttlSeconds)
    ensures RedisDo(store, e, ttlSeconds).1 == Do(m, e, Ex(ttlSeconds)).1
    ensures StoreAgrees(RedisDo(store, e, ttlSeconds).0, Do(m, e, Ex(ttlSeconds)).0, e.now)
  {
    if e.op.Get? {
      assert AgreeAt(store, m, e.op.id, e.now);
      assert Represents(LiveItem(store, RedisKey(e.op.id), e.now), Live(m, e.op.id, e.now));
    }
    forall id | Good(id)
      ensures AgreeAt(RedisDo(store, e, ttlSeconds).0, Do(m, e, Ex(ttlSeconds)).0, id, e.now)
    {
      if e.op.Set? || e.op.Write? {
        WritesAgree(store, m, e, ttlSeconds, id);
      } else {
        OthersAgree(store, m, e, ttlSeconds, id);
      }
    }
  }

  lemma {:induction false} RedisHistoriesAgree(es: seq<Event>, n: nat, ttlSeconds: int, now: Ms)
    requires Monotone(es) && PlainEvents(es, ttlSeconds) && n <= |es| && (n > 0 ==> es[n - 1].now <= now)
    ensures StoreAgrees(RedisAfter(es, n, ttlSeconds), StateAfter(es, n, Ex(ttlSeconds)), now)
    decreases n
  {
    if n > 0 {
      var e := es[n - 1];
      RedisHistoriesAgree(es, n - 1, ttlSeconds, e.now);
      RedisStepRefinesTimedMap(RedisAfter(es, n - 1, ttlSeconds), StateAfter(es, n - 1, Ex(ttlSeconds)), e, ttlSeconds);
      forall id | Good(id)
        ensures AgreeAt(RedisAfter(es, n, ttlSeconds), StateAfter(es, n, Ex(ttlSeconds)), id, now)
      {
        assert AgreeAt(RedisAfter(es, n, ttlSeconds), StateAfter(es, n, Ex(ttlSeconds)), id, e.now);
      }
    }
  }

  /** The Redis cache behaves as the timed map. */
  lemma RedisRefinesTimedMap(es: seq<Event>, j: nat, ttlSeconds: int)
    requires Monotone(es) && PlainEvents(es, ttlSeconds) && j < |es|
    ensures RedisObservation(es, j, ttlSeconds) == Observation(es, j, Ex(ttlSeconds))
  {
    RedisHistoriesAgree(es, j, ttlSeconds, es[j].now);
    RedisStepRefinesTimedMap(RedisAfter(es, j, ttlSeconds), StateAfter(es, j, Ex(ttlSeconds)), es[j], ttlSeconds);
  }

  /**
    Cache equivalence: with a monotone clock, colon-free ids, glob-free patterns and the same
    time-to-live, every history of operations is observed alike on the JSON values under Redis keys
    and on the in-memory dictionary.
   */
  lemma CachesAreEquivalent(es: seq<Event>, j: nat, ttlSeconds: int)
    requires Monotone(es) && PlainEvents(es, ttlSeconds) && j < |es|
    ensures RedisObservation(es, j, ttlSeconds) == DictObservation(es, j, Ex(ttlSeconds))
  {
    RedisRefinesTimedMap(es, j, ttlSeconds);
    assert GoodEvents(es) by {
      forall e | e in es
        ensures GoodOp(e.op)
      {
        assert Plain(e, ttlSeconds);
      }
    }
    LazyExpiryRefinesEager(es, j, Ex(ttlSeconds));
  }

  /** A history of one `set`, with its two clock readings, and one later `get`. */
  function SetThenGet(id: Pair, perms: Perms, now: Ms, later: Ms, t: Ms): seq<Event> {
    [Event(now, later, TimedMap.Set(id, perms)), Event(t, t, Get(id))]
  }

  lemma SetThenGetObservations(id: Pair, perms: Perms, now: Ms, later: Ms, t: Ms, ttlSeconds: int)
    ensures RedisObservation(SetThenGet(id, perms, now, later, t), 1, ttlSeconds) ==
            if Expired(DeadlineFrom(now, Ex(ttlSeconds)), t) then None else Some(perms)
    ensures DictObservation(SetThenGet(id, perms, now, later, t), 1, Ex(ttlSeconds)) ==
            if Expired(DeadlineFrom(later, Ex(ttlSeconds)), t) then None else Some(perms)
  {
    var es := SetThenGet(id, perms, now, later, t);
    JsonRoundTrip(perms, ", ");
    assert RedisAfter(es, 0, ttlSeconds) == map[] && DictAfter(es, 0, Ex(ttlSeconds)) == map[];
    assert RedisAfter(es, 1, ttlSeconds) == map[RedisKey(id) := Item(Dumps(perms), DeadlineFrom(now, Ex(ttlSeconds)))];
    assert DictAfter(es, 1, Ex(ttlSeconds)) == map[KeyOf(id) := Entry(perms, DeadlineFrom(later, Ex(ttlSeconds)))];
  }

  /**
    That condition is needed: the caches agree on one `set` and every later `get` if and only if the
    two clock readings are the same or entries do not expire.
   */
  lemma TwoReadingsAgreeIff(id: Pair, perms: Perms, now: Ms, later: Ms, ttlSeconds: int)
    requires now <= later
    ensures (forall t | later <= t ::
               RedisObservation(SetThenGet(id, perms, now, later, t), 1, ttlSeconds) ==
               DictObservation(SetThenGet(id, perms, now, later, t), 1, Ex(ttlSeconds))) <==>
            later == now || ttlSeconds <= 0
  {
    forall t
      ensures RedisObservation(SetThenGet(id, perms, now, later, t), 1, ttlSeconds) ==
              DictObservation(SetThenGet(id, perms, now, later, t), 1, Ex(ttlSeconds)) <==>
              (Expired(DeadlineFrom(now, Ex(ttlSeconds)), t) <==> Expired(DeadlineFrom(later, Ex(ttlSeconds)), t))
    {
      SetThenGetObservations(id, perms, now, later, t, ttlSeconds);
    }
    if now < later && ttlSeconds > 0 {
      var end := now + ttlSeconds as real * 1000.0;
      var t := if end < later then later else end;
      assert RedisObservation(SetThenGet(id, perms, now, later, t), 1, ttlSeconds) !=
             DictObservation(SetThenGet(id, perms, now, later, t), 1, Ex(ttlSeconds));
    }
  }
}
