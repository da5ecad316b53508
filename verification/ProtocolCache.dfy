/**
  The shared cache of the protocol is the cache of the other modules: its events are operations of
  the timed map, and an expiry or an invalidation is one of its removals.
 */
module ProtocolCache {
  import opened Prelude
  import opened Keys
  import opened TimedMap
  import opened Client
  import opened Protocol

  /** The protocol's cache shows what the timed map shows at time `now`. */
  ghost predicate SameCache(cache: map<Key, Perms>, m: Timed, now: Ms) {
    forall id | Good(id) :: (if KeyOf(id) in cache then Some(cache[KeyOf(id)]) else None) == PermsOf(Live(m, id, now))
  }

  /** The cache operation an event of the protocol executes. */
  function OperationOf(s: State, l: Label): Option<Op>
    requires Enabled(s, l)
  {
    match l
    case ServeGet(i, true) => Some(Get(s.tasks[i].id))
    case ServeSet(i, true) => Some(TimedMap.Set(s.tasks[i].id, s.tasks[i].pc.perms))
    case WriteThrough(id, perms, _) => Some(Write(id, perms))
    case _ => None
  }

  /** Entries live for some time after they are written. */
  predicate Lasting(ttl: Option<Ms>) {
    ttl.Some? ==> ttl.value > 0.0
  }

  /** GET, SET NX and write-through of the protocol are the operations of the cache. */
  lemma EventsAreOperations(s: State, l: Label, m: Timed, now: Ms, later: Ms, ttl: Option<Ms>)
    requires Enabled(s, l) && OperationOf(s, l).Some? && GoodOp(OperationOf(s, l).value)
    requires SameCache(s.cache, m, now) && now <= later && Lasting(ttl)
    ensures var (m', observed) := Do(m, Event(now, later, OperationOf(s, l).value), ttl);
            && SameCache(Apply(s, l).cache, m', now)
            && (l.ServeGet? ==> Apply(s, l).tasks[l.i].pc == GotReply(observed))
  {
    var op := OperationOf(s, l).value;
    var m' := Do(m, Event(now, later, op), ttl).0;
    var key := KeyOf(op.id);
    assert CacheLookup(s, key) == PermsOf(Live(m, op.id, now));
    var cache' := Apply(s, l).cache;
    forall id | Good(id)
      ensures (if KeyOf(id) in cache' then Some(cache'[KeyOf(id)]) else None) == PermsOf(Live(m', id, now))
    {
      UserColonFreeInjective(op.id, id);
      assert CacheLookup(s, KeyOf(id)) == PermsOf(Live(m, id, now));
    }
  }

  predicate IsInvalidation(op: Op) {
    op.Invalidate? || op.InvalidateUser? || op.InvalidateTenant?
  }

  /** What a removal of the cache takes away, as a set of keys. */
  function RemovedKeys(cache: map<Key, Perms>, op: Op): set<Key>
    requires IsInvalidation(op)
  {
    match op
    case Invalidate(id) => {KeyOf(id)}
    case InvalidateUser(user) => set k | k in cache && StartsWith(k, UserPrefix(user))
    case InvalidateTenant(tenant) => set k | k in cache && EndsWith(k, TenantSuffix(tenant))
  }

  /** The three invalidations are removals of the protocol. */
  lemma InvalidationsAreRemovals(s: State, m: Timed, op: Op, now: Ms, later: Ms, ttl: Option<Ms>)
    requires IsInvalidation(op)
    requires GoodOp(op) && SameCache(s.cache, m, now)
    ensures SameCache(Apply(s, Remove(RemovedKeys(s.cache, op))).cache, Do(m, Event(now, later, op), ttl).0, now)
  {
    var m' := Do(m, Event(now, later, op), ttl).0;
    var cache' := Apply(s, Remove(RemovedKeys(s.cache, op))).cache;
    forall id | Good(id)
      ensures (if KeyOf(id) in cache' then Some(cache'[KeyOf(id)]) else None) == PermsOf(Live(m', id, now))
    {
      match op {
        case Invalidate(other) => UserColonFreeInjective(other, id);
        case InvalidateUser(user) => UserPrefixSelectsUser(id, user);
        case InvalidateTenant(tenant) => TenantSuffixSelectsTenant(id, tenant);
      }
      assert CacheLookup(s, KeyOf(id)) == PermsOf(Live(m, id, now));
    }
  }

  /** The keys of the entries that have expired. */
  function ExpiredKeys(m: Timed, now: Ms): set<Key> {
    set id | id in m && Good(id) && Expired(m[id].deadline, now) :: KeyOf(id)
  }

  lemma ExpiredKeyIsExpired(m: Timed, now: Ms, id: Pair)
    requires Good(id)
    ensures KeyOf(id) in ExpiredKeys(m, now) <==> id in m && Expired(m[id].deadline, now)
  {
    forall other | other in m && Good(other) && KeyOf(other) == KeyOf(id)
      ensures other == id
    {
      UserColonFreeInjective(other, id);
    }
  }

  predicate Expires(m: Timed, id: Pair, now: Ms, later: Ms) {
    id in m && !Expired(m[id].deadline, now) && Expired(m[id].deadline, later)
  }

  /** The keys of the entries that expire after `now` and up to `later`. */
  function ExpiringKeys(m: Timed, now: Ms, later: Ms): set<Key> {
    set id | id in m && Good(id) && Expires(m, id, now, later) :: KeyOf(id)
  }

  lemma ExpiringKeyExpires(m: Timed, now: Ms, later: Ms, id: Pair)
    requires Good(id)
    ensures KeyOf(id) in ExpiringKeys(m, now, later) <==> Expires(m, id, now, later)
  {
    forall other | other in m && Good(other) && KeyOf(other) == KeyOf(id)
      ensures other == id
    {
      UserColonFreeInjective(other, id);
    }
  }

  /** And so is the passing of time, which expires some entries. */
  lemma ExpiryIsRemoval(s: State, m: Timed, now: Ms, later: Ms)
    requires SameCache(s.cache, m, now) && now <= later
    ensures SameCache(Apply(s, Remove(ExpiringKeys(m, now, later))).cache, m, later)
  {
    var cache' := Apply(s, Remove(ExpiringKeys(m, now, later))).cache;
    forall id | Good(id)
      ensures (if KeyOf(id) in cache' then Some(cache'[KeyOf(id)]) else None) == PermsOf(Live(m, id, later))
    {
      assert CacheLookup(s, KeyOf(id)) == PermsOf(Live(m, id, now));
      ExpiringKeyExpires(m, now, later, id);
    }
  }

  /** The invalidation takes the entry of `id`, which is live. */
  predicate Takes(m: Timed, op: Op, now: Ms, id: Pair)
    requires IsInvalidation(op)
  {
    Live(m, id, now).Some? &&
    match op
    case Invalidate(other) => other == id
    case InvalidateUser(user) => user == id.user
    case InvalidateTenant(tenant) => tenant == id.tenant
  }

  function TakenKeys(m: Timed, op: Op, now: Ms): set<Key>
    requires IsInvalidation(op)
  {
    set id | id in m && Good(id) && Takes(m, op, now, id) :: KeyOf(id)
  }

  lemma TakenKeyIsTaken(m: Timed, op: Op, now: Ms, id: Pair)
    requires IsInvalidation(op) && Good(id)
    ensures KeyOf(id) in TakenKeys(m, op, now) <==> Takes(m, op, now, id)
  {
    forall other | other in m && Good(other) && KeyOf(other) == KeyOf(id)
      ensures other == id
    {
      UserColonFreeInjective(other, id);
    }
  }

  /** An invalidation is also the removal of just the live entries it takes. */
  lemma TakingIsInvalidation(s: State, m: Timed, op: Op, now: Ms, later: Ms, ttl: Option<Ms>)
    requires IsInvalidation(op) && SameCache(s.cache, m, now)
    ensures SameCache(Apply(s, Remove(TakenKeys(m, op, now))).cache, Do(m, Event(now, later, op), ttl).0, now)
  {
    var m' := Do(m, Event(now, later, op), ttl).0;
    var cache' := Apply(s, Remove(TakenKeys(m, op, now))).cache;
    forall id | Good(id)
      ensures (if KeyOf(id) in cache' then Some(cache'[KeyOf(id)]) else None) == PermsOf(Live(m', id, now))
    {
      assert CacheLookup(s, KeyOf(id)) == PermsOf(Live(m, id, now));
      TakenKeyIsTaken(m, op, now, id);
    }
  }
}
