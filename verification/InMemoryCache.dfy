/** `InMemoryPermissionCache`: a dictionary with string keys and lazy expiry. */
module InMemoryCache {
  import opened Prelude
  import opened Keys
  import opened TimedMap

  type Dict = map<string, Entry>

  /** `get` returns a live entry; it drops the entry it finds expired, and only that one. */
  function DictGet(d: Dict, key: string, now: Ms): (Dict, Option<Perms>) {
    if key in d && Expired(d[key].deadline, now) then (d - {key}, None)
    else (d, PermsOf(Live(d, key, now)))
  }

  /** `set` reads the clock twice: for the test of the old entry, and for the new deadline. */
  function DictSet(d: Dict, key: string, perms: Perms, now: Ms, later: Ms, ttl: Option<Ms>): Dict {
    if Live(d, key, now).Some? then d else d[key := Entry(perms, DeadlineFrom(later, ttl))]
  }

  function DictWrite(d: Dict, key: string, perms: Perms, now: Ms, ttl: Option<Ms>): Dict {
    d[key := Entry(perms, DeadlineFrom(now, ttl))]
  }

  function WithoutPrefix(d: Dict, prefix: string): Dict {
    map k | k in d && !StartsWith(k, prefix) :: d[k]
  }

  function WithoutSuffix(d: Dict, suffix: string): Dict {
    map k | k in d && !EndsWith(k, suffix) :: d[k]
  }

  class InMemoryPermissionCache {
    var store: Dict
    const ttl: Option<Ms>

    constructor (ttl: Option<Ms>)
      ensures store == map[] && this.ttl == ttl
    {
      this.ttl := ttl;
      store := map[];
    }

    method Get(id: Pair, now: Ms) returns (r: Option<Perms>)
      modifies this
      ensures (store, r) == DictGet(old(store), KeyOf(id), now)
    {
      var k := KeyOf(id);
      if k !in store {
        return None;
      }
      var entry := store[k];
      if Expired(entry.deadline, now) {
        store := store - {k};
        return None;
      }
      return Some(entry.perms);
    }

    method Set(id: Pair, perms: Perms, now: Ms, later: Ms)
      modifies this
      ensures store == DictSet(old(store), KeyOf(id), perms, now, later, ttl)
    {
      var k := KeyOf(id);
      if k in store && !Expired(store[k].deadline, now) {
        return;
      }
      store := store[k := Entry(perms, DeadlineFrom(later, ttl))];
    }

    method WriteThrough(id: Pair, perms: Perms, now: Ms)
      modifies this
      ensures store == DictWrite(old(store), KeyOf(id), perms, now, ttl)
    {
      store := store[KeyOf(id) := Entry(perms, DeadlineFrom(now, ttl))];
    }

    method Invalidate(id: Pair)
      modifies this
      ensures store == old(store) - {KeyOf(id)}
    {
      store := store - {KeyOf(id)};
    }

    method InvalidateUser(user: string)
      modifies this
      ensures store == WithoutPrefix(old(store), UserPrefix(user))
    {
      var prefix := UserPrefix(user);
      var keys := store.Keys;
      while keys != {}
        invariant keys <= old(store).Keys
        invariant store == map k | k in old(store) && (k in keys || !StartsWith(k, prefix)) :: old(store)[k]
      {
        var k :| k in keys;
        if StartsWith(k, prefix) {
          store := store - {k};
        }
        keys := keys - {k};
      }
    }

    method InvalidateTenant(tenant: string)
      modifies this
      ensures store == WithoutSuffix(old(store), TenantSuffix(tenant))
    {
      var suffix := TenantSuffix(tenant);
      var keys := store.Keys;
      while keys != {}
        invariant keys <= old(store).Keys
        invariant store == map k | k in old(store) && (k in keys || !EndsWith(k, suffix)) :: old(store)[k]
      {
        var k :| k in keys;
        if EndsWith(k, suffix) {
          store := store - {k};
        }
        keys := keys - {k};
      }
    }
  }

  /** Any operation on the dictionary, and what it returns. */
  function DictDo(d: Dict, e: Event, ttl: Option<Ms>): (Dict, Option<Perms>) {
    match e.op
    case Get(id) => DictGet(d, KeyOf(id), e.now)
    case Set(id, perms) => (DictSet(d, KeyOf(id), perms, e.now, e.later, ttl), None)
    case Write(id, perms) => (DictWrite(d, KeyOf(id), perms, e.later, ttl), None)
    case Invalidate(id) => (d - {KeyOf(id)}, None)
    case InvalidateUser(user) => (WithoutPrefix(d, UserPrefix(user)), None)
    case InvalidateTenant(tenant) => (WithoutSuffix(d, TenantSuffix(tenant)), None)
  }

  function DictAfter(es: seq<Event>, n: nat, ttl: Option<Ms>): Dict
    requires n <= |es|
  {
    if n == 0 then map[] else DictDo(DictAfter(es, n - 1, ttl), es[n - 1], ttl).0
  }

  function DictObservation(es: seq<Event>, j: nat, ttl: Option<Ms>): Option<Perms>
    requires j < |es|
  {
    DictDo(DictAfter(es, j, ttl), es[j], ttl).1
  }

  /** A `get` drops the entry it looks for if its deadline is not after the clock, and no other; the rest stays. */
  lemma GetDropsExactlyExpired(d: Dict, key: string, now: Ms, other: string)
    ensures var (after, r) := DictGet(d, key, now);
            && (other in after <==> other in d && !(other == key && d[key].deadline.At? && d[key].deadline.ms <= now))
            && (other in after ==> after[other] == d[other])
            && (forall perms :: r == Some(perms) <==> key in after && after[key].perms == perms)
  {
  }

  /** User-wide invalidation drops exactly the user's entries and leaves all others as they were. */
  lemma InvalidateUserIsExact(d: Dict, user: string, id: Pair)
    requires ColonFree(user) && ColonFree(id.user)
    ensures var after := WithoutPrefix(d, UserPrefix(user));
            if id.user == user then KeyOf(id) !in after
            else (KeyOf(id) in after <==> KeyOf(id) in d) && (KeyOf(id) in d ==> after[KeyOf(id)] == d[KeyOf(id)])
  {
    UserPrefixSelectsUser(id, user);
  }

  /** Tenant-wide invalidation drops exactly the tenant's entries and leaves all others as they were. */
  lemma InvalidateTenantIsExact(d: Dict, tenant: string, id: Pair)
    requires ColonFree(tenant) && ColonFree(id.tenant)
    ensures var after := WithoutSuffix(d, TenantSuffix(tenant));
            if id.tenant == tenant then KeyOf(id) !in after
            else (KeyOf(id) in after <==> KeyOf(id) in d) && (KeyOf(id) in d ==> after[KeyOf(id)] == d[KeyOf(id)])
  {
    TenantSuffixSelectsTenant(id, tenant);
  }

  /** What the key tests of an operation select, for good ids. */
  lemma OpSelects(op: Op, id: Pair)
    requires GoodOp(op) && Good(id)
    ensures match op
            case InvalidateUser(user) => StartsWith(KeyOf(id), UserPrefix(user)) <==> id.user == user
            case InvalidateTenant(tenant) => EndsWith(KeyOf(id), TenantSuffix(tenant)) <==> id.tenant == tenant
            case _ => KeyOf(op.id) == KeyOf(id) <==> op.id == id
  {
    match op {
      case InvalidateUser(user) => UserPrefixSelectsUser(id, user);
      case InvalidateTenant(tenant) => TenantSuffixSelectsTenant(id, tenant);
      case _ => UserColonFreeInjective(op.id, id);
    }
  }

  /** From time `now` on, dictionary and timed map show the same live entry for every good pair. */
  ghost predicate Agree(d: Dict, m: Timed, now: Ms) {
    forall id, t | Good(id) && now <= t :: Live(d, KeyOf(id), t) == Live(m, id, t)
  }

  lemma LazyStepRefinesEager(d: Dict, m: Timed, e: Event, ttl: Option<Ms>)
    requires Agree(d, m, e.now) && GoodOp(e.op)
    ensures DictDo(d, e, ttl).1 == Do(m, e, ttl).1
    ensures Agree(DictDo(d, e, ttl).0, Do(m, e, ttl).0, e.now)
  {
    var now := e.now;
    var d', m' := DictDo(d, e, ttl).0, Do(m, e, ttl).0;
    if e.op.Get? || e.op.Set? {
      assert Live(d, KeyOf(e.op.id), now) == Live(m, e.op.id, now);
    }
    forall id, t | Good(id) && now <= t
      ensures Live(d', KeyOf(id), t) == Live(m', id, t)
    {
      assert Live(d, KeyOf(id), t) == Live(m, id, t);
      OpSelects(e.op, id);
    }
  }

  lemma {:induction false} HistoriesAgree(es: seq<Event>, n: nat, ttl: Option<Ms>, now: Ms)
    requires Monotone(es) && GoodEvents(es) && n <= |es| && (n > 0 ==> es[n - 1].now <= now)
    ensures Agree(DictAfter(es, n, ttl), StateAfter(es, n, ttl), now)
  {
    if n > 0 {
      HistoriesAgree(es, n - 1, ttl, es[n - 1].now);
      LazyStepRefinesEager(DictAfter(es, n - 1, ttl), StateAfter(es, n - 1, ttl), es[n - 1], ttl);
    }
  }

  /**
    Lazy expiry refines eager expiry: in every history with a monotone clock and colon-free ids,
    the dictionary returns exactly what a map returns that drops its entries at their deadline.
   */
  lemma LazyExpiryRefinesEager(es: seq<Event>, j: nat, ttl: Option<Ms>)
    requires Monotone(es) && GoodEvents(es) && j < |es|
    ensures DictObservation(es, j, ttl) == Observation(es, j, ttl)
  {
    HistoriesAgree(es, j, ttl, es[j].now);
    LazyStepRefinesEager(DictAfter(es, j, ttl), StateAfter(es, j, ttl), es[j], ttl);
  }

  /** The event offers `perms` for `id` to the cache. */
  predicate Offers(e: Event, id: Pair, perms: Perms) {
    e.op == TimedMap.Set(id, perms) || e.op == Write(id, perms)
  }

  /** The event removes or overwrites the entry of `id`. */
  predicate Clears(e: Event, id: Pair) {
    match e.op
    case Write(other, _) => other == id
    case Invalidate(other) => other == id
    case InvalidateUser(user) => user == id.user
    case InvalidateTenant(tenant) => tenant == id.tenant
    case _ => false
  }

  /** `entry` was stored by event `i`, and nothing has cleared it before event `n`. */
  ghost predicate StoredBy(es: seq<Event>, i: nat, n: nat, id: Pair, entry: Entry, ttl: Option<Ms>) {
    && i < n <= |es| && Offers(es[i], id, entry.perms) && entry.deadline == DeadlineFrom(es[i].later, ttl)
    && forall m | i < m < n :: !Clears(es[m], id)
  }

  /** An entry found after an event was there before and is untouched, or was offered by the event. */
  lemma EntryIsKeptOrOffered(d: Dict, e: Event, ttl: Option<Ms>, id: Pair)
    requires GoodOp(e.op) && Good(id) && KeyOf(id) in DictDo(d, e, ttl).0
    ensures var entry := DictDo(d, e, ttl).0[KeyOf(id)];
            || (KeyOf(id) in d && d[KeyOf(id)] == entry && !Clears(e, id))
            || (Offers(e, id, entry.perms) && entry.deadline == DeadlineFrom(e.later, ttl))
  {
    OpSelects(e.op, id);
  }

  lemma {:induction false} EntriesAreStored(es: seq<Event>, n: nat, ttl: Option<Ms>, id: Pair) returns (i: nat)
    requires GoodEvents(es) && n <= |es| && Good(id) && KeyOf(id) in DictAfter(es, n, ttl)
    ensures StoredBy(es, i, n, id, DictAfter(es, n, ttl)[KeyOf(id)], ttl)
  {
    var entry, e := DictAfter(es, n, ttl)[KeyOf(id)], es[n - 1];
    assert e in es;
    EntryIsKeptOrOffered(DictAfter(es, n - 1, ttl), e, ttl, id);
    if Offers(e, id, entry.perms) && entry.deadline == DeadlineFrom(e.later, ttl) {
      i := n - 1;
    } else {
      i := EntriesAreStored(es, n - 1, ttl, id);
    }
  }

  /**
    What a `get` can return: a list that an earlier `set` or `write_through` offered for that same
    pair, strictly less than the time-to-live ago, and not cleared since. In particular no expired
    entry is ever observed again.
   */
  lemma GetReturnsRecentWrite(es: seq<Event>, j: nat, ttl: Option<Ms>) returns (i: nat)
    requires GoodEvents(es) && j < |es| && es[j].op.Get? && DictObservation(es, j, ttl).Some?
    ensures i < j && Offers(es[i], es[j].op.id, DictObservation(es, j, ttl).value)
    ensures ttl.Some? ==> es[j].now < es[i].later + ttl.value
    ensures forall m | i < m < j :: !Clears(es[m], es[j].op.id)
  {
    assert es[j] in es;
    i := EntriesAreStored(es, j, ttl, es[j].op.id);
  }
}
