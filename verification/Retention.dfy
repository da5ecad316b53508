/**
  What a cache returns, in terms of the history alone: which earlier write a `get` sees, and for how
  long. Neither the contents of a cache nor its deadlines occur in the definitions.
 */
module Retention {
  import opened Prelude
  import opened Keys
  import opened TimedMap
  import opened InMemoryCache
  import opened RedisCache
  import opened CacheEquivalence

  /** What the event stored, if it stored anything, is kept up to time `t`. */
  predicate LastsUntil(e: Event, t: Ms, ttl: Option<Ms>) {
    ttl.Some? ==> t < e.later + ttl.value
  }

  /**
    After the first `n` events, what event `i` stored for `id` is there at time `t`: a write-through
    stores always, a `set` only if nothing was there; it stays until it is cleared or its time is over.
   */
  ghost predicate Holds(es: seq<Event>, i: nat, n: nat, t: Ms, id: Pair, ttl: Option<Ms>)
    requires n <= |es|
    decreases i
  {
    && i < n
    && (match es[i].op
        case Write(other, _) => other == id
        case Set(other, _) => other == id && forall h: nat | h < i :: !Holds(es, h, i, es[i].now, id, ttl)
        case _ => false)
    && (forall m | i < m < n :: !Clears(es[m], id))
    && LastsUntil(es[i], t, ttl)
  }

  ghost predicate Shown(es: seq<Event>, n: nat, t: Ms, id: Pair, ttl: Option<Ms>, perms: Perms)
    requires n <= |es|
  {
    exists i: nat :: Holds(es, i, n, t, id, ttl) && Offers(es[i], id, perms)
  }

  function LivePerms(es: seq<Event>, n: nat, t: Ms, id: Pair, ttl: Option<Ms>): Option<Perms>
    requires n <= |es|
  {
    PermsOf(Live(DictAfter(es, n, ttl), KeyOf(id), t))
  }

  /** What one more event does to the live entry of `id`, at a later time. */
  lemma NextLive(es: seq<Event>, n: nat, t: Ms, id: Pair, ttl: Option<Ms>)
    requires n < |es| && GoodOp(es[n].op) && Good(id) && es[n].now <= t
    ensures LivePerms(es, n + 1, t, id, ttl) ==
            match es[n].op
            case Write(other, perms) =>
              if other != id then LivePerms(es, n, t, id, ttl)
              else if LastsUntil(es[n], t, ttl) then Some(perms) else None
            case Set(other, perms) =>
              if other != id || LivePerms(es, n, es[n].now, id, ttl).Some? then LivePerms(es, n, t, id, ttl)
              else if LastsUntil(es[n], t, ttl) then Some(perms) else None
            case _ => if Clears(es[n], id) then None else LivePerms(es, n, t, id, ttl)
  {
    OpSelects(es[n].op, id);
  }

  /** What was held before an event that does not clear it is held after it, and nothing else is, but what it stored. */
  lemma NextHolds(es: seq<Event>, i: nat, n: nat, t: Ms, id: Pair, ttl: Option<Ms>)
    requires n < |es| && i < n
    ensures Holds(es, i, n + 1, t, id, ttl) <==> Holds(es, i, n, t, id, ttl) && !Clears(es[n], id)
  {
  }

  lemma HeldEarlier(es: seq<Event>, i: nat, n: nat, t: Ms, u: Ms, id: Pair, ttl: Option<Ms>)
    requires n <= |es| && Holds(es, i, n, t, id, ttl) && u <= t
    ensures Holds(es, i, n, u, id, ttl)
  {
  }

  /** An event that stores nothing for `id`: what is shown stays, or is cleared. */
  lemma ShownAfterOther(es: seq<Event>, n: nat, t: Ms, id: Pair, ttl: Option<Ms>, perms: Perms)
    requires n < |es| && !Holds(es, n, n + 1, t, id, ttl)
    ensures Shown(es, n + 1, t, id, ttl, perms) <==> Shown(es, n, t, id, ttl, perms) && !Clears(es[n], id)
  {
    forall i: nat | i < n
      ensures Holds(es, i, n + 1, t, id, ttl) <==> Holds(es, i, n, t, id, ttl) && !Clears(es[n], id)
    {
      NextHolds(es, i, n, t, id, ttl);
    }
    if Shown(es, n, t, id, ttl, perms) && !Clears(es[n], id) {
      var i: nat :| Holds(es, i, n, t, id, ttl) && Offers(es[i], id, perms);
      assert Holds(es, i, n + 1, t, id, ttl);
    }
  }

  /** None of the first `bound` events holds. */
  ghost predicate NoneHolds(es: seq<Event>, bound: nat, n: nat, t: Ms, id: Pair, ttl: Option<Ms>)
    requires n <= |es|
  {
    forall h: nat | h < bound :: !Holds(es, h, n, t, id, ttl)
  }

  /** What is shown when event `n` stores its list and no earlier event holds. */
  lemma ShownAfterStore(es: seq<Event>, n: nat, next: nat, t: Ms, id: Pair, ttl: Option<Ms>, perms: Perms)
    requires next == n + 1 <= |es| && (es[n].op.Write? || es[n].op.Set?) && es[n].op.id == id
    requires NoneHolds(es, n, next, t, id, ttl) && (es[n].op.Set? ==> NoneHolds(es, n, n, es[n].now, id, ttl))
    ensures Shown(es, next, t, id, ttl, perms) <==> LastsUntil(es[n], t, ttl) && es[n].op.perms == perms
  {
    if es[n].op.Set? {
      assert forall h: nat | h < n :: !Holds(es, h, n, es[n].now, id, ttl);
    }
    assert LastsUntil(es[n], t, ttl) <==> Holds(es, n, next, t, id, ttl);
    if Shown(es, next, t, id, ttl, perms) {
      var i: nat :| Holds(es, i, next, t, id, ttl) && Offers(es[i], id, perms);
      assert i == n;
    }
  }

  /** A write-through: exactly its list is shown, as long as it lasts. */
  lemma ShownAfterWrite(es: seq<Event>, n: nat, next: nat, t: Ms, id: Pair, ttl: Option<Ms>, perms: Perms)
    requires next == n + 1 <= |es| && es[n].op.Write? && es[n].op.id == id
    ensures Shown(es, next, t, id, ttl, perms) <==> LastsUntil(es[n], t, ttl) && es[n].op.perms == perms
  {
    forall i: nat | i < n
      ensures !Holds(es, i, next, t, id, ttl)
    {
      NextHolds(es, i, n, t, id, ttl);
    }
    ShownAfterStore(es, n, next, t, id, ttl, perms);
  }

  /** A `set` when nothing is there: the same. */
  lemma ShownAfterSet(es: seq<Event>, n: nat, next: nat, t: Ms, id: Pair, ttl: Option<Ms>, perms: Perms)
    requires next == n + 1 <= |es| && es[n].op.Set? && es[n].op.id == id && es[n].now <= t
    requires NoneHolds(es, n, n, es[n].now, id, ttl)
    ensures Shown(es, next, t, id, ttl, perms) <==> LastsUntil(es[n], t, ttl) && es[n].op.perms == perms
  {
    forall i: nat | i < n
      ensures !Holds(es, i, next, t, id, ttl)
    {
      NextHolds(es, i, n, t, id, ttl);
      if Holds(es, i, n, t, id, ttl) {
        HeldEarlier(es, i, n, t, es[n].now, id, ttl);
      }
    }
    ShownAfterStore(es, n, next, t, id, ttl, perms);
  }

  predicate Reached(es: seq<Event>, n: nat, t: Ms)
    requires n <= |es|
  {
    n > 0 ==> es[n - 1].now <= t
  }

  /** After `n` events the live list of `id` is the one that is shown, at every moment from then on. */
  ghost predicate LiveIsShown(es: seq<Event>, n: nat, id: Pair, ttl: Option<Ms>)
    requires n <= |es|
  {
    forall t, perms | Reached(es, n, t) ::
      LivePerms(es, n, t, id, ttl) == Some(perms) <==> Shown(es, n, t, id, ttl, perms)
  }

  lemma NothingLiveNoneHolds(es: seq<Event>, n: nat, t: Ms, id: Pair, ttl: Option<Ms>)
    requires n <= |es| && LiveIsShown(es, n, id, ttl) && Reached(es, n, t)
    ensures LivePerms(es, n, t, id, ttl).None? <==> NoneHolds(es, n, n, t, id, ttl)
  {
    if LivePerms(es, n, t, id, ttl).Some? {
      assert Shown(es, n, t, id, ttl, LivePerms(es, n, t, id, ttl).value);
    } else {
      forall h: nat | h < n
        ensures !Holds(es, h, n, t, id, ttl)
      {
        if Holds(es, h, n, t, id, ttl) {
          assert Shown(es, n, t, id, ttl, es[h].op.perms);
        }
      }
    }
  }

  /** The `set` that finds a live entry stores nothing. */
  lemma RefusedSetHoldsNothing(es: seq<Event>, n: nat, next: nat, t: Ms, id: Pair, ttl: Option<Ms>)
    requires next == n + 1 <= |es| && es[n].op.Set? && !NoneHolds(es, n, n, es[n].now, id, ttl)
    ensures !Holds(es, n, next, t, id, ttl)
  {
  }

  lemma StepShows(es: seq<Event>, n: nat, next: nat, t: Ms, id: Pair, ttl: Option<Ms>, perms: Perms)
    requires Monotone(es) && GoodEvents(es) && Good(id) && next == n + 1 <= |es| && es[n].now <= t
    requires LiveIsShown(es, n, id, ttl)
    ensures LivePerms(es, next, t, id, ttl) == Some(perms) <==> Shown(es, next, t, id, ttl, perms)
  {
    var e := es[n];
    assert e in es;
    assert Reached(es, n, t) && Reached(es, n, e.now);
    NextLive(es, n, t, id, ttl);
    NothingLiveNoneHolds(es, n, e.now, id, ttl);
    if e.op.Write? && e.op.id == id {
      ShownAfterWrite(es, n, next, t, id, ttl, perms);
    } else if e.op.Set? && e.op.id == id && LivePerms(es, n, e.now, id, ttl).None? {
      ShownAfterSet(es, n, next, t, id, ttl, perms);
    } else {
      if e.op.Set? && e.op.id == id {
        RefusedSetHoldsNothing(es, n, next, t, id, ttl);
      }
      ShownAfterOther(es, n, t, id, ttl, perms);
    }
  }

  lemma {:induction false} AlwaysLiveIsShown(es: seq<Event>, n: nat, id: Pair, ttl: Option<Ms>)
    requires Monotone(es) && GoodEvents(es) && Good(id) && n <= |es|
    ensures LiveIsShown(es, n, id, ttl)
    decreases n
  {
    if n > 0 {
      AlwaysLiveIsShown(es, n - 1, id, ttl);
      forall t, perms | Reached(es, n, t)
        ensures LivePerms(es, n, t, id, ttl) == Some(perms) <==> Shown(es, n, t, id, ttl, perms)
      {
        StepShows(es, n - 1, n, t, id, ttl, perms);
      }
    }
  }

  /**
    What a `get` of the in-memory cache returns, exactly: a list, if and only if an earlier event
    holds it at that moment.
   */
  lemma GetReturnsExactly(es: seq<Event>, j: nat, ttl: Option<Ms>, perms: Perms)
    requires Monotone(es) && GoodEvents(es) && j < |es| && es[j].op.Get?
    ensures DictObservation(es, j, ttl) == Some(perms) <==> Shown(es, j, es[j].now, es[j].op.id, ttl, perms)
  {
    assert es[j] in es;
    AlwaysLiveIsShown(es, j, es[j].op.id, ttl);
    assert Reached(es, j, es[j].now);
  }

  /** The same of the Redis cache, whose time-to-live is given in seconds and off unless positive. */
  lemma RedisGetReturnsExactly(es: seq<Event>, j: nat, ttlSeconds: int, perms: Perms)
    requires Monotone(es) && PlainEvents(es, ttlSeconds) && j < |es| && es[j].op.Get?
    ensures var ttl: Option<Ms> := if ttlSeconds > 0 then Some(1000.0 * ttlSeconds as real) else None;
            RedisObservation(es, j, ttlSeconds) == Some(perms) <==>
            Shown(es, j, es[j].now, es[j].op.id, ttl, perms)
  {
    CachesAreEquivalent(es, j, ttlSeconds);
    assert forall e | e in es :: Plain(e, ttlSeconds) ==> GoodOp(e.op);
    GetReturnsExactly(es, j, Ex(ttlSeconds), perms);
  }

  /**
    An entry is kept for its whole time-to-live: after a write-through, or a `set` that finds nothing,
    every `get` returns exactly that list until the time is over or something clears the pair.
   */
  lemma StoredIsKept(es: seq<Event>, i: nat, j: nat, ttl: Option<Ms>)
    requires Monotone(es) && GoodEvents(es) && i < j < |es| && es[j].op.Get?
    requires es[i].op.Write? || (es[i].op.Set? && LivePerms(es, i, es[i].now, es[i].op.id, ttl).None?)
    requires es[i].op.id == es[j].op.id && forall m | i < m < j :: !Clears(es[m], es[j].op.id)
    requires ttl.Some? ==> es[j].now < es[i].later + ttl.value
    ensures DictObservation(es, j, ttl) == Some(es[i].op.perms)
  {
    var id := es[j].op.id;
    assert es[j] in es;
    AlwaysLiveIsShown(es, i, id, ttl);
    assert Reached(es, i, es[i].now);
    NothingLiveNoneHolds(es, i, es[i].now, id, ttl);
    assert Holds(es, i, j, es[j].now, id, ttl);
    GetReturnsExactly(es, j, ttl, es[i].op.perms);
  }
}
