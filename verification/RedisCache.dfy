/**
  `RedisPermissionCache` over a Redis server that can fail at any call and that other clients
  write to between the calls of a SCAN/DEL iteration.
 */
module RedisCache {
  import opened Prelude
  import opened Keys
  import opened TimedMap
  import opened Json
  import opened JsonGrammar
  import opened Glob

  datatype Item = Item(raw: string, deadline: Deadline)

  type Store = map<string, Item>

  /** How one server call ends: answered, lost on the way there, or executed with its reply lost. */
  datatype Fate = Answered | RequestLost | ReplyLost

  datatype Fault = Fault

  /** The text a GET returns: expired items are gone. */
  function LiveRaw(store: Store, key: string, now: Ms): Option<string> {
    if key in store && !Expired(store[key].deadline, now) then Some(store[key].raw) else None
  }

  function StoreSet(store: Store, key: string, raw: string, nx: bool, now: Ms, ex: Option<Ms>): Store {
    if nx && LiveRaw(store, key, now).Some? then store else store[key := Item(raw, DeadlineFrom(now, ex))]
  }

  /** The cached list; a value that is not an array of strings is a miss. */
  function ReadCached(raw: Option<string>): Option<Perms> {
    match raw
    case None => None
    case Some(text) => Loads(text)
  }

  /** The time-to-live of a write: `ex` is passed only when `ttl_seconds` is positive. */
  function Ex(ttlSeconds: int): Option<Ms> {
    if ttlSeconds > 0 then Some(ttlSeconds as real * 1000.0) else None
  }

  /**
    One round of a SCAN iteration as the environment plays it: the contents when the SCAN is
    executed, the page and cursor it returns, the contents when the DEL is executed, and how both
    calls end. Other clients, and expiry, may change the contents arbitrarily in between.
   */
  datatype Turn = Turn(
    atScan: Store, page: seq<string>, cursor: nat, scan: Fate, atDelete: Store, delete: Fate)

  /** The server stops the iteration by returning cursor 0. */
  ghost predicate Ends(turns: seq<Turn>) {
    turns != [] && forall j | 0 <= j < |turns| :: turns[j].cursor == 0 <==> j == |turns| - 1
  }

  predicate InPage(turns: seq<Turn>, j: nat, k: string) {
    j < |turns| && k in turns[j].page
  }

  function KeySet(keys: seq<string>): set<string> {
    set k | k in keys
  }

  /** Contents after a complete round; an empty page is not followed by a DEL. */
  function Round(turn: Turn): Store {
    if turn.page == [] then turn.atScan else turn.atDelete - KeySet(turn.page)
  }

  /** The number of keys the DEL of a round reports as removed. */
  function RoundCount(turn: Turn): int {
    if turn.page == [] then 0 else |turn.atDelete| - |Round(turn)|
  }

  predicate Completes(turn: Turn) {
    turn.scan.Answered? && (turn.page == [] || turn.delete.Answered?)
  }

  /** Contents after `n` complete rounds. */
  function After(store: Store, turns: seq<Turn>, n: nat): Store
    requires n <= |turns|
  {
    if n == 0 then store else Round(turns[n - 1])
  }

  function Deleted(turns: seq<Turn>, n: nat): int
    requires n <= |turns|
    decreases n
  {
    if n == 0 then 0 else Deleted(turns, n - 1) + RoundCount(turns[n - 1])
  }

  /** MATCH: a page holds only keys that match. */
  ghost predicate PagesMatch(turns: seq<Turn>, pattern: string) {
    forall j, k | InPage(turns, j, k) :: Match(pattern, k)
  }

  ghost predicate SeenByAllScans(turns: seq<Turn>, k: string) {
    forall j | 0 <= j < |turns| :: k in turns[j].atScan
  }

  /** SCAN's guarantee: a matching key that is there at every call of the iteration is returned. */
  ghost predicate ScanGuarantee(turns: seq<Turn>, pattern: string) {
    forall k | Match(pattern, k) && SeenByAllScans(turns, k) :: exists j: nat :: InPage(turns, j, k)
  }

  predicate SameAt(a: Store, b: Store, k: string) {
    (k in a <==> k in b) && (k in a ==> a[k] == b[k])
  }

  /** No other client writes or removes `k` during the iteration. */
  ghost predicate Untouched(store: Store, turns: seq<Turn>, k: string) {
    forall j | 0 <= j < |turns| ::
      SameAt(After(store, turns, j), turns[j].atScan, k) && SameAt(turns[j].atScan, turns[j].atDelete, k)
  }

  /** The server, its answers being subject to the given fates. */
  class Redis {
    var store: Store

    constructor ()
      ensures store == map[]
    {
      store := map[];
    }

    method Get(key: string, now: Ms, fate: Fate) returns (r: Result<Option<string>, Fault>)
      ensures r == if fate.Answered? then Success(LiveRaw(store, key, now)) else Failure(Fault)
    {
      if !fate.Answered? {
        return Failure(Fault);
      }
      return Success(LiveRaw(store, key, now));
    }

    method Set(key: string, raw: string, nx: bool, ex: Option<Ms>, now: Ms, fate: Fate) returns (r: Result<(), Fault>)
      modifies this
      ensures store == if fate.RequestLost? then old(store) else StoreSet(old(store), key, raw, nx, now, ex)
      ensures r.Success? <==> fate.Answered?
    {
      if !fate.RequestLost? {
        store := StoreSet(store, key, raw, nx, now, ex);
      }
      return if fate.Answered? then Success(()) else Failure(Fault);
    }

    /** DEL reports the number of keys it removed. */
    method Delete(keys: seq<string>, fate: Fate) returns (r: Result<int, Fault>)
      modifies this
      ensures store == if fate.RequestLost? then old(store) else old(store) - KeySet(keys)
      ensures r == if fate.Answered? then Success(|old(store)| - |store|) else Failure(Fault)
    {
      var size := |store|;
      if !fate.RequestLost? {
        store := store - KeySet(keys);
      }
      return if fate.Answered? then Success(size - |store|) else Failure(Fault);
    }

    /** Other clients at work. */
    method Interfere(contents: Store)
      modifies this
      ensures store == contents
    {
      store := contents;
    }
  }

  class RedisPermissionCache {
    const redis: Redis
    const ttlSeconds: int

    constructor (redis: Redis, ttlSeconds: int)
      ensures this.redis == redis && this.ttlSeconds == ttlSeconds
    {
      this.redis := redis;
      this.ttlSeconds := ttlSeconds;
    }

    /**
      A failed GET, an absent key and a value that is not an array are a miss. `breaks` are the texts on
      which `json.loads` raises something other than JSONDecodeError, such as a number too long to
      convert; that exception passes. No text that the cache writes is one of them.
     */
    method Get(id: Pair, now: Ms, fate: Fate, breaks: string -> bool) returns (r: Result<Option<Perms>, Fault>)
      requires forall text, perms | breaks(text) :: !IsArray(text, perms)
      ensures var raw := LiveRaw(redis.store, RedisKey(id), now);
              && (r.Failure? <==> fate.Answered? && raw.Some? && breaks(raw.value))
              && (r.Success? ==> r.value == if fate.Answered? then ReadCached(raw) else None)
              // a hit is an array of strings, any other text is a miss
              && (forall perms :: r == Success(Some(perms)) <==>
                    fate.Answered? && raw.Some? && IsArray(raw.value, perms))
      ensures forall perms | LiveRaw(redis.store, RedisKey(id), now) == Some(Dumps(perms)) ::
                r == Success(if fate.Answered? then Some(perms) else None)
    {
      forall text, perms
        ensures Loads(text) == Some(perms) <==> IsArray(text, perms)
      {
        LoadsExactlyArrays(text, perms);
      }
      forall perms
        ensures Loads(Dumps(perms)) == Some(perms)
      {
        JsonRoundTrip(perms, ", ");
      }
      var raw := redis.Get(RedisKey(id), now, fate);
      match raw {
        case Failure(_) => return Success(None);
        case Success(None) => return Success(None);
        case Success(Some(text)) =>
          if breaks(text) {
            return Failure(Fault);
          }
          return Success(Loads(text));
      }
    }

    /** Never raises. */
    method Set(id: Pair, perms: Perms, now: Ms, fate: Fate)
      modifies redis
      ensures redis.store ==
              if fate.RequestLost? then old(redis.store)
              else StoreSet(old(redis.store), RedisKey(id), Dumps(perms), true, now, Ex(ttlSeconds))
    {
      var ex := if ttlSeconds > 0 then Some(ttlSeconds as real * 1000.0) else None;
      var _ := redis.Set(RedisKey(id), Dumps(perms), true, ex, now, fate);
    }

    /** Never raises. */
    method WriteThrough(id: Pair, perms: Perms, now: Ms, fate: Fate)
      modifies redis
      ensures redis.store ==
              if fate.RequestLost? then old(redis.store)
              else StoreSet(old(redis.store), RedisKey(id), Dumps(perms), false, now, Ex(ttlSeconds))
    {
      var ex := if ttlSeconds > 0 then Some(ttlSeconds as real * 1000.0) else None;
      var _ := redis.Set(RedisKey(id), Dumps(perms), false, ex, now, fate);
    }

    /** Raises when the DEL fails; the targeted entry is gone on every normal return. */
    method Invalidate(id: Pair, fate: Fate) returns (r: Result<int, Fault>)
      modifies redis
      ensures r.Success? ==> redis.store == old(redis.store) - {RedisKey(id)}
      ensures r.Failure? ==> redis.store == old(redis.store) || redis.store == old(redis.store) - {RedisKey(id)}
      ensures r.Success? <==> fate.Answered?
      ensures r.Success? ==> r.value == if RedisKey(id) in old(redis.store) then 1 else 0
    {
      r := redis.Delete([RedisKey(id)], fate);
      assert KeySet([RedisKey(id)]) == {RedisKey(id)};
      RemovingOne(old(redis.store), RedisKey(id));
    }

    /** One round of the loop below: SCAN, and DEL of a page that is not empty. */
    method ScanRound(turns: seq<Turn>, i: nat, ghost before: Store) returns (r: Result<int, Fault>)
      requires Ends(turns) && i < |turns| && AllComplete(turns, i)
      modifies redis
      ensures r.Success? ==> AllComplete(turns, i + 1) && redis.store == After(before, turns, i + 1)
      ensures r.Success? ==> Deleted(turns, i) + r.value == Deleted(turns, i + 1)
      ensures r.Failure? ==> !AllComplete(turns, |turns|) && StoppedSomewhere(turns, redis.store)
    {
      var turn := turns[i];
      redis.Interfere(turn.atScan);
      if !turn.scan.Answered? {
        RoundFailed(turns, i, redis.store);
        return Failure(Fault);
      }
      if turn.page == [] {
        RoundCompleted(before, turns, i);
        return Success(0);
      }
      redis.Interfere(turn.atDelete);
      r := redis.Delete(turn.page, turn.delete);
      if r.Success? {
        RoundCompleted(before, turns, i);
      } else {
        RoundFailed(turns, i, redis.store);
      }
    }

    /** The SCAN/DEL loop. A failed call ends it with an exception, in the round where it happens. */
    method ScanAndDelete(turns: seq<Turn>) returns (r: Result<int, Fault>)
      requires Ends(turns)
      modifies redis
      ensures r.Success? <==> AllComplete(turns, |turns|)
      ensures r.Success? ==>
                redis.store == After(old(redis.store), turns, |turns|) && r.value == Deleted(turns, |turns|)
      ensures r.Failure? ==> StoppedSomewhere(turns, redis.store)
    {
      var totalDeleted := 0;
      var i: nat := 0;
      while true
        invariant i < |turns| && AllComplete(turns, i)
        invariant totalDeleted == Deleted(turns, i)
        decreases |turns| - i
      {
        var deleted := ScanRound(turns, i, old(redis.store));
        if deleted.Failure? {
          return Failure(Fault);
        }
        CursorEnds(turns, i);
        var cursor := turns[i].cursor;
        totalDeleted := totalDeleted + deleted.value;
        i := i + 1;
        if cursor == 0 {
          break;
        }
      }
      return Success(totalDeleted);
    }

    /**
      Either every entry of the user that no other client touched is gone, or the call raises
      having removed only entries of the user. Nothing else changes.
     */
    method InvalidateUser(user: string, turns: seq<Turn>) returns (r: Result<int, Fault>)
      requires Ends(turns) && PagesMatch(turns, UserPattern(user))
      requires ScanGuarantee(turns, UserPattern(user))
      modifies redis
      ensures forall k | Untouched(old(redis.store), turns, k) ::
                RemovedOrKept(old(redis.store), redis.store, k, Match(UserPattern(user), k), r.Success?)
      ensures r.Success? && NoOtherClients(old(redis.store), turns) ==>
                redis.store == WithoutMatching(old(redis.store), UserPattern(user)) &&
                r.value == |Matching(old(redis.store), UserPattern(user))|
    {
      r := ScanAndDelete(turns);
      IterationOutcome(old(redis.store), turns, UserPattern(user), redis.store, r.Success?);
      if NoOtherClients(old(redis.store), turns) {
        ScanDeletesExactlyTheMatches(old(redis.store), turns, UserPattern(user));
      }
    }

    /** The same for a tenant. */
    method InvalidateTenant(tenant: string, turns: seq<Turn>) returns (r: Result<int, Fault>)
      requires Ends(turns) && PagesMatch(turns, TenantPattern(tenant))
      requires ScanGuarantee(turns, TenantPattern(tenant))
      modifies redis
      ensures forall k | Untouched(old(redis.store), turns, k) ::
                RemovedOrKept(old(redis.store), redis.store, k, Match(TenantPattern(tenant), k), r.Success?)
      ensures r.Success? && NoOtherClients(old(redis.store), turns) ==>
                redis.store == WithoutMatching(old(redis.store), TenantPattern(tenant)) &&
                r.value == |Matching(old(redis.store), TenantPattern(tenant))|
    {
      r := ScanAndDelete(turns);
      IterationOutcome(old(redis.store), turns, TenantPattern(tenant), redis.store, r.Success?);
      if NoOtherClients(old(redis.store), turns) {
        ScanDeletesExactlyTheMatches(old(redis.store), turns, TenantPattern(tenant));
      }
    }
  }

  /** The first `n` rounds were answered. */
  predicate AllComplete(turns: seq<Turn>, n: nat)
    decreases n
  {
    n <= |turns| && (n > 0 ==> AllComplete(turns, n - 1) && Completes(turns[n - 1]))
  }

  lemma {:induction false} AllCompleteMeans(turns: seq<Turn>, n: nat)
    requires n <= |turns|
    ensures AllComplete(turns, n) <==> forall j | 0 <= j < n :: Completes(turns[j])
    decreases n
  {
    if n > 0 {
      AllCompleteMeans(turns, n - 1);
    }
  }

  ghost predicate StoppedSomewhere(turns: seq<Turn>, left: Store) {
    exists j | 0 <= j < |turns| :: RoundStopped(turns[j], left)
  }

  lemma RoundCompleted(store: Store, turns: seq<Turn>, i: nat)
    requires Ends(turns) && i < |turns| && AllComplete(turns, i) && Completes(turns[i])
    ensures AllComplete(turns, i + 1) && Deleted(turns, i + 1) == Deleted(turns, i) + RoundCount(turns[i])
    ensures After(store, turns, i + 1) == Round(turns[i])
  {
  }

  lemma CursorEnds(turns: seq<Turn>, i: nat)
    requires Ends(turns) && i < |turns|
    ensures turns[i].cursor == 0 <==> i + 1 == |turns|
  {
  }

  lemma RoundFailed(turns: seq<Turn>, i: nat, left: Store)
    requires i < |turns| && !Completes(turns[i]) && RoundStopped(turns[i], left)
    ensures !AllComplete(turns, |turns|) && StoppedSomewhere(turns, left)
  {
    AllCompleteMeans(turns, |turns|);
  }

  /** The contents a round can leave when it raises. */
  predicate RoundStopped(turn: Turn, left: Store) {
    left == turn.atScan || (turn.page != [] && (left == turn.atDelete || left == Round(turn)))
  }

  lemma RemovingOne(store: Store, k: string)
    ensures |store| - |store - {k}| == if k in store then 1 else 0
  {
    if k in store {
      assert store == (store - {k})[k := store[k]];
    } else {
      assert store - {k} == store;
    }
  }

  /** What an invalidation may do to one key, and must do when it returns normally. */
  predicate RemovedOrKept(before: Store, after: Store, k: string, targeted: bool, returned: bool) {
    if !targeted then SameAt(before, after, k)
    else if returned then k !in after
    else SameAt(before, after, k) || k !in after
  }

  predicate OnSomePage(turns: seq<Turn>, n: nat, k: string)
    decreases n
  {
    n > 0 && (OnSomePage(turns, n - 1, k) || InPage(turns, n - 1, k))
  }

  lemma {:induction false} PagesAreRemembered(turns: seq<Turn>, j: nat, n: nat, k: string)
    requires j < n && InPage(turns, j, k)
    ensures OnSomePage(turns, n, k)
    decreases n
  {
    if j < n - 1 {
      PagesAreRemembered(turns, j, n - 1, k);
    }
  }

  /** A key nobody else touches stays as it was until it is on a page, and is gone from then on. */
  lemma {:induction false} KeyFate(store: Store, turns: seq<Turn>, n: nat, k: string)
    requires n <= |turns| && Untouched(store, turns, k)
    ensures if OnSomePage(turns, n, k) then k !in After(store, turns, n) else SameAt(store, After(store, turns, n), k)
    decreases n
  {
    if n > 0 {
      KeyFate(store, turns, n - 1, k);
      assert SameAt(After(store, turns, n - 1), turns[n - 1].atScan, k);
    }
  }

  /** A matching key that nobody else touches is on a page of a complete iteration. */
  lemma MatchesAreReturned(store: Store, turns: seq<Turn>, pattern: string, k: string)
    requires ScanGuarantee(turns, pattern) && Untouched(store, turns, k) && k in store && Match(pattern, k)
    ensures OnSomePage(turns, |turns|, k)
  {
    forall j: nat | j < |turns| && !OnSomePage(turns, j, k)
      ensures k in turns[j].atScan
    {
      KeyFate(store, turns, j, k);
      assert SameAt(After(store, turns, j), turns[j].atScan, k);
    }
    if SeenByAllScans(turns, k) {
      var j: nat :| InPage(turns, j, k);
      PagesAreRemembered(turns, j, |turns|, k);
    } else {
      var j: nat :| j < |turns| && OnSomePage(turns, j, k);
      LaterPages(turns, j, |turns|, k);
    }
  }

  lemma {:induction false} LaterPages(turns: seq<Turn>, m: nat, n: nat, k: string)
    requires m <= n && OnSomePage(turns, m, k)
    ensures OnSomePage(turns, n, k)
    decreases n
  {
    if m < n {
      LaterPages(turns, m, n - 1, k);
    }
  }

  lemma {:induction false} PagesHoldOnlyMatches(turns: seq<Turn>, pattern: string, n: nat, k: string)
    requires PagesMatch(turns, pattern) && OnSomePage(turns, n, k)
    ensures Match(pattern, k)
    decreases n
  {
    if !InPage(turns, n - 1, k) {
      PagesHoldOnlyMatches(turns, pattern, n - 1, k);
    }
  }

  /** A complete iteration removes what it targets and keeps the rest. */
  lemma IterationReturned(store: Store, turns: seq<Turn>, pattern: string, k: string)
    requires PagesMatch(turns, pattern) && ScanGuarantee(turns, pattern) && Untouched(store, turns, k)
    ensures RemovedOrKept(store, After(store, turns, |turns|), k, Match(pattern, k), true)
  {
    KeyFate(store, turns, |turns|, k);
    if OnSomePage(turns, |turns|, k) {
      PagesHoldOnlyMatches(turns, pattern, |turns|, k);
    } else if k in store && Match(pattern, k) {
      MatchesAreReturned(store, turns, pattern, k);
    }
  }

  /** An iteration that raises in round `j` has removed only what it targets. */
  lemma IterationRaised(store: Store, turns: seq<Turn>, pattern: string, j: nat, left: Store, k: string)
    requires PagesMatch(turns, pattern) && Untouched(store, turns, k)
    requires j < |turns| && RoundStopped(turns[j], left)
    ensures RemovedOrKept(store, left, k, Match(pattern, k), false)
  {
    KeyFate(store, turns, j, k);
    assert SameAt(After(store, turns, j), turns[j].atScan, k);
    if OnSomePage(turns, j, k) {
      PagesHoldOnlyMatches(turns, pattern, j, k);
    } else if k in turns[j].page {
      assert InPage(turns, j, k);
    }
  }

  lemma IterationOutcome(store: Store, turns: seq<Turn>, pattern: string, left: Store, returned: bool)
    requires PagesMatch(turns, pattern) && ScanGuarantee(turns, pattern)
    requires if returned then left == After(store, turns, |turns|)
             else StoppedSomewhere(turns, left)
    ensures forall k | Untouched(store, turns, k) :: RemovedOrKept(store, left, k, Match(pattern, k), returned)
  {
    forall k | Untouched(store, turns, k)
      ensures RemovedOrKept(store, left, k, Match(pattern, k), returned)
    {
      if returned {
        IterationReturned(store, turns, pattern, k);
      } else {
        var j :| 0 <= j < |turns| && RoundStopped(turns[j], left);
        IterationRaised(store, turns, pattern, j, left, k);
      }
    }
  }

  /** The contents change only by the loop's own DELs. */
  ghost predicate NoOtherClients(store: Store, turns: seq<Turn>) {
    forall j | 0 <= j < |turns| :: turns[j].atScan == After(store, turns, j) && turns[j].atDelete == turns[j].atScan
  }

  function Matching(store: Store, pattern: string): set<string> {
    set k | k in store && Match(pattern, k)
  }

  function WithoutMatching(store: Store, pattern: string): Store {
    map k | k in store && !Match(pattern, k) :: store[k]
  }

  lemma {:induction false} DeletedCountsRemovals(store: Store, turns: seq<Turn>, n: nat)
    requires n <= |turns| && NoOtherClients(store, turns)
    ensures Deleted(turns, n) == |store| - |After(store, turns, n)|
    decreases n
  {
    if n > 0 {
      DeletedCountsRemovals(store, turns, n - 1);
    }
  }

  lemma SameEverywhere(a: Store, b: Store)
    requires forall k :: SameAt(a, b, k)
    ensures a == b
  {
    assert forall k :: SameAt(a, b, k) ==> (k in a <==> k in b);
  }

  lemma IterationRemovesMatches(store: Store, turns: seq<Turn>, pattern: string)
    requires PagesMatch(turns, pattern) && ScanGuarantee(turns, pattern) && NoOtherClients(store, turns)
    ensures After(store, turns, |turns|) == WithoutMatching(store, pattern)
  {
    forall k
      ensures SameAt(After(store, turns, |turns|), WithoutMatching(store, pattern), k)
    {
      IterationReturned(store, turns, pattern, k);
    }
    SameEverywhere(After(store, turns, |turns|), WithoutMatching(store, pattern));
  }

  lemma SizeByKeys(m: Store)
    ensures |m| == |m.Keys|
  {
  }

  lemma DisjointSizes(a: set<string>, b: set<string>)
    requires a !! b
    ensures |a + b| == |a| + |b|
  {
  }

  lemma MatchesAndOthers(store: Store, pattern: string)
    ensures |WithoutMatching(store, pattern)| + |Matching(store, pattern)| == |store|
  {
    var others, matches := WithoutMatching(store, pattern), Matching(store, pattern);
    assert store.Keys == others.Keys + matches;
    DisjointSizes(others.Keys, matches);
    SizeByKeys(others);
    SizeByKeys(store);
  }

  /**
    Without concurrent writers the loop removes exactly the matching keys, and the total it returns
    is their number, however often SCAN repeats a key.
   */
  lemma ScanDeletesExactlyTheMatches(store: Store, turns: seq<Turn>, pattern: string)
    requires PagesMatch(turns, pattern) && ScanGuarantee(turns, pattern) && NoOtherClients(store, turns)
    ensures After(store, turns, |turns|) == WithoutMatching(store, pattern)
    ensures Deleted(turns, |turns|) == |Matching(store, pattern)|
  {
    IterationRemovesMatches(store, turns, pattern);
    DeletedCountsRemovals(store, turns, |turns|);
    MatchesAndOthers(store, pattern);
  }
}
