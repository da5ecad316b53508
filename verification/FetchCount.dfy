/**
  How often one client asks Helios about one key, over a cache whose GET suspends. Apart from
  removals and failures, the only cause of another fetch is a late miss: a call that read a miss
  resumes when the key has been cached in the meantime.
 */
module FetchCount {
  import opened Prelude
  import opened Keys
  import opened Client
  import opened Protocol
  import opened Ownership
  import opened Liveness

  /** Call `i` belongs to client `c` and reads `key`. */
  predicate CallFor(s: State, i: TaskId, c: ClientId, key: Key) {
    i < |s.tasks| && s.tasks[i].client == c && KeyOfTask(s, i) == key
  }

  /** By this event a call of client `c` becomes the leader for `key`, and goes on to ask Helios. */
  predicate Leads(s: State, l: Label, c: ClientId, key: Key)
    requires Enabled(s, l)
  {
    l.ResumeGet? && CallFor(s, l.i, c, key) && s.tasks[l.i].pc.cached.None? && key !in ClientOf(s, l.i).inFlight
  }

  predicate LateMiss(s: State, l: Label, c: ClientId, key: Key)
    requires Enabled(s, l)
  {
    Leads(s, l, c, key) && key in s.cache
  }

  /** A removal of the key, a fetch of the client that brought no answer, or a populate that failed. */
  predicate Upsets(s: State, l: Label, c: ClientId, key: Key)
    requires Enabled(s, l)
  {
    match l
    case Remove(keys) => key in keys
    case ServeFetch(i, _, result) => CallFor(s, i, c, key) && !result.Resolved?
    case ServeSet(i, ok) => CallFor(s, i, c, key) && !ok
    case _ => false
  }

  function Fetches(s0: State, ls: seq<Label>, c: ClientId, key: Key): nat
    requires IsRun(s0, ls)
    decreases |ls|
  {
    if ls == [] then 0
    else Fetches(s0, Front(ls), c, key) + if Leads(Exec(s0, Front(ls)), Last(ls), c, key) then 1 else 0
  }

  function Upsettings(s0: State, ls: seq<Label>, c: ClientId, key: Key): nat
    requires IsRun(s0, ls)
    decreases |ls|
  {
    if ls == [] then 0
    else Upsettings(s0, Front(ls), c, key) + if Upsets(Exec(s0, Front(ls)), Last(ls), c, key) then 1 else 0
  }

  /** The late misses of the client after its first fetch of the key. */
  function LateMisses(s0: State, ls: seq<Label>, c: ClientId, key: Key): nat
    requires IsRun(s0, ls)
    decreases |ls|
  {
    if ls == [] then 0
    else
      LateMisses(s0, Front(ls), c, key) +
      if Fetches(s0, Front(ls), c, key) > 0 && LateMiss(Exec(s0, Front(ls)), Last(ls), c, key) then 1 else 0
  }

  /** The leader is on its way to the cache with an answer, as far as anyone can tell. */
  predicate Bringing(pc: Pc) {
    pc.Fetching? || (pc.Fetched? && pc.result.Resolved?) || pc.Populating?
  }

  predicate Brings(s: State, c: ClientId, key: Key, i: TaskId) {
    CallFor(s, i, c, key) && Bringing(s.tasks[i].pc)
  }

  /** The key is cached, or a leader of the client is bringing it. */
  ghost predicate Covered(s: State, c: ClientId, key: Key) {
    key in s.cache || exists i :: Brings(s, c, key, i)
  }

  lemma LeaderKeepsCover(s: State, l: Label, c: ClientId, key: Key, i: TaskId)
    requires Enabled(s, l) && Brings(s, c, key, i) && !Upsets(s, l, c, key)
    ensures Brings(Apply(s, l), c, key, i) || key in Apply(s, l).cache
  {
    if IsTaskLabel(l) && l.i != i {
      assert Apply(s, l).tasks[i] == s.tasks[i];
    }
  }

  /** Cover is lost by an upset only. */
  lemma CoverIsKept(s: State, l: Label, c: ClientId, key: Key)
    requires Enabled(s, l) && Covered(s, c, key) && !Upsets(s, l, c, key)
    ensures Covered(Apply(s, l), c, key)
  {
    if key !in s.cache {
      var i :| Brings(s, c, key, i);
      LeaderKeepsCover(s, l, c, key, i);
    }
  }

  /** A leader that is bringing the key is registered for it. */
  lemma BringersAreRegistered(s: State, c: ClientId, key: Key)
    requires Owned(s)
    ensures Covered(s, c, key) ==> key in s.cache || (c in s.clients && key in s.clients[c].inFlight)
  {
    if i :| Brings(s, c, key, i) {
      assert OwnsEntry(s, i);
    }
  }

  /** A call leads while the key is covered only by a late miss, and covers the key itself. */
  lemma LeadingCovers(s: State, l: Label, c: ClientId, key: Key)
    requires Enabled(s, l) && Owned(s) && Leads(s, l, c, key)
    ensures Covered(s, c, key) ==> LateMiss(s, l, c, key)
    ensures Covered(Apply(s, l), c, key)
  {
    BringersAreRegistered(s, c, key);
    assert Brings(Apply(s, l), c, key, l.i);
  }

  lemma {:induction false} FetchesAreAccounted(s0: State, ls: seq<Label>, c: ClientId, key: Key)
    requires Start(s0) && IsRun(s0, ls)
    ensures var fetches, others := Fetches(s0, ls, c, key), Upsettings(s0, ls, c, key) + LateMisses(s0, ls, c, key);
            fetches > 0 ==> fetches + (if Covered(Exec(s0, ls), c, key) then 0 else 1) <= 1 + others
    decreases |ls|
  {
    if ls != [] {
      var before, l := Exec(s0, Front(ls)), Last(ls);
      FetchesAreAccounted(s0, Front(ls), c, key);
      RunIsOwned(s0, Front(ls));
      if Leads(before, l, c, key) {
        LeadingCovers(before, l, c, key);
      } else if Covered(before, c, key) && !Upsets(before, l, c, key) {
        CoverIsKept(before, l, c, key);
      }
    }
  }

  /**
    Fetch bound over any cache: in every run the fetches one client starts for a key are at most one,
    and one more for each removal, each fetch or populate of its own that failed, and each late miss.
   */
  lemma FetchesAreBounded(s0: State, ls: seq<Label>, c: ClientId, key: Key)
    requires Start(s0) && IsRun(s0, ls)
    ensures Fetches(s0, ls, c, key) <= 1 + Upsettings(s0, ls, c, key) + LateMisses(s0, ls, c, key)
  {
    FetchesAreAccounted(s0, ls, c, key);
  }

  lemma {:induction false} UndisturbedFetches(s0: State, ls: seq<Label>, c: ClientId, key: Key)
    requires Start(s0) && IsRun(s0, ls) && Upsettings(s0, ls, c, key) == 0
    ensures Fetches(s0, ls, c, key) > 0 ==> Covered(Exec(s0, ls), c, key)
    ensures Fetches(s0, ls, c, key) ==
            if Fetches(s0, ls, c, key) == 0 then LateMisses(s0, ls, c, key) else 1 + LateMisses(s0, ls, c, key)
    decreases |ls|
  {
    if ls != [] {
      var before, l := Exec(s0, Front(ls)), Last(ls);
      UndisturbedFetches(s0, Front(ls), c, key);
      RunIsOwned(s0, Front(ls));
      if Leads(before, l, c, key) {
        LeadingCovers(before, l, c, key);
      } else if Covered(before, c, key) {
        CoverIsKept(before, l, c, key);
      }
    }
  }

  /**
    The documented promise, with its exact condition: without removals and failures a client that
    asks at all asks once and once more per late miss, so it asks at most once if and only if it has
    no late miss.
   */
  lemma OneFetchIffNoLateMiss(s0: State, ls: seq<Label>, c: ClientId, key: Key)
    requires Start(s0) && IsRun(s0, ls) && Upsettings(s0, ls, c, key) == 0
    ensures Fetches(s0, ls, c, key) > 0 ==> Fetches(s0, ls, c, key) == 1 + LateMisses(s0, ls, c, key)
    ensures Fetches(s0, ls, c, key) <= 1 <==> LateMisses(s0, ls, c, key) == 0
  {
    UndisturbedFetches(s0, ls, c, key);
  }

  // The same as a condition on one state: when will no call of the client ask again?

  /** The call has read a miss and not yet gone on. */
  predicate Sleeps(s: State, i: TaskId, c: ClientId, key: Key) {
    CallFor(s, i, c, key) && s.tasks[i].pc == GotReply(None)
  }

  /** No upset, and no failed GET of the client for the key. */
  predicate Calm(s: State, l: Label, c: ClientId, key: Key)
    requires Enabled(s, l)
  {
    !Upsets(s, l, c, key) && !(l.ServeGet? && !l.ok && CallFor(s, l.i, c, key))
  }

  predicate CalmRun(s: State, ls: seq<Label>, c: ClientId, key: Key)
    requires IsRun(s, ls)
    decreases |ls|
  {
    ls == [] || (CalmRun(s, Front(ls), c, key) && Calm(Exec(s, Front(ls)), Last(ls), c, key))
  }

  ghost predicate NeverFetches(s: State, c: ClientId, key: Key) {
    forall more | IsRun(s, more) && CalmRun(s, more, c, key) :: Fetches(s, more, c, key) == 0
  }

  ghost predicate CachedAndAwake(s: State, c: ClientId, key: Key) {
    key in s.cache && forall i :: !Sleeps(s, i, c, key)
  }

  lemma CalmStepKeepsAwake(s: State, l: Label, c: ClientId, key: Key)
    requires Enabled(s, l) && Calm(s, l, c, key) && CachedAndAwake(s, c, key)
    ensures !Leads(s, l, c, key) && CachedAndAwake(Apply(s, l), c, key)
  {
    StepKeepsCalls(s, l);
    forall i
      ensures !Sleeps(Apply(s, l), i, c, key)
    {
      assert !Sleeps(s, i, c, key);
    }
    if l.ResumeGet? {
      assert !Sleeps(s, l.i, c, key);
    }
  }

  lemma {:induction false} CalmRunKeepsAwake(s: State, ls: seq<Label>, c: ClientId, key: Key)
    requires IsRun(s, ls) && CalmRun(s, ls, c, key) && CachedAndAwake(s, c, key)
    ensures Fetches(s, ls, c, key) == 0 && CachedAndAwake(Exec(s, ls), c, key)
    decreases |ls|
  {
    if ls != [] {
      CalmRunKeepsAwake(s, Front(ls), c, key);
      CalmStepKeepsAwake(Exec(s, Front(ls)), Last(ls), c, key);
    }
  }

  lemma {:induction false} FinishingIsCalm(s: State, ls: seq<Label>, j: TaskId, c: ClientId, key: Key)
    requires IsRun(s, ls) && (forall l | l in ls :: Undisturbed(l, j))
    ensures CalmRun(s, ls, c, key)
    decreases |ls|
  {
    if ls != [] {
      FinishingIsCalm(s, Front(ls), j, c, key);
      assert Last(ls) in ls;
    }
  }

  lemma CalmAndLead(s: State, ls: seq<Label>, l: Label, c: ClientId, key: Key)
    requires IsRun(s, ls) && CalmRun(s, ls, c, key)
    requires Enabled(Exec(s, ls), l) && Leads(Exec(s, ls), l, c, key)
    ensures !NeverFetches(s, c, key)
  {
    RunExtends(s, ls, l);
    assert Front(ls + [l]) == ls && Last(ls + [l]) == l;
    assert CalmRun(s, ls + [l], c, key) && Fetches(s, ls + [l], c, key) > 0;
  }

  /** A sleeping call leads as soon as the leader of its key, if there is one, has left. */
  lemma SleeperFetches(s: State, i: TaskId, c: ClientId, key: Key)
    requires Owned(s) && IsTask(s, i) && Sleeps(s, i, c, key)
    ensures !NeverFetches(s, c, key)
  {
    if key in ClientOf(s, i).inFlight {
      var j := ClientOf(s, i).inFlight[key];
      assert LiveLeader(s, c, key, j) && OwnsEntry(s, j);
      var finish := LeaderFinishes(s, j);
      assert Exec(s, finish).tasks[i] == s.tasks[i];
      FinishingIsCalm(s, finish, j, c, key);
      CalmAndLead(s, finish, ResumeGet(i), c, key);
    } else {
      CalmAndLead(s, [], ResumeGet(i), c, key);
    }
  }

  /**
    In a reachable state in which the key is cached, no continuation without removals and failures
    starts a fetch of the client if and only if none of its calls has read a miss and not yet gone on.
   */
  lemma NoMoreFetchesIffNoneSleeps(s0: State, ls: seq<Label>, c: ClientId, key: Key)
    requires Start(s0) && IsRun(s0, ls) && key in Exec(s0, ls).cache
    ensures NeverFetches(Exec(s0, ls), c, key) <==> forall i :: !Sleeps(Exec(s0, ls), i, c, key)
  {
    var s := Exec(s0, ls);
    RunIsOwned(s0, ls);
    RunKeepsCalls(s0, ls);
    if i :| Sleeps(s, i, c, key) {
      assert IsTask(s0, i);
      SleeperFetches(s, i, c, key);
    } else {
      forall more | IsRun(s, more) && CalmRun(s, more, c, key)
        ensures Fetches(s, more, c, key) == 0
      {
        CalmRunKeepsAwake(s, more, c, key);
      }
    }
  }
}
