/**
  One `PermissionClient` instance. The code of a cold read between two awaits is one atomic
  section; each section is a function on the client's state, which the protocol uses, and a
  method of the class, which updates the dictionary and the futures in place.
 */
module Client {
  import opened Prelude
  import opened Keys
  import opened Helios

  /** A read call. A call creates at most one future, so the future carries its leader's number. */
  type TaskId = nat

  /** How a read call ends. */
  datatype Answer =
    | Granted(perms: Perms)
    | RaisedUnreachable
    | RaisedOther

  /** Where the answer of a finished call came from. */
  datatype Source = FromCache | Led | Joined(leader: TaskId)

  /**
    The point at which a call is suspended, or its answer. A fetch result is kept together with the
    database version it was computed from; the code never sees that number.
   */
  datatype Pc =
    | Calling
    | GotReply(cached: Option<Perms>)
    | Fetching
    | Fetched(version: nat, result: FetchResult)
    | Populating(perms: Perms, version: nat)
    | Populated(perms: Perms)
    | Waiting(leader: TaskId)
    | Done(answer: Answer, source: Source)

  datatype Future = Pending | HasResult(perms: Perms) | HasException

  datatype ClientState = ClientState(
    inFlight: map<Key, TaskId>,
    futures: map<TaskId, Future>,
    staleOnError: bool)

  function Release(c: ClientState, key: Key): ClientState {
    c.(inFlight := c.inFlight - {key})
  }

  /** After the cache GET: answer a hit, join the fetch in flight, or register a future and lead. */
  function AfterGet(c: ClientState, me: TaskId, key: Key, cached: Option<Perms>): (ClientState, Pc) {
    match cached
    case Some(perms) => (c, Done(Granted(perms), FromCache))
    case None =>
      if key in c.inFlight then (c, Waiting(c.inFlight[key]))
      else (c.(inFlight := c.inFlight[key := me], futures := c.futures[me := Pending]), Fetching)
  }

  /** After the fetch: go on to populate the cache, or settle the future and release the key. */
  function AfterFetch(c: ClientState, me: TaskId, key: Key, version: nat, result: FetchResult): (ClientState, Pc) {
    match result
    case Resolved(resolution) => (c, Populating(ToPerms(resolution), version))
    case Unreachable =>
      if c.staleOnError then
        (Release(c.(futures := c.futures[me := HasResult([])]), key), Done(Granted([]), Led))
      else
        (Release(c.(futures := c.futures[me := HasException]), key), Done(RaisedUnreachable, Led))
    case Malformed => (Release(c, key), Done(RaisedOther, Led))
  }

  /** After the cache SET: resolve the future, release the key, answer. */
  function AfterSet(c: ClientState, me: TaskId, key: Key, perms: Perms): (ClientState, Pc) {
    (Release(c.(futures := c.futures[me := HasResult(perms)]), key), Done(Granted(perms), Led))
  }

  /** The answer of a follower whose future has settled. */
  function AfterWait(f: Future, leader: TaskId): Pc
    requires !f.Pending?
  {
    match f
    case HasResult(perms) => Done(Granted(perms), Joined(leader))
    case HasException => Done(RaisedUnreachable, Joined(leader))
  }

  class PermissionClient {
    var inFlight: map<Key, TaskId>
    var futures: map<TaskId, Future>
    const staleOnError: bool

    ghost function View(): ClientState
      reads this
    {
      ClientState(inFlight, futures, staleOnError)
    }

    constructor (staleOnError: bool)
      ensures View() == ClientState(map[], map[], staleOnError)
    {
      this.staleOnError := staleOnError;
      inFlight, futures := map[], map[];
    }

    /** `_resolve_perms`, from the end of `await cache.get` to the next await. */
    method ResumeAfterGet(me: TaskId, key: Key, cached: Option<Perms>) returns (pc: Pc)
      modifies this
      ensures (View(), pc) == AfterGet(old(View()), me, key, cached)
    {
      if cached.Some? {
        return Done(Granted(cached.value), FromCache);
      }
      if key in inFlight {
        return Waiting(inFlight[key]);
      }
      futures := futures[me := Pending];
      inFlight := inFlight[key := me];
      pc := Fetching;
    }

    /** `_fetch_and_populate` after the fetch, and on its failure paths the `finally` and the return. */
    method ResumeAfterFetch(me: TaskId, key: Key, version: nat, result: FetchResult) returns (pc: Pc)
      modifies this
      ensures (View(), pc) == AfterFetch(old(View()), me, key, version, result)
    {
      match result {
        case Resolved(resolution) =>
          return Populating(ToPerms(resolution), version);
        case Unreachable =>
          if !staleOnError {
            futures := futures[me := HasException];
            pc := Done(RaisedUnreachable, Led);
          } else {
            futures := futures[me := HasResult([])];
            pc := Done(Granted([]), Led);
          }
        case Malformed =>
          pc := Done(RaisedOther, Led);
      }
      inFlight := inFlight - {key};
    }

    /** From the end of `await cache.set`: resolve, pop, return. */
    method ResumeAfterSet(me: TaskId, key: Key, perms: Perms) returns (pc: Pc)
      modifies this
      ensures (View(), pc) == AfterSet(old(View()), me, key, perms)
    {
      futures := futures[me := HasResult(perms)];
      inFlight := inFlight - {key};
      pc := Done(Granted(perms), Led);
    }

    /** `await existing` of a follower: it goes on exactly when the future has settled. */
    method ResumeAfterWait(leader: TaskId) returns (pc: Pc)
      requires leader in futures
      ensures pc == if futures[leader].Pending? then Waiting(leader) else AfterWait(futures[leader], leader)
    {
      match futures[leader] {
        case Pending => pc := Waiting(leader);
        case HasResult(perms) => pc := Done(Granted(perms), Joined(leader));
        case HasException => pc := Done(RaisedUnreachable, Joined(leader));
      }
    }
  }
}
