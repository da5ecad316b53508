/**
  The protocol over the in-memory cache, whose `get` and `set` never suspend: GET and
  join-or-lead are one event, and so are SET, resolve and release. It refines the protocol with
  separate cache events, and it bounds how often Helios is asked.
 */
module InMemoryProtocol {
  import opened Prelude
  import opened Keys
  import opened Helios
  import opened Client
  import opened Protocol
  import opened Ownership

  datatype MemLabel =
    | Call(i: TaskId)
    | Serve(i: TaskId, version: nat, result: FetchResult)
    | Finish(i: TaskId)
    | Awake(i: TaskId)
    | Outside(l: Label)

  predicate MemEnabled(s: State, m: MemLabel) {
    match m
    case Call(i) => IsTask(s, i) && s.tasks[i].pc.Calling?
    case Serve(i, version, result) => Enabled(s, ServeFetch(i, version, result))
    case Finish(i) => IsTask(s, i) && s.tasks[i].pc.Fetched?
    case Awake(i) => Enabled(s, Wake(i))
    case Outside(l) => !IsTaskLabel(l) && Enabled(s, l)
  }

  function MemApply(s: State, m: MemLabel): State
    requires MemEnabled(s, m)
  {
    match m
    case Call(i) => SetBoth(s, i, AfterGet(ClientOf(s, i), i, KeyOfTask(s, i), CacheLookup(s, KeyOfTask(s, i))))
    case Serve(i, version, result) => SetPc(s, i, Fetched(version, result))
    case Finish(i) =>
      var key, pc := KeyOfTask(s, i), s.tasks[i].pc;
      if pc.result.Resolved? then
        var perms := ToPerms(pc.result.resolution);
        SetBoth(s, i, AfterSet(ClientOf(s, i), i, key, perms))
          .(cache := if key in s.cache then s.cache else s.cache[key := perms])
      else
        SetBoth(s, i, AfterFetch(ClientOf(s, i), i, key, pc.version, pc.result))
    case Awake(i) => Apply(s, Wake(i))
    case Outside(l) => Apply(s, l)
  }

  predicate IsMemRun(s: State, ms: seq<MemLabel>)
    decreases |ms|, 0
  {
    ms == [] || (IsMemRun(s, Front(ms)) && MemEnabled(MemExec(s, Front(ms)), Last(ms)))
  }

  function MemExec(s: State, ms: seq<MemLabel>): State
    requires IsMemRun(s, ms)
    decreases |ms|, 1
  {
    if ms == [] then s else MemApply(MemExec(s, Front(ms)), Last(ms))
  }

  /** The separate events that one event of the in-memory protocol stands for. */
  function Expand(s: State, m: MemLabel): seq<Label>
    requires MemEnabled(s, m)
  {
    match m
    case Call(i) => [ServeGet(i, true), ResumeGet(i)]
    case Serve(i, version, result) => [ServeFetch(i, version, result)]
    case Finish(i) =>
      if s.tasks[i].pc.result.Resolved? then [ResumeFetch(i), ServeSet(i, true), ResumeSet(i)] else [ResumeFetch(i)]
    case Awake(i) => [Wake(i)]
    case Outside(l) => [l]
  }

  function Flatten(s: State, ms: seq<MemLabel>): seq<Label>
    requires IsMemRun(s, ms)
  {
    if ms == [] then [] else Flatten(s, Front(ms)) + Expand(MemExec(s, Front(ms)), Last(ms))
  }

  lemma CallRefines(s: State, i: TaskId)
    requires MemEnabled(s, Call(i))
    ensures IsRun(s, Expand(s, Call(i))) && Exec(s, Expand(s, Call(i))) == MemApply(s, Call(i))
  {
    RunOfTwo(s, ServeGet(i, true), ResumeGet(i));
  }

  lemma FinishRefines(s: State, i: TaskId)
    requires MemEnabled(s, Finish(i))
    ensures IsRun(s, Expand(s, Finish(i))) && Exec(s, Expand(s, Finish(i))) == MemApply(s, Finish(i))
  {
    if s.tasks[i].pc.result.Resolved? {
      RunOfTwo(s, ResumeFetch(i), ServeSet(i, true));
      RunExtends(s, [ResumeFetch(i), ServeSet(i, true)], ResumeSet(i));
      assert [ResumeFetch(i), ServeSet(i, true)] + [ResumeSet(i)] == Expand(s, Finish(i));
      var u := Exec(s, Expand(s, Finish(i)));
      assert u.tasks == MemApply(s, Finish(i)).tasks;
      assert u.clients == MemApply(s, Finish(i)).clients;
    } else {
      RunOfOne(s, ResumeFetch(i));
    }
  }

  lemma StepRefines(s: State, m: MemLabel)
    requires MemEnabled(s, m)
    ensures IsRun(s, Expand(s, m)) && Exec(s, Expand(s, m)) == MemApply(s, m)
  {
    match m
    case Call(i) => CallRefines(s, i);
    case Serve(i, version, result) => RunOfOne(s, ServeFetch(i, version, result));
    case Finish(i) => FinishRefines(s, i);
    case Awake(i) => RunOfOne(s, Wake(i));
    case Outside(l) => RunOfOne(s, l);
  }

  /** Refinement: every run over the in-memory cache is a run of the general protocol. */
  lemma {:induction false} InMemoryRunsRefine(s: State, ms: seq<MemLabel>)
    requires IsMemRun(s, ms)
    ensures IsRun(s, Flatten(s, ms)) && Exec(s, Flatten(s, ms)) == MemExec(s, ms)
  {
    if ms != [] {
      InMemoryRunsRefine(s, Front(ms));
      StepRefines(MemExec(s, Front(ms)), Last(ms));
      RunConcat(s, Flatten(s, Front(ms)), Expand(MemExec(s, Front(ms)), Last(ms)));
    }
  }

  /** So what is proved of the general protocol holds here too; ownership, for one. */
  lemma InMemoryRunIsOwned(s: State, ms: seq<MemLabel>)
    requires Start(s) && IsMemRun(s, ms)
    ensures Owned(MemExec(s, ms))
  {
    InMemoryRunsRefine(s, ms);
    RunIsOwned(s, Flatten(s, ms));
  }

  /** Between `s` and `t` call `i` of client `c` has asked Helios about `key`. */
  predicate BeginsFetch(s: State, t: State, i: TaskId, c: ClientId, key: Key) {
    i < |s.tasks| && i < |t.tasks| && s.tasks[i].client == c && KeyOfTask(s, i) == key &&
    !s.tasks[i].pc.Fetching? && t.tasks[i].pc.Fetching?
  }

  /** Fetches of `key` that client `c` started. */
  function Fetches(s: State, ms: seq<MemLabel>, c: ClientId, key: Key): nat
    requires IsMemRun(s, ms)
  {
    if ms == [] then 0
    else
      var before, after := MemExec(s, Front(ms)), MemExec(s, ms);
      Fetches(s, Front(ms), c, key) +
      if Last(ms).Call? && BeginsFetch(before, after, Last(ms).i, c, key) then 1 else 0
  }

  /** Fetches of `key` by client `c` that ended without an answer. */
  function FailedFetches(s: State, ms: seq<MemLabel>, c: ClientId, key: Key): nat
    requires IsMemRun(s, ms)
  {
    if ms == [] then 0
    else
      var before, m := MemExec(s, Front(ms)), Last(ms);
      FailedFetches(s, Front(ms), c, key) +
      if m.Finish? && before.tasks[m.i].client == c && KeyOfTask(before, m.i) == key &&
         !before.tasks[m.i].pc.result.Resolved? then 1 else 0
  }

  function Removals(ms: seq<MemLabel>, key: Key): nat {
    if ms == [] then 0
    else
      Removals(Front(ms), key) +
      if Last(ms).Outside? && Last(ms).l.Remove? && key in Last(ms).l.keys then 1 else 0
  }

  /** The next read of `key` in client `c` starts no fetch: the key is cached or a fetch is under way. */
  predicate Covered(s: State, c: ClientId, key: Key) {
    key in s.cache || (c in s.clients && key in s.clients[c].inFlight)
  }

  lemma StepKeepsFetchBound(s: State, m: MemLabel, c: ClientId, key: Key)
    requires MemEnabled(s, m)
    ensures var t := MemApply(s, m);
            var started := if m.Call? && BeginsFetch(s, t, m.i, c, key) then 1 else 0;
            var failed := if m.Finish? && s.tasks[m.i].client == c && KeyOfTask(s, m.i) == key &&
                             !s.tasks[m.i].pc.result.Resolved? then 1 else 0;
            var removed := if m.Outside? && m.l.Remove? && key in m.l.keys then 1 else 0;
            started + (if Covered(s, c, key) then 1 else 0) <=
            failed + removed + if Covered(t, c, key) then 1 else 0
  {
  }

  lemma {:induction false} FetchesAreCovered(s0: State, ms: seq<MemLabel>, c: ClientId, key: Key)
    requires IsMemRun(s0, ms)
    ensures Fetches(s0, ms, c, key) <=
            Removals(ms, key) + FailedFetches(s0, ms, c, key) + if Covered(MemExec(s0, ms), c, key) then 1 else 0
  {
    if ms != [] {
      FetchesAreCovered(s0, Front(ms), c, key);
      StepKeepsFetchBound(MemExec(s0, Front(ms)), Last(ms), c, key);
    }
  }

  /**
    Fetch bound: over the in-memory cache a client starts at most
    `1 + removals + failed fetches` fetches of a key, in every run from any state.
   */
  lemma FetchBound(s0: State, ms: seq<MemLabel>, c: ClientId, key: Key)
    requires IsMemRun(s0, ms)
    ensures Fetches(s0, ms, c, key) <= 1 + Removals(ms, key) + FailedFetches(s0, ms, c, key)
  {
    FetchesAreCovered(s0, ms, c, key);
  }
}
