/**
  The coalescing protocol: any number of read calls on any number of clients, one shared cache,
  and Helios as a versioned database. A run is a start state and a list of labels; every label
  is one atomic event. Cache and Helios execute a request at a server event; the call resumes
  in a later event.
 */
module Protocol {
  import opened Prelude
  import opened Keys
  import opened Helios
  import opened Client

  type ClientId = nat

  datatype Task = Task(client: ClientId, id: Pair, pc: Pc)

  datatype RawRow = RawRow(versions: seq<Resolution>, written: nat)

  /**
    Helios's record of one membership: every version it ever had, the last one current, and which
    of them was the last to be written through.
   */
  type Row = r: RawRow | r.written < |r.versions| witness RawRow([NotAMember], 0)

  datatype State = State(
    rows: map<Pair, Row>,
    cache: map<Key, Perms>,
    clients: map<ClientId, ClientState>,
    tasks: seq<Task>)

  datatype Label =
    // steps of read call i
    | ServeGet(i: TaskId, ok: bool)          // the cache executes GET; a failed GET reads as a miss
    | ResumeGet(i: TaskId)
    | ServeFetch(i: TaskId, version: nat, result: FetchResult)   // Helios answers, or the request fails
    | ResumeFetch(i: TaskId)
    | ServeSet(i: TaskId, ok: bool)          // the cache executes SET NX; a failed SET is swallowed
    | ResumeSet(i: TaskId)
    | Wake(i: TaskId)
    // everything else
    | ChangeRole(id: Pair, resolution: Resolution)
    | WriteThrough(id: Pair, perms: Perms, of: Option<nat>)   // of a version of the row, or of any list
    | Remove(keys: set<Key>)                 // DEL of some keys, or their expiry

  predicate IsTaskLabel(l: Label) {
    !l.ChangeRole? && !l.WriteThrough? && !l.Remove?
  }

  function RowOf(s: State, id: Pair): Row {
    if id in s.rows then s.rows[id] else RawRow([NotAMember], 0)
  }

  /** The permissions Helios would answer with now. */
  function Current(s: State, id: Pair): Perms {
    ToPerms(Last(RowOf(s, id).versions))
  }

  /** The current version has not been written through yet. */
  predicate WritePending(s: State, id: Pair) {
    RowOf(s, id).written + 1 < |RowOf(s, id).versions|
  }

  function CacheLookup(s: State, key: Key): Option<Perms> {
    if key in s.cache then Some(s.cache[key]) else None
  }

  predicate IsTask(s: State, i: TaskId) {
    i < |s.tasks| && s.tasks[i].client in s.clients
  }

  function ClientOf(s: State, i: TaskId): ClientState
    requires IsTask(s, i)
  {
    s.clients[s.tasks[i].client]
  }

  function KeyOfTask(s: State, i: TaskId): Key
    requires i < |s.tasks|
  {
    KeyOf(s.tasks[i].id)
  }

  /** Helios answers from the current version. */
  predicate Truthful(s: State, id: Pair, version: nat, result: FetchResult) {
    result.Resolved? ==>
      version + 1 == |RowOf(s, id).versions| && result.resolution == Last(RowOf(s, id).versions)
  }

  /**
    A write-through of version `v` is in order when no later version has landed before. It may skip
    versions whose own write-through failed, and it may repeat the last one.
   */
  predicate LandsInOrder(row: Row, v: nat) {
    row.written <= v < |row.versions|
  }

  predicate Enabled(s: State, l: Label) {
    match l
    case ServeGet(i, _) => IsTask(s, i) && s.tasks[i].pc.Calling?
    case ResumeGet(i) => IsTask(s, i) && s.tasks[i].pc.GotReply?
    case ServeFetch(i, version, result) =>
      IsTask(s, i) && s.tasks[i].pc.Fetching? && Truthful(s, s.tasks[i].id, version, result)
    case ResumeFetch(i) => IsTask(s, i) && s.tasks[i].pc.Fetched?
    case ServeSet(i, _) => IsTask(s, i) && s.tasks[i].pc.Populating?
    case ResumeSet(i) => IsTask(s, i) && s.tasks[i].pc.Populated?
    case Wake(i) =>
      IsTask(s, i) && s.tasks[i].pc.Waiting? && s.tasks[i].pc.leader in ClientOf(s, i).futures &&
      !ClientOf(s, i).futures[s.tasks[i].pc.leader].Pending?
    case ChangeRole(_, _) => true
    case WriteThrough(id, perms, of) =>
      var row := RowOf(s, id);
      of.Some? ==> LandsInOrder(row, of.value) && perms == ToPerms(row.versions[of.value])
    case Remove(_) => true
  }

  function SetPc(s: State, i: TaskId, pc: Pc): State
    requires i < |s.tasks|
  {
    s.(tasks := s.tasks[i := s.tasks[i].(pc := pc)])
  }

  /** A call runs one of the client's atomic sections. */
  function SetBoth(s: State, i: TaskId, both: (ClientState, Pc)): State
    requires IsTask(s, i)
  {
    SetPc(s, i, both.1).(clients := s.clients[s.tasks[i].client := both.0])
  }

  function Apply(s: State, l: Label): State
    requires Enabled(s, l)
  {
    match l
    case ServeGet(i, ok) => SetPc(s, i, GotReply(if ok then CacheLookup(s, KeyOfTask(s, i)) else None))
    case ResumeGet(i) => SetBoth(s, i, AfterGet(ClientOf(s, i), i, KeyOfTask(s, i), s.tasks[i].pc.cached))
    case ServeFetch(i, version, result) => SetPc(s, i, Fetched(version, result))
    case ResumeFetch(i) =>
      SetBoth(s, i, AfterFetch(ClientOf(s, i), i, KeyOfTask(s, i), s.tasks[i].pc.version, s.tasks[i].pc.result))
    case ServeSet(i, ok) =>
      var key, perms := KeyOfTask(s, i), s.tasks[i].pc.perms;
      SetPc(s, i, Populated(perms)).(cache := if ok && key !in s.cache then s.cache[key := perms] else s.cache)
    case ResumeSet(i) => SetBoth(s, i, AfterSet(ClientOf(s, i), i, KeyOfTask(s, i), s.tasks[i].pc.perms))
    case Wake(i) =>
      var leader := s.tasks[i].pc.leader;
      SetPc(s, i, AfterWait(ClientOf(s, i).futures[leader], leader))
    case ChangeRole(id, resolution) =>
      var row := RowOf(s, id);
      s.(rows := s.rows[id := RawRow(row.versions + [resolution], row.written)])
    case WriteThrough(id, perms, of) =>
      var row := RowOf(s, id);
      var s' := s.(cache := s.cache[KeyOf(id) := perms]);
      if of.Some? then s'.(rows := s.rows[id := RawRow(row.versions, of.value)]) else s'
    case Remove(keys) => s.(cache := s.cache - keys)
  }

  /**
    What surrounds the calls is free: in every state any list can be written through, any keys can
    be removed, any role change can happen; a waiting GET and SET can succeed or fail, and a fetch
    can be answered from the current version, or fail in either way.
   */
  lemma EnvironmentIsFree(s: State, id: Pair, perms: Perms, resolution: Resolution, keys: set<Key>, i: TaskId, ok: bool)
    ensures Enabled(s, WriteThrough(id, perms, None)) && Enabled(s, Remove(keys))
    ensures Enabled(s, ChangeRole(id, resolution))
    ensures forall v: nat | LandsInOrder(RowOf(s, id), v) ::
              Enabled(s, WriteThrough(id, ToPerms(RowOf(s, id).versions[v]), Some(v)))
    ensures IsTask(s, i) && s.tasks[i].pc.Calling? ==> Enabled(s, ServeGet(i, ok))
    ensures IsTask(s, i) && s.tasks[i].pc.Populating? ==> Enabled(s, ServeSet(i, ok))
    ensures IsTask(s, i) && s.tasks[i].pc.Fetching? ==>
              var versions := RowOf(s, s.tasks[i].id).versions;
              && Enabled(s, ServeFetch(i, |versions| - 1, Resolved(Last(versions))))
              && Enabled(s, ServeFetch(i, 0, Unreachable)) && Enabled(s, ServeFetch(i, 0, Malformed))
  {
  }

  /** No call has started and the cache is empty. */
  ghost predicate Start(s: State) {
    && (forall i | 0 <= i < |s.tasks| :: IsTask(s, i) && s.tasks[i].pc == Calling)
    && (forall c | c in s.clients :: s.clients[c].inFlight == map[] && s.clients[c].futures == map[])
    && s.cache == map[]
  }

  predicate IsRun(s: State, ls: seq<Label>)
    decreases |ls|, 0
  {
    ls == [] || (IsRun(s, Front(ls)) && Enabled(Exec(s, Front(ls)), Last(ls)))
  }

  function Exec(s: State, ls: seq<Label>): State
    requires IsRun(s, ls)
    decreases |ls|, 1
  {
    if ls == [] then s else Apply(Exec(s, Front(ls)), Last(ls))
  }

  lemma RunExtends(s: State, ls: seq<Label>, l: Label)
    requires IsRun(s, ls) && Enabled(Exec(s, ls), l)
    ensures IsRun(s, ls + [l]) && Exec(s, ls + [l]) == Apply(Exec(s, ls), l)
  {
    assert Front(ls + [l]) == ls;
  }

  lemma RunOfOne(s: State, a: Label)
    requires Enabled(s, a)
    ensures IsRun(s, [a]) && Exec(s, [a]) == Apply(s, a)
  {
    RunExtends(s, [], a);
    assert [] + [a] == [a];
  }

  lemma RunOfTwo(s: State, a: Label, b: Label)
    requires Enabled(s, a) && Enabled(Apply(s, a), b)
    ensures IsRun(s, [a, b]) && Exec(s, [a, b]) == Apply(Apply(s, a), b)
  {
    RunOfOne(s, a);
    RunExtends(s, [a], b);
    assert [a] + [b] == [a, b];
  }

  lemma {:induction false} RunPrefix(s: State, ls: seq<Label>, n: nat)
    requires IsRun(s, ls) && n <= |ls|
    ensures IsRun(s, ls[..n])
    ensures n < |ls| ==> Enabled(Exec(s, ls[..n]), ls[n])
    ensures n < |ls| ==> IsRun(s, ls[..n + 1]) && Exec(s, ls[..n + 1]) == Apply(Exec(s, ls[..n]), ls[n])
    ensures n == |ls| ==> Exec(s, ls[..n]) == Exec(s, ls)
  {
    if n == |ls| {
      assert ls[..n] == ls;
    } else {
      assert Front(ls[..n + 1]) == ls[..n];
      if n + 1 == |ls| {
        assert ls[..n + 1] == ls;
      } else {
        RunPrefix(s, Front(ls), n);
        assert Front(ls)[..n] == ls[..n] && Front(ls)[..n + 1] == ls[..n + 1];
      }
    }
  }

  /** Two runs one after the other are one run. */
  lemma {:induction false} RunConcat(s: State, ls: seq<Label>, more: seq<Label>)
    requires IsRun(s, ls) && IsRun(Exec(s, ls), more)
    ensures IsRun(s, ls + more) && Exec(s, ls + more) == Exec(Exec(s, ls), more)
    decreases |more|
  {
    if more == [] {
      assert ls + more == ls;
    } else {
      var first := ls + Front(more);
      RunConcat(s, ls, Front(more));
      RunExtends(s, first, Last(more));
      assert ls + more == first + [Last(more)];
    }
  }

  /** The calls of a run, and the clients, stay the same; finished calls stay finished. */
  ghost predicate SameCalls(s: State, t: State) {
    && |t.tasks| == |s.tasks| && t.clients.Keys == s.clients.Keys
    && (forall c | c in s.clients :: t.clients[c].staleOnError == s.clients[c].staleOnError)
    && (forall i | 0 <= i < |s.tasks| ::
          t.tasks[i].client == s.tasks[i].client && t.tasks[i].id == s.tasks[i].id &&
          (s.tasks[i].pc.Done? ==> t.tasks[i].pc == s.tasks[i].pc))
  }

  lemma StepKeepsCalls(s: State, l: Label)
    requires Enabled(s, l)
    ensures SameCalls(s, Apply(s, l))
  {
  }

  lemma {:induction false} RunKeepsCalls(s: State, ls: seq<Label>)
    requires IsRun(s, ls)
    ensures SameCalls(s, Exec(s, ls))
  {
    if ls != [] {
      RunKeepsCalls(s, Front(ls));
      StepKeepsCalls(Exec(s, Front(ls)), Last(ls));
    }
  }
}
