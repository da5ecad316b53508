/**
  Who owns an in-flight entry: at every suspension point of every run the entry of a key belongs
  to the one live leader of that key in that client, and its future is pending.
 */
module Ownership {
  import opened Prelude
  import opened Keys
  import opened Client
  import opened Protocol

  /** Between registering a future and releasing the key. */
  predicate Live(pc: Pc) {
    pc.Fetching? || pc.Fetched? || pc.Populating? || pc.Populated?
  }

  predicate LiveLeader(s: State, c: ClientId, key: Key, i: TaskId) {
    i < |s.tasks| && s.tasks[i].client == c && KeyOfTask(s, i) == key && Live(s.tasks[i].pc)
  }

  predicate SameSlot(s: State, i: TaskId, j: TaskId) {
    i < |s.tasks| && j < |s.tasks| && s.tasks[i].client == s.tasks[j].client && KeyOfTask(s, i) == KeyOfTask(s, j)
  }

  /** The point a leader is at when its future is in the given state. */
  predicate FutureFits(f: Future, pc: Pc) {
    match f
    case Pending => Live(pc) || pc == Done(RaisedOther, Led)
    case HasResult(perms) => pc == Done(Granted(perms), Led)
    case HasException => pc == Done(RaisedUnreachable, Led)
  }

  ghost predicate EntriesAreLed(s: State) {
    forall c, key | c in s.clients && key in s.clients[c].inFlight ::
      LiveLeader(s, c, key, s.clients[c].inFlight[key])
  }

  predicate OwnsEntry(s: State, i: TaskId) {
    IsTask(s, i) && KeyOfTask(s, i) in ClientOf(s, i).inFlight && ClientOf(s, i).inFlight[KeyOfTask(s, i)] == i &&
    i in ClientOf(s, i).futures && ClientOf(s, i).futures[i] == Pending
  }

  ghost predicate LeadersOwn(s: State) {
    forall i | 0 <= i < |s.tasks| && Live(s.tasks[i].pc) :: OwnsEntry(s, i)
  }

  predicate FutureLed(s: State, c: ClientId, f: TaskId) {
    c in s.clients && f in s.clients[c].futures ==>
      f < |s.tasks| && s.tasks[f].client == c && FutureFits(s.clients[c].futures[f], s.tasks[f].pc)
  }

  ghost predicate FuturesFit(s: State) {
    forall c, f :: FutureLed(s, c, f)
  }

  /** What is known of a call that joined a future: it is for the same key in the same client. */
  predicate FollowerFits(s: State, i: TaskId) {
    IsTask(s, i) &&
    match s.tasks[i].pc
    case Waiting(f) => SameSlot(s, f, i) && f in ClientOf(s, i).futures
    case Done(answer, Joined(f)) => SameSlot(s, f, i) && s.tasks[f].pc == Done(answer, Led)
    case _ => true
  }

  ghost predicate FollowersFit(s: State) {
    forall i | 0 <= i < |s.tasks| :: FollowerFits(s, i)
  }

  ghost predicate Owned(s: State) {
    EntriesAreLed(s) && LeadersOwn(s) && FuturesFit(s) && FollowersFit(s)
  }

  lemma StartIsOwned(s: State)
    requires Start(s)
    ensures Owned(s)
  {
  }

  /** No client state changes, and no call starts or stops leading. */
  ghost predicate Quiet(s: State, t: State) {
    && t.clients == s.clients && |t.tasks| == |s.tasks|
    && (forall i | 0 <= i < |s.tasks| ::
          && t.tasks[i].client == s.tasks[i].client && t.tasks[i].id == s.tasks[i].id
          && (|| t.tasks[i].pc == s.tasks[i].pc
              || (Live(s.tasks[i].pc) && Live(t.tasks[i].pc))
              || (s.tasks[i].pc.Calling? && t.tasks[i].pc.GotReply?)
              || (s.tasks[i].pc.GotReply? && t.tasks[i].pc.Done? && t.tasks[i].pc.source.FromCache?)))
  }

  lemma QuietKeepsOwned(s: State, t: State)
    requires Owned(s) && Quiet(s, t)
    ensures Owned(t)
  {
    forall c, f
      ensures FutureLed(t, c, f)
    {
      assert FutureLed(s, c, f);
    }
    forall i | 0 <= i < |t.tasks|
      ensures FollowerFits(t, i)
    {
      assert FollowerFits(s, i);
    }
    forall i | 0 <= i < |t.tasks| && Live(t.tasks[i].pc)
      ensures OwnsEntry(t, i)
    {
      assert OwnsEntry(s, i);
    }
  }

  /** A call waits for, or takes over the outcome of, a call of its own slot; the clients stay. */
  lemma FollowKeepsOwned(s: State, t: State, i: TaskId, pc: Pc)
    requires Owned(s) && IsTask(s, i) && t.clients == s.clients && t.tasks == s.tasks[i := s.tasks[i].(pc := pc)]
    requires s.tasks[i].pc.GotReply? || s.tasks[i].pc.Waiting?
    requires !Live(pc) && FollowerFits(t, i)
    ensures Owned(t)
  {
    forall c, f
      ensures FutureLed(t, c, f)
    {
      assert FutureLed(s, c, f);
    }
    forall j | 0 <= j < |t.tasks|
      ensures FollowerFits(t, j)
    {
      assert FollowerFits(s, j);
    }
    forall j | 0 <= j < |t.tasks| && Live(t.tasks[j].pc)
      ensures OwnsEntry(t, j)
    {
      assert OwnsEntry(s, j);
    }
  }

  /** Call `i` registers a future and leads. */
  predicate Registers(s: State, t: State, i: TaskId)
    requires IsTask(s, i)
  {
    var c := ClientOf(s, i);
    && s.tasks[i].pc.GotReply? && KeyOfTask(s, i) !in c.inFlight
    && t.tasks == s.tasks[i := s.tasks[i].(pc := Fetching)]
    && t.clients == s.clients[s.tasks[i].client :=
         c.(inFlight := c.inFlight[KeyOfTask(s, i) := i], futures := c.futures[i := Pending])]
  }

  lemma RegisterKeepsFits(s: State, t: State, i: TaskId)
    requires Owned(s) && IsTask(s, i) && Registers(s, t, i)
    ensures FuturesFit(t) && FollowersFit(t)
  {
    forall c, f
      ensures FutureLed(t, c, f)
    {
      assert FutureLed(s, c, f);
    }
    forall j | 0 <= j < |t.tasks|
      ensures FollowerFits(t, j)
    {
      assert FollowerFits(s, j);
    }
  }

  lemma RegisterKeepsOwned(s: State, t: State, i: TaskId)
    requires Owned(s) && IsTask(s, i) && Registers(s, t, i)
    ensures Owned(t)
  {
    RegisterKeepsFits(s, t, i);
    forall j | 0 <= j < |t.tasks| && Live(t.tasks[j].pc)
      ensures OwnsEntry(t, j)
    {
      assert j != i ==> OwnsEntry(s, j);
    }
  }

  /** Leader `i` settles its future, or leaves it pending, releases its key and ends. */
  predicate Leaves(s: State, t: State, i: TaskId, f: Future, answer: Answer)
    requires IsTask(s, i)
  {
    var c := ClientOf(s, i);
    && Live(s.tasks[i].pc) && FutureFits(f, Done(answer, Led))
    && t.tasks == s.tasks[i := s.tasks[i].(pc := Done(answer, Led))]
    && t.clients == s.clients[s.tasks[i].client := Release(c.(futures := c.futures[i := f]), KeyOfTask(s, i))]
  }

  lemma LeaveKeepsFits(s: State, t: State, i: TaskId, f: Future, answer: Answer)
    requires Owned(s) && IsTask(s, i) && Leaves(s, t, i, f, answer)
    ensures FuturesFit(t) && FollowersFit(t)
  {
    assert OwnsEntry(s, i);
    forall c, g
      ensures FutureLed(t, c, g)
    {
      assert FutureLed(s, c, g);
    }
    forall j | 0 <= j < |t.tasks|
      ensures FollowerFits(t, j)
    {
      assert FollowerFits(s, j);
    }
  }

  lemma LeaveKeepsOwned(s: State, t: State, i: TaskId, f: Future, answer: Answer)
    requires Owned(s) && IsTask(s, i) && Leaves(s, t, i, f, answer)
    ensures Owned(t)
  {
    LeaveKeepsFits(s, t, i, f, answer);
    assert OwnsEntry(s, i);
    forall j | 0 <= j < |t.tasks| && Live(t.tasks[j].pc)
      ensures OwnsEntry(t, j)
    {
      assert OwnsEntry(s, j);
    }
  }

  lemma ResumeGetKeepsOwned(s: State, i: TaskId)
    requires Owned(s) && Enabled(s, ResumeGet(i))
    ensures Owned(Apply(s, ResumeGet(i)))
  {
    var t, key := Apply(s, ResumeGet(i)), KeyOfTask(s, i);
    if s.tasks[i].pc.cached.Some? {
      assert t.clients == s.clients;
      QuietKeepsOwned(s, t);
    } else if key in ClientOf(s, i).inFlight {
      var leader := ClientOf(s, i).inFlight[key];
      assert t.clients == s.clients;
      assert LiveLeader(s, s.tasks[i].client, key, leader) && OwnsEntry(s, leader);
      FollowKeepsOwned(s, t, i, Waiting(leader));
    } else {
      RegisterKeepsOwned(s, t, i);
    }
  }

  lemma ResumeFetchKeepsOwned(s: State, i: TaskId)
    requires Owned(s) && Enabled(s, ResumeFetch(i))
    ensures Owned(Apply(s, ResumeFetch(i)))
  {
    var t, c := Apply(s, ResumeFetch(i)), ClientOf(s, i);
    assert OwnsEntry(s, i);
    match s.tasks[i].pc.result {
      case Resolved(_) =>
        assert t.clients == s.clients;
        QuietKeepsOwned(s, t);
      case Unreachable =>
        if c.staleOnError {
          LeaveKeepsOwned(s, t, i, HasResult([]), Granted([]));
        } else {
          LeaveKeepsOwned(s, t, i, HasException, RaisedUnreachable);
        }
      case Malformed =>
        assert c.futures[i := Pending] == c.futures;
        LeaveKeepsOwned(s, t, i, Pending, RaisedOther);
    }
  }

  lemma WakeKeepsOwned(s: State, i: TaskId)
    requires Owned(s) && Enabled(s, Wake(i))
    ensures Owned(Apply(s, Wake(i)))
  {
    var t := Apply(s, Wake(i));
    assert FollowerFits(s, i) && FutureLed(s, s.tasks[i].client, s.tasks[i].pc.leader);
    FollowKeepsOwned(s, t, i, t.tasks[i].pc);
  }

  lemma StepKeepsOwned(s: State, l: Label)
    requires Owned(s) && Enabled(s, l)
    ensures Owned(Apply(s, l))
  {
    match l {
      case ResumeGet(i) => ResumeGetKeepsOwned(s, i);
      case ResumeFetch(i) => ResumeFetchKeepsOwned(s, i);
      case ResumeSet(i) =>
        var perms := s.tasks[i].pc.perms;
        LeaveKeepsOwned(s, Apply(s, l), i, HasResult(perms), Granted(perms));
      case Wake(i) => WakeKeepsOwned(s, i);
      case _ => QuietKeepsOwned(s, Apply(s, l));
    }
  }

  lemma {:induction false} RunIsOwned(s: State, ls: seq<Label>)
    requires Start(s) && IsRun(s, ls)
    ensures Owned(Exec(s, ls))
  {
    if ls == [] {
      StartIsOwned(s);
    } else {
      RunIsOwned(s, Front(ls));
      StepKeepsOwned(Exec(s, Front(ls)), Last(ls));
    }
  }

  /**
    At every suspension point of every run, an in-flight entry exists exactly when the client has
    a live leader for that key; the leader is unique, is the one the entry names, and its future
    is pending.
   */
  lemma InFlightOwnership(s0: State, ls: seq<Label>, c: ClientId, key: Key)
    requires Start(s0) && IsRun(s0, ls) && c in Exec(s0, ls).clients
    ensures var s := Exec(s0, ls);
            && (key in s.clients[c].inFlight <==> exists i :: LiveLeader(s, c, key, i))
            && (forall i | LiveLeader(s, c, key, i) ::
                  s.clients[c].inFlight[key] == i && i in s.clients[c].futures && s.clients[c].futures[i].Pending?)
  {
    RunIsOwned(s0, ls);
    var s := Exec(s0, ls);
    forall i | LiveLeader(s, c, key, i)
      ensures key in s.clients[c].inFlight && s.clients[c].inFlight[key] == i
      ensures i in s.clients[c].futures && s.clients[c].futures[i].Pending?
    {
      assert OwnsEntry(s, i);
    }
  }

  /**
    The future a follower waits for is pending exactly as long as its leader, which the in-flight
    entry of the follower's own key names, is live; or the leader ended in another exception.
   */
  lemma FollowersHaveLeaders(s0: State, ls: seq<Label>, i: TaskId)
    requires Start(s0) && IsRun(s0, ls)
    requires IsTask(Exec(s0, ls), i) && Exec(s0, ls).tasks[i].pc.Waiting?
    ensures var s := Exec(s0, ls); var f := s.tasks[i].pc.leader; var c := ClientOf(s, i);
            && f in c.futures && SameSlot(s, f, i)
            && (LiveLeader(s, s.tasks[i].client, KeyOfTask(s, i), f) <==>
                KeyOfTask(s, i) in c.inFlight && c.inFlight[KeyOfTask(s, i)] == f)
            && (c.futures[f].Pending? <==>
                LiveLeader(s, s.tasks[i].client, KeyOfTask(s, i), f) || s.tasks[f].pc == Done(RaisedOther, Led))
  {
    RunIsOwned(s0, ls);
    var s := Exec(s0, ls);
    var f := s.tasks[i].pc.leader;
    assert FollowerFits(s, i);
    assert FutureLed(s, s.tasks[i].client, f);
    assert Live(s.tasks[f].pc) ==> OwnsEntry(s, f);
  }

  /** The leader has left: it resolved or failed, or another exception passed through its `finally`. */
  predicate Releases(s: State, l: Label) {
    Enabled(s, l) && (l.ResumeSet? || (l.ResumeFetch? && !s.tasks[l.i].pc.result.Resolved?))
  }

  /**
    A leader's `finally` removes its own entry and no other, on every exit path; no other event
    removes an entry.
   */
  lemma ReleasePopsOwnEntry(s0: State, ls: seq<Label>, l: Label)
    requires Start(s0) && IsRun(s0, ls) && Enabled(Exec(s0, ls), l)
    ensures var s := Exec(s0, ls); var t := Apply(s, l);
            forall c, key | c in s.clients && key in s.clients[c].inFlight ::
              var leader := s.clients[c].inFlight[key];
              if Releases(s, l) && leader == l.i then key !in t.clients[c].inFlight && t.tasks[leader].pc.Done?
              else key in t.clients[c].inFlight && t.clients[c].inFlight[key] == leader
  {
    RunIsOwned(s0, ls);
    var s := Exec(s0, ls);
    var t := Apply(s, l);
    forall c, key | c in s.clients && key in s.clients[c].inFlight
      ensures var leader := s.clients[c].inFlight[key];
              if Releases(s, l) && leader == l.i then key !in t.clients[c].inFlight && t.tasks[leader].pc.Done?
              else key in t.clients[c].inFlight && t.clients[c].inFlight[key] == leader
    {
      assert LiveLeader(s, c, key, s.clients[c].inFlight[key]);
      if Releases(s, l) {
        assert OwnsEntry(s, l.i);
      }
    }
  }

  /** The fetches of a key that are under way, over all clients. */
  ghost function Outstanding(s: State, key: Key): set<TaskId> {
    set i | 0 <= i < |s.tasks| && Live(s.tasks[i].pc) && KeyOfTask(s, i) == key
  }

  lemma {:induction false} InjectionBoundsSize(s: set<TaskId>, clients: set<ClientId>, f: map<TaskId, ClientId>)
    requires s <= f.Keys
    requires forall i | i in s :: f[i] in clients
    requires forall i, j | i in s && j in s && f[i] == f[j] :: i == j
    ensures |s| <= |clients|
  {
    if s != {} {
      var i :| i in s;
      InjectionBoundsSize(s - {i}, clients - {f[i]}, f);
    }
  }

  /** There is at most one fetch under way per key and client. */
  lemma OutstandingBound(s0: State, ls: seq<Label>, key: Key)
    requires Start(s0) && IsRun(s0, ls)
    ensures |Outstanding(Exec(s0, ls), key)| <= |s0.clients|
  {
    RunIsOwned(s0, ls);
    RunKeepsCalls(s0, ls);
    var s := Exec(s0, ls);
    var out := Outstanding(s, key);
    var clientOf := map i | i in out :: s.tasks[i].client;
    forall i, j | i in out && j in out && clientOf[i] == clientOf[j]
      ensures i == j
    {
      assert OwnsEntry(s, i) && OwnsEntry(s, j);
    }
    forall i | i in out
      ensures clientOf[i] in s.clients.Keys
    {
      assert OwnsEntry(s, i);
    }
    InjectionBoundsSize(out, s.clients.Keys, clientOf);
    assert |s0.clients| == |s0.clients.Keys|;
  }

  /**
    A call that joined a fetch ends with exactly its leader's outcome, the list or the exception,
    and the leader read for the follower's own membership when keys are not shared.
   */
  lemma CoalescedAgreement(s0: State, ls: seq<Label>, ids: set<Pair>, i: TaskId)
    requires Start(s0) && IsRun(s0, ls) && i < |s0.tasks|
    requires Separated(ids) && forall j | 0 <= j < |s0.tasks| :: s0.tasks[j].id in ids
    ensures var s := Exec(s0, ls);
            |s.tasks| == |s0.tasks| && (s.tasks[i].pc.Done? && s.tasks[i].pc.source.Joined? ==>
              var f := s.tasks[i].pc.source.leader;
              f < |s.tasks| && s.tasks[f].pc == Done(s.tasks[i].pc.answer, Led) &&
              s.tasks[f].id == s.tasks[i].id && s.tasks[f].client == s.tasks[i].client)
    // a follower never ends with an exception other than HeliosUnreachableError
    ensures var s := Exec(s0, ls);
            s.tasks[i].pc.Done? && s.tasks[i].pc.source.Joined? ==> !s.tasks[i].pc.answer.RaisedOther?
  {
    RunKeepsCalls(s0, ls);
    FollowersNeverCrash(s0, ls, i);
    RunIsOwned(s0, ls);
    var s := Exec(s0, ls);
    assert FollowerFits(s, i);
  }

  lemma {:induction false} FollowersNeverCrash(s0: State, ls: seq<Label>, i: TaskId)
    requires Start(s0) && IsRun(s0, ls) && i < |s0.tasks|
    ensures |Exec(s0, ls).tasks| == |s0.tasks|
    ensures Exec(s0, ls).tasks[i].pc.Done? && Exec(s0, ls).tasks[i].pc.source.Joined? ==>
              !Exec(s0, ls).tasks[i].pc.answer.RaisedOther?
  {
    if ls != [] {
      FollowersNeverCrash(s0, Front(ls), i);
      StepKeepsCalls(Exec(s0, Front(ls)), Last(ls));
    }
  }
}
