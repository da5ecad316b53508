/**
  Concrete runs that show where the documentation promises more than the code gives. Each lemma
  exhibits a run of the general protocol from a start state.
 */
module Anomalies {
  import opened Prelude
  import opened Keys
  import opened Helios
  import opened Client
  import opened Protocol
  import opened Ownership
  import opened Liveness
  import opened Coherence
  import opened Grants
  import opened InMemoryProtocol

  const ID := Pair("u", "t")

  /** `n` calls of one client for one membership Helios does not know yet. */
  function Fresh(n: nat): State {
    State(map[], map[], map[0 := ClientState(map[], map[], true)], seq(n, i => Task(0, ID, Calling)))
  }

  /** The events of a call that reads a miss, leads, and has received Helios's answer. */
  lemma LeadAndFetch(s: State, i: TaskId, result: FetchResult) returns (ls: seq<Label>)
    requires IsTask(s, i) && s.tasks[i].pc == GotReply(None) && KeyOfTask(s, i) !in ClientOf(s, i).inFlight
    requires Truthful(s, s.tasks[i].id, 0, result)
    ensures ls == [ResumeGet(i), ServeFetch(i, 0, result)]
    ensures IsRun(s, ls)
    ensures Exec(s, ls) == SetBoth(s, i, (AfterGet(ClientOf(s, i), i, KeyOfTask(s, i), None).0, Fetched(0, result)))
  {
    var t := Apply(s, ResumeGet(i));
    assert t == SetBoth(s, i, (AfterGet(ClientOf(s, i), i, KeyOfTask(s, i), None).0, Fetching));
    assert RowOf(t, s.tasks[i].id) == RowOf(s, s.tasks[i].id);
    RunOfTwo(s, ResumeGet(i), ServeFetch(i, 0, result));
    ls := [ResumeGet(i), ServeFetch(i, 0, result)];
  }

  /** Extends a run by one event. */
  lemma Then(s0: State, ls: seq<Label>, l: Label) returns (more: seq<Label>, t: State)
    requires IsRun(s0, ls) && Enabled(Exec(s0, ls), l)
    ensures more == ls + [l] && IsRun(s0, more) && t == Exec(s0, more) == Apply(Exec(s0, ls), l)
  {
    RunExtends(s0, ls, l);
    more, t := ls + [l], Apply(Exec(s0, ls), l);
  }

  /** The client while call 0 leads the fetch of the membership. */
  const LEADING := ClientState(map[KeyOf(ID) := 0], map[0 := Pending], true)

  /** One call has read a miss and fetched version 0. */
  lemma OneCallFetched() returns (s0: State, ls: seq<Label>)
    ensures s0 == Fresh(1) && Start(s0) && IsRun(s0, ls)
    ensures Exec(s0, ls) == State(map[], map[], map[0 := LEADING], [Task(0, ID, Fetched(0, Resolved(NotAMember)))])
    ensures forall l | l in ls :: IsTaskLabel(l)
  {
    s0 := Fresh(1);
    var t;
    ls, t := Then(s0, [], ServeGet(0, true));
    assert t.tasks == [Task(0, ID, GotReply(None))];
    var lead := LeadAndFetch(t, 0, Resolved(NotAMember));
    RunConcat(s0, ls, lead);
    ls := ls + lead;
    assert Exec(s0, ls).tasks == [Task(0, ID, Fetched(0, Resolved(NotAMember)))];
  }

  /** One call has fetched version 0; the role then changed and the new version was written through. */
  lemma FetchThenWriteThrough() returns (s0: State, ls: seq<Label>)
    ensures Start(s0) && |s0.tasks| == 1 && s0.tasks[0].id == ID && IsRun(s0, ls)
    ensures var s := Exec(s0, ls);
            && s.tasks == [Task(0, ID, Fetched(0, Resolved(NotAMember)))] && s.clients == map[0 := LEADING]
            && s.cache == map[KeyOf(ID) := ["p"]] && !WritePending(s, ID) && Current(s, ID) == ["p"]
    ensures forall l | l in ls :: !l.Remove? && (l.WriteThrough? ==> l.of.Some?)
  {
    s0, ls := OneCallFetched();
    var t;
    var change := Active(Some("VIEWER"), ["p"]);
    ls, t := Then(s0, ls, ChangeRole(ID, change));
    assert RowOf(t, ID) == RawRow([NotAMember, change], 0);
    ls, t := Then(s0, ls, WriteThrough(ID, ["p"], Some(1)));
    assert RowOf(t, ID) == RawRow([NotAMember, change], 1);
  }

  /**
    `SET ... NX` does not keep a slow populate from bringing back an old value after an
    invalidation: the key is absent then. With in-order write-throughs only and none due, the cache
    ends up with a value that is not Helios's current one.
   */
  lemma NxDoesNotPreventStalePopulate()
    ensures exists s0, ls ::
              Start(s0) && IsRun(s0, ls) && (forall l: Label | l in ls && l.WriteThrough? :: l.of.Some?) &&
              !Coherent(Exec(s0, ls), ID)
  {
    var s0, ls := FetchThenWriteThrough();
    var t;
    ls, t := Then(s0, ls, Remove({KeyOf(ID)}));
    ls, t := Then(s0, ls, ResumeFetch(0));
    ls, t := Then(s0, ls, ServeSet(0, true));
    assert t.cache[KeyOf(ID)] == [];
    assert !Coherent(Exec(s0, ls), ID);
  }

  /**
    A leader answers with what it fetched even when its NX populate lost to a write-through: its
    answer can be older than the cache at the moment it returns.
   */
  lemma LeaderCanAnswerOlderThanCache()
    ensures exists s0, ls ::
              Start(s0) && IsRun(s0, ls) && (forall l: Label | l in ls :: !l.Remove?) &&
              |Exec(s0, ls).tasks| == 1 && Exec(s0, ls).tasks[0].pc == Done(Granted([]), Led) &&
              CacheLookup(Exec(s0, ls), KeyOf(ID)) == Some(["p"]) && Current(Exec(s0, ls), ID) == ["p"]
  {
    var s0, ls := FetchThenWriteThrough();
    var t := Exec(s0, ls);
    var finish := [ResumeFetch(0), ServeSet(0, true), ResumeSet(0)];
    FinishRefines(t, 0);
    assert Expand(t, Finish(0)) == finish;
    RunConcat(s0, ls, finish);
    assert Exec(s0, ls + finish) == MemApply(t, Finish(0));
    assert forall l: Label | l in ls + finish :: !l.Remove?;
  }

  const MEMBER := Active(Some("VIEWER"), ["p"])

  /** Two calls of one client for a membership that has a permission. */
  const MEMBER_AND_TWO_CALLS := Fresh(2).(rows := map[ID := RawRow([MEMBER], 0)])

  /** The first call has fetched the membership. */
  lemma MemberFetched() returns (ls: seq<Label>)
    ensures Start(MEMBER_AND_TWO_CALLS) && IsRun(MEMBER_AND_TWO_CALLS, ls)
    ensures Exec(MEMBER_AND_TWO_CALLS, ls) ==
            State(map[ID := RawRow([MEMBER], 0)], map[], map[0 := LEADING],
                  [Task(0, ID, Fetched(0, Resolved(MEMBER))), Task(0, ID, Calling)])
    ensures OrderlyRun(MEMBER_AND_TWO_CALLS, {ID}, ls)
  {
    var s0, t := MEMBER_AND_TWO_CALLS, MEMBER_AND_TWO_CALLS;
    ls, t := Then(s0, [], ServeGet(0, true));
    assert t.tasks == [Task(0, ID, GotReply(None)), Task(0, ID, Calling)];
    var lead := LeadAndFetch(t, 0, Resolved(MEMBER));
    RunConcat(s0, ls, lead);
    ls := ls + lead;
    assert Exec(s0, ls).tasks == [Task(0, ID, Fetched(0, Resolved(MEMBER))), Task(0, ID, Calling)];
    CallStepsAreOrderly(s0, {ID}, ls);
  }

  /** The system once the revocation has been written through, with the two calls at these points. */
  function Revoked(first: Pc, second: Pc): State {
    State(map[ID := RawRow([MEMBER, NotAMember], 1)], map[KeyOf(ID) := []], map[0 := LEADING],
          [Task(0, ID, first), Task(0, ID, second)])
  }

  lemma RevokeAndWrite(s: State)
    requires s == State(map[ID := RawRow([MEMBER], 0)], map[], map[0 := LEADING], s.tasks)
    ensures Enabled(s, ChangeRole(ID, NotAMember))
    ensures var t := Apply(s, ChangeRole(ID, NotAMember));
            Enabled(t, WriteThrough(ID, [], Some(1))) &&
            Apply(t, WriteThrough(ID, [], Some(1))) ==
            State(map[ID := RawRow([MEMBER, NotAMember], 1)], map[KeyOf(ID) := []], map[0 := LEADING], s.tasks)
  {
    var t := Apply(s, ChangeRole(ID, NotAMember));
    assert [MEMBER] + [NotAMember] == [MEMBER, NotAMember];
    assert RowOf(s, ID) == RawRow([MEMBER], 0);
    assert RowOf(t, ID).versions == [MEMBER, NotAMember] && RowOf(t, ID).written == 0;
    var u := Apply(t, WriteThrough(ID, [], Some(1)));
    assert u.rows == map[ID := RawRow([MEMBER, NotAMember], 1)];
    assert u.cache == map[KeyOf(ID) := []];
  }

  /** Then the membership has been revoked, and the revocation written through. */
  lemma RevokedWhileFetched() returns (ls: seq<Label>)
    ensures Start(MEMBER_AND_TWO_CALLS) && IsRun(MEMBER_AND_TWO_CALLS, ls)
    ensures Exec(MEMBER_AND_TWO_CALLS, ls) == Revoked(Fetched(0, Resolved(MEMBER)), Calling)
    ensures OrderlyRun(MEMBER_AND_TWO_CALLS, {ID}, ls)
  {
    var s0 := MEMBER_AND_TWO_CALLS;
    var first := MemberFetched();
    RevokeAndWrite(Exec(s0, first));
    var second, t := Then(s0, first, ChangeRole(ID, NotAMember));
    OrderlyExtends(s0, {ID}, first, ChangeRole(ID, NotAMember));
    ls, t := Then(s0, second, WriteThrough(ID, [], Some(1)));
    OrderlyExtends(s0, {ID}, second, WriteThrough(ID, [], Some(1)));
  }

  /** The second call misses and joins. */
  lemma SecondJoins(fetched: Pc)
    ensures var s := Revoked(fetched, Calling);
            IsRun(s, [ServeGet(1, false), ResumeGet(1)]) &&
            Exec(s, [ServeGet(1, false), ResumeGet(1)]) == Revoked(fetched, Waiting(0))
  {
    var s := Revoked(fetched, Calling);
    var t := Apply(s, ServeGet(1, false));
    assert t == Revoked(fetched, GotReply(None));
    assert Apply(t, ResumeGet(1)) == Revoked(fetched, Waiting(0));
    RunOfTwo(s, ServeGet(1, false), ResumeGet(1));
  }

  /** The first call offers its list to the cache, in vain. */
  lemma FirstPopulates()
    ensures var s := Revoked(Fetched(0, Resolved(MEMBER)), Waiting(0));
            IsRun(s, [ResumeFetch(0), ServeSet(0, true)]) &&
            Exec(s, [ResumeFetch(0), ServeSet(0, true)]) == Revoked(Populated(["p"]), Waiting(0))
  {
    var s := Revoked(Fetched(0, Resolved(MEMBER)), Waiting(0));
    var t := Apply(s, ResumeFetch(0));
    assert t == Revoked(Populating(["p"], 0), Waiting(0));
    assert Apply(t, ServeSet(0, true)) == Revoked(Populated(["p"]), Waiting(0));
    RunOfTwo(s, ResumeFetch(0), ServeSet(0, true));
  }

  /** Both calls answer. */
  lemma BothAnswer()
    ensures var s := Revoked(Populated(["p"]), Waiting(0));
            IsRun(s, [ResumeSet(0), Wake(1)]) &&
            Exec(s, [ResumeSet(0), Wake(1)]).tasks ==
            [Task(0, ID, Done(Granted(["p"]), Led)), Task(0, ID, Done(Granted(["p"]), Joined(0)))]
  {
    var s := Revoked(Populated(["p"]), Waiting(0));
    var t := Apply(s, ResumeSet(0));
    assert t.tasks == [Task(0, ID, Done(Granted(["p"]), Led)), Task(0, ID, Waiting(0))];
    assert t.clients[0].futures[0] == HasResult(["p"]);
    RunOfTwo(s, ResumeSet(0), Wake(1));
  }

  lemma JoinAndEnd() returns (ls: seq<Label>)
    ensures var s := Revoked(Fetched(0, Resolved(MEMBER)), Calling);
            IsRun(s, ls) && SaysYes(Exec(s, ls), 1, "p")
    ensures forall l | l in ls :: IsTaskLabel(l)
  {
    var s := Revoked(Fetched(0, Resolved(MEMBER)), Calling);
    var join, populate, answer :=
      [ServeGet(1, false), ResumeGet(1)], [ResumeFetch(0), ServeSet(0, true)], [ResumeSet(0), Wake(1)];
    SecondJoins(Fetched(0, Resolved(MEMBER)));
    FirstPopulates();
    BothAnswer();
    RunConcat(s, join, populate);
    RunConcat(s, join + populate, answer);
    ls := join + populate + answer;
  }

  lemma RevokedIsWritten(first: Pc, second: Pc)
    ensures var s := Revoked(first, second);
            Current(s, ID) == [] && !WritePending(s, ID) && CacheLookup(s, KeyOf(ID)) == Some([])
  {
    assert RowOf(Revoked(first, second), ID).versions == [MEMBER, NotAMember];
  }

  /**
    A call that starts after a revocation was written through can still grant: its GET fails, it
    joins an older fetch, and answers with what that fetch brought. Nothing is removed, the cache
    holds the revoked list all the time, and write-throughs are in order.
   */
  lemma FollowerCanGrantAfterRevocation()
    ensures exists s0, before, after ::
              && Start(s0) && IsRun(s0, before) && IsRun(s0, before + after)
              && OrderlyRun(s0, {ID}, before + after)
              // the revocation has landed, and the call has not started
              && Current(Exec(s0, before), ID) == [] && !WritePending(Exec(s0, before), ID)
              && CacheLookup(Exec(s0, before), KeyOf(ID)) == Some([])
              && |Exec(s0, before).tasks| == 2 && Exec(s0, before).tasks[1] == Task(0, ID, Calling)
              // nothing but the two calls moves from there on, and the call grants
              && (forall l: Label | l in after :: IsTaskLabel(l))
              && SaysYes(Exec(s0, before + after), 1, "p")
  {
    var s0 := MEMBER_AND_TWO_CALLS;
    var before := RevokedWhileFetched();
    var after := JoinAndEnd();
    RunConcat(s0, before, after);
    CallStepsKeepOrderly(s0, {ID}, before, after);
    RevokedIsWritten(Fetched(0, Resolved(MEMBER)), Calling);
  }

  /** The labels contain no removal, no cache failure and no failed fetch. */
  ghost predicate Undisturbed(ls: seq<Label>) {
    forall l | l in ls ::
      && !l.Remove?
      && (l.ServeGet? || l.ServeSet? ==> l.ok)
      && (l.ServeFetch? ==> l.result.Resolved?)
  }

  /** Two calls of one client have both read a miss. */
  lemma TwoCallsMissed() returns (s0: State, ls: seq<Label>)
    ensures s0 == Fresh(2) && Start(s0) && IsRun(s0, ls) && Undisturbed(ls)
    ensures Exec(s0, ls) == Fresh(2).(tasks := [Task(0, ID, GotReply(None)), Task(0, ID, GotReply(None))])
  {
    s0 := Fresh(2);
    var t;
    ls, t := Then(s0, [], ServeGet(0, true));
    assert t.tasks == [Task(0, ID, GotReply(None)), Task(0, ID, Calling)];
    ls, t := Then(s0, ls, ServeGet(1, true));
    assert t.tasks == [Task(0, ID, GotReply(None)), Task(0, ID, GotReply(None))];
  }

  /** Then the first of them has led and received an answer or a failure. */
  lemma TwoCallsMissedOneFetched(result: FetchResult) returns (s0: State, ls: seq<Label>)
    requires result == Resolved(NotAMember) || result == Malformed
    ensures s0 == Fresh(2) && Start(s0) && IsRun(s0, ls) && (result.Resolved? ==> Undisturbed(ls))
    ensures Exec(s0, ls) ==
              State(map[], map[], map[0 := LEADING], [Task(0, ID, Fetched(0, result)), Task(0, ID, GotReply(None))])
  {
    s0, ls := TwoCallsMissed();
    var t := Exec(s0, ls);
    var lead := LeadAndFetch(t, 0, result);
    RunConcat(s0, ls, lead);
    ls := ls + lead;
    assert Exec(s0, ls).tasks == [Task(0, ID, Fetched(0, result)), Task(0, ID, GotReply(None))];
  }

  /** Then it has populated the cache and returned, while the second call still sleeps after its miss. */
  lemma FirstOfTwoReturned() returns (s0: State, ls: seq<Label>)
    ensures s0 == Fresh(2) && Start(s0) && IsRun(s0, ls) && Undisturbed(ls)
    ensures var s := Exec(s0, ls);
            && s.tasks == [Task(0, ID, Done(Granted([]), Led)), Task(0, ID, GotReply(None))]
            && 0 in s.clients && s.clients[0].inFlight == map[] && KeyOf(ID) in s.cache
  {
    s0, ls := TwoCallsMissedOneFetched(Resolved(NotAMember));
    var t := Exec(s0, ls);
    var finish := [ResumeFetch(0), ServeSet(0, true), ResumeSet(0)];
    FinishRefines(t, 0);
    assert Expand(t, Finish(0)) == finish;
    RunConcat(s0, ls, finish);
    ls := ls + finish;
    assert Exec(s0, ls) == MemApply(t, Finish(0));
  }

  /**
    Coalescing does not limit a cold key to one Helios call in total: a call can read a miss, sleep
    through another leader's whole populate, and lead again.
   */
  lemma ColdKeyCanBeFetchedTwice()
    ensures exists s0, ls ::
              Start(s0) && IsRun(s0, ls) && Undisturbed(ls) && |Exec(s0, ls).tasks| == 2 &&
              SameSlot(Exec(s0, ls), 0, 1) && Exec(s0, ls).tasks[0].pc == Done(Granted([]), Led) &&
              Exec(s0, ls).tasks[1].pc == Fetching && KeyOf(ID) in Exec(s0, ls).cache
  {
    var s0, ls := FirstOfTwoReturned();
    var t;
    ls, t := Then(s0, ls, ResumeGet(1));
    assert t.tasks == [Task(0, ID, Done(Granted([]), Led)), Task(0, ID, Fetching)];
    assert Undisturbed(ls) && SameSlot(t, 0, 1);
  }

  /**
    A fetch that ends in an exception other than HeliosUnreachableError releases the key but leaves
    the future pending: its followers are never answered.
   */
  lemma MalformedAnswerStrandsFollower()
    ensures exists s0, ls :: Start(s0) && IsRun(s0, ls) && Stranded(Exec(s0, ls), 1)
  {
    var s0, ls := TwoCallsMissedOneFetched(Malformed);
    var t;
    ls, t := Then(s0, ls, ResumeGet(1));
    assert t.tasks == [Task(0, ID, Fetched(0, Malformed)), Task(0, ID, Waiting(0))];
    ls, t := Then(s0, ls, ResumeFetch(0));
    assert Stranded(Exec(s0, ls), 1);
  }
}
