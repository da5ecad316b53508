/**
  What it means for the protocol that two memberships share a joined key: justified grants hold for
  a set of memberships exactly when no two of them do.
 */
module SharedKeys {
  import opened Prelude
  import opened Keys
  import opened Helios
  import opened Client
  import opened Protocol
  import opened Grants

  /** One call for `id`, by the only client. */
  function OneCall(id: Pair, pc: Pc): State {
    State(map[], map[], map[0 := ClientState(map[], map[], true)], [Task(0, id, pc)])
  }

  /** The same after `p` was given the permissions and they were written through. */
  function OneCallAfterWrite(p: Pair, perms: Perms, id: Pair, pc: Pc): State {
    OneCall(id, pc).(
      rows := map[p := RawRow([NotAMember, Active(Some("VIEWER"), perms)], 1)], cache := map[KeyOf(p) := perms])
  }

  lemma GiveAndWrite(p: Pair, perms: Perms, q: Pair)
    ensures var give, write := ChangeRole(p, Active(Some("VIEWER"), perms)), WriteThrough(p, perms, Some(1));
            IsRun(OneCall(q, Calling), [give, write]) &&
            Exec(OneCall(q, Calling), [give, write]) == OneCallAfterWrite(p, perms, q, Calling)
  {
    var s, role := OneCall(q, Calling), Active(Some("VIEWER"), perms);
    var t := Apply(s, ChangeRole(p, role));
    assert RowOf(t, p).versions == [NotAMember, role] && RowOf(t, p).written == 0;
    var u := Apply(t, WriteThrough(p, perms, Some(1)));
    assert u.rows == map[p := RawRow([NotAMember, role], 1)] && u.cache == map[KeyOf(p) := perms];
    RunOfTwo(s, ChangeRole(p, role), WriteThrough(p, perms, Some(1)));
  }

  lemma GetAndAnswer(p: Pair, perms: Perms, q: Pair)
    requires KeyOf(q) == KeyOf(p)
    ensures var s := OneCallAfterWrite(p, perms, q, Calling);
            IsRun(s, [ServeGet(0, true), ResumeGet(0)]) &&
            Exec(s, [ServeGet(0, true), ResumeGet(0)]) ==
            OneCallAfterWrite(p, perms, q, Done(Granted(perms), FromCache))
  {
    var s := OneCallAfterWrite(p, perms, q, Calling);
    var t := Apply(s, ServeGet(0, true));
    assert t == OneCallAfterWrite(p, perms, q, GotReply(Some(perms)));
    assert Apply(t, ResumeGet(0)) == OneCallAfterWrite(p, perms, q, Done(Granted(perms), FromCache));
    RunOfTwo(s, ServeGet(0, true), ResumeGet(0));
  }

  /**
    Two memberships with one key: a call for the one is answered with the list of the other, written
    through in order, while Helios does not know it as a member.
   */
  lemma SharedKeyAnswersForAnother(p: Pair, q: Pair, perms: Perms) returns (s0: State, ls: seq<Label>)
    requires p != q && KeyOf(q) == KeyOf(p)
    ensures Start(s0) && IsRun(s0, ls) && InPlay({p, q}, s0, ls)
    ensures s0.tasks == [Task(0, q, Calling)] && Exec(s0, ls).tasks == [Task(0, q, Done(Granted(perms), FromCache))]
    ensures Current(Exec(s0, ls), q) == [] && Current(Exec(s0, ls), p) == perms
    ensures forall j, perm | 0 <= j < |ls| :: !Justifies(s0.tasks, ls[j], q, perm)
  {
    s0 := OneCall(q, Calling);
    var change := [ChangeRole(p, Active(Some("VIEWER"), perms)), WriteThrough(p, perms, Some(1))];
    var read := [ServeGet(0, true), ResumeGet(0)];
    GiveAndWrite(p, perms, q);
    GetAndAnswer(p, perms, q);
    RunConcat(s0, change, read);
    ls := change + read;
  }

  /** A True answer in this run has an earlier event for its own membership that contains the permission. */
  ghost predicate GrantJustified(s0: State, ls: seq<Label>, i: TaskId, perm: string) {
    i < |s0.tasks| && exists j | 0 <= j < |ls| :: Justifies(s0.tasks, ls[j], s0.tasks[i].id, perm)
  }

  ghost predicate AlwaysJustified(ids: set<Pair>) {
    forall s0, ls, i, perm | Start(s0) && IsRun(s0, ls) && InPlay(ids, s0, ls) && SaysYes(Exec(s0, ls), i, perm) ::
      GrantJustified(s0, ls, i, perm)
  }

  /** All grants for a set of memberships are justified, in every run, if and only if no two share a key. */
  lemma GrantsJustifiedIffSeparated(ids: set<Pair>)
    ensures AlwaysJustified(ids) <==> Separated(ids)
  {
    if Separated(ids) {
      forall s0, ls, i, perm | Start(s0) && IsRun(s0, ls) && InPlay(ids, s0, ls) && SaysYes(Exec(s0, ls), i, perm)
        ensures GrantJustified(s0, ls, i, perm)
      {
        JustifiedGrants(s0, ids, ls, i, perm);
      }
    } else {
      var p, q :| p in ids && q in ids && KeyOf(p) == KeyOf(q) && p != q;
      var s0, ls := SharedKeyAnswersForAnother(p, q, ["p"]);
      assert SaysYes(Exec(s0, ls), 0, "p") && !GrantJustified(s0, ls, 0, "p");
    }
  }

  /** For one membership: its grants can be spoilt by some other one exactly if it has a colon in an id. */
  lemma JustifiedWithAnyOtherIffGood(p: Pair)
    ensures (forall q: Pair :: AlwaysJustified({p, q})) <==> Good(p)
  {
    KeyIsOwnIffGood(p);
    forall q: Pair
      ensures AlwaysJustified({p, q}) <==> KeyOf(q) != KeyOf(p) || q == p
    {
      GrantsJustifiedIffSeparated({p, q});
      assert p in {p, q} && q in {p, q};
    }
  }
}
