/**
  The table generator, and what its tables promise for a contract the validator accepted. The
  generated Python source is kept at table level: the lines of a dictionary literal, in order, and
  the dictionary Python builds from them, in which a later line replaces an earlier one.
 */
module Codegen {
  import opened Prelude
  import opened Contract

  datatype Tables = Tables(
    self: seq<string>, platform: seq<string>, project: seq<string>, dual: seq<string>,
    permScope: map<string, Scope>,
    rolePermissions: map<string, seq<string>>)

  /** The names listed with a scope, in the order of the document. */
  function Bucket(entries: seq<PermEntry>, scope: Scope): seq<string> {
    if entries == [] then []
    else
      Bucket(Front(entries), scope) +
      if Last(entries).Named? && ScopeOf(Last(entries).scope) == Some(scope) then [Last(entries).name] else []
  }

  /** Python's dictionary display. */
  function LoadDict<V>(lines: seq<(string, V)>): map<string, V> {
    if lines == [] then map[] else LoadDict(Front(lines))[Last(lines).0 := Last(lines).1]
  }

  function Tagged(names: seq<string>, scope: Scope): seq<(string, Scope)> {
    seq(|names|, i requires 0 <= i < |names| => (names[i], scope))
  }

  /** The lines of `PERM_SCOPE`: bucket after bucket. */
  function ScopeLines(entries: seq<PermEntry>): seq<(string, Scope)> {
    Tagged(Bucket(entries, SelfScope), SelfScope) + Tagged(Bucket(entries, Platform), Platform) +
    Tagged(Bucket(entries, Project), Project) + Tagged(Bucket(entries, Dual), Dual)
  }

  function RoleLines(defs: seq<RoleDef>): seq<(string, seq<string>)> {
    seq(|defs|, i requires 0 <= i < |defs| => (defs[i].role, RolePerms(defs[i])))
  }

  function TablesOf(c: Contract): Tables
    requires c.rolePermissions.Some?
  {
    var entries := EntriesOf(c);
    Tables(
      Bucket(entries, SelfScope), Bucket(entries, Platform), Bucket(entries, Project), Bucket(entries, Dual),
      LoadDict(ScopeLines(entries)), LoadDict(RoleLines(c.rolePermissions.value)))
  }

  /** The loops that push onto the four arrays, on the entries of an accepted contract. */
  method FillBuckets(entries: seq<PermEntry>)
    returns (self: seq<string>, platform: seq<string>, project: seq<string>, dual: seq<string>)
    ensures self == Bucket(entries, SelfScope) && platform == Bucket(entries, Platform)
    ensures project == Bucket(entries, Project) && dual == Bucket(entries, Dual)
  {
    self, platform, project, dual := [], [], [], [];
    for i := 0 to |entries|
      invariant self == Bucket(entries[..i], SelfScope) && platform == Bucket(entries[..i], Platform)
      invariant project == Bucket(entries[..i], Project) && dual == Bucket(entries[..i], Dual)
    {
      var e := entries[i];
      assert Front(entries[..i + 1]) == entries[..i] && Last(entries[..i + 1]) == e;
      if e.Named? {
        match ScopeOf(e.scope) {
          case Some(SelfScope) => self := self + [e.name];
          case Some(Platform) => platform := platform + [e.name];
          case Some(Project) => project := project + [e.name];
          case Some(Dual) => dual := dual + [e.name];
          case None =>
        }
      }
    }
    assert entries[..|entries|] == entries;
  }

  /** The loop that writes the lines of one bucket. */
  method PushLines(lines: seq<(string, Scope)>, names: seq<string>, scope: Scope) returns (r: seq<(string, Scope)>)
    ensures r == lines + Tagged(names, scope)
  {
    r := lines;
    for i := 0 to |names|
      invariant r == lines + Tagged(names, scope)[..i]
    {
      r := r + [(names[i], scope)];
    }
  }

  /** The whole generator, down to the tables the generated module holds. */
  method Generate(c: Contract) returns (r: Option<Tables>)
    requires Accepted(c)
    // the generator stops with a TypeError at a role without a permission list
    ensures r.Some? <==> forall def | def in c.rolePermissions.value :: def.permissions.Some?
    ensures r.Some? ==> r.value == TablesOf(c)
  {
    var self, platform, project, dual := FillBuckets(EntriesOf(c));
    var lines: seq<(string, Scope)> := [];
    lines := PushLines(lines, self, SelfScope);
    lines := PushLines(lines, platform, Platform);
    lines := PushLines(lines, project, Project);
    lines := PushLines(lines, dual, Dual);
    assert lines == ScopeLines(EntriesOf(c));
    var defs := c.rolePermissions.value;
    var roleLines: seq<(string, seq<string>)> := [];
    for i := 0 to |defs|
      invariant forall def | def in defs[..i] :: def.permissions.Some?
      invariant roleLines == RoleLines(defs)[..i]
    {
      assert defs[i] in defs;
      if defs[i].permissions.None? {
        return None;
      }
      roleLines := roleLines + [(defs[i].role, defs[i].permissions.value)];
      assert defs[..i + 1] == defs[..i] + [defs[i]];
    }
    assert defs[..|defs|] == defs && roleLines == RoleLines(defs);
    return Some(Tables(self, platform, project, dual, LoadDict(lines), LoadDict(roleLines)));
  }

  // The lookups of the generated module

  function RoleHasPermission(t: Tables, role: string, perm: string): Option<bool> {
    if role in t.rolePermissions then Some(perm in t.rolePermissions[role]) else None
  }

  predicate IsSelfScope(t: Tables, perm: string) {
    perm in t.permScope && t.permScope[perm] == SelfScope
  }

  predicate IsPlatformGrantable(t: Tables, perm: string) {
    perm in t.permScope && (t.permScope[perm] == Platform || t.permScope[perm] == Dual)
  }

  predicate IsTenantGrantable(t: Tables, perm: string) {
    perm in t.permScope ==> t.permScope[perm] == Project || t.permScope[perm] == Dual
  }

  predicate IsListed(entries: seq<PermEntry>, name: string, scope: Scope) {
    exists i | 0 <= i < |entries| :: Lists(entries[i], name, scope)
  }

  ghost predicate AllOk(entries: seq<PermEntry>) {
    forall i | 0 <= i < |entries| :: EntryOk(entries[i])
  }

  function Names(entries: seq<PermEntry>): seq<string> {
    if entries == [] then []
    else Names(Front(entries)) + if Last(entries).Named? then [Last(entries).name] else []
  }

  /** The four buckets together are a permutation of the listed permissions. */
  lemma {:induction false} BucketsArePermutation(entries: seq<PermEntry>)
    requires AllOk(entries)
    ensures multiset(Bucket(entries, SelfScope)) + multiset(Bucket(entries, Platform)) +
            multiset(Bucket(entries, Project)) + multiset(Bucket(entries, Dual)) == multiset(Names(entries))
  {
    if entries != [] {
      BucketsArePermutation(Front(entries));
      assert EntryOk(Last(entries));
    }
  }

  /** A bucket holds exactly the names listed with its scope. */
  lemma {:induction false} BucketHolds(entries: seq<PermEntry>, scope: Scope, name: string)
    ensures name in Bucket(entries, scope) <==> IsListed(entries, name, scope)
  {
    if entries != [] {
      BucketHolds(Front(entries), scope, name);
      var n := |entries| - 1;
      assert forall i | 0 <= i < n :: Front(entries)[i] == entries[i];
      assert Last(entries) == entries[n];
      if IsListed(Front(entries), name, scope) {
        var i :| 0 <= i < n && Lists(Front(entries)[i], name, scope);
        assert Lists(entries[i], name, scope);
      }
      if Lists(entries[n], name, scope) {
        assert IsListed(entries, name, scope);
      }
    }
  }

  /** Loading a block of tagged lines on top of others replaces exactly the names of the block. */
  lemma {:induction false} LoadTagged(lines: seq<(string, Scope)>, names: seq<string>, scope: Scope, name: string)
    ensures var before, after := LoadDict(lines), LoadDict(lines + Tagged(names, scope));
            if name in names then name in after && after[name] == scope
            else (name in after <==> name in before) && (name in before ==> after[name] == before[name])
    decreases |names|
  {
    var all := lines + Tagged(names, scope);
    if names == [] {
      assert all == lines;
    } else {
      LoadTagged(lines, Front(names), scope, name);
      assert Front(all) == lines + Tagged(Front(names), scope);
      assert Last(all) == (Last(names), scope);
      assert names == Front(names) + [Last(names)];
    }
  }

  /** The scope `PERM_SCOPE` gives a name: of all scopes it is listed with, the one of the last bucket. */
  function HighestScope(entries: seq<PermEntry>, name: string): Option<Scope> {
    if IsListed(entries, name, Dual) then Some(Dual)
    else if IsListed(entries, name, Project) then Some(Project)
    else if IsListed(entries, name, Platform) then Some(Platform)
    else if IsListed(entries, name, SelfScope) then Some(SelfScope)
    else None
  }

  function Lookup<V>(m: map<string, V>, name: string): Option<V> {
    if name in m then Some(m[name]) else None
  }

  lemma PermScopeIsHighest(entries: seq<PermEntry>, name: string)
    ensures Lookup(LoadDict(ScopeLines(entries)), name) == HighestScope(entries, name)
  {
    var self, platform := Bucket(entries, SelfScope), Bucket(entries, Platform);
    var project, dual := Bucket(entries, Project), Bucket(entries, Dual);
    var one := Tagged(self, SelfScope);
    var two := one + Tagged(platform, Platform);
    var three := two + Tagged(project, Project);
    LoadTagged([], self, SelfScope, name);
    assert [] + one == one;
    LoadTagged(one, platform, Platform, name);
    LoadTagged(two, project, Project, name);
    LoadTagged(three, dual, Dual, name);
    BucketHolds(entries, SelfScope, name);
    BucketHolds(entries, Platform, name);
    BucketHolds(entries, Project, name);
    BucketHolds(entries, Dual, name);
  }

  lemma AcceptedEntriesAreOk(c: Contract)
    requires Accepted(c)
    ensures AllOk(EntriesOf(c))
  {
    forall i | 0 <= i < |EntriesOf(c)|
      ensures EntryOk(EntriesOf(c)[i])
    {
      assert EntriesOf(c)[i] in EntriesOf(c);
    }
  }

  /** In an accepted contract the suffix of a listed name decides whether its scope is `self`. */
  lemma SuffixDecidesSelf(entries: seq<PermEntry>, name: string)
    requires AllOk(entries) && HighestScope(entries, name).Some?
    ensures HighestScope(entries, name) == Some(SelfScope) <==> EndsWith(name, SELF_SUFFIX)
  {
    var scope := HighestScope(entries, name).value;
    assert IsListed(entries, name, scope);
    var i :| 0 <= i < |entries| && Lists(entries[i], name, scope);
    assert EntryOk(entries[i]);
  }

  /** The last scope listed for a name is one it is listed with. */
  lemma FlatScopeIsListed(entries: seq<PermEntry>, name: string)
    requires AllOk(entries)
    ensures name in Flat(entries) <==> HighestScope(entries, name).Some?
    ensures name in Flat(entries) ==> IsListed(entries, name, Flat(entries)[name])
  {
    if name in Flat(entries) {
      FlatIsLastWins(entries, name, Flat(entries)[name]);
    } else if HighestScope(entries, name).Some? {
      ListedIsInFlat(entries, name, HighestScope(entries, name).value);
    }
  }

  lemma {:induction false} ListedIsInFlat(entries: seq<PermEntry>, name: string, scope: Scope)
    requires AllOk(entries) && IsListed(entries, name, scope)
    ensures name in Flat(entries)
    decreases |entries|
  {
    var i :| 0 <= i < |entries| && Lists(entries[i], name, scope);
    assert EntryOk(Last(entries));
    if i < |entries| - 1 {
      assert Lists(Front(entries)[i], name, scope);
      ListedIsInFlat(Front(entries), name, scope);
    }
  }

  /** `perm` is in some role of the contract. */
  ghost predicate InSomeRole(c: Contract, perm: string) {
    c.rolePermissions.Some? && exists def | def in c.rolePermissions.value :: perm in RolePerms(def)
  }

  lemma RolePermsAreOk(c: Contract, perm: string)
    requires Accepted(c) && InSomeRole(c, perm)
    ensures RolePermOk(Flat(EntriesOf(c)), perm)
  {
    var def :| def in c.rolePermissions.value && perm in RolePerms(def);
    assert RoleOk(Flat(EntriesOf(c)), def);
  }

  /** No role of an accepted contract holds a permission the generated tables call `self`. */
  lemma RolesHoldNoSelfPermission(c: Contract, perm: string)
    requires Accepted(c) && InSomeRole(c, perm)
    ensures perm in TablesOf(c).permScope && !IsSelfScope(TablesOf(c), perm)
  {
    var entries := EntriesOf(c);
    AcceptedEntriesAreOk(c);
    RolePermsAreOk(c, perm);
    FlatScopeIsListed(entries, perm);
    PermScopeIsHighest(entries, perm);
    SuffixDecidesSelf(entries, perm);
    var i :| 0 <= i < |entries| && Lists(entries[i], perm, Flat(entries)[perm]);
    assert EntryOk(entries[i]);
  }

  /**
    Which role permissions the generated tables call platform-grantable, exactly: all but those the
    contract also lists with scope `project` and never with `platform/project`.
   */
  lemma GrantableRolePermissions(c: Contract, perm: string)
    requires Accepted(c) && InSomeRole(c, perm)
    ensures IsPlatformGrantable(TablesOf(c), perm) <==>
            IsListed(EntriesOf(c), perm, Dual) || !IsListed(EntriesOf(c), perm, Project)
  {
    RolesHoldNoSelfPermission(c, perm);
    PermScopeIsHighest(EntriesOf(c), perm);
  }

  /** No permission name is listed twice with different scopes. */
  ghost predicate ScopesUnique(entries: seq<PermEntry>) {
    forall name, s, t | IsListed(entries, name, s) && IsListed(entries, name, t) :: s == t
  }

  /** The scope the validator decided by is also the one of the last bucket. */
  predicate LastIsHighest(entries: seq<PermEntry>, name: string) {
    Lookup(Flat(entries), name) == HighestScope(entries, name)
  }

  /**
    Validator and generator look up the same scope for every name if and only if the last scope
    listed for each name is also the one of its last bucket.
   */
  lemma TablesAgreeExactly(c: Contract)
    requires Accepted(c)
    ensures TablesOf(c).permScope == Flat(EntriesOf(c)) <==> forall name :: LastIsHighest(EntriesOf(c), name)
  {
    var generated, flat := TablesOf(c).permScope, Flat(EntriesOf(c));
    forall name
      ensures LastIsHighest(EntriesOf(c), name) <==> Lookup(generated, name) == Lookup(flat, name)
    {
      PermScopeIsHighest(EntriesOf(c), name);
    }
    if forall name :: LastIsHighest(EntriesOf(c), name) {
      forall name
        ensures Lookup(generated, name) == Lookup(flat, name)
      {
        assert LastIsHighest(EntriesOf(c), name);
      }
      SameLookups(generated, flat);
    }
  }

  lemma SameLookups(a: map<string, Scope>, b: map<string, Scope>)
    requires forall name :: Lookup(a, name) == Lookup(b, name)
    ensures a == b
  {
    assert forall name :: Lookup(a, name) == Lookup(b, name) ==> (name in a <==> name in b);
    forall name | name in a
      ensures a[name] == b[name]
    {
      assert Lookup(a, name) == Lookup(b, name);
    }
  }

  /**
    With scopes listed uniquely the generated tables respect the validator: the buckets are
    disjoint, `PERM_SCOPE` is the validator's dictionary and gives every name the scope the contract
    lists, and every role permission is platform-grantable.
   */
  lemma UniqueScopesGiveFaithfulTables(c: Contract)
    requires Accepted(c) && ScopesUnique(EntriesOf(c))
    ensures TablesOf(c).permScope == Flat(EntriesOf(c))
    ensures forall name, scope | IsListed(EntriesOf(c), name, scope) ::
              Lookup(TablesOf(c).permScope, name) == Some(scope)
    ensures forall s, t, name | s != t :: !(name in Bucket(EntriesOf(c), s) && name in Bucket(EntriesOf(c), t))
    ensures forall perm | InSomeRole(c, perm) :: IsPlatformGrantable(TablesOf(c), perm)
  {
    var entries := EntriesOf(c);
    AcceptedEntriesAreOk(c);
    forall name
      ensures LastIsHighest(entries, name)
      ensures Lookup(TablesOf(c).permScope, name) == HighestScope(entries, name)
    {
      FlatScopeIsListed(entries, name);
      PermScopeIsHighest(entries, name);
    }
    TablesAgreeExactly(c);
    forall s, t, name | s != t
      ensures !(name in Bucket(entries, s) && name in Bucket(entries, t))
    {
      BucketHolds(entries, s, name);
      BucketHolds(entries, t, name);
    }
    forall perm | InSomeRole(c, perm)
      ensures IsPlatformGrantable(TablesOf(c), perm)
    {
      RolePermsAreOk(c, perm);
    }
  }

  /** One name listed first with scope `project` and later with scope `platform`. */
  function TwiceEntries(perm: string): seq<PermEntry> {
    [Named(perm, Some("project")), Named(perm, Some("platform")), Named(SWITCH, Some("self"))]
  }

  function Twice(perm: string): Contract {
    Contract(
      Some("1"), Some(["svc"]), Some([OWNER]), Some([("svc", Entries(TwiceEntries(perm)))]),
      Some([RoleDef(OWNER, Some([perm]))]))
  }

  lemma TwiceScopes()
    ensures ScopeOf(Some("project")) == Some(Project) && ScopeOf(Some("platform")) == Some(Platform)
    ensures ScopeOf(Some("self")) == Some(SelfScope)
  {
  }

  lemma SwitchEndsWithSelf()
    ensures EndsWith(SWITCH, SELF_SUFFIX)
  {
    assert SWITCH[|SWITCH| - 5..] == SELF_SUFFIX;
  }

  lemma TwiceIsChecked(perm: string)
    requires !EndsWith(perm, SELF_SUFFIX)
    ensures EntriesOf(Twice(perm)) == TwiceEntries(perm) && AllOk(TwiceEntries(perm))
  {
    TwiceScopes();
    SwitchEndsWithSelf();
    var services := Twice(perm).permissions.value;
    assert AllEntries(Front(services)) == [];
    assert AllEntries(services) == [] + TwiceEntries(perm);
  }

  lemma TwiceFlat(perm: string)
    requires !EndsWith(perm, SELF_SUFFIX)
    ensures Flat(TwiceEntries(perm)) == map[perm := Platform, SWITCH := SelfScope]
  {
    TwiceScopes();
    SwitchEndsWithSelf();
    var a, b, d := Named(perm, Some("project")), Named(perm, Some("platform")), Named(SWITCH, Some("self"));
    FlatOfNext([], a);
    FlatOfNext([a], b);
    FlatOfNext([a, b], d);
    assert [] + [a] == [a] && [a] + [b] == [a, b] && [a, b] + [d] == TwiceEntries(perm);
  }

  lemma TwiceRoleIsOk(perm: string, flat: map<string, Scope>)
    requires flat == map[perm := Platform, SWITCH := SelfScope] && perm != SWITCH
    ensures RoleOk(flat, RoleDef(OWNER, Some([perm]))) && SwitchOk(flat)
  {
  }

  /** The rules, for a contract with one service and one role. */
  lemma SmallContractIsAccepted(c: Contract, service: string, entries: seq<PermEntry>, def: RoleDef)
    requires Complete(c) && c.permissions.value == [(service, Entries(entries))] && c.rolePermissions.value == [def]
    requires EntriesOf(c) == entries && AllOk(entries)
    requires RoleOk(Flat(entries), def) && SwitchOk(Flat(entries))
    ensures Accepted(c)
  {
    forall e | e in entries
      ensures EntryOk(e)
    {
      var i :| 0 <= i < |entries| && entries[i] == e;
    }
  }

  lemma TwiceIsAccepted(perm: string)
    requires !EndsWith(perm, SELF_SUFFIX)
    ensures Accepted(Twice(perm)) && InSomeRole(Twice(perm), perm)
  {
    var def := RoleDef(OWNER, Some([perm]));
    TwiceIsChecked(perm);
    TwiceFlat(perm);
    SwitchEndsWithSelf();
    TwiceRoleIsOk(perm, Flat(TwiceEntries(perm)));
    SmallContractIsAccepted(Twice(perm), "svc", TwiceEntries(perm), def);
    assert def in Twice(perm).rolePermissions.value && perm in RolePerms(def);
  }

  lemma TwiceIsListed(perm: string)
    ensures IsListed(TwiceEntries(perm), perm, Project) && !IsListed(TwiceEntries(perm), perm, Dual)
  {
    TwiceScopes();
    assert Lists(TwiceEntries(perm)[0], perm, Project);
  }

  /**
    The validator accepts such a contract, whatever the name, and then the tables do not respect it:
    a permission it let into a role is not platform-grantable.
   */
  lemma AcceptedContractBreaksTables(perm: string)
    requires !EndsWith(perm, SELF_SUFFIX)
    ensures Accepted(Twice(perm)) && InSomeRole(Twice(perm), perm)
    ensures !IsPlatformGrantable(TablesOf(Twice(perm)), perm)
  {
    TwiceIsAccepted(perm);
    TwiceIsChecked(perm);
    TwiceIsListed(perm);
    GrantableRolePermissions(Twice(perm), perm);
  }

  /** A loaded role table maps a role to the permissions of one of its definitions. */
  lemma {:induction false} LoadedRoleIsDefined(defs: seq<RoleDef>, role: string)
    requires role in LoadDict(RoleLines(defs))
    ensures exists def | def in defs :: def.role == role && RolePerms(def) == LoadDict(RoleLines(defs))[role]
    decreases |defs|
  {
    var n := |defs| - 1;
    assert Front(RoleLines(defs)) == RoleLines(Front(defs));
    if defs[n].role == role {
      assert defs[n] in defs;
    } else {
      LoadedRoleIsDefined(Front(defs), role);
      var def :| def in Front(defs) && def.role == role && RolePerms(def) == LoadDict(RoleLines(Front(defs)))[role];
      assert def in defs;
    }
  }

  /**
    In the tables of an accepted contract only OWNER holds the transfer permission, and everything a
    role holds is a known permission that is not `self`.
   */
  lemma OnlyOwnerTransfers(c: Contract, role: string, perm: string)
    requires Accepted(c) && RoleHasPermission(TablesOf(c), role, perm) == Some(true)
    ensures perm == TRANSFER ==> role == OWNER
    ensures perm in TablesOf(c).permScope && !IsSelfScope(TablesOf(c), perm)
  {
    LoadedRoleIsDefined(c.rolePermissions.value, role);
    var def :| def in c.rolePermissions.value && def.role == role &&
               RolePerms(def) == TablesOf(c).rolePermissions[role];
    assert RoleOk(Flat(EntriesOf(c)), def);
    RolesHoldNoSelfPermission(c, perm);
  }

  /**
    The generated predicates: a known permission is either `self` or grantable by at least one path,
    by both exactly when its scope is dual; an unknown one is grantable by the tenant path only.
   */
  lemma GrantPathsPartition(t: Tables, perm: string)
    ensures perm in t.permScope ==>
              (IsSelfScope(t, perm) <==> !IsPlatformGrantable(t, perm) && !IsTenantGrantable(t, perm))
    ensures perm in t.permScope ==>
              (IsPlatformGrantable(t, perm) && IsTenantGrantable(t, perm) <==> t.permScope[perm] == Dual)
    ensures perm !in t.permScope ==>
              IsTenantGrantable(t, perm) && !IsPlatformGrantable(t, perm) && !IsSelfScope(t, perm)
  {
  }

  /**
    The same predicates in terms of the contract: for an accepted one they are decided by the scopes
    a name is listed with, and by its suffix.
   */
  lemma GrantPathsByListing(c: Contract, perm: string)
    requires Accepted(c)
    ensures var entries, t := EntriesOf(c), TablesOf(c);
            var listed := HighestScope(entries, perm).Some?;
            && (IsSelfScope(t, perm) <==> listed && EndsWith(perm, SELF_SUFFIX))
            && (IsPlatformGrantable(t, perm) <==>
                IsListed(entries, perm, Dual) ||
                (IsListed(entries, perm, Platform) && !IsListed(entries, perm, Project)))
            && (IsTenantGrantable(t, perm) <==>
                !listed || IsListed(entries, perm, Dual) || IsListed(entries, perm, Project))
  {
    AcceptedEntriesAreOk(c);
    PermScopeIsHighest(EntriesOf(c), perm);
    if HighestScope(EntriesOf(c), perm).Some? {
      SuffixDecidesSelf(EntriesOf(c), perm);
    }
  }

  // The family of contracts in which a role holds a permission of both paths

  function DualEntries(perm: string): seq<PermEntry> {
    [Named(perm, Some("platform/project")), Named(SWITCH, Some("self"))]
  }

  function DualRole(role: string, perm: string): Contract {
    Contract(
      Some("1"), Some(["svc"]), Some([role]), Some([("svc", Entries(DualEntries(perm)))]),
      Some([RoleDef(role, Some([perm]))]))
  }

  lemma DualIsChecked(role: string, perm: string)
    requires !EndsWith(perm, SELF_SUFFIX)
    ensures EntriesOf(DualRole(role, perm)) == DualEntries(perm) && AllOk(DualEntries(perm))
  {
    SwitchEndsWithSelf();
    var services := DualRole(role, perm).permissions.value;
    assert AllEntries(Front(services)) == [];
    assert AllEntries(services) == [] + DualEntries(perm);
  }

  lemma DualFlat(perm: string)
    requires !EndsWith(perm, SELF_SUFFIX)
    ensures Flat(DualEntries(perm)) == map[perm := Dual, SWITCH := SelfScope]
  {
    SwitchEndsWithSelf();
    var a, b := Named(perm, Some("platform/project")), Named(SWITCH, Some("self"));
    FlatOfNext([], a);
    FlatOfNext([a], b);
    assert [] + [a] == [a] && [a] + [b] == DualEntries(perm);
  }

  /** The validator accepts a role with a permission of scope `platform/project`, grantable by both paths. */
  lemma RolesMayHoldDual(role: string, perm: string)
    requires !EndsWith(perm, SELF_SUFFIX) && (role == OWNER || perm != TRANSFER)
    ensures Accepted(DualRole(role, perm))
    ensures var t := TablesOf(DualRole(role, perm));
            RoleHasPermission(t, role, perm) == Some(true) && IsPlatformGrantable(t, perm) && IsTenantGrantable(t, perm)
  {
    var c, def := DualRole(role, perm), RoleDef(role, Some([perm]));
    DualIsChecked(role, perm);
    DualFlat(perm);
    SwitchEndsWithSelf();
    assert RoleOk(Flat(DualEntries(perm)), def);
    SmallContractIsAccepted(c, "svc", DualEntries(perm), def);
    GrantPathsByListing(c, perm);
    assert Lists(DualEntries(perm)[0], perm, Dual);
    RoleTableIsExact(c, role, perm);
  }

  // The whole tables, in terms of the contract

  predicate IsLastDefinition(defs: seq<RoleDef>, i: nat, role: string) {
    i < |defs| && defs[i].role == role && forall j | i < j < |defs| :: defs[j].role != role
  }

  predicate IsDefined(defs: seq<RoleDef>, role: string) {
    exists i | 0 <= i < |defs| :: defs[i].role == role
  }

  lemma RoleLinesNext(defs: seq<RoleDef>)
    requires defs != []
    ensures LoadDict(RoleLines(defs)) == LoadDict(RoleLines(Front(defs)))[Last(defs).role := RolePerms(Last(defs))]
  {
    assert Front(RoleLines(defs)) == RoleLines(Front(defs));
  }

  lemma {:induction false} RoleLinesLookUp(defs: seq<RoleDef>, role: string)
    ensures role in LoadDict(RoleLines(defs)) <==> IsDefined(defs, role)
    ensures forall i: nat | IsLastDefinition(defs, i, role) ::
              role in LoadDict(RoleLines(defs)) && LoadDict(RoleLines(defs))[role] == RolePerms(defs[i])
    decreases |defs|
  {
    if defs != [] {
      var n := |defs| - 1;
      RoleLinesLookUp(Front(defs), role);
      RoleLinesNext(defs);
      assert forall i | 0 <= i < n :: Front(defs)[i] == defs[i];
      if defs[n].role == role {
        assert forall i: nat | IsLastDefinition(defs, i, role) :: i == n;
      } else {
        assert forall i: nat :: IsLastDefinition(defs, i, role) <==> IsLastDefinition(Front(defs), i, role);
        assert IsDefined(defs, role) <==> IsDefined(Front(defs), role);
      }
    }
  }

  /**
    The generated role table is the contract's, both ways: a lookup fails exactly for the roles that
    are not defined, and otherwise says whether the last definition of the role lists the permission.
   */
  lemma RoleTableIsExact(c: Contract, role: string, perm: string)
    requires c.rolePermissions.Some?
    ensures var defs, r := c.rolePermissions.value, RoleHasPermission(TablesOf(c), role, perm);
            && (r.None? <==> forall i | 0 <= i < |defs| :: defs[i].role != role)
            && (forall i: nat | IsLastDefinition(defs, i, role) ::
                  r == Some(defs[i].permissions.Some? && perm in defs[i].permissions.value))
  {
    RoleLinesLookUp(c.rolePermissions.value, role);
  }

  /** The entries at these indices, in order, are exactly the ones with the scope text, and have these names. */
  ghost predicate AreIndices(idx: seq<nat>, names: seq<string>, entries: seq<PermEntry>, text: string) {
    && |idx| == |names| && (forall k, l | 0 <= k < l < |idx| :: idx[k] < idx[l])
    && (forall k | 0 <= k < |idx| :: idx[k] < |entries| && entries[idx[k]] == Named(names[k], Some(text)))
    && (forall i: nat | i < |entries| && entries[i].Named? && entries[i].scope == Some(text) :: i in idx)
  }

  /** The names listed with the scope text, in document order. */
  ghost predicate ListsInOrder(names: seq<string>, entries: seq<PermEntry>, text: string) {
    exists idx :: AreIndices(idx, names, entries, text)
  }

  lemma {:induction false} BucketIndices(entries: seq<PermEntry>, scope: Scope, text: string) returns (idx: seq<nat>)
    requires forall t :: ScopeOf(t) == Some(scope) <==> t == Some(text)
    ensures AreIndices(idx, Bucket(entries, scope), entries, text)
    decreases |entries|
  {
    if entries == [] {
      idx := [];
    } else {
      var n := |entries| - 1;
      var before := BucketIndices(Front(entries), scope, text);
      var e := entries[n];
      assert forall i: nat | i < n :: Front(entries)[i] == entries[i];
      idx := before + if e.Named? && ScopeOf(e.scope) == Some(scope) then [n] else [];
    }
  }

  lemma ScopeTexts()
    ensures forall t :: ScopeOf(t) == Some(SelfScope) <==> t == Some("self")
    ensures forall t :: ScopeOf(t) == Some(Platform) <==> t == Some("platform")
    ensures forall t :: ScopeOf(t) == Some(Project) <==> t == Some("project")
    ensures forall t :: ScopeOf(t) == Some(Dual) <==> t == Some("platform/project")
  {
  }

  /** Each generated list holds exactly the names listed with its scope text, in the order of the document. */
  lemma TablesListInOrder(c: Contract)
    requires c.rolePermissions.Some?
    ensures ListsInOrder(TablesOf(c).self, EntriesOf(c), "self")
    ensures ListsInOrder(TablesOf(c).platform, EntriesOf(c), "platform")
    ensures ListsInOrder(TablesOf(c).project, EntriesOf(c), "project")
    ensures ListsInOrder(TablesOf(c).dual, EntriesOf(c), "platform/project")
  {
    ScopeTexts();
    var entries := EntriesOf(c);
    var self := BucketIndices(entries, SelfScope, "self");
    var platform := BucketIndices(entries, Platform, "platform");
    var project := BucketIndices(entries, Project, "project");
    var dual := BucketIndices(entries, Dual, "platform/project");
  }
}
