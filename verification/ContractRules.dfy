/**
  When the validator finishes, in terms of the document alone: positions, names, and the texts of the
  scopes. Nothing of the validator's own dictionary or tests occurs in the rules.
 */
module ContractRules {
  import opened Prelude
  import opened Contract

  type Services = seq<(string, Service)>

  /** There is an entry `k` in the list of service `s`. */
  predicate IsAt(services: Services, s: nat, k: nat) {
    s < |services| && services[s].1.Entries? && k < |services[s].1.entries|
  }

  function At(services: Services, s: nat, k: nat): PermEntry
    requires IsAt(services, s, k)
  {
    services[s].1.entries[k]
  }

  predicate NamesAt(services: Services, s: nat, k: nat, name: string) {
    IsAt(services, s, k) && At(services, s, k).Named? && At(services, s, k).name == name
  }

  /** The entry is the last one of the document for its name. */
  ghost predicate IsLastFor(services: Services, s: nat, k: nat, name: string) {
    NamesAt(services, s, k, name) &&
    forall s': nat, k': nat | NamesAt(services, s', k', name) :: s' < s || (s' == s && k' <= k)
  }

  /** The last entry for the name has the scope text. */
  ghost predicate LastListed(services: Services, name: string, text: string) {
    exists s: nat, k: nat | IsLastFor(services, s, k, name) :: At(services, s, k).scope == Some(text)
  }

  /** A named entry with one of the four scope texts, `self` exactly if the name ends so. */
  predicate EntryIsRight(e: PermEntry) {
    && e.Named?
    && e.scope in {Some("self"), Some("platform"), Some("project"), Some("platform/project")}
    && (e.scope == Some("self") <==> EndsWith(e.name, ":self"))
  }

  ghost predicate EntriesAreRight(services: Services) {
    forall s | 0 <= s < |services| ::
      services[s].1.Entries? &&
      forall k | 0 <= k < |services[s].1.entries| :: EntryIsRight(services[s].1.entries[k])
  }

  /** A role lists the permission. */
  predicate RoleLists(def: RoleDef, perm: string) {
    def.permissions.Some? && perm in def.permissions.value
  }

  /** The rules, as the contract's authors state them. */
  ghost predicate MeetsRules(c: Contract) {
    && c.version.Some? && c.services.Some? && c.roles.Some? && c.permissions.Some? && c.rolePermissions.Some?
    && EntriesAreRight(c.permissions.value)
    // roles hold known permissions of the scopes that platform users can be granted
    && (forall def, perm | def in c.rolePermissions.value && RoleLists(def, perm) ::
          LastListed(c.permissions.value, perm, "platform") ||
          LastListed(c.permissions.value, perm, "platform/project"))
    && (forall def | def in c.rolePermissions.value && RoleLists(def, "helios:tenant:transfer") :: def.role == "OWNER")
    && LastListed(c.permissions.value, "helios:tenant:switch:self", "self")
  }

  function TextOf(scope: Scope): string {
    match scope
    case SelfScope => "self"
    case Platform => "platform"
    case Project => "project"
    case Dual => "platform/project"
  }

  lemma ScopeIsText(t: Option<string>, scope: Scope)
    ensures ScopeOf(t) == Some(scope) <==> t == Some(TextOf(scope))
  {
  }

  lemma RightIsOk(e: PermEntry)
    ensures EntryIsRight(e) <==> EntryOk(e)
  {
    if e.Named? {
      ScopeIsText(e.scope, SelfScope);
      ScopeIsText(e.scope, Platform);
      ScopeIsText(e.scope, Project);
      ScopeIsText(e.scope, Dual);
    }
  }

  lemma RightEntriesAreOk(services: Services)
    ensures EntriesAreRight(services) <==> PermissionsOk(services)
  {
    forall e
      ensures EntryIsRight(e) <==> EntryOk(e)
    {
      RightIsOk(e);
    }
    if PermissionsOk(services) {
      forall s | 0 <= s < |services|
        ensures services[s].1.Entries?
        ensures forall k | 0 <= k < |services[s].1.entries| :: EntryIsRight(services[s].1.entries[k])
      {
        assert ServiceOk(services[s].1);
      }
    }
  }

  predicate Maps(flat: map<string, Scope>, name: string, scope: Scope) {
    name in flat && flat[name] == scope
  }

  ghost predicate NamedIn(entries: seq<PermEntry>, name: string) {
    exists k | 0 <= k < |entries| :: IsFor(entries[k], name)
  }

  lemma NamedInNext(b: seq<PermEntry>, name: string)
    requires b != []
    ensures NamedIn(b, name) <==> NamedIn(Front(b), name) || IsFor(Last(b), name)
  {
    var n := |b| - 1;
    assert forall k | 0 <= k < n :: Front(b)[k] == b[k];
    if NamedIn(Front(b), name) {
      var k :| 0 <= k < n && IsFor(Front(b)[k], name);
      assert IsFor(b[k], name);
    }
  }

  lemma FlatOfLast(a: seq<PermEntry>, b: seq<PermEntry>)
    requires b != [] && EntryOk(Last(b))
    ensures Flat(b) == Flat(Front(b))[Last(b).name := ScopeOf(Last(b).scope).value]
    ensures Flat(a + b) == Flat(a + Front(b))[Last(b).name := ScopeOf(Last(b).scope).value]
  {
    assert Front(a + b) == a + Front(b) && Last(a + b) == Last(b);
  }

  /** Entries added behind others decide about the names they list, and about no other. */
  lemma {:induction false} FlatOfConcat(a: seq<PermEntry>, b: seq<PermEntry>, name: string, scope: Scope)
    requires forall k | 0 <= k < |b| :: EntryOk(b[k])
    ensures Maps(Flat(a + b), name, scope) <==>
            if NamedIn(b, name) then Maps(Flat(b), name, scope) else Maps(Flat(a), name, scope)
    decreases |b|
  {
    if b == [] {
      assert a + b == a;
    } else {
      assert EntryOk(b[|b| - 1]);
      FlatOfConcat(a, Front(b), name, scope);
      NamedInNext(b, name);
      FlatOfLast(a, b);
    }
  }

  /** The last service decides about the names its list has. */
  lemma LastServiceDecides(services: Services, name: string, text: string)
    requires services != [] && Last(services).1.Entries?
    ensures var entries, n := Last(services).1.entries, |services| - 1;
            NamedIn(entries, name) ==>
              (LastListed(services, name, text) <==>
               exists k | 0 <= k < |entries| ::
                 IsFor(entries[k], name) && entries[k].scope == Some(text) &&
                 forall j | k < j < |entries| :: !IsFor(entries[j], name))
  {
    var entries, n := Last(services).1.entries, |services| - 1;
    if NamedIn(entries, name) {
      var i: nat :| i < |entries| && IsFor(entries[i], name);
      assert NamesAt(services, n, i, name);
      assert forall j: nat | j < |entries| :: NamesAt(services, n, j, name) <==> IsFor(entries[j], name);
      if k: nat :| k < |entries| && IsFor(entries[k], name) && entries[k].scope == Some(text) &&
                   forall j | k < j < |entries| :: !IsFor(entries[j], name) {
        assert IsLastFor(services, n, k, name);
      }
    }
  }

  /** A name the last service does not list is decided by the ones before. */
  lemma EarlierServicesDecide(services: Services, name: string, text: string)
    requires services != [] && Last(services).1.Entries? && !NamedIn(Last(services).1.entries, name)
    ensures LastListed(services, name, text) <==> LastListed(Front(services), name, text)
  {
    var front, n := Front(services), |services| - 1;
    forall s: nat, k: nat
      ensures NamesAt(services, s, k, name) <==> NamesAt(front, s, k, name)
    {
      if NamesAt(services, s, k, name) && s == n {
        assert IsFor(Last(services).1.entries[k], name);
      }
    }
    forall s: nat, k: nat
      ensures IsLastFor(services, s, k, name) <==> IsLastFor(front, s, k, name)
    {
    }
  }

  /** The validator's dictionary gives a name the scope of the last entry of the document for it. */
  lemma {:induction false} FlatIsLastListed(services: Services, name: string, scope: Scope)
    requires PermissionsOk(services)
    ensures Maps(Flat(AllEntries(services)), name, scope) <==> LastListed(services, name, TextOf(scope))
    decreases |services|
  {
    if services != [] {
      var entries := Last(services).1.entries;
      assert ServiceOk(services[|services| - 1].1);
      FlatIsLastListed(Front(services), name, scope);
      FlatOfConcat(AllEntries(Front(services)), entries, name, scope);
      if NamedIn(entries, name) {
        LastServiceDecides(services, name, TextOf(scope));
        FlatIsLastWins(entries, name, scope);
        forall k | 0 <= k < |entries|
          ensures Lists(entries[k], name, scope) <==>
                  IsFor(entries[k], name) && entries[k].scope == Some(TextOf(scope))
        {
          ScopeIsText(if entries[k].Named? then entries[k].scope else None, scope);
        }
      } else {
        EarlierServicesDecide(services, name, TextOf(scope));
      }
    }
  }

  lemma RolePermissionMeans(services: Services, perm: string)
    requires PermissionsOk(services)
    ensures RolePermOk(Flat(AllEntries(services)), perm) <==>
            LastListed(services, perm, "platform") || LastListed(services, perm, "platform/project")
  {
    FlatIsLastListed(services, perm, Platform);
    FlatIsLastListed(services, perm, Dual);
  }

  lemma RolesMean(services: Services, defs: seq<RoleDef>)
    requires PermissionsOk(services)
    ensures (forall def | def in defs :: RoleOk(Flat(AllEntries(services)), def)) <==>
            && (forall def, perm | def in defs && RoleLists(def, perm) ::
                  LastListed(services, perm, "platform") || LastListed(services, perm, "platform/project"))
            && (forall def | def in defs && RoleLists(def, "helios:tenant:transfer") :: def.role == "OWNER")
  {
    forall perm
      ensures RolePermOk(Flat(AllEntries(services)), perm) <==>
              LastListed(services, perm, "platform") || LastListed(services, perm, "platform/project")
    {
      RolePermissionMeans(services, perm);
    }
    forall def: RoleDef, perm: string
      ensures perm in RolePerms(def) <==> RoleLists(def, perm)
    {
    }
  }

  /** The validator accepts exactly the contracts that meet the rules of the document. */
  lemma AcceptedIffMeetsRules(c: Contract)
    ensures Accepted(c) <==> MeetsRules(c)
  {
    if Complete(c) {
      var services := c.permissions.value;
      PermissionsOkMeans(services);
      RightEntriesAreOk(services);
      if PermissionsOk(services) {
        RolesMean(services, c.rolePermissions.value);
        FlatIsLastListed(services, SWITCH, SelfScope);
      }
    }
  }
}
