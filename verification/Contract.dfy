/** The permission contract and the validator that decides whether code is generated from it. */
module Contract {
  import opened Prelude

  datatype Scope = SelfScope | Platform | Project | Dual

  const SELF_SUFFIX := ":self"
  const OWNER := "OWNER"
  const TRANSFER := "helios:tenant:transfer"
  const SWITCH := "helios:tenant:switch:self"

  /** One element of a service's list. `scope` is `None` when the field is absent. */
  datatype PermEntry =
    | BareString(text: string)
    | NotAnObject   // nor a string; or an object whose name is not a string
    | Named(name: string, scope: Option<string>)

  datatype Service = NotAnArray | Entries(entries: seq<PermEntry>)

  /** A role's definition; its `permissions` list may be absent. */
  datatype RoleDef = RoleDef(role: string, permissions: Option<seq<string>>)

  /** The decoded document; a field is `None` when it is absent or, but for the version, has the wrong type. */
  datatype Contract = Contract(
    version: Option<string>,
    services: Option<seq<string>>,
    roles: Option<seq<string>>,
    permissions: Option<seq<(string, Service)>>,
    rolePermissions: Option<seq<RoleDef>>)

  datatype Error =
    | MissingVersion | MissingServices | MissingRoles | MissingPermissions | MissingRolePermissions
    | ServiceNotAnArray(service: string)
    | EntryIsBareString | EntryIsMalformed
    | InvalidScope(name: string) | SuffixMissing(name: string) | SuffixWithoutScope(name: string)
    | UnknownPerm(role: string, perm: string) | SelfPermInRole(role: string, perm: string)
    | ProjectPermInRole(role: string, perm: string) | TransferOutsideOwner(role: string)
    | SwitchMissing | SwitchNotSelf

  function ScopeOf(text: Option<string>): Option<Scope> {
    match text
    case None => None
    case Some(s) =>
      if s == "self" then Some(SelfScope)
      else if s == "platform" then Some(Platform)
      else if s == "project" then Some(Project)
      else if s == "platform/project" then Some(Dual)
      else None
  }

  /** A named permission with a valid scope, whose name ends in `:self` exactly when its scope is `self`. */
  predicate EntryOk(e: PermEntry) {
    e.Named? && ScopeOf(e.scope).Some? &&
    (ScopeOf(e.scope).value == SelfScope <==> EndsWith(e.name, SELF_SUFFIX))
  }

  /** The permission entries of all services, in the order of the document. */
  function AllEntries(services: seq<(string, Service)>): seq<PermEntry> {
    if services == [] then []
    else
      AllEntries(Front(services)) + match Last(services).1
                                    case NotAnArray => []
                                    case Entries(entries) => entries
  }

  /** The validator's `flat` dictionary: a later entry for the same name replaces an earlier one. */
  function Flat(entries: seq<PermEntry>): map<string, Scope> {
    if entries == [] then map[]
    else
      var e := Last(entries);
      if EntryOk(e) then Flat(Front(entries))[e.name := ScopeOf(e.scope).value] else Flat(Front(entries))
  }

  function RolePerms(def: RoleDef): seq<string> {
    match def.permissions
    case None => []
    case Some(perms) => perms
  }

  predicate RolePermOk(flat: map<string, Scope>, perm: string) {
    perm in flat && flat[perm] != SelfScope && flat[perm] != Project
  }

  ghost predicate RoleOk(flat: map<string, Scope>, def: RoleDef) {
    && (forall perm | perm in RolePerms(def) :: RolePermOk(flat, perm))
    && (def.role != OWNER ==> TRANSFER !in RolePerms(def))
  }

  predicate SwitchOk(flat: map<string, Scope>) {
    SWITCH in flat && flat[SWITCH] == SelfScope
  }

  predicate Complete(c: Contract) {
    c.version.Some? && c.services.Some? && c.roles.Some? && c.permissions.Some? && c.rolePermissions.Some?
  }

  function EntriesOf(c: Contract): seq<PermEntry> {
    match c.permissions
    case None => []
    case Some(services) => AllEntries(services)
  }

  /** The rules a contract must meet. */
  ghost predicate Accepted(c: Contract) {
    && Complete(c)
    && (forall s | s in c.permissions.value :: s.1.Entries?)
    && (forall e | e in EntriesOf(c) :: EntryOk(e))
    && (forall def | def in c.rolePermissions.value :: RoleOk(Flat(EntriesOf(c)), def))
    && SwitchOk(Flat(EntriesOf(c)))
  }

  predicate IsFor(e: PermEntry, name: string) {
    e.Named? && e.name == name
  }

  predicate Lists(e: PermEntry, name: string, scope: Scope) {
    e.Named? && e.name == name && ScopeOf(e.scope) == Some(scope)
  }

  /** The entry breaks the rule the error names. */
  predicate EntryShows(e: PermEntry, error: Error) {
    match error
    case EntryIsBareString => e.BareString?
    case EntryIsMalformed => e.NotAnObject?
    case InvalidScope(name) => e.Named? && e.name == name && ScopeOf(e.scope).None?
    case SuffixMissing(name) => Lists(e, name, SelfScope) && !EndsWith(name, SELF_SUFFIX)
    case SuffixWithoutScope(name) =>
      e.Named? && e.name == name && EndsWith(name, SELF_SUFFIX) && ScopeOf(e.scope).Some? &&
      ScopeOf(e.scope) != Some(SelfScope)
    case _ => false
  }

  /** The first entry that breaks a rule breaks the one the error names. */
  ghost predicate FirstBadEntry(entries: seq<PermEntry>, error: Error) {
    exists k | 0 <= k < |entries| ::
      EntryShows(entries[k], error) && forall j | 0 <= j < k :: EntryOk(entries[j])
  }

  ghost predicate ServiceOk(service: Service) {
    service.Entries? && forall k | 0 <= k < |service.entries| :: EntryOk(service.entries[k])
  }

  ghost predicate ServiceShows(service: (string, Service), error: Error) {
    match service.1
    case NotAnArray => error == ServiceNotAnArray(service.0)
    case Entries(entries) => FirstBadEntry(entries, error)
  }

  /** The first service that breaks a rule breaks the one the error names. */
  ghost predicate FirstBadService(services: seq<(string, Service)>, error: Error) {
    exists i | 0 <= i < |services| ::
      ServiceShows(services[i], error) && forall j | 0 <= j < i :: ServiceOk(services[j].1)
  }

  predicate RolePermShows(flat: map<string, Scope>, role: string, perm: string, error: Error) {
    !RolePermOk(flat, perm) &&
    error == if perm !in flat then UnknownPerm(role, perm)
             else if flat[perm] == SelfScope then SelfPermInRole(role, perm)
             else ProjectPermInRole(role, perm)
  }

  ghost predicate FirstBadPerm(flat: map<string, Scope>, role: string, perms: seq<string>, error: Error) {
    exists k | 0 <= k < |perms| ::
      RolePermShows(flat, role, perms[k], error) && forall j | 0 <= j < k :: RolePermOk(flat, perms[j])
  }

  /** The role's first bad permission breaks the rule the error names; without one it is the transfer rule. */
  ghost predicate RoleShows(flat: map<string, Scope>, def: RoleDef, error: Error) {
    if exists perm | perm in RolePerms(def) :: !RolePermOk(flat, perm)
    then FirstBadPerm(flat, def.role, RolePerms(def), error)
    else !RoleOk(flat, def) && error == TransferOutsideOwner(def.role)
  }

  ghost predicate FirstBadRole(flat: map<string, Scope>, defs: seq<RoleDef>, error: Error) {
    exists i | 0 <= i < |defs| ::
      RoleShows(flat, defs[i], error) && forall j | 0 <= j < i :: RoleOk(flat, defs[j])
  }

  ghost predicate PermissionsOk(services: seq<(string, Service)>) {
    forall i | 0 <= i < |services| :: ServiceOk(services[i].1)
  }

  /** The error names the first rule the contract breaks, in the order of the document. */
  ghost predicate FirstError(c: Contract, error: Error) {
    if c.version.None? then error == MissingVersion
    else if c.services.None? then error == MissingServices
    else if c.roles.None? then error == MissingRoles
    else if c.permissions.None? then error == MissingPermissions
    else if c.rolePermissions.None? then error == MissingRolePermissions
    else if !PermissionsOk(c.permissions.value) then FirstBadService(c.permissions.value, error)
    else if exists def | def in c.rolePermissions.value :: !RoleOk(Flat(EntriesOf(c)), def)
    then FirstBadRole(Flat(EntriesOf(c)), c.rolePermissions.value, error)
    else if SWITCH !in Flat(EntriesOf(c)) then error == SwitchMissing
    else Flat(EntriesOf(c))[SWITCH] != SelfScope && error == SwitchNotSelf
  }

  /** The loop over services and their lists checks exactly the entries of the document. */
  lemma {:induction false} PermissionsOkMeans(services: seq<(string, Service)>)
    ensures PermissionsOk(services) <==>
            (forall s | s in services :: s.1.Entries?) && forall e | e in AllEntries(services) :: EntryOk(e)
    decreases |services|
  {
    if services != [] {
      var n := |services| - 1;
      PermissionsOkMeans(Front(services));
      assert services == Front(services) + [services[n]];
      assert PermissionsOk(services) <==> PermissionsOk(Front(services)) && ServiceOk(services[n].1);
    }
  }

  lemma EntriesOfNext(services: seq<(string, Service)>, n: nat)
    requires n < |services| && services[n].1.Entries?
    ensures AllEntries(services[..n + 1]) == AllEntries(services[..n]) + services[n].1.entries
  {
    assert Front(services[..n + 1]) == services[..n];
  }

  lemma FlatOfNext(entries: seq<PermEntry>, e: PermEntry)
    requires EntryOk(e)
    ensures Flat(entries + [e]) == Flat(entries)[e.name := ScopeOf(e.scope).value]
  {
    assert Front(entries + [e]) == entries;
  }

  /** Checks one entry; the error names what is wrong with it. */
  method CheckEntry(e: PermEntry) returns (r: Result<Scope, Error>)
    ensures r.Success? <==> EntryOk(e)
    ensures r.Success? ==> ScopeOf(e.scope) == Some(r.value)
    ensures r.Failure? ==> EntryShows(e, r.error)
  {
    if e.BareString? {
      return Failure(EntryIsBareString);
    }
    if !e.Named? {
      return Failure(EntryIsMalformed);
    }
    var scope := ScopeOf(e.scope);
    if scope.None? {
      return Failure(InvalidScope(e.name));
    }
    if scope.value == SelfScope && !EndsWith(e.name, SELF_SUFFIX) {
      return Failure(SuffixMissing(e.name));
    }
    if EndsWith(e.name, SELF_SUFFIX) && scope.value != SelfScope {
      return Failure(SuffixWithoutScope(e.name));
    }
    return Success(scope.value);
  }

  lemma FlatOfPrefix(earlier: seq<PermEntry>, entries: seq<PermEntry>, k: nat)
    requires k < |entries| && EntryOk(entries[k])
    ensures Flat(earlier + entries[..k + 1]) ==
            Flat(earlier + entries[..k])[entries[k].name := ScopeOf(entries[k].scope).value]
  {
    FlatOfNext(earlier + entries[..k], entries[k]);
    assert earlier + entries[..k + 1] == earlier + entries[..k] + [entries[k]];
  }

  /** The inner loop over one service, on top of the entries that came before it. */
  method CheckService(before: map<string, Scope>, ghost earlier: seq<PermEntry>, entries: seq<PermEntry>)
    returns (r: Result<map<string, Scope>, Error>)
    requires before == Flat(earlier)
    ensures r.Success? <==> forall k | 0 <= k < |entries| :: EntryOk(entries[k])
    ensures r.Success? ==> r.value == Flat(earlier + entries)
    ensures r.Failure? ==> FirstBadEntry(entries, r.error)
  {
    var flat := before;
    assert earlier + entries[..0] == earlier;
    for k := 0 to |entries|
      invariant forall j | 0 <= j < k :: EntryOk(entries[j])
      invariant flat == Flat(earlier + entries[..k])
    {
      var checked := CheckEntry(entries[k]);
      if checked.Failure? {
        return Failure(checked.error);
      }
      FlatOfPrefix(earlier, entries, k);
      flat := flat[entries[k].name := checked.value];
    }
    assert entries[..|entries|] == entries;
    return Success(flat);
  }

  /** The first loop: checks every entry and fills the dictionary. */
  method CheckPermissions(services: seq<(string, Service)>) returns (r: Result<map<string, Scope>, Error>)
    ensures r.Success? <==> PermissionsOk(services)
    ensures r.Success? ==> r.value == Flat(AllEntries(services))
    ensures r.Failure? ==> FirstBadService(services, r.error)
  {
    var flat: map<string, Scope> := map[];
    for i := 0 to |services|
      invariant forall j | 0 <= j < i :: ServiceOk(services[j].1)
      invariant flat == Flat(AllEntries(services[..i]))
    {
      var (service, perms) := services[i];
      if perms.NotAnArray? {
        return Failure(ServiceNotAnArray(service));
      }
      EntriesOfNext(services, i);
      var checked := CheckService(flat, AllEntries(services[..i]), perms.entries);
      if checked.Failure? {
        return Failure(checked.error);
      }
      flat := checked.value;
    }
    assert services[..|services|] == services;
    return Success(flat);
  }

  /** The second loop, for one role. */
  method CheckRole(flat: map<string, Scope>, def: RoleDef) returns (r: Option<Error>)
    ensures r.None? <==> RoleOk(flat, def)
    ensures r.Some? ==> RoleShows(flat, def, r.value)
  {
    var perms := RolePerms(def);
    for i := 0 to |perms|
      invariant forall perm | perm in perms[..i] :: RolePermOk(flat, perm)
    {
      var perm := perms[i];
      assert perm in perms && (RolePermOk(flat, perm) || !RoleOk(flat, def));
      if perm !in flat {
        return Some(UnknownPerm(def.role, perm));
      }
      if flat[perm] == SelfScope {
        return Some(SelfPermInRole(def.role, perm));
      }
      if flat[perm] == Project {
        return Some(ProjectPermInRole(def.role, perm));
      }
      assert perms[..i + 1] == perms[..i] + [perm];
    }
    assert perms[..|perms|] == perms;
    if def.role != OWNER && TRANSFER in perms {
      return Some(TransferOutsideOwner(def.role));
    }
    return None;
  }

  /** The second loop, over all roles. */
  method CheckRoles(flat: map<string, Scope>, defs: seq<RoleDef>) returns (r: Option<Error>)
    ensures r.None? <==> forall def | def in defs :: RoleOk(flat, def)
    ensures r.Some? ==> FirstBadRole(flat, defs, r.value)
  {
    for i := 0 to |defs|
      invariant forall j | 0 <= j < i :: RoleOk(flat, defs[j])
    {
      r := CheckRole(flat, defs[i]);
      if r.Some? {
        assert defs[i] in defs;
        return;
      }
    }
    return None;
  }

  /**
    `validate_contract_in_memory`: it finishes without failing exactly on the contracts that meet the
    rules, and an error names the first rule that is broken, in the order of the document.
   */
  method Validate(c: Contract) returns (r: Result<map<string, Scope>, Error>)
    ensures r.Success? <==> Accepted(c)
    ensures r.Success? ==> r.value == Flat(EntriesOf(c))
    ensures r.Failure? ==> FirstError(c, r.error)
  {
    if c.version.None? { return Failure(MissingVersion); }
    if c.services.None? { return Failure(MissingServices); }
    if c.roles.None? { return Failure(MissingRoles); }
    if c.permissions.None? { return Failure(MissingPermissions); }
    if c.rolePermissions.None? { return Failure(MissingRolePermissions); }
    r := CheckPermissions(c.permissions.value);
    PermissionsOkMeans(c.permissions.value);
    if r.Failure? {
      return;
    }
    var flat := r.value;
    var error := CheckRoles(flat, c.rolePermissions.value);
    if error.Some? {
      return Failure(error.value);
    }
    if SWITCH !in flat {
      return Failure(SwitchMissing);
    }
    if flat[SWITCH] != SelfScope {
      return Failure(SwitchNotSelf);
    }
  }

  lemma EntryErrorIsUnique(entries: seq<PermEntry>, a: Error, b: Error)
    requires FirstBadEntry(entries, a) && FirstBadEntry(entries, b)
    ensures a == b
  {
    var i :| 0 <= i < |entries| && EntryShows(entries[i], a) && forall j | 0 <= j < i :: EntryOk(entries[j]);
    var k :| 0 <= k < |entries| && EntryShows(entries[k], b) && forall j | 0 <= j < k :: EntryOk(entries[j]);
    assert !EntryOk(entries[i]) && !EntryOk(entries[k]);
  }

  lemma ServiceErrorIsUnique(services: seq<(string, Service)>, a: Error, b: Error)
    requires FirstBadService(services, a) && FirstBadService(services, b)
    ensures a == b && !PermissionsOk(services)
  {
    var i :| 0 <= i < |services| && ServiceShows(services[i], a) && forall j | 0 <= j < i :: ServiceOk(services[j].1);
    var k :| 0 <= k < |services| && ServiceShows(services[k], b) && forall j | 0 <= j < k :: ServiceOk(services[j].1);
    ServiceErrorMeansBad(services[i], a);
    ServiceErrorMeansBad(services[k], b);
    if services[i].1.Entries? {
      EntryErrorIsUnique(services[i].1.entries, a, b);
    }
  }

  lemma ServiceErrorMeansBad(service: (string, Service), error: Error)
    requires ServiceShows(service, error)
    ensures !ServiceOk(service.1)
  {
  }

  lemma RoleErrorIsUnique(flat: map<string, Scope>, defs: seq<RoleDef>, a: Error, b: Error)
    ensures FirstBadRole(flat, defs, a) ==> exists def | def in defs :: !RoleOk(flat, def)
    ensures FirstBadRole(flat, defs, a) && FirstBadRole(flat, defs, b) ==> a == b
  {
    if FirstBadRole(flat, defs, a) {
      var i :| 0 <= i < |defs| && RoleShows(flat, defs[i], a) && forall j | 0 <= j < i :: RoleOk(flat, defs[j]);
      RoleErrorMeansBad(flat, defs[i], a);
      assert defs[i] in defs;
      if FirstBadRole(flat, defs, b) {
        var k :| 0 <= k < |defs| && RoleShows(flat, defs[k], b) && forall j | 0 <= j < k :: RoleOk(flat, defs[j]);
        RoleErrorMeansBad(flat, defs[k], b);
        assert i == k;
        if exists perm | perm in RolePerms(defs[i]) :: !RolePermOk(flat, perm) {
          PermErrorIsUnique(flat, defs[i].role, RolePerms(defs[i]), a, b);
        }
      }
    }
  }

  lemma RoleErrorMeansBad(flat: map<string, Scope>, def: RoleDef, error: Error)
    requires RoleShows(flat, def, error)
    ensures !RoleOk(flat, def)
  {
  }

  lemma PermErrorIsUnique(flat: map<string, Scope>, role: string, perms: seq<string>, a: Error, b: Error)
    requires FirstBadPerm(flat, role, perms, a) && FirstBadPerm(flat, role, perms, b)
    ensures a == b
  {
    var i :| 0 <= i < |perms| && RolePermShows(flat, role, perms[i], a) &&
             forall j | 0 <= j < i :: RolePermOk(flat, perms[j]);
    var k :| 0 <= k < |perms| && RolePermShows(flat, role, perms[k], b) &&
             forall j | 0 <= j < k :: RolePermOk(flat, perms[j]);
    assert i == k;
  }

  /** A contract has at most one first error, and none if it meets the rules. */
  lemma FirstErrorIsUnique(c: Contract, a: Error, b: Error)
    requires FirstError(c, a) && FirstError(c, b)
    ensures a == b && !Accepted(c)
  {
    if Complete(c) {
      var services, defs, flat := c.permissions.value, c.rolePermissions.value, Flat(EntriesOf(c));
      PermissionsOkMeans(services);
      if !PermissionsOk(services) {
        ServiceErrorIsUnique(services, a, b);
      } else if exists def | def in defs :: !RoleOk(flat, def) {
        RoleErrorIsUnique(flat, defs, a, b);
      }
    }
  }

  /** The dictionary is a last-wins lookup: `scope` is what the last entry for `name` lists. */
  lemma {:induction false} FlatIsLastWins(entries: seq<PermEntry>, name: string, scope: Scope)
    requires forall i | 0 <= i < |entries| :: EntryOk(entries[i])
    ensures name in Flat(entries) && Flat(entries)[name] == scope <==>
            exists i | 0 <= i < |entries| ::
              Lists(entries[i], name, scope) && forall j | i < j < |entries| :: !IsFor(entries[j], name)
  {
    if entries != [] {
      var n := |entries| - 1;
      FlatIsLastWins(Front(entries), name, scope);
      assert entries[n] == Last(entries) && EntryOk(entries[n]);
      if !IsFor(entries[n], name) {
        assert forall i | 0 <= i < n :: Front(entries)[i] == entries[i];
      }
    }
  }
}
