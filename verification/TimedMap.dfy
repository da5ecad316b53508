/**
  The cache as its users think of it: a map from `(user, tenant)` pairs to permission lists whose
  entries disappear at their deadline. Both cache implementations are compared with it.
 */
module TimedMap {
  import opened Prelude
  import opened Keys

  /** Time in milliseconds. */
  type Ms = real

  datatype Deadline = Never | At(ms: Ms)

  datatype Entry = Entry(perms: Perms, deadline: Deadline)

  predicate Expired(d: Deadline, now: Ms) {
    d.At? && d.ms <= now
  }

  function DeadlineFrom(now: Ms, ttl: Option<Ms>): Deadline {
    match ttl
    case None => Never
    case Some(ms) => At(now + ms)
  }

  /** The entry of `key`, unless it is missing or expired. */
  function Live<K>(m: map<K, Entry>, key: K, now: Ms): Option<Entry> {
    if key in m && !Expired(m[key].deadline, now) then Some(m[key]) else None
  }

  function PermsOf(e: Option<Entry>): Option<Perms> {
    match e
    case None => None
    case Some(entry) => Some(entry.perms)
  }

  /** The operations of the `PermissionCache` protocol. */
  datatype Op =
    | Get(id: Pair)
    | Set(id: Pair, perms: Perms)
    | Write(id: Pair, perms: Perms)
    | Invalidate(id: Pair)
    | InvalidateUser(user: string)
    | InvalidateTenant(tenant: string)

  /** An operation, with its first clock reading and the one that dates what it stores. */
  datatype Event = Event(now: Ms, later: Ms, op: Op)

  predicate GoodOp(op: Op) {
    match op
    case InvalidateUser(user) => ColonFree(user)
    case InvalidateTenant(tenant) => ColonFree(tenant)
    case _ => Good(op.id)
  }

  ghost predicate GoodEvents(es: seq<Event>) {
    forall e | e in es :: GoodOp(e.op)
  }

  ghost predicate Monotone(es: seq<Event>) {
    forall i, j | 0 <= i <= j < |es| :: es[i].now <= es[j].now
  }

  type Timed = map<Pair, Entry>

  function Prune(m: Timed, now: Ms): Timed {
    map id | id in m && !Expired(m[id].deadline, now) :: m[id]
  }

  /** One operation: first every entry past its deadline goes, then the operation takes effect. */
  function Do(m: Timed, e: Event, ttl: Option<Ms>): (Timed, Option<Perms>) {
    var now := e.now;
    var live := Prune(m, now);
    match e.op
    case Get(id) => (live, if id in live then Some(live[id].perms) else None)
    case Set(id, perms) =>
      (if id in live then live else live[id := Entry(perms, DeadlineFrom(e.later, ttl))], None)
    case Write(id, perms) => (live[id := Entry(perms, DeadlineFrom(e.later, ttl))], None)
    case Invalidate(id) => (live - {id}, None)
    case InvalidateUser(user) => (map id | id in live && id.user != user :: live[id], None)
    case InvalidateTenant(tenant) => (map id | id in live && id.tenant != tenant :: live[id], None)
  }

  /** The map after the first `n` operations of a history, starting empty. */
  function StateAfter(es: seq<Event>, n: nat, ttl: Option<Ms>): Timed
    requires n <= |es|
  {
    if n == 0 then map[] else Do(StateAfter(es, n - 1, ttl), es[n - 1], ttl).0
  }

  /** What operation `j` of a history returns. */
  function Observation(es: seq<Event>, j: nat, ttl: Option<Ms>): Option<Perms>
    requires j < |es|
  {
    Do(StateAfter(es, j, ttl), es[j], ttl).1
  }
}
