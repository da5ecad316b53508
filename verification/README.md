# Helios permission SDK: a verified model

The SDK answers "may this user do that in this tenant?" from a cache shared by all services, and
asks Helios on a miss. This project models the parts of it where the answer can go wrong, and
proves what they guarantee.

## The parts

- **The coalescing protocol** (`Client`, `Protocol`, `InMemoryProtocol`). Any number of read calls
  on any number of clients share one cache; Helios is a database that keeps every version of every
  membership. What the client does between two awaits is one atomic section: a function on the
  client's state, and a method of the class `PermissionClient` proved equal to it. A run is a start
  state and a list of labels. Cache GET, cache SET and the Helios fetch are executed at a server
  event and the call resumes in a later one, so everything may happen in between. Over the in-memory
  cache, whose operations do not suspend, GET and join-or-lead are one event, and so are SET,
  resolve and release.
- **What holds in every run** (`Ownership`, `Liveness`, `Coherence`, `NeverBehind`, `Grants`,
  `Freshness`, `LateCalls`, `FetchCount`, `Responses`, `SharedKeys`), and runs that
  show what does not (`Anomalies`).
- **The caches** (`Keys`, `Glob`, `Json`, `JsonGrammar`, `TimedMap`, `InMemoryCache`, `RedisCache`,
  `CacheEquivalence`, `Retention`, `ProtocolCache`, `TimedProtocol`, `TimedCoherence`). Both
  implementations are compared with a map from pairs to lists with deadlines, and with the history
  alone; runs over that map are runs of the protocol. The Redis server may fail at any call, before
  or after executing it, and other clients may change its contents between the calls of a SCAN/DEL
  iteration.
- **The Helios request** (`Helios`, `HeliosPath`).
- **The contract** (`Contract`, `ContractRules`, `Codegen`): the validator, the generator at table
  level, and what the tables promise for an accepted contract.

`dafny verify dfyconfig.toml` checks all of it.

## How to read the protocol theorems

- A label carries the choices of the environment: whether a cache call succeeds, what Helios answers,
  which keys a removal takes. A failed GET and an undecodable value read as a miss, a failed SET
  changes nothing; expiry is a removal.
- Helios answers a fetch from its current version when the fetch is served. `Row.written` is the last
  version written through; a write-through is due while it is not the current one. A write-through in
  order may skip versions whose own write failed, and may repeat the last.
- `Separated(ids)` says that the memberships of a run do not share joined keys. Colon-free users, or
  colon-free tenants, are enough (`Keys.ColonFreeUsersAreSeparated`); `SharedKeys` says what happens
  otherwise.
- Calls are not cancelled, and callers do not change the list they are given.

## Where the documentation promises more than the code

- `src/helios_permissions/cache/redis.py:136-138` says that NX keeps a slow read from bringing back
  an invalidated value. It does not: the key is absent then
  (`Anomalies.NxDoesNotPreventStalePopulate`). `Coherence.RemovalExactness` says exactly when it is
  harmless.
- `src/helios_permissions/permission_client.py:132-133` says one Helios call per cold key. One
  outstanding fetch per key and client is right. The total also grows with every late miss
  (`Anomalies.ColdKeyCanBeFetchedTwice`, `FetchCount.OneFetchIffNoLateMiss`), of which the in-memory
  cache has none (`InMemoryProtocol.FetchBound`).
- `src/helios_permissions/permission_client.py:260-265` says the in-flight entry is released before
  the future resolves. The code resolves first; both happen in one atomic section, so no other call
  can tell.
- `src/helios_permissions/permission_client.py:226-231` says a write-through leaves no race window for
  the next read. A read that misses can still join an older fetch
  (`Anomalies.FollowerCanGrantAfterRevocation`); `LateCalls.LateCallIsFreshIff` says exactly in which states.
- `src/helios_permissions/permission_client.py:162` says `explain` asks Helios on a cache miss. It
  never looks at the cache.
- The validator does not reject one name listed with two scopes. It decides by the last entry, the
  generated dictionary by the last bucket (`Codegen.TablesAgreeExactly`,
  `Codegen.AcceptedContractBreaksTables`).
- The validator takes a role without a `permissions` list as empty; the generator stops there
  (`Codegen.Generate`).

## Model

| member | source | states |
|---|---|---|
| `Client.PermissionClient.constructor` | src/helios_permissions/permission_client.py:107-119 | A new client has no fetch in flight. |
| `Client.PermissionClient.ResumeAfterGet` | src/helios_permissions/permission_client.py:245-258 | The atomic section after the cache GET: a hit answers; a miss joins the fetch in flight for the key, or registers a pending future and leads. The whole new client state equals the section the protocol runs. |
| `Client.PermissionClient.ResumeAfterFetch` | src/helios_permissions/permission_client.py:266-292 | The section after the fetch: an answer goes on to the populate with the entry still registered; an outage settles the future (empty list, or the exception) and releases the key; any other exception releases the key and leaves the future pending. |
| `Client.PermissionClient.ResumeAfterSet` | src/helios_permissions/permission_client.py:294-297 | Resolve the future, release the key and answer, in one section. |
| `Client.PermissionClient.ResumeAfterWait` | src/helios_permissions/permission_client.py:253-254 | A follower goes on exactly when its future has settled, with the outcome in it. |
| `Protocol.EnvironmentIsFree` | src/helios_permissions/permission_client.py:223-233 | What surrounds the calls is free in every state: any write-through, removal and role change can happen, a waiting cache call can succeed or fail, and a fetch can be answered or fail in either way. |
| `Ownership.InFlightOwnership` | src/helios_permissions/permission_client.py:250-270 | At every point of every run an in-flight entry exists exactly when the client has a live leader for that key; the leader is unique, the entry names it and its future is pending. |
| `Ownership.FollowersHaveLeaders` | src/helios_permissions/permission_client.py:251-254 | The future of a waiting follower belongs to a call of the same client and key, and is pending exactly while that call is the registered leader, or when it ended in an exception other than HeliosUnreachableError. |
| `Ownership.ReleasePopsOwnEntry` | src/helios_permissions/permission_client.py:266-270 | In every run the event by which a leader leaves, on each exit path, removes its own entry; no event removes any other entry or renames one. |
| `Ownership.OutstandingBound` | src/helios_permissions/permission_client.py:256-268 | The fetches of a key under way at one time never exceed the number of clients. |
| `Ownership.CoalescedAgreement` | src/helios_permissions/permission_client.py:251-297 | A call that joined a fetch ends with exactly the outcome of its leader, the same list or the same exception, for its own (user, tenant) and client. |
| `Ownership.FollowersNeverCrash` | src/helios_permissions/permission_client.py:253-254 | No follower ends in an exception other than HeliosUnreachableError. |
| `Ownership.StepKeepsOwned` | src/helios_permissions/permission_client.py:245-297 | Every atomic event of the protocol, by calls or environment, keeps the ownership invariant. |
| `Liveness.StepDecreasesRank` | src/helios_permissions/permission_client.py:245-297 | Every step of a call lowers the summed rank; every other event leaves it alone. |
| `Liveness.CallStepsBounded` | src/helios_permissions/permission_client.py:245-297 | In every run, with any environment, n calls take at most 6 n steps. |
| `Liveness.Progress` | src/helios_permissions/permission_client.py:245-297 | A call that is neither answered nor stranded makes some call step possible: its own, or its live leader's. |
| `Liveness.UnansweredCanStep` | src/helios_permissions/permission_client.py:245-297 | No deadlock: when every fetch ends in success or HeliosUnreachableError, some call can step if and only if some call is unanswered. |
| `Liveness.NoStepMeansAnsweredOrStranded` | src/helios_permissions/permission_client.py:245-297 | In a state where no call can step, each call is answered, or joined a leader whose fetch ended in another exception. |
| `Liveness.EveryRunCanBeFinished` | src/helios_permissions/permission_client.py:245-297 | Every run without such an exception extends, by steps of the calls alone, to one in which all calls are answered. |
| `Liveness.LeaderFinishes` | src/helios_permissions/permission_client.py:278-297 | A live leader can always finish by its own steps without a failure: its key is released, and the list it bore is its answer and the result of its future. |
| `Liveness.AllAnsweredIffNoneStranded` | src/helios_permissions/permission_client.py:253-270 | At the end of a run that cannot go on, all calls are answered if and only if none is stranded. |
| `Liveness.StrandedForever` | src/helios_permissions/permission_client.py:266-270 | A call that waits for a leader which left its future pending is answered in no continuation. |
| `Coherence.QuiescentCoherence` | src/helios_permissions/cache/redis.py:134-189 | In every interleaving of reads, role changes, in-order write-throughs (which may skip versions whose own write failed, and may repeat) and safe removals, a membership whose current version has been written through is cached, if at all, with the current permissions of Helios. |
| `Coherence.RemovalExactness` | src/helios_permissions/cache/redis.py:134-138 | Which removals coherence survives: from a coherent state every continuation after dropping an entry stays coherent if and only if a write-through is due or every answer leaders hold for it equals the current one. |
| `Coherence.SafeRemovalByVersion` | src/helios_permissions/cache/redis.py:134-189 | The same by version: with none due, a removal is safe if every held answer is at least as recent as the last version written through, and only then when no two versions carry the same list. |
| `NeverBehind.CacheIsNeverBehind` | src/helios_permissions/cache/redis.py:163-189 | At all times, also while a write-through is due, a cached list is that of the last version written through or of a later one, if removals happen only while no held answer is older. |
| `NeverBehind.RemovalKeepsUpExactly` | src/helios_permissions/cache/redis.py:134-138 | That condition on a removal is exact: every continuation stays not behind if and only if it holds. |
| `NeverBehind.RecentFetchesAreNotBehind` | src/helios_permissions/cache/redis.py:134-189 | Removals while every fetch under way read a version no older than the last one written through meet it. |
| `Coherence.StaleAnswerLands` | src/helios_permissions/cache/redis.py:146-156 | The reason: a held answer that is not current reaches an empty slot within two events, since the key is absent for NX. |
| `Coherence.HeldAnswersAreGenuine` | src/helios_permissions/permission_client.py:278-295 | What a leader carries to the cache is what Helios answered with at the version it was read. |
| `Grants.JustifiedGrants` | src/helios_permissions/permission_client.py:139-140 | A True answer for (user, tenant, permission) in any run has an earlier active answer of Helios or write-through for that same pair that contains the permission. |
| `Grants.CachedListsHaveOrigins` | src/helios_permissions/permission_client.py:278-295 | Every cached list is the whole list of one earlier answer or write-through for that pair; an outage answer is never stored. |
| `Grants.WriteThroughSticks` | src/helios_permissions/cache/redis.py:163-189 | After a write-through the entry holds that list until the key is removed or overwritten by another write-through; no populate of any client changes it. |
| `Grants.StickyWriteThrough` | src/helios_permissions/permission_client.py:246-248 | Every call whose GET is served in that span answers with exactly that list. |
| `Grants.GetDecides` | src/helios_permissions/permission_client.py:246-248 | A call whose GET hits answers with what that GET read, whatever happens afterwards. |
| `Grants.HitsAreFreshAtTheGet` | src/helios_permissions/permission_client.py:245-248 | Under the conditions of quiescent coherence a hit answers with the permissions Helios had when its GET was served. |
| `Freshness.FetchDecides` | src/helios_permissions/permission_client.py:278-297 | A served fetch decides how its call ends: from then on the call carries that result, and ends with its list, its exception, or the fail-closed list. |
| `Freshness.LeaderAnswersAsServed` | src/helios_permissions/permission_client.py:292-297 | A leader answers with the permissions Helios had when its fetch was served. |
| `Freshness.AnswerIsDecidedByFetch` | src/helios_permissions/permission_client.py:250-297 | Every answer that is not a hit, a joined one included, is decided by one served fetch for the same membership, and if that brought an answer it is the list Helios had then. |
| `LateCalls.LateCallIsFreshIff` | src/helios_permissions/permission_client.py:245-270 | For a call that starts in any state of an orderly run in which the current list has been written through: however the run goes on while the list stays, the call answers with it (but for an outage) if and only if no leader of its client and key is on its way with another list in that state. |
| `LateCalls.CanAnswerWithOther` | src/helios_permissions/permission_client.py:251-254 | Beside such a leader the call can miss, join and answer with the other list, by steps of calls alone. |
| `LateCalls.EndedIsNeverJoined` | src/helios_permissions/permission_client.py:266-270 | A leader that has ended when a call starts is never joined by it. |
| `Freshness.ExplainMatchesAnswer` | src/helios_permissions/permission_client.py:157-201 | `explain` on the result that decided an answer agrees with the answer exactly when the body that lists the permission is neither of a fourth status nor without a role. |
| `FetchCount.FetchesAreBounded` | src/helios_permissions/permission_client.py:245-297 | Over any cache and in every run, the fetches one client starts for a key are at most 1 + removals + its failed fetches and populates + its late misses (leading when the key has been cached in the meantime). |
| `FetchCount.OneFetchIffNoLateMiss` | src/helios_permissions/permission_client.py:130-133 | Without removals and failures a client that asks at all asks 1 + late misses times; at most once if and only if it has no late miss. |
| `FetchCount.NoMoreFetchesIffNoneSleeps` | src/helios_permissions/permission_client.py:245-258 | In a reachable state in which the key is cached, no continuation without removals and failures starts a fetch of the client if and only if none of its calls has read a miss and not yet gone on. |
| `SharedKeys.SharedKeyAnswersForAnother` | src/helios_permissions/permission_client.py:246-248 | For any two memberships with one key: a run in which a call for the one is answered with the list of the other, although Helios does not know it as a member. |
| `SharedKeys.GrantsJustifiedIffSeparated` | src/helios_permissions/permission_client.py:251 | Grants for a set of memberships are justified in every run if and only if no two of them share a key. |
| `SharedKeys.JustifiedWithAnyOtherIffGood` | src/helios_permissions/cache/redis.py:95-97 | No other membership can spoil the grants of a given one if and only if its ids have no colon. |
| `InMemoryProtocol.InMemoryRunsRefine` | src/helios_permissions/cache/in_memory.py:52-69 | Every run over the in-memory cache, whose get and set do not suspend, is a run of the general protocol with the same end state. |
| `InMemoryProtocol.InMemoryRunIsOwned` | src/helios_permissions/permission_client.py:250-270 | So the ownership invariant holds over the in-memory cache as well. |
| `InMemoryProtocol.FetchBound` | src/helios_permissions/permission_client.py:245-297 | Over the in-memory cache one client starts at most 1 + removals + failed fetches fetches of a key, in every run. |
| `Anomalies.NxDoesNotPreventStalePopulate` | src/helios_permissions/cache/redis.py:136-138 | A run with in-order write-throughs, none of them due, after which the cache holds a value that is not current: fetch, change, write through, invalidate, populate. |
| `Anomalies.LeaderCanAnswerOlderThanCache` | src/helios_permissions/permission_client.py:292-297 | A leader whose NX populate lost to a write-through still answers with what it fetched. |
| `Anomalies.ColdKeyCanBeFetchedTwice` | src/helios_permissions/permission_client.py:130-133 | With a suspending GET one client can fetch a key twice in a run without removals or failures. |
| `Anomalies.FollowerCanGrantAfterRevocation` | src/helios_permissions/permission_client.py:245-254 | A call that starts after a revocation was written through, and whose GET fails, joins an older fetch and grants; nothing is removed and write-throughs are in order. |
| `Anomalies.MalformedAnswerStrandsFollower` | src/helios_permissions/helios/client.py:211-218 | An undecodable body leaves a follower waiting for a future nobody will settle. |
| `Helios.ResponsesAreReadExactly` | src/helios_permissions/helios/client.py:186-218 | Which responses settle a membership, and how: exactly a 404 (no membership, whatever its body) and a 2xx with a decodable body (that body); an outage is exactly a network error or any other status. |
| `Helios.GrantsComeFromActiveAnswers` | src/helios_permissions/helios/client.py:186-218 | A response yields a permission if and only if it is 2xx with an active body that lists it. |
| `Helios.ExplanationIsExact` | src/helios_permissions/permission_client.py:157-201 | The role of an explanation is the one the result carries if it is a known one, and each reason has exactly its own cause. |
| `Responses.FailedRequestLeavesCache` | src/helios_permissions/permission_client.py:280-290 | In every run a request that fails, with a 5xx say, leaves the cache as it was: no event of its call changes it, and the call ends with the fail-closed list or with HeliosUnreachableError, as the client was made. |
| `Responses.CachedListsRestOnResponses` | src/helios_permissions/permission_client.py:278-295 | Every cached list is the one a 404 or 2xx response to a call for that membership stands for, or was written through. |
| `Responses.DecisionRestsOnResponse` | src/helios_permissions/permission_client.py:139-140 | For a call that did not hit, `caller_has_permission` is True if and only if the response that decided it is 2xx with an active body that lists the permission; an active list is answered verbatim. |
| `Responses.HitDecidesExactly` | src/helios_permissions/permission_client.py:246-248 | For a call that hits, it is True if and only if the list its GET read contains the permission. |
| `Helios.ExplainAgreesWithDecision` | src/helios_permissions/permission_client.py:157-201 | `explain` and the decision path agree on a permission if and only if the body that lists it is neither of a fourth status (only `explain` grants) nor without a role (`explain` raises). The exception propagates exactly for an undecodable body or a missing field. |
| `Keys.UserColonFreeInjective` | src/helios_permissions/cache/in_memory.py:34-36 | For colon-free users the joined key determines the pair. |
| `Keys.TenantColonFreeInjective` | src/helios_permissions/cache/in_memory.py:34-36 | For colon-free tenants too. |
| `Keys.ColonFreeUsersAreSeparated` | src/helios_permissions/permission_client.py:251 | Either condition on a set of memberships gives the key separation the protocol theorems ask for. |
| `Keys.JoinedKeysCanCollide` | src/helios_permissions/cache/redis.py:95-97 | Every pair with a colon in an id shares both its keys with another pair. |
| `Keys.KeyIsOwnIffGood` | src/helios_permissions/cache/redis.py:95-97 | A pair has keys of its own, in either cache, if and only if neither id has a colon. |
| `Keys.RedisKeyInjective` | src/helios_permissions/cache/redis.py:95-97 | For colon-free ids the Redis key determines the pair. |
| `Keys.UserPrefixSelectsUser` | src/helios_permissions/cache/in_memory.py:38-40 | The prefix test of a user-wide invalidation selects exactly the keys of that user. |
| `Keys.TenantSuffixSelectsTenant` | src/helios_permissions/cache/in_memory.py:42-44 | The suffix test of a tenant-wide invalidation selects exactly the keys of that tenant. |
| `InMemoryCache.InMemoryPermissionCache.constructor` | src/helios_permissions/cache/in_memory.py:25-32 | A new cache is empty. |
| `InMemoryCache.InMemoryPermissionCache.Get` | src/helios_permissions/cache/in_memory.py:52-61 | Returns a live entry; drops the entry when it finds it expired, and no other. |
| `InMemoryCache.InMemoryPermissionCache.Set` | src/helios_permissions/cache/in_memory.py:63-69 | NX: a live entry stays; otherwise the new entry, dated by the second clock reading. |
| `InMemoryCache.InMemoryPermissionCache.WriteThrough` | src/helios_permissions/cache/in_memory.py:71-75 | Overwrites unconditionally. |
| `InMemoryCache.InMemoryPermissionCache.Invalidate` | src/helios_permissions/cache/in_memory.py:83-84 | Drops one entry. |
| `InMemoryCache.InMemoryPermissionCache.InvalidateUser` | src/helios_permissions/cache/in_memory.py:78-82 | The key loop leaves exactly the entries without the user's prefix. |
| `InMemoryCache.InMemoryPermissionCache.InvalidateTenant` | src/helios_permissions/cache/in_memory.py:86-90 | The key loop leaves exactly the entries without the tenant's suffix. |
| `InMemoryCache.InvalidateUserIsExact` | src/helios_permissions/cache/in_memory.py:77-82 | For colon-free users the loop removes exactly the user's entries and leaves all others as they were. |
| `InMemoryCache.InvalidateTenantIsExact` | src/helios_permissions/cache/in_memory.py:86-90 | The same for tenants. |
| `InMemoryCache.LazyExpiryRefinesEager` | src/helios_permissions/cache/in_memory.py:46-90 | In every history with a monotone clock the dictionary with lazy expiry returns what a map on pairs returns that drops entries at their deadline. |
| `InMemoryCache.GetDropsExactlyExpired` | src/helios_permissions/cache/in_memory.py:57-61 | A `get` drops the entry it looks for exactly if its deadline is not after the clock, and leaves all others. |
| `Retention.GetReturnsExactly` | src/helios_permissions/cache/in_memory.py:46-90 | What a `get` returns in terms of the history alone, both ways: a list if and only if an earlier event holds it, a write-through always and a `set` when nothing was held, until it is cleared or `later + ttl` is reached. |
| `Retention.RedisGetReturnsExactly` | src/helios_permissions/cache/redis.py:107-189 | The same for the Redis cache, with `now + 1000 * ttl_seconds`, and without end when `ttl_seconds` is not positive. |
| `Retention.StoredIsKept` | src/helios_permissions/cache/in_memory.py:49-75 | An entry is kept for its whole time-to-live: every `get` before its end returns exactly that list unless something cleared it. |
| `InMemoryCache.GetReturnsRecentWrite` | src/helios_permissions/cache/in_memory.py:46-75 | What `get` returns was offered for that pair strictly less than the time-to-live ago and not cleared since. |
| `Json.StringRoundTrip` | src/helios_permissions/cache/redis.py:147 | The ASCII-only string literal `json.dumps` writes (section 7 of RFC 8259, surrogate pairs included) decodes to the string, whatever follows it. |
| `Json.JsonRoundTrip` | src/helios_permissions/cache/redis.py:119 | Every list of permissions written to the cache is read back as that list. |
| `JsonGrammar.LoadsExactlyArrays` | src/helios_permissions/cache/redis.py:118-132 | Which texts decode, and to what: a text yields a list if and only if it is, up to white space, an array of string literals that denote it, by a grammar of sections 2, 5 and 7 of RFC 8259 that does not name the decoder. |
| `JsonGrammar.DumpsIsAsciiArray` | src/helios_permissions/cache/redis.py:147 | What is written is such an array for the list, in printable ASCII. |
| `Glob.MatchWithoutStar` | src/helios_permissions/cache/redis.py:99-105 | Without a star a pattern matches the texts of its length that agree with it but for the question marks. |
| `Glob.MatchOfStar` | src/helios_permissions/cache/redis.py:99-105 | A star stands for any text: what follows it matches some rest. |
| `Glob.UserPatternIsPrefix` | src/helios_permissions/cache/redis.py:99-101 | The user pattern matches exactly the keys with the user's prefix. |
| `Glob.TenantPatternIsSuffix` | src/helios_permissions/cache/redis.py:103-105 | The tenant pattern matches exactly the prefixed keys with the tenant's suffix. |
| `Glob.UserPatternSelectsUser` | src/helios_permissions/cache/redis.py:99-101 | For colon-free and glob-free users: exactly the keys of that user. |
| `Glob.TenantPatternSelectsTenant` | src/helios_permissions/cache/redis.py:103-105 | For colon-free and glob-free tenants: exactly the keys of that tenant. |
| `RedisCache.RedisPermissionCache.Get` | src/helios_permissions/cache/redis.py:107-132 | A hit exactly when the call is answered and the value is an array of strings, and then with that list; a fault, an absent key and any other text are a miss. It raises exactly when `json.loads` raises something other than JSONDecodeError, which no such array makes it do. |
| `RedisCache.RedisPermissionCache.Set` | src/helios_permissions/cache/redis.py:134-161 | Always returns; the store is unchanged or gained the JSON value under NX, with a deadline only for a positive time-to-live. |
| `RedisCache.RedisPermissionCache.WriteThrough` | src/helios_permissions/cache/redis.py:163-189 | Always returns; the store is unchanged or holds the new value. |
| `RedisCache.RedisPermissionCache.Invalidate` | src/helios_permissions/cache/redis.py:199-211 | Returns with the entry gone and its count, or raises with the store unchanged or the entry gone. |
| `RedisCache.RedisPermissionCache.ScanAndDelete` | src/helios_permissions/cache/redis.py:228-244 | The cursor loop ends normally when every call is answered, with the contents and the total of all rounds; otherwise it raises in some round. |
| `RedisCache.RedisPermissionCache.InvalidateUser` | src/helios_permissions/cache/redis.py:191-211 | Given the SCAN guarantee, with concurrent writers and faults: each key nobody else touches is gone on return if it matches, and unchanged if not; on a raise only matching keys may be gone. With no other clients the store loses exactly the matches and the result is their number. |
| `RedisCache.RedisPermissionCache.InvalidateTenant` | src/helios_permissions/cache/redis.py:213-226 | The same for the tenant pattern. |
| `RedisCache.KeyFate` | src/helios_permissions/cache/redis.py:234-244 | A key nobody else touches is as it was until a page contains it, and gone from then on. |
| `RedisCache.IterationReturned` | src/helios_permissions/cache/redis.py:228-244 | A complete iteration removes every matching key present throughout and changes no non-matching key. |
| `RedisCache.IterationRaised` | src/helios_permissions/cache/redis.py:220-226 | An iteration that raises in any round has removed matching keys only. |
| `RedisCache.ScanDeletesExactlyTheMatches` | src/helios_permissions/cache/redis.py:228-244 | Without concurrent writers the total is the number of distinct matching keys removed, however often SCAN repeats one. |
| `CacheEquivalence.RedisRefinesTimedMap` | src/helios_permissions/cache/redis.py:95-244 | The Redis cache, with JSON values, glob patterns and NX, behaves as the timed map on pairs. |
| `CacheEquivalence.CachesAreEquivalent` | src/helios_permissions/cache/cache.py:15-81 | Every history of operations is observed alike on both caches, for colon-free and glob-free ids and the same time-to-live; when entries expire, `set` is taken to read its clock once. |
| `CacheEquivalence.TwoReadingsAgreeIff` | src/helios_permissions/cache/in_memory.py:63-69 | That condition is exact: one `set` and every later `get` are observed alike if and only if the two clock readings of the in-memory `set` are the same or entries do not expire. |
| `ProtocolCache.EventsAreOperations` | src/helios_permissions/cache/redis.py:107-189 | A cache event of the protocol is an operation of that timed map, with the same reply. |
| `ProtocolCache.InvalidationsAreRemovals` | src/helios_permissions/cache/redis.py:191-226 | Each invalidation is a removal of the protocol. |
| `ProtocolCache.ExpiryIsRemoval` | src/helios_permissions/cache/in_memory.py:46-60 | So is the passing of time. |
| `TimedProtocol.TimedRunsRefine` | src/helios_permissions/permission_client.py:239-297 | Every run with a clock over the timed map, for any time-to-live, is a run of the protocol with the same events in the same order and removals in between, ending with the same calls, clients and database and a cache that shows the same. |
| `TimedCoherence.TimedQuiescentCoherence` | src/helios_permissions/cache/redis.py:134-189 | With a clock: if entries expire and are invalidated only when a write-through is due or every held answer is current, a live entry with none due shows the current permissions. |
| `TimedCoherence.TimedCacheIsNeverBehind` | src/helios_permissions/cache/redis.py:163-189 | With a clock: if they do so only while no held answer is older than the last write-through, a live entry is never behind it. |
| `TimedProtocol.TimedGrantsAreJustified` | src/helios_permissions/permission_client.py:139-140 | So grants are justified over an expiring cache too. |
| `HeliosPath.QuoteRoundTrip` | src/helios_permissions/helios/client.py:165 | Percent-encoding decodes back, for all byte strings. |
| `HeliosPath.QuoteEmitsOnlyUnreserved` | src/helios_permissions/helios/client.py:165-166 | Encoded ids hold unreserved characters and percent signs only. |
| `HeliosPath.ByteIsQuotedExactly` | src/helios_permissions/helios/client.py:165-166 | A byte is sent as it is if it is unreserved, and otherwise as a percent sign and two upper-case digits. |
| `HeliosPath.QuoteEscapesOnlyReserved` | src/helios_permissions/helios/client.py:165-166 | Nothing is escaped without need: the text is two characters longer for each byte that is not unreserved. |
| `HeliosPath.UnreservedIdIsSentAsItIs` | src/helios_permissions/helios/client.py:165-166 | An id of unreserved bytes is sent as it is. |
| `HeliosPath.SignedPathIsPrefixAndUser` | src/helios_permissions/helios/client.py:171-175 | The split at the first question mark yields exactly the prefix and the encoded user, for all ids. |
| `HeliosPath.PathRoundTrip` | src/helios_permissions/helios/client.py:164-167 | User and tenant can be recovered from the path, for all byte strings. |
| `HeliosPath.PathsAreDistinct` | src/helios_permissions/helios/client.py:164-176 | Different memberships have different paths; different users have different signed paths. |
| `Contract.CheckEntry` | scripts/codegen-permissions.py:91-105 | Accepts an entry if and only if it is a named object with a valid scope whose suffix agrees with it; otherwise the error is the one for the rule it breaks, and the kinds of breach exclude each other. |
| `Contract.CheckService` | scripts/codegen-permissions.py:90-106 | The inner loop on top of earlier entries: accepts exactly when all entries are right and extends the dictionary last-wins; otherwise it stops at the first wrong entry. |
| `Contract.CheckPermissions` | scripts/codegen-permissions.py:85-106 | The first loop over all services: exact acceptance, the resulting dictionary, and the first error in document order. |
| `Contract.CheckRole` | scripts/codegen-permissions.py:108-124 | Accepts a role exactly when every permission is known and neither self nor project, and transfer occurs in OWNER only; an error is about its first bad permission, or transfer when there is none. |
| `Contract.CheckRoles` | scripts/codegen-permissions.py:108-124 | The second loop stops at the first bad role. |
| `Contract.Validate` | scripts/codegen-permissions.py:65-134 | The validator finishes if and only if the contract meets the declarative rules; a failure names the first broken rule in document order. |
| `ContractRules.AcceptedIffMeetsRules` | scripts/codegen-permissions.py:65-134 | Acceptance in terms of the document alone: all fields present, every entry right, for every role permission the last entry that names it lists `platform` or `platform/project`, transfer in OWNER only, and the last entry for the switch permission lists `self`. |
| `ContractRules.FlatIsLastListed` | scripts/codegen-permissions.py:85-106 | The dictionary gives a name the scope of the last entry for it, by its position in the document. |
| `Contract.FirstErrorIsUnique` | scripts/codegen-permissions.py:65-134 | That first error is unique, and a contract that has one does not meet the rules. |
| `Contract.PermissionsOkMeans` | scripts/codegen-permissions.py:87-106 | The nested loops over services and lists check exactly the entries of the whole document. |
| `Contract.FlatIsLastWins` | scripts/codegen-permissions.py:106 | The dictionary gives a name the scope of the last entry that lists it. |
| `Codegen.FillBuckets` | scripts/codegen-py.mjs:37-48 | The pushing loops fill each array with the names of its scope in document order. |
| `Codegen.PushLines` | scripts/codegen-py.mjs:143-146 | One bucket becomes its lines, after those already there. |
| `Codegen.Generate` | scripts/codegen-py.mjs:37-169 | For an accepted contract the loops yield the specified tables, or stop with a TypeError exactly when a role has no permission list. |
| `Codegen.BucketsArePermutation` | scripts/codegen-py.mjs:37-48 | The four buckets together are a permutation of the listed permissions. |
| `Codegen.PermScopeIsHighest` | scripts/codegen-py.mjs:142-147 | `PERM_SCOPE` gives a name, among all scopes it is listed with, the one whose bucket comes last. |
| `Codegen.RolesHoldNoSelfPermission` | scripts/codegen-permissions.py:113-117 | No role of an accepted contract holds a permission the generated tables call `self`, and all its permissions are known to them. |
| `Codegen.GrantableRolePermissions` | src/helios_permissions/role_permissions.py:383-388 | A role permission of an accepted contract is platform-grantable if and only if it is listed as `platform/project` or not listed as `project`. |
| `Codegen.TablesAgreeExactly` | scripts/codegen-py.mjs:142-147 | `PERM_SCOPE` is the dictionary of the validator if and only if for every name the last entry is also the one of its last bucket. |
| `Codegen.UniqueScopesGiveFaithfulTables` | scripts/codegen-py.mjs:142-169 | With unique scopes the buckets are disjoint, `PERM_SCOPE` equals the contract scopes and every role permission is platform-grantable. |
| `Codegen.AcceptedContractBreaksTables` | scripts/codegen-permissions.py:106 | A family of accepted contracts (one name listed as `project`, then as `platform`) with a role permission that is not platform-grantable. |
| `Codegen.RoleTableIsExact` | src/helios_permissions/role_permissions.py:367-373 | The generated role table is the contract, both ways: a lookup fails exactly for undefined roles, and otherwise says whether the last definition of the role lists the permission. |
| `Codegen.TablesListInOrder` | scripts/codegen-py.mjs:37-48 | Each of the four lists holds exactly the names listed with its scope text, in document order. |
| `Codegen.RolesMayHoldDual` | scripts/codegen-permissions.py:109-122 | A family of accepted contracts in which a role holds a `platform/project` permission, grantable by both paths. |
| `Codegen.OnlyOwnerTransfers` | scripts/codegen-permissions.py:123-124 | In the generated role table only OWNER holds the transfer permission, and every held permission is known and not `self`. |
| `Codegen.GrantPathsPartition` | src/helios_permissions/role_permissions.py:376-399 | For the lookups over any table: a known permission is `self` or grantable, by both paths exactly if dual; an unknown one by the tenant path only. |
| `Codegen.GrantPathsByListing` | src/helios_permissions/role_permissions.py:376-399 | For an accepted contract the three lookups in terms of the listing: self by the suffix, platform-grantable when listed dual, or platform and not project, tenant-grantable when unlisted, dual or project. |

## Left out

- Request signing, headers, timestamps, correlation ids and httpx: cryptography and network I/O.
- Real Redis and asyncio internals: the server is a map with GET, SET NX, DEL and SCAN by its documented guarantee; the event loop is an arbitrary choice among the events that can happen.
- A SCAN iteration is a finite list of rounds that the server ends with cursor 0; a server that never returns cursor 0 is not modelled.
- Cancellation of calls, and callers that change a list shared by coalesced reads.
- Cached JSON that is an array with elements other than strings: the code returns it as it is, the model counts it as a miss; no operation writes one. A GET reply that is not text is not modelled.
- Lone surrogates in permission names, and the UTF-8 encoding of ids before percent-encoding (ids are bytes there).
- Bracket classes and backslash escapes in glob patterns: the selection lemmas exclude those characters from ids, as they exclude `*` and `?`.
- Clock and time-to-live are real numbers; floating-point rounding of `time.time() * 1000.0` is not modelled.
- `CacheEquivalence.CachesAreEquivalent`: covers histories without faults, in which a `set` that stores an expiring entry reads the clock once; `TwoReadingsAgreeIff` shows that this is needed.
- The protocol has no GET that raises: `json.loads` raises something other than `JSONDecodeError` only on texts that no operation writes (`RedisCache.RedisPermissionCache.Get`).
- `RedisCache` takes `set` and `write_through` lists to be encodable as JSON.
- An `active` body without permissions, a body without a status and a body that is not an object make both paths raise, and are part of `Malformed`.
- `_parse_role`: the closed set of roles is a parameter of `Explain`.
- `HeliosPath` keeps the fixed prefix of the code, `/internal/permissions/`, not the route named in the package's own documentation.
- Role definitions that are not objects and scopes that are not strings: the validator raises an unrelated TypeError or AttributeError there.
- Emission of Python source text: names and roles are taken to hold no quote, backslash or line break, which would break the emitted literals. The contract download, the `node` subprocess and file writes; names that JavaScript would reorder as integer keys of an object.
- The concrete v1.5.0 table: the theorems quantify over all contracts.
- `factory.py`, the logger, `size()`, `clear()` and the package's re-exports: wiring or one-branch facts.
