/** Cache and lock keys: how `(user, tenant)` pairs are joined into strings. */
module Keys {
  import opened Prelude

  datatype Pair = Pair(user: string, tenant: string)

  type Key = string

  const KEY_PREFIX := "helios:perms:"

  /** The in-memory cache key, and the client's in-flight lock key. */
  function KeyOf(id: Pair): Key {
    id.user + ":" + id.tenant
  }

  function RedisKey(id: Pair): Key {
    KEY_PREFIX + id.user + ":" + id.tenant
  }

  function UserPrefix(user: string): string {
    user + ":"
  }

  function TenantSuffix(tenant: string): string {
    ":" + tenant
  }

  /** Both parts are free of the separator. */
  predicate Good(id: Pair) {
    ColonFree(id.user) && ColonFree(id.tenant)
  }

  /** No two pairs of `ids` share a joined key. */
  ghost predicate Separated(ids: set<Pair>) {
    forall p, q | p in ids && q in ids && KeyOf(p) == KeyOf(q) :: p == q
  }

  /** Joining is injective as soon as the users are colon-free: the first colon is the separator. */
  lemma UserColonFreeInjective(p: Pair, q: Pair)
    requires ColonFree(p.user) && ColonFree(q.user)
    ensures KeyOf(p) == KeyOf(q) <==> p == q
  {
    if KeyOf(p) == KeyOf(q) {
      assert KeyOf(p)[|p.user|] == ':' && KeyOf(q)[|q.user|] == ':';
      assert |p.user| == |q.user|;
      assert p.user == KeyOf(p)[..|p.user|] && q.user == KeyOf(q)[..|q.user|];
      assert p.tenant == KeyOf(p)[|p.user| + 1..] && q.tenant == KeyOf(q)[|q.user| + 1..];
    }
  }

  /** Joining is also injective when the tenants are colon-free: the last colon is the separator. */
  lemma TenantColonFreeInjective(p: Pair, q: Pair)
    requires ColonFree(p.tenant) && ColonFree(q.tenant)
    ensures KeyOf(p) == KeyOf(q) <==> p == q
  {
    if KeyOf(p) == KeyOf(q) {
      var k := KeyOf(p);
      assert k[|p.user|] == ':' && k[|q.user|] == ':';
      assert forall i | |p.user| < i < |k| :: k[i] == p.tenant[i - |p.user| - 1];
      assert forall i | |q.user| < i < |k| :: k[i] == q.tenant[i - |q.user| - 1];
      assert p.user == k[..|p.user|] && q.user == k[..|q.user|];
      assert p.tenant == k[|p.user| + 1..] && q.tenant == k[|q.user| + 1..];
    }
  }

  lemma ColonFreeUsersAreSeparated(ids: set<Pair>)
    requires (forall p | p in ids :: ColonFree(p.user)) || (forall p | p in ids :: ColonFree(p.tenant))
    ensures Separated(ids)
  {
    forall p, q | p in ids && q in ids && KeyOf(p) == KeyOf(q)
      ensures p == q
    {
      if forall r | r in ids :: ColonFree(r.user) {
        UserColonFreeInjective(p, q);
      } else {
        TenantColonFreeInjective(p, q);
      }
    }
  }

  /** Any pair with a colon in one of its parts shares both its keys with another pair. */
  lemma JoinedKeysCanCollide(p: Pair) returns (q: Pair)
    requires !Good(p)
    ensures q != p && KeyOf(q) == KeyOf(p) && RedisKey(q) == RedisKey(p)
  {
    if !ColonFree(p.user) {
      var i :| 0 <= i < |p.user| && p.user[i] == ':';
      q := Pair(p.user[..i], p.user[i + 1..] + ":" + p.tenant);
      assert p.user == p.user[..i] + ":" + p.user[i + 1..];
    } else {
      var i :| 0 <= i < |p.tenant| && p.tenant[i] == ':';
      q := Pair(p.user + ":" + p.tenant[..i], p.tenant[i + 1..]);
      assert p.tenant == p.tenant[..i] + ":" + p.tenant[i + 1..];
    }
    RedisKeyIsPrefixedKey(p);
    RedisKeyIsPrefixedKey(q);
    assert KeyOf(q) == KeyOf(p);
  }

  lemma OneColonOnePair(p: Pair, q: Pair)
    requires Good(p) && KeyOf(q) == KeyOf(p)
    ensures q == p
  {
    var k := KeyOf(p);
    assert k[|q.user|] == ':';
    assert forall i | 0 <= i < |p.user| :: k[i] == p.user[i];
    assert forall i | |p.user| < i < |k| :: k[i] == p.tenant[i - |p.user| - 1];
    assert p.user == k[..|p.user|] && q.user == k[..|q.user|];
    assert p.tenant == k[|p.user| + 1..] && q.tenant == k[|q.user| + 1..];
  }

  /** Exactly the pairs without a colon have keys of their own, in either cache. */
  lemma KeyIsOwnIffGood(p: Pair)
    ensures (forall q: Pair | KeyOf(q) == KeyOf(p) :: q == p) <==> Good(p)
    ensures (forall q: Pair | RedisKey(q) == RedisKey(p) :: q == p) <==> Good(p)
  {
    if Good(p) {
      forall q: Pair | KeyOf(q) == KeyOf(p) || RedisKey(q) == RedisKey(p)
        ensures q == p
      {
        SameRedisKeySameKey(p, q);
        OneColonOnePair(p, q);
      }
    } else {
      var q := JoinedKeysCanCollide(p);
    }
  }

  lemma SameRedisKeySameKey(p: Pair, q: Pair)
    ensures RedisKey(p) == RedisKey(q) <==> KeyOf(p) == KeyOf(q)
  {
    RedisKeyIsPrefixedKey(p);
    RedisKeyIsPrefixedKey(q);
    if RedisKey(p) == RedisKey(q) {
      assert KeyOf(p) == RedisKey(p)[|KEY_PREFIX|..] && KeyOf(q) == RedisKey(q)[|KEY_PREFIX|..];
    }
  }

  lemma RedisKeyIsPrefixedKey(id: Pair)
    ensures RedisKey(id) == KEY_PREFIX + KeyOf(id)
  {
  }

  lemma RedisKeyInjective(p: Pair, q: Pair)
    requires Good(p) && Good(q)
    ensures RedisKey(p) == RedisKey(q) <==> p == q
  {
    SameRedisKeySameKey(p, q);
    UserColonFreeInjective(p, q);
  }

  /** For colon-free users the prefix test of the user-wide invalidation selects exactly that user. */
  lemma UserPrefixSelectsUser(id: Pair, user: string)
    requires ColonFree(id.user) && ColonFree(user)
    ensures StartsWith(KeyOf(id), UserPrefix(user)) <==> id.user == user
  {
    var k := KeyOf(id);
    if StartsWith(k, UserPrefix(user)) {
      var same := Pair(user, k[|user| + 1..]);
      assert KeyOf(same) == UserPrefix(user) + k[|user| + 1..] == k;
      UserColonFreeInjective(id, same);
    }
    if id.user == user {
      assert k == UserPrefix(user) + id.tenant;
    }
  }

  /** For colon-free tenants the suffix test of the tenant-wide invalidation selects exactly that tenant. */
  lemma TenantSuffixSelectsTenant(id: Pair, tenant: string)
    requires ColonFree(id.tenant) && ColonFree(tenant)
    ensures EndsWith(KeyOf(id), TenantSuffix(tenant)) <==> id.tenant == tenant
  {
    var k := KeyOf(id);
    if EndsWith(k, TenantSuffix(tenant)) {
      var same := Pair(k[..|k| - |tenant| - 1], tenant);
      assert KeyOf(same) == k[..|k| - |tenant| - 1] + TenantSuffix(tenant) == k;
      TenantColonFreeInjective(id, same);
    }
    if id.tenant == tenant {
      assert k == id.user + TenantSuffix(tenant);
    }
  }
}
