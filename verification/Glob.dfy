/** The glob patterns of the Redis invalidations, against a recursive matcher. */
module Glob {
  import opened Prelude
  import opened Keys

  /** Redis's matching of `*`, `?` and literal characters. */
  predicate Match(pattern: string, s: string)
    decreases |pattern| + |s|
  {
    if pattern == "" then s == ""
    else if pattern[0] == '*' then Match(pattern[1..], s) || (s != "" && Match(pattern, s[1..]))
    else s != "" && (pattern[0] == '?' || pattern[0] == s[0]) && Match(pattern[1..], s[1..])
  }

  /** No character that has a special meaning in a pattern. */
  predicate GlobFree(s: string) {
    '*' !in s && '?' !in s && '[' !in s && ']' !in s && '\\' !in s
  }

  function UserPattern(user: string): string {
    KEY_PREFIX + user + ":*"
  }

  function TenantPattern(tenant: string): string {
    KEY_PREFIX + "*:" + tenant
  }

  lemma {:induction false} LiteralPrefix(literal: string, pattern: string, s: string)
    requires GlobFree(literal)
    ensures Match(literal + pattern, s) <==> StartsWith(s, literal) && Match(pattern, s[|literal|..])
  {
    if literal == "" {
      assert literal + pattern == pattern && s[0..] == s;
    } else {
      var full := literal + pattern;
      assert full[0] == literal[0] && full[1..] == literal[1..] + pattern;
      if s != "" && s[0] == literal[0] {
        LiteralPrefix(literal[1..], pattern, s[1..]);
        assert s == [s[0]] + s[1..] && literal == [literal[0]] + literal[1..];
        assert StartsWith(s[1..], literal[1..]) ==> s[1..][|literal| - 1..] == s[|literal|..];
      }
    }
  }

  /** Without a star, a pattern matches the texts of its length that agree but for the question marks. */
  lemma {:induction false} MatchWithoutStar(pattern: string, s: string)
    requires '*' !in pattern
    ensures Match(pattern, s) <==>
            |s| == |pattern| && forall k | 0 <= k < |s| :: pattern[k] == '?' || pattern[k] == s[k]
    decreases |pattern|
  {
    if pattern != "" && s != "" {
      MatchWithoutStar(pattern[1..], s[1..]);
      assert forall k | 0 < k < |s| && |s| == |pattern| :: pattern[k] == pattern[1..][k - 1] && s[k] == s[1..][k - 1];
      assert forall k | 0 <= k < |s| - 1 && |s| == |pattern| ::
          pattern[1..][k] == pattern[k + 1] && s[1..][k] == s[k + 1];
    }
  }

  /** A star stands for any text, also an empty one: what follows it matches some rest. */
  lemma {:induction false} MatchOfStar(pattern: string, s: string)
    ensures Match("*" + pattern, s) <==> exists k | 0 <= k <= |s| :: Match(pattern, s[k..])
    decreases |s|
  {
    assert ("*" + pattern)[1..] == pattern && s[0..] == s;
    if s != "" {
      var rest := s[1..];
      MatchOfStar(pattern, rest);
      assert forall k | 0 <= k <= |rest| :: rest[k..] == s[k + 1..];
      if k :| 0 < k <= |s| && Match(pattern, s[k..]) {
        assert rest[k - 1..] == s[k..];
      }
    }
  }

  lemma {:induction false} StarMatchesAll(s: string)
    ensures Match("*", s)
  {
    if s == "" {
      assert "*"[1..] == "";
    } else {
      StarMatchesAll(s[1..]);
    }
  }

  lemma LiteralMatchesItself(literal: string, s: string)
    requires GlobFree(literal)
    ensures Match(literal, s) <==> s == literal
  {
    LiteralPrefix(literal, "", s);
    assert literal + "" == literal;
    if StartsWith(s, literal) && s[|literal|..] == "" {
      assert s == literal + s[|literal|..];
    }
  }

  lemma {:induction false} StarThenLiteral(literal: string, s: string)
    requires GlobFree(literal)
    ensures Match("*" + literal, s) <==> EndsWith(s, literal)
  {
    LiteralMatchesItself(literal, s);
    assert ("*" + literal)[1..] == literal;
    if s != "" {
      StarThenLiteral(literal, s[1..]);
      if |literal| < |s| {
        assert s[1..][|s| - 1 - |literal|..] == s[|s| - |literal|..];
      }
    }
    if |literal| == |s| {
      assert s[0..] == s;
    }
  }

  /** The user pattern matches exactly the keys that begin with the user's prefix. */
  lemma UserPatternIsPrefix(user: string, s: string)
    requires GlobFree(user)
    ensures Match(UserPattern(user), s) <==> StartsWith(s, KEY_PREFIX + UserPrefix(user))
  {
    var literal := KEY_PREFIX + UserPrefix(user);
    assert UserPattern(user) == literal + "*";
    LiteralPrefix(literal, "*", s);
    if StartsWith(s, literal) {
      StarMatchesAll(s[|literal|..]);
    }
  }

  /** The tenant pattern matches exactly the prefixed keys that end with the tenant's suffix. */
  lemma TenantPatternIsSuffix(tenant: string, s: string)
    requires GlobFree(tenant)
    ensures Match(TenantPattern(tenant), s) <==>
            StartsWith(s, KEY_PREFIX) && EndsWith(s[|KEY_PREFIX|..], TenantSuffix(tenant))
  {
    assert TenantPattern(tenant) == KEY_PREFIX + ("*" + TenantSuffix(tenant));
    LiteralPrefix(KEY_PREFIX, "*" + TenantSuffix(tenant), s);
    if StartsWith(s, KEY_PREFIX) {
      StarThenLiteral(TenantSuffix(tenant), s[|KEY_PREFIX|..]);
    }
  }

  /** For a plain user the pattern selects exactly that user's keys among the cache keys. */
  lemma UserPatternSelectsUser(user: string, id: Pair)
    requires ColonFree(user) && GlobFree(user) && ColonFree(id.user)
    ensures Match(UserPattern(user), RedisKey(id)) <==> id.user == user
  {
    UserPatternIsPrefix(user, RedisKey(id));
    RedisKeyIsPrefixedKey(id);
    assert StartsWith(RedisKey(id), KEY_PREFIX + UserPrefix(user)) <==> StartsWith(KeyOf(id), UserPrefix(user)) by {
      assert RedisKey(id)[|KEY_PREFIX|..] == KeyOf(id);
      assert (KEY_PREFIX + UserPrefix(user))[|KEY_PREFIX|..] == UserPrefix(user);
    }
    UserPrefixSelectsUser(id, user);
  }

  /** For a plain tenant the pattern selects exactly that tenant's keys among the cache keys. */
  lemma TenantPatternSelectsTenant(tenant: string, id: Pair)
    requires ColonFree(tenant) && GlobFree(tenant) && ColonFree(id.tenant)
    ensures Match(TenantPattern(tenant), RedisKey(id)) <==> id.tenant == tenant
  {
    TenantPatternIsSuffix(tenant, RedisKey(id));
    RedisKeyIsPrefixedKey(id);
    assert RedisKey(id)[|KEY_PREFIX|..] == KeyOf(id);
    TenantSuffixSelectsTenant(id, tenant);
  }
}
