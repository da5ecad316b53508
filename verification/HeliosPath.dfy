/**
  The request path of the permission endpoint: percent-encoding as in sections 2.1 and 2.3 of
  RFC 3986 (Python's `quote` with no safe characters), and the split at the first question mark.
  Ids are taken as their bytes.
 */
module HeliosPath {
  import opened Prelude

  type Byte = n: nat | n < 256

  type Bytes = seq<Byte>

  const PATH_PREFIX := "/internal/permissions/"
  const QUERY := "?tenantId="

  /** Section 2.3: letters, digits, hyphen, period, underscore, tilde. */
  predicate Unreserved(c: char) {
    'A' <= c <= 'Z' || 'a' <= c <= 'z' || '0' <= c <= '9' || c == '-' || c == '.' || c == '_' || c == '~'
  }

  function UpperHex(n: nat): (c: char)
    requires n < 16
    ensures Unreserved(c)
  {
    if n < 10 then '0' + n as char else 'A' + (n - 10) as char
  }

  function QuoteByte(b: Byte): string {
    if b < 128 && Unreserved(b as char) then [b as char] else ['%', UpperHex(b / 16), UpperHex(b % 16)]
  }

  /** `quote(id, safe='')` on the bytes of an id. */
  function Quote(bytes: Bytes): string {
    if bytes == [] then "" else QuoteByte(bytes[0]) + Quote(bytes[1..])
  }

  /** A receiver's percent-decoding; `None` on a malformed escape or a character outside ASCII. */
  function Unquote(s: string): Option<Bytes>
    decreases |s|
  {
    if s == "" then Some([])
    else if s[0] == '%' then
      if |s| < 3 then None
      else match (HexValue(s[1]), HexValue(s[2]), Unquote(s[3..]))
        case (Some(high), Some(low), Some(rest)) => Some([high * 16 + low] + rest)
        case _ => None
    else if s[0] as nat >= 128 then None
    else match Unquote(s[1..])
      case Some(rest) => Some([s[0] as nat] + rest)
      case None => None
  }

  /** The path and query of one request. */
  function RequestPath(user: Bytes, tenant: Bytes): string {
    PATH_PREFIX + Quote(user) + QUERY + Quote(tenant)
  }

  /** `s.split(c, 1)`: the text before the first `c`, and the text after it if there is one. */
  function SplitAtFirst(s: string, c: char): (string, Option<string>) {
    if s == "" then ("", None)
    else if s[0] == c then ("", Some(s[1..]))
    else
      var rest := SplitAtFirst(s[1..], c);
      ([s[0]] + rest.0, rest.1)
  }

  /** The part of the path that is signed. */
  function SignedPath(user: Bytes, tenant: Bytes): string {
    SplitAtFirst(RequestPath(user, tenant), '?').0
  }

  /** A receiver's reading of a request path: split off the query, strip the fixed parts, decode. */
  function ReadPath(path: string): Option<(Bytes, Bytes)> {
    var (before, after) := SplitAtFirst(path, '?');
    match after
    case None => None
    case Some(query) =>
      if !StartsWith(before, PATH_PREFIX) || !StartsWith(query, QUERY[1..]) then None
      else
        match (Unquote(before[|PATH_PREFIX|..]), Unquote(query[|QUERY| - 1..]))
        case (Some(user), Some(tenant)) => Some((user, tenant))
        case _ => None
  }

  lemma UpperHexRoundTrip(n: nat)
    requires n < 16
    ensures HexValue(UpperHex(n)) == Some(n)
  {
  }

  lemma UnquoteEscape(text: string, high: nat, low: nat, tail: string)
    requires |text| >= 3 && text[0] == '%' && HexValue(text[1]) == Some(high) && HexValue(text[2]) == Some(low)
    requires text[3..] == tail && Unquote(tail).Some?
    ensures high < 16 && low < 16 && Unquote(text) == Some([high * 16 + low] + Unquote(tail).value)
  {
  }

  lemma UnquotePlain(text: string, tail: string)
    requires text != "" && text[0] != '%' && text[0] as nat < 128 && text[1..] == tail && Unquote(tail).Some?
    ensures Unquote(text) == Some([text[0] as nat] + Unquote(tail).value)
  {
  }

  lemma ByteRoundTrip(b: Byte, tail: string)
    requires Unquote(tail).Some?
    ensures Unquote(QuoteByte(b) + tail) == Some([b] + Unquote(tail).value)
  {
    var text := QuoteByte(b) + tail;
    DropFront(QuoteByte(b), tail);
    if |QuoteByte(b)| == 1 {
      UnquotePlain(text, tail);
    } else {
      UpperHexRoundTrip(b / 16);
      UpperHexRoundTrip(b % 16);
      UnquoteEscape(text, b / 16, b % 16, tail);
    }
  }

  /** Encoding decodes back, for all byte strings. */
  lemma {:induction false} QuoteRoundTrip(bytes: Bytes)
    ensures Unquote(Quote(bytes)) == Some(bytes)
  {
    if bytes != [] {
      QuoteRoundTrip(bytes[1..]);
      ByteRoundTrip(bytes[0], Quote(bytes[1..]));
      assert bytes == [bytes[0]] + bytes[1..];
    }
  }

  /** Encoded text holds unreserved characters and percent signs only: none of `?`, `/`, `&`, `=`, `#`. */
  lemma {:induction false} QuoteEmitsOnlyUnreserved(bytes: Bytes, i: nat)
    requires i < |Quote(bytes)|
    ensures Unreserved(Quote(bytes)[i]) || Quote(bytes)[i] == '%'
  {
    var first := QuoteByte(bytes[0]);
    if i >= |first| {
      QuoteEmitsOnlyUnreserved(bytes[1..], i - |first|);
    }
  }

  /** Section 2.3 in ASCII codes: letters, digits, and the four marks. */
  predicate IsPlainByte(b: Byte) {
    65 <= b <= 90 || 97 <= b <= 122 || 48 <= b <= 57 || b == 45 || b == 46 || b == 95 || b == 126
  }

  function UpperDigit(n: nat): char
    requires n < 16
  {
    "0123456789ABCDEF"[n]
  }

  /** The text of one byte: itself if it is unreserved, otherwise a percent sign and two upper-case digits. */
  predicate IsTextOf(text: string, b: Byte) {
    if IsPlainByte(b) then text == [b as char]
    else
      |text| == 3 && text[0] == '%' && text[1] == UpperDigit(b / 16) && text[2] == UpperDigit(b % 16)
  }

  lemma UpperHexIsDigit(n: nat)
    requires n < 16
    ensures UpperHex(n) == UpperDigit(n)
  {
  }

  lemma ByteIsQuotedExactly(b: Byte)
    ensures IsTextOf(QuoteByte(b), b)
  {
    UpperHexIsDigit(b / 16);
    UpperHexIsDigit(b % 16);
  }

  /** The bytes of an id that are not unreserved. */
  function Reserved(bytes: Bytes): nat {
    if bytes == [] then 0 else (if IsPlainByte(bytes[0]) then 0 else 1) + Reserved(bytes[1..])
  }

  lemma ByteLength(b: Byte)
    ensures |QuoteByte(b)| == if IsPlainByte(b) then 1 else 3
    ensures IsPlainByte(b) ==> QuoteByte(b)[0] as nat == b
  {
    ByteIsQuotedExactly(b);
  }

  /** Nothing is escaped without need: the text is two characters longer for each byte that is not unreserved. */
  lemma {:induction false} QuoteEscapesOnlyReserved(bytes: Bytes)
    ensures |Quote(bytes)| == |bytes| + 2 * Reserved(bytes)
    decreases |bytes|
  {
    if bytes != [] {
      ByteLength(bytes[0]);
      QuoteEscapesOnlyReserved(bytes[1..]);
    }
  }

  /** An id without such bytes is sent as it is. */
  lemma {:induction false} UnreservedIdIsSentAsItIs(bytes: Bytes, k: nat)
    requires Reserved(bytes) == 0 && k < |bytes|
    ensures |Quote(bytes)| == |bytes| && Quote(bytes)[k] as nat == bytes[k]
    decreases |bytes|
  {
    ByteLength(bytes[0]);
    QuoteEscapesOnlyReserved(bytes);
    if k > 0 {
      UnreservedIdIsSentAsItIs(bytes[1..], k - 1);
    }
  }

  lemma {:induction false} SplitAtMark(before: string, c: char, after: string)
    requires c !in before
    ensures SplitAtFirst(before + [c] + after, c) == (before, Some(after))
  {
    var s := before + [c] + after;
    if before == "" {
      assert s[1..] == after;
    } else {
      assert s[1..] == before[1..] + [c] + after;
      SplitAtMark(before[1..], c, after);
      assert before == [before[0]] + before[1..] && s[0] == before[0];
    }
  }

  lemma PathSplits(user: Bytes, tenant: Bytes)
    ensures SplitAtFirst(RequestPath(user, tenant), '?') ==
            (PATH_PREFIX + Quote(user), Some(QUERY[1..] + Quote(tenant)))
  {
    var before, after := PATH_PREFIX + Quote(user), QUERY[1..] + Quote(tenant);
    forall i | 0 <= i < |before|
      ensures before[i] != '?'
    {
      if i >= |PATH_PREFIX| {
        QuoteEmitsOnlyUnreserved(user, i - |PATH_PREFIX|);
      }
    }
    SplitAtMark(before, '?', after);
    assert RequestPath(user, tenant) == before + ['?'] + after;
  }

  /**
    The signed path is exactly the fixed prefix and the encoded user, whatever the ids contain: it
    does not depend on the tenant.
   */
  lemma SignedPathIsPrefixAndUser(user: Bytes, tenant: Bytes)
    ensures SignedPath(user, tenant) == PATH_PREFIX + Quote(user)
  {
    PathSplits(user, tenant);
  }

  /** User and tenant can be recovered from the path, for all byte strings. */
  lemma PathRoundTrip(user: Bytes, tenant: Bytes)
    ensures ReadPath(RequestPath(user, tenant)) == Some((user, tenant))
  {
    PathSplits(user, tenant);
    QuoteRoundTrip(user);
    QuoteRoundTrip(tenant);
    assert (PATH_PREFIX + Quote(user))[|PATH_PREFIX|..] == Quote(user);
    assert (QUERY[1..] + Quote(tenant))[|QUERY| - 1..] == Quote(tenant);
  }

  /** So requests for different memberships have different paths, and different users sign different paths. */
  lemma PathsAreDistinct(user: Bytes, tenant: Bytes, user': Bytes, tenant': Bytes)
    ensures RequestPath(user, tenant) == RequestPath(user', tenant') <==> user == user' && tenant == tenant'
    ensures SignedPath(user, tenant) == SignedPath(user', tenant') <==> user == user'
  {
    PathRoundTrip(user, tenant);
    PathRoundTrip(user', tenant');
    SignedPathIsPrefixAndUser(user, tenant);
    SignedPathIsPrefixAndUser(user', tenant');
    if SignedPath(user, tenant) == SignedPath(user', tenant') {
      assert Quote(user) == SignedPath(user, tenant)[|PATH_PREFIX|..];
      assert Quote(user') == SignedPath(user', tenant')[|PATH_PREFIX|..];
      QuoteRoundTrip(user);
      QuoteRoundTrip(user');
    }
  }
}
