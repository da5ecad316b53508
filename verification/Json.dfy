/**
  The JSON text of a cached value: arrays of strings as in sections 5 and 7 of RFC 8259, written
  as Python's `json.dumps` writes them. Anything else decodes to nothing, which is a cache miss.
 */
module Json {
  import opened Prelude

  function HexDigit(n: nat): char
    requires n < 16
  {
    if n < 10 then '0' + n as char else 'a' + (n - 10) as char
  }

  function Hex4(n: nat): (s: string)
    requires n < 0x10000
    ensures |s| == 4
  {
    [HexDigit(n / 16 / 16 / 16), HexDigit(n / 16 / 16 % 16), HexDigit(n / 16 % 16), HexDigit(n % 16)]
  }

  /** The four hexadecimal digits at the front of `s`. */
  function ReadHex4(s: string): (r: Option<nat>)
    ensures r.Some? ==> |s| >= 4 && r.value < 0x10000
  {
    if |s| < 4 then None
    else match (HexValue(s[0]), HexValue(s[1]), HexValue(s[2]), HexValue(s[3]))
      case (Some(a), Some(b), Some(c), Some(d)) =>
        Some(((a * 16 + b) * 16 + c) * 16 + d)
      case _ => None
  }

  function ShortEscape(c: char): Option<char> {
    match c
    case '"' => Some('"')
    case '\\' => Some('\\')
    case '\n' => Some('n')
    case '\r' => Some('r')
    case '\t' => Some('t')
    case '\U{0008}' => Some('b')
    case '\U{000C}' => Some('f')
    case _ => None
  }

  function ReadShortEscape(c: char): Option<char> {
    match c
    case '"' => Some('"')
    case '\\' => Some('\\')
    case '/' => Some('/')
    case 'n' => Some('\n')
    case 'r' => Some('\r')
    case 't' => Some('\t')
    case 'b' => Some('\U{0008}')
    case 'f' => Some('\U{000C}')
    case _ => None
  }

  function HighSurrogate(n: nat): nat
    requires 0x10000 <= n < 0x110000
  {
    0xD800 + (n - 0x10000) / 0x400
  }

  function LowSurrogate(n: nat): nat
    requires 0x10000 <= n < 0x110000
  {
    0xDC00 + (n - 0x10000) % 0x400
  }

  /** Printable ASCII, except the quote and the backslash. */
  predicate Plain(c: char) {
    ' ' <= c <= '~' && ShortEscape(c).None?
  }

  /** What follows the backslash for a character that is not written as it is. */
  function EscapeBody(c: char): string {
    if ShortEscape(c).Some? then [ShortEscape(c).value]
    else if c as nat < 0x10000 then "u" + Hex4(c as nat)
    else "u" + Hex4(HighSurrogate(c as nat)) + "\\u" + Hex4(LowSurrogate(c as nat))
  }

  function EscapeChar(c: char): string {
    if Plain(c) then [c] else ['\\'] + EscapeBody(c)
  }

  function Escape(s: string): string {
    if s == "" then "" else EscapeChar(s[0]) + Escape(s[1..])
  }

  function Quoted(s: string): string {
    "\"" + Escape(s) + "\""
  }

  function Items(perms: Perms, separator: string): string
    requires perms != []
  {
    if |perms| == 1 then Quoted(perms[0]) else Quoted(perms[0]) + separator + Items(perms[1..], separator)
  }

  /** `json.dumps(list(perms))`; the separator is a comma and a space. Other SDKs write a bare comma. */
  function Dumps(perms: Perms, separator: string := ", "): string {
    if perms == [] then "[]" else "[" + Items(perms, separator) + "]"
  }

  /** The escape sequence at the front of `s`, after its backslash: its character and its length. */
  function ReadEscape(s: string): (r: Option<(char, nat)>)
    ensures r.Some? ==> 1 <= r.value.1 <= |s|
  {
    if s == "" then None
    else if s[0] != 'u' then
      match ReadShortEscape(s[0])
      case Some(c) => Some((c, 1))
      case None => None
    else
      match ReadHex4(s[1..])
      case None => None
      case Some(n) =>
        if n < 0xD800 || 0xE000 <= n then Some((n as char, 5))
        else if n < 0xDC00 && |s| >= 7 && s[5] == '\\' && s[6] == 'u' then
          match ReadHex4(s[7..])
          case Some(low) =>
            if 0xDC00 <= low < 0xE000 then Some(((0x10000 + (n - 0xD800) * 0x400 + (low - 0xDC00)) as char, 11))
            else None
          case None => None
        else None
  }

  /** The rest of a string literal: its contents, and the text after the closing quote. */
  function ReadString(s: string): (r: Option<(string, string)>)
    ensures r.Some? ==> |r.value.1| < |s|
    decreases |s|
  {
    if s == "" then None
    else if s[0] == '"' then Some(("", s[1..]))
    else if s[0] == '\\' then
      match ReadEscape(s[1..])
      case None => None
      case Some((c, n)) =>
        match ReadString(s[1 + n..])
        case None => None
        case Some((contents, rest)) => Some(([c] + contents, rest))
    else if s[0] < ' ' then None
    else
      match ReadString(s[1..])
      case None => None
      case Some((contents, rest)) => Some(([s[0]] + contents, rest))
  }

  predicate IsSpace(c: char) {
    c == ' ' || c == '\t' || c == '\n' || c == '\r'
  }

  function SkipSpace(s: string): (r: string)
    ensures |r| <= |s|
  {
    if s != "" && IsSpace(s[0]) then SkipSpace(s[1..]) else s
  }

  /** The items of a non-empty array and its closing bracket, which must end the text. */
  function ReadItems(s: string): Option<Perms>
    decreases |s|
  {
    if s == "" || s[0] != '"' then None
    else
      match ReadString(s[1..])
      case None => None
      case Some((item, after)) =>
        var rest := SkipSpace(after);
        if rest == "" then None
        else if rest[0] == ']' then (if SkipSpace(rest[1..]) == "" then Some([item]) else None)
        else if rest[0] == ',' then
          match ReadItems(SkipSpace(rest[1..]))
          case None => None
          case Some(items) => Some([item] + items)
        else None
  }

  /** `json.loads` restricted to arrays of strings. */
  function Loads(s: string): Option<Perms> {
    var text := SkipSpace(s);
    if text == "" || text[0] != '[' then None
    else
      var rest := SkipSpace(text[1..]);
      if rest != "" && rest[0] == ']' then (if SkipSpace(rest[1..]) == "" then Some([]) else None)
      else ReadItems(rest)
  }

  lemma HexDigitRoundTrip(n: nat)
    requires n < 16
    ensures HexValue(HexDigit(n)) == Some(n)
  {
  }

  lemma Hex4RoundTrip(n: nat, tail: string)
    requires n < 0x10000
    ensures ReadHex4(Hex4(n) + tail) == Some(n)
  {
    var c, b, a := n / 16, n / 16 / 16, n / 16 / 16 / 16;
    HexDigitRoundTrip(a);
    HexDigitRoundTrip(b % 16);
    HexDigitRoundTrip(c % 16);
    HexDigitRoundTrip(n % 16);
    var text := Hex4(n) + tail;
    assert text[0] == HexDigit(a) && text[1] == HexDigit(b % 16);
    assert text[2] == HexDigit(c % 16) && text[3] == HexDigit(n % 16);
    assert a * 16 + b % 16 == b && b * 16 + c % 16 == c && c * 16 + n % 16 == n;
  }

  lemma ShortEscapeRoundTrip(c: char, tail: string)
    requires ShortEscape(c).Some?
    ensures ReadEscape([ShortEscape(c).value] + tail) == Some((c, 1))
  {
  }

  lemma UnitEscapeRoundTrip(n: nat, tail: string)
    requires n < 0xD800 || 0xE000 <= n < 0x10000
    ensures ReadEscape("u" + Hex4(n) + tail) == Some((n as char, 5))
  {
    Hex4RoundTrip(n, tail);
    assert ("u" + Hex4(n) + tail)[1..] == Hex4(n) + tail;
  }

  lemma SurrogatesRecombine(n: nat)
    requires 0x10000 <= n < 0x110000
    ensures 0xD800 <= HighSurrogate(n) < 0xDC00 <= LowSurrogate(n) < 0xE000
    ensures 0x10000 + (HighSurrogate(n) - 0xD800) * 0x400 + (LowSurrogate(n) - 0xDC00) == n
  {
  }

  lemma SurrogateText(h: string, l: string, tail: string)
    requires |h| == |l| == 4
    ensures var text := "u" + h + "\\u" + l + tail;
            text[1..] == h + ("\\u" + l + tail) && text[7..] == l + tail && text[5] == '\\' && text[6] == 'u'
  {
  }

  /** Reading a pair of escaped surrogates. */
  lemma ReadSurrogates(high: nat, low: nat, tail: string)
    requires 0xD800 <= high < 0xDC00 <= low < 0xE000
    ensures ReadEscape("u" + Hex4(high) + "\\u" + Hex4(low) + tail) ==
            Some(((0x10000 + (high - 0xD800) * 0x400 + (low - 0xDC00)) as char, 11))
  {
    var h, l := Hex4(high), Hex4(low);
    var text := "u" + h + "\\u" + l + tail;
    Hex4RoundTrip(high, "\\u" + l + tail);
    Hex4RoundTrip(low, tail);
    SurrogateText(h, l, tail);
  }

  lemma EscapedCharRoundTrip(c: char, tail: string)
    ensures ReadEscape(EscapeBody(c) + tail) == Some((c, |EscapeBody(c)|))
  {
    var n := c as nat;
    if ShortEscape(c).Some? {
      ShortEscapeRoundTrip(c, tail);
    } else if n < 0x10000 {
      UnitEscapeRoundTrip(n, tail);
    } else {
      SurrogatesRecombine(n);
      ReadSurrogates(HighSurrogate(n), LowSurrogate(n), tail);
    }
  }

  lemma ReadPlainChar(c: char, tail: string)
    requires Plain(c) && ReadString(tail).Some?
    ensures ReadString([c] + tail) == Some(([c] + ReadString(tail).value.0, ReadString(tail).value.1))
  {
    assert ([c] + tail)[1..] == tail;
  }

  lemma EscapedText(body: string, tail: string)
    ensures var text := ['\\'] + body + tail;
            text[0] == '\\' && text[1..] == body + tail && text[1 + |body|..] == tail
  {
    DropFront(['\\'] + body, tail);
    assert ['\\'] + body + tail == ['\\'] + (body + tail);
  }

  lemma ReadEscapeStep(text: string, c: char, n: nat, tail: string)
    requires text != "" && text[0] == '\\' && ReadEscape(text[1..]) == Some((c, n))
    requires 1 + n <= |text| && text[1 + n..] == tail && ReadString(tail).Some?
    ensures ReadString(text) == Some(([c] + ReadString(tail).value.0, ReadString(tail).value.1))
  {
  }

  lemma ReadEscapedChar(c: char, body: string, tail: string)
    requires ReadEscape(body + tail) == Some((c, |body|)) && ReadString(tail).Some?
    ensures ReadString(['\\'] + body + tail) == Some(([c] + ReadString(tail).value.0, ReadString(tail).value.1))
  {
    EscapedText(body, tail);
    ReadEscapeStep(['\\'] + body + tail, c, |body|, tail);
  }

  /** Reading one character as it was written. */
  lemma CharRoundTrip(c: char, tail: string)
    requires ReadString(tail).Some?
    ensures ReadString(EscapeChar(c) + tail) == Some(([c] + ReadString(tail).value.0, ReadString(tail).value.1))
  {
    if Plain(c) {
      ReadPlainChar(c, tail);
    } else {
      EscapedCharRoundTrip(c, tail);
      ReadEscapedChar(c, EscapeBody(c), tail);
    }
  }

  lemma EscapeUnfolds(s: string, rest: string)
    requires s != ""
    ensures Escape(s) + "\"" + rest == EscapeChar(s[0]) + (Escape(s[1..]) + "\"" + rest)
  {
  }

  lemma ReadClosingQuote(rest: string)
    ensures ReadString(Escape("") + "\"" + rest) == Some(("", rest))
  {
    var text := Escape("") + "\"" + rest;
    assert text[0] == '"' && text[1..] == rest;
  }

  lemma StringStep(s: string, rest: string, tail: string)
    requires s != "" && ReadString(tail) == Some((s[1..], rest))
    ensures ReadString(EscapeChar(s[0]) + tail) == Some((s, rest))
  {
    CharRoundTrip(s[0], tail);
    assert [s[0]] + s[1..] == s;
  }

  lemma {:induction false} StringRoundTrip(s: string, rest: string)
    ensures ReadString(Escape(s) + "\"" + rest) == Some((s, rest))
  {
    if s == "" {
      ReadClosingQuote(rest);
    } else {
      StringRoundTrip(s[1..], rest);
      StringStep(s, rest, Escape(s[1..]) + "\"" + rest);
      EscapeUnfolds(s, rest);
    }
  }

  lemma ReadLastItem(item: string)
    ensures ReadItems(Quoted(item) + "]") == Some([item])
  {
    StringRoundTrip(item, "]");
    assert (Quoted(item) + "]")[1..] == Escape(item) + "\"" + "]";
    assert "]"[1..] == "";
  }

  lemma SkipSeparator(separator: string, more: string)
    requires (separator == ", " || separator == ",") && more != "" && more[0] == '"'
    ensures var text := separator + more; SkipSpace(text) == text && text[0] == ',' && SkipSpace(text[1..]) == more
  {
    var rest := (separator + more)[1..];
    if separator == "," {
      assert rest == more;
    } else {
      assert rest == " " + more && rest[1..] == more;
    }
  }

  lemma ReadItemsStep(text: string, item: string, after: string, more: string)
    requires text != "" && text[0] == '"' && ReadString(text[1..]) == Some((item, after))
    requires after != "" && after[0] == ',' && SkipSpace(after) == after && SkipSpace(after[1..]) == more
    requires ReadItems(more).Some?
    ensures ReadItems(text) == Some([item] + ReadItems(more).value)
  {
  }

  lemma AfterOpeningQuote(escaped: string, after: string)
    ensures var text := "\"" + escaped + "\"" + after; text[0] == '"' && text[1..] == escaped + "\"" + after
  {
  }

  lemma ReadNextItem(item: string, after: string, more: string)
    requires after != "" && after[0] == ',' && SkipSpace(after) == after && SkipSpace(after[1..]) == more
    requires ReadItems(more).Some?
    ensures ReadItems(Quoted(item) + after) == Some([item] + ReadItems(more).value)
  {
    StringRoundTrip(item, after);
    AfterOpeningQuote(Escape(item), after);
    ReadItemsStep(Quoted(item) + after, item, after, more);
  }

  lemma Regroup(a: string, b: string, c: string, d: string)
    ensures a + b + c + d == a + (b + (c + d))
  {
  }

  lemma ItemsOpenWithQuote(perms: Perms, separator: string)
    requires perms != []
    ensures Items(perms, separator)[0] == '"'
  {
  }

  lemma ItemsUnfold(perms: Perms, separator: string)
    requires |perms| > 1
    ensures Items(perms, separator) + "]" == Quoted(perms[0]) + (separator + (Items(perms[1..], separator) + "]"))
    ensures (Items(perms[1..], separator) + "]")[0] == '"'
  {
    Regroup(Quoted(perms[0]), separator, Items(perms[1..], separator), "]");
    ItemsOpenWithQuote(perms[1..], separator);
  }

  lemma ItemsStep(perms: Perms, separator: string, more: string)
    requires |perms| > 1 && (separator == ", " || separator == ",")
    requires more != "" && more[0] == '"' && ReadItems(more) == Some(perms[1..])
    ensures ReadItems(Quoted(perms[0]) + (separator + more)) == Some(perms)
  {
    SkipSeparator(separator, more);
    ReadNextItem(perms[0], separator + more, more);
    assert perms == [perms[0]] + perms[1..];
  }

  lemma {:induction false} ItemsRoundTrip(perms: Perms, separator: string)
    requires perms != [] && (separator == ", " || separator == ",")
    ensures ReadItems(Items(perms, separator) + "]") == Some(perms)
  {
    if |perms| == 1 {
      ReadLastItem(perms[0]);
      assert perms == [perms[0]];
    } else {
      ItemsRoundTrip(perms[1..], separator);
      ItemsUnfold(perms, separator);
      ItemsStep(perms, separator, Items(perms[1..], separator) + "]");
    }
  }

  lemma LoadsItems(text: string, items: string)
    requires text == "[" + items && items != "" && items[0] == '"'
    ensures Loads(text) == ReadItems(items)
  {
    assert text[0] == '[' && text[1..] == items;
  }

  lemma DumpsText(perms: Perms, separator: string)
    requires perms != []
    ensures Dumps(perms, separator) == "[" + (Items(perms, separator) + "]")
    ensures (Items(perms, separator) + "]")[0] == '"'
  {
    ItemsOpenWithQuote(perms, separator);
  }

  lemma LoadsEmpty()
    ensures Loads("[]") == Some([])
  {
    assert "[]"[1..] == "]" && "]"[1..] == "";
  }

  /** Every list of strings survives the cache text, in Python's spacing and in the compact one. */
  lemma JsonRoundTrip(perms: Perms, separator: string)
    requires separator == ", " || separator == ","
    ensures Loads(Dumps(perms, separator)) == Some(perms)
  {
    if perms == [] {
      LoadsEmpty();
    } else {
      ItemsRoundTrip(perms, separator);
      DumpsText(perms, separator);
      LoadsItems(Dumps(perms, separator), Items(perms, separator) + "]");
    }
  }
}
