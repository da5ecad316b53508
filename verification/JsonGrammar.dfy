/**
  Which texts decode to a list, independently of the decoder: arrays of string literals as in
  sections 2, 5 and 7 of RFC 8259. A text decodes to a list if and only if it is an array of string
  literals that denote it; every other text decodes to nothing.
 */
module JsonGrammar {
  import opened Prelude
  import opened Json

  /** White space: blank, tab, line feed, carriage return. */
  predicate Blank(s: string) {
    forall i | 0 <= i < |s| :: s[i] in " \t\n\r"
  }

  /** The character that a backslash and this letter stand for. */
  predicate StandsForChar(letter: char, c: char) {
    (letter, c) in {
      ('"', '"'), ('\\', '\\'), ('/', '/'), ('b', 8 as char), ('f', 12 as char), ('n', 10 as char),
      ('r', 13 as char), ('t', 9 as char)}
  }

  predicate IsHexDigit(c: char, n: nat) {
    n < 16 && (c == "0123456789abcdef"[n] || c == "0123456789ABCDEF"[n])
  }

  /** Four hexadecimal digits for the number, at the front. */
  predicate IsHex4(s: string, n: nat) {
    && |s| >= 4
    && IsHexDigit(s[0], n / 16 / 16 / 16) && IsHexDigit(s[1], n / 16 / 16 % 16)
    && IsHexDigit(s[2], n / 16 % 16) && IsHexDigit(s[3], n % 16)
  }

  predicate IsUnit(s: string, n: nat) {
    |s| == 6 && s[0] == '\\' && s[1] == 'u' && IsHex4(s[2..], n)
  }

  /** The two surrogates stand for the character. */
  predicate ArePair(high: nat, low: nat, c: char) {
    0xD800 <= high < 0xDC00 <= low < 0xE000 && c as nat == 0x10000 + (high - 0xD800) * 0x400 + (low - 0xDC00)
  }

  /** Two units that together stand for a character outside the basic plane. */
  ghost predicate IsPairPiece(s: string, c: char) {
    |s| == 12 &&
    exists high: nat, low: nat | IsUnit(s[..6], high) && IsUnit(s[6..], low) :: ArePair(high, low, c)
  }

  /** What stands for one character inside a string literal. */
  ghost predicate IsPiece(s: string, c: char) {
    || (|s| == 1 && s[0] == c && c >= ' ' && c != '"' && c != '\\')
    || (|s| == 2 && s[0] == '\\' && StandsForChar(s[1], c))
    || (IsUnit(s, c as nat) && !(0xD800 <= c as nat < 0xE000))
    || IsPairPiece(s, c)
  }

  /** The inside of a string literal that denotes `s`. */
  ghost predicate IsBody(text: string, s: string) {
    if s == "" then text == ""
    else exists n | 0 < n <= |text| :: IsPiece(text[..n], s[0]) && IsBody(text[n..], s[1..])
  }

  /** A string literal that denotes `item`, and the text after it. */
  ghost predicate LiteralThen(text: string, item: string, after: string) {
    text != "" && text[0] == '"' && exists body | IsBody(body, item) :: text[1..] == body + "\"" + after
  }

  /** White space, and the text after it. */
  ghost predicate SpaceThen(text: string, rest: string) {
    exists v | Blank(v) :: text == v + rest
  }

  /** The last literal, and the closing bracket; nothing but white space follows. */
  ghost predicate EndsWithItem(text: string, item: string) {
    exists after, rest | LiteralThen(text, item, after) && SpaceThen(after, rest) :: IsEnd(rest)
  }

  /** A literal, a comma, and the text of the next one. */
  ghost predicate ItemThen(text: string, item: string, more: string) {
    exists after, rest | LiteralThen(text, item, after) && SpaceThen(after, rest) ::
      rest != "" && rest[0] == ',' && SpaceThen(rest[1..], more)
  }

  /** Literals separated by commas, and the closing bracket. */
  ghost predicate IsItems(text: string, items: Perms)
    requires items != []
    decreases |items|
  {
    if |items| == 1 then EndsWithItem(text, items[0])
    else exists more | ItemThen(text, items[0], more) :: IsItems(more, items[1..])
  }

  predicate IsEnd(text: string) {
    text != "" && text[0] == ']' && Blank(text[1..])
  }

  ghost predicate IsArray(text: string, items: Perms) {
    exists opening, rest | SpaceThen(text, opening) && IsArrayTail(opening, rest) ::
      if items == [] then IsEnd(rest) else IsItems(rest, items)
  }

  /** The opening bracket, and the text after it and white space. */
  ghost predicate IsArrayTail(opening: string, rest: string) {
    opening != "" && opening[0] == '[' && SpaceThen(opening[1..], rest)
  }

  // White space

  lemma {:induction false} SkipsBlank(w: string, rest: string)
    requires Blank(w) && (rest != "" ==> !IsSpace(rest[0]))
    ensures SkipSpace(w + rest) == rest
  {
    if w == "" {
      assert w + rest == rest;
    } else {
      assert w[0] in " \t\n\r" && (w + rest)[0] == w[0] && (w + rest)[1..] == w[1..] + rest;
      SkipsBlank(w[1..], rest);
    }
  }

  lemma {:induction false} SkippedIsBlank(s: string) returns (w: string)
    ensures Blank(w) && s == w + SkipSpace(s)
    ensures SkipSpace(s) != "" ==> !IsSpace(SkipSpace(s)[0])
  {
    if s != "" && IsSpace(s[0]) {
      var rest := SkippedIsBlank(s[1..]);
      w := [s[0]] + rest;
      assert s == [s[0]] + s[1..];
    } else {
      w := "";
    }
  }

  lemma SpaceIsSkipped(s: string)
    ensures SpaceThen(s, SkipSpace(s)) && (SkipSpace(s) != "" ==> !IsSpace(SkipSpace(s)[0]))
    ensures forall rest | SpaceThen(s, rest) && rest != "" && !IsSpace(rest[0]) :: SkipSpace(s) == rest
    ensures Blank(s) <==> SkipSpace(s) == ""
  {
    var w := SkippedIsBlank(s);
    forall rest | SpaceThen(s, rest) && rest != "" && !IsSpace(rest[0])
      ensures SkipSpace(s) == rest
    {
      var v :| Blank(v) && s == v + rest;
      SkipsBlank(v, rest);
    }
    if Blank(s) {
      SkipsBlank(s, "");
      assert s + "" == s;
    }
    if SkipSpace(s) == "" {
      assert s == w;
    }
  }

  // Pieces

  lemma HexDigitIsRead(c: char, n: nat)
    ensures HexValue(c) == Some(n) <==> IsHexDigit(c, n)
  {
    if n < 16 {
      assert "0123456789abcdef"[n] == if n < 10 then '0' + n as char else 'a' + (n - 10) as char;
      assert "0123456789ABCDEF"[n] == if n < 10 then '0' + n as char else 'A' + (n - 10) as char;
    }
  }

  lemma LastDigit(q: nat, d: nat, n: nat)
    requires d < 16
    ensures n == q * 16 + d <==> q == n / 16 && d == n % 16
  {
  }

  lemma DigitsOfNumber(a: nat, b: nat, c: nat, d: nat, n: nat)
    requires b < 16 && c < 16 && d < 16
    ensures n == ((a * 16 + b) * 16 + c) * 16 + d <==>
            a == n / 16 / 16 / 16 && b == n / 16 / 16 % 16 && c == n / 16 % 16 && d == n % 16
  {
    LastDigit((a * 16 + b) * 16 + c, d, n);
    LastDigit(a * 16 + b, c, n / 16);
    LastDigit(a, b, n / 16 / 16);
  }

  lemma Hex4IsRead(s: string, n: nat)
    requires |s| >= 4
    ensures ReadHex4(s) == Some(n) <==> IsHex4(s, n)
  {
    HexDigitIsRead(s[0], n / 16 / 16 / 16);
    HexDigitIsRead(s[1], n / 16 / 16 % 16);
    HexDigitIsRead(s[2], n / 16 % 16);
    HexDigitIsRead(s[3], n % 16);
    if ReadHex4(s).Some? {
      DigitsOfNumber(HexValue(s[0]).value, HexValue(s[1]).value, HexValue(s[2]).value, HexValue(s[3]).value, n);
    }
    DigitsOfNumber(n / 16 / 16 / 16, n / 16 / 16 % 16, n / 16 % 16, n % 16, n);
  }

  lemma ShortIsRead(letter: char, c: char)
    ensures ReadShortEscape(letter) == Some(c) <==> StandsForChar(letter, c)
  {
  }

  lemma UnitIsRead(s: string, n: nat)
    requires |s| >= 5
    ensures IsUnit(['\\'] + s[..5], n) <==> s[0] == 'u' && ReadHex4(s[1..]) == Some(n)
  {
    var unit := ['\\'] + s[..5];
    assert unit[2..] == s[1..5];
    Hex4IsRead(s[1..], n);
  }

  /** A short escape, or a single unit. */
  lemma ShortEscapeIsRead(s: string, c: char, n: nat)
    requires s != "" && n <= |s| && (n == 1 || n == 5)
    ensures ReadEscape(s) == Some((c, n)) <==> IsPiece(['\\'] + s[..n], c)
  {
    ShortIsRead(s[0], c);
    if n == 5 {
      UnitIsRead(s, c as nat);
    }
  }

  lemma EscapePair(s: string, c: char)
    requires |s| >= 11
    ensures ReadEscape(s) == Some((c, 11)) <==>
            s[0] == 'u' && s[5] == '\\' && s[6] == 'u' && ReadHex4(s[1..]).Some? && ReadHex4(s[7..]).Some? &&
            ArePair(ReadHex4(s[1..]).value, ReadHex4(s[7..]).value, c)
  {
  }

  lemma UnitsOfPair(s: string, high: nat, low: nat)
    requires |s| >= 11
    ensures var text := ['\\'] + s[..11];
            && (IsUnit(text[..6], high) <==> s[0] == 'u' && ReadHex4(s[1..]) == Some(high))
            && (IsUnit(text[6..], low) <==> s[5] == '\\' && s[6] == 'u' && ReadHex4(s[7..]) == Some(low))
  {
    var text, second := ['\\'] + s[..11], s[6..];
    UnitIsRead(s, high);
    assert text[..6] == ['\\'] + s[..5];
    UnitIsRead(second, low);
    assert text[6..] == [s[5]] + second[..5] && second[1..] == s[7..];
  }

  /** A pair of units. */
  lemma PairIsRead(s: string, c: char)
    requires |s| >= 11
    ensures ReadEscape(s) == Some((c, 11)) <==> IsPairPiece(['\\'] + s[..11], c)
  {
    var text := ['\\'] + s[..11];
    EscapePair(s, c);
    if ReadEscape(s) == Some((c, 11)) {
      UnitsOfPair(s, ReadHex4(s[1..]).value, ReadHex4(s[7..]).value);
    }
    if IsPairPiece(text, c) {
      var high: nat, low: nat :| IsUnit(text[..6], high) && IsUnit(text[6..], low) && ArePair(high, low, c);
      UnitsOfPair(s, high, low);
    }
  }

  lemma EscapeLengths(s: string)
    ensures ReadEscape(s).Some? ==> ReadEscape(s).value.1 in {1, 5, 11} && ReadEscape(s).value.1 <= |s|
  {
  }

  /** Reading an escape sequence is reading a piece. */
  lemma EscapeIsRead(s: string, c: char, n: nat)
    requires 0 < n <= |s|
    ensures ReadEscape(s) == Some((c, n)) <==> IsPiece(['\\'] + s[..n], c)
  {
    EscapeLengths(s);
    if n == 1 || n == 5 {
      ShortEscapeIsRead(s, c, n);
    } else if n == 11 {
      PairIsRead(s, c);
    }
  }

  // String literals

  lemma PieceIsRead(piece: string, c: char, tail: string)
    requires IsPiece(piece, c) && ReadString(tail).Some?
    ensures ReadString(piece + tail) == Some(([c] + ReadString(tail).value.0, ReadString(tail).value.1))
  {
    var text := piece + tail;
    DropFront(piece, tail);
    if piece[0] == '\\' {
      var n := |piece| - 1;
      assert n > 0;
      assert text[1..][..n] == piece[1..] && ['\\'] + piece[1..] == piece;
      EscapeIsRead(text[1..], c, n);
      ReadEscapeStep(text, c, n, tail);
    } else {
      assert text[1..] == tail;
    }
  }

  lemma BodyStep(front: string, tail: string, s: string, rest: string)
    requires s != "" && IsPiece(front, s[0]) && ReadString(tail) == Some((s[1..], rest))
    ensures ReadString(front + tail) == Some((s, rest))
  {
    PieceIsRead(front, s[0], tail);
    assert [s[0]] + s[1..] == s;
  }

  lemma SplitBody(body: string, n: nat, rest: string)
    requires n <= |body|
    ensures body[..n] + (body[n..] + "\"" + rest) == body + "\"" + rest
  {
    assert body == body[..n] + body[n..];
  }

  lemma {:induction false} BodyIsRead(body: string, s: string, rest: string)
    requires IsBody(body, s)
    ensures ReadString(body + "\"" + rest) == Some((s, rest))
    decreases |s|
  {
    if s == "" {
      ReadClosingQuote(rest);
      assert body == Escape("");
    } else {
      var n :| 0 < n <= |body| && IsPiece(body[..n], s[0]) && IsBody(body[n..], s[1..]);
      BodyIsRead(body[n..], s[1..], rest);
      BodyStep(body[..n], body[n..] + "\"" + rest, s, rest);
      SplitBody(body, n, rest);
    }
  }

  /** The piece at the front of the rest of a literal. */
  lemma FirstPiece(s: string) returns (n: nat)
    requires ReadString(s).Some? && s[0] != '"'
    ensures 0 < n <= |s| && ReadString(s[n..]).Some?
    ensures var (contents, rest) := ReadString(s).value;
            contents != "" && IsPiece(s[..n], contents[0]) && ReadString(s[n..]) == Some((contents[1..], rest))
  {
    var contents := ReadString(s).value.0;
    if s[0] == '\\' {
      n := 1 + ReadEscape(s[1..]).value.1;
      EscapeLengths(s[1..]);
      EscapeIsRead(s[1..], contents[0], n - 1);
      assert ['\\'] + s[1..][..n - 1] == s[..n];
    } else {
      n := 1;
    }
  }

  lemma BodyOfPieces(body: string, n: nat, contents: string)
    requires contents != "" && 0 < n <= |body| && IsPiece(body[..n], contents[0]) && IsBody(body[n..], contents[1..])
    ensures IsBody(body, contents)
  {
  }

  lemma CutAt(front: string, more: string, rest: string)
    ensures (front + more)[..|front|] == front && (front + more)[|front|..] == more
    ensures front + (more + "\"" + rest) == front + more + "\"" + rest
  {
  }

  lemma ClosedAtOnce(s: string)
    requires ReadString(s).Some? && s[0] == '"'
    ensures IsBody("", ReadString(s).value.0) && s == "" + "\"" + ReadString(s).value.1
  {
    assert s == [s[0]] + s[1..];
  }

  lemma {:induction false} ReadIsBody(s: string) returns (body: string)
    requires ReadString(s).Some?
    ensures IsBody(body, ReadString(s).value.0) && s == body + "\"" + ReadString(s).value.1
    decreases |s|
  {
    if s[0] == '"' {
      ClosedAtOnce(s);
      body := "";
    } else {
      var n := FirstPiece(s);
      var more := ReadIsBody(s[n..]);
      var (contents, rest) := ReadString(s).value;
      JoinFront(s, n, more + "\"" + rest);
      CutAt(s[..n], more, rest);
      body := s[..n] + more;
      BodyOfPieces(body, n, contents);
    }
  }

  lemma JoinFront(s: string, n: nat, tail: string)
    requires n <= |s| && s[n..] == tail
    ensures s == s[..n] + tail
  {
  }

  /** Reading a string literal. */
  lemma LiteralIsRead(text: string, item: string, after: string)
    ensures LiteralThen(text, item, after) <==>
            text != "" && text[0] == '"' && ReadString(text[1..]) == Some((item, after))
  {
    if text != "" && text[0] == '"' && ReadString(text[1..]) == Some((item, after)) {
      var body := ReadIsBody(text[1..]);
    }
    if LiteralThen(text, item, after) {
      var body :| IsBody(body, item) && text[1..] == body + "\"" + after;
      BodyIsRead(body, item, after);
    }
  }

  // Arrays

  lemma ItemsOpen(text: string, items: Perms)
    requires items != [] && IsItems(text, items)
    ensures text != "" && text[0] == '"'
  {
  }

  lemma ReadsLast(text: string, item: string)
    requires EndsWithItem(text, item)
    ensures ReadItems(text) == Some([item])
  {
    var after, rest :| LiteralThen(text, item, after) && SpaceThen(after, rest) && IsEnd(rest);
    LiteralIsRead(text, item, after);
    SpaceIsSkipped(after);
    SpaceIsSkipped(rest[1..]);
  }

  lemma ReadsNext(text: string, item: string, more: string)
    requires ItemThen(text, item, more) && more != "" && more[0] == '"' && ReadItems(more).Some?
    ensures ReadItems(text) == Some([item] + ReadItems(more).value)
  {
    var after, rest :| LiteralThen(text, item, after) && SpaceThen(after, rest) &&
                       rest != "" && rest[0] == ',' && SpaceThen(rest[1..], more);
    LiteralIsRead(text, item, after);
    SpaceIsSkipped(after);
    SpaceIsSkipped(rest[1..]);
    assert SkipSpace(after) == rest && SkipSpace(rest[1..]) == more;
  }

  lemma SeveralItems(text: string, items: Perms) returns (more: string)
    requires |items| > 1 && IsItems(text, items)
    ensures ItemThen(text, items[0], more) && IsItems(more, items[1..])
  {
    more :| ItemThen(text, items[0], more) && IsItems(more, items[1..]);
  }

  lemma OneItem(text: string, items: Perms)
    requires |items| == 1 && IsItems(text, items)
    ensures EndsWithItem(text, items[0]) && items == [items[0]]
  {
  }

  lemma OneMoreItem(text: string, items: Perms, more: string)
    requires |items| > 1 && ItemThen(text, items[0], more) && more != "" && more[0] == '"'
    requires ReadItems(more) == Some(items[1..])
    ensures ReadItems(text) == Some(items)
  {
    ReadsNext(text, items[0], more);
    assert items == [items[0]] + items[1..];
  }

  lemma {:induction false} ItemsAreRead(text: string, items: Perms)
    requires items != [] && IsItems(text, items)
    ensures ReadItems(text) == Some(items)
    decreases |items|
  {
    if |items| == 1 {
      OneItem(text, items);
      ReadsLast(text, items[0]);
    } else {
      var more := SeveralItems(text, items);
      ItemsAreRead(more, items[1..]);
      ItemsOpen(more, items[1..]);
      OneMoreItem(text, items, more);
    }
  }

  /** The first literal of the items that are read, and what comes after it. */
  lemma FirstItem(text: string) returns (item: string, more: string)
    requires ReadItems(text).Some?
    ensures if EndsWithItem(text, item) then ReadItems(text).value == [item]
            else
              ItemThen(text, item, more) && |more| < |text| && ReadItems(more).Some? &&
              ReadItems(text).value == [item] + ReadItems(more).value
  {
    var after := ReadString(text[1..]).value.1;
    item := ReadString(text[1..]).value.0;
    var rest := SkipSpace(after);
    LiteralIsRead(text, item, after);
    SpaceIsSkipped(after);
    SpaceIsSkipped(rest[1..]);
    more := SkipSpace(rest[1..]);
    if rest[0] == ']' {
      assert IsEnd(rest);
    } else {
      assert ItemThen(text, item, more);
      if EndsWithItem(text, item) {
        ReadsLast(text, item);
      }
    }
  }

  lemma {:induction false} ReadIsItems(text: string)
    requires ReadItems(text).Some?
    ensures ReadItems(text).value != [] && IsItems(text, ReadItems(text).value)
    decreases |text|
  {
    var item, more := FirstItem(text);
    if !EndsWithItem(text, item) {
      ReadIsItems(more);
      var items := ReadItems(text).value;
      assert items[1..] == ReadItems(more).value;
    }
  }

  lemma TailIsRead(text: string, opening: string, rest: string)
    requires SpaceThen(text, opening) && IsArrayTail(opening, rest) && rest != "" && !IsSpace(rest[0])
    ensures SkipSpace(text) == opening && SkipSpace(opening[1..]) == rest
  {
    SpaceIsSkipped(text);
    SpaceIsSkipped(opening[1..]);
  }

  lemma ArrayIsRead(text: string, items: Perms)
    requires IsArray(text, items)
    ensures Loads(text) == Some(items)
  {
    var opening, rest :| SpaceThen(text, opening) && IsArrayTail(opening, rest) &&
      if items == [] then IsEnd(rest) else IsItems(rest, items);
    if items == [] {
      SpaceIsSkipped(rest[1..]);
    } else {
      ItemsOpen(rest, items);
      ItemsAreRead(rest, items);
    }
    TailIsRead(text, opening, rest);
  }

  lemma ReadIsArray(text: string)
    requires Loads(text).Some?
    ensures IsArray(text, Loads(text).value)
  {
    var opening := SkipSpace(text);
    var rest := SkipSpace(opening[1..]);
    SpaceIsSkipped(text);
    SpaceIsSkipped(opening[1..]);
    assert IsArrayTail(opening, rest);
    if rest != "" && rest[0] == ']' {
      SpaceIsSkipped(rest[1..]);
    } else {
      ReadIsItems(rest);
    }
  }

  /**
    Exactly which texts decode, and to what: `json.loads` yields a list of strings if and only if the
    text is, up to white space, an array of string literals that denote them.
   */
  lemma LoadsExactlyArrays(text: string, items: Perms)
    ensures Loads(text) == Some(items) <==> IsArray(text, items)
  {
    if Loads(text) == Some(items) {
      ReadIsArray(text);
    }
    if IsArray(text, items) {
      ArrayIsRead(text, items);
    }
  }

  // What is written

  lemma {:induction false} EscapeIsAscii(s: string, k: nat)
    requires k < |Escape(s)|
    ensures ' ' <= Escape(s)[k] <= '~'
    decreases |s|
  {
    var first := EscapeChar(s[0]);
    if k < |first| {
      EscapedCharIsAscii(s[0], k);
    } else {
      EscapeIsAscii(s[1..], k - |first|);
    }
  }

  lemma HexIsAscii(n: nat, k: nat)
    requires n < 0x10000 && k < 4
    ensures ' ' <= Hex4(n)[k] <= '~'
  {
  }

  lemma EscapedCharIsAscii(c: char, k: nat)
    requires k < |EscapeChar(c)|
    ensures ' ' <= EscapeChar(c)[k] <= '~'
  {
    var n := c as nat;
    if !Plain(c) && ShortEscape(c).None? {
      if n < 0x10000 {
        if 2 <= k { HexIsAscii(n, k - 2); }
      } else {
        SurrogatesRecombine(n);
        if 2 <= k < 6 { HexIsAscii(HighSurrogate(n), k - 2); }
        if 8 <= k { HexIsAscii(LowSurrogate(n), k - 8); }
      }
    }
  }

  lemma {:induction false} ItemsAreAscii(perms: Perms, separator: string, k: nat)
    requires perms != [] && (separator == ", " || separator == ",") && k < |Items(perms, separator)|
    ensures ' ' <= Items(perms, separator)[k] <= '~'
    decreases |perms|
  {
    var first := Quoted(perms[0]);
    if k < |first| {
      if 0 < k < |first| - 1 {
        EscapeIsAscii(perms[0], k - 1);
        assert first[k] == Escape(perms[0])[k - 1];
      }
    } else if k >= |first| + |separator| {
      ItemsAreAscii(perms[1..], separator, k - |first| - |separator|);
    }
  }

  /** The text `json.dumps` writes is an array that denotes the list, in printable ASCII. */
  lemma DumpsIsAsciiArray(perms: Perms, separator: string)
    requires separator == ", " || separator == ","
    ensures IsArray(Dumps(perms, separator), perms)
    ensures forall k | 0 <= k < |Dumps(perms, separator)| :: ' ' <= Dumps(perms, separator)[k] <= '~'
  {
    JsonRoundTrip(perms, separator);
    LoadsExactlyArrays(Dumps(perms, separator), perms);
    forall k | 0 <= k < |Dumps(perms, separator)|
      ensures ' ' <= Dumps(perms, separator)[k] <= '~'
    {
      if perms != [] && 0 < k < |Dumps(perms, separator)| - 1 {
        ItemsAreAscii(perms, separator, k - 1);
      }
    }
  }
}
