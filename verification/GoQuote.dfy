/**
 How a claim value becomes the raw JSON of a claim: the program prints it with Go's %q verb, and the
 claims are later decoded as JSON (section 7 of RFC 8259). Strings here are sequences of Unicode
 characters, which is what CEL strings are.
 */
module GoQuote {
  import opened Outcomes
  import opened PercentEncoding

  function LowerHex(n: int): (c: char)
    requires 0 <= n < 16
    ensures IsHex(c) && HexValue(c) == n
  {
    if n < 10 then '0' + n as char else 'a' + (n - 10) as char
  }

  /** The last `width` hexadecimal digits of n. */
  function HexDigits(n: nat, width: nat): (s: string)
    ensures |s| == width
  {
    if width == 0 then "" else HexDigits(n / 16, width - 1) + [LowerHex(n % 16)]
  }

  /**
   Go's table of printable characters. All that matters of it is that among ASCII characters
   exactly those from space to tilde are printable.
   */
  ghost predicate IsPrintTable(isPrint: char -> bool) {
    forall c: char :: c as int < 0x80 ==> (isPrint(c) <==> ' ' <= c <= '~')
  }

  /** strconv.Quote on one character. */
  function QuoteChar(isPrint: char -> bool, c: char): string {
    var n := c as int;
    if c == '"' || c == '\\' then ['\\', c]
    else if isPrint(c) then [c]
    else if n == 7 then "\\a"
    else if n == 8 then "\\b"
    else if n == 12 then "\\f"
    else if n == 10 then "\\n"
    else if n == 13 then "\\r"
    else if n == 9 then "\\t"
    else if n == 11 then "\\v"
    else if n < 0x20 || n == 0x7f then "\\x" + HexDigits(n, 2)
    else if n < 0x10000 then "\\u" + HexDigits(n, 4)
    else "\\U" + HexDigits(n, 8)
  }

  function QuoteBody(isPrint: char -> bool, s: string): string {
    if s == "" then "" else QuoteChar(isPrint, s[0]) + QuoteBody(isPrint, s[1..])
  }

  /** strconv.Quote, which the %q verb prints. */
  function Quote(isPrint: char -> bool, s: string): string {
    "\"" + QuoteBody(isPrint, s) + "\""
  }

  // ----- JSON strings -----

  /** The number that four hexadecimal digits at the start of `s` write. */
  function FourHex(s: string): (n: Option<int>)
    ensures n.Some? ==> 0 <= n.value < 0x10000
  {
    if |s| < 4 || !IsHex(s[0]) || !IsHex(s[1]) || !IsHex(s[2]) || !IsHex(s[3]) then None
    else Some(((HexValue(s[0]) * 16 + HexValue(s[1])) * 16 + HexValue(s[2])) * 16 + HexValue(s[3]))
  }

  predicate IsHighSurrogate(n: int) {
    0xD800 <= n < 0xDC00
  }

  predicate IsLowSurrogate(n: int) {
    0xDC00 <= n < 0xE000
  }

  const REPLACEMENT: char := '\U{FFFD}'

  /** A \u escape: the character it writes and the number of characters it takes after the \u. */
  function UnicodeEscape(s: string): (r: Option<(char, nat)>)
    ensures r.Some? ==> r.value.1 <= |s|
  {
    match FourHex(s)
    case None => None
    case Some(n) =>
      if !IsHighSurrogate(n) && !IsLowSurrogate(n) then Some((n as char, 4))
      else if IsHighSurrogate(n) && |s| >= 10 && s[4] == '\\' && s[5] == 'u'
           && FourHex(s[6..]).Some? && IsLowSurrogate(FourHex(s[6..]).value)
      then
        Some(((0x10000 + (n - 0xD800) * 0x400 + (FourHex(s[6..]).value - 0xDC00)) as char, 10))
      else Some((REPLACEMENT, 4))
  }

  /** The string after its opening quote; `None` when it is not a JSON string. */
  function DecodeBody(s: string): Option<string>
    decreases |s|
  {
    if s == "" then None
    else if s[0] == '"' then
      if |s| == 1 then Some("") else None
    else if s[0] == '\\' then
      if |s| < 2 then None
      else if s[1] in {'"', '\\', '/'} then Prepend(s[1], DecodeBody(s[2..]))
      else if s[1] == 'b' then Prepend(8 as char, DecodeBody(s[2..]))
      else if s[1] == 'f' then Prepend(12 as char, DecodeBody(s[2..]))
      else if s[1] == 'n' then Prepend('\n', DecodeBody(s[2..]))
      else if s[1] == 'r' then Prepend('\r', DecodeBody(s[2..]))
      else if s[1] == 't' then Prepend('\t', DecodeBody(s[2..]))
      else if s[1] == 'u' then
        match UnicodeEscape(s[2..])
        case None => None
        case Some((c, width)) => Prepend(c, DecodeBody(s[2 + width..]))
      else None
    else if s[0] < ' ' then None
    else Prepend(s[0], DecodeBody(s[1..]))
  }

  function DecodeJSONString(s: string): Option<string> {
    if s == "" || s[0] != '"' then None else DecodeBody(s[1..])
  }

  // ----- when the two agree -----

  /** The characters that Go quotes with an escape JSON does not have: \a, \v, \x or \U. */
  predicate NeedsGoEscape(isPrint: char -> bool, c: char) {
    var n := c as int;
    || n == 0x7f
    || (n < 0x20 && n !in {8, 9, 10, 12, 13})
    || (n >= 0x10000 && !isPrint(c))
  }

  lemma FourHexDigits(n: nat)
    ensures HexDigits(n, 4) == [LowerHex(n / 16 / 16 / 16 % 16), LowerHex(n / 16 / 16 % 16),
                                LowerHex(n / 16 % 16), LowerHex(n % 16)]
  {
    assert HexDigits(n / 16 / 16 / 16, 1) == [LowerHex(n / 16 / 16 / 16 % 16)];
    assert HexDigits(n / 16 / 16, 2) == HexDigits(n / 16 / 16 / 16, 1) + [LowerHex(n / 16 / 16 % 16)];
    assert HexDigits(n / 16, 3) == HexDigits(n / 16 / 16, 2) + [LowerHex(n / 16 % 16)];
  }

  lemma FourHexOf(a: nat, b: nat, c: nat, d: nat, rest: string)
    requires a < 16 && b < 16 && c < 16 && d < 16
    ensures FourHex([LowerHex(a), LowerHex(b), LowerHex(c), LowerHex(d)] + rest)
            == Some(((a * 16 + b) * 16 + c) * 16 + d)
  {
  }

  lemma FourNibbles(n: nat)
    requires n < 0x10000
    ensures ((n / 16 / 16 / 16 % 16 * 16 + n / 16 / 16 % 16) * 16 + n / 16 % 16) * 16 + n % 16 == n
  {
    var a := n / 16;
    var b := a / 16;
    assert n == 16 * a + n % 16 && a == 16 * b + a % 16 && b == 16 * (b / 16) + b % 16;
  }

  lemma HexDigitsRead(n: nat, rest: string)
    requires n < 0x10000
    ensures FourHex(HexDigits(n, 4) + rest) == Some(n)
  {
    FourHexDigits(n);
    FourHexOf(n / 16 / 16 / 16 % 16, n / 16 / 16 % 16, n / 16 % 16, n % 16, rest);
    FourNibbles(n);
  }

  lemma DecodeUnicodeEscape(n: nat, rest: string)
    requires n < 0x10000 && !IsHighSurrogate(n) && !IsLowSurrogate(n)
    ensures DecodeBody("\\u" + HexDigits(n, 4) + rest) == Prepend(n as char, DecodeBody(rest))
  {
    HexDigitsRead(n, rest);
    hide HexDigits, FourHex;
    var s := "\\u" + HexDigits(n, 4) + rest;
    assert s[2..] == HexDigits(n, 4) + rest && s[6..] == rest;
  }

  /** Decoding a quoted character yields it, or fails if JSON has no such escape. */
  lemma DecodeQuotedChar(isPrint: char -> bool, c: char, rest: string)
    requires IsPrintTable(isPrint)
    ensures DecodeBody(QuoteChar(isPrint, c) + rest) ==
            if NeedsGoEscape(isPrint, c) then None else Prepend(c, DecodeBody(rest))
  {
    var q := QuoteChar(isPrint, c);
    var s := q + rest;
    hide HexDigits, UnicodeEscape;
    if |q| == 1 {
      assert s[1..] == rest;
    } else if |q| == 2 {
      assert s[2..] == rest;
    } else if q[1] == 'u' {
      DecodeUnicodeEscape(c as int, rest);
    }
  }

  lemma {:induction false} DecodeQuotedBody(isPrint: char -> bool, s: string)
    requires IsPrintTable(isPrint)
    ensures DecodeBody(QuoteBody(isPrint, s) + "\"") ==
            if exists c | c in s :: NeedsGoEscape(isPrint, c) then None else Some(s)
  {
    if s != "" {
      var rest := QuoteBody(isPrint, s[1..]) + "\"";
      DecodeQuotedBody(isPrint, s[1..]);
      DecodeQuotedChar(isPrint, s[0], rest);
      assert QuoteBody(isPrint, s) + "\"" == QuoteChar(isPrint, s[0]) + rest;
      assert s == [s[0]] + s[1..];
    }
  }

  /**
   A claim value printed with %q reads back as the same string if and only if it contains no
   character that Go escapes in a way JSON lacks; otherwise the claim is not valid JSON at all.
   */
  lemma QuoteRoundTrip(isPrint: char -> bool, s: string)
    requires IsPrintTable(isPrint)
    ensures DecodeJSONString(Quote(isPrint, s)) == Some(s)
            <==> forall c | c in s :: !NeedsGoEscape(isPrint, c)
    ensures DecodeJSONString(Quote(isPrint, s)).None?
            <==> exists c | c in s :: NeedsGoEscape(isPrint, c)
  {
    DecodeQuotedBody(isPrint, s);
    assert Quote(isPrint, s)[1..] == QuoteBody(isPrint, s) + "\"";
  }

  /** Text is quoted as it stands exactly if it is printable and has no quotes or backslashes. */
  lemma PlainText(isPrint: char -> bool, s: string)
    ensures Quote(isPrint, s) == "\"" + s + "\""
            <==> forall c | c in s :: isPrint(c) && c != '"' && c != '\\'
  {
    QuotedLength(isPrint, s);
    assert |Quote(isPrint, s)| == |QuoteBody(isPrint, s)| + 2;
    if forall c | c in s :: isPrint(c) && c != '"' && c != '\\' {
      PlainBody(isPrint, s);
    }
  }

  lemma {:induction false} PlainBody(isPrint: char -> bool, s: string)
    requires forall c | c in s :: isPrint(c) && c != '"' && c != '\\'
    ensures QuoteBody(isPrint, s) == s
  {
    if s != "" {
      assert s[0] in s && forall c | c in s[1..] :: c in s;
      PlainBody(isPrint, s[1..]);
      assert [s[0]] + s[1..] == s;
    }
  }

  /** Everything else gets longer. */
  lemma {:induction false} QuotedLength(isPrint: char -> bool, s: string)
    ensures |QuoteBody(isPrint, s)| >= |s|
    ensures (exists c | c in s :: !isPrint(c) || c == '"' || c == '\\') ==> |QuoteBody(isPrint, s)| > |s|
  {
    if s != "" {
      QuotedLength(isPrint, s[1..]);
      assert forall c :: c in s <==> c == s[0] || c in s[1..];
    }
  }

  /** The short escapes that JSON shares. */
  lemma ShortEscapes(isPrint: char -> bool)
    requires IsPrintTable(isPrint)
    ensures Quote(isPrint, "\"") == "\"\\\"\"" && Quote(isPrint, "\\") == "\"\\\\\""
    ensures Quote(isPrint, "\n") == "\"\\n\"" && Quote(isPrint, "\r") == "\"\\r\""
    ensures Quote(isPrint, "\t") == "\"\\t\""
    ensures Quote(isPrint, [8 as char]) == "\"\\b\"" && Quote(isPrint, [12 as char]) == "\"\\f\""
  {
    OneQuoted(isPrint, '"');
    OneQuoted(isPrint, '\\');
    OneQuoted(isPrint, '\n');
    OneQuoted(isPrint, '\r');
    OneQuoted(isPrint, '\t');
    OneQuoted(isPrint, 8 as char);
    OneQuoted(isPrint, 12 as char);
  }

  lemma ControlQuoted(isPrint: char -> bool)
    requires IsPrintTable(isPrint)
    ensures QuoteChar(isPrint, 7 as char) == "\\a" && QuoteChar(isPrint, 11 as char) == "\\v"
    ensures QuoteChar(isPrint, 0x1b as char) == "\\x1b" && QuoteChar(isPrint, 0x7f as char) == "\\x7f"
  {
    assert HexDigits(0x1, 1) == "1" && HexDigits(0x7, 1) == "7";
    assert HexDigits(0x1b, 2) == "1b" && HexDigits(0x7f, 2) == "7f";
  }

  lemma ShortUnicodeQuoted(isPrint: char -> bool)
    ensures !isPrint(0x200b as char) ==> QuoteChar(isPrint, 0x200b as char) == "\\u200b"
  {
    assert HexDigits(0x2, 1) == "2";
    assert HexDigits(0x20, 2) == "20";
    assert HexDigits(0x200, 3) == "200";
    assert HexDigits(0x200b, 4) == "200b";
  }

  lemma LongUnicodeQuoted(isPrint: char -> bool)
    ensures !isPrint(0xe01ef as char) ==> QuoteChar(isPrint, 0xe01ef as char) == "\\U000e01ef"
  {
    hide HexDigits;
    EightHexDigits(0xe01ef);
  }

  /** The escapes that JSON does not have, and how characters that are not printable are written. */
  lemma OtherEscapes(isPrint: char -> bool)
    requires IsPrintTable(isPrint)
    ensures Quote(isPrint, [7 as char]) == "\"\\a\"" && Quote(isPrint, [11 as char]) == "\"\\v\""
    ensures Quote(isPrint, [0x1b as char]) == "\"\\x1b\"" && Quote(isPrint, [0x7f as char]) == "\"\\x7f\""
    ensures !isPrint(0x200b as char) ==> Quote(isPrint, [0x200b as char]) == "\"\\u200b\""
    ensures !isPrint(0xe01ef as char) ==> Quote(isPrint, [0xe01ef as char]) == "\"\\U000e01ef\""
  {
    hide *;
    ControlQuoted(isPrint);
    ShortUnicodeQuoted(isPrint);
    LongUnicodeQuoted(isPrint);
    OneQuoted(isPrint, 7 as char);
    OneQuoted(isPrint, 11 as char);
    OneQuoted(isPrint, 0x1b as char);
    OneQuoted(isPrint, 0x7f as char);
    OneQuoted(isPrint, 0x200b as char);
    OneQuoted(isPrint, 0xe01ef as char);
  }

  lemma EightHexDigits(n: nat)
    requires n == 0xe01ef
    ensures HexDigits(n, 8) == "000e01ef"
  {
    assert HexDigits(0x0, 1) == "0";
    assert HexDigits(0x0, 2) == "00";
    assert HexDigits(0x0, 3) == "000";
    assert HexDigits(0xe, 4) == "000e";
    assert HexDigits(0xe0, 5) == "000e0";
    assert HexDigits(0xe01, 6) == "000e01";
    assert HexDigits(0xe01e, 7) == "000e01e";
  }

  lemma OneQuoted(isPrint: char -> bool, c: char)
    ensures Quote(isPrint, [c]) == "\"" + QuoteChar(isPrint, c) + "\""
  {
    hide QuoteChar;
    assert [c][1..] == "";
    assert QuoteBody(isPrint, "") == "";
  }
}
