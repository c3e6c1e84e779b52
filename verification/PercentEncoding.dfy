/**
 Percent-encoding as Go's net/url does it, for the two modes the program reaches: a whole path and
 a single path segment (`url.PathEscape`). Escapes follow section 2.1 of RFC 3986.
 */
module PercentEncoding {
  import opened Outcomes
  import opened Strings

  datatype Mode = Path | PathSegment

  predicate IsUnreserved(c: char) {
    'a' <= c <= 'z' || 'A' <= c <= 'Z' || '0' <= c <= '9' || c in {'-', '_', '.', '~'}
  }

  /** Whether `c` must be written as an escape in this mode. */
  predicate ShouldEscape(c: char, mode: Mode) {
    if IsUnreserved(c) then false
    else if c in {'$', '&', '+', ',', '/', ':', ';', '=', '?', '@'} then
      match mode
      case Path => c == '?'
      case PathSegment => c in {'/', ';', ',', '?'}
    else true
  }

  function HexDigit(n: int): (c: char)
    requires 0 <= n < 16
    ensures IsHex(c) && HexValue(c) == n && IsUnreserved(c)
  {
    if n < 10 then '0' + n as char else 'A' + (n - 10) as char
  }

  predicate IsHex(c: char) {
    '0' <= c <= '9' || 'A' <= c <= 'F' || 'a' <= c <= 'f'
  }

  function HexValue(c: char): (n: int)
    requires IsHex(c)
    ensures 0 <= n < 16
  {
    if '0' <= c <= '9' then c as int - '0' as int
    else if 'A' <= c <= 'F' then c as int - 'A' as int + 10
    else c as int - 'a' as int + 10
  }

  function EscapeChar(c: char, mode: Mode): string {
    if ShouldEscape(c, mode)
    then ['%', HexDigit(c as int / 16 % 16), HexDigit(c as int % 16)]
    else [c]
  }

  function Escape(s: string, mode: Mode): string {
    if s == "" then "" else EscapeChar(s[0], mode) + Escape(s[1..], mode)
  }

  function PathEscape(s: string): string {
    Escape(s, PathSegment)
  }

  /** `None` when a percent sign is not followed by two hexadecimal digits. */
  function Unescape(s: string): Option<string> {
    if s == "" then Some("")
    else if s[0] == '%' then
      if |s| < 3 || !IsHex(s[1]) || !IsHex(s[2]) then None
      else Prepend((16 * HexValue(s[1]) + HexValue(s[2])) as char, Unescape(s[3..]))
    else Prepend(s[0], Unescape(s[1..]))
  }

  function Prepend(c: char, rest: Option<string>): Option<string> {
    match rest
    case None => None
    case Some(s) => Some([c] + s)
  }

  predicate MayStandInPath(c: char) {
    || c in {'!', '$', '&', '\'', '(', ')', '*', '+', ',', ';', '=', ':', '@', '[', ']', '%'}
    || !ShouldEscape(c, Path)
  }

  /** Whether every character may stand in a path, alone or as part of an escape. */
  predicate ValidEncoded(s: string) {
    AllChars(s, MayStandInPath)
  }

  lemma UnescapeFirst(s: string)
    ensures s == "" ==> Unescape(s) == Some("")
    ensures s != "" && s[0] != '%' ==> Unescape(s) == Prepend(s[0], Unescape(s[1..]))
    ensures |s| >= 3 && s[0] == '%' && IsHex(s[1]) && IsHex(s[2]) ==>
              Unescape(s)
              == Prepend((16 * HexValue(s[1]) + HexValue(s[2])) as char, Unescape(s[3..]))
    ensures s != "" && s[0] == '%' && Unescape(s).Some? ==>
              |s| >= 3 && IsHex(s[1]) && IsHex(s[2])
  {
  }

  lemma PrependConcat(c: char, a: Option<string>, b: Option<string>)
    requires a.Some?
    ensures Prepend(c, if b.Some? then Some(a.value + b.value) else None)
            == if b.Some? then Some(Prepend(c, a).value + b.value) else None
  {
    if b.Some? {
      assert [c] + (a.value + b.value) == ([c] + a.value) + b.value;
    }
  }

  /** Unescaping proceeds left to right, so it distributes over a decodable prefix. */
  lemma {:induction false} UnescapeConcat(a: string, b: string)
    requires Unescape(a).Some?
    ensures Unescape(a + b) ==
            if Unescape(b).Some? then Some(Unescape(a).value + Unescape(b).value) else None
    decreases |a|
  {
    hide Unescape, IsHex, HexValue;
    UnescapeFirst(a);
    UnescapeFirst(a + b);
    if a == "" {
      assert a + b == b;
      if Unescape(b).Some? {
        assert "" + Unescape(b).value == Unescape(b).value;
      }
    } else {
      var k := if a[0] == '%' then 3 else 1;
      assert (a + b)[k..] == a[k..] + b;
      UnescapeConcat(a[k..], b);
      var c := if a[0] == '%' then (16 * HexValue(a[1]) + HexValue(a[2])) as char else a[0];
      PrependConcat(c, Unescape(a[k..]), Unescape(b));
    }
  }

  lemma UnescapeLiteral(c: char)
    requires c != '%'
    ensures Unescape([c]) == Some([c])
  {
    assert [c][1..] == "" && [c] + "" == [c];
  }

  lemma UnescapeHex(high: int, low: int)
    requires 0 <= high < 16 && 0 <= low < 16
    ensures Unescape(['%', HexDigit(high), HexDigit(low)]) == Some([(16 * high + low) as char])
  {
    hide HexDigit, HexValue, IsHex;
    var s := ['%', HexDigit(high), HexDigit(low)];
    var c := (16 * high + low) as char;
    assert s[3..] == "" && Unescape("") == Some("");
    assert [c] + "" == [c];
  }

  lemma UnescapeEscapeChar(c: char, mode: Mode)
    requires IsByte(c)
    ensures Unescape(EscapeChar(c, mode)) == Some([c])
  {
    assert ShouldEscape('%', mode);
    hide Unescape, ShouldEscape, HexDigit;
    if ShouldEscape(c, mode) {
      UnescapeHex(c as int / 16, c as int % 16);
      assert c as int / 16 % 16 == c as int / 16;
    } else {
      UnescapeLiteral(c);
    }
  }

  /** Unescaping undoes escaping, for every byte string and either mode. */
  lemma {:induction false} UnescapeEscape(s: Bytes, mode: Mode)
    ensures Unescape(Escape(s, mode)) == Some(s)
  {
    if s != "" {
      UnescapeEscape(s[1..], mode);
      UnescapeEscapeChar(s[0], mode);
      hide Unescape, EscapeChar;
      UnescapeConcat(EscapeChar(s[0], mode), Escape(s[1..], mode));
      assert s == [s[0]] + s[1..];
    }
  }

  lemma EscapeInjective(s: Bytes, t: Bytes, mode: Mode)
    requires Escape(s, mode) == Escape(t, mode)
    ensures s == t
  {
    UnescapeEscape(s, mode);
    UnescapeEscape(t, mode);
  }

  /** The characters `PathEscape` can produce. */
  predicate IsSegmentChar(c: char) {
    IsUnreserved(c) || c in {'$', '&', '+', ':', '=', '@', '%'}
  }

  lemma {:induction false} PathEscapeChars(s: string)
    ensures AllChars(PathEscape(s), IsSegmentChar)
  {
    if s != "" {
      PathEscapeChars(s[1..]);
    }
  }

  const UPPER := "ABCDEFGHIJKLMNOPQRSTUVWXYZ"
  const LOWER := "abcdefghijklmnopqrstuvwxyz"
  const DIGITS := "0123456789"
  const MARKS := "-_.~$&+=:@"
  const SEGMENT_CHARS := UPPER + LOWER + DIGITS + MARKS
  const HEX_DIGITS := "0123456789ABCDEF"

  /** Each byte that may stand in a segment stands for itself, every other one as % and two digits. */
  lemma PathEscapeExactly(c: char, rest: Bytes)
    requires IsByte(c)
    ensures PathEscape("") == ""
    ensures PathEscape([c] + rest) ==
            (if c in SEGMENT_CHARS then [c]
             else ['%', HEX_DIGITS[c as int / 16], HEX_DIGITS[c as int % 16]]) + PathEscape(rest)
  {
    assert ([c] + rest)[1..] == rest;
    EscapeCharExactly(c);
  }

  lemma HexDigitExactly(n: int)
    requires 0 <= n < 16
    ensures HexDigit(n) == HEX_DIGITS[n]
  {
  }

  lemma UpperExactly(c: char)
    ensures c in UPPER <==> 'A' <= c <= 'Z'
  {
    assert forall i | 0 <= i < |UPPER| :: UPPER[i] as int == 'A' as int + i;
    if 'A' <= c <= 'Z' { assert UPPER[c as int - 'A' as int] == c; }
  }

  lemma LowerExactly(c: char)
    ensures c in LOWER <==> 'a' <= c <= 'z'
  {
    assert forall i | 0 <= i < |LOWER| :: LOWER[i] as int == 'a' as int + i;
    if 'a' <= c <= 'z' { assert LOWER[c as int - 'a' as int] == c; }
  }

  lemma DigitsExactly(c: char)
    ensures c in DIGITS <==> '0' <= c <= '9'
  {
    assert forall i | 0 <= i < |DIGITS| :: DIGITS[i] as int == '0' as int + i;
    if '0' <= c <= '9' { assert DIGITS[c as int - '0' as int] == c; }
  }

  lemma MarksExactly(c: char)
    ensures c in MARKS <==> c in {'-', '_', '.', '~', '$', '&', '+', '=', ':', '@'}
  {
    assert MARKS[0] == '-' && MARKS[1] == '_' && MARKS[2] == '.' && MARKS[3] == '~' && MARKS[4] == '$';
    assert MARKS[5] == '&' && MARKS[6] == '+' && MARKS[7] == '=' && MARKS[8] == ':' && MARKS[9] == '@';
  }

  lemma SegmentCharsExactly(c: char)
    requires IsByte(c)
    ensures ShouldEscape(c, PathSegment) <==> c !in SEGMENT_CHARS
  {
    hide UPPER, LOWER, DIGITS, MARKS;
    UpperExactly(c);
    LowerExactly(c);
    DigitsExactly(c);
    MarksExactly(c);
  }

  lemma EscapeCharExactly(c: char)
    requires IsByte(c)
    ensures EscapeChar(c, PathSegment) ==
            if c in SEGMENT_CHARS then [c]
            else ['%', HEX_DIGITS[c as int / 16], HEX_DIGITS[c as int % 16]]
  {
    hide ShouldEscape, HexDigit, UPPER, LOWER, DIGITS, MARKS;
    SegmentCharsExactly(c);
    HexDigitExactly(c as int / 16);
    HexDigitExactly(c as int % 16);
  }

  /** Only the byte strings that a path treats specially look special once escaped. */
  lemma PathEscapeSpecial(s: Bytes)
    ensures PathEscape(s) == "" <==> s == ""
    ensures PathEscape(s) == "." <==> s == "."
    ensures PathEscape(s) == ".." <==> s == ".."
  {
    assert PathEscape(".") == "." && PathEscape("..") == "..";
    if PathEscape(s) == "." { EscapeInjective(s, ".", PathSegment); }
    if PathEscape(s) == ".." { EscapeInjective(s, "..", PathSegment); }
  }
}
