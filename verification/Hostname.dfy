/**
 The hostname of a claims source: the pattern it must match, the checks that follow, and the set of
 strings these accept together.
 */
module Hostname {
  import opened Outcomes
  import opened Strings
  import opened Regexp
  import PercentEncoding
  import UrlPath

  // ----- the pattern -----

  predicate IsDigit(c: char) {
    '0' <= c <= '9'
  }

  predicate IsNonzeroDigit(c: char) {
    '1' <= c <= '9'
  }

  predicate IsAlphanumeric(c: char) {
    'a' <= c <= 'z' || IsDigit(c)
  }

  predicate IsLabelChar(c: char) {
    IsAlphanumeric(c) || c == '-'
  }

  /** [a-z0-9]([-a-z0-9]*[a-z0-9])? */
  function LabelRegex(): Regex {
    Seq(Chars(IsAlphanumeric), Opt(Seq(Star(Chars(IsLabelChar)), Chars(IsAlphanumeric))))
  }

  function IsChar(c: char): char -> bool {
    x => x == c
  }

  /** A label, then any number of dots each followed by a label. */
  function SubdomainRegex(): Regex {
    Seq(LabelRegex(), Star(Seq(Chars(IsChar('.')), LabelRegex())))
  }

  /** (:([1-9]\d{0,4}))? */
  function OptionalPortRegex(): Regex {
    Opt(Seq(Chars(IsChar(':')), Seq(Chars(IsNonzeroDigit), AtMost(Chars(IsDigit), 4))))
  }

  function HostnameRegex(): Regex {
    Seq(SubdomainRegex(), OptionalPortRegex())
  }

  // ----- the checks after the pattern -----

  /** Go's validOptionalPort: empty, or a colon and decimal digits. */
  predicate ValidOptionalPort(port: string) {
    port == "" || (port[0] == ':' && AllChars(port[1..], IsDigit))
  }

  function LastIndexOf(s: string, c: char): (i: int)
    ensures -1 <= i < |s|
    ensures 0 <= i ==> s[i] == c
    ensures forall k | i < k < |s| :: s[k] != c
  {
    if s == "" then -1
    else if s[|s| - 1] == c then |s| - 1
    else LastIndexOf(s[..|s| - 1], c)
  }

  /** Characters that a URL may hold unescaped in its host. */
  predicate IsHostChar(c: char) {
    || PercentEncoding.IsUnreserved(c)
    || c in {'!', '$', '&', '\'', '(', ')', '*', '+', ',', ';', '=', ':', '[', ']', '<', '>', '"'}
    || c as int >= 0x80
  }

  /**
   What url.Parse makes of "https://" followed by `rest`. `Unfollowed` stands for URLs with a query,
   a fragment, user information, escapes or brackets in the host, or several colons in it; the
   program never builds one.
   */
  datatype ParsedHttps = BadControl | BadPort | BadHost | BadPath | Unfollowed | Parsed(host: string)

  function ParseHttps(rest: string): ParsedHttps {
    var authority := UrlPath.FirstSegment(rest);
    var colon := LastIndexOf(authority, ':');
    if '#' in rest || '?' in rest then Unfollowed
    else if exists c | c in rest :: UrlPath.IsControl(c) then BadControl
    else if '@' in authority || '[' in authority || '%' in authority then Unfollowed
    else if 0 <= colon && ':' in authority[..colon] then Unfollowed
    else if 0 <= colon && !ValidOptionalPort(authority[colon..]) then BadPort
    else if exists c | c in authority :: !IsHostChar(c) then BadHost
    else if UrlPath.SetPath(rest[|authority|..]).None? then BadPath
    else Parsed(authority)
  }

  /** URL.Port: what follows the last colon of the host, when that is a port. */
  function PortOf(host: string): string {
    var colon := LastIndexOf(host, ':');
    if colon < 0 || !ValidOptionalPort(host[colon..]) then "" else host[colon + 1..]
  }

  function DigitsValue(s: string): (n: int)
    requires AllChars(s, IsDigit)
    ensures n >= 0
  {
    if s == "" then 0
    else 10 * DigitsValue(s[..|s| - 1]) + (s[|s| - 1] as int - '0' as int)
  }

  const MAX_INT64: int := 0x7fff_ffff_ffff_ffff

  /** strconv.Atoi; `None` is its syntax or range error. */
  function Atoi(s: string): Option<int> {
    var signed := s != "" && (s[0] == '+' || s[0] == '-');
    var digits := if signed then s[1..] else s;
    if digits == "" || !AllChars(digits, IsDigit) then None
    else
      var n := if signed && s[0] == '-' then -DigitsValue(digits) else DigitsValue(digits);
      if -MAX_INT64 - 1 <= n <= MAX_INT64 then Some(n) else None
  }

  datatype Verdict = Accepted | PatternMismatch | Unparseable | BadPortNumber | PortTooLarge

  const MAX_PORT := 65535

  function CheckPort(port: string): Verdict {
    if port == "" then Accepted
    else match Atoi(port)
      case None => BadPortNumber
      case Some(n) => if n > MAX_PORT then PortTooLarge else Accepted
  }

  function CheckParse(s: string): Verdict {
    match ParseHttps(s)
    case Parsed(host) => CheckPort(PortOf(host))
    case _ => Unparseable
  }

  /** The checks on a non-empty hostname, in the order the validator makes them. */
  function CheckHostname(s: string): Verdict {
    if Matches(HostnameRegex(), s) then CheckParse(s) else PatternMismatch
  }

  // ----- which strings are hostnames -----

  predicate IsLabel(s: string) {
    && s != ""
    && AllChars(s, IsLabelChar)
    && IsAlphanumeric(s[0])
    && IsAlphanumeric(s[|s| - 1])
  }

  /** Dot-separated labels. */
  predicate IsSubdomain(s: string) {
    forall i | 0 <= i < |Split(s, '.')| :: IsLabel(Split(s, '.')[i])
  }

  /** The canonical decimal numeral. */
  function Decimal(n: nat): string {
    if n < 10 then ['0' + n as char] else Decimal(n / 10) + ['0' + (n % 10) as char]
  }

  /** A subdomain name, optionally followed by a colon and the decimal of a port number. */
  ghost predicate IsHostname(s: string) {
    || IsSubdomain(s)
    || exists host, port :: IsSubdomain(host) && 1 <= port <= 65535 && s == host + ":" + Decimal(port)
  }

  /** A label in other words: lowercase letters, digits and inner hyphens. */
  lemma LabelExactly(s: string)
    ensures IsLabel(s)
            <==> && s != "" && s[0] != '-' && s[|s| - 1] != '-'
                 && forall i | 0 <= i < |s| ::
                      s[i] in PercentEncoding.LOWER || s[i] in PercentEncoding.DIGITS || s[i] == '-'
  {
    hide PercentEncoding.LOWER, PercentEncoding.DIGITS;
    forall i | 0 <= i < |s|
      ensures s[i] in PercentEncoding.LOWER <==> 'a' <= s[i] <= 'z'
      ensures s[i] in PercentEncoding.DIGITS <==> '0' <= s[i] <= '9'
    {
      PercentEncoding.LowerExactly(s[i]);
      PercentEncoding.DigitsExactly(s[i]);
    }
  }

  // ----- the pattern matches subdomain names with a port of up to five digits -----

  lemma LabelMatches(s: string)
    ensures Matches(LabelRegex(), s) <==> IsLabel(s)
  {
    var last := Seq(Star(Chars(IsLabelChar)), Chars(IsAlphanumeric));
    SeqChars(IsAlphanumeric, Opt(last), s);
    if |s| >= 2 {
      var t := s[1..];
      var middle := t[..|t| - 1];
      SeqLastChar(Star(Chars(IsLabelChar)), IsAlphanumeric, t);
      StarChars(IsLabelChar, middle);
      assert forall i | 0 < i < |s| - 1 :: s[i] == middle[i - 1];
    }
  }

  lemma LabelHasNoDot(s: string)
    requires IsLabel(s)
    ensures '.' !in s && ':' !in s
  {
  }

  lemma SubdomainCons(first: string, rest: string)
    requires IsLabel(first)
    ensures IsSubdomain(first)
    ensures IsSubdomain(first + "." + rest) <==> IsSubdomain(rest)
  {
    LabelHasNoDot(first);
    hide IsLabel, Split;
    SplitPiece(first, '.');
    SplitFirst(first, '.', rest);
    var parts := Split(first + "." + rest, '.');
    assert first + ['.'] + rest == first + "." + rest;
    assert parts == [first] + Split(rest, '.');
    if IsSubdomain(first + "." + rest) {
      forall i | 0 <= i < |Split(rest, '.')| ensures IsLabel(Split(rest, '.')[i]) {
        assert Split(rest, '.')[i] == parts[i + 1];
      }
    }
  }

  /** A subdomain name is one label, or a label, a dot and a subdomain name. */
  lemma SubdomainFirst(s: string) returns (first: string, rest: string)
    requires IsSubdomain(s)
    ensures IsLabel(first)
    ensures s == first || (s == first + "." + rest && IsSubdomain(rest))
  {
    var i := IndexOf(s, '.');
    first, rest := s[..i], if i == |s| then "" else s[i + 1..];
    assert Split(s, '.')[0] == first;
    if i < |s| {
      assert s == first + "." + rest;
      SubdomainCons(first, rest);
    }
  }

  function DottedLabels(): Regex {
    Star(Seq(Chars(IsChar('.')), LabelRegex()))
  }

  lemma DottedLabelMatches(s: string)
    ensures Matches(Seq(Chars(IsChar('.')), LabelRegex()), s)
            <==> s != "" && s[0] == '.' && IsLabel(s[1..])
  {
    SeqChars(IsChar('.'), LabelRegex(), s);
    if s != "" {
      LabelMatches(s[1..]);
    }
  }

  /** The repeated part of the pattern matches nothing, or a dot and a subdomain name. */
  lemma {:induction false} DottedLabelsSound(s: string)
    requires s != "" && Matches(DottedLabels(), s)
    ensures s[0] == '.' && IsSubdomain(s[1..])
    decreases |s|
  {
    var one := Seq(Chars(IsChar('.')), LabelRegex());
    var k :| 1 <= k <= |s| && Matches(one, s[..k]) && Matches(DottedLabels(), s[k..]);
    DottedLabelMatches(s[..k]);
    var first := s[..k][1..];
    if k == |s| {
      assert s[1..] == first;
      SubdomainCons(first, "");
    } else {
      DottedLabelsSound(s[k..]);
      assert s[1..] == first + "." + s[k..][1..];
      SubdomainCons(first, s[k..][1..]);
    }
  }

  lemma {:induction false} DottedLabelsComplete(s: string)
    requires IsSubdomain(s)
    ensures Matches(DottedLabels(), "." + s)
    decreases |s|
  {
    var one := Seq(Chars(IsChar('.')), LabelRegex());
    var first, rest := SubdomainFirst(s);
    DottedLabelMatches("." + first);
    assert ("." + first)[1..] == first;
    if s == first {
      MatchStarMore(one, "." + first, "");
      assert "." + first + "" == "." + s;
    } else {
      DottedLabelsComplete(rest);
      MatchStarMore(one, "." + first, "." + rest);
      assert "." + first + ("." + rest) == "." + s;
    }
  }

  lemma DottedLabelsMatch(s: string)
    ensures Matches(DottedLabels(), s) <==> s == "" || (s[0] == '.' && IsSubdomain(s[1..]))
  {
    if s != "" && s[0] == '.' && IsSubdomain(s[1..]) {
      DottedLabelsComplete(s[1..]);
      assert s == "." + s[1..];
    } else if s != "" && Matches(DottedLabels(), s) {
      DottedLabelsSound(s);
    }
  }

  lemma SubdomainSound(s: string)
    requires Matches(SubdomainRegex(), s)
    ensures IsSubdomain(s)
  {
    SeqMatches(LabelRegex(), DottedLabels(), s);
    hide Matches, IsSubdomain, LabelRegex, IsLabel;
    var k :| 0 <= k <= |s| && Matches(LabelRegex(), s[..k]) && Matches(DottedLabels(), s[k..]);
    LabelMatches(s[..k]);
    DottedLabelsMatch(s[k..]);
    if k == |s| {
      assert s[..k] == s;
      SubdomainCons(s, "");
    } else {
      assert s == s[..k] + "." + s[k..][1..];
      SubdomainCons(s[..k], s[k..][1..]);
    }
  }

  lemma SubdomainComplete(s: string)
    requires IsSubdomain(s)
    ensures Matches(SubdomainRegex(), s)
  {
    hide Matches, IsSubdomain, IsLabel;
    var first, rest := SubdomainFirst(s);
    LabelMatches(first);
    var tail := s[|first|..];
    DottedLabelsMatch(tail);
    if s != first { assert tail[1..] == rest; }
    assert s == first + tail;
    MatchSeq(LabelRegex(), DottedLabels(), first, tail);
  }

  lemma SubdomainMatches(s: string)
    ensures Matches(SubdomainRegex(), s) <==> IsSubdomain(s)
  {
    if Matches(SubdomainRegex(), s) {
      SubdomainSound(s);
    }
    if IsSubdomain(s) {
      SubdomainComplete(s);
    }
  }

  /** A colon and up to five digits, the first not zero. */
  predicate IsShortPort(s: string) {
    && 2 <= |s| <= 6
    && s[0] == ':'
    && IsNonzeroDigit(s[1])
    && AllChars(s[1..], IsDigit)
  }

  lemma PortMatches(s: string)
    ensures Matches(OptionalPortRegex(), s) <==> s == "" || IsShortPort(s)
  {
    var digits := Seq(Chars(IsNonzeroDigit), AtMost(Chars(IsDigit), 4));
    SeqChars(IsChar(':'), digits, s);
    if s != "" {
      SeqChars(IsNonzeroDigit, AtMost(Chars(IsDigit), 4), s[1..]);
      if |s| > 1 {
        AtMostChars(IsDigit, 4, s[1..][1..]);
        if AllChars(s[1..][1..], IsDigit) && IsNonzeroDigit(s[1]) {
          forall i | 0 <= i < |s[1..]| ensures IsDigit(s[1..][i]) {
            if i > 0 { assert s[1..][i] == s[1..][1..][i - 1]; }
          }
        }
      }
    }
  }

  /** The pattern matches a subdomain name with or without such a port. */
  lemma PatternMatches(s: string)
    ensures Matches(HostnameRegex(), s) <==>
            exists k | 0 <= k <= |s| :: IsSubdomain(s[..k]) && (s[k..] == "" || IsShortPort(s[k..]))
  {
    forall k | 0 <= k <= |s|
      ensures Matches(SubdomainRegex(), s[..k]) && Matches(OptionalPortRegex(), s[k..])
              <==> IsSubdomain(s[..k]) && (s[k..] == "" || IsShortPort(s[k..]))
    {
      SubdomainMatches(s[..k]);
      PortMatches(s[k..]);
    }
  }

  // ----- the accepted strings -----

  function Power10(k: nat): (p: int)
    ensures p >= 1
  {
    if k == 0 then 1 else 10 * Power10(k - 1)
  }

  /** A numeral is digits without a leading zero, has the value it stands for, and is short. */
  lemma {:induction false} DecimalIsNumeral(n: nat, k: nat)
    requires 1 <= n < Power10(k)
    ensures 1 <= |Decimal(n)| <= k
    ensures AllChars(Decimal(n), IsDigit) && IsNonzeroDigit(Decimal(n)[0])
    ensures DigitsValue(Decimal(n)) == n
  {
    var s := Decimal(n);
    if n < 10 {
      assert s[..0] == "" && DigitsValue(s[..0]) == 0;
    } else {
      DecimalIsNumeral(n / 10, k - 1);
      assert s[..|s| - 1] == Decimal(n / 10);
    }
  }

  /** Digits without a leading zero are the numeral of their value. */
  lemma {:induction false} NumeralIsDecimal(s: string)
    requires s != "" && AllChars(s, IsDigit) && IsNonzeroDigit(s[0])
    ensures Decimal(DigitsValue(s)) == s
    ensures 1 <= DigitsValue(s) < Power10(|s|)
  {
    var front, last := s[..|s| - 1], s[|s| - 1];
    if |s| == 1 {
      assert front == "" && DigitsValue(front) == 0;
      assert Power10(1) == 10 * Power10(0);
    } else {
      NumeralIsDecimal(front);
      assert s == front + [last];
      var d := last as int - '0' as int;
      assert DigitsValue(s) / 10 == DigitsValue(front) && DigitsValue(s) % 10 == d;
    }
  }

  lemma LastIndexOfUnique(s: string, c: char, i: int)
    requires -1 <= i < |s| && forall k | i < k < |s| :: s[k] != c
    requires 0 <= i ==> s[i] == c
    ensures LastIndexOf(s, c) == i
  {
    hide LastIndexOf;
    var j := LastIndexOf(s, c);
    assert 0 <= i ==> s[i] == c;
    assert 0 <= j ==> s[j] == c;
  }

  predicate IsSubdomainChar(c: char) {
    IsLabelChar(c) || c == '.'
  }

  lemma SubdomainChars(s: string)
    requires IsSubdomain(s)
    ensures s != "" && AllChars(s, IsSubdomainChar)
  {
    JoinSplit(s, '.');
    JoinChars(Split(s, '.'), '.', IsSubdomainChar);
    if s == "" {
      SplitPiece("", '.');
    }
  }

  /** The characters of anything the pattern matches. */
  predicate IsHostnameChar(c: char) {
    IsSubdomainChar(c) || c == ':'
  }

  lemma HostChars(host: string, port: string)
    requires IsSubdomain(host) && (port == "" || IsShortPort(port))
    ensures host + port != "" && AllChars(host + port, IsHostnameChar)
    ensures LastIndexOf(host + port, ':') == if port == "" then -1 else |host|
    ensures (host + port)[..|host|] == host && (host + port)[|host|..] == port
    ensures ':' !in host && ValidOptionalPort(port)
  {
    SubdomainChars(host);
    var s := host + port;
    forall i | 0 <= i < |s| ensures IsHostnameChar(s[i]) {
      if i > |host| { assert s[i] == port[1..][i - |host| - 1]; }
    }
    if port == "" {
      assert s == host;
      LastIndexOfUnique(s, ':', -1);
    } else {
      assert forall k | |host| < k < |s| :: s[k] == port[1..][k - |host| - 1];
      LastIndexOfUnique(s, ':', |host|);
    }
  }

  /** What may follow the host in a request: nothing, or a decodable path. */
  predicate IsRequestPath(path: string) {
    || path == ""
    || (path[0] == '/' && AllChars(path, UrlPath.IsPathChar) && PercentEncoding.Unescape(path).Some?)
  }

  lemma RequestChars(s: string, path: string)
    requires AllChars(s, IsHostnameChar) && IsRequestPath(path)
    ensures '#' !in s + path && '?' !in s + path
    ensures !exists c | c in s + path :: UrlPath.IsControl(c)
    ensures UrlPath.FirstSegment(s + path) == s && (s + path)[|s|..] == path
    ensures !exists c | c in s :: !IsHostChar(c)
    ensures '@' !in s && '[' !in s && '%' !in s
    ensures UrlPath.SetPath(path).Some?
  {
    forall c | c in s + path ensures IsHostnameChar(c) || UrlPath.IsPathChar(c) {
      var i :| 0 <= i < |s + path| && (s + path)[i] == c;
      if i < |s| { assert c == s[i]; } else { assert c == path[i - |s|]; }
    }
    forall c | c in s ensures IsHostnameChar(c) {
      var i :| 0 <= i < |s| && s[i] == c;
    }
    assert (s + path)[..|s|] == s;
    IndexOfUnique(s + path, '/', |s|);
  }

  /** url.Parse accepts every host the pattern matches, with or without a request path after it. */
  lemma PatternHostParses(host: string, port: string, path: string)
    requires IsSubdomain(host) && (port == "" || IsShortPort(port)) && IsRequestPath(path)
    ensures ParseHttps(host + port + path) == Parsed(host + port)
    ensures PortOf(host + port) == if port == "" then "" else port[1..]
  {
    hide IsSubdomain, IsShortPort, IsRequestPath, AllChars, LastIndexOf, ValidOptionalPort;
    hide IsHostChar, UrlPath.IsControl, UrlPath.SetPath, UrlPath.FirstSegment;
    var s := host + port;
    HostChars(host, port);
    RequestChars(s, path);
    if port != "" {
      assert s[|host| + 1..] == port[1..];
    }
  }

  lemma ShortPortColon(port: string)
    requires IsShortPort(port)
    ensures port == ":" + port[1..] && AllChars(port[1..], IsDigit)
  {
  }

  lemma ShortPortNumber(port: string)
    requires IsShortPort(port)
    ensures Atoi(port[1..]) == Some(DigitsValue(port[1..]))
    ensures Decimal(DigitsValue(port[1..])) == port[1..] && DigitsValue(port[1..]) >= 1
  {
    NumeralIsDecimal(port[1..]);
    assert Power10(5) == 100000 && Power10(4) == 10000 && Power10(3) == 1000;
    assert Power10(2) == 100 && Power10(1) == 10;
  }

  /** The pattern matches exactly the strings made of these parts. */
  lemma PatternOnParts(host: string, port: string)
    requires IsSubdomain(host) && (port == "" || IsShortPort(port))
    ensures Matches(HostnameRegex(), host + port)
  {
    SubdomainMatches(host);
    PortMatches(port);
    MatchSeq(SubdomainRegex(), OptionalPortRegex(), host, port);
  }

  lemma ParseOnParts(host: string, port: string)
    requires IsSubdomain(host) && (port == "" || IsShortPort(port))
    ensures CheckParse(host + port) == CheckPort(if port == "" then "" else port[1..])
  {
    hide IsSubdomain, IsShortPort, AllChars, ParseHttps, PortOf, CheckPort;
    PatternHostParses(host, port, "");
    assert host + port + "" == host + port;
  }

  /** The verdict on a string that the pattern splits into a host and a port. */
  lemma VerdictOnParts(host: string, port: string)
    requires IsSubdomain(host) && (port == "" || IsShortPort(port))
    ensures CheckHostname(host + port) ==
            if port != "" && DigitsValue(port[1..]) > MAX_PORT then PortTooLarge else Accepted
  {
    hide IsSubdomain, AllChars, Matches, CheckParse, HostnameRegex, Decimal, DigitsValue, Atoi;
    PatternOnParts(host, port);
    ParseOnParts(host, port);
    if port != "" {
      ShortPortNumber(port);
    }
  }

  lemma DecimalIsShortPort(port: nat)
    requires 1 <= port <= MAX_PORT
    ensures IsShortPort(":" + Decimal(port))
    ensures DigitsValue((":" + Decimal(port))[1..]) == port
  {
    assert Power10(5) == 100000 && Power10(4) == 10000 && Power10(3) == 1000;
    assert Power10(2) == 100 && Power10(1) == 10;
    DecimalIsNumeral(port, 5);
    assert (":" + Decimal(port))[1..] == Decimal(port);
  }

  /** The host and port that an accepted string consists of. */
  lemma HostnameParts(s: string) returns (host: string, port: string)
    requires Matches(HostnameRegex(), s)
    ensures IsSubdomain(host) && (port == "" || IsShortPort(port)) && s == host + port
  {
    PatternMatches(s);
    var k :| 0 <= k <= |s| && IsSubdomain(s[..k]) && (s[k..] == "" || IsShortPort(s[k..]));
    host, port := s[..k], s[k..];
  }

  lemma NumberedHostIsAccepted(host: string, port: nat)
    requires IsSubdomain(host) && 1 <= port <= MAX_PORT
    ensures CheckHostname(host + ":" + Decimal(port)) == Accepted
  {
    hide *;
    DecimalIsShortPort(port);
    VerdictOnParts(host, ":" + Decimal(port));
    assert host + (":" + Decimal(port)) == host + ":" + Decimal(port);
  }

  lemma HostnameIsAccepted(s: string)
    requires IsHostname(s)
    ensures CheckHostname(s) == Accepted
  {
    hide IsSubdomain, CheckHostname, Decimal;
    if IsSubdomain(s) {
      VerdictOnParts(s, "");
      assert s + "" == s;
    } else {
      var host, port :| IsSubdomain(host) && 1 <= port <= 65535 && s == host + ":" + Decimal(port);
      NumberedHostIsAccepted(host, port);
    }
  }

  lemma AcceptedIsHostname(s: string)
    requires CheckHostname(s) == Accepted
    ensures IsHostname(s)
  {
    hide IsSubdomain, IsShortPort, Matches, HostnameRegex, CheckParse, Decimal, DigitsValue, Atoi;
    var host, port := HostnameParts(s);
    VerdictOnParts(host, port);
    if port == "" {
      assert host + port == host;
    } else {
      ShortPortNumber(port);
      ShortPortColon(port);
      assert port == ":" + port[1..];
      assert s == host + ":" + Decimal(DigitsValue(port[1..]));
    }
  }

  /**
   The validator's pattern, URL parse and port bound together accept exactly the dot-separated
   labels optionally followed by a colon and the decimal of a number from 1 to 65535.
   */
  lemma AcceptedHostnames(s: string)
    ensures CheckHostname(s) == Accepted <==> IsHostname(s)
  {
    hide *;
    if IsHostname(s) {
      HostnameIsAccepted(s);
    }
    if CheckHostname(s) == Accepted {
      AcceptedIsHostname(s);
    }
  }

  /** The documented limit of 253 characters is not checked: there are accepted hostnames of every length. */
  lemma NoLengthLimit(n: nat) returns (s: string)
    requires n > 0
    ensures |s| == n && CheckHostname(s) == Accepted
  {
    s := seq(n, _ => 'a');
    SubdomainCons(s, "");
    hide IsSubdomain;
    AcceptedHostnames(s);
  }

  /** Once the pattern accepts, neither the URL parse nor the port conversion can fail. */
  lemma ParseErrorsUnreachable(s: string)
    ensures CheckHostname(s) != Unparseable && CheckHostname(s) != BadPortNumber
  {
    hide Matches, HostnameRegex, CheckParse, IsSubdomain, DigitsValue;
    if Matches(HostnameRegex(), s) {
      var host, port := HostnameParts(s);
      VerdictOnParts(host, port);
    }
  }

  lemma PartsParse(host: string, port: string, path: string)
    requires IsSubdomain(host) && (port == "" || IsShortPort(port)) && IsRequestPath(path)
    ensures '/' !in host + port
    ensures ParseHttps(host + port + path) == Parsed(host + port)
  {
    hide IsSubdomain, IsShortPort, IsRequestPath, AllChars, ParseHttps;
    HostChars(host, port);
    PatternHostParses(host, port, path);
    RequestChars(host + port, path);
    assert (host + port + path)[..|host + port|] == host + port;
  }

  /** A request to an accepted hostname parses, whatever well-formed path it carries. */
  lemma AcceptedHostnameParses(s: string, path: string)
    requires CheckHostname(s) == Accepted && IsRequestPath(path)
    ensures '/' !in s
    ensures ParseHttps(s + path) == Parsed(s)
  {
    hide IsSubdomain, IsShortPort, IsRequestPath, Matches, HostnameRegex, CheckParse, ParseHttps;
    var host, port := HostnameParts(s);
    PartsParse(host, port, path);
  }

  lemma EmptyIsNoHostname()
    ensures !IsHostname("")
  {
    SplitPiece("", '.');
    assert Split("", '.')[0] == "";
  }
}
