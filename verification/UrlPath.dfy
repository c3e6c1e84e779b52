/**
 The parts of Go's net/url and path packages that build the URL path of a claims request:
 cleaning, parsing a relative reference, and `url.JoinPath`.
 */
module UrlPath {
  import opened Outcomes
  import opened Strings
  import opened PercentEncoding

  // ----- path.Clean -----

  /** What one more path element does to the cleaned segments before it. */
  function CleanStep(segs: seq<string>, elem: string): seq<string> {
    if elem == "" || elem == "." then segs
    else if elem == ".." then
      if segs == [] then [] else segs[..|segs| - 1]
    else segs + [elem]
  }

  function CleanSegments(elems: seq<string>): seq<string> {
    if elems == [] then []
    else CleanStep(CleanSegments(elems[..|elems| - 1]), elems[|elems| - 1])
  }

  /** path.Clean of a rooted path. */
  function CleanRooted(p: string): string {
    "/" + Join(CleanSegments(Split(p, '/')), '/')
  }

  // ----- url.Parse on relative references -----

  /** A parsed path: decoded, and its encoding when that is not the default one. */
  datatype PathRef = PathRef(path: string, rawPath: string)

  datatype ParseError = ControlByte | MissingScheme | ColonInFirstSegment | BadEscape

  /**
   What url.Parse makes of a string. `Other` stands for a URL with a scheme, an authority, a query
   or a fragment, which is not followed any further.
   */
  datatype Parsed = Failed(error: ParseError) | Relative(ref: PathRef) | Other

  predicate IsControl(c: char) {
    c < ' ' || c == 0x7f as char
  }

  datatype Scheme = NoScheme | EmptyScheme | HasScheme

  /** Go's getScheme, `i` being the number of characters already passed over. */
  function FindScheme(s: string, i: nat): Scheme {
    if s == "" then NoScheme
    else if 'a' <= s[0] <= 'z' || 'A' <= s[0] <= 'Z' then FindScheme(s[1..], i + 1)
    else if '0' <= s[0] <= '9' || s[0] in {'+', '-', '.'} then
      if i == 0 then NoScheme else FindScheme(s[1..], i + 1)
    else if s[0] == ':' then
      if i == 0 then EmptyScheme else HasScheme
    else NoScheme
  }

  function SetPath(p: string): Option<PathRef> {
    match Unescape(p)
    case None => None
    case Some(path) => Some(PathRef(path, if Escape(path, Path) == p then "" else p))
  }

  function FirstSegment(s: string): string {
    s[..IndexOf(s, '/')]
  }

  function Parse(s: string): Parsed {
    if '#' in s || '?' in s then Other
    else if exists c | c in s :: IsControl(c) then Failed(ControlByte)
    else if s == "*" then Relative(PathRef("*", ""))
    else match FindScheme(s, 0)
      case EmptyScheme => Failed(MissingScheme)
      case HasScheme => Other
      case NoScheme =>
        if !("/" <= s) && ':' in FirstSegment(s) then Failed(ColonInFirstSegment)
        else if "//" <= s && !("///" <= s) then Other
        else match SetPath(s)
          case None => Failed(BadEscape)
          case Some(ref) => Relative(ref)
  }

  // ----- url.JoinPath -----

  function EscapedPath(ref: PathRef): string {
    if ref.rawPath != "" && ValidEncoded(ref.rawPath) && Unescape(ref.rawPath) == Some(ref.path)
    then ref.rawPath
    else if ref.path == "*" then "*"
    else Escape(ref.path, Path)
  }

  /** A relative reference must not start with a segment that looks like a scheme. */
  function RelativeString(ref: PathRef): string {
    var p := EscapedPath(ref);
    if ':' in FirstSegment(p) then "./" + p else p
  }

  /** URL.JoinPath with one element. */
  function JoinRef(base: PathRef, elem: string): Option<PathRef> {
    var p := EscapedPath(base);
    var rooted := "/" <= p;
    var cleaned := CleanRooted((if rooted then p else "/" + p) + "/" + elem);
    var kept := if rooted then cleaned else cleaned[1..];
    var slashed :=
      if elem != "" && elem[|elem| - 1] == '/' && (kept == "" || kept[|kept| - 1] != '/')
      then kept + "/" else kept;
    SetPath(slashed)
  }

  /** url.JoinPath with one element; `None` is its error result, or a base that is no path. */
  function JoinPath(base: string, elem: string): Option<string> {
    match Parse(base)
    case Failed(_) => None
    case Other => None
    case Relative(ref) =>
      match JoinRef(ref, elem)
      case None => None
      case Some(joined) => Some(RelativeString(joined))
  }

  // ----- what repeated joining builds -----

  /** What an escaped string looks like: segment characters that decode. */
  predicate IsEscaped(elem: string) {
    AllChars(elem, IsSegmentChar) && Unescape(elem).Some?
  }

  predicate IsOrdinary(elem: string) {
    elem != "" && elem != "." && elem != ".."
  }

  /** Escaped segments that cleaning keeps. */
  predicate AreSegments(segs: seq<string>) {
    forall i | 0 <= i < |segs| :: IsOrdinary(segs[i]) && IsEscaped(segs[i])
  }

  /** The literal path "*" is never escaped by net/url, so a leading star stays a star. */
  function StarFirst(segs: seq<string>): seq<string> {
    if segs != [] && segs[0] == "%2A" then ["*"] + segs[1..] else segs
  }

  /** The path string that stands for a list of escaped segments. */
  function Render(segs: seq<string>): string {
    var p := Join(StarFirst(segs), '/');
    if segs != [] && ':' in segs[0] then "./" + p else p
  }

  lemma CleanSegmentsAppend(a: seq<string>, x: string)
    ensures CleanSegments([]) == []
    ensures CleanSegments(a + [x]) == CleanStep(CleanSegments(a), x)
  {
    assert (a + [x])[..|a|] == a;
  }

  lemma CleanStepForms(segs: seq<string>, x: string)
    ensures x == "" || x == "." ==> CleanStep(segs, x) == segs
    ensures IsOrdinary(x) ==> CleanStep(segs, x) == segs + [x]
  {
  }

  lemma {:induction false} CleanSegmentsKeeps(skipped: seq<string>, kept: seq<string>)
    requires forall i | 0 <= i < |skipped| :: skipped[i] == "" || skipped[i] == "."
    requires forall i | 0 <= i < |kept| :: IsOrdinary(kept[i])
    ensures CleanSegments(skipped + kept) == kept
    decreases |skipped| + |kept|
  {
    hide *;
    if kept != [] {
      var n := |kept| - 1;
      CleanSegmentsKeeps(skipped, kept[..n]);
      CleanSegmentsAppend(skipped + kept[..n], kept[n]);
      CleanStepForms(kept[..n], kept[n]);
      assert skipped + kept == skipped + kept[..n] + [kept[n]];
    } else if skipped != [] {
      var n := |skipped| - 1;
      CleanSegmentsKeeps(skipped[..n], []);
      CleanSegmentsAppend(skipped[..n], skipped[n]);
      CleanStepForms([], skipped[n]);
      assert skipped + kept == skipped[..n] + [skipped[n]] && skipped[..n] + [] == skipped[..n];
    } else {
      CleanSegmentsAppend([], "");
      assert skipped + kept == [];
    }
  }

  // ----- the laws of cleaning -----

  /** What follows is cleaned onto what the elements before it were cleaned to. */
  lemma {:induction false} CleanSegmentsAfter(a: seq<string>, a': seq<string>, b: seq<string>)
    requires CleanSegments(a) == CleanSegments(a')
    ensures CleanSegments(a + b) == CleanSegments(a' + b)
  {
    hide *;
    if b == [] {
      assert a + b == a && a' + b == a';
    } else {
      var n := |b| - 1;
      CleanSegmentsAfter(a, a', b[..n]);
      CleanSegmentsAppend(a + b[..n], b[n]);
      CleanSegmentsAppend(a' + b[..n], b[n]);
      assert a + b == a + b[..n] + [b[n]] && a' + b == a' + b[..n] + [b[n]];
    }
  }

  /** An element that cleaning skips leaves no trace. */
  lemma SkippedElement(a: seq<string>, x: string, b: seq<string>)
    requires x == "" || x == "."
    ensures CleanSegments(a + [x] + b) == CleanSegments(a + b)
  {
    hide *;
    CleanSegmentsAppend(a, x);
    CleanStepForms(CleanSegments(a), x);
    CleanSegmentsAfter(a + [x], a, b);
  }

  lemma DotDotForms(segs: seq<string>, x: string)
    ensures CleanStep(segs + [x], "..") == segs && CleanStep([], "..") == []
  {
    assert (segs + [x])[..|segs|] == segs;
  }

  /** An ordinary element and the ".." after it cancel. */
  lemma DotDotElement(a: seq<string>, x: string, b: seq<string>)
    requires IsOrdinary(x)
    ensures CleanSegments(a + [x, ".."] + b) == CleanSegments(a + b)
  {
    hide *;
    assert a + [x, ".."] == (a + [x]) + [".."];
    CleanSegmentsAppend(a, x);
    CleanStepForms(CleanSegments(a), x);
    CleanSegmentsAppend(a + [x], "..");
    DotDotForms(CleanSegments(a), x);
    CleanSegmentsAfter(a + [x, ".."], a, b);
  }

  /** At the start there is nothing for ".." to take away. */
  lemma DotDotFirst(b: seq<string>)
    ensures CleanSegments([".."] + b) == CleanSegments(b)
  {
    hide *;
    CleanSegmentsAppend([], "..");
    DotDotForms([], "");
    assert [] + [".."] == [".."] && [] + b == b;
    CleanSegmentsAfter([".."], [], b);
  }

  /**
   Cleaning, as dot segments are removed in section 5.2.4 of RFC 3986: an ordinary element followed by
   ".." may be left out, so may ".." at the start, and so may empty and dot elements anywhere; a list
   of ordinary elements stays as it is.
   */
  lemma CleaningLaws(a: seq<string>, x: string, b: seq<string>)
    ensures IsOrdinary(x) ==> CleanSegments(a + [x, ".."] + b) == CleanSegments(a + b)
    ensures CleanSegments([".."] + b) == CleanSegments(b)
    ensures CleanSegments(a + [""] + b) == CleanSegments(a + b) == CleanSegments(a + ["."] + b)
    ensures (forall i | 0 <= i < |a| :: IsOrdinary(a[i])) ==> CleanSegments(a) == a
  {
    hide *;
    if IsOrdinary(x) {
      DotDotElement(a, x, b);
    }
    DotDotFirst(b);
    SkippedElement(a, "", b);
    SkippedElement(a, ".", b);
    if forall i | 0 <= i < |a| :: IsOrdinary(a[i]) {
      CleanSegmentsKeeps([], a);
      assert [] + a == a;
    }
  }

  lemma StarDecodes()
    ensures Escape("*", Path) == "%2A"
    ensures Unescape("%2A") == Some("*") && Unescape("*") == Some("*")
  {
    assert "*"[1..] == "" && "%2A"[3..] == "";
    assert EscapeChar('*', Path) == "%2A";
    assert "%2A" + "" == "%2A" && ['*'] + "" == "*";
  }

  /** A path that decodes and is validly encoded survives setPath and EscapedPath, except "%2A". */
  lemma SetPathEscapedPath(p: string)
    requires Unescape(p).Some? && ValidEncoded(p)
    ensures SetPath(p).Some?
    ensures EscapedPath(SetPath(p).value) == if p == "%2A" then "*" else p
  {
    StarDecodes();
  }

  predicate IsPathChar(c: char) {
    IsSegmentChar(c) || c == '/' || c == '*'
  }

  lemma SlashDecodes(p: string)
    requires Unescape(p).Some?
    ensures Unescape("/" + p).Some?
  {
    assert ("/" + p)[1..] == p;
  }

  lemma JoinUnfold(parts: seq<string>)
    ensures |parts| == 0 ==> Join(parts, '/') == ""
    ensures |parts| == 1 ==> Join(parts, '/') == parts[0]
    ensures |parts| > 1 ==> Join(parts, '/') == parts[0] + ("/" + Join(parts[1..], '/'))
  {
    if |parts| > 1 {
      assert parts[0] + ['/'] + Join(parts[1..], '/') == parts[0] + ("/" + Join(parts[1..], '/'));
    }
  }

  lemma {:induction false} JoinDecodes(parts: seq<string>)
    requires forall i | 0 <= i < |parts| :: Unescape(parts[i]).Some?
    ensures Unescape(Join(parts, '/')).Some?
  {
    hide *;
    JoinUnfold(parts);
    UnescapeFirst("");
    if |parts| > 1 {
      var rest := Join(parts[1..], '/');
      JoinDecodes(parts[1..]);
      SlashDecodes(rest);
      UnescapeConcat(parts[0], "/" + rest);
    }
  }

  /** The segments as rendered: still ordinary, decodable and free of slashes. */
  lemma StarFirstShape(segs: seq<string>)
    requires AreSegments(segs)
    ensures forall i | 0 <= i < |segs| ::
              && IsOrdinary(StarFirst(segs)[i])
              && Unescape(StarFirst(segs)[i]).Some?
              && AllChars(StarFirst(segs)[i], IsPathChar)
              && '/' !in StarFirst(segs)[i]
  {
    StarDecodes();
  }

  lemma JoinedShape(segs: seq<string>)
    requires AreSegments(segs)
    ensures AllChars(Join(StarFirst(segs), '/'), IsPathChar)
    ensures Unescape(Join(StarFirst(segs), '/')).Some?
    ensures segs != [] ==> FirstSegment(Join(StarFirst(segs), '/')) == StarFirst(segs)[0]
    ensures segs == [] ==> FirstSegment(Join(StarFirst(segs), '/')) == ""
    ensures segs != [] ==> Split(Join(StarFirst(segs), '/'), '/') == StarFirst(segs)
  {
    var parts := StarFirst(segs);
    StarFirstShape(segs);
    JoinChars(parts, '/', IsPathChar);
    JoinDecodes(parts);
    if segs != [] {
      SplitJoin(parts, '/');
      var p := Join(parts, '/');
      assert Split(p, '/')[0] == FirstSegment(p);
    }
  }

  /** Scanning for a scheme finds none when the first segment holds no colon. */
  lemma {:induction false} NoSchemeBeforeSlash(s: string, i: nat)
    requires ':' !in FirstSegment(s)
    ensures FindScheme(s, i) == NoScheme
  {
    if s != "" && s[0] != '/' {
      assert FirstSegment(s) == [s[0]] + FirstSegment(s[1..]);
      NoSchemeBeforeSlash(s[1..], i + 1);
    }
  }

  lemma PathCharsAreValid(s: string)
    requires AllChars(s, IsPathChar)
    ensures ValidEncoded(s)
    ensures '#' !in s && '?' !in s && !exists c | c in s :: IsControl(c)
  {
    forall c | c in s ensures IsPathChar(c) {
      var i :| 0 <= i < |s| && s[i] == c;
    }
  }

  /** url.Parse accepts a relative path whose first segment holds no colon, and keeps its text. */
  lemma ParseKeeps(s: string)
    requires AllChars(s, IsPathChar) && Unescape(s).Some?
    requires ':' !in FirstSegment(s) && !("/" <= s) && s != "%2A"
    ensures Parse(s).Relative?
    ensures EscapedPath(Parse(s).ref) == s
  {
    PathCharsAreValid(s);
    NoSchemeBeforeSlash(s, 0);
    if s != "*" {
      SetPathEscapedPath(s);
    }
  }

  lemma DotSlashDecodes(p: string)
    requires Unescape(p).Some?
    ensures Unescape("./" + p).Some?
    ensures FirstSegment("./" + p) == "."
  {
    assert ("./" + p)[1..] == "/" + p && ("/" + p)[1..] == p;
    IndexOfUnique("./" + p, '/', 1);
  }

  /** What repeated joining has built so far is a decodable relative path, not mistaken for a URL. */
  lemma RenderShape(segs: seq<string>)
    requires AreSegments(segs)
    ensures AllChars(Render(segs), IsPathChar) && Unescape(Render(segs)).Some?
    ensures ':' !in FirstSegment(Render(segs))
    ensures !("/" <= Render(segs)) && Render(segs) != "%2A"
  {
    JoinedShape(segs);
    DotSlashDecodes(Join(StarFirst(segs), '/'));
    if segs != [] {
      StarFirstShape(segs);
      SplitPiece("%2A", '/');
    }
  }

  lemma RenderForms(segs: seq<string>)
    ensures segs == [] ==> Render(segs) == "" && StarFirst(segs) == []
    ensures segs != [] && ':' in segs[0] ==> Render(segs) == "./" + Join(StarFirst(segs), '/')
    ensures segs != [] && ':' !in segs[0] ==> Render(segs) == Join(StarFirst(segs), '/')
  {
  }

  /** The elements that a rendered path splits into clean back to its segments. */
  lemma SplitRender(segs: seq<string>) returns (skipped: seq<string>)
    requires AreSegments(segs)
    ensures forall i | 0 <= i < |skipped| :: skipped[i] == "" || skipped[i] == "."
    ensures Split(Render(segs), '/') == skipped + StarFirst(segs)
  {
    hide *;
    var p := Join(StarFirst(segs), '/');
    JoinedShape(segs);
    RenderForms(segs);
    if segs == [] {
      SplitPiece("", '/');
      skipped := [""];
    } else if ':' in segs[0] {
      SplitFirst(".", '/', p);
      assert "." + ['/'] + p == Render(segs);
      skipped := ["."];
    } else {
      skipped := [];
    }
  }

  lemma SplitAround(s: string, elem: string)
    requires '/' !in elem
    ensures Split("/" + s + "/" + elem, '/') == [""] + Split(s, '/') + [elem]
  {
    hide Split;
    SplitPiece(elem, '/');
    SplitConcat(s, '/', elem);
    SplitFirst("", '/', s + "/" + elem);
    assert "" + ['/'] + (s + "/" + elem) == "/" + s + "/" + elem;
    assert s + ['/'] + elem == s + "/" + elem;
  }

  /** Cleaning a base and an element together is one clean step on the segments of the base. */
  lemma CleanJoined(segs: seq<string>, elem: string)
    requires AreSegments(segs) && '/' !in elem
    ensures CleanSegments(Split("/" + Render(segs) + "/" + elem, '/'))
            == CleanStep(StarFirst(segs), elem)
  {
    var parts := StarFirst(segs);
    var skipped := SplitRender(segs);
    StarFirstShape(segs);
    SplitAround(Render(segs), elem);
    var elems := [""] + Split(Render(segs), '/') + [elem];
    assert elems[..|elems| - 1] == ([""] + skipped) + parts;
    CleanSegmentsKeeps([""] + skipped, parts);
  }

  lemma CleanStepStar(segs: seq<string>, elem: string)
    requires AreSegments(segs) && IsEscaped(elem)
    ensures AreSegments(CleanStep(segs, elem))
    ensures CleanStep(StarFirst(segs), elem) == StarFirst(CleanStep(segs, elem))
            || (CleanStep(segs, elem) == CleanStep(StarFirst(segs), elem) == ["%2A"])
  {
    hide IsEscaped;
  }

  /** Setting a cleaned path and writing it again escapes nothing twice. */
  lemma RenderStep(segs: seq<string>, elem: string)
    requires AreSegments(segs) && IsEscaped(elem)
    ensures SetPath(Join(CleanStep(StarFirst(segs), elem), '/')).Some?
    ensures RelativeString(SetPath(Join(CleanStep(StarFirst(segs), elem), '/')).value)
            == Render(CleanStep(segs, elem))
  {
    var next := CleanStep(segs, elem);
    CleanStepStar(segs, elem);
    hide IsOrdinary, IsEscaped, CleanStep, Unescape, Escape, EscapedPath, SetPath, IsPathChar;
    hide AreSegments;
    JoinedShape(next);
    PathCharsAreValid(Join(StarFirst(next), '/'));
    StarDecodes();
    SetPathEscapedPath(Join(CleanStep(StarFirst(segs), elem), '/'));
  }

  lemma JoinRefRelative(base: PathRef, elem: string)
    requires !("/" <= EscapedPath(base)) && '/' !in elem
    ensures JoinRef(base, elem) ==
            SetPath(Join(CleanSegments(Split("/" + EscapedPath(base) + "/" + elem, '/')), '/'))
  {
    var p := EscapedPath(base);
    var kept := Join(CleanSegments(Split("/" + p + "/" + elem, '/')), '/');
    assert CleanRooted("/" + p + "/" + elem)[1..] == kept;
    assert ("/" + p) + "/" + elem == "/" + p + "/" + elem;
  }

  /**
   One url.JoinPath call on a path built so far: it never fails, and it does to the segments what
   one step of cleaning does.
   */
  lemma JoinPathStep(segs: seq<string>, elem: string)
    requires AreSegments(segs) && IsEscaped(elem)
    ensures AreSegments(CleanStep(segs, elem))
    ensures JoinPath(Render(segs), elem) == Some(Render(CleanStep(segs, elem)))
  {
    assert '/' !in elem;
    assert forall r :: Parse(Render(segs)) == Relative(r) ==>
        JoinPath(Render(segs), elem) ==
        match JoinRef(r, elem) case None => None case Some(j) => Some(RelativeString(j));
    hide *;
    RenderShape(segs);
    ParseKeeps(Render(segs));
    CleanStepStar(segs, elem);
    JoinRefRelative(Parse(Render(segs)).ref, elem);
    CleanJoined(segs, elem);
    RenderStep(segs, elem);
  }
}
