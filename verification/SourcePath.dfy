/**
 The URL of a claims request: how the path is accumulated value by value, what it is for every list
 of values, and what a server that decodes it gets back.
 */
module SourcePath {
  import opened Outcomes
  import opened Strings
  import opened PercentEncoding
  import opened UrlPath

  function EscapeAll(vals: seq<Bytes>): (elems: seq<string>)
    ensures |elems| == |vals|
    ensures forall i | 0 <= i < |vals| :: elems[i] == PathEscape(vals[i])
  {
    seq(|vals|, i requires 0 <= i < |vals| => PathEscape(vals[i]))
  }

  lemma EscapedIsEscaped(v: Bytes)
    ensures IsEscaped(PathEscape(v))
  {
    PathEscapeChars(v);
    UnescapeEscape(v, PathSegment);
  }

  lemma CleanSegmentsNext(elems: seq<string>, i: nat)
    requires i < |elems|
    ensures CleanSegments(elems[..i + 1]) == CleanStep(CleanSegments(elems[..i]), elems[i])
  {
    assert elems[..i + 1][..i] == elems[..i];
  }

  lemma BuildPathStep(pathVals: seq<Bytes>, i: nat)
    requires i < |pathVals| && AreSegments(CleanSegments(EscapeAll(pathVals)[..i]))
    ensures AreSegments(CleanSegments(EscapeAll(pathVals)[..i + 1]))
    ensures JoinPath(Render(CleanSegments(EscapeAll(pathVals)[..i])), PathEscape(pathVals[i]))
            == Some(Render(CleanSegments(EscapeAll(pathVals)[..i + 1])))
  {
    hide *;
    var elems := EscapeAll(pathVals);
    EscapedIsEscaped(pathVals[i]);
    JoinPathStep(CleanSegments(elems[..i]), elems[i]);
    CleanSegmentsNext(elems, i);
  }

  /** The path for a list of values: one single clean of all the escaped values. */
  function PathOf(pathVals: seq<Bytes>): string {
    Render(CleanSegments(EscapeAll(pathVals)))
  }

  /**
   The loop of getURLWithClaims: join the escaped values onto the path one at a time, parsing the
   path built so far each time. For every list of values, whatever they contain, no iteration takes
   the error branch and the result is one single clean of all the escaped values.
   */
  method BuildPath(pathVals: seq<Bytes>) returns (result: Option<string>)
    ensures result == Some(PathOf(pathVals))
  {
    var path := "";
    ghost var elems := EscapeAll(pathVals);
    for i := 0 to |pathVals|
      invariant AreSegments(CleanSegments(elems[..i]))
      invariant path == Render(CleanSegments(elems[..i]))
    {
      BuildPathStep(pathVals, i);
      var joined := JoinPath(path, PathEscape(pathVals[i]));
      match joined {
        case None => return None;
        case Some(p) => path := p;
      }
    }
    assert elems[..|elems|] == elems;
    return Some(path);
  }

  // ----- reading the path back -----

  /** Drop empty and dot elements and percent-decode the others. */
  function DecodeElements(elems: seq<string>): Option<seq<string>> {
    if elems == [] then Some([])
    else if elems[0] == "" || elems[0] == "." then DecodeElements(elems[1..])
    else match (Unescape(elems[0]), DecodeElements(elems[1..]))
      case (Some(v), Some(vs)) => Some([v] + vs)
      case _ => None
  }

  function DecodePath(path: string): Option<seq<string>> {
    DecodeElements(Split(path, '/'))
  }

  lemma {:induction false} DecodeSkipped(skipped: seq<string>, elems: seq<string>)
    requires forall i | 0 <= i < |skipped| :: skipped[i] == "" || skipped[i] == "."
    ensures DecodeElements(skipped + elems) == DecodeElements(elems)
  {
    if skipped == [] {
      assert skipped + elems == elems;
    } else {
      assert (skipped + elems)[1..] == skipped[1..] + elems;
      DecodeSkipped(skipped[1..], elems);
    }
  }

  lemma {:induction false} DecodeEscaped(vals: seq<Bytes>, elems: seq<string>)
    requires |elems| == |vals|
    requires forall i | 0 <= i < |vals| :: IsOrdinary(elems[i]) && Unescape(elems[i]) == Some(vals[i])
    ensures DecodeElements(elems) == Some(vals)
  {
    if vals != [] {
      DecodeEscaped(vals[1..], elems[1..]);
      assert vals == [vals[0]] + vals[1..];
    }
  }

  predicate AllBytesEach(vals: seq<string>) {
    forall i | 0 <= i < |vals| :: AllBytes(vals[i])
  }

  lemma {:induction false} CleanSegmentsBytes(vals: seq<Bytes>)
    ensures AllBytesEach(CleanSegments(vals))
  {
    if vals != [] {
      CleanSegmentsBytes(vals[..|vals| - 1]);
    }
  }

  /** Cleaning and escaping commute: a value is special to cleaning exactly when its escape is. */
  lemma {:induction false} CleanEscapeCommute(vals: seq<Bytes>)
    ensures AllBytesEach(CleanSegments(vals))
    ensures CleanSegments(EscapeAll(vals)) == EscapeAll(CleanSegments(vals))
  {
    CleanSegmentsBytes(vals);
    if vals != [] {
      hide PathEscape;
      var n := |vals| - 1;
      CleanEscapeCommute(vals[..n]);
      PathEscapeSpecial(vals[n]);
      assert EscapeAll(vals)[..n] == EscapeAll(vals[..n]);
    }
  }

  lemma {:induction false} CleanSegmentsOrdinary(vals: seq<string>)
    ensures forall i | 0 <= i < |CleanSegments(vals)| :: IsOrdinary(CleanSegments(vals)[i])
  {
    if vals != [] {
      CleanSegmentsOrdinary(vals[..|vals| - 1]);
    }
  }

  lemma {:induction false} CleanSegmentsPlain(vals: seq<string>)
    requires forall i | 0 <= i < |vals| :: IsOrdinary(vals[i])
    ensures CleanSegments(vals) == vals
  {
    CleanSegmentsKeeps([], vals);
    assert [] + vals == vals;
  }

  /** Escaped ordinary values read back as themselves, with or without the "*" and "./" quirks. */
  lemma DecodeRendered(vals: seq<Bytes>)
    requires forall i | 0 <= i < |vals| :: IsOrdinary(vals[i])
    ensures DecodePath(Render(EscapeAll(vals))) == Some(vals)
  {
    var segs := EscapeAll(vals);
    forall i | 0 <= i < |vals| ensures IsOrdinary(segs[i]) && IsEscaped(segs[i])
    {
      EscapedIsEscaped(vals[i]);
      PathEscapeSpecial(vals[i]);
    }
    var skipped := SplitRender(segs);
    forall i | 0 <= i < |vals|
      ensures IsOrdinary(StarFirst(segs)[i]) && Unescape(StarFirst(segs)[i]) == Some(vals[i])
    {
      UnescapeEscape(vals[i], PathSegment);
      StarDecodes();
    }
    DecodeSkipped(skipped, StarFirst(segs));
    DecodeEscaped(vals, StarFirst(segs));
  }

  /** The path decodes to the cleaned values, for every list of values. */
  lemma DecodePathOf(vals: seq<Bytes>)
    ensures DecodePath(PathOf(vals)) == Some(CleanSegments(vals))
  {
    CleanEscapeCommute(vals);
    CleanSegmentsOrdinary(vals);
    DecodeRendered(CleanSegments(vals));
  }

  lemma PathOfSame(vals: seq<Bytes>, vals': seq<Bytes>)
    requires CleanSegments(vals) == CleanSegments(vals')
    ensures PathOf(vals) == PathOf(vals')
  {
    CleanEscapeCommute(vals);
    CleanEscapeCommute(vals');
  }

  /** What BuildPath makes of "..": it takes the ordinary value before it away. */
  lemma PathDotDot(a: seq<Bytes>, x: Bytes, b: seq<Bytes>)
    ensures IsOrdinary(x) ==> PathOf(a + [x, ".."] + b) == PathOf(a + b)
    ensures PathOf([".."] + b) == PathOf(b)
  {
    hide PathOf, CleanSegments, IsOrdinary;
    var dots: Bytes := "..";
    CleaningLaws(a, x, b);
    if IsOrdinary(x) {
      var longer: seq<Bytes> := a + [x, dots] + b;
      PathOfSame(longer, a + b);
    }
    var longer: seq<Bytes> := [dots] + b;
    PathOfSame(longer, b);
  }

  /** Empty and dot values leave no trace in the path. */
  lemma PathSkips(a: seq<Bytes>, b: seq<Bytes>)
    ensures PathOf(a + [""] + b) == PathOf(a + b)
    ensures PathOf(a + ["."] + b) == PathOf(a + b)
  {
    hide PathOf, CleanSegments, IsOrdinary;
    var empty: Bytes, dot: Bytes := "", ".";
    CleaningLaws(a, empty, b);
    PathOfSame(a + [empty] + b, a + b);
    PathOfSame(a + [dot] + b, a + b);
  }

  /** Escaping a value keeps the colons and nothing but a star becomes %2A. */
  lemma EscapeKeeps(v: Bytes)
    ensures ':' in PathEscape(v) <==> ':' in v
    ensures PathEscape(v) == "%2A" <==> v == "*"
  {
    ColonStays(v);
    StarDecodes();
    UnescapeEscape(v, PathSegment);
    assert PathEscape("*") == "%2A";
  }

  lemma {:induction false} ColonStays(v: string)
    ensures ':' in PathEscape(v) <==> ':' in v
  {
    if v != "" {
      ColonStays(v[1..]);
      assert ':' in v <==> v[0] == ':' || ':' in v[1..];
      hide ShouldEscape, HexDigit;
      EscapeCharColon(v[0]);
    }
  }

  lemma EscapeCharColon(c: char)
    ensures ':' in EscapeChar(c, PathSegment) <==> c == ':'
  {
  }

  /**
   The path of ordinary values, which is all of them once cleaned: the escaped values joined by slashes,
   with "./" before a first value that has a colon, and a first value "*" left as it is.
   */
  lemma PathOfOrdinary(vals: seq<Bytes>)
    requires forall i | 0 <= i < |vals| :: IsOrdinary(vals[i])
    ensures vals == [] ==> PathOf(vals) == ""
    ensures vals != [] && ':' !in vals[0] && vals[0] != "*" ==> PathOf(vals) == Join(EscapeAll(vals), '/')
    ensures vals != [] && ':' in vals[0] ==> PathOf(vals) == "./" + Join(EscapeAll(vals), '/')
    ensures vals != [] && vals[0] == "*" ==> PathOf(vals) == Join(["*"] + EscapeAll(vals)[1..], '/')
  {
    CleanEscapeCommute(vals);
    CleanSegmentsPlain(vals);
    RenderForms(EscapeAll(vals));
    if vals != [] {
      EscapeKeeps(vals[0]);
    }
    hide PathEscape, Render;
  }

  // ----- the URL -----

  const HTTPS := "https://"

  function SourceURL(hostname: string, path: string): string {
    HTTPS + hostname + "/" + path
  }

  /** Split a URL at the slash after its host and decode the path. */
  function ReadURL(url: string): Option<(string, seq<string>)> {
    if !(HTTPS <= url) then None
    else
      var rest := url[|HTTPS|..];
      var i := IndexOf(rest, '/');
      if i == |rest| then None
      else match DecodePath(rest[i + 1..])
        case None => None
        case Some(vals) => Some((rest[..i], vals))
  }

  /** Reading a built URL gives back the hostname and the cleaned values. */
  lemma ReadBuiltURL(hostname: string, vals: seq<Bytes>)
    requires '/' !in hostname
    ensures ReadURL(SourceURL(hostname, PathOf(vals))) == Some((hostname, CleanSegments(vals)))
  {
    var url, path := SourceURL(hostname, PathOf(vals)), PathOf(vals);
    var rest := hostname + ['/'] + path;
    assert url == HTTPS + rest;
    assert rest[..|hostname|] == hostname && rest[|hostname| + 1..] == path;
    IndexOfUnique(rest, '/', |hostname|);
    DecodePathOf(vals);
  }

  /**
   The round trip: a server that decodes the path gets exactly the values of the path expression
   if and only if none of them is empty, "." or "..".
   */
  lemma URLRoundTrip(hostname: string, vals: seq<Bytes>)
    requires '/' !in hostname
    ensures ReadURL(SourceURL(hostname, PathOf(vals))) == Some((hostname, vals))
            <==> forall i | 0 <= i < |vals| :: IsOrdinary(vals[i])
  {
    ReadBuiltURL(hostname, vals);
    if forall i | 0 <= i < |vals| :: IsOrdinary(vals[i]) {
      CleanSegmentsPlain(vals);
    } else {
      CleanSegmentsOrdinary(vals);
    }
  }

  /**
   Two requests go to the same URL exactly when the hosts and the cleaned values agree; for lists
   of ordinary values that means the same host and the same list.
   */
  lemma URLInjective(hostname: string, vals: seq<Bytes>, hostname': string, vals': seq<Bytes>)
    requires '/' !in hostname && '/' !in hostname'
    ensures SourceURL(hostname, PathOf(vals)) == SourceURL(hostname', PathOf(vals'))
            <==> hostname == hostname' && CleanSegments(vals) == CleanSegments(vals')
    ensures (forall i | 0 <= i < |vals| :: IsOrdinary(vals[i])) ==> CleanSegments(vals) == vals
  {
    ReadBuiltURL(hostname, vals);
    ReadBuiltURL(hostname', vals');
    CleanEscapeCommute(vals);
    CleanEscapeCommute(vals');
    if forall i | 0 <= i < |vals| :: IsOrdinary(vals[i]) {
      CleanSegmentsPlain(vals);
    }
  }
}
