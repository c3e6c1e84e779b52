/**
 Exactly when the order of the sources does not matter: for which conditions and paths every order
 ends in the same claims, whatever the sources answer and whichever expressions extract the claims.
 */
module ChainOrder {
  import opened Outcomes
  import opened ApiTypes
  import opened Cel
  import opened ClaimsResolver
  import opened ClaimsChain
  import opened Expanders
  import opened Multisets
  import opened Validation
  import opened ValidationProperties
  import opened ValidatedChain
  import GoQuote
  import Hostname

  // ----- what it means -----

  /** The same source, with other expressions for the same claims. */
  ghost predicate Alike(r: Resolver, r': Resolver) {
    && r' == r.(mappings := r'.mappings)
    && |r'.mappings| == |r.mappings|
    && forall k | 0 <= k < |r.mappings| :: r'.mappings[k].claim == r.mappings[k].claim
  }

  ghost predicate AllAlike(rs: seq<Resolver>, rs': seq<Resolver>) {
    |rs| == |rs'| && forall i | 0 <= i < |rs| :: Alike(rs[i], rs'[i])
  }

  /** The sources in some order, in a world that has this table of printable characters. */
  ghost predicate IsOrder(
      isPrint: char -> bool, rs: seq<Resolver>, rs': seq<Resolver>, w: World, steps: seq<Step>)
  {
    AllAlike(rs, rs') && w.isPrint == isPrint && multiset(steps) == multiset(StepsIn(w, rs'))
  }

  /** Every order of the sources ends in the same claims. */
  ghost predicate OrderFree(isPrint: char -> bool, rs: seq<Resolver>) {
    forall rs', w, xs, ys, c: Claims
      | IsOrder(isPrint, rs, rs', w, xs) && IsOrder(isPrint, rs, rs', w, ys) ::
        ExpandAll(xs, c) == ExpandAll(ys, c)
  }

  /** No source disturbs another one. */
  ghost predicate AllUndisturbed(isPrint: char -> bool, rs: seq<Resolver>) {
    forall i, j | 0 <= i < |rs| && 0 <= j < |rs| && i != j :: Undisturbed(isPrint, rs[i], rs[j])
  }

  /** Sound sources that write disjoint names, as validation leaves them. */
  ghost predicate AreSound(rs: seq<Resolver>) {
    && (forall i | 0 <= i < |rs| :: IsSound(rs[i]))
    && forall i, j | 0 <= i < j < |rs| :: NamesWritten(rs[i]) !! NamesWritten(rs[j])
  }

  // ----- the condition suffices -----

  lemma AlikeReading(r: Resolver, r': Resolver)
    requires Alike(r, r')
    ensures NamesWritten(r') == NamesWritten(r)
    ensures forall c: Claims :: Reading(r', c) == Reading(r, c)
    ensures IsSound(r) ==> IsSound(r')
  {
    hide Hostname.CheckHostname;
    forall c: Claims ensures Reading(r', c) == Reading(r, c) {
      hide ConditionsOutcome;
      assert URLOf(r', c) == URLOf(r, c);
    }
  }

  lemma AlikeUndisturbed(isPrint: char -> bool, b: Resolver, b': Resolver, a: Resolver, a': Resolver)
    requires Alike(b, b') && Alike(a, a') && Undisturbed(isPrint, b, a)
    ensures Undisturbed(isPrint, b', a')
  {
    AlikeReading(b, b');
    AlikeReading(a, a');
    hide Reading, NamesWritten, Quoted, Alike;
  }

  lemma UndisturbedIsIndependent(isPrint: char -> bool, rs: seq<Resolver>, rs': seq<Resolver>, w: World)
    requires AllAlike(rs, rs') && w.isPrint == isPrint && AllUndisturbed(isPrint, rs)
    ensures Independent(StepsIn(w, rs'))
  {
    hide Undisturbed, Alike;
    var steps := StepsIn(w, rs');
    forall s, t | s in steps && t in steps && s != t
      ensures Undisturbed(t.world.isPrint, s.resolver, t.resolver)
    {
      var i :| 0 <= i < |steps| && steps[i] == s;
      var j :| 0 <= j < |steps| && steps[j] == t;
      AlikeUndisturbed(isPrint, rs[i], rs'[i], rs[j], rs'[j]);
    }
  }

  lemma AlikeDisjoint(rs: seq<Resolver>, rs': seq<Resolver>, w: World)
    requires AllAlike(rs, rs') && AreSound(rs)
    ensures DisjointNames(StepsIn(w, rs'))
  {
    hide NamesWritten, Alike, IsSound;
    forall i | 0 <= i < |rs| ensures NamesWritten(rs'[i]) == NamesWritten(rs[i]) {
      AlikeReading(rs[i], rs'[i]);
    }
  }

  lemma UndisturbedSuffices(isPrint: char -> bool, rs: seq<Resolver>)
    requires AreSound(rs) && AllUndisturbed(isPrint, rs)
    ensures OrderFree(isPrint, rs)
  {
    hide AllAlike, ExpandAll, Independent, DisjointNames, AllUndisturbed, StepsIn;
    forall rs', w, xs, ys, c: Claims
      | IsOrder(isPrint, rs, rs', w, xs) && IsOrder(isPrint, rs, rs', w, ys)
      ensures ExpandAll(xs, c) == ExpandAll(ys, c)
    {
      var steps := StepsIn(w, rs');
      UndisturbedIsIndependent(isPrint, rs, rs', w);
      AlikeDisjoint(rs, rs', w);
      OrderIndependence(steps, xs, c);
      OrderIndependence(steps, ys, c);
    }
  }

  // ----- the condition is needed: sources that echo -----

  /** The same source, extracting the text that f gives for a claim and the URL asked. */
  function Writing(r: Resolver, f: (string, string) -> Option<string>): Resolver {
    r.(mappings := seq(|r.mappings|, k requires 0 <= k < |r.mappings| =>
      Mapping(r.mappings[k].claim, TextProgram(r.mappings[k].claim, f))))
  }

  function TextProgram(claim: string, f: (string, string) -> Option<string>): Program<Json> {
    Program((json: Json) =>
      match json
      case JsonString(url) =>
        (match f(claim, url) case Some(text) => Some(StringValue(text)) case None => None)
      case _ => None)
  }

  /** A world with tokens for everybody, in which every request is answered with its own URL. */
  function Echo(isPrint: char -> bool): World {
    World(
      Some("t"), (config: ClientCredentialConfig) => Some("t"),
      (client: HttpClient, request: Request) => Exchange(Response(STATUS_OK, Some(request.url)), 0),
      (body: string) => Some(JsonString(body)), isPrint, (url: string) => false)
  }

  lemma WritingIsAlike(r: Resolver, f: (string, string) -> Option<string>)
    ensures Alike(r, Writing(r, f))
  {
  }

  /** Whoever reads something sends a request there. */
  lemma EchoRequest(r: Resolver, isPrint: char -> bool, c: Claims)
    requires IsSound(r)
    ensures RequestMade(r, Echo(isPrint), c).Some? <==> Reading(r, c).Some?
    ensures Reading(r, c).Some? ==> RequestMade(r, Echo(isPrint), c).value.url == Reading(r, c).value
  {
    ValidatedRequest(r, Echo(isPrint), c);
    hide IsSound, ConditionsOutcome, CanRequest;
  }

  lemma {:induction false} ClaimsForTexts(
      isPrint: char -> bool, mappings: seq<Mapping>, values: seq<Value>, g: string -> string)
    requires |mappings| == |values|
    requires forall k | 0 <= k < |mappings| :: values[k] == StringValue(g(mappings[k].claim))
    ensures ClaimsFor(isPrint, mappings, values).Some?
    ensures var claims := ClaimsFor(isPrint, mappings, values).value;
            forall n | n in claims :: claims[n] == GoQuote.Quote(isPrint, g(n))
  {
    hide GoQuote.Quote;
    if mappings != [] {
      ClaimsForTexts(isPrint, mappings[..|mappings| - 1], values[..|mappings| - 1], g);
    }
  }

  lemma WritingClaims(
      r: Resolver, f: (string, string) -> Option<string>, isPrint: char -> bool, url: string)
    requires forall n :: f(n, url).Some?
    ensures var claims := ClaimsFromBody(Echo(isPrint), Writing(r, f).mappings, Some(url));
            && claims.Some?
            && forall n | n in claims.value :: claims.value[n] == GoQuote.Quote(isPrint, f(n, url).value)
  {
    hide GoQuote.Quote, EvalAll, ClaimsFor;
    var mappings, json := Writing(r, f).mappings, JsonString(url);
    EvalAllMeaning(Programs(mappings), json);
    var values := EvalAll(Programs(mappings), json).value;
    ClaimsForTexts(isPrint, mappings, values, (n: string) =>
      match f(n, url) case Some(text) => text case None => "");
  }

  lemma NothingWritten(
      r: Resolver, f: (string, string) -> Option<string>, isPrint: char -> bool, url: string)
    requires r.mappings != [] && forall n :: f(n, url).None?
    ensures ClaimsFromBody(Echo(isPrint), Writing(r, f).mappings, Some(url)) == None
  {
    hide GoQuote.Quote, EvalAll, ClaimsFor;
    var mappings, json := Writing(r, f).mappings, JsonString(url);
    EvalAllMeaning(Programs(mappings), json);
    assert Programs(mappings)[0].eval(json) == None;
  }

  /** What a source fetches in that world: its texts, if it reads something and has them. */
  lemma EchoFetches(
      r: Resolver, f: (string, string) -> Option<string>, isPrint: char -> bool, c: Claims)
    requires IsSound(r)
    ensures var fetched := Fetched(Writing(r, f), Echo(isPrint), c);
            && (Reading(r, c).None? ==> fetched == None)
            && (Reading(r, c).Some? && (forall n :: f(n, Reading(r, c).value).Some?) ==>
                  && fetched.Some? && fetched.value.Keys == NamesWritten(r)
                  && forall n | n in fetched.value ::
                       fetched.value[n] == GoQuote.Quote(isPrint, f(n, Reading(r, c).value).value))
            && ((forall n, url :: f(n, url).None?) ==> fetched == None)
  {
    var r', w := Writing(r, f), Echo(isPrint);
    assert r.mappings != [];
    WritingIsAlike(r, f);
    AlikeReading(r, r');
    EchoRequest(r', isPrint, c);
    if Reading(r, c).Some? {
      var url := Reading(r, c).value;
      EchoAnswer(r', isPrint, c, url);
      if forall n :: f(n, url).Some? {
        WritingClaims(r, f, isPrint, url);
        FetchedNames(r', w, c);
      }
      if forall n, url :: f(n, url).None? {
        NothingWritten(r, f, isPrint, url);
      }
    }
  }

  lemma EchoAnswer(r: Resolver, isPrint: char -> bool, c: Claims, url: string)
    requires RequestMade(r, Echo(isPrint), c).Some? && RequestMade(r, Echo(isPrint), c).value.url == url
    ensures Fetched(r, Echo(isPrint), c) == ClaimsFromBody(Echo(isPrint), r.mappings, Some(url))
  {
    hide RequestMade, ClaimsFromBody;
  }

  // ----- the condition is needed: two orders that differ -----

  function Lookup(c: Claims, n: string): Option<string> {
    if n in c then Some(c[n]) else None
  }

  /** The claims after a source that writes the texts of f has run in the echoing world. */
  function AfterEcho(r: Resolver, f: (string, string) -> Option<string>, isPrint: char -> bool, c: Claims)
    : Claims
  {
    Overlay(c, Fetched(Writing(r, f), Echo(isPrint), c))
  }

  /** One text for one URL and another text for all others. */
  function Telling(asked: string, text: string, other: string): (string, string) -> Option<string> {
    (n: string, url: string) => Some(if url == asked then text else other)
  }

  lemma TellingClaim(
      r: Resolver, asked: string, text: string, other: string, isPrint: char -> bool, c: Claims, m: string)
    requires IsSound(r) && m in NamesWritten(r)
    ensures Lookup(AfterEcho(r, Telling(asked, text, other), isPrint, c), m)
            == match Reading(r, c)
               case None => Lookup(c, m)
               case Some(url) => Some(GoQuote.Quote(isPrint, if url == asked then text else other))
  {
    EchoFetches(r, Telling(asked, text, other), isPrint, c);
    hide IsSound, NamesWritten, Fetched, Reading, GoQuote.Quote;
  }

  lemma QuotesDiffer(isPrint: char -> bool)
    ensures GoQuote.Quote(isPrint, "") != GoQuote.Quote(isPrint, "x")
  {
    assert "x"[1..] == "";
    assert |GoQuote.Quote(isPrint, "")| == 2;
    assert |GoQuote.Quote(isPrint, "x")| > 2;
  }

  /** A source that reads differently can be made to write differently. */
  lemma TellApart(r: Resolver, isPrint: char -> bool, c: Claims, d: Claims, m: string)
    returns (f: (string, string) -> Option<string>)
    requires IsSound(r) && m in NamesWritten(r)
    requires Reading(r, c) != Reading(r, d) && Lookup(c, m) == Lookup(d, m)
    ensures Lookup(AfterEcho(r, f, isPrint, c), m) != Lookup(AfterEcho(r, f, isPrint, d), m)
  {
    hide IsSound, NamesWritten, Reading, GoQuote.Quote, AfterEcho;
    QuotesDiffer(isPrint);
    var asked := if Reading(r, c).Some? then Reading(r, c).value else Reading(r, d).value;
    var text := if Lookup(c, m) == Some(GoQuote.Quote(isPrint, "")) then "x" else "";
    var other := if Reading(r, c).Some? && Reading(r, d).Some? then "x" else text;
    if Reading(r, c).Some? && Reading(r, d).Some? {
      text := "";
    }
    f := Telling(asked, text, other);
    TellingClaim(r, asked, text, other, isPrint, c, m);
    TellingClaim(r, asked, text, other, isPrint, d, m);
  }

  /** The texts behind quoted claims. */
  lemma TextsOf(isPrint: char -> bool, x: Claims) returns (texts: map<string, string>)
    requires Quoted(isPrint, x)
    ensures texts.Keys == x.Keys && forall n | n in x :: GoQuote.Quote(isPrint, texts[n]) == x[n]
  {
    texts := map n | n in x :: TextOf(isPrint, x[n]);
  }

  ghost function TextOf(isPrint: char -> bool, quoted: string): (text: string)
    requires exists s: string :: quoted == GoQuote.Quote(isPrint, s)
    ensures GoQuote.Quote(isPrint, text) == quoted
  {
    var s: string :| quoted == GoQuote.Quote(isPrint, s);
    s
  }

  /** The same texts whatever is asked. */
  function Copying(texts: map<string, string>): (string, string) -> Option<string> {
    (n: string, url: string) => Some(if n in texts then texts[n] else "")
  }

  /** A source that is asked can be made to write any quoted claims under its names. */
  lemma WriteAny(r: Resolver, isPrint: char -> bool, c: Claims, x: Claims)
    returns (f: (string, string) -> Option<string>)
    requires IsSound(r) && Reading(r, c).Some? && x.Keys == NamesWritten(r) && Quoted(isPrint, x)
    ensures Fetched(Writing(r, f), Echo(isPrint), c) == Some(x)
  {
    hide IsSound, NamesWritten, Reading, GoQuote.Quote, Fetched;
    var texts := TextsOf(isPrint, x);
    f := Copying(texts);
    EchoFetches(r, f, isPrint, c);
    var fetched := Fetched(Writing(r, f), Echo(isPrint), c);
    assert forall n :: f(n, Reading(r, c).value).Some?;
    assert fetched.Some? && fetched.value.Keys == x.Keys;
    assert fetched.value == x;
  }

  function EchoStep(r: Resolver, f: (string, string) -> Option<string>, isPrint: char -> bool): Step {
    Step(Writing(r, f), Echo(isPrint))
  }

  /** Two steps one after the other. */
  lemma ExpandTwo(s: Step, t: Step, c: Claims)
    ensures var between := Overlay(c, Fetched(s.resolver, s.world, c));
            ExpandAll([s, t], c) == Overlay(between, Fetched(t.resolver, t.world, between))
  {
    hide Fetched, Overlay, ExpandAll;
    assert [s, t][..1] == [s] && [s][..0] == [];
    ExpandAllNone(c);
    ExpandAllLast([s], c);
    ExpandAllLast([s, t], c);
  }

  lemma OtherClaim(r: Resolver, w: World, c: Claims, m: string)
    requires m !in NamesWritten(r)
    ensures Lookup(Overlay(c, Fetched(r, w, c)), m) == Lookup(c, m)
  {
    Atomicity(r, w, c);
    hide Fetched, NamesWritten, Overlay;
  }

  /** Two sources, one of which disturbs the other, can end in different claims by their order. */
  lemma DisturbedPair(
      isPrint: char -> bool, a: Resolver, b: Resolver, c: Claims, x: Claims, m: string)
    returns (f: (string, string) -> Option<string>, g: (string, string) -> Option<string>)
    requires IsSound(a) && IsSound(b) && m in NamesWritten(b) && m !in NamesWritten(a)
    requires Reading(a, c).Some? && x.Keys == NamesWritten(a) && Quoted(isPrint, x)
    requires Reading(b, c + x) != Reading(b, c)
    ensures var s, t := EchoStep(a, f, isPrint), EchoStep(b, g, isPrint);
            ExpandAll([s, t], c) != ExpandAll([t, s], c)
  {
    hide IsSound, NamesWritten, Reading, Fetched, ExpandAll, Quoted, Writing;
    f := WriteAny(a, isPrint, c, x);
    assert Lookup(c + x, m) == Lookup(c, m);
    g := TellApart(b, isPrint, c + x, c, m);
    var s, t := EchoStep(a, f, isPrint), EchoStep(b, g, isPrint);
    ExpandTwo(s, t, c);
    ExpandTwo(t, s, c);
    WritingIsAlike(a, f);
    AlikeReading(a, s.resolver);
    OtherClaim(s.resolver, s.world, AfterEcho(b, g, isPrint, c), m);
    assert Lookup(ExpandAll([s, t], c), m) != Lookup(ExpandAll([t, s], c), m);
  }

  // ----- the condition is needed: in a list -----

  /** A source that never fetches anything. */
  ghost predicate IsInert(s: Step) {
    forall c: Claims :: Fetched(s.resolver, s.world, c) == None
  }

  lemma {:induction false} InertRest(front: seq<Step>, rest: seq<Step>, c: Claims)
    requires forall s | s in rest :: IsInert(s)
    ensures ExpandAll(front + rest, c) == ExpandAll(front, c)
  {
    hide Fetched, ExpandAll;
    if rest == [] {
      assert front + rest == front;
    } else {
      var n := |rest| - 1;
      InertRest(front, rest[..n], c);
      assert (front + rest)[..|front| + n] == front + rest[..n];
      ExpandAllLast(front + rest, c);
      assert IsInert(rest[n]);
    }
  }

  function Failing(): (string, string) -> Option<string> {
    (n: string, url: string) => None
  }

  /** The source at i writes f, the one at j writes g, and all others fail. */
  function Playing(
      rs: seq<Resolver>, i: nat, f: (string, string) -> Option<string>,
      j: nat, g: (string, string) -> Option<string>): (rs': seq<Resolver>)
    ensures |rs'| == |rs|
    ensures forall k | 0 <= k < |rs| ::
              rs'[k] == Writing(rs[k], if k == i then f else if k == j then g else Failing())
  {
    seq(|rs|, k requires 0 <= k < |rs| =>
      Writing(rs[k], if k == i then f else if k == j then g else Failing()))
  }

  lemma FailingIsInert(r: Resolver, isPrint: char -> bool)
    requires IsSound(r)
    ensures IsInert(EchoStep(r, Failing(), isPrint))
  {
    hide IsSound, Fetched, Writing;
    forall c: Claims ensures Fetched(Writing(r, Failing()), Echo(isPrint), c) == None {
      EchoFetches(r, Failing(), isPrint, c);
    }
  }

  lemma PlayingIsAlike(
      rs: seq<Resolver>, i: nat, f: (string, string) -> Option<string>,
      j: nat, g: (string, string) -> Option<string>)
    ensures AllAlike(rs, Playing(rs, i, f, j, g))
  {
    hide Writing, Alike;
    forall k | 0 <= k < |rs| ensures Alike(rs[k], Playing(rs, i, f, j, g)[k]) {
      WritingIsAlike(rs[k], if k == i then f else if k == j then g else Failing());
    }
  }

  lemma PlayingRest(
      isPrint: char -> bool, rs: seq<Resolver>, i: nat, f: (string, string) -> Option<string>,
      j: nat, g: (string, string) -> Option<string>) returns (rest: seq<Step>)
    requires AreSound(rs) && i < |rs| && j < |rs| && i != j
    ensures var s, t := EchoStep(rs[i], f, isPrint), EchoStep(rs[j], g, isPrint);
            var steps := StepsIn(Echo(isPrint), Playing(rs, i, f, j, g));
            && multiset(steps) == multiset([s, t] + rest) && multiset(steps) == multiset([t, s] + rest)
            && forall u | u in rest :: IsInert(u)
  {
    hide IsSound, NamesWritten, Writing, IsInert, Playing;
    var steps := StepsIn(Echo(isPrint), Playing(rs, i, f, j, g));
    rest := TakeTwo(steps, i, j);
    forall u | u in rest ensures IsInert(u) {
      var k :| 0 <= k < |steps| && k != i && k != j && steps[k] == u;
      FailingIsInert(rs[k], isPrint);
    }
  }

  lemma PlayingOrders(
      isPrint: char -> bool, rs: seq<Resolver>, i: nat, f: (string, string) -> Option<string>,
      j: nat, g: (string, string) -> Option<string>, c: Claims)
    requires AreSound(rs) && i < |rs| && j < |rs| && i != j && OrderFree(isPrint, rs)
    ensures var s, t := EchoStep(rs[i], f, isPrint), EchoStep(rs[j], g, isPrint);
            ExpandAll([s, t], c) == ExpandAll([t, s], c)
  {
    hide *;
    var rs', w := Playing(rs, i, f, j, g), Echo(isPrint);
    var s, t := EchoStep(rs[i], f, isPrint), EchoStep(rs[j], g, isPrint);
    PlayingIsAlike(rs, i, f, j, g);
    var rest := PlayingRest(isPrint, rs, i, f, j, g);
    InertRest([s, t], rest, c);
    InertRest([t, s], rest, c);
    OrderFreeUse(isPrint, rs, rs', w, [s, t] + rest, [t, s] + rest, c);
  }

  lemma OrderFreeUse(
      isPrint: char -> bool, rs: seq<Resolver>, rs': seq<Resolver>, w: World,
      xs: seq<Step>, ys: seq<Step>, c: Claims)
    requires OrderFree(isPrint, rs) && AllAlike(rs, rs') && w == Echo(isPrint)
    requires multiset(xs) == multiset(StepsIn(w, rs')) && multiset(ys) == multiset(StepsIn(w, rs'))
    ensures ExpandAll(xs, c) == ExpandAll(ys, c)
  {
    hide AllAlike, ExpandAll, StepsIn;
    assert IsOrder(isPrint, rs, rs', w, xs) && IsOrder(isPrint, rs, rs', w, ys);
  }

  lemma OrderFreeIsUndisturbed(isPrint: char -> bool, rs: seq<Resolver>, i: nat, j: nat)
    requires AreSound(rs) && i < |rs| && j < |rs| && i != j && OrderFree(isPrint, rs)
    ensures Undisturbed(isPrint, rs[j], rs[i])
  {
    hide Reading, Quoted, OrderFree, ExpandAll, EchoStep;
    var a, b := rs[i], rs[j];
    forall c: Claims, x: Claims
      | Reading(a, c).Some? && x.Keys == NamesWritten(a) && Quoted(isPrint, x)
      ensures Reading(b, c + x) == Reading(b, c)
    {
      if Reading(b, c + x) != Reading(b, c) {
        var m := b.mappings[0].claim;
        var f, g := DisturbedPair(isPrint, a, b, c, x, m);
        PlayingOrders(isPrint, rs, i, f, j, g, c);
        assert false;
      }
    }
  }

  /**
   The exact condition: every order of sound sources ends in the same claims, whatever the answers and
   the expressions that extract the claims, if and only if no source disturbs another one.
   */
  lemma OrderFreeExactly(isPrint: char -> bool, rs: seq<Resolver>)
    requires AreSound(rs)
    ensures OrderFree(isPrint, rs) <==> AllUndisturbed(isPrint, rs)
  {
    hide OrderFree, AreSound, Undisturbed;
    if AllUndisturbed(isPrint, rs) {
      UndisturbedSuffices(isPrint, rs);
    }
    if OrderFree(isPrint, rs) {
      forall i, j | 0 <= i < |rs| && 0 <= j < |rs| && i != j ensures Undisturbed(isPrint, rs[i], rs[j]) {
        OrderFreeIsUndisturbed(isPrint, rs, j, i);
      }
    }
  }

  /** The same for every configuration that passed validation. */
  lemma ValidatedOrderFreeExactly(
      env: Env, b: BuildEnv, ss: seq<ExternalClaimsSource>, rs: seq<Resolver>, path: FieldPath,
      isPrint: char -> bool)
    requires Built(env, b, ss, rs, path)
    ensures OrderFree(isPrint, rs) <==> AllUndisturbed(isPrint, rs)
  {
    hide *;
    BuiltAreSound(env, b, ss, rs, path);
    OrderFreeExactly(isPrint, rs);
  }

  lemma BuiltAreSound(
      env: Env, b: BuildEnv, ss: seq<ExternalClaimsSource>, rs: seq<Resolver>, path: FieldPath)
    requires Built(env, b, ss, rs, path)
    ensures AreSound(rs)
  {
    hide Built, IsSound, NamesWritten, ConfiguredNames;
    BuiltResolvers(env, b, ss, rs, path);
    var steps := StepsIn(Answering(), rs);
    forall i, j | 0 <= i < j < |rs| ensures NamesWritten(rs[i]) !! NamesWritten(rs[j]) {
      assert Names(steps[i]) !! Names(steps[j]);
    }
  }

  // ----- an order that matters -----

  /** has n */
  function HasN(): Program<Claims> {
    Program((c: Claims) => Some(BoolValue("n" in c)))
  }

  function NoSegments(): Program<Claims> {
    Program((c: Claims) => Some(ListOf(GoStrings([]))))
  }

  function EmptyText(): Program<Json> {
    Program((json: Json) => Some(StringValue("")))
  }

  /** A compiler that has one program for each kind of expression. */
  function OneOfEach(): Compiler {
    Compiler(
      (expression: string, returnType: ReturnType) =>
        Some(if returnType == BoolType then HasN() else NoSegments()),
      (expression: string) => Some(EmptyText()))
  }

  function ExampleEnv(): Env {
    Env(OneOfEach(), (ca: string) => true, (url: string) => None)
  }

  function ExampleBuildEnv(): BuildEnv {
    BuildEnv(OneOfEach(), (ca: string) => true, (cfg: ClientCredentialConfig) => true)
  }

  /** A source at that host with one mapping. */
  function Source(hostname: string, claim: string, conditions: seq<ExternalSourceCondition>)
    : ExternalClaimsSource
  {
    ExternalClaimsSource(
      None, None, Some(SourceURL(Some(hostname), Some("[]"))),
      [SourcedClaimMapping(Some(claim), Some("''"))], conditions)
  }

  function Conditions(guarded: bool): seq<ExternalSourceCondition> {
    if guarded then [ExternalSourceCondition(Some("'n' in claims"))] else []
  }

  /** What is built from it. */
  function Constant(hostname: string, claim: string, guarded: bool): Resolver {
    Resolver(
      Anonymous, HttpClient(REQUEST_TIMEOUT_MILLIS, None), hostname, NoSegments(),
      [Mapping(claim, EmptyText())], if guarded then [HasN()] else [])
  }

  lemma OneCondition(c: ExternalSourceCondition)
    ensures ExpressionsOf([]) == [] && ExpressionsOf([c]) == ExpressionOf(c)
  {
    assert [c][..0] == [];
  }

  lemma OneMapping(m: SourcedClaimMapping)
    ensures NamesOf([m]) == NameOf(m)
  {
    assert [m][..0] == [];
  }

  /** Both sources are as validation wants them. */
  lemma SourceIsSource(hostname: string, claim: string, guarded: bool)
    requires Hostname.IsHostname(hostname) && claim in {"n", "m"}
    ensures IsSource(ExampleEnv(), Source(hostname, claim, Conditions(guarded)))
    ensures NamesOf(Source(hostname, claim, Conditions(guarded)).mappings) == [claim]
  {
    hide Hostname.IsHostname, ExpressionsOf, NamesOf;
    var s := Source(hostname, claim, Conditions(guarded));
    OneCondition(ExternalSourceCondition(Some("'n' in claims")));
    OneMapping(s.mappings[0]);
  }

  lemma ConditionCompiles(b: BuildEnv, c: ExternalSourceCondition, program: Program<Claims>)
    requires c.expression.Some? && b.compiler.claims(c.expression.value, BoolType) == Some(program)
    ensures ConditionPrograms(b, []) == Ok([]) && ConditionPrograms(b, [c]) == Ok([program])
  {
    var one, none := [c], [];
    assert one[..|one| - 1] == none;
    assert ConditionPrograms(b, none) == Ok([]);
    assert [] + [program] == [program];
  }

  lemma MappingCompiles(b: BuildEnv, m: SourcedClaimMapping, program: Program<Json>)
    requires m.name.Some? && m.expression.Some? && b.compiler.response(m.expression.value) == Some(program)
    ensures MappingPrograms(b, [m]) == Ok([Mapping(m.name.value, program)])
  {
    var one, none := [m], [];
    assert one[..|one| - 1] == none;
    assert MappingPrograms(b, none) == Ok([]);
    assert [] + [Mapping(m.name.value, program)] == [Mapping(m.name.value, program)];
  }

  lemma SourceBuildsConstant(hostname: string, claim: string, guarded: bool)
    ensures ResolverFor(ExampleBuildEnv(), Source(hostname, claim, Conditions(guarded)))
            == Ok(Constant(hostname, claim, guarded))
  {
    hide ConditionPrograms, MappingPrograms;
    var b := ExampleBuildEnv();
    ConditionCompiles(b, ExternalSourceCondition(Some("'n' in claims")), HasN());
    MappingCompiles(b, SourcedClaimMapping(Some(claim), Some("''")), EmptyText());
  }

  /** The first supplies claim n, and the second is only consulted if n is present. */
  function ExampleSources(hostname: string): seq<ExternalClaimsSource> {
    [Source(hostname, "n", Conditions(false)), Source(hostname, "m", Conditions(true))]
  }

  function ExampleResolvers(hostname: string): seq<Resolver> {
    [Constant(hostname, "n", false), Constant(hostname, "m", true)]
  }

  lemma TwoNames(x: ExternalClaimsSource, y: ExternalClaimsSource, n: string, m: string)
    requires NamesOf(x.mappings) == [n] && NamesOf(y.mappings) == [m] && n != m
    ensures Distinct(AllNames([x, y]))
  {
    hide NamesOf, AllNames;
    AllNamesSingle(x);
    AllNamesSingle(y);
    AllNamesConcat([x], [y]);
    assert [x] + [y] == [x, y];
    DistinctConcat([n], [m]);
  }

  lemma TwoResolvers(
      b: BuildEnv, x: ExternalClaimsSource, y: ExternalClaimsSource, r: Resolver, q: Resolver)
    requires ResolverFor(b, x) == Ok(r) && ResolverFor(b, y) == Ok(q)
    ensures ResolversFor(b, [x, y]) == Ok([r, q])
  {
    hide ResolverFor;
    var none, one, two := [], [x], [x, y];
    assert one[..|one| - 1] == none && two[..|two| - 1] == one;
    assert ResolversFor(b, none) == Ok([]);
    assert [] + [r] == [r] && [r] + [q] == [r, q];
    assert ResolversFor(b, one) == Ok([r]);
  }

  lemma ExampleIsBuilt(hostname: string, path: FieldPath)
    requires Hostname.IsHostname(hostname)
    ensures Built(
      ExampleEnv(), ExampleBuildEnv(), ExampleSources(hostname), ExampleResolvers(hostname), path)
  {
    hide Hostname.IsHostname, IsSource, NamesOf, AllNames, Distinct, SourcesErrors, ResolversFor, ResolverFor;
    var ss := ExampleSources(hostname);
    SourceIsSource(hostname, "n", false);
    SourceIsSource(hostname, "m", true);
    TwoNames(ss[0], ss[1], "n", "m");
    SourcesAccepted(ExampleEnv(), ss, path);
    SourceBuildsConstant(hostname, "n", false);
    SourceBuildsConstant(hostname, "m", true);
    TwoResolvers(
      ExampleBuildEnv(), ss[0], ss[1], Constant(hostname, "n", false), Constant(hostname, "m", true));
  }

  /** Every request is answered with an empty document. */
  function Answering(): World {
    World(
      None, (cfg: ClientCredentialConfig) => None,
      (client: HttpClient, request: Request) => Exchange(Response(STATUS_OK, Some("")), 0),
      (body: string) => Some(JsonNull), (ch: char) => ' ' <= ch <= '~', (url: string) => false)
  }

  lemma ConstantClaims(hostname: string, claim: string, guarded: bool)
    ensures ClaimsFromBody(Answering(), Constant(hostname, claim, guarded).mappings, Some("")).Some?
  {
    var mappings := Constant(hostname, claim, guarded).mappings;
    EvalAllMeaning(Programs(mappings), JsonNull);
    var values := EvalAll(Programs(mappings), JsonNull).value;
    assert Programs(mappings)[0].eval(JsonNull) == Some(StringValue(""));
    assert values[0] == StringValue("");
    assert ClaimsFor(Answering().isPrint, mappings[..0], values[..0]) == Some(map[]);
  }

  lemma ConstantFetches(hostname: string, claim: string, guarded: bool, c: Claims)
    requires Hostname.CheckHostname(hostname) == Hostname.Accepted
    requires guarded ==> "n" in c
    ensures Gives(Step(Constant(hostname, claim, guarded), Answering()), c, claim)
  {
    hide Hostname.CheckHostname, ConditionsOutcome;
    var r := Constant(hostname, claim, guarded);
    ConsultDecision(r.conditions, c);
    ValidatedRequest(r, Answering(), c);
    ConstantClaims(hostname, claim, guarded);
    hide RequestMade, IsSound, ClaimsFromBody;
    assert r.mappings[0].claim == claim;
  }

  /**
   Without that condition the order matters, already for a validated configuration of two sources and a
   token without claims.
   */
  lemma OrderMatters(path: FieldPath)
    returns (env: Env, b: BuildEnv, ss: seq<ExternalClaimsSource>, rs: seq<Resolver>, w: World)
    ensures |ss| == |rs| == 2
    ensures Built(env, b, ss, rs, path) && Built(env, b, [ss[1], ss[0]], [rs[1], rs[0]], path)
    ensures ExpandAll(StepsIn(w, rs), map[]) != ExpandAll(StepsIn(w, [rs[1], rs[0]]), map[])
  {
    hide Built, Gives, ExpandAll, ResolverFor, Hostname.CheckHostname, Hostname.IsHostname, NamesWritten;
    var hostname := Hostname.NoLengthLimit(1);
    Hostname.AcceptedHostnames(hostname);
    env, b, w := ExampleEnv(), ExampleBuildEnv(), Answering();
    ss, rs := ExampleSources(hostname), ExampleResolvers(hostname);
    ExampleIsBuilt(hostname, path);
    ReversedIsBuilt(hostname, path);
    var s, t := Step(rs[0], w), Step(rs[1], w);
    ConstantFetches(hostname, "n", false, map[]);
    AfterGiven(s, map[], "n");
    ConstantFetches(hostname, "m", true, ExpandAll([s], map[]));
    NamesOfConstant(hostname);
    OrderDecides(s, t, map[], "n", "m");
    assert StepsIn(w, rs) == [s, t] && StepsIn(w, [rs[1], rs[0]]) == [t, s];
  }

  lemma ReversedIsBuilt(hostname: string, path: FieldPath)
    requires Hostname.IsHostname(hostname)
    ensures var ss, rs := ExampleSources(hostname), ExampleResolvers(hostname);
            Built(ExampleEnv(), ExampleBuildEnv(), [ss[1], ss[0]], [rs[1], rs[0]], path)
  {
    hide Hostname.IsHostname, SourcesErrors, ResolversFor, ResolverFor, Source, Constant;
    var ss, rs := ExampleSources(hostname), ExampleResolvers(hostname);
    ExampleIsBuilt(hostname, path);
    AcceptanceHereditary(ExampleEnv(), ss, [ss[1], ss[0]], path, path);
    SourceBuildsConstant(hostname, "n", false);
    SourceBuildsConstant(hostname, "m", true);
    TwoResolvers(ExampleBuildEnv(), ss[1], ss[0], rs[1], rs[0]);
  }

  lemma AfterGiven(s: Step, c: Claims, n: string)
    requires Gives(s, c, n)
    ensures n in ExpandAll([s], c)
  {
    hide Fetched, Names, ExpandAll;
    assert [s][..0] == [];
    ExpandAllNone(c);
    ExpandAllLast([s], c);
    ContributionNames([s], c, 0);
  }

  lemma NamesOfConstant(hostname: string)
    ensures "m" !in NamesWritten(Constant(hostname, "n", false))
    ensures Needs(Constant(hostname, "m", true), "n")
  {
    var r := Constant(hostname, "m", true);
    assert Demands(r.conditions[0], "n");
  }
}
