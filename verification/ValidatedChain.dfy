/**
 What the claims of a token become under the expanders of a configuration that passed validation:
 what validation guarantees is exactly what the properties of a chain of sources ask for.
 */
module ValidatedChain {
  import opened Outcomes
  import opened Strings
  import opened ApiTypes
  import opened Cel
  import opened ClaimsResolver
  import opened ClaimsChain
  import opened Expanders
  import opened Multisets
  import opened Validation
  import opened ValidationProperties
  import Hostname
  import PercentEncoding
  import SourcePath
  import UrlPath

  /** Resolvers that were built, with the validator's compiler, from sources that passed validation. */
  ghost predicate Built(
      env: Env, b: BuildEnv, ss: seq<ExternalClaimsSource>, rs: seq<Resolver>, path: FieldPath)
  {
    b.compiler == env.compiler && SourcesErrors(env, ss, path) == [] && ResolversFor(b, ss) == Ok(rs)
  }

  /** One run of the resolvers, each in a world of its own. */
  ghost predicate Runs(steps: seq<Step>, rs: seq<Resolver>) {
    |steps| == |rs| && forall i | 0 <= i < |rs| :: steps[i].resolver == rs[i]
  }

  /** One run of the resolvers in a single world: answers depend on nothing but the request. */
  function StepsIn(w: World, rs: seq<Resolver>): (steps: seq<Step>)
    ensures Runs(steps, rs) && forall i | 0 <= i < |rs| :: steps[i] == Step(rs[i], w)
  {
    seq(|rs|, i requires 0 <= i < |rs| => Step(rs[i], w))
  }

  /** The names a source is configured to write. */
  function ConfiguredNames(s: ExternalClaimsSource): set<string> {
    Elems(NamesOf(s.mappings))
  }

  // ----- from accepted sources to resolvers -----

  lemma {:induction false} CompiledNames(
      env: Env, b: BuildEnv, ms: seq<SourcedClaimMapping>, compiled: seq<Mapping>)
    requires AreMappings(env, ms) && AreCompiledMappings(b, ms, compiled)
    ensures |NamesOf(ms)| == |compiled|
    ensures forall i | 0 <= i < |compiled| :: NamesOf(ms)[i] == compiled[i].claim
  {
    if ms != [] {
      var n := |ms| - 1;
      CompiledNames(env, b, ms[..n], compiled[..n]);
      assert IsMapping(env, ms[n]);
    }
  }

  lemma DistinctPlaces(xs: seq<string>)
    requires Distinct(xs)
    ensures forall i, j | 0 <= i < j < |xs| :: xs[i] != xs[j]
  {
    forall i, j | 0 <= i < j < |xs| ensures xs[i] != xs[j] {
      assert xs == xs[..i] + [xs[i]] + xs[i + 1..j] + [xs[j]] + xs[j + 1..];
      assert multiset(xs)[xs[i]] <= 1;
    }
  }

  /** A resolver writes the names its source configures, each by one mapping. */
  lemma ResolverNames(env: Env, b: BuildEnv, s: ExternalClaimsSource, r: Resolver)
    requires IsSource(env, s) && IsResolverOf(b, s, r) && Distinct(NamesOf(s.mappings))
    ensures NamesWritten(r) == ConfiguredNames(s)
    ensures |r.mappings| == |s.mappings|
    ensures forall i, j | 0 <= i < j < |r.mappings| :: r.mappings[i].claim != r.mappings[j].claim
  {
    CompiledNames(env, b, s.mappings, r.mappings);
    DistinctPlaces(NamesOf(s.mappings));
    hide NamesOf, Distinct, IsSource, IsResolverOf;
    forall n ensures n in NamesWritten(r) <==> n in ConfiguredNames(s) {
      if n in ConfiguredNames(s) {
        var i :| 0 <= i < |NamesOf(s.mappings)| && NamesOf(s.mappings)[i] == n;
        assert r.mappings[i].claim == n;
      }
      if n in NamesWritten(r) {
        var i :| 0 <= i < |r.mappings| && r.mappings[i].claim == n;
        assert NamesOf(s.mappings)[i] == n;
      }
    }
  }

  lemma NamesUnfold(ss: seq<ExternalClaimsSource>)
    requires ss != []
    ensures var n := |ss| - 1;
            && Elems(AllNames(ss)) == Elems(AllNames(ss[..n])) + ConfiguredNames(ss[n])
            && (Distinct(AllNames(ss)) <==>
                  && Distinct(AllNames(ss[..n])) && Distinct(NamesOf(ss[n].mappings))
                  && Elems(AllNames(ss[..n])) !! ConfiguredNames(ss[n]))
  {
    hide NamesOf, Elems, Distinct;
    DistinctConcat(AllNames(ss[..|ss| - 1]), NamesOf(ss[|ss| - 1].mappings));
  }

  lemma {:induction false} NamesApart(ss: seq<ExternalClaimsSource>)
    requires Distinct(AllNames(ss))
    ensures forall i | 0 <= i < |ss| ::
              Distinct(NamesOf(ss[i].mappings)) && ConfiguredNames(ss[i]) <= Elems(AllNames(ss))
    ensures forall i, j | 0 <= i < j < |ss| :: ConfiguredNames(ss[i]) !! ConfiguredNames(ss[j])
  {
    hide *;
    if ss != [] {
      var n := |ss| - 1;
      NamesUnfold(ss);
      NamesApart(ss[..n]);
      assert forall i | 0 <= i < n :: ss[..n][i] == ss[i];
    }
  }

  /** What every built resolver has, whichever source it came from. */
  ghost predicate IsSound(r: Resolver) {
    && Hostname.CheckHostname(r.hostname) == Hostname.Accepted
    && r.client.timeoutMillis == 500
    && r.mappings != []
    && forall i, j | 0 <= i < j < |r.mappings| :: r.mappings[i].claim != r.mappings[j].claim
  }

  lemma SoundResolver(env: Env, b: BuildEnv, s: ExternalClaimsSource, r: Resolver)
    requires IsSource(env, s) && IsResolverOf(b, s, r) && Distinct(NamesOf(s.mappings))
    ensures IsSound(r)
  {
    ResolverNames(env, b, s, r);
    Hostname.AcceptedHostnames(r.hostname);
    hide NamesOf, Distinct, Hostname.CheckHostname, Hostname.IsHostname, AreMappings, AreConditions;
    hide IsAuthentication, IsTLS, AreCompiledMappings, AreCompiledConditions, IsGetterOf;
    hide ExpressionsOf;
  }

  /** Validation and building together give resolvers with disjoint names, at most five of them. */
  lemma BuiltResolvers(
      env: Env, b: BuildEnv, ss: seq<ExternalClaimsSource>, rs: seq<Resolver>, path: FieldPath)
    requires Built(env, b, ss, rs, path)
    ensures |rs| == |ss| <= MAX_SOURCES
    ensures forall i | 0 <= i < |rs| :: IsSound(rs[i]) && NamesWritten(rs[i]) == ConfiguredNames(ss[i])
    ensures forall steps | Runs(steps, rs) :: DisjointNames(steps)
  {
    SourcesAccepted(env, ss, path);
    ValidationSufficesForBuilding(env, b, ss);
    NamesApart(ss);
    hide SourcesErrors, ResolversFor, AllNames, NamesOf, Distinct, IsSource, IsResolverOf, IsSound;
    hide NamesWritten, ConfiguredNames;
    forall i | 0 <= i < |rs|
      ensures IsSound(rs[i]) && NamesWritten(rs[i]) == ConfiguredNames(ss[i])
    {
      ResolverNames(env, b, ss[i], rs[i]);
      SoundResolver(env, b, ss[i], rs[i]);
    }
  }

  // ----- the results -----

  /**
   For every validated configuration, all claims and all answers: the claims end as the token's own,
   overlaid with what the sources that succeeded fetched; a claim none of those is configured to
   write is untouched.
   */
  lemma ValidatedResult(
      env: Env, b: BuildEnv, ss: seq<ExternalClaimsSource>, rs: seq<Resolver>, path: FieldPath,
      steps: seq<Step>, c: Claims, name: string)
    requires Built(env, b, ss, rs, path) && Runs(steps, rs)
    ensures |ss| == |steps|
    ensures ExpandAll(steps, c) == c + Union(steps, c)
    ensures forall i | 0 <= i < |ss| && name in ConfiguredNames(ss[i]) && Contribution(steps, c, i).Some? ::
              && name in ExpandAll(steps, c) && name in Contribution(steps, c, i).value
              && ExpandAll(steps, c)[name] == Contribution(steps, c, i).value[name]
    ensures (forall i | 0 <= i < |ss| && name in ConfiguredNames(ss[i]) :: Contribution(steps, c, i).None?)
            ==> Agree(ExpandAll(steps, c), c, name)
  {
    hide Built, Union, ExpandAll, Contribution, Supplies, Agree, ConfiguredNames, NamesWritten;
    hide IsSound, DisjointNames;
    BuiltResolvers(env, b, ss, rs, path);
    ExactResult(steps, c);
    ResultByClaim(steps, c, name);
    forall i | 0 <= i < |ss|
      ensures Supplies(steps, c, i, name)
              <==> name in ConfiguredNames(ss[i]) && Contribution(steps, c, i).Some?
    {
      SuppliesConfigured(steps, rs, ss, c, i, name);
    }
    forall i | !(0 <= i < |ss|) ensures !Supplies(steps, c, i, name) {
      SuppliesInRange(steps, c, i, name);
    }
  }

  lemma SuppliesConfigured(
      steps: seq<Step>, rs: seq<Resolver>, ss: seq<ExternalClaimsSource>, c: Claims, i: nat, name: string)
    requires Runs(steps, rs) && i < |rs| == |ss| && NamesWritten(rs[i]) == ConfiguredNames(ss[i])
    ensures Supplies(steps, c, i, name)
            <==> name in ConfiguredNames(ss[i]) && Contribution(steps, c, i).Some?
  {
    hide Contribution, NamesWritten, ConfiguredNames;
  }

  lemma {:induction false} ResolversBuild(b: BuildEnv, ss: seq<ExternalClaimsSource>)
    requires forall i | 0 <= i < |ss| :: ResolverFor(b, ss[i]).Ok?
    ensures ResolversFor(b, ss).Ok?
  {
    hide ResolverFor;
    if ss != [] {
      ResolversBuild(b, ss[..|ss| - 1]);
    }
  }

  lemma SourceStays(xs: seq<ExternalClaimsSource>, ys: seq<ExternalClaimsSource>)
    requires multiset(xs) == multiset(ys)
    ensures forall i | 0 <= i < |ys| :: exists j :: 0 <= j < |xs| && xs[j] == ys[i]
  {
    forall i | 0 <= i < |ys| ensures exists j :: 0 <= j < |xs| && xs[j] == ys[i] {
      assert ys[i] in multiset(ys);
      assert ys[i] in multiset(xs);
      var j :| 0 <= j < |xs| && xs[j] == ys[i];
    }
  }

  lemma ReorderedBuild(
      b: BuildEnv, xs: seq<ExternalClaimsSource>, ys: seq<ExternalClaimsSource>)
    requires multiset(xs) == multiset(ys) && ResolversFor(b, xs).Ok?
    ensures ResolversFor(b, ys).Ok?
  {
    hide ResolverFor, ResolversFor;
    SourceStays(xs, ys);
    ResolversExactly(b, xs);
    forall i | 0 <= i < |ys| ensures ResolverFor(b, ys[i]).Ok? {
      var j :| 0 <= j < |xs| && xs[j] == ys[i];
      assert ResolverFor(b, xs[j]).Ok?;
    }
    ResolversBuild(b, ys);
  }

  /** The step of a source in a world, if it builds. */
  function StepOf(b: BuildEnv, w: World): ExternalClaimsSource -> seq<Step> {
    (s: ExternalClaimsSource) =>
      match ResolverFor(b, s) case Ok(r) => [Step(r, w)] case Err(_) => []
  }

  lemma StepOfBuilt(b: BuildEnv, w: World, s: ExternalClaimsSource, r: Resolver)
    requires ResolverFor(b, s) == Ok(r)
    ensures StepOf(b, w)(s) == [Step(r, w)]
  {
    hide ResolverFor;
  }

  lemma {:induction false} StepsOfSources(
      b: BuildEnv, w: World, ss: seq<ExternalClaimsSource>, rs: seq<Resolver>)
    requires |ss| == |rs| && forall i | 0 <= i < |ss| :: ResolverFor(b, ss[i]) == Ok(rs[i])
    ensures Flat(StepOf(b, w), ss) == StepsIn(w, rs)
  {
    hide ResolverFor, StepOf, Flat, StepsIn;
    FlatUnfold(StepOf(b, w), ss);
    if ss == [] {
      assert StepsIn(w, rs) == [];
    } else {
      var n := |ss| - 1;
      StepsOfSources(b, w, ss[..n], rs[..n]);
      StepOfBuilt(b, w, ss[n], rs[n]);
      assert StepsIn(w, rs) == StepsIn(w, rs[..n]) + [Step(rs[n], w)];
    }
  }

  /** The expanders of reordered sources are the same expanders in another order. */
  lemma ReorderedResolvers(
      b: BuildEnv, w: World, xs: seq<ExternalClaimsSource>, ys: seq<ExternalClaimsSource>)
    requires multiset(xs) == multiset(ys) && ResolversFor(b, xs).Ok?
    ensures ResolversFor(b, ys).Ok?
    ensures multiset(StepsIn(w, ResolversFor(b, xs).value))
            == multiset(StepsIn(w, ResolversFor(b, ys).value))
  {
    hide ResolverFor, ResolversFor, StepOf, Flat, StepsIn;
    ReorderedBuild(b, xs, ys);
    ResolversExactly(b, xs);
    ResolversExactly(b, ys);
    StepsOfSources(b, w, xs, ResolversFor(b, xs).value);
    StepsOfSources(b, w, ys, ResolversFor(b, ys).value);
    FlatReorder(StepOf(b, w), xs, ys);
  }

  /**
   Every order of a validated source list is valid, builds, sends the same requests and ends in the
   same claims, as long as no source disturbs another one.
   */
  lemma ValidatedOrderIndependence(
      env: Env, b: BuildEnv, xs: seq<ExternalClaimsSource>, ys: seq<ExternalClaimsSource>,
      rs: seq<Resolver>, path: FieldPath, w: World)
    requires Built(env, b, xs, rs, path) && multiset(xs) == multiset(ys)
    requires Independent(StepsIn(w, rs))
    ensures ResolversFor(b, ys).Ok? && Built(env, b, ys, ResolversFor(b, ys).value, path)
    ensures forall c: Claims ::
              ExpandAll(StepsIn(w, rs), c) == ExpandAll(StepsIn(w, ResolversFor(b, ys).value), c)
    ensures forall c: Claims ::
              multiset(EffectsOfAll(StepsIn(w, rs), c))
              == multiset(EffectsOfAll(StepsIn(w, ResolversFor(b, ys).value), c))
  {
    hide ExpandAll, EffectsOfAll, DisjointNames, Independent, StepsIn, SourcesErrors, ResolversFor;
    AcceptanceHereditary(env, xs, ys, path, path);
    ReorderedResolvers(b, w, xs, ys);
    var px, py := StepsIn(w, rs), StepsIn(w, ResolversFor(b, ys).value);
    BuiltResolvers(env, b, xs, rs, path);
    forall c: Claims
      ensures ExpandAll(px, c) == ExpandAll(py, c)
      ensures multiset(EffectsOfAll(px, c)) == multiset(EffectsOfAll(py, c))
    {
      OrderIndependence(px, py, c);
      RequestsOrderFree(px, py, c);
    }
  }

  /** Conditions that are compiled to return a boolean return one or fail. */
  ghost predicate CompilesBooleans(compiler: Compiler) {
    forall expression: string ::
      compiler.claims(expression, BoolType).Some? ==>
        IsBooleanProgram(compiler.claims(expression, BoolType).value)
  }

  /** Why a built source is not consulted, and not just whether, is free of its conditions' order. */
  lemma ValidatedOutcomeOrderFree(
      env: Env, b: BuildEnv, ss: seq<ExternalClaimsSource>, rs: seq<Resolver>, path: FieldPath,
      i: nat, reordered: seq<Program<Claims>>, c: Claims)
    requires Built(env, b, ss, rs, path) && CompilesBooleans(env.compiler)
    requires i < |rs| && multiset(reordered) == multiset(rs[i].conditions)
    ensures ConditionsOutcome(reordered, c) == ConditionsOutcome(rs[i].conditions, c)
  {
    SourcesAccepted(env, ss, path);
    ValidationSufficesForBuilding(env, b, ss);
    hide SourcesErrors, ResolversFor, ValidSources, IsBooleanProgram, IsGetterOf, AreCompiledMappings;
    hide ConditionsOutcome;
    assert IsResolverOf(b, ss[i], rs[i]);
    forall p | p in rs[i].conditions ensures IsBooleanProgram(p) {
      var k :| 0 <= k < |rs[i].conditions| && rs[i].conditions[k] == p;
    }
    BooleanOutcomeOrderFree(rs[i].conditions, reordered, c);
  }

  /**
   If source i maps claim n and one of its conditions fails whenever n is present, then a token's own
   n comes through the whole validated chain unchanged, since no other source may map n.
   */
  lemma ValidatedGuard(
      env: Env, b: BuildEnv, ss: seq<ExternalClaimsSource>, rs: seq<Resolver>, path: FieldPath,
      steps: seq<Step>, c: Claims, i: nat, n: string)
    requires Built(env, b, ss, rs, path) && Runs(steps, rs)
    requires i < |ss| && n in ConfiguredNames(ss[i])
    requires i < |rs| && Guards(rs[i], n) && n in c
    ensures n in ExpandAll(steps, c) && ExpandAll(steps, c)[n] == c[n]
  {
    BuiltResolvers(env, b, ss, rs, path);
    hide ExpandAll, Guards, Built, NamesWritten, ConfiguredNames;
    forall s | s in steps && n in Names(s) ensures Guards(s.resolver, n) {
      var j :| 0 <= j < |steps| && steps[j] == s;
      assert n in Names(steps[i]);
      assert i == j;
    }
    GuardedClaimSurvives(steps, c, n);
  }

  /** Cleaning the escaped values leaves escaped segments. */
  lemma CleanedSegments(vals: seq<Bytes>)
    ensures UrlPath.AreSegments(UrlPath.CleanSegments(SourcePath.EscapeAll(vals)))
  {
    hide UrlPath.CleanSegments, UrlPath.IsEscaped, UrlPath.IsOrdinary;
    var segs := UrlPath.CleanSegments(SourcePath.EscapeAll(vals));
    SourcePath.CleanEscapeCommute(vals);
    SourcePath.CleanSegmentsOrdinary(SourcePath.EscapeAll(vals));
    forall i | 0 <= i < |segs| ensures UrlPath.IsEscaped(segs[i]) {
      SourcePath.EscapedIsEscaped(UrlPath.CleanSegments(vals)[i]);
    }
  }

  lemma RootedDecodes(p: string)
    requires PercentEncoding.Unescape(p).Some?
    ensures PercentEncoding.Unescape("/" + p).Some?
  {
    assert ("/" + p)[1..] == p;
  }

  /** A path that repeated joining built is fit for a request. */
  lemma PathIsRequestPath(vals: seq<Bytes>)
    ensures Hostname.IsRequestPath("/" + SourcePath.PathOf(vals))
  {
    hide UrlPath.CleanSegments, UrlPath.Render, UrlPath.AreSegments, PercentEncoding.Unescape;
    CleanedSegments(vals);
    UrlPath.RenderShape(UrlPath.CleanSegments(SourcePath.EscapeAll(vals)));
    RootedDecodes(SourcePath.PathOf(vals));
  }

  /** The URL of a sound resolver always parses, and decodes to its hostname and cleaned values. */
  lemma SoundURL(r: Resolver, w: World, vals: seq<Bytes>)
    requires IsSound(r)
    ensures var url := SourcePath.SourceURL(r.hostname, SourcePath.PathOf(vals));
            && CanRequest(w, url)
            && SourcePath.ReadURL(url) == Some((r.hostname, UrlPath.CleanSegments(vals)))
  {
    hide SourcePath.ReadURL, UrlPath.CleanSegments, SourcePath.PathOf, Hostname.ParseHttps;
    hide Hostname.IsRequestPath, Hostname.CheckHostname;
    var path := "/" + SourcePath.PathOf(vals);
    PathIsRequestPath(vals);
    Hostname.AcceptedHostnameParses(r.hostname, path);
    SourcePath.ReadBuiltURL(r.hostname, vals);
    var url := SourcePath.SourceURL(r.hostname, SourcePath.PathOf(vals));
    assert url[|SourcePath.HTTPS|..] == r.hostname + path;
  }

  lemma URLStart(hostname: string, vals: seq<Bytes>)
    ensures "https://" + hostname + "/" <= SourcePath.SourceURL(hostname, SourcePath.PathOf(vals))
  {
    hide SourcePath.PathOf;
  }

  /** The strings that a path expression yields. */
  function PathValues(r: Resolver, c: Claims): (values: Option<seq<Bytes>>)
    ensures values.Some?
            <==> && r.path.eval(c).Some? && r.path.eval(c).value.ListOf?
                 && StringList(r.path.eval(c).value.list).Some?
    ensures values.Some? ==> values == StringList(r.path.eval(c).value.list)
  {
    match r.path.eval(c)
    case Some(ListOf(list)) => StringList(list)
    case _ => None
  }

  /**
   A built source sends a request exactly if its conditions hold and its token and path values can
   be had; the request then goes to its own hostname, its path decodes to the cleaned values, and it
   carries the token that the source's authentication calls for.
   */
  lemma ValidatedRequest(r: Resolver, w: World, c: Claims)
    requires IsSound(r)
    ensures RequestMade(r, w, c).Some?
            <==> && ConditionsOutcome(r.conditions, c) == Some(true)
                 && HasToken(r.tokenGetter, w)
                 && PathValues(r, c).Some?
    ensures RequestMade(r, w, c).Some? ==>
              "https://" + r.hostname + "/" <= RequestMade(r, w, c).value.url
    ensures RequestMade(r, w, c).Some? ==>
              SourcePath.ReadURL(RequestMade(r, w, c).value.url)
              == Some((r.hostname, UrlPath.CleanSegments(PathValues(r, c).value)))
    ensures RequestMade(r, w, c).Some? ==>
              Authorizes(r.tokenGetter, w, RequestMade(r, w, c).value.authorization)
  {
    TokenExactly(r.tokenGetter, w);
    if RequestMade(r, w, c).Some? {
      RequestAuthorization(r, w, c);
      URLStart(r.hostname, PathValues(r, c).value);
    }
    if PathValues(r, c).Some? {
      SoundURL(r, w, PathValues(r, c).value);
    }
    hide IsSound, CanRequest, ConditionsOutcome, AccessToken, StringList, UrlPath.CleanSegments;
    hide SourcePath.ReadURL, SourcePath.PathOf, SourcePath.SourceURL, Authorizes, HasToken;
  }

  /**
   At most one request for each source, so at most 5 in all, and at most 2500 ms of request time if
   every request ends within its client's timeout.
   */
  lemma ValidatedBudget(
      env: Env, b: BuildEnv, ss: seq<ExternalClaimsSource>, rs: seq<Resolver>, path: FieldPath,
      steps: seq<Step>, c: Claims)
    requires Built(env, b, ss, rs, path) && Runs(steps, rs)
    requires forall s | s in steps :: HonoursTimeout(s, s.resolver.client.timeoutMillis)
    ensures |EffectsOfAll(steps, c)| <= |ss| <= 5
    ensures TotalMillis(EffectsOfAll(steps, c)) <= 2500
  {
    BuiltResolvers(env, b, ss, rs, path);
    hide EffectsOfAll, TotalMillis, Built, NamesWritten, ConfiguredNames, DisjointNames, HonoursTimeout;
    RequestCount(steps, c);
    RequestBudget(steps, c, REQUEST_TIMEOUT_MILLIS);
  }
}
