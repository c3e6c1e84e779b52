/**
 What the validator accepts, stated without its order of checks: a predicate on the source list.
 The validator is sound and complete for it, in spite of the set that all sources share and of the
 early returns that decide whether a name is inserted.
 */
module ValidationProperties {
  import opened Outcomes
  import opened Regexp
  import opened ApiTypes
  import opened Cel
  import opened Validation
  import opened Multisets
  import PercentEncoding

  // ----- lists without repetition -----

  function Elems(xs: seq<string>): set<string> {
    set x | x in xs
  }

  ghost predicate Distinct(xs: seq<string>) {
    forall x :: multiset(xs)[x] <= 1
  }

  lemma DistinctConcat(a: seq<string>, b: seq<string>)
    ensures Elems(a + b) == Elems(a) + Elems(b)
    ensures Distinct(a + b) <==> Distinct(a) && Distinct(b) && Elems(a) !! Elems(b)
  {
    assert forall x :: multiset(a + b)[x] == multiset(a)[x] + multiset(b)[x];
    assert forall x :: x in Elems(a) <==> multiset(a)[x] > 0;
    assert forall x :: x in Elems(b) <==> multiset(b)[x] > 0;
    if Distinct(a + b) {
      forall x ensures multiset(a)[x] <= 1 && multiset(b)[x] <= 1 {
        assert multiset(a + b)[x] <= 1;
      }
      forall x | x in Elems(a) ensures x !in Elems(b) {
        assert multiset(a + b)[x] <= 1;
      }
    }
  }

  /** Names without repetition, none of them seen before. */
  ghost predicate Fresh(xs: seq<string>, seen: set<string>) {
    Distinct(xs) && Elems(xs) !! seen
  }

  lemma FreshConcat(a: seq<string>, b: seq<string>, seen: set<string>)
    ensures Fresh(a + b, seen) <==> Fresh(a, seen) && Fresh(b, seen + Elems(a))
    ensures seen + Elems(a + b) == seen + Elems(a) + Elems(b)
  {
    DistinctConcat(a, b);
    hide Distinct, Elems;
  }

  // ----- the declarative predicate -----

  ghost predicate IsMapping(env: Env, m: SourcedClaimMapping) {
    m.name.Some? && IsName(m.name.value) && IsResponseExpression(env, m.expression)
  }

  ghost predicate AreMappings(env: Env, ms: seq<SourcedClaimMapping>) {
    forall i | 0 <= i < |ms| :: IsMapping(env, ms[i])
  }

  ghost predicate AreConditions(env: Env, cs: seq<ExternalSourceCondition>) {
    forall i | 0 <= i < |cs| :: IsCondition(env, cs[i])
  }

  ghost predicate AreSources(env: Env, sources: seq<ExternalClaimsSource>) {
    forall i | 0 <= i < |sources| :: IsSource(env, sources[i])
  }

  ghost predicate IsCondition(env: Env, c: ExternalSourceCondition) {
    IsClaimsExpression(env, c.expression, BoolType)
  }

  /** The well-formed name of a mapping, if it has one. */
  function NameOf(m: SourcedClaimMapping): seq<string> {
    if m.name.Some? && IsName(m.name.value) then [m.name.value] else []
  }

  function NamesOf(mappings: seq<SourcedClaimMapping>): seq<string> {
    if mappings == [] then []
    else NamesOf(mappings[..|mappings| - 1]) + NameOf(mappings[|mappings| - 1])
  }

  /** Every well-formed claim name that the sources write, source by source. */
  function AllNames(sources: seq<ExternalClaimsSource>): seq<string> {
    if sources == [] then []
    else AllNames(sources[..|sources| - 1]) + NamesOf(sources[|sources| - 1].mappings)
  }

  function ExpressionOf(c: ExternalSourceCondition): seq<string> {
    if c.expression.Some? && c.expression.value != "" then [c.expression.value] else []
  }

  function ExpressionsOf(conditions: seq<ExternalSourceCondition>): seq<string> {
    if conditions == [] then []
    else ExpressionsOf(conditions[..|conditions| - 1]) + ExpressionOf(conditions[|conditions| - 1])
  }

  /** What a source must be, apart from the names other sources use. */
  ghost predicate IsSource(env: Env, s: ExternalClaimsSource) {
    && IsAuthentication(env, s.authentication)
    && IsTLS(env, s.tls)
    && IsURL(env, s.url)
    && 1 <= |s.mappings| <= 16
    && AreMappings(env, s.mappings)
    && |s.conditions| <= 16
    && AreConditions(env, s.conditions)
    && Distinct(ExpressionsOf(s.conditions))
  }

  /** At most five sources, each well formed, and no claim name used twice in all of them. */
  ghost predicate ValidSources(env: Env, sources: seq<ExternalClaimsSource>) {
    && |sources| <= 5
    && AreSources(env, sources)
    && Distinct(AllNames(sources))
  }

  // ----- character classes -----

  /** A name: 1 to 256 lowercase letters and underscores. */
  lemma NameExactly(name: string)
    ensures IsName(name)
            <==> && 1 <= |name| <= 256
                 && forall i | 0 <= i < |name| :: name[i] in PercentEncoding.LOWER || name[i] == '_'
  {
    hide PercentEncoding.LOWER;
    forall i | 0 <= i < |name| ensures name[i] in PercentEncoding.LOWER <==> 'a' <= name[i] <= 'z' {
      PercentEncoding.LowerExactly(name[i]);
    }
  }

  /** A scope: printable ASCII without space, double quote and backslash, and at least one character. */
  lemma ScopeExactly(scope: string)
    ensures IsScope(scope)
            <==> && scope != ""
                 && forall i | 0 <= i < |scope| ::
                      0x21 <= scope[i] as int <= 0x7e && scope[i] != '"' && scope[i] != '\\'
  {
    forall i | 0 <= i < |scope| ensures IsScopeChar(scope[i]) <==>
      0x21 <= scope[i] as int <= 0x7e && scope[i] != '"' && scope[i] != '\\'
    {
    }
  }

  // ----- one name, one mapping, one condition -----

  lemma NameOutcomeCases(name: Option<string>, seen: set<string>, path: FieldPath)
    ensures name.Some? && IsName(name.value) ==>
              NameOutcome(name, seen, path) ==
              if name.value in seen then Outcome([FieldError(Duplicate, path)], seen)
              else Outcome([], seen + {name.value})
    ensures !(name.Some? && IsName(name.value)) ==>
              && NameOutcome(name, seen, path).errs != []
              && NameOutcome(name, seen, path).seen == seen
              && forall e | e in NameOutcome(name, seen, path).errs :: e.kind != Duplicate
  {
    if name.Some? {
      PlusChars(IsNameChar, name.value);
      hide Matches, IsNameChar;
    }
  }

  lemma MappingOutcomeCases(env: Env, m: SourcedClaimMapping, seen: set<string>, path: FieldPath)
    ensures MappingOutcome(env, m, seen, path).seen == seen + Elems(NameOf(m))
    ensures MappingOutcome(env, m, seen, path).errs == []
            <==> IsMapping(env, m) && Fresh(NameOf(m), seen)
  {
    NameOutcomeCases(m.name, seen, path + [Child(Field.Name)]);
    hide NameOutcome, IsName, MappingExpressionErrors, IsResponseExpression;
  }

  lemma ConditionOutcomeCases(
      env: Env, c: ExternalSourceCondition, seen: set<string>, path: FieldPath)
    ensures ConditionOutcome(env, c, seen, path).seen == seen + Elems(ExpressionOf(c))
    ensures ConditionOutcome(env, c, seen, path).errs == []
            <==> IsCondition(env, c) && Fresh(ExpressionOf(c), seen)
  {
  }

  // ----- runs -----

  lemma MappingRunUnfold(
      env: Env, ms: seq<SourcedClaimMapping>, seen: set<string>, path: FieldPath, base: nat)
    requires ms != []
    ensures MappingRun(env, ms, seen, path, base) ==
            var before := MappingRun(env, ms[..|ms| - 1], seen, path, base);
            var last := MappingOutcome(
                env, ms[|ms| - 1], before.seen, path + [Index(base + |ms| - 1)]);
            Outcome(before.errs + last.errs, last.seen)
    ensures AreMappings(env, ms)
            <==> AreMappings(env, ms[..|ms| - 1]) && IsMapping(env, ms[|ms| - 1])
    ensures NamesOf(ms) == NamesOf(ms[..|ms| - 1]) + NameOf(ms[|ms| - 1])
  {
    hide MappingOutcome, IsMapping;
  }

  lemma MappingRunEmpty(env: Env, seen: set<string>, path: FieldPath, base: nat)
    ensures MappingRun(env, [], seen, path, base) == Outcome([], seen + Elems(NamesOf([])))
    ensures AreMappings(env, []) && Fresh(NamesOf([]), seen)
  {
    hide MappingOutcome, IsMapping;
  }

  lemma {:induction false} MappingRunMeaning(
      env: Env, ms: seq<SourcedClaimMapping>, seen: set<string>, path: FieldPath, base: nat)
    ensures MappingRun(env, ms, seen, path, base).seen == seen + Elems(NamesOf(ms))
    ensures MappingRun(env, ms, seen, path, base).errs == []
            <==> AreMappings(env, ms) && Fresh(NamesOf(ms), seen)
  {
    hide *;
    MappingRunEmpty(env, seen, path, base);
    if ms != [] {
      var front, last := ms[..|ms| - 1], ms[|ms| - 1];
      var before := MappingRun(env, front, seen, path, base);
      MappingRunUnfold(env, ms, seen, path, base);
      MappingRunMeaning(env, front, seen, path, base);
      MappingOutcomeCases(env, last, before.seen, path + [Index(base + |front|)]);
      FreshConcat(NamesOf(front), NameOf(last), seen);
    }
  }

  lemma ConditionRunUnfold(env: Env, cs: seq<ExternalSourceCondition>, path: FieldPath)
    requires cs != []
    ensures ConditionRun(env, cs, path) ==
            var before := ConditionRun(env, cs[..|cs| - 1], path);
            var last := ConditionOutcome(env, cs[|cs| - 1], before.seen, path + [Index(|cs| - 1)]);
            Outcome(before.errs + last.errs, last.seen)
    ensures AreConditions(env, cs)
            <==> AreConditions(env, cs[..|cs| - 1]) && IsCondition(env, cs[|cs| - 1])
    ensures ExpressionsOf(cs) == ExpressionsOf(cs[..|cs| - 1]) + ExpressionOf(cs[|cs| - 1])
  {
    hide ConditionOutcome, IsCondition;
  }

  lemma ConditionRunEmpty(env: Env, path: FieldPath)
    ensures ConditionRun(env, [], path) == Outcome([], Elems(ExpressionsOf([])))
    ensures Elems(ExpressionsOf([])) == {}
    ensures AreConditions(env, []) && Fresh(ExpressionsOf([]), {})
  {
    hide ConditionOutcome, IsCondition;
  }

  lemma {:induction false} ConditionRunMeaning(
      env: Env, cs: seq<ExternalSourceCondition>, path: FieldPath)
    ensures ConditionRun(env, cs, path).seen == Elems(ExpressionsOf(cs))
    ensures ConditionRun(env, cs, path).errs == []
            <==> AreConditions(env, cs) && Fresh(ExpressionsOf(cs), {})
  {
    hide *;
    ConditionRunEmpty(env, path);
    if cs != [] {
      var front, last := cs[..|cs| - 1], cs[|cs| - 1];
      var before := ConditionRun(env, front, path);
      ConditionRunUnfold(env, cs, path);
      ConditionRunMeaning(env, front, path);
      ConditionOutcomeCases(env, last, before.seen, path + [Index(|front|)]);
      FreshConcat(ExpressionsOf(front), ExpressionOf(last), {});
      assert {} + Elems(ExpressionsOf(front)) == before.seen;
    }
  }

  // ----- sources -----

  lemma MappingsOutcomeMeaning(
      env: Env, ms: seq<SourcedClaimMapping>, seen: set<string>, path: FieldPath)
    ensures MappingsOutcome(env, ms, seen, path).seen == seen + Elems(NamesOf(ms))
    ensures MappingsOutcome(env, ms, seen, path).errs == []
            <==> 1 <= |ms| <= MAX_MAPPINGS && AreMappings(env, ms) && Fresh(NamesOf(ms), seen)
  {
    hide MappingRun, Fresh, AreMappings;
    MappingRunMeaning(env, ms, seen, path, 0);
  }

  lemma ConditionsErrorsMeaning(env: Env, cs: seq<ExternalSourceCondition>, path: FieldPath)
    ensures ConditionsErrors(env, cs, path) == []
            <==> && |cs| <= MAX_CONDITIONS && AreConditions(env, cs)
                 && Distinct(ExpressionsOf(cs))
  {
    hide ConditionRun, AreConditions, ExpressionsOf, Distinct, Elems;
    ConditionRunMeaning(env, cs, path);
  }

  /** A source adds its well-formed names to the set, and passes exactly if it and they are good. */
  lemma SourceOutcomeMeaning(
      env: Env, s: ExternalClaimsSource, seen: set<string>, path: FieldPath)
    ensures SourceOutcome(env, s, seen, path).seen == seen + Elems(NamesOf(s.mappings))
    ensures SourceOutcome(env, s, seen, path).errs == []
            <==> IsSource(env, s) && Fresh(NamesOf(s.mappings), seen)
  {
    MappingsOutcomeMeaning(env, s.mappings, seen, path + [Child(Field.Mappings)]);
    ConditionsErrorsMeaning(env, s.conditions, path + [Child(Field.Conditions)]);
    hide AuthenticationErrors, TLSErrors, MappingsOutcome, ConditionsErrors, URLErrors, Fresh;
    hide AreMappings, AreConditions, Distinct, IsAuthentication, IsTLS, IsURL, ExpressionsOf, NamesOf;
  }

  lemma SourceRunUnfold(
      env: Env, ss: seq<ExternalClaimsSource>, seen: set<string>, path: FieldPath, base: nat)
    requires ss != []
    ensures SourceRun(env, ss, seen, path, base) ==
            var before := SourceRun(env, ss[..|ss| - 1], seen, path, base);
            var last := SourceOutcome(
                env, ss[|ss| - 1], before.seen, path + [Index(base + |ss| - 1)]);
            Outcome(before.errs + last.errs, last.seen)
    ensures AreSources(env, ss) <==> AreSources(env, ss[..|ss| - 1]) && IsSource(env, ss[|ss| - 1])
    ensures AllNames(ss) == AllNames(ss[..|ss| - 1]) + NamesOf(ss[|ss| - 1].mappings)
  {
    hide SourceOutcome, IsSource, NamesOf;
  }

  lemma SourceRunEmpty(env: Env, seen: set<string>, path: FieldPath, base: nat)
    ensures SourceRun(env, [], seen, path, base) == Outcome([], seen + Elems(AllNames([])))
    ensures AreSources(env, []) && Fresh(AllNames([]), seen)
  {
    hide SourceOutcome, IsSource;
  }

  lemma {:induction false} SourceRunMeaning(
      env: Env, ss: seq<ExternalClaimsSource>, seen: set<string>, path: FieldPath, base: nat)
    ensures SourceRun(env, ss, seen, path, base).seen == seen + Elems(AllNames(ss))
    ensures SourceRun(env, ss, seen, path, base).errs == []
            <==> AreSources(env, ss) && Fresh(AllNames(ss), seen)
  {
    hide *;
    SourceRunEmpty(env, seen, path, base);
    if ss != [] {
      var front, last := ss[..|ss| - 1], ss[|ss| - 1];
      var before := SourceRun(env, front, seen, path, base);
      SourceRunUnfold(env, ss, seen, path, base);
      SourceRunMeaning(env, front, seen, path, base);
      SourceOutcomeMeaning(env, last, before.seen, path + [Index(base + |front|)]);
      FreshConcat(AllNames(front), NamesOf(last.mappings), seen);
    }
  }

  /** The validator reports no error on a source list if and only if the list is valid. */
  lemma SourcesAccepted(env: Env, sources: seq<ExternalClaimsSource>, path: FieldPath)
    ensures SourcesErrors(env, sources, path) == [] <==> ValidSources(env, sources)
  {
    hide SourceRun, AreSources, AllNames, Distinct, Elems;
    SourceRunMeaning(env, sources, {}, path, 0);
  }

  ghost predicate AreValid(env: Env, jwt: seq<JWTAuthenticator>) {
    forall i | 0 <= i < |jwt| :: ValidSources(env, jwt[i].externalClaimsSources)
  }

  function SourcesPath(i: nat): FieldPath {
    ROOT + [Index(i)] + [Child(Field.ExternalClaimsSources)]
  }

  lemma AuthenticatorRunUnfold(env: Env, jwt: seq<JWTAuthenticator>)
    ensures jwt == [] ==> AuthenticatorRun(env, jwt) == [] && AreValid(env, jwt)
    ensures jwt != [] ==>
              var n := |jwt| - 1;
              var sources := jwt[n].externalClaimsSources;
              && AuthenticatorRun(env, jwt)
                 == AuthenticatorRun(env, jwt[..n]) + SourcesErrors(env, sources, SourcesPath(n))
              && (AreValid(env, jwt) <==> AreValid(env, jwt[..n]) && ValidSources(env, sources))
  {
    hide SourcesErrors, ValidSources;
  }

  lemma {:induction false} AuthenticatorRunMeaning(env: Env, jwt: seq<JWTAuthenticator>)
    ensures AuthenticatorRun(env, jwt) == [] <==> AreValid(env, jwt)
  {
    hide *;
    AuthenticatorRunUnfold(env, jwt);
    if jwt != [] {
      var n := |jwt| - 1;
      AuthenticatorRunMeaning(env, jwt[..n]);
      SourcesAccepted(env, jwt[n].externalClaimsSources, SourcesPath(n));
    }
  }

  /** The same for the whole configuration, given what the Kubernetes validation reports. */
  lemma ConfigurationAccepted(env: Env, config: AuthenticationConfiguration, upstream: Errors)
    ensures ConfigurationErrors(env, config, upstream) == []
            <==> && config.jwt != []
                 && upstream == []
                 && forall i | 0 <= i < |config.jwt| ::
                      ValidSources(env, config.jwt[i].externalClaimsSources)
  {
    hide AuthenticatorRun, ValidSources;
    AuthenticatorRunMeaning(env, config.jwt);
  }

  // ----- order and sublists do not matter -----

  /** Names are collected source by source, so a list and its parts have the same names. */
  lemma {:induction false} AllNamesConcat(a: seq<ExternalClaimsSource>, b: seq<ExternalClaimsSource>)
    ensures AllNames(a + b) == AllNames(a) + AllNames(b)
  {
    hide *;
    NoNames();
    if b == [] {
      assert a + b == a;
    } else {
      var front := b[..|b| - 1];
      AllNamesConcat(a, front);
      AllNamesUnfold(b);
      AllNamesUnfold(a + b);
      assert (a + b)[..|a + b| - 1] == a + front;
    }
  }

  lemma AllNamesUnfold(ss: seq<ExternalClaimsSource>)
    requires ss != []
    ensures AllNames(ss) == AllNames(ss[..|ss| - 1]) + NamesOf(ss[|ss| - 1].mappings)
  {
    hide NamesOf;
  }

  lemma AllNamesSingle(s: ExternalClaimsSource)
    ensures AllNames([]) == [] && AllNames([s]) == NamesOf(s.mappings)
  {
    hide NamesOf;
    assert AllNames([]) + NamesOf(s.mappings) == NamesOf(s.mappings);
  }

  lemma AllNamesPick(xs: seq<ExternalClaimsSource>, k: nat)
    requires k < |xs|
    ensures multiset(AllNames(xs)) ==
            multiset(NamesOf(xs[k].mappings)) + multiset(AllNames(xs[..k] + xs[k + 1..]))
    ensures multiset(xs) == multiset{xs[k]} + multiset(xs[..k] + xs[k + 1..])
  {
    hide *;
    var a, b := xs[..k], xs[k + 1..];
    AllNamesSingle(xs[k]);
    assert xs == a + [xs[k]] + b;
    AllNamesConcat(a + [xs[k]], b);
    AllNamesConcat(a, [xs[k]]);
    AllNamesConcat(a, b);
  }

  /** Fewer sources, in any order, have fewer names. */
  lemma {:induction false} AllNamesMonotone(
      ys: seq<ExternalClaimsSource>, xs: seq<ExternalClaimsSource>)
    requires multiset(ys) <= multiset(xs)
    ensures multiset(AllNames(ys)) <= multiset(AllNames(xs))
    ensures |ys| <= |xs|
    decreases |ys|
  {
    hide *;
    if ys == [] {
      NoNames();
    } else {
      var y := ys[0];
      assert y in multiset(ys) && y in multiset(xs);
      var k :| 0 <= k < |xs| && xs[k] == y;
      AllNamesPick(ys, 0);
      AllNamesPick(xs, k);
      var ys', xs' := ys[..0] + ys[1..], xs[..k] + xs[k + 1..];
      CancelOne(y, multiset(ys'), multiset(xs'));
      AllNamesMonotone(ys', xs');
    }
  }

  /**
   Acceptance is order-free and hereditary: any selection of the sources of an accepted list, in
   any order, is accepted. Permutations are the selections of all sources.
   */
  lemma AcceptanceHereditary(
      env: Env, xs: seq<ExternalClaimsSource>, ys: seq<ExternalClaimsSource>,
      path: FieldPath, path': FieldPath)
    requires SourcesErrors(env, xs, path) == []
    requires multiset(ys) <= multiset(xs)
    ensures SourcesErrors(env, ys, path') == []
  {
    SourcesAccepted(env, xs, path);
    SourcesAccepted(env, ys, path');
    hide SourcesErrors, IsSource, AllNames;
    AllNamesMonotone(ys, xs);
    forall x ensures multiset(AllNames(ys))[x] <= 1 {
      assert multiset(AllNames(xs))[x] <= 1;
    }
    forall i | 0 <= i < |ys| ensures IsSource(env, ys[i]) {
      assert ys[i] in multiset(ys) && ys[i] in multiset(xs);
      var k :| 0 <= k < |xs| && xs[k] == ys[i];
    }
  }

  /**
   Threading the shared set is compositional: checking xs + ys is checking xs, and then ys with its
   indices shifted and the set as xs left it.
   */
  lemma {:induction false} SourceRunConcat(
      env: Env, xs: seq<ExternalClaimsSource>, ys: seq<ExternalClaimsSource>,
      seen: set<string>, path: FieldPath, base: nat)
    ensures SourceRun(env, xs + ys, seen, path, base) ==
            var first := SourceRun(env, xs, seen, path, base);
            var second := SourceRun(env, ys, first.seen, path, base + |xs|);
            Outcome(first.errs + second.errs, second.seen)
  {
    hide *;
    var first := SourceRun(env, xs, seen, path, base);
    SourceRunEmpty(env, first.seen, path, base + |xs|);
    if ys == [] {
      assert xs + ys == xs;
      NoNames();
    } else {
      var n := |ys| - 1;
      SourceRunConcat(env, xs, ys[..n], seen, path, base);
      SourceRunUnfold(env, ys, first.seen, path, base + |xs|);
      SourceRunUnfold(env, xs + ys, seen, path, base);
      assert (xs + ys)[..|xs + ys| - 1] == xs + ys[..n];
    }
  }

  lemma NoNames()
    ensures AllNames([]) == [] && Elems(AllNames([])) == {}
  {
  }

  // ----- duplicate accounting -----

  predicate IsDuplicateName(e: FieldError) {
    e.kind == Duplicate && e.path != [] && e.path[|e.path| - 1] == Child(Field.Name)
  }

  function DuplicateNames(errs: Errors): nat {
    if errs == [] then 0
    else DuplicateNames(errs[..|errs| - 1]) + if IsDuplicateName(errs[|errs| - 1]) then 1 else 0
  }

  lemma {:induction false} DuplicateNamesConcat(a: Errors, b: Errors)
    ensures DuplicateNames(a + b) == DuplicateNames(a) + DuplicateNames(b)
  {
    if b == [] {
      assert a + b == a;
    } else {
      DuplicateNamesConcat(a, b[..|b| - 1]);
      assert (a + b)[..|a + b| - 1] == a + b[..|b| - 1];
    }
  }

  lemma {:induction false} NoDuplicateNames(errs: Errors)
    requires forall e | e in errs :: !IsDuplicateName(e)
    ensures DuplicateNames(errs) == 0
  {
    if errs != [] {
      NoDuplicateNames(errs[..|errs| - 1]);
    }
  }

  lemma NameDuplicates(name: Option<string>, seen: set<string>, path: FieldPath)
    requires path != [] && path[|path| - 1] == Child(Field.Name)
    ensures DuplicateNames(NameOutcome(name, seen, path).errs) ==
            if name.Some? && IsName(name.value) && name.value in seen then 1 else 0
  {
    NameOutcomeCases(name, seen, path);
    hide NameOutcome, IsName;
    if !(name.Some? && IsName(name.value)) {
      NoDuplicateNames(NameOutcome(name, seen, path).errs);
    } else {
      assert [FieldError(Duplicate, path)][..0] == [];
    }
  }

  lemma MappingDuplicateCount(env: Env, m: SourcedClaimMapping, seen: set<string>, path: FieldPath)
    ensures DuplicateNames(MappingOutcome(env, m, seen, path).errs) ==
            if m.name.Some? && IsName(m.name.value) && m.name.value in seen then 1 else 0
  {
    var namePath := path + [Child(Field.Name)];
    var rest := MappingExpressionErrors(env, m.expression, path + [Child(Field.Expression)]);
    hide NameOutcome, MappingExpressionErrors, IsName, DuplicateNames;
    NameDuplicates(m.name, seen, namePath);
    NoDuplicateNames(rest);
    DuplicateNamesConcat(NameOutcome(m.name, seen, namePath).errs, rest);
  }

  lemma NameSize(m: SourcedClaimMapping, seen: set<string>)
    ensures |NameOf(m)| - (|seen + Elems(NameOf(m))| - |seen|) ==
            if m.name.Some? && IsName(m.name.value) && m.name.value in seen then 1 else 0
  {
    hide IsName;
    if NameOf(m) == [] {
      assert seen + Elems(NameOf(m)) == seen;
    } else {
      var n := NameOf(m)[0];
      assert Elems(NameOf(m)) == {n};
      if n in seen {
        assert seen + {n} == seen;
      }
    }
  }

  /** A name is counted as a duplicate exactly when it does not make the set larger. */
  lemma MappingDuplicates(env: Env, m: SourcedClaimMapping, seen: set<string>, path: FieldPath)
    ensures DuplicateNames(MappingOutcome(env, m, seen, path).errs)
            == |NameOf(m)| - (|seen + Elems(NameOf(m))| - |seen|)
  {
    hide *;
    MappingDuplicateCount(env, m, seen, path);
    NameSize(m, seen);
  }

  lemma {:induction false} MappingRunDuplicates(
      env: Env, ms: seq<SourcedClaimMapping>, seen: set<string>, path: FieldPath, base: nat)
    ensures DuplicateNames(MappingRun(env, ms, seen, path, base).errs)
            == |NamesOf(ms)| - (|seen + Elems(NamesOf(ms))| - |seen|)
  {
    hide *;
    if ms == [] {
      MappingRunEmpty(env, seen, path, base);
      NothingCounted(seen);
    } else {
      var front, last := ms[..|ms| - 1], ms[|ms| - 1];
      var before := MappingRun(env, front, seen, path, base);
      var at := path + [Index(base + |front|)];
      MappingRunUnfold(env, ms, seen, path, base);
      MappingRunMeaning(env, front, seen, path, base);
      MappingRunDuplicates(env, front, seen, path, base);
      MappingDuplicates(env, last, before.seen, at);
      DuplicateNamesConcat(before.errs, MappingOutcome(env, last, before.seen, at).errs);
      FreshConcat(NamesOf(front), NameOf(last), seen);
    }
  }

  lemma NothingCounted(seen: set<string>)
    ensures DuplicateNames([]) == 0 && NamesOf([]) == [] && AllNames([]) == []
    ensures seen + Elems([]) == seen
  {
  }

  lemma {:induction false} ConditionRunNoDuplicateNames(
      env: Env, cs: seq<ExternalSourceCondition>, path: FieldPath)
    ensures forall e | e in ConditionRun(env, cs, path).errs :: !IsDuplicateName(e)
  {
    if cs != [] {
      ConditionRunNoDuplicateNames(env, cs[..|cs| - 1], path);
    }
  }

  lemma MappingsDuplicates(
      env: Env, ms: seq<SourcedClaimMapping>, seen: set<string>, path: FieldPath)
    ensures DuplicateNames(MappingsOutcome(env, ms, seen, path).errs)
            == |NamesOf(ms)| - (|seen + Elems(NamesOf(ms))| - |seen|)
  {
    MappingRunDuplicates(env, ms, seen, path, 0);
    NothingCounted(seen);
    if ms == [] {
      NoDuplicateNames([FieldError(Required, path)]);
    } else {
      hide MappingRun, NamesOf, Elems, DuplicateNames;
      var tooMany := ErrorIf(|ms| > MAX_MAPPINGS, TooMany, path);
      NoDuplicateNames(tooMany);
      DuplicateNamesConcat(tooMany, MappingRun(env, ms, seen, path, 0).errs);
    }
  }

  lemma ConditionsDuplicates(env: Env, cs: seq<ExternalSourceCondition>, path: FieldPath)
    ensures DuplicateNames(ConditionsErrors(env, cs, path)) == 0
  {
    ConditionRunNoDuplicateNames(env, cs, path);
    NoDuplicateNames(ConditionsErrors(env, cs, path)) by {
      hide ConditionRun;
    }
  }

  lemma SourceDuplicates(env: Env, s: ExternalClaimsSource, seen: set<string>, path: FieldPath)
    ensures DuplicateNames(SourceOutcome(env, s, seen, path).errs)
            == |NamesOf(s.mappings)| - (|seen + Elems(NamesOf(s.mappings))| - |seen|)
  {
    hide AuthenticationErrors, TLSErrors, MappingsOutcome, ConditionsErrors, URLErrors;
    hide NamesOf, Elems, DuplicateNames;
    var authn := AuthenticationErrors(env, s.authentication, path + [Child(Field.Authentication)]);
    var tls := TLSErrors(env, s.tls, path + [Child(Field.Tls)]);
    var mappings := MappingsOutcome(env, s.mappings, seen, path + [Child(Field.Mappings)]).errs;
    var conditions := ConditionsErrors(env, s.conditions, path + [Child(Field.Conditions)]);
    var url := URLErrors(env, s.url, path + [Child(Field.Url)]);
    NoDuplicateNames(authn);
    NoDuplicateNames(tls);
    NoDuplicateNames(url);
    MappingsDuplicates(env, s.mappings, seen, path + [Child(Field.Mappings)]);
    ConditionsDuplicates(env, s.conditions, path + [Child(Field.Conditions)]);
    DuplicateNamesConcat(authn, tls);
    DuplicateNamesConcat(authn + tls, mappings);
    DuplicateNamesConcat(authn + tls + mappings, conditions);
    DuplicateNamesConcat(authn + tls + mappings + conditions, url);
  }

  lemma {:induction false} SourceRunDuplicates(
      env: Env, ss: seq<ExternalClaimsSource>, seen: set<string>, path: FieldPath, base: nat)
    ensures DuplicateNames(SourceRun(env, ss, seen, path, base).errs)
            == |AllNames(ss)| - (|seen + Elems(AllNames(ss))| - |seen|)
  {
    hide *;
    if ss == [] {
      SourceRunEmpty(env, seen, path, base);
      NothingCounted(seen);
    } else {
      var front, last := ss[..|ss| - 1], ss[|ss| - 1];
      var before := SourceRun(env, front, seen, path, base);
      var at := path + [Index(base + |front|)];
      SourceRunUnfold(env, ss, seen, path, base);
      SourceRunMeaning(env, front, seen, path, base);
      SourceRunDuplicates(env, front, seen, path, base);
      SourceDuplicates(env, last, before.seen, at);
      DuplicateNamesConcat(before.errs, SourceOutcome(env, last, before.seen, at).errs);
      FreshConcat(AllNames(front), NamesOf(last.mappings), seen);
    }
  }

  /**
   Accounting for names: the duplicates reported are the well-formed names less the distinct ones,
   and the shared set ends up holding exactly the well-formed names; no other name ever enters it.
   */
  lemma DuplicateAccounting(env: Env, sources: seq<ExternalClaimsSource>, path: FieldPath)
    ensures DuplicateNames(SourcesErrors(env, sources, path))
            == |AllNames(sources)| - |Elems(AllNames(sources))|
    ensures SourceRun(env, sources, {}, path, 0).seen == Elems(AllNames(sources))
  {
    var tooMany := ErrorIf(|sources| > MAX_SOURCES, TooMany, path);
    hide SourceRun, AllNames, Elems, DuplicateNames;
    NoDuplicateNames(tooMany);
    SourceRunDuplicates(env, sources, {}, path, 0);
    SourceRunMeaning(env, sources, {}, path, 0);
    DuplicateNamesConcat(tooMany, SourceRun(env, sources, {}, path, 0).errs);
    assert {} + Elems(AllNames(sources)) == Elems(AllNames(sources));
  }
}
