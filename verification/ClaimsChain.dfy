/**
 What a chain of claims sources does to the claims of a token: the exact result, independence of
 the order of the sources, guarded claims, and the bound on outgoing requests.
 */
module ClaimsChain {
  import opened Outcomes
  import opened Cel
  import opened ClaimsResolver
  import opened Multisets
  import GoQuote

  // ----- the decision to consult a source -----

  lemma {:induction false} AllTrueMeaning(values: seq<Value>)
    ensures AllTrue(values) == Some(true)
            <==> forall i | 0 <= i < |values| :: values[i] == BoolValue(true)
  {
    if values != [] {
      AllTrueMeaning(values[1..]);
      assert forall i | 0 < i < |values| :: values[i] == values[1..][i - 1];
    }
  }

  /** A source is consulted exactly when every condition evaluates to the boolean true. */
  lemma ConsultDecision(conditions: seq<Program<Claims>>, c: Claims)
    ensures ConditionsOutcome(conditions, c) == Some(true)
            <==> forall i | 0 <= i < |conditions| :: conditions[i].eval(c) == Some(BoolValue(true))
  {
    EvalAllMeaning(conditions, c);
    match EvalAll(conditions, c) {
      case None =>
      case Some(values) => AllTrueMeaning(values);
    }
  }

  /** The decision does not depend on the order of the conditions. */
  lemma ConsultDecisionOrderFree(
      conditions: seq<Program<Claims>>, reordered: seq<Program<Claims>>, c: Claims)
    requires multiset(conditions) == multiset(reordered)
    ensures ConditionsOutcome(conditions, c) == Some(true)
            <==> ConditionsOutcome(reordered, c) == Some(true)
  {
    ConsultDecision(conditions, c);
    ConsultDecision(reordered, c);
    forall p ensures p in conditions <==> p in reordered {
      assert p in multiset(conditions) <==> p in multiset(reordered);
    }
    assert forall i | 0 <= i < |conditions| :: conditions[i] in reordered;
    assert forall i | 0 <= i < |reordered| :: reordered[i] in conditions;
  }

  // ----- why a source is not consulted -----

  ghost predicate AllEvaluate(conditions: seq<Program<Claims>>, c: Claims) {
    forall i | 0 <= i < |conditions| :: conditions[i].eval(c).Some?
  }

  ghost predicate IsFalse(p: Program<Claims>, c: Claims) {
    p.eval(c) == Some(BoolValue(false))
  }

  ghost predicate IsNoBoolean(p: Program<Claims>, c: Claims) {
    p.eval(c).Some? && !p.eval(c).value.BoolValue?
  }

  /** Every condition has a value, and among the values are both a false and one that is no boolean. */
  ghost predicate Mixed(conditions: seq<Program<Claims>>, c: Claims) {
    && AllEvaluate(conditions, c)
    && (exists p | p in conditions :: IsFalse(p, c))
    && (exists p | p in conditions :: IsNoBoolean(p, c))
  }

  lemma {:induction false} AllTrueBooleans(values: seq<Value>)
    requires forall v | v in values :: v.BoolValue?
    ensures AllTrue(values) == Some(forall v | v in values :: v.b)
  {
    if values != [] {
      AllTrueBooleans(values[1..]);
      assert forall v :: v in values <==> v == values[0] || v in values[1..];
    }
  }

  lemma {:induction false} AllTrueStops(values: seq<Value>)
    requires BoolValue(false) !in values && exists v :: v in values && !v.BoolValue?
    ensures AllTrue(values) == None
  {
    assert forall v :: v in values <==> v == values[0] || v in values[1..];
    if values[0].BoolValue? {
      assert values[0].b;
      AllTrueStops(values[1..]);
    }
  }

  /** The values are those of the conditions. */
  lemma ValuesOfConditions(conditions: seq<Program<Claims>>, c: Claims)
    requires AllEvaluate(conditions, c)
    ensures EvalAll(conditions, c).Some?
    ensures forall p | p in conditions :: p.eval(c).Some? && p.eval(c).value in EvalAll(conditions, c).value
    ensures forall v | v in EvalAll(conditions, c).value :: exists p :: p in conditions && p.eval(c) == Some(v)
  {
    EvalAllMeaning(conditions, c);
    hide EvalAll;
    var values := EvalAll(conditions, c).value;
    forall p | p in conditions ensures p.eval(c).Some? && p.eval(c).value in values {
      var i :| 0 <= i < |conditions| && conditions[i] == p;
      assert values[i] in values;
    }
    forall v | v in values ensures exists p :: p in conditions && p.eval(c) == Some(v) {
      var i :| 0 <= i < |values| && values[i] == v;
      assert conditions[i] in conditions;
    }
  }

  /** What the outcome is unless the values are mixed, in terms that no order enters. */
  lemma UnmixedOutcome(conditions: seq<Program<Claims>>, c: Claims)
    requires !Mixed(conditions, c)
    ensures ConditionsOutcome(conditions, c) ==
            if !AllEvaluate(conditions, c) || exists p | p in conditions :: IsNoBoolean(p, c) then None
            else Some(forall p | p in conditions :: !IsFalse(p, c))
  {
    hide EvalAll, AllTrue;
    if AllEvaluate(conditions, c) {
      ValuesOfConditions(conditions, c);
      var values := EvalAll(conditions, c).value;
      if exists p | p in conditions :: IsNoBoolean(p, c) {
        var p :| p in conditions && IsNoBoolean(p, c);
        assert p.eval(c).value in values;
        AllTrueStops(values);
      } else {
        AllTrueBooleans(values);
      }
    } else {
      EvalAllMeaning(conditions, c);
    }
  }

  /** The first condition decides if it is a false or no boolean. */
  lemma FirstDecides(conditions: seq<Program<Claims>>, c: Claims)
    requires conditions != [] && AllEvaluate(conditions, c)
    ensures IsFalse(conditions[0], c) ==> ConditionsOutcome(conditions, c) == Some(false)
    ensures IsNoBoolean(conditions[0], c) ==> ConditionsOutcome(conditions, c) == None
  {
    EvalAllMeaning(conditions, c);
    hide EvalAll;
  }

  /** Any condition can be moved to the front. */
  lemma MoveToFront(conditions: seq<Program<Claims>>, p: Program<Claims>)
    returns (reordered: seq<Program<Claims>>)
    requires p in conditions
    ensures multiset(reordered) == multiset(conditions) && reordered != [] && reordered[0] == p
  {
    var k :| 0 <= k < |conditions| && conditions[k] == p;
    TakeOut(conditions, k);
    reordered := [p] + (conditions[..k] + conditions[k + 1..]);
  }

  lemma ReorderedEvaluate(
      conditions: seq<Program<Claims>>, reordered: seq<Program<Claims>>, c: Claims)
    requires multiset(reordered) == multiset(conditions)
    ensures forall p :: p in reordered <==> p in conditions
    ensures AllEvaluate(reordered, c) <==> AllEvaluate(conditions, c)
    ensures Mixed(reordered, c) <==> Mixed(conditions, c)
  {
    forall p ensures p in reordered <==> p in conditions {
      assert p in multiset(reordered) <==> p in multiset(conditions);
    }
    assert AllEvaluate(conditions, c) <==> forall p | p in conditions :: p.eval(c).Some?;
    assert AllEvaluate(reordered, c) <==> forall p | p in reordered :: p.eval(c).Some?;
  }

  /**
   Whether a source is refused by an error or by a plain false does not depend on the order of its
   conditions, except exactly if all have values and these are mixed.
   */
  lemma OutcomeOrderFree(conditions: seq<Program<Claims>>, c: Claims)
    ensures (forall reordered | multiset(reordered) == multiset(conditions) ::
               ConditionsOutcome(reordered, c) == ConditionsOutcome(conditions, c))
            <==> !Mixed(conditions, c)
  {
    hide ConditionsOutcome;
    if Mixed(conditions, c) {
      var p :| p in conditions && IsFalse(p, c);
      var q :| q in conditions && IsNoBoolean(q, c);
      var pFirst := MoveToFront(conditions, p);
      var qFirst := MoveToFront(conditions, q);
      ReorderedEvaluate(conditions, pFirst, c);
      ReorderedEvaluate(conditions, qFirst, c);
      FirstDecides(pFirst, c);
      FirstDecides(qFirst, c);
    } else {
      forall reordered | multiset(reordered) == multiset(conditions)
        ensures ConditionsOutcome(reordered, c) == ConditionsOutcome(conditions, c)
      {
        ReorderedEvaluate(conditions, reordered, c);
        UnmixedOutcome(conditions, c);
        UnmixedOutcome(reordered, c);
      }
    }
  }

  /** All conditions before position k are true. */
  ghost predicate TrueBefore(conditions: seq<Program<Claims>>, c: Claims, k: int) {
    forall i | 0 <= i < k < |conditions| :: conditions[i].eval(c) == Some(BoolValue(true))
  }

  lemma {:induction false} AllTrueFirst(values: seq<Value>)
    ensures AllTrue(values) == Some(false)
            <==> exists k :: 0 <= k < |values| && values[k] == BoolValue(false)
                   && forall i | 0 <= i < k :: values[i] == BoolValue(true)
  {
    if values != [] {
      var rest := values[1..];
      AllTrueFirst(rest);
      if AllTrue(rest) == Some(false) {
        var k :| 0 <= k < |rest| && rest[k] == BoolValue(false)
                 && forall i | 0 <= i < k :: rest[i] == BoolValue(true);
        if values[0] == BoolValue(true) {
          assert values[k + 1] == BoolValue(false);
          assert forall i | 0 <= i < k + 1 :: values[i] == if i == 0 then values[0] else rest[i - 1];
        }
      }
      if exists k :: 0 <= k < |values| && values[k] == BoolValue(false)
                     && forall i | 0 <= i < k :: values[i] == BoolValue(true) {
        var k :| 0 <= k < |values| && values[k] == BoolValue(false)
                 && forall i | 0 <= i < k :: values[i] == BoolValue(true);
        if k > 0 {
          assert rest[k - 1] == BoolValue(false);
          assert forall i | 0 <= i < k - 1 :: rest[i] == values[i + 1];
        }
      }
    }
  }

  /**
   The outcome exactly: all conditions are evaluated first, and any failure is an error; then the first
   one that is not true decides, a false for not consulting and no boolean for an error.
   */
  lemma OutcomeExactly(conditions: seq<Program<Claims>>, c: Claims)
    ensures ConditionsOutcome(conditions, c) == Some(true)
            <==> forall i | 0 <= i < |conditions| :: conditions[i].eval(c) == Some(BoolValue(true))
    ensures ConditionsOutcome(conditions, c) == Some(false)
            <==> && AllEvaluate(conditions, c)
                 && exists k :: 0 <= k < |conditions| && IsFalse(conditions[k], c)
                                && TrueBefore(conditions, c, k)
  {
    ConsultDecision(conditions, c);
    EvalAllMeaning(conditions, c);
    if AllEvaluate(conditions, c) {
      var values := EvalAll(conditions, c).value;
      AllTrueFirst(values);
      hide EvalAll, AllTrue;
      if exists k :: 0 <= k < |conditions| && IsFalse(conditions[k], c) && TrueBefore(conditions, c, k) {
        var k :| 0 <= k < |conditions| && IsFalse(conditions[k], c) && TrueBefore(conditions, c, k);
        assert values[k] == BoolValue(false);
      }
    }
    hide EvalAll, AllTrue;
  }

  /** A condition that was compiled to return a boolean returns one or fails. */
  ghost predicate IsBooleanProgram(p: Program<Claims>) {
    forall c: Claims :: !IsNoBoolean(p, c)
  }

  /** So the outcome of compiled conditions, and not just the decision, is free of their order. */
  lemma BooleanOutcomeOrderFree(
      conditions: seq<Program<Claims>>, reordered: seq<Program<Claims>>, c: Claims)
    requires forall p | p in conditions :: IsBooleanProgram(p)
    requires multiset(reordered) == multiset(conditions)
    ensures ConditionsOutcome(reordered, c) == ConditionsOutcome(conditions, c)
  {
    OutcomeOrderFree(conditions, c);
  }

  // ----- one source -----

  lemma ClaimsForKeysStep(isPrint: char -> bool, mappings: seq<Mapping>, values: seq<Value>)
    requires |mappings| == |values| && ClaimsFor(isPrint, mappings, values).Some?
    ensures mappings == [] ==> ClaimsFor(isPrint, mappings, values).value == map[]
    ensures mappings != [] ==>
              var n := |mappings| - 1;
              && ClaimsFor(isPrint, mappings[..n], values[..n]).Some?
              && ClaimsFor(isPrint, mappings, values).value.Keys
                 == ClaimsFor(isPrint, mappings[..n], values[..n]).value.Keys + {mappings[n].claim}
  {
    hide GoQuote.Quote;
  }

  lemma {:induction false} ClaimsForKeys(
      isPrint: char -> bool, mappings: seq<Mapping>, values: seq<Value>)
    requires |mappings| == |values| && ClaimsFor(isPrint, mappings, values).Some?
    ensures ClaimsFor(isPrint, mappings, values).value.Keys
            == set i | 0 <= i < |mappings| :: mappings[i].claim
  {
    hide *;
    ClaimsForKeysStep(isPrint, mappings, values);
    if mappings != [] {
      var n := |mappings| - 1;
      ClaimsForKeys(isPrint, mappings[..n], values[..n]);
      assert forall i | 0 <= i < n :: mappings[..n][i] == mappings[i];
    }
  }

  /** A successful source contributes exactly the claims it is configured to write. */
  lemma FetchedNames(r: Resolver, w: World, c: Claims)
    requires Fetched(r, w, c).Some?
    ensures Fetched(r, w, c).value.Keys == NamesWritten(r)
  {
    var request := RequestMade(r, w, c).value;
    hide RequestMade;
    var json := w.decode(w.send(r.client, request).answer.body.value).value;
    EvalAllMeaning(Programs(r.mappings), json);
    ClaimsForKeys(w.isPrint, r.mappings, EvalAll(Programs(r.mappings), json).value);
  }

  lemma ClaimsForUnfold(isPrint: char -> bool, mappings: seq<Mapping>, values: seq<Value>)
    requires |mappings| == |values|
    ensures mappings == [] ==> ClaimsFor(isPrint, mappings, values) == Some(map[])
    ensures mappings != [] ==>
              var n := |mappings| - 1;
              ClaimsFor(isPrint, mappings, values).Some?
              <==> ClaimsFor(isPrint, mappings[..n], values[..n]).Some? && values[n].StringValue?
  {
    hide GoQuote.Quote;
  }

  lemma {:induction false} ClaimsForSucceeds(
      isPrint: char -> bool, mappings: seq<Mapping>, values: seq<Value>)
    requires |mappings| == |values|
    ensures ClaimsFor(isPrint, mappings, values).Some?
            <==> forall k | 0 <= k < |values| :: values[k].StringValue?
  {
    hide *;
    ClaimsForUnfold(isPrint, mappings, values);
    if mappings != [] {
      var n := |mappings| - 1;
      ClaimsForSucceeds(isPrint, mappings[..n], values[..n]);
      assert forall k | 0 <= k < n :: values[..n][k] == values[k];
    }
  }

  lemma BodySucceeds(w: World, mappings: seq<Mapping>, body: Option<string>)
    ensures ClaimsFromBody(w, mappings, body).Some?
            <==> && body.Some? && w.decode(body.value).Some?
                 && forall k | 0 <= k < |mappings| ::
                      && mappings[k].program.eval(w.decode(body.value).value).Some?
                      && mappings[k].program.eval(w.decode(body.value).value).value.StringValue?
  {
    if body.Some? && w.decode(body.value).Some? {
      var json := w.decode(body.value).value;
      EvalAllMeaning(Programs(mappings), json);
      if EvalAll(Programs(mappings), json).Some? {
        ClaimsForSucceeds(w.isPrint, mappings, EvalAll(Programs(mappings), json).value);
      }
    }
    hide EvalAll, ClaimsFor;
  }

  /**
   Exactly when a source contributes: it sends its request, the answer has status 200 and a body that
   can be read and decoded, and every mapping yields a string on it.
   */
  lemma FetchedExactly(r: Resolver, w: World, c: Claims)
    ensures Fetched(r, w, c).Some?
            <==> && RequestMade(r, w, c).Some?
                 && var answer := w.send(r.client, RequestMade(r, w, c).value).answer;
                    && answer.Response? && answer.status == 200
                    && answer.body.Some? && w.decode(answer.body.value).Some?
                    && forall k | 0 <= k < |r.mappings| ::
                         && r.mappings[k].program.eval(w.decode(answer.body.value).value).Some?
                         && r.mappings[k].program.eval(w.decode(answer.body.value).value).value.StringValue?
  {
    hide RequestMade, ClaimsFromBody;
    if RequestMade(r, w, c).Some? {
      var answer := w.send(r.client, RequestMade(r, w, c).value).answer;
      if answer.Response? {
        BodySucceeds(w, r.mappings, answer.body);
      }
    }
  }

  /** Expansion by one source is all or nothing, and never touches another claim. */
  lemma Atomicity(r: Resolver, w: World, c: Claims)
    ensures var after := Overlay(c, Fetched(r, w, c));
            && (Fetched(r, w, c).None? ==> after == c)
            && (Fetched(r, w, c).Some? ==>
                  forall n | n in NamesWritten(r) ::
                    n in after && n in Fetched(r, w, c).value && after[n] == Fetched(r, w, c).value[n])
            && (forall n | n !in NamesWritten(r) :: Agree(after, c, n))
  {
    if Fetched(r, w, c).Some? {
      FetchedNames(r, w, c);
    }
    hide Fetched, NamesWritten;
  }

  lemma {:induction false} ClaimsForContents(
      isPrint: char -> bool, mappings: seq<Mapping>, values: seq<Value>, i: nat)
    requires i < |mappings| == |values| && ClaimsFor(isPrint, mappings, values).Some?
    requires forall j | i < j < |mappings| :: mappings[j].claim != mappings[i].claim
    ensures values[i].StringValue?
    ensures mappings[i].claim in ClaimsFor(isPrint, mappings, values).value
    ensures ClaimsFor(isPrint, mappings, values).value[mappings[i].claim]
            == GoQuote.Quote(isPrint, values[i].s)
    decreases |mappings|
  {
    hide GoQuote.Quote;
    var n := |mappings| - 1;
    if i < n {
      ClaimsForContents(isPrint, mappings[..n], values[..n], i);
    }
  }

  /** The document that a source extracts its claims from. */
  function Document(r: Resolver, w: World, c: Claims): Json
    requires Fetched(r, w, c).Some?
  {
    w.decode(w.send(r.client, RequestMade(r, w, c).value).answer.body.value).value
  }

  /** No other mapping of the source writes the claim that this one writes. */
  ghost predicate IsOnlyMapping(r: Resolver, i: nat) {
    && i < |r.mappings|
    && forall j | 0 <= j < |r.mappings| && j != i :: r.mappings[j].claim != r.mappings[i].claim
  }

  /**
   Every mapping of a successful source yields a string, and its claim is that string in Go's quotes.
   Read as JSON, the claim is the string again unless it holds a character whose Go escape JSON lacks.
   */
  lemma FetchedContents(r: Resolver, w: World, c: Claims, i: nat)
    requires Fetched(r, w, c).Some? && IsOnlyMapping(r, i)
    requires GoQuote.IsPrintTable(w.isPrint)
    ensures var m := r.mappings[i];
            && m.program.eval(Document(r, w, c)).Some?
            && m.program.eval(Document(r, w, c)).value.StringValue?
            && var s := m.program.eval(Document(r, w, c)).value.s;
               && m.claim in Fetched(r, w, c).value
               && var raw := Fetched(r, w, c).value[m.claim];
                  && raw == GoQuote.Quote(w.isPrint, s)
                  && (GoQuote.DecodeJSONString(raw) == Some(s)
                      <==> forall ch | ch in s :: !GoQuote.NeedsGoEscape(w.isPrint, ch))
                  && (GoQuote.DecodeJSONString(raw).None?
                      <==> exists ch | ch in s :: GoQuote.NeedsGoEscape(w.isPrint, ch))
  {
    hide RequestMade, GoQuote.Quote, GoQuote.DecodeJSONString, GoQuote.IsPrintTable;
    hide GoQuote.NeedsGoEscape;
    var json := Document(r, w, c);
    EvalAllMeaning(Programs(r.mappings), json);
    var values := EvalAll(Programs(r.mappings), json).value;
    ClaimsForContents(w.isPrint, r.mappings, values, i);
    GoQuote.QuoteRoundTrip(w.isPrint, values[i].s);
  }

  // ----- the chain: exact result -----

  /** What the source at position i contributes when its turn comes. */
  function Contribution(steps: seq<Step>, c: Claims, i: nat): Option<Claims>
    requires i < |steps|
  {
    Fetched(steps[i].resolver, steps[i].world, ExpandAll(steps[..i], c))
  }

  function Names(s: Step): set<string> {
    NamesWritten(s.resolver)
  }

  /** No claim is written by two sources of the list. */
  ghost predicate DisjointNames(steps: seq<Step>) {
    forall i, j | 0 <= i < j < |steps| :: Names(steps[i]) !! Names(steps[j])
  }

  lemma ExpandAllLast(steps: seq<Step>, c: Claims)
    requires steps != []
    ensures var n := |steps| - 1;
            && ExpandAll(steps, c) == Overlay(ExpandAll(steps[..n], c), Contribution(steps, c, n))
            && forall i | 0 <= i < n :: Contribution(steps[..n], c, i) == Contribution(steps, c, i)
  {
    hide Fetched, Overlay;
    var n := |steps| - 1;
    assert forall i | 0 <= i < n :: steps[..n][..i] == steps[..i];
  }

  lemma ExpandAllNone(c: Claims)
    ensures ExpandAll([], c) == c
  {
  }

  lemma ContributionNames(steps: seq<Step>, c: Claims, i: nat)
    requires i < |steps| && Contribution(steps, c, i).Some?
    ensures Contribution(steps, c, i).value.Keys == Names(steps[i])
  {
    FetchedNames(steps[i].resolver, steps[i].world, ExpandAll(steps[..i], c));
    hide Fetched, NamesWritten, ExpandAll;
  }

  /** The contributions of the sources that succeed, taken together. */
  function Union(steps: seq<Step>, c: Claims): Claims {
    if steps == [] then map[]
    else
      var n := |steps| - 1;
      Overlay(Union(steps[..n], c), Contribution(steps, c, n))
  }

  /** A claim that the source at position i fetched. */
  ghost predicate Supplies(steps: seq<Step>, c: Claims, i: int, name: string) {
    0 <= i < |steps| && name in Names(steps[i]) && Contribution(steps, c, i).Some?
  }

  lemma SuppliesPrefix(steps: seq<Step>, c: Claims, i: int, name: string)
    requires steps != []
    ensures var n := |steps| - 1;
            Supplies(steps[..n], c, i, name) <==> i < n && Supplies(steps, c, i, name)
  {
    ExpandAllLast(steps, c);
    hide Contribution, Names, ExpandAll;
  }

  /** The union is disjoint: it holds every fetched claim, each with the value its one source gave. */
  lemma {:induction false} UnionContents(steps: seq<Step>, c: Claims)
    requires DisjointNames(steps)
    ensures forall name :: name in Union(steps, c) <==> exists i :: Supplies(steps, c, i, name)
    ensures forall i, name | Supplies(steps, c, i, name) ::
              && name in Contribution(steps, c, i).value && name in Union(steps, c)
              && Union(steps, c)[name] == Contribution(steps, c, i).value[name]
  {
    if steps != [] {
      hide Contribution, Names;
      var n := |steps| - 1;
      UnionContents(steps[..n], c);
      ExpandAllLast(steps, c);
      if Contribution(steps, c, n).Some? {
        ContributionNames(steps, c, n);
      }
      hide ExpandAll, DisjointNames;
      forall name
        ensures name in Union(steps, c) <==> exists i :: Supplies(steps, c, i, name)
      {
        if Supplies(steps, c, n, name) {
          assert name in Union(steps, c);
        } else if name in Union(steps[..n], c) {
          var i :| Supplies(steps[..n], c, i, name);
          SuppliesPrefix(steps, c, i, name);
        }
        forall i | Supplies(steps, c, i, name) ensures name in Union(steps, c) {
          SuppliesPrefix(steps, c, i, name);
        }
      }
      forall i, name | Supplies(steps, c, i, name)
        ensures name in Contribution(steps, c, i).value && name in Union(steps, c)
        ensures Union(steps, c)[name] == Contribution(steps, c, i).value[name]
      {
        SuppliesPrefix(steps, c, i, name);
      }
    }
  }

  lemma UnionNone(c: Claims)
    ensures Union([], c) == map[]
  {
  }

  lemma UnionLast(steps: seq<Step>, c: Claims)
    requires steps != []
    ensures var n := |steps| - 1;
            forall d: Claims ::
              d + Union(steps, c) == Overlay(d + Union(steps[..n], c), Contribution(steps, c, n))
  {
    hide Contribution;
  }

  /**
   The exact result: the token's claims overlaid with the disjoint union of what the sources that
   succeeded fetched. Names that no source supplies keep their value.
   */
  lemma {:induction false} ExactResult(steps: seq<Step>, c: Claims)
    ensures ExpandAll(steps, c) == c + Union(steps, c)
  {
    hide *;
    if steps == [] {
      ExpandAllNone(c);
      UnionNone(c);
    } else {
      ExactResult(steps[..|steps| - 1], c);
      ExpandAllLast(steps, c);
      UnionLast(steps, c);
    }
  }

  /** The same claim by claim. */
  lemma ResultByClaim(steps: seq<Step>, c: Claims, name: string)
    requires DisjointNames(steps)
    ensures forall i | Supplies(steps, c, i, name) ::
              && name in ExpandAll(steps, c) && name in Contribution(steps, c, i).value
              && ExpandAll(steps, c)[name] == Contribution(steps, c, i).value[name]
    ensures (forall i :: !Supplies(steps, c, i, name)) ==> Agree(ExpandAll(steps, c), c, name)
  {
    ExactResult(steps, c);
    UnionContents(steps, c);
    hide Union, Supplies, ExpandAll, Contribution, DisjointNames;
  }

  // ----- order independence -----

  /** Neither the conditions nor the path of a source read these claims. */
  ghost predicate IgnoresAll(r: Resolver, names: set<string>) {
    Ignores(r.path, names) && forall i | 0 <= i < |r.conditions| :: Ignores(r.conditions[i], names)
  }

  lemma {:induction false} EvalAllIgnores(
      programs: seq<Program<Claims>>, c: Claims, d: Claims, names: set<string>)
    requires forall i | 0 <= i < |programs| :: Ignores(programs[i], names)
    requires c - names == d - names
    ensures EvalAll(programs, c) == EvalAll(programs, d)
  {
    if programs != [] {
      var n := |programs| - 1;
      EvalAllIgnores(programs[..n], c, d, names);
      assert Ignores(programs[n], names);
    }
  }

  lemma ReadingIgnores(r: Resolver, c: Claims, d: Claims, names: set<string>)
    requires IgnoresAll(r, names) && c - names == d - names
    ensures Reading(r, c) == Reading(r, d)
  {
    EvalAllIgnores(r.conditions, c, d, names);
    assert r.path.eval(c) == r.path.eval(d);
    assert ConditionsOutcome(r.conditions, c) == ConditionsOutcome(r.conditions, d);
    assert URLOf(r, c) == URLOf(r, d);
    hide ConditionsOutcome, URLOf;
  }

  /** Claims that a source does not read do not influence it. */
  lemma FetchedIgnores(r: Resolver, w: World, c: Claims, d: Claims, names: set<string>)
    requires IgnoresAll(r, names) && c - names == d - names
    ensures RequestMade(r, w, c) == RequestMade(r, w, d)
    ensures Fetched(r, w, c) == Fetched(r, w, d)
  {
    ReadingIgnores(r, c, d, names);
    SameReading(r, w, c, d);
  }

  /** What a source reads the claims for: the URL it asks, if its conditions hold. */
  function Reading(r: Resolver, c: Claims): Option<string> {
    if ConditionsOutcome(r.conditions, c) == Some(true) then URLOf(r, c) else None
  }

  /** The request and its result depend on the claims only through the reading. */
  lemma SameReading(r: Resolver, w: World, c: Claims, d: Claims)
    requires Reading(r, c) == Reading(r, d)
    ensures RequestMade(r, w, c) == RequestMade(r, w, d) && Fetched(r, w, c) == Fetched(r, w, d)
  {
    hide ConditionsOutcome, URLOf, CanRequest, AccessToken, ClaimsFromBody;
  }

  /** Claims as a source writes them: each a string in Go's quotes. */
  ghost predicate Quoted(isPrint: char -> bool, x: Claims) {
    forall n | n in x :: exists s: string :: x[n] == GoQuote.Quote(isPrint, s)
  }

  lemma {:induction false} ClaimsForQuoted(
      isPrint: char -> bool, mappings: seq<Mapping>, values: seq<Value>)
    requires |mappings| == |values| && ClaimsFor(isPrint, mappings, values).Some?
    ensures Quoted(isPrint, ClaimsFor(isPrint, mappings, values).value)
  {
    hide GoQuote.Quote;
    if mappings != [] {
      ClaimsForQuoted(isPrint, mappings[..|mappings| - 1], values[..|mappings| - 1]);
    }
  }

  lemma FetchedQuoted(r: Resolver, w: World, c: Claims)
    requires Fetched(r, w, c).Some?
    ensures Reading(r, c).Some?
    ensures Fetched(r, w, c).value.Keys == NamesWritten(r) && Quoted(w.isPrint, Fetched(r, w, c).value)
  {
    FetchedNames(r, w, c);
    var json := Document(r, w, c);
    EvalAllMeaning(Programs(r.mappings), json);
    ClaimsForQuoted(w.isPrint, r.mappings, EvalAll(Programs(r.mappings), json).value);
    hide Quoted, EvalAll, ClaimsFor, ConditionsOutcome, URLOf, CanRequest, AccessToken, NamesWritten;
  }

  /**
   Source B is not disturbed by A: whenever A is asked, whatever it writes leaves unchanged whether B is
   asked and with which URL. This concerns only the conditions and paths of the two, and A's names.
   */
  ghost predicate Undisturbed(isPrint: char -> bool, b: Resolver, a: Resolver) {
    forall c: Claims, x: Claims
      | Reading(a, c).Some? && x.Keys == NamesWritten(a) && Quoted(isPrint, x) ::
        Reading(b, c + x) == Reading(b, c)
  }

  /** No source disturbs another one. */
  ghost predicate Independent(steps: seq<Step>) {
    forall s, t | s in steps && t in steps && s != t ::
      Undisturbed(t.world.isPrint, s.resolver, t.resolver)
  }

  /** A source that does not read the other's claims at all is not disturbed by it. */
  lemma UnreadIsUndisturbed(isPrint: char -> bool, b: Resolver, a: Resolver)
    requires IgnoresAll(b, NamesWritten(a))
    ensures Undisturbed(isPrint, b, a)
  {
    hide Reading, NamesWritten, IgnoresAll, Quoted;
    var names := NamesWritten(a);
    forall c: Claims, x: Claims | x.Keys == names ensures Reading(b, c + x) == Reading(b, c) {
      assert (c + x) - names == c - names;
      ReadingIgnores(b, c + x, c, names);
    }
  }

  /** Running other sources first does not change what an undisturbed source reads. */
  lemma {:induction false} ReadingAfter(r: Resolver, steps: seq<Step>, c: Claims)
    requires forall t | t in steps :: Undisturbed(t.world.isPrint, r, t.resolver)
    ensures Reading(r, ExpandAll(steps, c)) == Reading(r, c)
  {
    hide Reading, Fetched, Quoted, NamesWritten, ExpandAll;
    if steps == [] {
      ExpandAllNone(c);
    } else {
      var n := |steps| - 1;
      var t, before := steps[n], ExpandAll(steps[..n], c);
      ReadingAfter(r, steps[..n], c);
      ExpandAllLast(steps, c);
      assert t in steps;
      if Fetched(t.resolver, t.world, before).Some? {
        FetchedQuoted(t.resolver, t.world, before);
      }
    }
  }

  lemma NothingDisturbs(isPrint: char -> bool, b: Resolver, a: Resolver)
    requires NamesWritten(a) == {}
    ensures Undisturbed(isPrint, b, a)
  {
    hide Reading, Quoted, NamesWritten;
    forall c: Claims, x: Claims | x.Keys == NamesWritten(a) ensures Reading(b, c + x) == Reading(b, c) {
      assert c + x == c;
    }
  }

  /** In an independent list every source fetches what it would fetch from the token's own claims. */
  lemma ContributionAlone(steps: seq<Step>, c: Claims, i: nat)
    requires i < |steps| && DisjointNames(steps) && Independent(steps)
    ensures var s := steps[i];
            && RequestMade(s.resolver, s.world, ExpandAll(steps[..i], c))
               == RequestMade(s.resolver, s.world, c)
            && Contribution(steps, c, i) == Fetched(s.resolver, s.world, c)
  {
    hide Undisturbed, Fetched, RequestMade, ExpandAll;
    var s := steps[i];
    forall t | t in steps[..i] ensures Undisturbed(t.world.isPrint, s.resolver, t.resolver) {
      if t == s {
        assert Names(s) == {};
        NothingDisturbs(t.world.isPrint, s.resolver, t.resolver);
      }
    }
    ReadingAfter(s.resolver, steps[..i], c);
    SameReading(s.resolver, s.world, ExpandAll(steps[..i], c), c);
  }

  ghost predicate Gives(s: Step, c: Claims, name: string) {
    name in Names(s) && Fetched(s.resolver, s.world, c).Some?
  }

  lemma GivesSupplies(steps: seq<Step>, c: Claims, i: nat, name: string)
    requires i < |steps| && DisjointNames(steps) && Independent(steps)
    ensures Supplies(steps, c, i, name) <==> Gives(steps[i], c, name)
    ensures Contribution(steps, c, i) == Fetched(steps[i].resolver, steps[i].world, c)
  {
    ContributionAlone(steps, c, i);
    hide Contribution, Fetched, Independent, DisjointNames, Names;
  }

  lemma IndependentResult(steps: seq<Step>, c: Claims, name: string)
    requires DisjointNames(steps) && Independent(steps)
    ensures forall s | s in steps && Gives(s, c, name) ::
              && name in ExpandAll(steps, c)
              && name in Fetched(s.resolver, s.world, c).value
              && ExpandAll(steps, c)[name] == Fetched(s.resolver, s.world, c).value[name]
    ensures (forall s | s in steps :: !Gives(s, c, name)) ==> Agree(ExpandAll(steps, c), c, name)
  {
    hide ExpandAll, Fetched, Contribution, Supplies, Gives, DisjointNames, Independent, Agree;
    ResultByClaim(steps, c, name);
    forall i | 0 <= i < |steps|
      ensures Supplies(steps, c, i, name) <==> Gives(steps[i], c, name)
      ensures Contribution(steps, c, i) == Fetched(steps[i].resolver, steps[i].world, c)
    {
      GivesSupplies(steps, c, i, name);
    }
    if forall s | s in steps :: !Gives(s, c, name) {
      forall i ensures !Supplies(steps, c, i, name) {
        if 0 <= i < |steps| {
          assert steps[i] in steps;
        } else {
          SuppliesInRange(steps, c, i, name);
        }
      }
    }
  }

  lemma SuppliesInRange(steps: seq<Step>, c: Claims, i: int, name: string)
    requires !(0 <= i < |steps|)
    ensures !Supplies(steps, c, i, name)
  {
  }

  lemma AgreeEverywhere(c: Claims, d: Claims)
    requires forall name :: Agree(c, d, name)
    ensures c == d
  {
    assert forall name :: Agree(c, d, name) ==> (name in c <==> name in d);
  }

  /** Disjointness does not depend on the order. */
  lemma DisjointReorder(xs: seq<Step>, ys: seq<Step>)
    requires multiset(xs) == multiset(ys) && DisjointNames(xs)
    ensures DisjointNames(ys)
  {
    hide Names;
    forall i, j | 0 <= i < j < |ys| ensures Names(ys[i]) !! Names(ys[j]) {
      var k, l := TwoPlaces(ys, xs, i, j);
      assert if k < l then Names(xs[k]) !! Names(xs[l]) else Names(xs[l]) !! Names(xs[k]);
    }
  }

  lemma SameClaim(xs: seq<Step>, ys: seq<Step>, c: Claims, name: string)
    requires forall s :: s in xs <==> s in ys
    requires DisjointNames(xs) && Independent(xs) && DisjointNames(ys) && Independent(ys)
    ensures Agree(ExpandAll(xs, c), ExpandAll(ys, c), name)
  {
    IndependentResult(xs, c, name);
    IndependentResult(ys, c, name);
    hide ExpandAll, Fetched, Gives, DisjointNames, Independent;
  }

  lemma SameElements(xs: seq<Step>, ys: seq<Step>, c: Claims)
    requires forall s :: s in xs <==> s in ys
    requires DisjointNames(xs) && Independent(xs) && DisjointNames(ys)
    ensures ExpandAll(xs, c) == ExpandAll(ys, c)
  {
    assert Independent(ys);
    hide ExpandAll, DisjointNames, Independent, Agree;
    forall name ensures Agree(ExpandAll(xs, c), ExpandAll(ys, c), name) {
      SameClaim(xs, ys, c, name);
    }
    AgreeEverywhere(ExpandAll(xs, c), ExpandAll(ys, c));
  }

  /**
   Order independence: if no source disturbs another one, every order of the sources ends in the same
   claims.
   */
  lemma OrderIndependence(xs: seq<Step>, ys: seq<Step>, c: Claims)
    requires multiset(xs) == multiset(ys)
    requires DisjointNames(xs) && Independent(xs)
    ensures ExpandAll(xs, c) == ExpandAll(ys, c)
  {
    forall s ensures s in xs <==> s in ys {
      assert s in multiset(xs) <==> s in multiset(ys);
    }
    DisjointReorder(xs, ys);
    SameElements(xs, ys, c);
  }

  /** The requests a source would send if it ran alone. */
  function Alone(c: Claims): Step -> seq<Effect> {
    (s: Step) => EffectsOf(s.resolver, s.world, c)
  }

  lemma EffectAlone(steps: seq<Step>, c: Claims, i: nat)
    requires i < |steps| && DisjointNames(steps) && Independent(steps)
    ensures EffectsOf(steps[i].resolver, steps[i].world, ExpandAll(steps[..i], c))
            == Alone(c)(steps[i])
  {
    ContributionAlone(steps, c, i);
    hide RequestMade, ExpandAll, Independent, DisjointNames;
  }

  lemma {:induction false} EffectsAlone(steps: seq<Step>, c: Claims, k: nat)
    requires k <= |steps| && DisjointNames(steps) && Independent(steps)
    ensures EffectsOfAll(steps[..k], c) == Flat(Alone(c), steps[..k])
  {
    hide *;
    NoEffects(c);
    FlatUnfold(Alone(c), steps[..k]);
    if k > 0 {
      EffectsAlone(steps, c, k - 1);
      EffectAlone(steps, c, k - 1);
      ExpandAllNext(steps, c, k - 1);
      assert steps[..k][..k - 1] == steps[..k - 1];
    }
  }

  /** The requests are order-free as well: every order sends the same ones, each as often. */
  lemma RequestsOrderFree(xs: seq<Step>, ys: seq<Step>, c: Claims)
    requires multiset(xs) == multiset(ys)
    requires DisjointNames(xs) && Independent(xs)
    ensures multiset(EffectsOfAll(xs, c)) == multiset(EffectsOfAll(ys, c))
  {
    hide *;
    IndependentReorder(xs, ys);
    DisjointReorder(xs, ys);
    EffectsAlone(xs, c, |xs|);
    EffectsAlone(ys, c, |ys|);
    FlatReorder(Alone(c), xs, ys);
    assert xs[..|xs|] == xs && ys[..|ys|] == ys;
  }

  lemma IndependentReorder(xs: seq<Step>, ys: seq<Step>)
    requires multiset(xs) == multiset(ys) && Independent(xs)
    ensures Independent(ys)
  {
    hide Undisturbed;
    forall s ensures s in xs <==> s in ys {
      assert s in multiset(xs) <==> s in multiset(ys);
    }
  }

  // ----- when sources do read each other's claims -----

  /** The condition is that claim n is present. */
  ghost predicate TestsFor(condition: Program<Claims>, n: string) {
    forall d: Claims :: condition.eval(d) == Some(BoolValue(n in d))
  }

  /** A condition is never true while claim n is absent. */
  ghost predicate Demands(condition: Program<Claims>, n: string) {
    forall d: Claims | n !in d :: condition.eval(d) != Some(BoolValue(true))
  }

  /** One of the conditions is never true while claim n is absent. */
  ghost predicate Needs(r: Resolver, n: string) {
    exists k :: 0 <= k < |r.conditions| && Demands(r.conditions[k], n)
  }

  /**
   All sources work on the same map, so a source does see what earlier ones wrote: if one of B's
   conditions is that claim n is present and A supplies it, then B is consulted after A exactly if its
   other conditions hold there, and is not consulted before A.
   */
  lemma EarlierResultsAreVisible(a: Step, b: Step, c: Claims, n: string, k: nat)
    requires n !in c && Gives(a, c, n)
    requires k < |b.resolver.conditions| && TestsFor(b.resolver.conditions[k], n)
    ensures var after := ExpandAll([a], c);
            ConditionsOutcome(b.resolver.conditions, after) == Some(true)
            <==> forall i | 0 <= i < |b.resolver.conditions| && i != k ::
                   b.resolver.conditions[i].eval(after) == Some(BoolValue(true))
    ensures Contribution([b, a], c, 0) == None
  {
    ExpandAllLast([a], c);
    ExpandAllNone(c);
    assert [a][..0] == [] && [b, a][..0] == [];
    ContributionNames([a], c, 0);
    hide Fetched, Names, ExpandAll, ConditionsOutcome;
    ConsultDecision(b.resolver.conditions, ExpandAll([a], c));
    ConsultDecision(b.resolver.conditions, c);
    NotConsulted(b.resolver, b.world, c);
  }

  lemma NeedsIsSilent(b: Step, c: Claims, n: string)
    requires n !in c && Needs(b.resolver, n)
    ensures Fetched(b.resolver, b.world, c) == None
  {
    ConsultDecision(b.resolver.conditions, c);
    NotConsulted(b.resolver, b.world, c);
  }

  /**
   Then the order decides the result: if B needs a claim that A supplies, a claim of B that nothing else
   supplies is there at the end if A comes first, and missing if B does.
   */
  lemma OrderDecides(a: Step, b: Step, c: Claims, n: string, m: string)
    requires n !in c && Gives(a, c, n) && Needs(b.resolver, n)
    requires m !in c && m !in Names(a) && Gives(b, ExpandAll([a], c), m)
    ensures m in ExpandAll([a, b], c) && m !in ExpandAll([b, a], c)
  {
    hide Fetched, Names, ExpandAll, Needs;
    NeedsIsSilent(b, c, n);
    assert [a, b][..1] == [a] && [b, a][..1] == [b] && [b][..0] == [] && [b, a][..0] == [];
    ExpandAllLast([a, b], c);
    ContributionNames([a, b], c, 1);
    ExpandAllNone(c);
    ExpandAllLast([b], c);
    ExpandAllLast([b, a], c);
    if Contribution([b, a], c, 1).Some? {
      ContributionNames([b, a], c, 1);
    }
  }

  lemma NotConsulted(r: Resolver, w: World, c: Claims)
    requires ConditionsOutcome(r.conditions, c) != Some(true)
    ensures RequestMade(r, w, c) == None && Fetched(r, w, c) == None && EffectsOf(r, w, c) == []
  {
  }

  // ----- guarded claims -----

  /** A condition is never true while claim n is present. */
  ghost predicate RulesOut(condition: Program<Claims>, n: string) {
    forall d: Claims | n in d :: condition.eval(d) != Some(BoolValue(true))
  }

  /** One of the conditions rules the source out while claim n is present. */
  ghost predicate Guards(r: Resolver, n: string) {
    exists k :: 0 <= k < |r.conditions| && RulesOut(r.conditions[k], n)
  }

  lemma GuardedIsSilent(r: Resolver, w: World, c: Claims, n: string)
    requires Guards(r, n) && n in c
    ensures RequestMade(r, w, c) == None && Fetched(r, w, c) == None && EffectsOf(r, w, c) == []
  {
    ConsultDecision(r.conditions, c);
    NotConsulted(r, w, c);
  }

  /** A token's own claim survives the chain if every source that writes it guards it. */
  lemma {:induction false} GuardedClaimSurvives(steps: seq<Step>, c: Claims, n: string)
    requires n in c
    requires forall s | s in steps && n in Names(s) :: Guards(s.resolver, n)
    ensures n in ExpandAll(steps, c) && ExpandAll(steps, c)[n] == c[n]
  {
    hide Fetched, Names, Guards, ExpandAll;
    ExpandAllNone(c);
    if steps != [] {
      var k := |steps| - 1;
      GuardedClaimSurvives(steps[..k], c, n);
      ExpandAllLast(steps, c);
      if n in Names(steps[k]) {
        assert steps[k] in steps;
        GuardedIsSilent(steps[k].resolver, steps[k].world, ExpandAll(steps[..k], c), n);
      } else if Contribution(steps, c, k).Some? {
        ContributionNames(steps, c, k);
      }
    }
  }

  /** Claims are never removed. */
  lemma {:induction false} ClaimsGrow(steps: seq<Step>, c: Claims)
    ensures c.Keys <= ExpandAll(steps, c).Keys
  {
    hide Fetched;
    if steps != [] {
      ClaimsGrow(steps[..|steps| - 1], c);
    }
  }

  /**
   Once a source that guards one of its claims has succeeded, running it again, after any other
   sources and whatever the world then answers, changes nothing and sends nothing.
   */
  lemma SecondRunIsNoOp(s: Step, between: seq<Step>, again: World, c: Claims, n: string)
    requires Gives(s, c, n) && Guards(s.resolver, n)
    ensures var after := ExpandAll(between, Overlay(c, Fetched(s.resolver, s.world, c)));
            && Overlay(after, Fetched(s.resolver, again, after)) == after
            && EffectsOf(s.resolver, again, after) == []
  {
    FetchedNames(s.resolver, s.world, c);
    var once := Overlay(c, Fetched(s.resolver, s.world, c));
    hide Fetched, EffectsOf, ExpandAll, Guards;
    ClaimsGrow(between, once);
    GuardedIsSilent(s.resolver, again, ExpandAll(between, once), n);
  }

  // ----- requests -----

  function TotalMillis(effects: seq<Effect>): nat {
    if effects == [] then 0
    else TotalMillis(effects[..|effects| - 1]) + effects[|effects| - 1].millis
  }

  /** Every request of a step ends when its client's timeout has passed. */
  ghost predicate HonoursTimeout(s: Step, limit: nat) {
    forall request: Request :: s.world.send(s.resolver.client, request).millis <= limit
  }

  /** A source sends a request exactly if its conditions hold and token and URL can be had. */
  lemma OneRequest(r: Resolver, w: World, c: Claims)
    ensures |EffectsOf(r, w, c)| <= 1
    ensures EffectsOf(r, w, c) != []
            <==> && ConditionsOutcome(r.conditions, c) == Some(true)
                 && AccessToken(r.tokenGetter, w).Some?
                 && URLOf(r, c).Some? && CanRequest(w, URLOf(r, c).value)
    ensures Fetched(r, w, c).Some? ==> EffectsOf(r, w, c) != []
    ensures forall e | e in EffectsOf(r, w, c) ::
              RequestMade(r, w, c) == Some(e.request) && e.millis == w.send(r.client, e.request).millis
  {
    hide ConditionsOutcome, AccessToken, URLOf, CanRequest, ClaimsFromBody;
  }

  lemma EffectsLast(steps: seq<Step>, c: Claims)
    requires steps != []
    ensures var n := |steps| - 1;
            EffectsOfAll(steps, c) ==
            EffectsOfAll(steps[..n], c)
            + EffectsOf(steps[n].resolver, steps[n].world, ExpandAll(steps[..n], c))
  {
    hide EffectsOf, ExpandAll;
  }

  lemma TotalMillisOne(effects: seq<Effect>, more: seq<Effect>, limit: nat)
    requires |more| <= 1 && forall e | e in more :: e.millis <= limit
    ensures TotalMillis(effects + more) <= TotalMillis(effects) + limit
  {
    if more == [] {
      assert effects + more == effects;
    } else {
      assert (effects + more)[..|effects|] == effects;
    }
  }

  lemma EffectWithinLimit(s: Step, c: Claims, limit: nat)
    requires HonoursTimeout(s, limit)
    ensures forall e | e in EffectsOf(s.resolver, s.world, c) :: e.millis <= limit
  {
    hide RequestMade;
  }

  lemma NoEffects(c: Claims)
    ensures EffectsOfAll([], c) == [] && TotalMillis([]) == 0
  {
  }

  /** At most one request for each source. */
  lemma {:induction false} RequestCount(steps: seq<Step>, c: Claims)
    ensures |EffectsOfAll(steps, c)| <= |steps|
  {
    hide *;
    NoEffects(c);
    if steps != [] {
      var n := |steps| - 1;
      RequestCount(steps[..n], c);
      EffectsLast(steps, c);
      OneRequest(steps[n].resolver, steps[n].world, ExpandAll(steps[..n], c));
    }
  }

  /** Together they take no longer than their timeouts. */
  lemma {:induction false} RequestBudget(steps: seq<Step>, c: Claims, limit: nat)
    requires forall s | s in steps :: HonoursTimeout(s, limit)
    ensures TotalMillis(EffectsOfAll(steps, c)) <= limit * |steps|
  {
    hide *;
    NoEffects(c);
    if steps != [] {
      var n := |steps| - 1;
      assert limit * |steps| == limit * n + limit;
      RequestBudget(steps[..n], c, limit);
      var s, before := steps[n], ExpandAll(steps[..n], c);
      EffectsLast(steps, c);
      OneRequest(s.resolver, s.world, before);
      EffectWithinLimit(s, before, limit);
      TotalMillisOne(EffectsOfAll(steps[..n], c), EffectsOf(s.resolver, s.world, before), limit);
    }
  }

  // ----- access tokens -----

  /** The Authorization header that a source's authentication calls for; an empty token gives none. */
  ghost predicate Authorizes(getter: TokenGetter, w: World, authorization: Option<string>) {
    match getter
    case Anonymous => authorization == None
    case RequestProvided =>
      && w.requestToken.Some? && w.requestToken.value != ""
      && authorization == Some("Bearer " + w.requestToken.value)
    case ClientCredential(config) =>
      && w.clientToken(config).Some?
      && (authorization == None <==> w.clientToken(config).value == "")
      && (authorization.Some? ==> authorization.value == "Bearer " + w.clientToken(config).value)
  }

  /** There is a token for the source, if it needs one. */
  predicate HasToken(getter: TokenGetter, w: World) {
    match getter
    case Anonymous => true
    case RequestProvided => w.requestToken.Some? && w.requestToken.value != ""
    case ClientCredential(config) => w.clientToken(config).Some?
  }

  lemma TokenExactly(getter: TokenGetter, w: World)
    ensures AccessToken(getter, w).Some? <==> HasToken(getter, w)
  {
  }

  lemma RequestAuthorization(r: Resolver, w: World, c: Claims)
    requires RequestMade(r, w, c).Some?
    ensures Authorizes(r.tokenGetter, w, RequestMade(r, w, c).value.authorization)
  {
    hide ConditionsOutcome, URLOf, CanRequest;
  }

  /** A source that is not configured to get the token behaves the same whatever the token is. */
  lemma OneSourceWithoutToken(r: Resolver, w: World, c: Claims, token: Option<string>)
    requires !r.tokenGetter.RequestProvided?
    ensures var w' := w.(requestToken := token);
            RequestMade(r, w', c) == RequestMade(r, w, c) && Fetched(r, w', c) == Fetched(r, w, c)
  {
    hide ConditionsOutcome, URLOf, EvalAll;
  }

  predicate GetsToken(s: Step) {
    s.resolver.tokenGetter.RequestProvided?
  }

  /** The same sources in the same worlds, but for another token. */
  function WithToken(steps: seq<Step>, token: Option<string>): (changed: seq<Step>)
    ensures |changed| == |steps|
    ensures forall i | 0 <= i < |steps| ::
              changed[i] == steps[i].(world := steps[i].world.(requestToken := token))
  {
    seq(|steps|, i requires 0 <= i < |steps| =>
      steps[i].(world := steps[i].world.(requestToken := token)))
  }

  /** The claims that sources fetch with the token of the request. */
  ghost function TokenClaims(steps: seq<Step>): set<string> {
    set s, n | s in steps && GetsToken(s) && n in Names(s) :: n
  }

  /** Every claim fetched with the token is among these, and no source that does not get it reads them. */
  ghost predicate Confined(steps: seq<Step>, claims: set<string>) {
    forall s | s in steps ::
      if GetsToken(s) then Names(s) <= claims else IgnoresAll(s.resolver, claims)
  }

  /** What a source at position i requests when its turn comes. */
  function RequestAtTurn(steps: seq<Step>, c: Claims, i: nat): Option<Request>
    requires i < |steps|
  {
    RequestMade(steps[i].resolver, steps[i].world, ExpandAll(steps[..i], c))
  }

  lemma TurnWithoutToken(s: Step, c: Claims, d: Claims, claims: set<string>, token: Option<string>)
    requires !GetsToken(s) && IgnoresAll(s.resolver, claims) && c - claims == d - claims
    ensures var w := s.world.(requestToken := token);
            && RequestMade(s.resolver, s.world, c) == RequestMade(s.resolver, w, d)
            && Fetched(s.resolver, s.world, c) == Fetched(s.resolver, w, d)
  {
    hide RequestMade, Fetched, IgnoresAll;
    FetchedIgnores(s.resolver, s.world, c, d, claims);
    OneSourceWithoutToken(s.resolver, s.world, d, token);
  }

  lemma OverlayWithin(r: Resolver, w: World, c: Claims, claims: set<string>)
    requires NamesWritten(r) <= claims
    ensures Overlay(c, Fetched(r, w, c)) - claims == c - claims
  {
    if Fetched(r, w, c).Some? {
      FetchedNames(r, w, c);
    }
    hide Fetched, NamesWritten;
  }

  lemma OverlayOutside(c: Claims, d: Claims, fetched: Option<Claims>, claims: set<string>)
    requires c - claims == d - claims
    ensures Overlay(c, fetched) - claims == Overlay(d, fetched) - claims
  {
    if fetched.Some? {
      assert (c + fetched.value) - claims == (c - claims) + (fetched.value - claims);
      assert (d + fetched.value) - claims == (d - claims) + (fetched.value - claims);
    }
  }

  /** Claims outside the given ones stay the same as one more source has its turn. */
  lemma TurnConfined(s: Step, c: Claims, d: Claims, claims: set<string>, token: Option<string>)
    requires if GetsToken(s) then Names(s) <= claims else IgnoresAll(s.resolver, claims)
    requires c - claims == d - claims
    ensures var w := s.world.(requestToken := token);
            Overlay(c, Fetched(s.resolver, s.world, c)) - claims
            == Overlay(d, Fetched(s.resolver, w, d)) - claims
  {
    hide Fetched, NamesWritten, IgnoresAll, Overlay;
    var w := s.world.(requestToken := token);
    if GetsToken(s) {
      OverlayWithin(s.resolver, s.world, c, claims);
      OverlayWithin(s.resolver, w, d, claims);
    } else {
      TurnWithoutToken(s, c, d, claims, token);
      OverlayOutside(c, d, Fetched(s.resolver, s.world, c), claims);
    }
  }

  lemma {:induction false} ChainConfined(
      steps: seq<Step>, c: Claims, claims: set<string>, token: Option<string>, k: nat)
    requires k <= |steps| && Confined(steps, claims)
    ensures ExpandAll(steps[..k], c) - claims == ExpandAll(WithToken(steps, token)[..k], c) - claims
  {
    hide *;
    ExpandAllNone(c);
    if k > 0 {
      var s, changed := steps[k - 1], WithToken(steps, token);
      ChainConfined(steps, c, claims, token, k - 1);
      ConfinedStep(steps, claims, k - 1);
      TurnConfined(
        s, ExpandAll(steps[..k - 1], c), ExpandAll(changed[..k - 1], c), claims, token);
      ExpandAllNext(steps, c, k - 1);
      ExpandAllNext(changed, c, k - 1);
    }
  }

  lemma ConfinedStep(steps: seq<Step>, claims: set<string>, i: nat)
    requires i < |steps| && Confined(steps, claims)
    ensures if GetsToken(steps[i]) then Names(steps[i]) <= claims
            else IgnoresAll(steps[i].resolver, claims)
  {
    hide Names, IgnoresAll, GetsToken;
    assert steps[i] in steps;
  }

  /**
   The token of the request being authenticated reaches only the sources configured to get it: if no
   other source reads the claims fetched with it, another token changes none of the other sources'
   requests, nothing they contribute, and no claim but those.
   */
  lemma TokenConfinement(steps: seq<Step>, c: Claims, token: Option<string>)
    requires forall s | s in steps && !GetsToken(s) :: IgnoresAll(s.resolver, TokenClaims(steps))
    ensures var changed := WithToken(steps, token);
            && ExpandAll(steps, c) - TokenClaims(steps) == ExpandAll(changed, c) - TokenClaims(steps)
            && forall i | 0 <= i < |steps| && !GetsToken(steps[i]) ::
                 && RequestAtTurn(steps, c, i) == RequestAtTurn(changed, c, i)
                 && Contribution(steps, c, i) == Contribution(changed, c, i)
  {
    hide IgnoresAll, ExpandAll, RequestMade, Fetched, Names, Ignores;
    var claims, changed := TokenClaims(steps), WithToken(steps, token);
    assert Confined(steps, claims);
    hide TokenClaims, Confined;
    ChainConfined(steps, c, claims, token, |steps|);
    assert steps[..|steps|] == steps && changed[..|steps|] == changed;
    forall i | 0 <= i < |steps| && !GetsToken(steps[i])
      ensures RequestAtTurn(steps, c, i) == RequestAtTurn(changed, c, i)
      ensures Contribution(steps, c, i) == Contribution(changed, c, i)
    {
      ChainConfined(steps, c, claims, token, i);
      ConfinedStep(steps, claims, i);
      TurnWithoutToken(
        steps[i], ExpandAll(steps[..i], c), ExpandAll(changed[..i], c), claims, token);
    }
  }
}
