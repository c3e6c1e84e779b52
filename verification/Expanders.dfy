/**
 Building the expanders of a JWT authenticator from its configured sources, and why a validated
 configuration leaves only certificates and the first token fetch to fail.
 */
module Expanders {
  import opened Outcomes
  import opened ApiTypes
  import opened Cel
  import opened ClaimsResolver
  import opened Multisets
  import opened Validation
  import opened ValidationProperties

  datatype BuildError =
    | NoURL | NoHostname | NoPathExpression | BadPathExpression | BadMapping | BadCondition
    | BadCertificate | NoAuthenticationType | UnknownAuthenticationType | NoClientCredential
    | BadTokenCertificate | NoInitialToken

  /** The compiler, the certificate pool, and the first token fetch of the client credentials flow. */
  datatype BuildEnv = BuildEnv(
    compiler: Compiler,
    appendsCerts: string -> bool,
    fetchesToken: ClientCredentialConfig -> bool)

  const REQUEST_TIMEOUT_MILLIS := 500

  // ----- one source -----

  /** The certificate authority that a client is given, if any. */
  function RootCA(tls: Option<TLS>): Option<string> {
    match tls
    case Some(TLS(Some(ca))) => if ca == "" then None else Some(ca)
    case _ => None
  }

  function HttpClientFor(b: BuildEnv, tls: Option<TLS>): Result<HttpClient, BuildError> {
    var ca := RootCA(tls);
    if ca.Some? && !b.appendsCerts(ca.value) then Err(BadCertificate)
    else Ok(HttpClient(REQUEST_TIMEOUT_MILLIS, ca))
  }

  function TokenGetterFor(b: BuildEnv, authn: Option<Authentication>)
    : Result<TokenGetter, BuildError>
  {
    match authn
    case None => Ok(Anonymous)
    case Some(a) =>
      match a.kind
      case None => Err(NoAuthenticationType)
      case Some(kind) =>
        if kind == REQUEST_PROVIDED_TOKEN then Ok(RequestProvided)
        else if kind != CLIENT_CREDENTIAL then Err(UnknownAuthenticationType)
        else match a.clientCredential
          case None => Err(NoClientCredential)
          case Some(cfg) =>
            if RootCA(cfg.tls).Some? && !b.appendsCerts(RootCA(cfg.tls).value) then
              Err(BadTokenCertificate)
            else if !b.fetchesToken(cfg) then Err(NoInitialToken)
            else Ok(TokenGetter.ClientCredential(cfg))
  }

  function URLProgram(b: BuildEnv, url: Option<SourceURL>): Result<(string, Program<Claims>), BuildError> {
    match url
    case None => Err(NoURL)
    case Some(SourceURL(None, _)) => Err(NoHostname)
    case Some(SourceURL(Some(_), None)) => Err(NoPathExpression)
    case Some(SourceURL(Some(hostname), Some(expression))) =>
      match b.compiler.claims(expression, AnyType)
      case None => Err(BadPathExpression)
      case Some(program) => Ok((hostname, program))
  }

  /** Mappings without a name or an expression are skipped; the first bad one ends the build. */
  function MappingPrograms(b: BuildEnv, ms: seq<SourcedClaimMapping>): Result<seq<Mapping>, BuildError> {
    if ms == [] then Ok([])
    else
      var m := ms[|ms| - 1];
      match MappingPrograms(b, ms[..|ms| - 1])
      case Err(e) => Err(e)
      case Ok(before) =>
        if m.name.None? || m.expression.None? then Ok(before)
        else match b.compiler.response(m.expression.value)
          case None => Err(BadMapping)
          case Some(program) => Ok(before + [Mapping(m.name.value, program)])
  }

  lemma {:induction false} MappingProgramsStop(b: BuildEnv, ms: seq<SourcedClaimMapping>, i: nat)
    requires i <= |ms| && MappingPrograms(b, ms[..i]).Err?
    ensures MappingPrograms(b, ms) == MappingPrograms(b, ms[..i])
    decreases |ms|
  {
    if i < |ms| {
      assert ms[..|ms| - 1][..i] == ms[..i];
      MappingProgramsStop(b, ms[..|ms| - 1], i);
    } else {
      assert ms[..i] == ms;
    }
  }

  method BuildMappings(b: BuildEnv, ms: seq<SourcedClaimMapping>)
    returns (result: Result<seq<Mapping>, BuildError>)
    ensures result == MappingPrograms(b, ms)
  {
    var compiled: seq<Mapping> := [];
    for i := 0 to |ms|
      invariant MappingPrograms(b, ms[..i]) == Ok(compiled)
    {
      assert ms[..i + 1][..i] == ms[..i];
      if ms[i].name.None? || ms[i].expression.None? {
        continue;
      }
      match b.compiler.response(ms[i].expression.value) {
        case None =>
          MappingProgramsStop(b, ms, i + 1);
          return Err(BadMapping);
        case Some(program) =>
          compiled := compiled + [Mapping(ms[i].name.value, program)];
      }
    }
    assert ms[..|ms|] == ms;
    return Ok(compiled);
  }

  function ConditionPrograms(b: BuildEnv, cs: seq<ExternalSourceCondition>)
    : Result<seq<Program<Claims>>, BuildError>
  {
    if cs == [] then Ok([])
    else
      var c := cs[|cs| - 1];
      match ConditionPrograms(b, cs[..|cs| - 1])
      case Err(e) => Err(e)
      case Ok(before) =>
        if c.expression.None? then Ok(before)
        else match b.compiler.claims(c.expression.value, BoolType)
          case None => Err(BadCondition)
          case Some(program) => Ok(before + [program])
  }

  lemma {:induction false} ConditionProgramsStop(
      b: BuildEnv, cs: seq<ExternalSourceCondition>, i: nat)
    requires i <= |cs| && ConditionPrograms(b, cs[..i]).Err?
    ensures ConditionPrograms(b, cs) == ConditionPrograms(b, cs[..i])
    decreases |cs|
  {
    if i < |cs| {
      assert cs[..|cs| - 1][..i] == cs[..i];
      ConditionProgramsStop(b, cs[..|cs| - 1], i);
    } else {
      assert cs[..i] == cs;
    }
  }

  method BuildConditions(b: BuildEnv, cs: seq<ExternalSourceCondition>)
    returns (result: Result<seq<Program<Claims>>, BuildError>)
    ensures result == ConditionPrograms(b, cs)
  {
    var compiled: seq<Program<Claims>> := [];
    for i := 0 to |cs|
      invariant ConditionPrograms(b, cs[..i]) == Ok(compiled)
    {
      assert cs[..i + 1][..i] == cs[..i];
      if cs[i].expression.None? {
        continue;
      }
      match b.compiler.claims(cs[i].expression.value, BoolType) {
        case None =>
          ConditionProgramsStop(b, cs, i + 1);
          return Err(BadCondition);
        case Some(program) =>
          compiled := compiled + [program];
      }
    }
    assert cs[..|cs|] == cs;
    return Ok(compiled);
  }

  /** The token getter first, then client, URL, mappings and conditions; the first error wins. */
  function ResolverFor(b: BuildEnv, s: ExternalClaimsSource): Result<Resolver, BuildError> {
    match TokenGetterFor(b, s.authentication)
    case Err(e) => Err(e)
    case Ok(getter) =>
      match HttpClientFor(b, s.tls)
      case Err(e) => Err(e)
      case Ok(client) =>
        match URLProgram(b, s.url)
        case Err(e) => Err(e)
        case Ok((hostname, path)) =>
          match MappingPrograms(b, s.mappings)
          case Err(e) => Err(e)
          case Ok(mappings) =>
            match ConditionPrograms(b, s.conditions)
            case Err(e) => Err(e)
            case Ok(conditions) =>
              Ok(Resolver(getter, client, hostname, path, mappings, conditions))
  }

  method BuildResolver(b: BuildEnv, s: ExternalClaimsSource)
    returns (result: Result<Resolver, BuildError>)
    ensures result == ResolverFor(b, s)
  {
    var getter := TokenGetterFor(b, s.authentication);
    if getter.Err? { return Err(getter.error); }
    var client := HttpClientFor(b, s.tls);
    if client.Err? { return Err(client.error); }
    var url := URLProgram(b, s.url);
    if url.Err? { return Err(url.error); }
    var mappings := BuildMappings(b, s.mappings);
    if mappings.Err? { return Err(mappings.error); }
    var conditions := BuildConditions(b, s.conditions);
    if conditions.Err? { return Err(conditions.error); }
    return Ok(Resolver(
      getter.value, client.value, url.value.0, url.value.1, mappings.value, conditions.value));
  }

  // ----- all sources -----

  function ResolversFor(b: BuildEnv, ss: seq<ExternalClaimsSource>)
    : Result<seq<Resolver>, BuildError>
  {
    if ss == [] then Ok([])
    else match ResolversFor(b, ss[..|ss| - 1])
      case Err(e) => Err(e)
      case Ok(before) =>
        match ResolverFor(b, ss[|ss| - 1])
        case Err(e) => Err(e)
        case Ok(r) => Ok(before + [r])
  }

  lemma {:induction false} ResolversStop(b: BuildEnv, ss: seq<ExternalClaimsSource>, i: nat)
    requires i <= |ss| && ResolversFor(b, ss[..i]).Err?
    ensures ResolversFor(b, ss) == ResolversFor(b, ss[..i])
    decreases |ss|
  {
    hide ResolverFor;
    if i < |ss| {
      assert ss[..|ss| - 1][..i] == ss[..i];
      ResolversStop(b, ss[..|ss| - 1], i);
    } else {
      assert ss[..i] == ss;
    }
  }

  method BuildExternalClaimsExpanders(b: BuildEnv, ss: seq<ExternalClaimsSource>)
    returns (result: Result<seq<Resolver>, BuildError>)
    ensures result == ResolversFor(b, ss)
  {
    hide ResolverFor;
    var expanders: seq<Resolver> := [];
    for i := 0 to |ss|
      invariant ResolversFor(b, ss[..i]) == Ok(expanders)
    {
      assert ss[..i + 1][..i] == ss[..i];
      var expander := BuildResolver(b, ss[i]);
      if expander.Err? {
        ResolversStop(b, ss, i + 1);
        return Err(expander.error);
      }
      expanders := expanders + [expander.value];
    }
    assert ss[..|ss|] == ss;
    return Ok(expanders);
  }

  // ----- what is built, and which error wins -----

  /** A client has the timeout and the given authority, unless that is given, not empty and not taken. */
  lemma HttpClientExactly(b: BuildEnv, tls: Option<TLS>)
    ensures var ca := if tls.Some? then tls.value.certificateAuthority else None;
            HttpClientFor(b, tls) ==
            if ca == None || ca == Some("") then Ok(HttpClient(500, None))
            else if b.appendsCerts(ca.value) then Ok(HttpClient(500, ca))
            else Err(BadCertificate)
  {
  }

  /** A getter is of the configured type, and only the client credentials flow does anything to get it. */
  lemma TokenGetterExactly(b: BuildEnv, authn: Option<Authentication>)
    ensures TokenGetterFor(b, authn).Ok? ==> IsGetterOf(authn, TokenGetterFor(b, authn).value)
    ensures TokenGetterFor(b, authn).Ok?
            <==> authn.None? || authn.value.kind == Some("RequestProvidedToken")
                 || (&& authn.value.kind == Some("ClientCredential") && authn.value.clientCredential.Some?
                     && HttpClientFor(b, authn.value.clientCredential.value.tls).Ok?
                     && b.fetchesToken(authn.value.clientCredential.value))
  {
  }

  /** Every part must be had; of several that fail, the first in this order gives the error. */
  lemma ResolverExactly(b: BuildEnv, s: ExternalClaimsSource)
    ensures var getter, client, url := TokenGetterFor(b, s.authentication), HttpClientFor(b, s.tls),
                                       URLProgram(b, s.url);
            var mappings, conditions := MappingPrograms(b, s.mappings), ConditionPrograms(b, s.conditions);
            && (ResolverFor(b, s).Ok?
                <==> getter.Ok? && client.Ok? && url.Ok? && mappings.Ok? && conditions.Ok?)
            && (ResolverFor(b, s).Ok? ==> ResolverFor(b, s).value == Resolver(
                  getter.value, client.value, url.value.0, url.value.1, mappings.value, conditions.value))
            && (getter.Err? ==> ResolverFor(b, s) == Err(getter.error))
            && (getter.Ok? && client.Err? ==> ResolverFor(b, s) == Err(client.error))
            && (getter.Ok? && client.Ok? && url.Err? ==> ResolverFor(b, s) == Err(url.error))
  {
    hide TokenGetterFor, HttpClientFor, URLProgram, MappingPrograms, ConditionPrograms;
  }

  /** A mapping that has both a name and an expression, and the program for it if it compiles. */
  function Compiled(b: BuildEnv): SourcedClaimMapping -> seq<Mapping> {
    (m: SourcedClaimMapping) =>
      if m.name.None? || m.expression.None? then []
      else match b.compiler.response(m.expression.value)
        case None => []
        case Some(program) => [Mapping(m.name.value, program)]
  }

  function CompiledCondition(b: BuildEnv): ExternalSourceCondition -> seq<Program<Claims>> {
    (c: ExternalSourceCondition) =>
      if c.expression.None? then []
      else match b.compiler.claims(c.expression.value, BoolType)
        case None => []
        case Some(program) => [program]
  }

  predicate FailsToCompile(b: BuildEnv, m: SourcedClaimMapping) {
    m.name.Some? && m.expression.Some? && b.compiler.response(m.expression.value).None?
  }

  predicate ConditionFails(b: BuildEnv, c: ExternalSourceCondition) {
    c.expression.Some? && b.compiler.claims(c.expression.value, BoolType).None?
  }

  /** Incomplete mappings are left out, the others are there in order, and one bad one spoils all. */
  lemma {:induction false} MappingsExactly(b: BuildEnv, ms: seq<SourcedClaimMapping>)
    ensures (exists m :: m in ms && FailsToCompile(b, m)) ==> MappingPrograms(b, ms) == Err(BadMapping)
    ensures (forall m :: m in ms ==> !FailsToCompile(b, m)) ==>
              MappingPrograms(b, ms) == Ok(Flat(Compiled(b), ms))
  {
    if ms != [] {
      var front, last := ms[..|ms| - 1], ms[|ms| - 1];
      MappingsExactly(b, front);
      assert forall m :: m in ms <==> m in front || m == last;
      assert last in ms;
      FlatUnfold(Compiled(b), ms);
      assert Flat(Compiled(b), front) + [] == Flat(Compiled(b), front);
    }
  }

  /** The same for conditions. */
  lemma {:induction false} ConditionsExactly(b: BuildEnv, cs: seq<ExternalSourceCondition>)
    ensures (exists c :: c in cs && ConditionFails(b, c)) ==> ConditionPrograms(b, cs) == Err(BadCondition)
    ensures (forall c :: c in cs ==> !ConditionFails(b, c)) ==>
              ConditionPrograms(b, cs) == Ok(Flat(CompiledCondition(b), cs))
  {
    if cs != [] {
      var front, last := cs[..|cs| - 1], cs[|cs| - 1];
      ConditionsExactly(b, front);
      assert forall c :: c in cs <==> c in front || c == last;
      assert last in cs;
      FlatUnfold(CompiledCondition(b), cs);
      assert Flat(CompiledCondition(b), front) + [] == Flat(CompiledCondition(b), front);
    }
  }

  /** The first source that does not build gives the error; otherwise each gives its expander. */
  lemma {:induction false} ResolversExactly(b: BuildEnv, ss: seq<ExternalClaimsSource>)
    ensures ResolversFor(b, ss).Ok? ==>
              && |ResolversFor(b, ss).value| == |ss|
              && forall i | 0 <= i < |ss| :: ResolverFor(b, ss[i]) == Ok(ResolversFor(b, ss).value[i])
    ensures ResolversFor(b, ss).Err? ==>
              exists i :: 0 <= i < |ss| && ResolverFor(b, ss[i]) == Err(ResolversFor(b, ss).error)
                          && forall j | 0 <= j < i :: ResolverFor(b, ss[j]).Ok?
  {
    hide ResolverFor;
    if ss != [] {
      var n := |ss| - 1;
      ResolversExactly(b, ss[..n]);
      if ResolversFor(b, ss[..n]).Err? {
        var i :| 0 <= i < n && ResolverFor(b, ss[..n][i]) == Err(ResolversFor(b, ss[..n]).error)
                 && forall j | 0 <= j < i :: ResolverFor(b, ss[..n][j]).Ok?;
        assert forall j | 0 <= j < i :: ss[..n][j] == ss[j];
      } else {
        assert forall j | 0 <= j < n :: ss[..n][j] == ss[j];
      }
    }
  }

  // ----- after validation -----

  /** All that can still go wrong for a validated source: certificates and the first token fetch. */
  predicate SourceBuilds(b: BuildEnv, s: ExternalClaimsSource) {
    && (RootCA(s.tls).Some? ==> b.appendsCerts(RootCA(s.tls).value))
    && (s.authentication.Some? && s.authentication.value.kind == Some(CLIENT_CREDENTIAL)
        && s.authentication.value.clientCredential.Some? ==>
          var cfg := s.authentication.value.clientCredential.value;
          && (RootCA(cfg.tls).Some? ==> b.appendsCerts(RootCA(cfg.tls).value))
          && b.fetchesToken(cfg))
  }

  /** A resolver holds exactly what its source configures, in the same order. */
  ghost predicate IsResolverOf(b: BuildEnv, s: ExternalClaimsSource, r: Resolver) {
    && s.url.Some? && s.url.value.hostname == Some(r.hostname)
    && s.url.value.pathExpression.Some?
    && b.compiler.claims(s.url.value.pathExpression.value, AnyType) == Some(r.path)
    && AreCompiledMappings(b, s.mappings, r.mappings)
    && AreCompiledConditions(b, s.conditions, r.conditions)
    && r.client.timeoutMillis == 500
    && r.client.rootCA == (if s.tls.None? then None else s.tls.value.certificateAuthority)
    && IsGetterOf(s.authentication, r.tokenGetter)
  }

  /** The token getter is of the configured type, and has the configured client credential. */
  predicate IsGetterOf(authn: Option<Authentication>, getter: TokenGetter) {
    match getter
    case Anonymous => authn.None?
    case RequestProvided => authn.Some? && authn.value.kind == Some(REQUEST_PROVIDED_TOKEN)
    case ClientCredential(config) =>
      && authn.Some? && authn.value.kind == Some(CLIENT_CREDENTIAL)
      && authn.value.clientCredential == Some(config)
  }

  ghost predicate AreCompiledMappings(
      b: BuildEnv, ms: seq<SourcedClaimMapping>, compiled: seq<Mapping>)
  {
    && |ms| == |compiled|
    && forall i | 0 <= i < |ms| ::
         && ms[i].name == Some(compiled[i].claim)
         && ms[i].expression.Some?
         && b.compiler.response(ms[i].expression.value) == Some(compiled[i].program)
  }

  ghost predicate AreCompiledConditions(
      b: BuildEnv, cs: seq<ExternalSourceCondition>, compiled: seq<Program<Claims>>)
  {
    && |cs| == |compiled|
    && forall i | 0 <= i < |cs| ::
         && cs[i].expression.Some?
         && b.compiler.claims(cs[i].expression.value, BoolType) == Some(compiled[i])
  }

  lemma {:induction false} MappingsCompile(env: Env, b: BuildEnv, ms: seq<SourcedClaimMapping>)
    requires AreMappings(env, ms) && b.compiler == env.compiler
    ensures MappingPrograms(b, ms).Ok?
    ensures AreCompiledMappings(b, ms, MappingPrograms(b, ms).value)
  {
    if ms != [] {
      MappingsCompile(env, b, ms[..|ms| - 1]);
      assert IsMapping(env, ms[|ms| - 1]);
    }
  }

  lemma {:induction false} ConditionsCompile(
      env: Env, b: BuildEnv, cs: seq<ExternalSourceCondition>)
    requires AreConditions(env, cs) && b.compiler == env.compiler
    ensures ConditionPrograms(b, cs).Ok?
    ensures AreCompiledConditions(b, cs, ConditionPrograms(b, cs).value)
  {
    if cs != [] {
      ConditionsCompile(env, b, cs[..|cs| - 1]);
      assert IsCondition(env, cs[|cs| - 1]);
    }
  }

  /** What goes wrong first: the token endpoint's certificate, the first token, the source's certificate. */
  function FailureOf(b: BuildEnv, s: ExternalClaimsSource): (error: BuildError)
    ensures error in {BadCertificate, BadTokenCertificate, NoInitialToken}
  {
    var credential := if s.authentication.Some? then s.authentication.value.clientCredential else None;
    if credential.Some? && RootCA(credential.value.tls).Some?
       && !b.appendsCerts(RootCA(credential.value.tls).value) then BadTokenCertificate
    else if credential.Some? && !b.fetchesToken(credential.value) then NoInitialToken
    else BadCertificate
  }

  lemma SourceCompiles(env: Env, b: BuildEnv, s: ExternalClaimsSource)
    requires IsSource(env, s) && b.compiler == env.compiler
    ensures ResolverFor(b, s).Ok? <==> SourceBuilds(b, s)
    ensures ResolverFor(b, s).Ok? ==> IsResolverOf(b, s, ResolverFor(b, s).value)
    ensures ResolverFor(b, s).Err? ==>
              ResolverFor(b, s).error == FailureOf(b, s)
  {
    MappingsCompile(env, b, s.mappings);
    ConditionsCompile(env, b, s.conditions);
    hide MappingPrograms, ConditionPrograms, AreCompiledMappings, AreCompiledConditions, AreMappings;
    hide AreConditions, ExpressionsOf, Distinct, IsClientCredential;
  }

  lemma NoResolvers(b: BuildEnv)
    ensures ResolversFor(b, []) == Ok([])
  {
  }

  lemma ResolversUnfold(env: Env, b: BuildEnv, ss: seq<ExternalClaimsSource>)
    requires ss != []
    ensures var n := |ss| - 1;
            && ResolversFor(b, ss) == (
                 match ResolversFor(b, ss[..n])
                 case Err(e) => Err(e)
                 case Ok(before) =>
                   match ResolverFor(b, ss[n])
                   case Err(e) => Err(e)
                   case Ok(r) => Ok(before + [r]))
            && (AreSources(env, ss) ==> AreSources(env, ss[..n]) && IsSource(env, ss[n]))
  {
    hide ResolverFor, IsSource;
  }

  /**
   Once a source list has passed validation, building its expanders with the same compiler succeeds
   exactly if the certificates are taken and the first tokens can be fetched; no mapping and no
   condition is skipped, and every expander holds what its source configures.
   */
  lemma {:induction false} ValidationSufficesForBuilding(
      env: Env, b: BuildEnv, ss: seq<ExternalClaimsSource>)
    requires AreSources(env, ss) && b.compiler == env.compiler
    ensures ResolversFor(b, ss).Ok? <==> forall i | 0 <= i < |ss| :: SourceBuilds(b, ss[i])
    ensures ResolversFor(b, ss).Ok? ==>
              && |ResolversFor(b, ss).value| == |ss|
              && forall i | 0 <= i < |ss| :: IsResolverOf(b, ss[i], ResolversFor(b, ss).value[i])
    ensures ResolversFor(b, ss).Err? ==>
              ResolversFor(b, ss).error in {BadCertificate, BadTokenCertificate, NoInitialToken}
  {
    hide *;
    if ss == [] {
      NoResolvers(b);
    } else {
      var n := |ss| - 1;
      ResolversUnfold(env, b, ss);
      ValidationSufficesForBuilding(env, b, ss[..n]);
      SourceCompiles(env, b, ss[n]);
      assert forall i | 0 <= i < n :: ss[..n][i] == ss[i];
    }
  }
}
