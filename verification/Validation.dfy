/**
 Validation of the configuration. The checks without loops are functions; the checks that loop over
 lists, append errors and insert into shared sets are methods, each proved to return what a
 specification function says, and to leave in the shared set what it says.
 */
module Validation {
  import opened Outcomes
  import opened Strings
  import opened Regexp
  import opened ApiTypes
  import opened Cel
  import Hostname

  // ----- errors -----

  datatype ErrorKind = Required | Invalid | Duplicate | TooMany | TooLong | Forbidden

  /** The names of the configuration fields. */
  datatype Field =
    | Jwt | ExternalClaimsSources | Authentication | Type | ClientCredential | ClientID
    | ClientSecret | TokenEndpoint | Scopes | Tls | CertificateAuthority | Mappings | Conditions
    | Name | Expression | Url | Hostname | PathExpression

  datatype PathElement = Child(field: Field) | Index(i: nat)

  type FieldPath = seq<PathElement>

  datatype FieldError = FieldError(kind: ErrorKind, path: FieldPath)

  type Errors = seq<FieldError>

  // ----- what the validator relies on -----

  datatype Endpoint = Endpoint(
    scheme: string, host: string, path: string, rawQuery: string, fragment: string, hasUser: bool)

  /** The CEL compiler, the certificate parser and url.Parse. */
  datatype Env = Env(
    compiler: Compiler,
    acceptsCA: string -> bool,
    parseURL: string -> Option<Endpoint>)

  // ----- strings over a class -----

  predicate IsNameChar(c: char) {
    'a' <= c <= 'z' || c == '_'
  }

  /** [!#-[\]-~] */
  predicate IsScopeChar(c: char) {
    c == '!' || '#' <= c <= '[' || ']' <= c <= '~'
  }

  /** [[:print:]] */
  predicate IsPrintable(c: char) {
    ' ' <= c <= '~'
  }

  predicate IsScope(s: string) {
    s != "" && AllChars(s, IsScopeChar)
  }

  function ScopeErrors(scope: string, path: FieldPath): (errs: Errors)
    ensures errs == [] <==> IsScope(scope)
    ensures forall e | e in errs :: e.kind != Duplicate
  {
    PlusChars(IsScopeChar, scope);
    if scope == "" then [FieldError(Invalid, path)]
    else if !Matches(Plus(Chars(IsScopeChar)), scope) then [FieldError(Invalid, path)]
    else []
  }

  /** The check of a client ID, and of a client secret. */
  function CredentialErrors(text: string, path: FieldPath): (errs: Errors)
    ensures errs == [] <==> text != "" && AllChars(text, IsPrintable)
    ensures forall e | e in errs :: e.kind != Duplicate
  {
    PlusChars(IsPrintable, text);
    if text == "" then [FieldError(Required, path)]
    else if !Matches(Plus(Chars(IsPrintable)), text) then [FieldError(Invalid, path)]
    else []
  }

  // ----- token endpoint, TLS, authentication -----

  ghost predicate IsTokenEndpoint(env: Env, s: string) {
    && s != ""
    && env.parseURL(s).Some?
    && var u := env.parseURL(s).value;
      && u.scheme == "https" && u.host != "" && u.path != ""
      && u.rawQuery == "" && u.fragment == "" && !u.hasUser
  }

  function ErrorIf(bad: bool, kind: ErrorKind, path: FieldPath): Errors {
    if bad then [FieldError(kind, path)] else []
  }

  function TokenEndpointErrors(env: Env, s: string, path: FieldPath): (errs: Errors)
    ensures errs == [] <==> IsTokenEndpoint(env, s)
    ensures forall e | e in errs :: e.kind != Duplicate
  {
    if s == "" then [FieldError(Required, path)]
    else match env.parseURL(s)
      case None => [FieldError(Invalid, path)]
      case Some(u) =>
        ErrorIf(u.scheme != "https", Invalid, path)
        + ErrorIf(u.host == "", Invalid, path)
        + ErrorIf(u.path == "", Invalid, path)
        + ErrorIf(u.rawQuery != "", Invalid, path)
        + ErrorIf(u.fragment != "", Invalid, path)
        + ErrorIf(u.hasUser, Invalid, path)
  }

  ghost predicate IsTLS(env: Env, tls: Option<TLS>) {
    tls.Some? ==>
      && tls.value.certificateAuthority.Some?
      && tls.value.certificateAuthority.value != ""
      && env.acceptsCA(tls.value.certificateAuthority.value)
  }

  function TLSErrors(env: Env, tls: Option<TLS>, path: FieldPath): (errs: Errors)
    ensures errs == [] <==> IsTLS(env, tls)
    ensures forall e | e in errs :: e.kind != Duplicate
  {
    match tls
    case None => []
    case Some(TLS(None)) => [FieldError(Invalid, path)]
    case Some(TLS(Some(ca))) =>
      if ca == "" then [FieldError(Invalid, path + [Child(Field.CertificateAuthority)])]
      else ErrorIf(!env.acceptsCA(ca), Invalid, path + [Child(Field.CertificateAuthority)])
  }

  ghost predicate IsClientCredential(env: Env, cfg: ClientCredentialConfig) {
    && cfg.clientID != "" && AllChars(cfg.clientID, IsPrintable)
    && cfg.clientSecret != "" && AllChars(cfg.clientSecret, IsPrintable)
    && IsTokenEndpoint(env, cfg.tokenEndpoint)
    && IsTLS(env, cfg.tls)
    && forall i | 0 <= i < |cfg.scopes| :: IsScope(cfg.scopes[i])
  }

  function ScopesErrors(scopes: seq<string>, path: FieldPath): (errs: Errors)
    ensures errs == [] <==> forall i | 0 <= i < |scopes| :: IsScope(scopes[i])
    ensures forall e | e in errs :: e.kind != Duplicate
  {
    if scopes == [] then []
    else
      var n := |scopes| - 1;
      ScopesErrors(scopes[..n], path) + ScopeErrors(scopes[n], path + [Index(n)])
  }

  function ClientCredentialErrors(
      env: Env, config: Option<ClientCredentialConfig>, path: FieldPath): (errs: Errors)
    ensures errs == [] <==> config.Some? && IsClientCredential(env, config.value)
    ensures forall e | e in errs :: e.kind != Duplicate
  {
    match config
    case None => [FieldError(Required, path)]
    case Some(cfg) =>
      CredentialErrors(cfg.clientID, path + [Child(Field.ClientID)])
      + CredentialErrors(cfg.clientSecret, path + [Child(Field.ClientSecret)])
      + TokenEndpointErrors(env, cfg.tokenEndpoint, path + [Child(Field.TokenEndpoint)])
      + TLSErrors(env, cfg.tls, path + [Child(Field.Tls)])
      + ScopesErrors(cfg.scopes, path + [Child(Field.Scopes)])
  }

  lemma ScopesErrorsNext(scopes: seq<string>, path: FieldPath, i: nat)
    ensures ScopesErrors([], path) == []
    ensures i < |scopes| ==>
              ScopesErrors(scopes[..i + 1], path)
              == ScopesErrors(scopes[..i], path) + ScopeErrors(scopes[i], path + [Index(i)])
  {
    if i < |scopes| {
      assert scopes[..i + 1][..i] == scopes[..i];
    }
  }

  lemma NoClientCredential(env: Env, path: FieldPath)
    ensures ClientCredentialErrors(env, None, path) == [FieldError(Required, path)]
  {
  }

  lemma ClientCredentialErrorsParts(env: Env, cfg: ClientCredentialConfig, path: FieldPath)
    ensures ClientCredentialErrors(env, Some(cfg), path)
            == CredentialErrors(cfg.clientID, path + [Child(Field.ClientID)])
               + CredentialErrors(cfg.clientSecret, path + [Child(Field.ClientSecret)])
               + TokenEndpointErrors(env, cfg.tokenEndpoint, path + [Child(Field.TokenEndpoint)])
               + TLSErrors(env, cfg.tls, path + [Child(Field.Tls)])
               + ScopesErrors(cfg.scopes, path + [Child(Field.Scopes)])
  {
  }

  method ValidateClientCredentialConfig(
      env: Env, config: Option<ClientCredentialConfig>, path: FieldPath) returns (errs: Errors)
    ensures errs == ClientCredentialErrors(env, config, path)
  {
    hide *;
    NoClientCredential(env, path);
    if config.None? {
      return [FieldError(Required, path)];
    }
    var cfg := config.value;
    var scopesPath := path + [Child(Field.Scopes)];
    ClientCredentialErrorsParts(env, cfg, path);
    errs := CredentialErrors(cfg.clientID, path + [Child(Field.ClientID)]);
    errs := errs + CredentialErrors(cfg.clientSecret, path + [Child(Field.ClientSecret)]);
    errs := errs + TokenEndpointErrors(env, cfg.tokenEndpoint, path + [Child(Field.TokenEndpoint)]);
    errs := errs + TLSErrors(env, cfg.tls, path + [Child(Field.Tls)]);
    ghost var before := errs;
    ScopesErrorsNext(cfg.scopes, scopesPath, |cfg.scopes|);
    for i := 0 to |cfg.scopes|
      invariant errs == before + ScopesErrors(cfg.scopes[..i], scopesPath)
    {
      ScopesErrorsNext(cfg.scopes, scopesPath, i);
      errs := errs + ScopeErrors(cfg.scopes[i], scopesPath + [Index(i)]);
    }
    assert cfg.scopes[..|cfg.scopes|] == cfg.scopes;
  }

  ghost predicate IsAuthentication(env: Env, authn: Option<Authentication>) {
    authn.Some? ==>
      match authn.value.kind
      case None => false
      case Some(kind) =>
        || (kind == REQUEST_PROVIDED_TOKEN && authn.value.clientCredential.None?)
        || (kind == CLIENT_CREDENTIAL && authn.value.clientCredential.Some?
            && IsClientCredential(env, authn.value.clientCredential.value))
  }

  function AuthenticationErrors(
      env: Env, authn: Option<Authentication>, path: FieldPath): (errs: Errors)
    ensures errs == [] <==> IsAuthentication(env, authn)
    ensures forall e | e in errs :: e.kind != Duplicate
  {
    match authn
    case None => []
    case Some(a) =>
      match a.kind
      case None => [FieldError(Required, path + [Child(Field.Type)])]
      case Some(kind) =>
        if kind != REQUEST_PROVIDED_TOKEN && kind != CLIENT_CREDENTIAL then
          [FieldError(Invalid, path + [Child(Field.Type)])]
        else if kind == CLIENT_CREDENTIAL then
          ClientCredentialErrors(env, a.clientCredential, path + [Child(Field.ClientCredential)])
        else
          ErrorIf(a.clientCredential.Some?, Forbidden, path + [Child(Field.ClientCredential)])
  }

  method ValidateExternalClaimsSourceAuthentication(
      env: Env, authn: Option<Authentication>, path: FieldPath) returns (errs: Errors)
    ensures errs == AuthenticationErrors(env, authn, path)
  {
    if authn.None? {
      return [];
    }
    var allowed := {REQUEST_PROVIDED_TOKEN, CLIENT_CREDENTIAL};
    if authn.value.kind.None? {
      return [FieldError(Required, path + [Child(Field.Type)])];
    }
    var kind := authn.value.kind.value;
    if kind !in allowed {
      return [FieldError(Invalid, path + [Child(Field.Type)])];
    }
    if kind == CLIENT_CREDENTIAL {
      errs := ValidateClientCredentialConfig(
        env, authn.value.clientCredential, path + [Child(Field.ClientCredential)]);
    } else {
      errs := ErrorIf(
        authn.value.clientCredential.Some?, Forbidden, path + [Child(Field.ClientCredential)]);
    }
  }

  // ----- URL -----

  ghost predicate IsHostnameField(hostname: Option<string>) {
    hostname.Some? && Hostname.IsHostname(hostname.value)
  }

  function HostnameErrors(hostname: Option<string>, path: FieldPath): (errs: Errors)
    ensures errs == [] <==> IsHostnameField(hostname)
    ensures forall e | e in errs :: e.kind != Duplicate
  {
    match hostname
    case None => [FieldError(Required, path)]
    case Some(s) =>
      Hostname.AcceptedHostnames(s);
      if s == "" then
        assert !Hostname.IsHostname("") by { Hostname.EmptyIsNoHostname(); }
        [FieldError(Invalid, path)]
      else ErrorIf(Hostname.CheckHostname(s) != Hostname.Accepted, Invalid, path)
  }

  /** Non-empty and compiling, as every expression field must be. */
  predicate IsClaimsExpression(env: Env, expression: Option<string>, returnType: ReturnType) {
    && expression.Some?
    && expression.value != ""
    && env.compiler.claims(expression.value, returnType).Some?
  }

  function PathExpressionErrors(env: Env, expression: Option<string>, path: FieldPath): (errs: Errors)
    ensures errs == [] <==> IsClaimsExpression(env, expression, AnyType)
    ensures forall e | e in errs :: e.kind != Duplicate
  {
    match expression
    case None => [FieldError(Required, path)]
    case Some(s) =>
      if s == "" then [FieldError(Invalid, path)]
      else ErrorIf(env.compiler.claims(s, AnyType).None?, Invalid, path)
  }

  ghost predicate IsURL(env: Env, url: Option<SourceURL>) {
    && url.Some?
    && IsHostnameField(url.value.hostname)
    && IsClaimsExpression(env, url.value.pathExpression, AnyType)
  }

  function URLErrors(env: Env, url: Option<SourceURL>, path: FieldPath): (errs: Errors)
    ensures errs == [] <==> IsURL(env, url)
    ensures forall e | e in errs :: e.kind != Duplicate
  {
    match url
    case None => [FieldError(Required, path)]
    case Some(u) =>
      HostnameErrors(u.hostname, path + [Child(Field.Hostname)])
      + PathExpressionErrors(env, u.pathExpression, path + [Child(Field.PathExpression)])
  }

  // ----- the shared set of names -----

  /** Go's sets.Set[string], a set that is passed along and grows in place. */
  class StringSet {
    var elems: set<string>

    constructor ()
      ensures elems == {}
    {
      elems := {};
    }

    predicate Has(s: string)
      reads this
    {
      s in elems
    }

    method Insert(s: string)
      modifies this
      ensures elems == old(elems) + {s}
    {
      elems := elems + {s};
    }
  }

  /** Errors found, and what the set holds afterwards. */
  datatype Outcome = Outcome(errs: Errors, seen: set<string>)

  // ----- mappings -----

  const MAX_NAME_LENGTH := 256
  const MAX_MAPPINGS := 16
  const MAX_CONDITIONS := 16
  const MAX_SOURCES := 5

  /** Lowercase letters and underscores, from 1 to 256 of them. */
  predicate IsName(name: string) {
    1 <= |name| <= 256 && AllChars(name, IsNameChar)
  }

  function NameOutcome(name: Option<string>, seen: set<string>, path: FieldPath): Outcome {
    match name
    case None => Outcome([FieldError(Required, path)], seen)
    case Some(n) =>
      if n == "" then Outcome([FieldError(Invalid, path)], seen)
      else if !Matches(Plus(Chars(IsNameChar)), n) then Outcome([FieldError(Invalid, path)], seen)
      else if |n| > MAX_NAME_LENGTH then Outcome([FieldError(TooLong, path)], seen)
      else if n in seen then Outcome([FieldError(Duplicate, path)], seen)
      else Outcome([], seen + {n})
  }

  method ValidateExternalClaimsSourceMappingName(
      name: Option<string>, seen: StringSet, path: FieldPath) returns (errs: Errors)
    modifies seen
    ensures Outcome(errs, seen.elems) == NameOutcome(name, old(seen.elems), path)
  {
    if name.None? {
      return [FieldError(Required, path)];
    }
    if name.value == "" {
      return [FieldError(Invalid, path)];
    }
    if !Matches(Plus(Chars(IsNameChar)), name.value) {
      return [FieldError(Invalid, path)];
    }
    if |name.value| > MAX_NAME_LENGTH {
      return [FieldError(TooLong, path)];
    }
    if seen.Has(name.value) {
      return [FieldError(Duplicate, path)];
    }
    seen.Insert(name.value);
    return [];
  }

  predicate IsResponseExpression(env: Env, expression: Option<string>) {
    && expression.Some?
    && expression.value != ""
    && env.compiler.response(expression.value).Some?
  }

  function MappingExpressionErrors(
      env: Env, expression: Option<string>, path: FieldPath): (errs: Errors)
    ensures errs == [] <==> IsResponseExpression(env, expression)
    ensures forall e | e in errs :: e.kind != Duplicate
  {
    match expression
    case None => [FieldError(Required, path)]
    case Some(s) =>
      if s == "" then [FieldError(Invalid, path)]
      else ErrorIf(env.compiler.response(s).None?, Invalid, path)
  }

  function MappingOutcome(
      env: Env, mapping: SourcedClaimMapping, seen: set<string>, path: FieldPath): Outcome
  {
    var name := NameOutcome(mapping.name, seen, path + [Child(Field.Name)]);
    var expression := MappingExpressionErrors(env, mapping.expression, path + [Child(Field.Expression)]);
    Outcome(name.errs + expression, name.seen)
  }

  method ValidateExternalClaimsSourceMapping(
      env: Env, mapping: SourcedClaimMapping, seen: StringSet, path: FieldPath)
    returns (errs: Errors)
    modifies seen
    ensures Outcome(errs, seen.elems) == MappingOutcome(env, mapping, old(seen.elems), path)
  {
    errs := ValidateExternalClaimsSourceMappingName(mapping.name, seen, path + [Child(Field.Name)]);
    errs := errs + MappingExpressionErrors(env, mapping.expression, path + [Child(Field.Expression)]);
  }

  /** A run of mappings, the first of which has index `base`. */
  function MappingRun(
      env: Env, mappings: seq<SourcedClaimMapping>, seen: set<string>, path: FieldPath, base: nat)
    : Outcome
  {
    if mappings == [] then Outcome([], seen)
    else
      var n := |mappings| - 1;
      var before := MappingRun(env, mappings[..n], seen, path, base);
      var last := MappingOutcome(env, mappings[n], before.seen, path + [Index(base + n)]);
      Outcome(before.errs + last.errs, last.seen)
  }

  function MappingsOutcome(
      env: Env, mappings: seq<SourcedClaimMapping>, seen: set<string>, path: FieldPath): Outcome
  {
    if mappings == [] then Outcome([FieldError(Required, path)], seen)
    else
      var run := MappingRun(env, mappings, seen, path, 0);
      Outcome(ErrorIf(|mappings| > MAX_MAPPINGS, TooMany, path) + run.errs, run.seen)
  }

  lemma MappingsOutcomeParts(
      env: Env, mappings: seq<SourcedClaimMapping>, seen: set<string>, path: FieldPath)
    ensures mappings == [] ==>
              MappingsOutcome(env, mappings, seen, path) == Outcome([FieldError(Required, path)], seen)
    ensures mappings != [] ==>
              var run := MappingRun(env, mappings, seen, path, 0);
              MappingsOutcome(env, mappings, seen, path) == Outcome(
                (if |mappings| > MAX_MAPPINGS then [FieldError(TooMany, path)] else []) + run.errs,
                run.seen)
  {
  }

  lemma MappingRunNext(
      env: Env, mappings: seq<SourcedClaimMapping>, seen: set<string>, path: FieldPath, i: nat)
    ensures MappingRun(env, [], seen, path, 0) == Outcome([], seen)
    ensures i < |mappings| ==>
              var before := MappingRun(env, mappings[..i], seen, path, 0);
              var last := MappingOutcome(env, mappings[i], before.seen, path + [Index(i)]);
              MappingRun(env, mappings[..i + 1], seen, path, 0)
              == Outcome(before.errs + last.errs, last.seen)
  {
    if i < |mappings| {
      assert mappings[..i + 1][..i] == mappings[..i];
    }
  }

  method ValidateExternalClaimsSourceMappings(
      env: Env, mappings: seq<SourcedClaimMapping>, seen: StringSet, path: FieldPath)
    returns (errs: Errors)
    modifies seen
    ensures Outcome(errs, seen.elems) == MappingsOutcome(env, mappings, old(seen.elems), path)
  {
    hide *;
    MappingsOutcomeParts(env, mappings, seen.elems, path);
    if |mappings| == 0 {
      return [FieldError(Required, path)];
    }
    errs := [];
    if |mappings| > MAX_MAPPINGS {
      errs := errs + [FieldError(TooMany, path)];
    }
    ghost var before := errs;
    MappingRunNext(env, mappings, seen.elems, path, |mappings|);
    for i := 0 to |mappings|
      invariant errs == before + MappingRun(env, mappings[..i], old(seen.elems), path, 0).errs
      invariant seen.elems == MappingRun(env, mappings[..i], old(seen.elems), path, 0).seen
    {
      MappingRunNext(env, mappings, old(seen.elems), path, i);
      var more := ValidateExternalClaimsSourceMapping(env, mappings[i], seen, path + [Index(i)]);
      errs := errs + more;
    }
    assert mappings[..|mappings|] == mappings;
  }

  // ----- conditions -----

  function ConditionOutcome(
      env: Env, condition: ExternalSourceCondition, seen: set<string>, path: FieldPath): Outcome
  {
    match condition.expression
    case None => Outcome([FieldError(Required, path + [Child(Field.Expression)])], seen)
    case Some(s) =>
      if s == "" then Outcome([FieldError(Invalid, path + [Child(Field.Expression)])], seen)
      else if s in seen then Outcome([FieldError(Duplicate, path + [Child(Field.Expression)])], seen)
      else
        Outcome(ErrorIf(env.compiler.claims(s, BoolType).None?, Invalid, path + [Child(Field.Expression)]),
                seen + {s})
  }

  method ValidateExternalSourceCondition(
      env: Env, condition: ExternalSourceCondition, seen: StringSet, path: FieldPath)
    returns (errs: Errors)
    modifies seen
    ensures Outcome(errs, seen.elems) == ConditionOutcome(env, condition, old(seen.elems), path)
  {
    if condition.expression.None? {
      return [FieldError(Required, path + [Child(Field.Expression)])];
    }
    var s := condition.expression.value;
    if s == "" {
      return [FieldError(Invalid, path + [Child(Field.Expression)])];
    }
    if seen.Has(s) {
      return [FieldError(Duplicate, path + [Child(Field.Expression)])];
    }
    seen.Insert(s);
    if env.compiler.claims(s, BoolType).None? {
      return [FieldError(Invalid, path + [Child(Field.Expression)])];
    }
    return [];
  }

  function ConditionRun(
      env: Env, conditions: seq<ExternalSourceCondition>, path: FieldPath): Outcome
  {
    if conditions == [] then Outcome([], {})
    else
      var n := |conditions| - 1;
      var before := ConditionRun(env, conditions[..n], path);
      var last := ConditionOutcome(env, conditions[n], before.seen, path + [Index(n)]);
      Outcome(before.errs + last.errs, last.seen)
  }

  function ConditionsErrors(
      env: Env, conditions: seq<ExternalSourceCondition>, path: FieldPath): Errors
  {
    ErrorIf(|conditions| > MAX_CONDITIONS, TooMany, path) + ConditionRun(env, conditions, path).errs
  }

  method ValidateExternalClaimsSourceConditions(
      env: Env, conditions: seq<ExternalSourceCondition>, path: FieldPath) returns (errs: Errors)
    ensures errs == ConditionsErrors(env, conditions, path)
  {
    errs := [];
    if |conditions| > MAX_CONDITIONS {
      errs := errs + [FieldError(TooMany, path)];
    }
    var seen := new StringSet();
    ghost var before := errs;
    for i := 0 to |conditions|
      invariant errs == before + ConditionRun(env, conditions[..i], path).errs
      invariant seen.elems == ConditionRun(env, conditions[..i], path).seen
    {
      assert conditions[..i + 1][..i] == conditions[..i];
      var more := ValidateExternalSourceCondition(env, conditions[i], seen, path + [Index(i)]);
      errs := errs + more;
    }
    assert conditions[..|conditions|] == conditions;
  }

  // ----- sources -----

  function SourceOutcome(
      env: Env, source: ExternalClaimsSource, seen: set<string>, path: FieldPath): Outcome
  {
    var mappings := MappingsOutcome(env, source.mappings, seen, path + [Child(Field.Mappings)]);
    Outcome(
      AuthenticationErrors(env, source.authentication, path + [Child(Field.Authentication)])
      + TLSErrors(env, source.tls, path + [Child(Field.Tls)])
      + mappings.errs
      + ConditionsErrors(env, source.conditions, path + [Child(Field.Conditions)])
      + URLErrors(env, source.url, path + [Child(Field.Url)]),
      mappings.seen)
  }

  method ValidateExternalClaimsSource(
      env: Env, source: ExternalClaimsSource, seen: StringSet, path: FieldPath)
    returns (errs: Errors)
    modifies seen
    ensures Outcome(errs, seen.elems) == SourceOutcome(env, source, old(seen.elems), path)
  {
    errs := ValidateExternalClaimsSourceAuthentication(
      env, source.authentication, path + [Child(Field.Authentication)]);
    errs := errs + TLSErrors(env, source.tls, path + [Child(Field.Tls)]);
    var mappings := ValidateExternalClaimsSourceMappings(
      env, source.mappings, seen, path + [Child(Field.Mappings)]);
    errs := errs + mappings;
    var conditions := ValidateExternalClaimsSourceConditions(
      env, source.conditions, path + [Child(Field.Conditions)]);
    errs := errs + conditions;
    errs := errs + URLErrors(env, source.url, path + [Child(Field.Url)]);
  }

  /** A run of sources, the first of which has index `base`. */
  function SourceRun(
      env: Env, sources: seq<ExternalClaimsSource>, seen: set<string>, path: FieldPath, base: nat)
    : Outcome
  {
    if sources == [] then Outcome([], seen)
    else
      var n := |sources| - 1;
      var before := SourceRun(env, sources[..n], seen, path, base);
      var last := SourceOutcome(env, sources[n], before.seen, path + [Index(base + n)]);
      Outcome(before.errs + last.errs, last.seen)
  }

  function SourcesErrors(env: Env, sources: seq<ExternalClaimsSource>, path: FieldPath): Errors {
    ErrorIf(|sources| > MAX_SOURCES, TooMany, path) + SourceRun(env, sources, {}, path, 0).errs
  }

  lemma SourceRunNext(
      env: Env, sources: seq<ExternalClaimsSource>, path: FieldPath, i: nat)
    ensures SourceRun(env, [], {}, path, 0) == Outcome([], {})
    ensures i < |sources| ==>
              var before := SourceRun(env, sources[..i], {}, path, 0);
              var last := SourceOutcome(env, sources[i], before.seen, path + [Index(i)]);
              SourceRun(env, sources[..i + 1], {}, path, 0)
              == Outcome(before.errs + last.errs, last.seen)
  {
    if i < |sources| {
      assert sources[..i + 1][..i] == sources[..i];
    }
  }

  lemma SourcesErrorsParts(env: Env, sources: seq<ExternalClaimsSource>, path: FieldPath)
    ensures SourcesErrors(env, sources, path) ==
            (if |sources| > MAX_SOURCES then [FieldError(TooMany, path)] else [])
            + SourceRun(env, sources, {}, path, 0).errs
  {
  }

  method ValidateExternalClaimsSources(
      env: Env, sources: seq<ExternalClaimsSource>, path: FieldPath) returns (errs: Errors)
    ensures errs == SourcesErrors(env, sources, path)
  {
    hide *;
    errs := [];
    var seen := new StringSet();
    if |sources| > MAX_SOURCES {
      errs := errs + [FieldError(TooMany, path)];
    }
    ghost var before := errs;
    SourceRunNext(env, sources, path, |sources|);
    for i := 0 to |sources|
      invariant errs == before + SourceRun(env, sources[..i], {}, path, 0).errs
      invariant seen.elems == SourceRun(env, sources[..i], {}, path, 0).seen
    {
      SourceRunNext(env, sources, path, i);
      var more := ValidateExternalClaimsSource(env, sources[i], seen, path + [Index(i)]);
      errs := errs + more;
    }
    assert sources[..|sources|] == sources;
    SourcesErrorsParts(env, sources, path);
  }

  // ----- the whole configuration -----

  const ROOT: FieldPath := [Child(Field.Jwt)]

  function AuthenticatorRun(env: Env, jwt: seq<JWTAuthenticator>): Errors {
    if jwt == [] then []
    else
      var n := |jwt| - 1;
      AuthenticatorRun(env, jwt[..n])
      + SourcesErrors(env, jwt[n].externalClaimsSources,
                      ROOT + [Index(n)] + [Child(Field.ExternalClaimsSources)])
  }

  /** `upstream` is what the Kubernetes validation of the same configuration reports. */
  function ConfigurationErrors(
      env: Env, config: AuthenticationConfiguration, upstream: Errors): Errors
  {
    ErrorIf(config.jwt == [], Required, ROOT) + upstream + AuthenticatorRun(env, config.jwt)
  }

  lemma AuthenticatorRunNext(env: Env, jwt: seq<JWTAuthenticator>, i: nat)
    ensures AuthenticatorRun(env, []) == []
    ensures i < |jwt| ==>
              AuthenticatorRun(env, jwt[..i + 1]) == AuthenticatorRun(env, jwt[..i])
              + SourcesErrors(env, jwt[i].externalClaimsSources,
                              ROOT + [Index(i)] + [Child(Field.ExternalClaimsSources)])
  {
    if i < |jwt| {
      assert jwt[..i + 1][..i] == jwt[..i];
    }
  }

  lemma ConfigurationErrorsParts(env: Env, config: AuthenticationConfiguration, upstream: Errors)
    ensures ConfigurationErrors(env, config, upstream) ==
            (if config.jwt == [] then [FieldError(Required, ROOT)] else [])
            + upstream + AuthenticatorRun(env, config.jwt)
  {
  }

  method ValidateAuthenticationConfiguration(
      env: Env, config: AuthenticationConfiguration, upstream: Errors) returns (errs: Errors)
    ensures errs == ConfigurationErrors(env, config, upstream)
  {
    hide *;
    errs := [];
    if |config.jwt| == 0 {
      errs := errs + [FieldError(Required, ROOT)];
    }
    errs := errs + upstream;
    ghost var before := errs;
    AuthenticatorRunNext(env, config.jwt, |config.jwt|);
    for i := 0 to |config.jwt|
      invariant errs == before + AuthenticatorRun(env, config.jwt[..i])
    {
      AuthenticatorRunNext(env, config.jwt, i);
      var more := ValidateExternalClaimsSources(
        env, config.jwt[i].externalClaimsSources,
        ROOT + [Index(i)] + [Child(Field.ExternalClaimsSources)]);
      errs := errs + more;
    }
    assert config.jwt[..|config.jwt|] == config.jwt;
    ConfigurationErrorsParts(env, config, upstream);
  }
}
