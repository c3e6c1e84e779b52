/**
 Which errors the validator reports, and where: for every kind of error and every path, whether it is
 among the errors for a list of sources. Paths are relative to the field that is checked.
 */
module ValidationErrors {
  import opened Outcomes
  import opened Strings
  import opened ApiTypes
  import opened Cel
  import opened Validation
  import opened ValidationProperties
  import Hostname
  import Regexp

  /** The path below `path`; only asked of paths that start with it. */
  function Below(path: FieldPath, full: FieldPath): FieldPath
    requires path <= full
  {
    full[|path|..]
  }

  lemma OneDeeper(path: FieldPath, x: PathElement, full: FieldPath)
    ensures path + [x] <= full
            <==> path <= full && Below(path, full) != [] && Below(path, full)[0] == x
    ensures path + [x] <= full ==> Below(path + [x], full) == Below(path, full)[1..]
  {
    if path <= full && Below(path, full) != [] && Below(path, full)[0] == x {
      assert full == path + Below(path, full);
      assert full[..|path| + 1] == path + [x];
    }
  }

  lemma Exactly(path: FieldPath, full: FieldPath)
    ensures full == path <==> path <= full && Below(path, full) == []
  {
    if path <= full {
      assert full == path + Below(path, full);
    }
  }

  // ----- texts -----

  /** A client ID or client secret. */
  ghost predicate CredentialFault(text: string, kind: ErrorKind) {
    if text == "" then kind == Required else kind == Invalid && !AllChars(text, IsPrintable)
  }

  lemma CredentialReports(text: string, path: FieldPath, e: FieldError)
    ensures e in CredentialErrors(text, path)
            <==> path <= e.path && Below(path, e.path) == [] && CredentialFault(text, e.kind)
  {
    Exactly(path, e.path);
  }

  ghost predicate EndpointFault(env: Env, s: string, kind: ErrorKind) {
    if s == "" then kind == Required else kind == Invalid && !IsTokenEndpoint(env, s)
  }

  lemma EndpointReports(env: Env, s: string, path: FieldPath, e: FieldError)
    ensures e in TokenEndpointErrors(env, s, path)
            <==> path <= e.path && Below(path, e.path) == [] && EndpointFault(env, s, e.kind)
  {
    Exactly(path, e.path);
  }

  lemma {:induction false} ScopesReport(scopes: seq<string>, path: FieldPath, e: FieldError)
    ensures e in ScopesErrors(scopes, path)
            <==> exists k :: 0 <= k < |scopes| && e == FieldError(Invalid, path + [Index(k)])
                             && !IsScope(scopes[k])
  {
    hide IsScope;
    if scopes != [] {
      var n := |scopes| - 1;
      ScopesReport(scopes[..n], path, e);
      assert forall k | 0 <= k < n :: scopes[..n][k] == scopes[k];
    }
  }

  // ----- TLS, client credential, authentication -----

  ghost predicate TLSFault(env: Env, tls: Option<TLS>, kind: ErrorKind, rel: FieldPath) {
    && tls.Some? && kind == Invalid
    && match tls.value.certificateAuthority
       case None => rel == []
       case Some(ca) => rel == [Child(Field.CertificateAuthority)] && (ca == "" || !env.acceptsCA(ca))
  }

  lemma TLSReports(env: Env, tls: Option<TLS>, path: FieldPath, e: FieldError)
    ensures e in TLSErrors(env, tls, path)
            <==> path <= e.path && TLSFault(env, tls, e.kind, Below(path, e.path))
  {
    Exactly(path, e.path);
    Exactly(path + [Child(Field.CertificateAuthority)], e.path);
    OneDeeper(path, Child(Field.CertificateAuthority), e.path);
  }

  ghost predicate CredentialConfigFault(
      env: Env, cfg: ClientCredentialConfig, kind: ErrorKind, field: Field, rel: FieldPath)
  {
    match field
    case ClientID => rel == [] && CredentialFault(cfg.clientID, kind)
    case ClientSecret => rel == [] && CredentialFault(cfg.clientSecret, kind)
    case TokenEndpoint => rel == [] && EndpointFault(env, cfg.tokenEndpoint, kind)
    case Tls => TLSFault(env, cfg.tls, kind, rel)
    case Scopes =>
      && |rel| == 1 && rel[0].Index? && rel[0].i < |cfg.scopes|
      && kind == Invalid && !IsScope(cfg.scopes[rel[0].i])
    case _ => false
  }

  ghost predicate ClientCredentialFault(
      env: Env, config: Option<ClientCredentialConfig>, kind: ErrorKind, rel: FieldPath)
  {
    if config.None? then kind == Required && rel == []
    else rel != [] && rel[0].Child? && CredentialConfigFault(env, config.value, kind, rel[0].field, rel[1..])
  }

  lemma ScopesFieldReports(env: Env, cfg: ClientCredentialConfig, path: FieldPath, e: FieldError)
    ensures e in ScopesErrors(cfg.scopes, path)
            <==> path <= e.path
                 && CredentialConfigFault(env, cfg, e.kind, Field.Scopes, Below(path, e.path))
  {
    hide IsScope, ScopesErrors;
    ScopesReport(cfg.scopes, path, e);
    forall k | 0 <= k < |cfg.scopes|
      ensures e.path == path + [Index(k)] <==> path <= e.path && Below(path, e.path) == [Index(k)]
    {
      OneDeeper(path, Index(k), e.path);
      Exactly(path + [Index(k)], e.path);
    }
  }

  lemma ClientCredentialReports(
      env: Env, config: Option<ClientCredentialConfig>, path: FieldPath, e: FieldError)
    ensures e in ClientCredentialErrors(env, config, path)
            <==> path <= e.path && ClientCredentialFault(env, config, e.kind, Below(path, e.path))
  {
    hide CredentialErrors, TokenEndpointErrors, TLSErrors, ScopesErrors, ClientCredentialErrors, Below;
    hide CredentialFault, EndpointFault, TLSFault, IsScope;
    Exactly(path, e.path);
    match config {
      case None => NoClientCredential(env, path);
      case Some(cfg) =>
        ClientCredentialErrorsParts(env, cfg, path);
        OneDeeper(path, Child(Field.ClientID), e.path);
        OneDeeper(path, Child(Field.ClientSecret), e.path);
        OneDeeper(path, Child(Field.TokenEndpoint), e.path);
        OneDeeper(path, Child(Field.Tls), e.path);
        OneDeeper(path, Child(Field.Scopes), e.path);
        CredentialReports(cfg.clientID, path + [Child(Field.ClientID)], e);
        CredentialReports(cfg.clientSecret, path + [Child(Field.ClientSecret)], e);
        EndpointReports(env, cfg.tokenEndpoint, path + [Child(Field.TokenEndpoint)], e);
        TLSReports(env, cfg.tls, path + [Child(Field.Tls)], e);
        ScopesFieldReports(env, cfg, path + [Child(Field.Scopes)], e);
    }
  }

  ghost predicate AuthenticationFault(
      env: Env, authn: Option<Authentication>, kind: ErrorKind, rel: FieldPath)
  {
    && authn.Some? && rel != []
    && match authn.value.kind
       case None => kind == Required && rel == [Child(Field.Type)]
       case Some(t) =>
         if t == CLIENT_CREDENTIAL then
           rel[0] == Child(Field.ClientCredential)
           && ClientCredentialFault(env, authn.value.clientCredential, kind, rel[1..])
         else if t == REQUEST_PROVIDED_TOKEN then
           kind == Forbidden && rel == [Child(Field.ClientCredential)]
           && authn.value.clientCredential.Some?
         else kind == Invalid && rel == [Child(Field.Type)]
  }

  lemma AuthenticationErrorsParts(env: Env, authn: Option<Authentication>, path: FieldPath)
    ensures AuthenticationErrors(env, authn, path) ==
            if authn.None? then []
            else if authn.value.kind.None? then [FieldError(Required, path + [Child(Field.Type)])]
            else if authn.value.kind.value == CLIENT_CREDENTIAL then
              ClientCredentialErrors(
                env, authn.value.clientCredential, path + [Child(Field.ClientCredential)])
            else if authn.value.kind.value != REQUEST_PROVIDED_TOKEN then
              [FieldError(Invalid, path + [Child(Field.Type)])]
            else if authn.value.clientCredential.Some? then
              [FieldError(Forbidden, path + [Child(Field.ClientCredential)])]
            else []
  {
    hide ClientCredentialErrors;
  }

  lemma AuthenticationReports(env: Env, authn: Option<Authentication>, path: FieldPath, e: FieldError)
    ensures e in AuthenticationErrors(env, authn, path)
            <==> path <= e.path && AuthenticationFault(env, authn, e.kind, Below(path, e.path))
  {
    hide AuthenticationErrors, ClientCredentialErrors, ClientCredentialFault, Below;
    AuthenticationErrorsParts(env, authn, path);
    OneDeeper(path, Child(Field.Type), e.path);
    OneDeeper(path, Child(Field.ClientCredential), e.path);
    Exactly(path + [Child(Field.Type)], e.path);
    Exactly(path + [Child(Field.ClientCredential)], e.path);
    if authn.Some? {
      ClientCredentialReports(
        env, authn.value.clientCredential, path + [Child(Field.ClientCredential)], e);
    }
  }

  // ----- URL -----

  /** An expression that is missing, empty or does not compile. */
  ghost predicate ExpressionFault(expression: Option<string>, compiles: bool, kind: ErrorKind) {
    if expression.None? then kind == Required
    else kind == Invalid && (expression.value == "" || !compiles)
  }

  ghost predicate HostnameFault(hostname: Option<string>, kind: ErrorKind) {
    if hostname.None? then kind == Required else kind == Invalid && !Hostname.IsHostname(hostname.value)
  }

  ghost predicate URLFault(env: Env, url: Option<SourceURL>, kind: ErrorKind, rel: FieldPath) {
    if url.None? then kind == Required && rel == []
    else
      var expression := url.value.pathExpression;
      || (rel == [Child(Field.Hostname)] && HostnameFault(url.value.hostname, kind))
      || (rel == [Child(Field.PathExpression)]
          && ExpressionFault(
               expression, expression.Some? && env.compiler.claims(expression.value, AnyType).Some?, kind))
  }

  lemma HostnameReports(hostname: Option<string>, path: FieldPath, e: FieldError)
    ensures e in HostnameErrors(hostname, path) <==> e.path == path && HostnameFault(hostname, e.kind)
  {
    if hostname.Some? {
      Hostname.AcceptedHostnames(hostname.value);
      Hostname.EmptyIsNoHostname();
    }
    hide Hostname.IsHostname, Hostname.CheckHostname;
  }

  lemma URLReports(env: Env, url: Option<SourceURL>, path: FieldPath, e: FieldError)
    ensures e in URLErrors(env, url, path)
            <==> path <= e.path && URLFault(env, url, e.kind, Below(path, e.path))
  {
    hide HostnameErrors, HostnameFault, Below;
    Exactly(path, e.path);
    OneDeeper(path, Child(Field.Hostname), e.path);
    OneDeeper(path, Child(Field.PathExpression), e.path);
    Exactly(path + [Child(Field.Hostname)], e.path);
    Exactly(path + [Child(Field.PathExpression)], e.path);
    if url.Some? {
      HostnameReports(url.value.hostname, path + [Child(Field.Hostname)], e);
    }
  }

  // ----- mappings -----

  /** A name that is missing, malformed, too long, or taken by an earlier mapping. */
  ghost predicate NameFault(name: Option<string>, taken: set<string>, kind: ErrorKind) {
    if name.None? then kind == Required
    else if name.value == "" || !AllChars(name.value, IsNameChar) then kind == Invalid
    else if |name.value| > 256 then kind == TooLong
    else kind == Duplicate && name.value in taken
  }

  ghost predicate MappingFault(
      env: Env, m: SourcedClaimMapping, taken: set<string>, kind: ErrorKind, rel: FieldPath)
  {
    || (rel == [Child(Field.Name)] && NameFault(m.name, taken, kind))
    || (rel == [Child(Field.Expression)]
        && ExpressionFault(
             m.expression, m.expression.Some? && env.compiler.response(m.expression.value).Some?, kind))
  }

  lemma NameReports(name: Option<string>, taken: set<string>, path: FieldPath, e: FieldError)
    ensures e in NameOutcome(name, taken, path).errs <==> e.path == path && NameFault(name, taken, e.kind)
  {
    if name.Some? {
      Regexp.PlusChars(IsNameChar, name.value);
    }
    hide Regexp.Matches, IsNameChar;
  }

  lemma MappingReports(
      env: Env, m: SourcedClaimMapping, taken: set<string>, path: FieldPath, e: FieldError)
    ensures e in MappingOutcome(env, m, taken, path).errs
            <==> path <= e.path && MappingFault(env, m, taken, e.kind, Below(path, e.path))
  {
    hide NameOutcome, NameFault, Below;
    OneDeeper(path, Child(Field.Name), e.path);
    OneDeeper(path, Child(Field.Expression), e.path);
    Exactly(path + [Child(Field.Name)], e.path);
    Exactly(path + [Child(Field.Expression)], e.path);
    NameReports(m.name, taken, path + [Child(Field.Name)], e);
  }

  /** The mapping at an index, with the names that earlier mappings and earlier sources have taken. */
  ghost predicate MappingFaultAt(
      env: Env, ms: seq<SourcedClaimMapping>, taken: set<string>, kind: ErrorKind, rel: FieldPath)
  {
    && rel != [] && rel[0].Index? && rel[0].i < |ms|
    && MappingFault(env, ms[rel[0].i], taken + Elems(NamesOf(ms[..rel[0].i])), kind, rel[1..])
  }

  lemma {:induction false} MappingRunReports(
      env: Env, ms: seq<SourcedClaimMapping>, taken: set<string>, path: FieldPath, e: FieldError)
    ensures e in MappingRun(env, ms, taken, path, 0).errs
            <==> path <= e.path && MappingFaultAt(env, ms, taken, e.kind, Below(path, e.path))
  {
    hide MappingRun, MappingOutcome, MappingFault, NamesOf, Elems, IsMapping, AreMappings, Below;
    MappingRunEmpty(env, taken, path, 0);
    if ms != [] {
      var n := |ms| - 1;
      MappingRunReports(env, ms[..n], taken, path, e);
      MappingRunUnfold(env, ms, taken, path, 0);
      MappingRunMeaning(env, ms[..n], taken, path, 0);
      MappingReports(env, ms[n], taken + Elems(NamesOf(ms[..n])), path + [Index(n)], e);
      OneDeeper(path, Index(n), e.path);
      assert forall k | 0 <= k <= n :: ms[..n][..k] == ms[..k];
    }
  }

  ghost predicate MappingsFault(
      env: Env, ms: seq<SourcedClaimMapping>, taken: set<string>, kind: ErrorKind, rel: FieldPath)
  {
    if rel == [] then (kind == Required && ms == []) || (kind == TooMany && |ms| > 16)
    else MappingFaultAt(env, ms, taken, kind, rel)
  }

  lemma MappingsReport(
      env: Env, ms: seq<SourcedClaimMapping>, taken: set<string>, path: FieldPath, e: FieldError)
    ensures e in MappingsOutcome(env, ms, taken, path).errs
            <==> path <= e.path && MappingsFault(env, ms, taken, e.kind, Below(path, e.path))
  {
    hide MappingRun, MappingFault, NamesOf, Elems, Below;
    Exactly(path, e.path);
    MappingsOutcomeParts(env, ms, taken, path);
    MappingRunReports(env, ms, taken, path, e);
  }

  // ----- conditions -----

  /** A condition that is missing, empty, repeated, or does not compile to a boolean. */
  ghost predicate ConditionFault(
      env: Env, c: ExternalSourceCondition, earlier: set<string>, kind: ErrorKind)
  {
    if c.expression.None? then kind == Required
    else if c.expression.value == "" then kind == Invalid
    else if c.expression.value in earlier then kind == Duplicate
    else kind == Invalid && env.compiler.claims(c.expression.value, BoolType).None?
  }

  ghost predicate ConditionsFault(
      env: Env, cs: seq<ExternalSourceCondition>, kind: ErrorKind, rel: FieldPath)
  {
    if rel == [] then kind == TooMany && |cs| > 16
    else
      && rel[0].Index? && rel[0].i < |cs| && rel[1..] == [Child(Field.Expression)]
      && ConditionFault(env, cs[rel[0].i], Elems(ExpressionsOf(cs[..rel[0].i])), kind)
  }

  lemma ConditionReports(
      env: Env, c: ExternalSourceCondition, earlier: set<string>, path: FieldPath, e: FieldError)
    ensures e in ConditionOutcome(env, c, earlier, path).errs
            <==> && path <= e.path && Below(path, e.path) == [Child(Field.Expression)]
                 && ConditionFault(env, c, earlier, e.kind)
  {
    OneDeeper(path, Child(Field.Expression), e.path);
    Exactly(path + [Child(Field.Expression)], e.path);
  }

  lemma {:induction false} ConditionRunReports(
      env: Env, cs: seq<ExternalSourceCondition>, path: FieldPath, e: FieldError)
    ensures e in ConditionRun(env, cs, path).errs
            <==> path <= e.path && Below(path, e.path) != []
                 && ConditionsFault(env, cs, e.kind, Below(path, e.path))
  {
    hide ConditionRun, ConditionOutcome, ConditionFault, ExpressionsOf, Elems, IsCondition, AreConditions;
    hide Below;
    ConditionRunEmpty(env, path);
    if cs != [] {
      var n := |cs| - 1;
      ConditionRunReports(env, cs[..n], path, e);
      ConditionRunUnfold(env, cs, path);
      ConditionRunMeaning(env, cs[..n], path);
      ConditionReports(env, cs[n], Elems(ExpressionsOf(cs[..n])), path + [Index(n)], e);
      OneDeeper(path, Index(n), e.path);
      assert forall k | 0 <= k <= n :: cs[..n][..k] == cs[..k];
    }
  }

  lemma ConditionsReport(env: Env, cs: seq<ExternalSourceCondition>, path: FieldPath, e: FieldError)
    ensures e in ConditionsErrors(env, cs, path)
            <==> path <= e.path && ConditionsFault(env, cs, e.kind, Below(path, e.path))
  {
    hide ConditionRun, ConditionFault, ExpressionsOf, Elems, Below;
    Exactly(path, e.path);
    ConditionRunReports(env, cs, path, e);
  }

  // ----- sources -----

  /** What is wrong with a source, given the names that earlier sources have taken. */
  ghost predicate SourceFault(
      env: Env, s: ExternalClaimsSource, taken: set<string>, kind: ErrorKind, rel: FieldPath)
  {
    && rel != [] && rel[0].Child?
    && match rel[0].field
       case Authentication => AuthenticationFault(env, s.authentication, kind, rel[1..])
       case Tls => TLSFault(env, s.tls, kind, rel[1..])
       case Mappings => MappingsFault(env, s.mappings, taken, kind, rel[1..])
       case Conditions => ConditionsFault(env, s.conditions, kind, rel[1..])
       case Url => URLFault(env, s.url, kind, rel[1..])
       case _ => false
  }

  lemma SourceReports(
      env: Env, s: ExternalClaimsSource, taken: set<string>, path: FieldPath, e: FieldError)
    ensures e in SourceOutcome(env, s, taken, path).errs
            <==> path <= e.path && SourceFault(env, s, taken, e.kind, Below(path, e.path))
  {
    hide AuthenticationErrors, TLSErrors, MappingsOutcome, ConditionsErrors, URLErrors, Below;
    hide AuthenticationFault, TLSFault, MappingsFault, ConditionsFault, URLFault;
    OneDeeper(path, Child(Field.Authentication), e.path);
    OneDeeper(path, Child(Field.Tls), e.path);
    OneDeeper(path, Child(Field.Mappings), e.path);
    OneDeeper(path, Child(Field.Conditions), e.path);
    OneDeeper(path, Child(Field.Url), e.path);
    AuthenticationReports(env, s.authentication, path + [Child(Field.Authentication)], e);
    TLSReports(env, s.tls, path + [Child(Field.Tls)], e);
    MappingsReport(env, s.mappings, taken, path + [Child(Field.Mappings)], e);
    ConditionsReport(env, s.conditions, path + [Child(Field.Conditions)], e);
    URLReports(env, s.url, path + [Child(Field.Url)], e);
  }

  ghost predicate SourcesFault(
      env: Env, ss: seq<ExternalClaimsSource>, kind: ErrorKind, rel: FieldPath)
  {
    if rel == [] then kind == TooMany && |ss| > 5
    else
      && rel[0].Index? && rel[0].i < |ss|
      && SourceFault(env, ss[rel[0].i], Elems(AllNames(ss[..rel[0].i])), kind, rel[1..])
  }

  lemma {:induction false} SourceRunReports(
      env: Env, ss: seq<ExternalClaimsSource>, path: FieldPath, e: FieldError)
    ensures e in SourceRun(env, ss, {}, path, 0).errs
            <==> path <= e.path && Below(path, e.path) != []
                 && SourcesFault(env, ss, e.kind, Below(path, e.path))
  {
    hide SourceRun, SourceOutcome, SourceFault, AllNames, NamesOf, Elems, IsSource, AreSources, Below;
    SourceRunEmpty(env, {}, path, 0);
    if ss != [] {
      var n := |ss| - 1;
      SourceRunReports(env, ss[..n], path, e);
      SourceRunUnfold(env, ss, {}, path, 0);
      SourceRunMeaning(env, ss[..n], {}, path, 0);
      assert {} + Elems(AllNames(ss[..n])) == Elems(AllNames(ss[..n]));
      SourceReports(env, ss[n], Elems(AllNames(ss[..n])), path + [Index(n)], e);
      OneDeeper(path, Index(n), e.path);
      assert forall k | 0 <= k <= n :: ss[..n][..k] == ss[..k];
    }
  }

  /**
   The errors for a list of sources are exactly its faults: an error of a kind at a path is reported if
   and only if the field at that path has that fault, names taken by earlier sources included.
   */
  lemma SourcesReport(env: Env, ss: seq<ExternalClaimsSource>, path: FieldPath, e: FieldError)
    ensures e in SourcesErrors(env, ss, path)
            <==> path <= e.path && SourcesFault(env, ss, e.kind, Below(path, e.path))
  {
    hide SourceRun, SourceFault, AllNames, Elems, Below;
    Exactly(path, e.path);
    SourcesErrorsParts(env, ss, path);
    SourceRunReports(env, ss, path, e);
  }

  // ----- the whole configuration -----

  /** The sources of the issuer at an index. */
  ghost predicate IssuersFault(
      env: Env, jwt: seq<JWTAuthenticator>, kind: ErrorKind, rel: FieldPath)
  {
    && |rel| >= 2 && rel[0].Index? && rel[0].i < |jwt|
    && rel[1] == Child(Field.ExternalClaimsSources)
    && SourcesFault(env, jwt[rel[0].i].externalClaimsSources, kind, rel[2..])
  }

  lemma {:induction false} AuthenticatorRunReports(env: Env, jwt: seq<JWTAuthenticator>, e: FieldError)
    ensures e in AuthenticatorRun(env, jwt)
            <==> ROOT <= e.path && IssuersFault(env, jwt, e.kind, Below(ROOT, e.path))
  {
    hide AuthenticatorRun, SourcesErrors, SourcesFault, Below, AreValid, ValidSources;
    AuthenticatorRunUnfold(env, jwt);
    if jwt != [] {
      var n := |jwt| - 1;
      AuthenticatorRunReports(env, jwt[..n], e);
      SourcesReport(env, jwt[n].externalClaimsSources, SourcesPath(n), e);
      OneDeeper(ROOT, Index(n), e.path);
      OneDeeper(ROOT + [Index(n)], Child(Field.ExternalClaimsSources), e.path);
    }
  }

  /** The errors for a configuration: a missing issuer, what the upstream validation found, and faults. */
  lemma ConfigurationReports(
      env: Env, config: AuthenticationConfiguration, upstream: Errors, e: FieldError)
    ensures e in ConfigurationErrors(env, config, upstream)
            <==> || (config.jwt == [] && e == FieldError(Required, [Child(Field.Jwt)]))
                 || e in upstream
                 || (&& [Child(Field.Jwt)] <= e.path
                     && IssuersFault(env, config.jwt, e.kind, Below([Child(Field.Jwt)], e.path)))
  {
    hide AuthenticatorRun, IssuersFault, Below;
    ConfigurationErrorsParts(env, config, upstream);
    AuthenticatorRunReports(env, config.jwt, e);
  }
}
