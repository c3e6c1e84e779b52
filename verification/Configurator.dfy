/**
 The configurator: it reads and validates the configuration file, builds the authenticator, and
 replaces the one in use, remembering the hash of the file that it came from.
 */
module Configurator {
  import opened Outcomes
  import opened ApiTypes
  import opened ClaimsResolver
  import opened Expanders
  import opened Validation

  // ----- building an authenticator -----

  /** What never changes: hashing, decoding, the Kubernetes validation, and the validator's needs. */
  datatype Platform = Platform(
    hash: string -> string,
    decode: string -> Option<AuthenticationConfiguration>,
    upstream: AuthenticationConfiguration -> Errors,
    env: Env)

  /** What building an authenticator may meet, which can differ from one moment to the next. */
  datatype Network = Network(
    appendsCerts: string -> bool,
    fetchesToken: ClientCredentialConfig -> bool,
    loadsIssuerCA: string -> bool,
    startsVerifier: JWTAuthenticator -> bool)

  datatype Member = Member(jwt: JWTAuthenticator, expanders: seq<Resolver>)

  /** The union of one authenticator for each configured issuer. */
  type Authenticator = seq<Member>

  datatype AuthenticatorError = BadIssuerCA | BadSource(error: BuildError) | NoVerifier

  function BuildEnvOf(p: Platform, net: Network): BuildEnv {
    BuildEnv(p.env.compiler, net.appendsCerts, net.fetchesToken)
  }

  /** The issuer's certificate authority first, then the expanders, then the OIDC verifier. */
  function MemberFor(p: Platform, net: Network, jwt: JWTAuthenticator)
    : Result<Member, AuthenticatorError>
  {
    if jwt.issuerCA != "" && !net.loadsIssuerCA(jwt.issuerCA) then Err(BadIssuerCA)
    else match ResolversFor(BuildEnvOf(p, net), jwt.externalClaimsSources)
      case Err(e) => Err(BadSource(e))
      case Ok(expanders) =>
        if net.startsVerifier(jwt) then Ok(Member(jwt, expanders)) else Err(NoVerifier)
  }

  function AuthenticatorFor(p: Platform, net: Network, jwts: seq<JWTAuthenticator>)
    : Result<Authenticator, AuthenticatorError>
  {
    if jwts == [] then Ok([])
    else match AuthenticatorFor(p, net, jwts[..|jwts| - 1])
      case Err(e) => Err(e)
      case Ok(before) =>
        match MemberFor(p, net, jwts[|jwts| - 1])
        case Err(e) => Err(e)
        case Ok(member) => Ok(before + [member])
  }

  lemma {:induction false} AuthenticatorStops(
      p: Platform, net: Network, jwts: seq<JWTAuthenticator>, i: nat)
    requires i <= |jwts| && AuthenticatorFor(p, net, jwts[..i]).Err?
    ensures AuthenticatorFor(p, net, jwts) == AuthenticatorFor(p, net, jwts[..i])
    decreases |jwts|
  {
    hide MemberFor;
    if i < |jwts| {
      assert jwts[..|jwts| - 1][..i] == jwts[..i];
      AuthenticatorStops(p, net, jwts[..|jwts| - 1], i);
    } else {
      assert jwts[..i] == jwts;
    }
  }

  method NewMember(p: Platform, net: Network, jwt: JWTAuthenticator)
    returns (result: Result<Member, AuthenticatorError>)
    ensures result == MemberFor(p, net, jwt)
  {
    if jwt.issuerCA != "" && !net.loadsIssuerCA(jwt.issuerCA) {
      return Err(BadIssuerCA);
    }
    var expanders := BuildExternalClaimsExpanders(BuildEnvOf(p, net), jwt.externalClaimsSources);
    if expanders.Err? {
      return Err(BadSource(expanders.error));
    }
    if !net.startsVerifier(jwt) {
      return Err(NoVerifier);
    }
    return Ok(Member(jwt, expanders.value));
  }

  method TokenAuthenticatorForAuthenticationConfiguration(
      p: Platform, net: Network, config: AuthenticationConfiguration)
    returns (result: Result<Authenticator, AuthenticatorError>)
    ensures result == AuthenticatorFor(p, net, config.jwt)
  {
    hide MemberFor;
    var jwtAuthenticators: Authenticator := [];
    for i := 0 to |config.jwt|
      invariant AuthenticatorFor(p, net, config.jwt[..i]) == Ok(jwtAuthenticators)
    {
      assert config.jwt[..i + 1][..i] == config.jwt[..i];
      var member := NewMember(p, net, config.jwt[i]);
      if member.Err? {
        AuthenticatorStops(p, net, config.jwt, i + 1);
        return Err(member.error);
      }
      jwtAuthenticators := jwtAuthenticators + [member.value];
    }
    assert config.jwt[..|config.jwt|] == config.jwt;
    return Ok(jwtAuthenticators);
  }

  // ----- one load -----

  /** An authenticator and the context that its cancel function ends. */
  datatype Instance = Instance(authenticator: Authenticator, ctx: nat)

  /** The configurator's state; contexts are numbered in the order of their creation. */
  datatype State = State(
    active: Option<Instance>, hash: string, created: nat, cancelled: set<nat>)

  const INITIAL := State(None, "", 0, {})

  /** One load: what reading the file gives, if it can be read, and the network at that time. */
  datatype Load = Load(file: Option<string>, net: Network)

  /** A readable file that decodes and validates, with its hash. */
  function Checked(p: Platform, configFile: string, file: Option<string>)
    : Option<(AuthenticationConfiguration, string)>
  {
    if configFile == "" || file.None? then None
    else match p.decode(file.value)
      case None => None
      case Some(config) =>
        if ConfigurationErrors(p.env, config, p.upstream(config)) != [] then None
        else Some((config, p.hash(file.value)))
  }

  /** A context that was created and whose cancel function has not been called. */
  predicate IsLive(s: State, ctx: nat) {
    ctx < s.created && ctx !in s.cancelled
  }

  /** A context is created and cancelled again. */
  function Discard(s: State): State {
    s.(created := s.created + 1, cancelled := s.cancelled + {s.created})
  }

  /** A context is created for the new authenticator, and the one of the old is cancelled. */
  function Install(s: State, authenticator: Authenticator, hash: string): State {
    var cancelled := if s.active.Some? then s.cancelled + {s.active.value.ctx} else s.cancelled;
    State(Some(Instance(authenticator, s.created)), hash, s.created + 1, cancelled)
  }

  /** The state after a load, and whether the load reports no error. */
  function Reload(p: Platform, configFile: string, s: State, load: Load): (State, bool) {
    match Checked(p, configFile, load.file)
    case None => (s, false)
    case Some((config, hash)) =>
      if s.hash != "" && hash == s.hash then (s, true)
      else match AuthenticatorFor(p, load.net, config.jwt)
        case Err(_) => (Discard(s), false)
        case Ok(authenticator) => (Install(s, authenticator, hash), true)
  }

  predicate Valid(p: Platform, configFile: string, load: Load) {
    Checked(p, configFile, load.file).Some?
  }

  /** What building gives for a load that validates. */
  function Build(p: Platform, configFile: string, load: Load): Result<Authenticator, AuthenticatorError>
    requires Valid(p, configFile, load)
  {
    AuthenticatorFor(p, load.net, Checked(p, configFile, load.file).value.0.jwt)
  }

  predicate Good(p: Platform, configFile: string, load: Load) {
    Valid(p, configFile, load) && Build(p, configFile, load).Ok?
  }

  lemma CheckedHash(p: Platform, configFile: string, file: Option<string>)
    ensures Checked(p, configFile, file).Some? ==>
              file.Some? && Checked(p, configFile, file).value.1 == p.hash(file.value)
  {
  }

  lemma FirstLoad(p: Platform, configFile: string, load: Load)
    ensures Reload(p, configFile, INITIAL, load).1 <==> Good(p, configFile, load)
  {
    hide Checked, AuthenticatorFor;
  }

  /** The state after a sequence of loads. */
  function After(p: Platform, configFile: string, loads: seq<Load>): State {
    if loads == [] then INITIAL
    else Reload(p, configFile, After(p, configFile, loads[..|loads| - 1]), loads[|loads| - 1]).0
  }

  // ----- the configurator object -----

  /** The cancellable contexts derived from the one the configurator runs in. */
  class ContextTable {
    var created: nat
    var cancelled: set<nat>

    constructor ()
      ensures created == 0 && cancelled == {}
    {
      created, cancelled := 0, {};
    }

    method WithCancel() returns (ctx: nat)
      modifies this
      ensures ctx == old(created) && created == old(created) + 1 && cancelled == old(cancelled)
    {
      ctx := created;
      created := created + 1;
    }

    method Cancel(ctx: nat)
      modifies this
      ensures cancelled == old(cancelled) + {ctx} && created == old(created)
    {
      cancelled := cancelled + {ctx};
    }
  }

  class Configurator {
    const configFile: string
    const contexts: ContextTable
    var authenticatorWithCancel: Option<Instance>
    var configHash: string

    ghost function Contents(): State
      reads this, contexts
    {
      State(authenticatorWithCancel, configHash, contexts.created, contexts.cancelled)
    }

    constructor (configFile: string)
      ensures this.configFile == configFile && fresh(contexts) && Contents() == INITIAL
    {
      this.configFile := configFile;
      contexts := new ContextTable();
      authenticatorWithCancel, configHash := None, "";
    }

    method TokenAuthenticator() returns (authenticator: Option<Authenticator>)
      ensures authenticator ==
              if Contents().active.None? then None else Some(Contents().active.value.authenticator)
    {
      if authenticatorWithCancel.None? {
        return None;
      }
      return Some(authenticatorWithCancel.value.authenticator);
    }

    method Validate(p: Platform, file: Option<string>)
      returns (result: Option<(AuthenticationConfiguration, string)>)
      ensures result == Checked(p, configFile, file)
    {
      if configFile == "" || file.None? {
        return None;
      }
      var decoded := p.decode(file.value);
      if decoded.None? {
        return None;
      }
      var errs := ValidateAuthenticationConfiguration(p.env, decoded.value, p.upstream(decoded.value));
      if errs != [] {
        return None;
      }
      return Some((decoded.value, p.hash(file.value)));
    }

    method HandleConfigChange(p: Platform, load: Load) returns (ok: bool)
      modifies this, contexts
      ensures (Contents(), ok) == Reload(p, configFile, old(Contents()), load)
    {
      hide Checked, AuthenticatorFor;
      var checked := Validate(p, load.file);
      if checked.None? {
        return false;
      }
      var (config, hash) := checked.value;
      if configHash != "" && hash == configHash {
        return true;
      }
      var ctx := contexts.WithCancel();
      var built := TokenAuthenticatorForAuthenticationConfiguration(p, load.net, config);
      if built.Err? {
        contexts.Cancel(ctx);
        return false;
      }
      if authenticatorWithCancel.Some? {
        contexts.Cancel(authenticatorWithCancel.value.ctx);
      }
      authenticatorWithCancel := Some(Instance(built.value, ctx));
      configHash := hash;
      return true;
    }

    /**
     Run loads once and gives up if that fails; otherwise the watch loads again on every event, the
     first of them at once, and only logs errors.
     */
    method Run(p: Platform, initial: Load, events: seq<Load>) returns (ok: bool)
      requires Contents() == INITIAL
      modifies this, contexts
      ensures ok <==> Good(p, configFile, initial)
      ensures Contents() == After(p, configFile, if ok then [initial] + events else [initial])
    {
      hide Reload, Good;
      FirstLoad(p, configFile, initial);
      OneLoad(p, configFile, initial);
      ok := HandleConfigChange(p, initial);
      if !ok {
        return;
      }
      ghost var loads := [initial] + events;
      for i := 0 to |events|
        invariant Contents() == After(p, configFile, loads[..i + 1])
      {
        assert loads[..i + 2][..i + 1] == loads[..i + 1];
        var _ := HandleConfigChange(p, events[i]);
      }
      assert loads[..|events| + 1] == loads;
    }
  }

  lemma OneLoad(p: Platform, configFile: string, load: Load)
    ensures After(p, configFile, [load]) == Reload(p, configFile, INITIAL, load).0
  {
    hide Reload;
    assert [load][..0] == [];
    assert After(p, configFile, []) == INITIAL;
  }
}
