/**
 Reloads and requests at the same time: any number of goroutines load the configuration or answer a
 token review, one small step at a time and in any order, with the configurator's mutex between them.
 */
module HotReload {
  import opened Outcomes
  import opened ApiTypes
  import opened Authenticate
  import opened Configurator

  /** What every run takes as given; an answer may depend on when the authenticator is asked. */
  datatype Site = Site(
    p: Platform,
    configFile: string,
    codec: Codec,
    authenticate: (Instance, string, nat) -> Outcome)

  const NOT_INITIALIZED := "jwt token authenticator is not initialized"

  /** AuthenticateToken of the JWT authenticator, with what it fetched from the configurator. */
  function AuthenticateToken(site: Site, found: Option<Instance>, token: string, now: nat): Outcome {
    match found
    case None => Outcome(None, false, Some(NOT_INITIALIZED))
    case Some(instance) => site.authenticate(instance, token, now)
  }

  // ----- states -----

  /** The mutex is free, or held by one reload or by one request. */
  datatype Holder = Free | ReloadHolds(t: nat) | RequestHolds(r: nat)

  /** Where a goroutine is in handleConfigChange. */
  datatype ReloadPhase =
    | Outside
    | Locked
    | Differs(file: Option<string>, config: AuthenticationConfiguration, hash: string)
    | Derived(file: Option<string>, config: AuthenticationConfiguration, hash: string, ctx: nat)
    | BuildFailed(load: Load, ctx: nat)
    | BuildDone(load: Load, authenticator: Authenticator, hash: string, ctx: nat)
    | OldCancelled(load: Load, authenticator: Authenticator, hash: string, ctx: nat)
    | Replaced(load: Load, hash: string)
    | Leaving(load: Load)

  /** Where a request is; times count the steps of the run. */
  datatype RequestPhase =
    | Absent
    | Arrived(token: string, began: nat)
    | Fetching(token: string, began: nat)
    | Fetched(token: string, began: nat, at: nat, found: Option<Instance>)
    | Released(token: string, began: nat, at: nat, found: Option<Instance>)
    | Answered(
        token: string, began: nat, at: nat, found: Option<Instance>, done: nat, status: Status,
        reply: Reply)
    | TurnedAway(began: nat, reply: Reply)

  datatype System = System(
    holder: Holder,
    shared: State,
    reloads: map<nat, ReloadPhase>,
    requests: map<nat, RequestPhase>,
    loads: seq<Load>,
    time: nat)

  const START := System(Free, INITIAL, map[], map[], [], 0)

  function ReloadAt(s: System, t: nat): ReloadPhase {
    if t in s.reloads then s.reloads[t] else Outside
  }

  function RequestAt(s: System, r: nat): RequestPhase {
    if r in s.requests then s.requests[r] else Absent
  }

  // ----- steps -----

  /** One step of one goroutine: a reload, with what it would read or meet now, or a request. */
  datatype Action =
    | ByReload(t: nat, load: Load)
    | ByClient(r: nat, request: HttpRequest)
    | ByServer(r: nat)

  function Into(s: System, t: nat, phase: ReloadPhase): System {
    s.(reloads := s.reloads[t := phase])
  }

  /** The next step of a reload; a goroutine that waits for the mutex stays where it is. */
  function ReloadStep(site: Site, s: System, t: nat, load: Load): System {
    match ReloadAt(s, t)
    case Outside => if s.holder == Free then Into(s, t, Locked).(holder := ReloadHolds(t)) else s
    case Locked =>
      (match Checked(site.p, site.configFile, load.file)
       case None => Into(s, t, Leaving(load))
       case Some((config, hash)) =>
         if s.shared.hash != "" && hash == s.shared.hash then Into(s, t, Leaving(load))
         else Into(s, t, Differs(load.file, config, hash)))
    case Differs(file, config, hash) =>
      Into(s, t, Derived(file, config, hash, s.shared.created))
      .(shared := s.shared.(created := s.shared.created + 1))
    case Derived(file, config, hash, ctx) =>
      var met := Load(file, load.net);
      (match AuthenticatorFor(site.p, load.net, config.jwt)
       case Err(_) => Into(s, t, BuildFailed(met, ctx))
       case Ok(authenticator) => Into(s, t, BuildDone(met, authenticator, hash, ctx)))
    case BuildFailed(met, ctx) =>
      Into(s, t, Leaving(met)).(shared := s.shared.(cancelled := s.shared.cancelled + {ctx}))
    case BuildDone(met, authenticator, hash, ctx) =>
      Into(s, t, OldCancelled(met, authenticator, hash, ctx)).(shared :=
        if s.shared.active.None? then s.shared
        else s.shared.(cancelled := s.shared.cancelled + {s.shared.active.value.ctx}))
    case OldCancelled(met, authenticator, hash, ctx) =>
      Into(s, t, Replaced(met, hash)).(shared := s.shared.(active := Some(Instance(authenticator, ctx))))
    case Replaced(met, hash) => Into(s, t, Leaving(met)).(shared := s.shared.(hash := hash))
    case Leaving(met) => Into(s, t, Outside).(holder := Free, loads := s.loads + [met])
  }

  function Becomes(s: System, r: nat, phase: RequestPhase): System {
    s.(requests := s.requests[r := phase])
  }

  function ArriveStep(site: Site, s: System, r: nat, request: HttpRequest): System {
    if RequestAt(s, r) != Absent then s
    else match TokenOf(site.codec, request)
      case Err(code) => Becomes(s, r, TurnedAway(s.time, Reply(code, None)))
      case Ok(token) => Becomes(s, r, Arrived(token, s.time))
  }

  function ServeStep(site: Site, s: System, r: nat): System {
    match RequestAt(s, r)
    case Arrived(token, began) =>
      if s.holder == Free then Becomes(s, r, Fetching(token, began)).(holder := RequestHolds(r)) else s
    case Fetching(token, began) => Becomes(s, r, Fetched(token, began, s.time, s.shared.active))
    case Fetched(token, began, at, found) =>
      Becomes(s, r, Released(token, began, at, found)).(holder := Free)
    case Released(token, began, at, found) =>
      var status := ReviewOf(AuthenticateToken(site, found, token, s.time));
      var reply := WriteReview(site.codec, status);
      Becomes(s, r, Answered(token, began, at, found, s.time, status, reply))
    case _ => s
  }

  function Perform(site: Site, s: System, a: Action): System {
    match a
    case ByReload(t, load) => ReloadStep(site, s, t, load)
    case ByClient(r, request) => ArriveStep(site, s, r, request)
    case ByServer(r) => ServeStep(site, s, r)
  }

  /** The system after a run: every sequence of steps is one, so these are all interleavings. */
  function Run(site: Site, actions: seq<Action>): System {
    if actions == [] then START
    else
      var n := |actions| - 1;
      Perform(site, Run(site, actions[..n]), actions[n]).(time := n + 1)
  }
}
