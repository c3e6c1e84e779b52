/**
 Where the answer to a token review comes from, in every interleaving of requests and reloads.
 */
module EndToEnd {
  import opened Outcomes
  import opened Authenticate
  import opened Cel
  import opened ClaimsResolver
  import opened ClaimsChain
  import opened ValidatedChain
  import opened ValidationProperties
  import opened Configurator
  import opened ConfiguratorProperties
  import opened HotReload
  import opened HotReloadProperties

  // ----- what a request knows -----

  /** This was the active authenticator at that time, with no reload under way. */
  ghost predicate WasActive(site: Site, actions: seq<Action>, at: nat, found: Option<Instance>) {
    && at <= |actions|
    && !Reloading(Run(site, actions[..at]))
    && found == Run(site, actions[..at]).shared.active
  }

  /** The request arrived at that time, and asks about this token. */
  ghost predicate Came(site: Site, actions: seq<Action>, r: nat, began: nat, token: string) {
    && began < |actions|
    && actions[began].ByClient? && actions[began].r == r
    && Asks(site.codec, actions[began].request, token)
  }

  /** The request arrived at that time and is no review request, which the reply says. */
  ghost predicate Refused(site: Site, actions: seq<Action>, r: nat, began: nat, reply: Reply) {
    && began < |actions|
    && actions[began].ByClient? && actions[began].r == r
    && (forall token :: !Asks(site.codec, actions[began].request, token))
    && reply == Reply(if actions[began].request.verb != "POST" then 405 else 500, None)
  }

  /** What a request holds is what was active when it looked, between its arrival and its answer. */
  ghost predicate Sound(site: Site, actions: seq<Action>, r: nat, phase: RequestPhase) {
    match phase
    case Absent => true
    case TurnedAway(began, reply) => Refused(site, actions, r, began, reply)
    case Arrived(token, began) => Came(site, actions, r, began, token)
    case Fetching(token, began) => Came(site, actions, r, began, token)
    case Fetched(token, began, at, found) =>
      began < at < |actions| && Came(site, actions, r, began, token) && WasActive(site, actions, at, found)
    case Released(token, began, at, found) =>
      began < at < |actions| && Came(site, actions, r, began, token) && WasActive(site, actions, at, found)
    case Answered(token, began, at, found, done, status, reply) =>
      && began < at < done < |actions|
      && Came(site, actions, r, began, token)
      && WasActive(site, actions, at, found)
      && status == ReviewOf(AuthenticateToken(site, found, token, done))
      && Carries(site.codec, reply, status)
  }

  lemma WasActiveGrows(site: Site, actions: seq<Action>, at: nat, found: Option<Instance>)
    requires actions != [] && WasActive(site, actions[..|actions| - 1], at, found)
    ensures WasActive(site, actions, at, found)
  {
    hide Run;
    assert actions[..|actions| - 1][..at] == actions[..at];
  }

  lemma SoundGrows(site: Site, actions: seq<Action>, r: nat, phase: RequestPhase)
    requires actions != [] && Sound(site, actions[..|actions| - 1], r, phase)
    ensures Sound(site, actions, r, phase)
  {
    hide WasActive, ReviewOf, AuthenticateToken, Asks, Carries;
    match phase {
      case Fetched(_, _, at, found) => WasActiveGrows(site, actions, at, found);
      case Released(_, _, at, found) => WasActiveGrows(site, actions, at, found);
      case Answered(_, _, at, found, _, _, _) => WasActiveGrows(site, actions, at, found);
      case _ =>
    }
  }

  lemma ReloadLeavesRequests(site: Site, s: System, t: nat, load: Load, r: nat)
    ensures RequestAt(ReloadStep(site, s, t, load), r) == RequestAt(s, r)
  {
    hide Checked, AuthenticatorFor;
  }

  /** The step of a request is sound if the request was. */
  lemma ServeSound(site: Site, actions: seq<Action>, a: Action, s: System, r: nat, q: nat)
    requires s == Run(site, actions) && s.time == |actions| && Exclusive(s)
    requires Sound(site, actions, r, RequestAt(s, r)) && Sound(site, actions + [a], r, RequestAt(s, r))
    ensures Sound(site, actions + [a], r, RequestAt(ServeStep(site, s, q), r))
  {
    hide Run, ReviewOf, AuthenticateToken, Came, Refused, Carries, WriteReview;
    assert (actions + [a])[..|actions|] == actions;
    ArrivedEarlier(site, actions, s, r);
  }

  lemma ArrivedEarlier(site: Site, actions: seq<Action>, s: System, r: nat)
    requires Sound(site, actions, r, RequestAt(s, r))
    ensures RequestAt(s, r).Arrived? || RequestAt(s, r).Fetching? ==> RequestAt(s, r).began < |actions|
  {
    hide Asks;
  }

  lemma ArriveSound(
      site: Site, actions: seq<Action>, s: System, r: nat, q: nat, request: HttpRequest)
    requires s.time < |actions| && actions[s.time] == ByClient(q, request)
    requires Sound(site, actions, r, RequestAt(s, r))
    ensures Sound(site, actions, r, RequestAt(ArriveStep(site, s, q, request), r))
  {
    hide WasActive, ReviewOf, AuthenticateToken, TokenOf, Asks;
  }

  lemma {:induction false} RequestsSound(site: Site, actions: seq<Action>, r: nat)
    ensures Sound(site, actions, r, RequestAt(Run(site, actions), r))
  {
    hide *;
    RunUnfold(site, actions);
    if actions == [] {
      NobodyAtStart(site, r);
    } else {
      var n := |actions| - 1;
      var s := Run(site, actions[..n]);
      RequestsSound(site, actions[..n], r);
      RunUnfold(site, actions[..n]);
      EveryRun(site, actions[..n]);
      PerformSound(site, actions[..n], s, actions[n], r);
      assert actions[..n] + [actions[n]] == actions;
    }
  }

  lemma NobodyAtStart(site: Site, r: nat)
    ensures Sound(site, [], r, RequestAt(START, r))
  {
  }

  lemma PerformSound(site: Site, actions: seq<Action>, s: System, a: Action, r: nat)
    requires s == Run(site, actions) && s.time == |actions| && Exclusive(s)
    requires Sound(site, actions, r, RequestAt(s, r))
    ensures forall time ::
              Sound(site, actions + [a], r, RequestAt(Perform(site, s, a).(time := time), r))
  {
    hide Sound, Run, Exclusive, ServeStep, ArriveStep, ReloadStep;
    assert (actions + [a])[..|actions|] == actions;
    SoundGrows(site, actions + [a], r, RequestAt(s, r));
    match a {
      case ByReload(t, load) => ReloadLeavesRequests(site, s, t, load, r);
      case ByClient(q, request) => ArriveSound(site, actions + [a], s, r, q, request);
      case ByServer(q) => ServeSound(site, actions, a, s, r, q);
    }
  }

  // ----- the answers -----

  /**
   One version per answer: the reply carries the review of what one authenticator said about the token of
   the request, or of "not initialized" if the request found none. So it says authenticated exactly if that
   authenticator vouched for a user, and names exactly that user. The authenticator was the active one at
   some moment during the request, its context was alive then, and it came from a validated configuration.
   */
  lemma SingleVersion(site: Site, actions: seq<Action>, r: nat)
    requires NonEmptyHash(site.p)
    requires RequestAt(Run(site, actions), r).Answered?
    ensures var a := RequestAt(Run(site, actions), r);
            a.began < a.at < a.done < |actions| && Came(site, actions, r, a.began, a.token)
    ensures var a := RequestAt(Run(site, actions), r);
            && Carries(site.codec, a.reply, a.status)
            && (a.found.Some? ==> Reviews(a.status, site.authenticate(a.found.value, a.token, a.done)))
            && (a.found.None? ==>
                  a.status == Status(
                    false, UserInfo("", "", [], map[]), [], "jwt token authenticator is not initialized"))
    ensures var a := RequestAt(Run(site, actions), r);
            var seen := Run(site, actions[..a.at]).shared;
            && a.found == seen.active
            && (a.found.Some? ==>
                  IsLive(seen, a.found.value.ctx) && IsValidated(site.p, a.found.value.authenticator))
  {
    hide Run, IsValidated, Exclusive, Refines, IsLive, Came, Carries, Reviews, NonEmptyHash;
    RequestsSound(site, actions, r);
    var a := RequestAt(Run(site, actions), r);
    NotInitializedReview();
    ContextsEverywhere(site, actions[..a.at]);
    ActiveEverywhere(site, actions[..a.at]);
  }

  lemma NotInitializedReview()
    ensures ReviewOf(Outcome(None, false, Some(NOT_INITIALIZED)))
            == Status(false, UserInfo("", "", [], map[]), [], "jwt token authenticator is not initialized")
  {
  }

  /** A request that is turned away is no review request, and its reply says which kind of other. */
  lemma TurnedAwayExactly(site: Site, actions: seq<Action>, r: nat)
    requires RequestAt(Run(site, actions), r).TurnedAway?
    ensures var a := RequestAt(Run(site, actions), r);
            Refused(site, actions, r, a.began, a.reply)
  {
    hide Run, Refused;
    RequestsSound(site, actions, r);
  }

  lemma ActiveStaysOneStep(site: Site, s: System, a: Action)
    requires s.shared.active.Some?
    ensures Perform(site, s, a).shared.active.Some?
  {
    hide Checked, AuthenticatorFor, TokenOf, ReviewOf, AuthenticateToken;
  }

  /** Once there is an active authenticator there always is one. */
  lemma {:induction false} ActiveStays(site: Site, actions: seq<Action>, k: nat)
    requires k <= |actions| && Run(site, actions[..k]).shared.active.Some?
    ensures Run(site, actions).shared.active.Some?
    decreases |actions|
  {
    hide *;
    if k == |actions| {
      assert actions[..k] == actions;
    } else {
      var n := |actions| - 1;
      assert actions[..n][..k] == actions[..k];
      ActiveStays(site, actions[..n], k);
      RunUnfold(site, actions);
      ActiveStaysOneStep(site, Run(site, actions[..n]), actions[n]);
    }
  }

  /** Until a load has succeeded every well-formed POST is answered unauthenticated. */
  lemma UnauthenticatedBeforeFirstLoad(site: Site, actions: seq<Action>, r: nat)
    requires RequestAt(Run(site, actions), r).Answered? && Run(site, actions).shared.active.None?
    ensures RequestAt(Run(site, actions), r).status
            == Status(false, UserInfo("", "", [], map[]), [], NOT_INITIALIZED)
  {
    hide Run;
    RequestsSound(site, actions, r);
    var a := RequestAt(Run(site, actions), r);
    if Run(site, actions[..a.at]).shared.active.Some? {
      ActiveStays(site, actions, a.at);
    }
  }

  /** A request that arrives after the first successful load is answered by an authenticator. */
  lemma InitializedAfterFirstLoad(site: Site, actions: seq<Action>, r: nat)
    requires RequestAt(Run(site, actions), r).Answered?
    ensures var a := RequestAt(Run(site, actions), r);
            a.began <= |actions| && (Run(site, actions[..a.began]).shared.active.Some? ==>
              a.found.Some?
              && a.status == ReviewOf(site.authenticate(a.found.value, a.token, a.done)))
  {
    hide Run, ReviewOf;
    RequestsSound(site, actions, r);
    var a := RequestAt(Run(site, actions), r);
    if Run(site, actions[..a.began]).shared.active.Some? {
      assert actions[..a.at][..a.began] == actions[..a.began];
      ActiveStays(site, actions[..a.at], a.began);
    }
  }

  /**
   "Not initialized" exactly: a request found no authenticator if and only if none of the loads that were
   finished when it looked was good.
   */
  lemma NotInitializedExactly(site: Site, actions: seq<Action>, r: nat)
    requires NonEmptyHash(site.p) && RequestAt(Run(site, actions), r).Answered?
    ensures var a := RequestAt(Run(site, actions), r);
            a.at <= |actions|
            && var loads := Run(site, actions[..a.at]).loads;
               (a.found.None? <==>
                forall i | 0 <= i < |loads| :: !Good(site.p, site.configFile, loads[i]))
    ensures var a := RequestAt(Run(site, actions), r);
            a.found.None? ==> a.status == Status(false, UserInfo("", "", [], map[]), [], NOT_INITIALIZED)
  {
    hide Run, Good, NonEmptyHash, IsValidated;
    RequestsSound(site, actions, r);
    var s := Run(site, actions[..RequestAt(Run(site, actions), r).at]);
    ActiveEverywhere(site, actions[..RequestAt(Run(site, actions), r).at]);
    assert Reflected(s) == s.loads;
  }

  // ----- versions only go forward -----

  /** The second is the first, or was created later. */
  ghost predicate NotOlder(older: Option<Instance>, newer: Option<Instance>) {
    older.Some? ==>
      newer.Some? && (newer == older || older.value.ctx < newer.value.ctx)
  }

  lemma {:induction false} ActiveIsCreated(p: Platform, configFile: string, loads: seq<Load>)
    ensures var s := After(p, configFile, loads);
            s.active.Some? ==> s.active.value.ctx < s.created
  {
    if loads != [] {
      hide Checked, AuthenticatorFor, After;
      AfterUnfold(p, configFile, loads);
      ActiveIsCreated(p, configFile, loads[..|loads| - 1]);
    }
  }

  lemma ReloadForward(site: Site, s: System, t: nat, load: Load)
    requires Exclusive(s) && Refines(site, s)
    ensures NotOlder(s.shared.active, ReloadStep(site, s, t, load).shared.active)
  {
    ActiveIsCreated(site.p, site.configFile, s.loads);
    hide Checked, AuthenticatorFor, After, Loaded, IsNew, Discard;
  }

  lemma StepForward(site: Site, s: System, a: Action)
    requires Exclusive(s) && Refines(site, s)
    ensures NotOlder(s.shared.active, Perform(site, s, a).shared.active)
  {
    hide Exclusive, Refines, ReloadStep, TokenOf, ReviewOf, AuthenticateToken;
    if a.ByReload? {
      ReloadForward(site, s, a.t, a.load);
    }
  }

  lemma {:induction false} ActiveForward(site: Site, actions: seq<Action>, k: nat)
    requires k <= |actions|
    ensures NotOlder(Run(site, actions[..k]).shared.active, Run(site, actions).shared.active)
    decreases |actions|
  {
    hide *;
    hide NotOlder;
    if k == |actions| {
      assert actions[..k] == actions;
      NotOlderThanItself(Run(site, actions).shared.active);
    } else {
      var n := |actions| - 1;
      assert actions[..n][..k] == actions[..k];
      ActiveForward(site, actions[..n], k);
      EveryRun(site, actions[..n]);
      StepForward(site, Run(site, actions[..n]), actions[n]);
      RunUnfold(site, actions);
      NotOlderChain(
        Run(site, actions[..k]).shared.active, Run(site, actions[..n]).shared.active,
        Run(site, actions).shared.active);
    }
  }

  lemma NotOlderThanItself(x: Option<Instance>)
    ensures NotOlder(x, x)
  {
  }

  lemma NotOlderChain(x: Option<Instance>, y: Option<Instance>, z: Option<Instance>)
    requires NotOlder(x, y) && NotOlder(y, z)
    ensures NotOlder(x, z)
  {
  }

  /**
   No request goes back to an older version: of two requests, one of which was answered before the other
   arrived, the later one found the same authenticator or one that was installed later.
   */
  lemma VersionsGoForward(site: Site, actions: seq<Action>, r: nat, q: nat)
    requires RequestAt(Run(site, actions), r).Answered? && RequestAt(Run(site, actions), q).Answered?
    requires RequestAt(Run(site, actions), r).done <= RequestAt(Run(site, actions), q).began
    ensures NotOlder(RequestAt(Run(site, actions), r).found, RequestAt(Run(site, actions), q).found)
  {
    hide Run, NotOlder;
    RequestsSound(site, actions, r);
    RequestsSound(site, actions, q);
    var earlier, later := RequestAt(Run(site, actions), r), RequestAt(Run(site, actions), q);
    assert actions[..later.at][..earlier.at] == actions[..earlier.at];
    ActiveForward(site, actions[..later.at], earlier.at);
  }

  // ----- the sources of whatever is active -----

  /**
   Whatever is loaded and when, expansion by the active authenticator keeps to the limits: its sources
   write disjoint claims, their URLs always parse, and one expansion sends at most five requests, which
   take 2500 ms at most if each honours its timeout.
   */
  lemma ActiveSources(site: Site, actions: seq<Action>, i: nat, steps: seq<Step>, c: Claims)
    requires Run(site, actions).shared.active.Some?
    requires i < |Run(site, actions).shared.active.value.authenticator|
    requires Runs(steps, Run(site, actions).shared.active.value.authenticator[i].expanders)
    ensures DisjointNames(steps) && forall s | s in steps :: IsSound(s.resolver)
    ensures |EffectsOfAll(steps, c)| <= 5
    ensures (forall s | s in steps :: HonoursTimeout(s, s.resolver.client.timeoutMillis)) ==>
              TotalMillis(EffectsOfAll(steps, c)) <= 2500
  {
    ActiveEverywhere(site, actions);
    var m := Run(site, actions).shared.active.value.authenticator[i];
    assert IsValidatedMember(site.p, m);
    var net: Network :| Built(
      site.p.env, BuildEnvOf(site.p, net), m.jwt.externalClaimsSources, m.expanders, SourcesPath(0));
    MemberSources(site.p, net, m, steps, c);
  }

  lemma MemberSources(p: Platform, net: Network, m: Member, steps: seq<Step>, c: Claims)
    requires Built(p.env, BuildEnvOf(p, net), m.jwt.externalClaimsSources, m.expanders, SourcesPath(0))
    requires Runs(steps, m.expanders)
    ensures DisjointNames(steps) && forall s | s in steps :: IsSound(s.resolver)
    ensures |EffectsOfAll(steps, c)| <= 5
    ensures (forall s | s in steps :: HonoursTimeout(s, s.resolver.client.timeoutMillis)) ==>
              TotalMillis(EffectsOfAll(steps, c)) <= 2500
  {
    hide Built, EffectsOfAll, TotalMillis, DisjointNames, IsSound, HonoursTimeout;
    var b, ss := BuildEnvOf(p, net), m.jwt.externalClaimsSources;
    BuiltResolvers(p.env, b, ss, m.expanders, SourcesPath(0));
    RequestCount(steps, c);
    if forall s | s in steps :: HonoursTimeout(s, s.resolver.client.timeoutMillis) {
      ValidatedBudget(p.env, b, ss, m.expanders, SourcesPath(0), steps, c);
    }
  }

  // ----- a late "not initialized" -----

  function Times(a: Action, n: nat): (actions: seq<Action>)
    ensures |actions| == n
  {
    if n == 0 then [] else Times(a, n - 1) + [a]
  }

  /** The state after the next n steps of the same goroutine. */
  function Follow(site: Site, s: System, a: Action, n: nat): System {
    if n == 0 then s else
      var before := Follow(site, s, a, n - 1);
      Perform(site, before, a).(time := before.time + 1)
  }

  lemma TimesUnfold(site: Site, s: System, a: Action, n: nat)
    ensures Times(a, 0) == [] && Follow(site, s, a, 0) == s
    ensures n > 0 ==> Times(a, n) == Times(a, n - 1) + [a]
    ensures n > 0 ==>
              var before := Follow(site, s, a, n - 1);
              Follow(site, s, a, n) == Perform(site, before, a).(time := before.time + 1)
  {
    hide Perform;
  }

  lemma {:induction false} RunTimes(site: Site, actions: seq<Action>, a: Action, n: nat)
    ensures Run(site, actions + Times(a, n)) == Follow(site, Run(site, actions), a, n)
  {
    hide *;
    TimesUnfold(site, Run(site, actions), a, n);
    if n == 0 {
      assert actions + Times(a, n) == actions;
    } else {
      var shorter := actions + Times(a, n - 1);
      RunTimes(site, actions, a, n - 1);
      RunUnfold(site, shorter);
      RunUnfold(site, actions + Times(a, n));
      assert (actions + Times(a, n))[..|shorter|] == shorter;
    }
  }

  lemma RunAppend(site: Site, actions: seq<Action>, a: Action)
    ensures var s := Run(site, actions);
            Run(site, actions + [a]) == Perform(site, s, a).(time := s.time + 1) && s.time == |actions|
  {
    hide *;
    var more := actions + [a];
    assert more[..|actions|] == actions;
    RunUnfold(site, actions);
    RunUnfold(site, more);
  }

  lemma FetchSteps(site: Site, s: System, token: string, r: nat, began: nat)
    requires s.holder == Free && RequestAt(s, r) == Arrived(token, began)
    ensures var s' := Follow(site, s, ByServer(r), 3);
            && RequestAt(s', r) == Released(token, began, s.time + 1, s.shared.active)
            && s'.holder == Free && s'.shared == s.shared && s'.reloads == s.reloads
  {
    hide Follow, ReloadStep, ArriveStep, AuthenticateToken, ReviewOf;
    TimesUnfold(site, s, ByServer(r), 1);
    TimesUnfold(site, s, ByServer(r), 2);
    TimesUnfold(site, s, ByServer(r), 3);
  }

  lemma ArriveAlone(site: Site, actions: seq<Action>, request: HttpRequest, r: nat)
    requires TokenOf(site.codec, request).Ok? && RequestAt(Run(site, actions), r) == Absent
    ensures var s, s' := Run(site, actions), Run(site, actions + [ByClient(r, request)]);
            && RequestAt(s', r) == Arrived(TokenOf(site.codec, request).value, |actions|)
            && s'.holder == s.holder && s'.shared == s.shared && s'.reloads == s.reloads
            && s'.time == |actions| + 1
  {
    hide TokenOf, Run, ReloadStep, ServeStep;
    RunAppend(site, actions, ByClient(r, request));
  }

  /** A request that nothing interrupts before its answer has found what was active. */
  lemma FetchAlone(site: Site, actions: seq<Action>, request: HttpRequest, r: nat)
    requires TokenOf(site.codec, request).Ok?
    requires Run(site, actions).holder == Free && RequestAt(Run(site, actions), r) == Absent
    ensures var s, n := Run(site, actions), |actions|;
            var s' := Run(site, actions + [ByClient(r, request)] + Times(ByServer(r), 3));
            && RequestAt(s', r) == Released(TokenOf(site.codec, request).value, n, n + 2, s.shared.active)
            && s'.holder == Free && s'.shared == s.shared && s'.reloads == s.reloads
  {
    hide *;
    var arrived := actions + [ByClient(r, request)];
    ArriveAlone(site, actions, request, r);
    FetchSteps(site, Run(site, arrived), TokenOf(site.codec, request).value, r, |actions|);
    RunTimes(site, arrived, ByServer(r), 3);
  }

  lemma {:induction false} FollowTwice(site: Site, s: System, a: Action, m: nat, n: nat)
    ensures Follow(site, s, a, m + n) == Follow(site, Follow(site, s, a, m), a, n)
  {
    hide *;
    TimesUnfold(site, s, a, m + n);
    TimesUnfold(site, Follow(site, s, a, m), a, n);
    if n > 0 {
      FollowTwice(site, s, a, m, n - 1);
      assert m + n - 1 == m + (n - 1);
    }
  }

  /** The file of the load is not the one remembered. */
  predicate IsNewFile(site: Site, base: State, load: Load) {
    load.file.Some? && !(base.hash != "" && site.p.hash(load.file.value) == base.hash)
  }

  lemma CheckSteps(site: Site, s: System, load: Load, t: nat)
    requires Good(site.p, site.configFile, load) && IsNewFile(site, s.shared, load)
    requires s.holder == Free && ReloadAt(s, t) == Outside
    ensures var s', (config, hash) :=
              Follow(site, s, ByReload(t, load), 2), Checked(site.p, site.configFile, load.file).value;
            && ReloadAt(s', t) == Differs(load.file, config, hash) && s'.holder == ReloadHolds(t)
            && s'.shared == s.shared && s'.requests == s.requests
  {
    CheckedHash(site.p, site.configFile, load.file);
    hide Follow, Checked, AuthenticatorFor, ArriveStep, ServeStep;
    TimesUnfold(site, s, ByReload(t, load), 1);
    TimesUnfold(site, s, ByReload(t, load), 2);
  }

  lemma ConstructSteps(site: Site, s: System, load: Load, t: nat)
    requires Good(site.p, site.configFile, load) && s.holder == ReloadHolds(t)
    requires var (config, hash) := Checked(site.p, site.configFile, load.file).value;
             ReloadAt(s, t) == Differs(load.file, config, hash)
    ensures var s', hash :=
              Follow(site, s, ByReload(t, load), 2), Checked(site.p, site.configFile, load.file).value.1;
            && ReloadAt(s', t)
               == BuildDone(load, Build(site.p, site.configFile, load).value, hash, s.shared.created)
            && s'.shared == Opened(s.shared) && s'.holder == s.holder && s'.requests == s.requests
  {
    hide Follow, Checked, AuthenticatorFor, ArriveStep, ServeStep;
    TimesUnfold(site, s, ByReload(t, load), 1);
    TimesUnfold(site, s, ByReload(t, load), 2);
  }

  lemma BuiltIsMidway(site: Site, base: State, load: Load)
    requires Good(site.p, site.configFile, load) && IsNewFile(site, base, load)
    ensures Checked(site.p, site.configFile, load.file).Some?
    ensures var hash := Checked(site.p, site.configFile, load.file).value.1;
            Midway(site, base, Opened(base), BuildDone(
              load, Build(site.p, site.configFile, load).value, hash, base.created))
  {
    CheckedHash(site.p, site.configFile, load.file);
    hide Checked, AuthenticatorFor, Install;
  }

  lemma BuildSteps(site: Site, s: System, load: Load, t: nat)
    requires Good(site.p, site.configFile, load) && IsNewFile(site, s.shared, load)
    requires s.holder == Free && ReloadAt(s, t) == Outside
    ensures var s' := Follow(site, s, ByReload(t, load), 4);
            && ReloadAt(s', t).BuildDone? && s'.holder == ReloadHolds(t)
            && Midway(site, s.shared, s'.shared, ReloadAt(s', t))
            && ReloadAt(s', t).load == load && s'.requests == s.requests
  {
    hide *;
    BuiltIsMidway(site, s.shared, load);
    CheckSteps(site, s, load, t);
    ConstructSteps(site, Follow(site, s, ByReload(t, load), 2), load, t);
    FollowTwice(site, s, ByReload(t, load), 2, 2);
  }

  lemma InstallSteps(site: Site, base: State, s: System, load: Load, t: nat)
    requires s.holder == ReloadHolds(t) && ReloadAt(s, t).BuildDone? && ReloadAt(s, t).load == load
    requires Midway(site, base, s.shared, ReloadAt(s, t))
    ensures var s' := Follow(site, s, ByReload(t, load), 4);
            && s'.shared == Loaded(site, base, load)
            && s'.shared.active.Some? && s'.shared.active.value.ctx == base.created
            && s'.shared.created == base.created + 1
            && s'.holder == Free && s'.requests == s.requests && ReloadAt(s', t) == Outside
  {
    hide Follow, Loaded, ArriveStep, ServeStep, Checked, AuthenticatorFor;
    var a := ByReload(t, load);
    TimesUnfold(site, s, a, 1);
    TimesUnfold(site, s, a, 2);
    TimesUnfold(site, s, a, 3);
    TimesUnfold(site, s, a, 4);
  }

  lemma LoadSteps(site: Site, s: System, load: Load, t: nat)
    requires Good(site.p, site.configFile, load) && IsNewFile(site, s.shared, load)
    requires s.holder == Free && ReloadAt(s, t) == Outside
    ensures var base, s' := s.shared, Follow(site, s, ByReload(t, load), 8);
            && s'.shared == Loaded(site, base, load)
            && s'.shared.active.Some? && s'.shared.active.value.ctx == base.created
            && s'.shared.created == base.created + 1
            && s'.holder == Free && s'.requests == s.requests && ReloadAt(s', t) == Outside
  {
    hide *;
    BuildSteps(site, s, load, t);
    InstallSteps(site, s.shared, Follow(site, s, ByReload(t, load), 4), load, t);
    FollowTwice(site, s, ByReload(t, load), 4, 4);
  }

  /** A good load of a new file that nothing interrupts installs its authenticator in eight steps. */
  lemma LoadAlone(site: Site, actions: seq<Action>, load: Load, t: nat)
    requires Good(site.p, site.configFile, load) && IsNewFile(site, Run(site, actions).shared, load)
    requires Run(site, actions).holder == Free && ReloadAt(Run(site, actions), t) == Outside
    ensures var base, s := Run(site, actions).shared, Run(site, actions + Times(ByReload(t, load), 8));
            && s.shared == Loaded(site, base, load)
            && s.shared.active.Some? && s.shared.active.value.ctx == base.created
            && s.shared.created == base.created + 1
            && s.holder == Free && s.requests == Run(site, actions).requests && ReloadAt(s, t) == Outside
  {
    hide *;
    LoadSteps(site, Run(site, actions), load, t);
    RunTimes(site, actions, ByReload(t, load), 8);
  }

  lemma AnswerAlone(
      site: Site, actions: seq<Action>, r: nat, token: string, began: nat, at: nat, found: Option<Instance>)
    requires RequestAt(Run(site, actions), r) == Released(token, began, at, found)
    ensures var s, n := Run(site, actions + [ByServer(r)]), |actions|;
            var status := ReviewOf(AuthenticateToken(site, found, token, n));
            RequestAt(s, r) == Answered(
              token, began, at, found, n, status, WriteReview(site.codec, status))
  {
    hide Run, ReloadStep, ArriveStep, ReviewOf, AuthenticateToken;
    RunAppend(site, actions, ByServer(r));
  }

  lemma GoodIsNew(site: Site, load: Load)
    requires Good(site.p, site.configFile, load)
    ensures IsNewFile(site, INITIAL, load)
  {
    CheckedHash(site.p, site.configFile, load.file);
  }

  /**
   "Not initialized" can still be the answer after a successful load: a request that looked before the
   load and answers after it. InitializedAfterFirstLoad is therefore about requests that arrive after it.
   */
  lemma LateNotInitialized(site: Site, request: HttpRequest, load: Load) returns (actions: seq<Action>)
    requires TokenOf(site.codec, request).Ok? && Good(site.p, site.configFile, load)
    ensures Run(site, actions).shared.active.Some?
    ensures RequestAt(Run(site, actions), 0).Released?
    ensures var a := RequestAt(Run(site, actions + [ByServer(0)]), 0);
            a.Answered? && a.status == Status(false, UserInfo("", "", [], map[]), [], NOT_INITIALIZED)
  {
    hide Run, Times, Good, TokenOf, Perform, Loaded, IsNewFile;
    RunUnfold(site, []);
    GoodIsNew(site, load);
    FetchAlone(site, [], request, 0);
    var fetched := [] + [ByClient(0, request)] + Times(ByServer(0), 3);
    LoadAlone(site, fetched, load, 0);
    actions := fetched + Times(ByReload(0, load), 8);
    assert RequestAt(Run(site, actions), 0) == RequestAt(Run(site, fetched), 0);
    AnswerAlone(site, actions, 0, TokenOf(site.codec, request).value, 0, 2, None);
  }

  // ----- an authenticator that outlives its context -----

  lemma PendingIsNew(site: Site, s: System)
    requires Refines(site, s) && PendingContext(s).Some? && s.shared.active.Some?
    ensures s.shared.active.value.ctx < PendingContext(s).value
  {
    ActiveIsCreated(site.p, site.configFile, s.loads);
    hide Midway, After;
    MidwayShape(site, After(site.p, site.configFile, s.loads), s.shared, ReloadAt(s, s.holder.t));
  }

  lemma ReplacedIsDead(site: Site, s: System)
    requires Refines(site, s) && AboutToReplace(s) && s.shared.active.Some?
    ensures !IsLive(s.shared, s.shared.active.value.ctx)
  {
    hide Midway, After;
    MidwayShape(site, After(site.p, site.configFile, s.loads), s.shared, ReloadAt(s, s.holder.t));
  }

  /**
   Exactly when an authenticator is still alive as it answers: if it is still the active one and is not
   just being replaced.
   */
  lemma AliveWhenAnswering(site: Site, actions: seq<Action>, r: nat)
    requires NonEmptyHash(site.p)
    requires RequestAt(Run(site, actions), r).Answered? && RequestAt(Run(site, actions), r).found.Some?
    ensures var a := RequestAt(Run(site, actions), r);
            a.done <= |actions|
            && var s := Run(site, actions[..a.done]);
               (IsLive(s.shared, a.found.value.ctx) <==> s.shared.active == a.found && !AboutToReplace(s))
  {
    hide Run, Exclusive, Refines, IsLive, AboutToReplace, PendingContext, NonEmptyHash;
    RequestsSound(site, actions, r);
    var a := RequestAt(Run(site, actions), r);
    var before := actions[..a.done];
    var s := Run(site, before);
    assert before[..a.at] == actions[..a.at];
    ActiveForward(site, before, a.at);
    EveryRun(site, before);
    ContextsEverywhere(site, before);
    if PendingContext(s).Some? {
      PendingIsNew(site, s);
    }
    if AboutToReplace(s) {
      ReplacedIsDead(site, s);
    }
  }

  /**
   It need not be: a request that fetched the authenticator of one file, while another file is loaded
   before it answers, is answered by an authenticator whose context is cancelled.
   */
  lemma CancelledWhenAnswering(site: Site, request: HttpRequest, first: Load, second: Load)
    returns (actions: seq<Action>)
    requires NonEmptyHash(site.p) && TokenOf(site.codec, request).Ok?
    requires Good(site.p, site.configFile, first) && Good(site.p, site.configFile, second)
    requires first.file.Some? && second.file.Some?
    requires site.p.hash(first.file.value) != site.p.hash(second.file.value)
    ensures var a := RequestAt(Run(site, actions + [ByServer(0)]), 0);
            && a.Answered? && a.found.Some? && a.done == |actions|
            && a.status == ReviewOf(site.authenticate(a.found.value, a.token, a.done))
            && !IsLive(Run(site, actions).shared, a.found.value.ctx)
  {
    hide Run, Times, Good, TokenOf, Perform, IsLive, NonEmptyHash, ReviewOf;
    RunUnfold(site, []);
    GoodIsNew(site, first);
    var loaded := [] + Times(ByReload(0, first), 8);
    LoadAlone(site, [], first, 0);
    var found := Run(site, loaded).shared.active;
    var fetched := loaded + [ByClient(0, request)] + Times(ByServer(0), 3);
    FetchAlone(site, loaded, request, 0);
    LoadedHash(site, INITIAL, first);
    actions := fetched + Times(ByReload(0, second), 8);
    LoadAlone(site, fetched, second, 0);
    assert RequestAt(Run(site, actions), 0) == RequestAt(Run(site, fetched), 0);
    AnswerAlone(
      site, actions, 0, TokenOf(site.codec, request).value, |loaded|, |loaded| + 2, found);
    AliveWhenAnswering(site, actions + [ByServer(0)], 0);
    assert (actions + [ByServer(0)])[..|actions|] == actions;
  }

  lemma LoadedHash(site: Site, base: State, load: Load)
    requires Good(site.p, site.configFile, load) && IsNewFile(site, base, load)
    ensures Loaded(site, base, load).hash == site.p.hash(load.file.value)
  {
    CheckedHash(site.p, site.configFile, load.file);
    hide Checked, AuthenticatorFor;
  }
}
