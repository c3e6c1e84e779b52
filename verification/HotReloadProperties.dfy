/**
 What holds in every reachable state of every interleaving of reloads and requests: mutual exclusion,
 refinement of one-load-at-a-time, the life of contexts, and where every answer comes from.
 */
module HotReloadProperties {
  import opened Outcomes
  import opened ApiTypes
  import opened Authenticate
  import opened Configurator
  import opened ConfiguratorProperties
  import opened HotReload

  // ----- mutual exclusion -----

  predicate InFetch(phase: RequestPhase) {
    phase.Fetching? || phase.Fetched?
  }

  /** Whoever is inside the critical section is the one that holds the mutex. */
  ghost predicate Exclusive(s: System) {
    && (forall t: nat :: !ReloadAt(s, t).Outside? <==> s.holder == ReloadHolds(t))
    && (forall r: nat :: InFetch(RequestAt(s, r)) <==> s.holder == RequestHolds(r))
  }

  lemma ReloadStepShape(site: Site, s: System, t: nat, load: Load)
    ensures var after := ReloadStep(site, s, t, load);
            && (forall u: nat | u != t :: ReloadAt(after, u) == ReloadAt(s, u))
            && (forall r: nat :: RequestAt(after, r) == RequestAt(s, r))
            && if ReloadAt(s, t).Outside? then
                 if s.holder == Free then after.holder == ReloadHolds(t) && ReloadAt(after, t) == Locked
                 else after == s
               else if ReloadAt(s, t).Leaving? then after.holder == Free && ReloadAt(after, t) == Outside
               else after.holder == s.holder && !ReloadAt(after, t).Outside?
  {
    hide Checked, AuthenticatorFor;
  }

  lemma ReloadExclusive(site: Site, s: System, t: nat, load: Load)
    requires Exclusive(s)
    ensures Exclusive(ReloadStep(site, s, t, load))
  {
    hide ReloadStep, ReloadAt, RequestAt, InFetch;
    ReloadStepShape(site, s, t, load);
  }

  lemma ServeExclusive(site: Site, s: System, r: nat)
    requires Exclusive(s)
    ensures Exclusive(ServeStep(site, s, r))
  {
    hide AuthenticateToken, ReviewOf;
    var after := ServeStep(site, s, r);
    assert forall q: nat :: q != r ==> RequestAt(after, q) == RequestAt(s, q);
    assert forall t: nat :: ReloadAt(after, t) == ReloadAt(s, t);
  }

  lemma ArriveExclusive(site: Site, s: System, r: nat, request: HttpRequest)
    requires Exclusive(s)
    ensures Exclusive(ArriveStep(site, s, r, request))
  {
    hide TokenOf;
    var after := ArriveStep(site, s, r, request);
    assert forall q: nat :: q != r ==> RequestAt(after, q) == RequestAt(s, q);
    assert forall t: nat :: ReloadAt(after, t) == ReloadAt(s, t);
  }

  // ----- refinement of one load at a time -----

  /** The shared state between the steps of a reload that began in state `base`. */
  ghost predicate Midway(site: Site, base: State, shared: State, phase: ReloadPhase) {
    match phase
    case Outside => shared == base
    case Locked => shared == base
    case Differs(file, config, hash) =>
      shared == base && IsNew(site, base, file, config, hash)
    case Derived(file, config, hash, ctx) =>
      shared == Opened(base) && ctx == base.created && IsNew(site, base, file, config, hash)
    case BuildFailed(load, ctx) =>
      shared == Opened(base) && ctx == base.created && Loaded(site, base, load) == Discard(base)
    case BuildDone(load, authenticator, hash, ctx) =>
      shared == Opened(base) && ctx == base.created
      && Loaded(site, base, load) == Install(base, authenticator, hash)
    case OldCancelled(load, authenticator, hash, ctx) =>
      shared == Install(base, authenticator, hash).(active := base.active, hash := base.hash)
      && ctx == base.created
      && Loaded(site, base, load) == Install(base, authenticator, hash)
    case Replaced(load, hash) =>
      shared == Loaded(site, base, load).(hash := base.hash)
      && hash == Loaded(site, base, load).hash
    case Leaving(load) => shared == Loaded(site, base, load)
  }

  /** The state after one undisturbed load. */
  function Loaded(site: Site, base: State, load: Load): State {
    Reload(site.p, site.configFile, base, load).0
  }

  function Opened(s: State): State {
    s.(created := s.created + 1)
  }

  ghost predicate IsNew(
      site: Site, base: State, file: Option<string>, config: AuthenticationConfiguration, hash: string)
  {
    && Checked(site.p, site.configFile, file) == Some((config, hash))
    && !(base.hash != "" && hash == base.hash)
  }

  ghost predicate Refines(site: Site, s: System) {
    var base := After(site.p, site.configFile, s.loads);
    match s.holder
    case ReloadHolds(t) => Midway(site, base, s.shared, ReloadAt(s, t))
    case _ => s.shared == base
  }

  /** One step inside the critical section. */
  lemma MidwayStep(site: Site, s: System, t: nat, load: Load, base: State)
    requires !ReloadAt(s, t).Outside? && !ReloadAt(s, t).Leaving?
    requires Midway(site, base, s.shared, ReloadAt(s, t))
    ensures var after := ReloadStep(site, s, t, load);
            Midway(site, base, after.shared, ReloadAt(after, t))
            && after.holder == s.holder && after.loads == s.loads
  {
    hide Checked, AuthenticatorFor;
  }

  lemma ReloadRefines(site: Site, s: System, t: nat, load: Load)
    requires Exclusive(s) && Refines(site, s)
    ensures Refines(site, ReloadStep(site, s, t, load))
  {
    hide Checked, AuthenticatorFor, After;
    var base := After(site.p, site.configFile, s.loads);
    match ReloadAt(s, t) {
      case Outside =>
      case Leaving(met) =>
        hide Reload;
        assert (s.loads + [met])[..|s.loads|] == s.loads;
        AfterUnfold(site.p, site.configFile, s.loads + [met]);
      case _ => MidwayStep(site, s, t, load, base);
    }
  }

  lemma OthersRefine(site: Site, s: System, a: Action)
    requires Exclusive(s) && Refines(site, s) && !a.ByReload?
    ensures Refines(site, Perform(site, s, a))
  {
    hide Midway, After, TokenOf, AuthenticateToken, ReviewOf;
    assert forall t: nat :: ReloadAt(Perform(site, s, a), t) == ReloadAt(s, t);
  }

  lemma RunUnfold(site: Site, actions: seq<Action>)
    ensures actions == [] ==> Run(site, actions) == START
    ensures actions != [] ==>
              var n := |actions| - 1;
              Run(site, actions) == Perform(site, Run(site, actions[..n]), actions[n]).(time := n + 1)
    ensures Run(site, actions).time == |actions|
  {
    hide Perform;
  }

  lemma TimeIsIrrelevant(site: Site, s: System, time: nat)
    ensures Exclusive(s.(time := time)) <==> Exclusive(s)
    ensures Refines(site, s.(time := time)) <==> Refines(site, s)
  {
    var s' := s.(time := time);
    assert forall t: nat :: ReloadAt(s', t) == ReloadAt(s, t);
    assert forall r: nat :: RequestAt(s', r) == RequestAt(s, r);
    hide Midway, After;
  }

  lemma StartIsSound(site: Site)
    ensures Exclusive(START) && Refines(site, START)
  {
  }

  lemma PerformKeeps(site: Site, s: System, a: Action)
    requires Exclusive(s) && Refines(site, s)
    ensures Exclusive(Perform(site, s, a)) && Refines(site, Perform(site, s, a))
  {
    hide Exclusive, Refines, ReloadStep, ArriveStep, ServeStep;
    if !a.ByReload? {
      OthersRefine(site, s, a);
    }
    match a {
      case ByReload(t, load) =>
        ReloadExclusive(site, s, t, load);
        ReloadRefines(site, s, t, load);
      case ByClient(r, request) => ArriveExclusive(site, s, r, request);
      case ByServer(r) => ServeExclusive(site, s, r);
    }
  }

  /**
   In every reachable state of every interleaving at most one goroutine is in the critical section, and
   the shared state is that of the finished loads one after another, or of one more load part-way.
   */
  lemma {:induction false} EveryRun(site: Site, actions: seq<Action>)
    ensures Exclusive(Run(site, actions)) && Refines(site, Run(site, actions))
  {
    hide *;
    RunUnfold(site, actions);
    if actions == [] {
      StartIsSound(site);
    } else {
      var n := |actions| - 1;
      EveryRun(site, actions[..n]);
      PerformKeeps(site, Run(site, actions[..n]), actions[n]);
      TimeIsIrrelevant(site, Perform(site, Run(site, actions[..n]), actions[n]), n + 1);
    }
  }

  // ----- which authenticator is active -----

  predicate Reloading(s: System) {
    s.holder.ReloadHolds?
  }

  /** The loads that the active authenticator reflects: the finished ones, and one that just stored it. */
  function Reflected(s: System): seq<Load> {
    match s.holder
    case ReloadHolds(t) =>
      (match ReloadAt(s, t)
       case Replaced(load, _) => s.loads + [load]
       case Leaving(load) => s.loads + [load]
       case _ => s.loads)
    case _ => s.loads
  }

  lemma MidwayActive(site: Site, s: System)
    requires Exclusive(s) && Refines(site, s)
    ensures s.shared.active == After(site.p, site.configFile, Reflected(s)).active
  {
    hide After, Reload, Checked, Discard, Install;
    match s.holder {
      case ReloadHolds(t) =>
        match ReloadAt(s, t) {
          case Replaced(load, _) => OneMore(site, s.loads, load);
          case Leaving(load) => OneMore(site, s.loads, load);
          case OldCancelled(load, authenticator, hash, ctx) =>
          case _ =>
        }
      case _ =>
    }
  }

  lemma OneMore(site: Site, loads: seq<Load>, load: Load)
    ensures After(site.p, site.configFile, loads + [load])
            == Loaded(site, After(site.p, site.configFile, loads), load)
  {
    hide Reload;
    assert (loads + [load])[..|loads|] == loads;
  }

  /**
   In every reachable state the active authenticator is validated, and there is none exactly if no load
   was good.
   */
  lemma ActiveEverywhere(site: Site, actions: seq<Action>)
    ensures var s := Run(site, actions);
            s.shared.active.Some? ==> IsValidated(site.p, s.shared.active.value.authenticator)
    ensures var s := Run(site, actions);
            NonEmptyHash(site.p) ==>
              (s.shared.active.None? <==>
               forall i | 0 <= i < |Reflected(s)| :: !Good(site.p, site.configFile, Reflected(s)[i]))
  {
    hide *;
    var s := Run(site, actions);
    EveryRun(site, actions);
    MidwayActive(site, s);
    ActiveIsValidated(site.p, site.configFile, Reflected(s));
    if NonEmptyHash(site.p) {
      ActiveIffEverGood(site.p, site.configFile, Reflected(s));
    }
  }

  /**
   In every reachable state the active authenticator, if there is one, was built from a good load, and
   that load is the last good one if and only if no other file with its hash was missed after it.
   */
  lemma LastGoodEverywhere(site: Site, actions: seq<Action>) returns (k: nat)
    ensures var s, loads := Run(site, actions), Reflected(Run(site, actions));
            s.shared.active.Some? ==>
              && k < |loads| && Good(site.p, site.configFile, loads[k])
              && s.shared.active.value.authenticator == Build(site.p, site.configFile, loads[k]).value
              && (LastGood(site.p, site.configFile, loads, k)
                  <==> NoneMissed(site.p, site.configFile, loads, k))
              && (Distinguishes(site.p, site.configFile, loads) ==>
                    LastGood(site.p, site.configFile, loads, k))
  {
    hide *;
    var s := Run(site, actions);
    EveryRun(site, actions);
    MidwayActive(site, s);
    k := ActiveIsLastGood(site.p, site.configFile, Reflected(s));
    if s.shared.active.Some? {
      CameFromParts(site.p, site.configFile, Reflected(s), k, After(site.p, site.configFile, Reflected(s)));
    }
  }

  // ----- contexts -----

  /** The context that a reload has created and not yet installed or cancelled. */
  function PendingContext(s: System): Option<nat> {
    match s.holder
    case ReloadHolds(t) =>
      (match ReloadAt(s, t)
       case Derived(_, _, _, ctx) => Some(ctx)
       case BuildFailed(_, ctx) => Some(ctx)
       case BuildDone(_, _, _, ctx) => Some(ctx)
       case OldCancelled(_, _, _, ctx) => Some(ctx)
       case _ => None)
    case _ => None
  }

  predicate AboutToReplace(s: System) {
    s.holder.ReloadHolds? && ReloadAt(s, s.holder.t).OldCancelled?
  }

  ghost predicate ContextsTidy(s: System) {
    && (forall ctx: nat | IsLive(s.shared, ctx) ::
          PendingContext(s) == Some(ctx) || (s.shared.active.Some? && ctx == s.shared.active.value.ctx))
    && (s.shared.active.Some? ==> IsLive(s.shared, s.shared.active.value.ctx) || AboutToReplace(s))
    && (!Reloading(s) ==> Consistent(s.shared))
  }

  lemma OpenedContexts(base: State)
    requires Consistent(base)
    ensures forall ctx: nat ::
              IsLive(Opened(base), ctx)
              <==> ctx == base.created || (base.active.Some? && ctx == base.active.value.ctx)
  {
    forall ctx: nat ensures IsLive(Opened(base), ctx) <==> ctx == base.created || IsLive(base, ctx) {
    }
  }

  lemma ReplacingContexts(base: State, shared: State)
    requires Consistent(base) && shared.created == base.created + 1
    requires shared.cancelled ==
             if base.active.Some? then base.cancelled + {base.active.value.ctx} else base.cancelled
    ensures forall ctx: nat :: IsLive(shared, ctx) <==> ctx == base.created
  {
    if base.active.Some? {
      assert IsLive(base, base.active.value.ctx);
    }
    forall ctx: nat ensures IsLive(shared, ctx) <==> ctx == base.created {
      assert IsLive(base, ctx) <==> base.active.Some? && ctx == base.active.value.ctx;
    }
  }

  lemma SameContexts(base: State, shared: State)
    requires Consistent(base)
    requires shared.active == base.active && shared.created == base.created
    requires shared.cancelled == base.cancelled
    ensures forall ctx: nat :: IsLive(shared, ctx) <==> shared.active.Some? && ctx == shared.active.value.ctx
  {
    forall ctx: nat ensures IsLive(shared, ctx) <==> IsLive(base, ctx) {
    }
  }

  lemma LoadedConsistent(site: Site, base: State, load: Load)
    requires NonEmptyHash(site.p) && Consistent(base)
    ensures Consistent(Loaded(site, base, load))
  {
    hide Consistent, NonEmptyHash, Reload;
    ReloadKeepsConsistent(site.p, site.configFile, base, load);
  }

  /** How the contexts stand in each phase of a reload. */
  lemma MidwayShape(site: Site, base: State, shared: State, phase: ReloadPhase)
    requires Midway(site, base, shared, phase)
    ensures phase.Outside? || phase.Locked? || phase.Differs? ==> shared == base
    ensures phase.Derived? || phase.BuildFailed? || phase.BuildDone? ==>
              shared == Opened(base) && phase.ctx == base.created
    ensures phase.OldCancelled? ==>
              && phase.ctx == base.created && shared.created == base.created + 1
              && shared.active == base.active
              && shared.cancelled ==
                 if base.active.Some? then base.cancelled + {base.active.value.ctx} else base.cancelled
    ensures phase.Replaced? ==>
              var after := Loaded(site, base, phase.load);
              shared.active == after.active && shared.created == after.created
              && shared.cancelled == after.cancelled
    ensures phase.Leaving? ==> shared == Loaded(site, base, phase.load)
  {
    hide Loaded, Discard, IsNew;
  }

  /** While nothing is pending, the contexts are those of a finished load. */
  lemma SettledContexts(site: Site, s: System, t: nat, base: State)
    requires NonEmptyHash(site.p) && Consistent(base) && Midway(site, base, s.shared, ReloadAt(s, t))
    requires s.holder == ReloadHolds(t) && PendingContext(s).None?
    ensures forall ctx: nat ::
              IsLive(s.shared, ctx) <==> s.shared.active.Some? && ctx == s.shared.active.value.ctx
  {
    hide Midway, Loaded, IsLive, Consistent, NonEmptyHash;
    MidwayShape(site, base, s.shared, ReloadAt(s, t));
    match ReloadAt(s, t) {
      case Replaced(load, _) =>
        LoadedConsistent(site, base, load);
        SameContexts(Loaded(site, base, load), s.shared);
      case Leaving(load) =>
        LoadedConsistent(site, base, load);
        ConsistentContexts(s.shared);
      case _ => ConsistentContexts(s.shared);
    }
  }

  lemma UnsettledContexts(site: Site, s: System, t: nat, base: State)
    requires Consistent(base) && Midway(site, base, s.shared, ReloadAt(s, t))
    requires s.holder == ReloadHolds(t) && PendingContext(s).Some?
    ensures ContextsTidy(s)
  {
    hide Midway, IsLive, Consistent;
    MidwayShape(site, base, s.shared, ReloadAt(s, t));
    match ReloadAt(s, t) {
      case OldCancelled(_, _, _, _) => ReplacingContexts(base, s.shared);
      case _ => OpenedContexts(base);
    }
  }

  lemma MidwayContexts(site: Site, s: System)
    requires NonEmptyHash(site.p) && Refines(site, s)
    ensures ContextsTidy(s)
  {
    hide Midway, Consistent, IsLive, NonEmptyHash, After;
    ContextsAreTheActiveOnes(site.p, site.configFile, s.loads);
    var base := After(site.p, site.configFile, s.loads);
    match s.holder {
      case ReloadHolds(t) =>
        if PendingContext(s).Some? {
          UnsettledContexts(site, s, t, base);
        } else {
          SettledContexts(site, s, t, base);
        }
      case _ => ConsistentContexts(s.shared);
    }
  }

  lemma ConsistentContexts(s: State)
    requires Consistent(s)
    ensures forall ctx: nat :: IsLive(s, ctx) <==> s.active.Some? && ctx == s.active.value.ctx
  {
  }

  /**
   In every reachable state, the live contexts are the active authenticator's and at most one that a
   reload is working with; the active one is alive except for the step between cancelling it and
   replacing it, when the mutex keeps everybody from reading it.
   */
  lemma ContextsEverywhere(site: Site, actions: seq<Action>)
    requires NonEmptyHash(site.p)
    ensures ContextsTidy(Run(site, actions))
  {
    hide *;
    EveryRun(site, actions);
    MidwayContexts(site, Run(site, actions));
  }
}
