/**
 What the configurator keeps over any sequence of loads: which authenticator is in use, which
 contexts are alive, and that every authenticator in use comes from a validated configuration.
 */
module ConfiguratorProperties {
  import opened Outcomes
  import opened ApiTypes
  import opened Expanders
  import opened Validation
  import opened ValidationProperties
  import opened Configurator
  import ValidatedChain

  /** SHA-256 gives 32 bytes for every input. */
  ghost predicate NonEmptyHash(p: Platform) {
    forall file: string :: p.hash(file) != ""
  }

  // ----- contexts and hashes -----

  /** The live contexts are exactly that of the active authenticator; no hash means none is active. */
  ghost predicate Consistent(s: State) {
    && (s.hash == "" <==> s.active.None?)
    && (forall ctx: nat :: IsLive(s, ctx) <==> s.active.Some? && ctx == s.active.value.ctx)
    && (forall ctx | ctx in s.cancelled :: ctx < s.created)
  }

  lemma DiscardKeepsConsistent(s: State)
    requires Consistent(s)
    ensures Consistent(Discard(s))
  {
    forall ctx: nat ensures IsLive(Discard(s), ctx) <==> IsLive(s, ctx) {
    }
  }

  lemma InstallKeepsConsistent(s: State, authenticator: Authenticator, hash: string)
    requires Consistent(s) && hash != ""
    ensures Consistent(Install(s, authenticator, hash))
  {
    var after := Install(s, authenticator, hash);
    if s.active.Some? {
      assert IsLive(s, s.active.value.ctx);
    }
    forall ctx: nat ensures IsLive(after, ctx) <==> ctx == s.created {
      assert IsLive(s, ctx) <==> s.active.Some? && ctx == s.active.value.ctx;
    }
  }

  lemma ReloadKeepsConsistent(p: Platform, configFile: string, s: State, load: Load)
    requires NonEmptyHash(p) && Consistent(s)
    ensures Consistent(Reload(p, configFile, s, load).0)
  {
    hide Checked, AuthenticatorFor, Consistent, Discard, Install;
    if Checked(p, configFile, load.file).Some? {
      CheckedHash(p, configFile, load.file);
      var (config, hash) := Checked(p, configFile, load.file).value;
      DiscardKeepsConsistent(s);
      if AuthenticatorFor(p, load.net, config.jwt).Ok? {
        InstallKeepsConsistent(s, AuthenticatorFor(p, load.net, config.jwt).value, hash);
      }
    }
  }

  /** Whatever loads there were, nothing leaks and the active authenticator's context is alive. */
  lemma {:induction false} ContextsAreTheActiveOnes(p: Platform, configFile: string, loads: seq<Load>)
    requires NonEmptyHash(p)
    ensures Consistent(After(p, configFile, loads))
  {
    hide Reload;
    if loads != [] {
      var n := |loads| - 1;
      ContextsAreTheActiveOnes(p, configFile, loads[..n]);
      ReloadKeepsConsistent(p, configFile, After(p, configFile, loads[..n]), loads[n]);
    }
  }

  /**
   A load that reports an error keeps authenticator and hash. A load that replaces the authenticator
   creates the new one's context, cancels the old one's, and changes the hash.
   */
  lemma LoadEffect(p: Platform, configFile: string, s: State, load: Load)
    requires NonEmptyHash(p) && Consistent(s)
    ensures var (after, ok) := Reload(p, configFile, s, load);
            && (!ok ==> after.active == s.active && after.hash == s.hash)
            && (after.active != s.active ==>
                  && ok && after.hash != s.hash && after.active.Some?
                  && after.active.value.ctx == s.created
                  && (s.active.Some? ==> s.active.value.ctx in after.cancelled))
            && (after.active == s.active ==> after.hash == s.hash)
  {
    hide Checked, AuthenticatorFor;
    if s.active.Some? {
      assert IsLive(s, s.active.value.ctx);
    }
    CheckedHash(p, configFile, load.file);
  }

  /**
   Exactly when a load reports no error: the file is taken, and it is the one in use or can be built.
   For the first load that means that it is good.
   */
  lemma LoadSucceeds(p: Platform, configFile: string, s: State, load: Load)
    ensures Reload(p, configFile, s, load).1
            <==> && Valid(p, configFile, load)
                 && load.file.Some?
                 && ((s.hash != "" && p.hash(load.file.value) == s.hash) || Build(p, configFile, load).Ok?)
    ensures Reload(p, configFile, INITIAL, load).1 <==> Good(p, configFile, load)
  {
    CheckedHash(p, configFile, load.file);
    hide Checked, AuthenticatorFor;
  }

  /** Loading an unchanged file again after a load without error does nothing. */
  lemma SecondLoadIsNoOp(p: Platform, configFile: string, s: State, load: Load, again: Load)
    requires NonEmptyHash(p)
    requires Reload(p, configFile, s, load).1 && again.file == load.file
    ensures var after := Reload(p, configFile, s, load).0;
            Reload(p, configFile, after, again) == (after, true)
  {
    hide Checked, AuthenticatorFor;
    CheckedHash(p, configFile, load.file);
  }

  /** So the load that the watch does at once, on the file that Run has just loaded, changes nothing. */
  lemma WatchStartsQuietly(p: Platform, configFile: string, initial: Load, again: Load)
    requires NonEmptyHash(p)
    requires Reload(p, configFile, INITIAL, initial).1 && again.file == initial.file
    ensures After(p, configFile, [initial, again]) == After(p, configFile, [initial])
  {
    SecondLoadIsNoOp(p, configFile, INITIAL, initial, again);
    hide Reload;
    OneLoad(p, configFile, initial);
    AfterUnfold(p, configFile, [initial, again]);
    assert [initial, again][..1] == [initial];
  }

  // ----- the last good configuration -----

  /** Load j could be built, and no other file that came after it could. */
  ghost predicate LastGood(p: Platform, configFile: string, loads: seq<Load>, j: nat) {
    && j < |loads| && Good(p, configFile, loads[j])
    && forall i | j < i < |loads| :: loads[i].file == loads[j].file || !Good(p, configFile, loads[i])
  }

  lemma AfterUnfold(p: Platform, configFile: string, loads: seq<Load>)
    ensures loads == [] ==> After(p, configFile, loads) == INITIAL && INITIAL.active == None
    ensures loads != [] ==>
              var n := |loads| - 1;
              After(p, configFile, loads) == Reload(p, configFile, After(p, configFile, loads[..n]), loads[n]).0
  {
    hide Reload;
  }

  lemma ReloadCases(p: Platform, configFile: string, s: State, load: Load)
    ensures var after := Reload(p, configFile, s, load).0;
            if !Valid(p, configFile, load) then after == s
            else
              && load.file.Some?
              && var hash := p.hash(load.file.value);
                 if s.hash != "" && hash == s.hash then after == s
                 else if !Good(p, configFile, load) then after.active == s.active && after.hash == s.hash
                 else
                   && after.active == Some(Instance(Build(p, configFile, load).value, s.created))
                   && after.hash == hash
  {
    hide Checked, AuthenticatorFor;
    CheckedHash(p, configFile, load.file);
  }

  lemma LastGoodGrows(p: Platform, configFile: string, loads: seq<Load>, j: nat)
    requires loads != []
    ensures var n := |loads| - 1;
            LastGood(p, configFile, loads, j) <==>
            if j >= n then j == n && Good(p, configFile, loads[n])
            else LastGood(p, configFile, loads[..n], j)
                 && (loads[n].file == loads[j].file || !Good(p, configFile, loads[n]))
  {
    hide Good;
    var n := |loads| - 1;
    if j < n && LastGood(p, configFile, loads[..n], j) {
      forall i | j < i < n ensures loads[i].file == loads[j].file || !Good(p, configFile, loads[i]) {
        assert loads[..n][i] == loads[i];
      }
    }
  }

  /** No two different files that were good have the same hash. */
  ghost predicate Distinguishes(p: Platform, configFile: string, loads: seq<Load>) {
    forall i, j
      | 0 <= i < |loads| && 0 <= j < |loads|
        && Good(p, configFile, loads[i]) && Good(p, configFile, loads[j])
        && loads[i].file.Some? && loads[j].file.Some? ::
        p.hash(loads[i].file.value) == p.hash(loads[j].file.value) ==> loads[i].file == loads[j].file
  }

  /** Where the authenticator in use comes from: a good load of the file whose hash is remembered. */
  ghost predicate CameFrom(p: Platform, configFile: string, loads: seq<Load>, k: nat, s: State) {
    && k < |loads| && Good(p, configFile, loads[k])
    && loads[k].file.Some? && s.hash == p.hash(loads[k].file.value)
    && s.active.Some? && s.active.value.authenticator == Build(p, configFile, loads[k]).value
  }

  lemma CameFromParts(p: Platform, configFile: string, loads: seq<Load>, k: nat, s: State)
    requires CameFrom(p, configFile, loads, k, s)
    ensures k < |loads| && Good(p, configFile, loads[k]) && s.active.Some?
    ensures loads[k].file.Some? && s.hash == p.hash(loads[k].file.value)
    ensures s.active.value.authenticator == Build(p, configFile, loads[k]).value
  {
    hide Build, Valid, Good;
  }

  lemma GoodIsValid(p: Platform, configFile: string, load: Load)
    ensures Good(p, configFile, load) ==> Valid(p, configFile, load)
  {
  }

  /** Good loads after load k had its hash, so each was taken for the same file. */
  ghost predicate TakenForSame(p: Platform, configFile: string, loads: seq<Load>, k: nat) {
    k < |loads| && loads[k].file.Some?
    && forall i | k < i < |loads| && Good(p, configFile, loads[i]) ::
         loads[i].file.Some? && p.hash(loads[i].file.value) == p.hash(loads[k].file.value)
  }

  /** Whatever the hash does, an authenticator in use was built from a good load. */
  lemma {:induction false} ActiveCameFrom(p: Platform, configFile: string, loads: seq<Load>)
    returns (k: nat)
    ensures After(p, configFile, loads).active.Some? ==>
              && CameFrom(p, configFile, loads, k, After(p, configFile, loads))
              && TakenForSame(p, configFile, loads, k)
  {
    hide Reload, Good, Valid, Build, After;
    AfterUnfold(p, configFile, loads);
    k := 0;
    if loads != [] {
      var n := |loads| - 1;
      var before := After(p, configFile, loads[..n]);
      k := ActiveCameFrom(p, configFile, loads[..n]);
      ReloadCases(p, configFile, before, loads[n]);
      GoodIsValid(p, configFile, loads[n]);
      if Good(p, configFile, loads[n]) && !(before.hash != "" && before.hash == p.hash(loads[n].file.value)) {
        k := n;
      } else if before.active.Some? {
        assert forall i | 0 <= i < n :: loads[..n][i] == loads[i];
      }
    }
  }

  lemma {:induction false} LastGoodHash(p: Platform, configFile: string, loads: seq<Load>, j: nat)
    requires NonEmptyHash(p) && LastGood(p, configFile, loads, j)
    ensures After(p, configFile, loads).active.Some?
    ensures loads[j].file.Some? && After(p, configFile, loads).hash == p.hash(loads[j].file.value)
  {
    hide *;
    HashedIsActive(p, configFile, loads);
    AfterUnfold(p, configFile, loads);
    LastGoodRange(p, configFile, loads, j);
    var n := |loads| - 1;
    LastGoodGrows(p, configFile, loads, j);
    ReloadCases(p, configFile, After(p, configFile, loads[..n]), loads[n]);
    GoodIsValid(p, configFile, loads[n]);
    if j < n {
      assert loads[..n][j] == loads[j];
      LastGoodHash(p, configFile, loads[..n], j);
      NoEmptyHash(p, loads[j].file.value);
    } else {
      NoEmptyHash(p, loads[n].file.value);
    }
  }

  /**
   The last good file is the one in use: there is an authenticator, and it was built from a good load of
   a file with the same hash, which is the same file if the hash distinguishes the good files.
   */
  lemma LastGoodIsActive(p: Platform, configFile: string, loads: seq<Load>, j: nat) returns (k: nat)
    requires NonEmptyHash(p) && LastGood(p, configFile, loads, j)
    ensures CameFrom(p, configFile, loads, k, After(p, configFile, loads))
    ensures loads[j].file.Some? && p.hash(loads[k].file.value) == p.hash(loads[j].file.value)
    ensures Distinguishes(p, configFile, loads) ==>
              loads[k].file == loads[j].file
  {
    hide After, Good, Build, Valid;
    LastGoodHash(p, configFile, loads, j);
    k := ActiveCameFrom(p, configFile, loads);
  }

  /** An authenticator is in use exactly if some load was good. */
  lemma ActiveIffEverGood(p: Platform, configFile: string, loads: seq<Load>)
    requires NonEmptyHash(p)
    ensures After(p, configFile, loads).active.Some?
            <==> exists i :: 0 <= i < |loads| && Good(p, configFile, loads[i])
  {
    hide After, Good, Build, LastGood;
    if After(p, configFile, loads).active.Some? {
      var k := ActiveCameFrom(p, configFile, loads);
    }
    if exists i :: 0 <= i < |loads| && Good(p, configFile, loads[i]) {
      var j := FindLastGood(p, configFile, loads);
      LastGoodHash(p, configFile, loads, j);
    }
  }

  /** No good load after load k was of another file with the same hash. */
  ghost predicate NoneMissed(p: Platform, configFile: string, loads: seq<Load>, k: nat) {
    k < |loads| && loads[k].file.Some?
    && forall i | k < i < |loads| && Good(p, configFile, loads[i]) && loads[i].file.Some? ::
         p.hash(loads[i].file.value) == p.hash(loads[k].file.value) ==> loads[i].file == loads[k].file
  }

  /**
   If an authenticator is in use, it was built from a good load, and that load is the last good one, later
   loads having failed or found the same file, if and only if no other file with its hash was missed.
   */
  lemma ActiveIsLastGood(p: Platform, configFile: string, loads: seq<Load>) returns (k: nat)
    ensures After(p, configFile, loads).active.Some? ==>
              && CameFrom(p, configFile, loads, k, After(p, configFile, loads))
              && (LastGood(p, configFile, loads, k) <==> NoneMissed(p, configFile, loads, k))
              && (Distinguishes(p, configFile, loads) ==> LastGood(p, configFile, loads, k))
  {
    hide After, Good, Build, Valid;
    k := ActiveCameFrom(p, configFile, loads);
  }

  /** Hashes must distinguish the files: a good file whose hash is that of the file in use is missed. */
  lemma CollisionIsMissed(p: Platform, configFile: string, first: Load, second: Load)
    requires NonEmptyHash(p)
    requires Good(p, configFile, first) && Good(p, configFile, second) && first.file != second.file
    requires first.file.Some? && second.file.Some? && p.hash(first.file.value) == p.hash(second.file.value)
    ensures LastGood(p, configFile, [first, second], 1) && !LastGood(p, configFile, [first, second], 0)
    ensures var s := After(p, configFile, [first, second]);
            s.active.Some? && s.active.value.authenticator == Build(p, configFile, first).value
  {
    hide After, Good, Build, Valid, Reload;
    var loads := [first, second];
    assert loads[..1] == [first] && [first][..0] == [];
    AfterUnfold(p, configFile, loads);
    AfterUnfold(p, configFile, [first]);
    AfterUnfold(p, configFile, []);
    ReloadCases(p, configFile, INITIAL, first);
    ReloadCases(p, configFile, After(p, configFile, [first]), second);
    GoodIsValid(p, configFile, first);
    GoodIsValid(p, configFile, second);
    assert loads[0] == first && loads[1] == second;
  }

  lemma NoEmptyHash(p: Platform, file: string)
    requires NonEmptyHash(p)
    ensures p.hash(file) != ""
  {
  }

  lemma HashedIsActive(p: Platform, configFile: string, loads: seq<Load>)
    requires NonEmptyHash(p)
    ensures After(p, configFile, loads).hash != "" <==> After(p, configFile, loads).active.Some?
  {
    hide After, NonEmptyHash;
    ContextsAreTheActiveOnes(p, configFile, loads);
  }

  lemma LastGoodRange(p: Platform, configFile: string, loads: seq<Load>, j: nat)
    requires LastGood(p, configFile, loads, j)
    ensures j < |loads|
  {
  }

  lemma {:induction false} FindLastGood(p: Platform, configFile: string, loads: seq<Load>) returns (j: nat)
    requires exists i :: 0 <= i < |loads| && Good(p, configFile, loads[i])
    ensures LastGood(p, configFile, loads, j)
  {
    hide Good;
    var n := |loads| - 1;
    if Good(p, configFile, loads[n]) {
      j := n;
    } else {
      var i :| 0 <= i < |loads| && Good(p, configFile, loads[i]);
      assert loads[..n][i] == loads[i];
      j := FindLastGood(p, configFile, loads[..n]);
      LastGoodGrows(p, configFile, loads, j);
    }
  }

  // ----- what a load needs to be good -----

  /** All that can go wrong for a validated issuer: certificates, first tokens and the OIDC verifier. */
  ghost predicate MemberBuilds(p: Platform, net: Network, jwt: JWTAuthenticator) {
    && (jwt.issuerCA == "" || net.loadsIssuerCA(jwt.issuerCA))
    && (forall i | 0 <= i < |jwt.externalClaimsSources| ::
          SourceBuilds(
            BuildEnv(p.env.compiler, net.appendsCerts, net.fetchesToken), jwt.externalClaimsSources[i]))
    && net.startsVerifier(jwt)
  }

  /** A member stands for its issuer and has its expanders, one for each source. */
  ghost predicate IsMemberOf(p: Platform, net: Network, jwt: JWTAuthenticator, m: Member) {
    && m.jwt == jwt
    && |m.expanders| == |jwt.externalClaimsSources|
    && forall i | 0 <= i < |m.expanders| ::
         IsResolverOf(
           BuildEnv(p.env.compiler, net.appendsCerts, net.fetchesToken),
           jwt.externalClaimsSources[i], m.expanders[i])
  }

  lemma OneMemberBuilds(p: Platform, net: Network, jwt: JWTAuthenticator)
    requires ValidSources(p.env, jwt.externalClaimsSources)
    ensures MemberFor(p, net, jwt).Ok? <==> MemberBuilds(p, net, jwt)
    ensures MemberFor(p, net, jwt).Ok? ==> IsMemberOf(p, net, jwt, MemberFor(p, net, jwt).value)
  {
    ValidationSufficesForBuilding(p.env, BuildEnvOf(p, net), jwt.externalClaimsSources);
    hide ResolversFor, SourceBuilds, IsResolverOf, IsSource, AllNames, Distinct;
  }

  lemma AuthenticatorUnfold(p: Platform, net: Network, jwts: seq<JWTAuthenticator>)
    ensures jwts == [] ==> AuthenticatorFor(p, net, jwts) == Ok([])
    ensures jwts != [] ==>
              var n := |jwts| - 1;
              AuthenticatorFor(p, net, jwts) == (
                match AuthenticatorFor(p, net, jwts[..n])
                case Err(e) => Err(e)
                case Ok(before) =>
                  match MemberFor(p, net, jwts[n])
                  case Err(e) => Err(e)
                  case Ok(member) => Ok(before + [member]))
  {
    hide MemberFor;
  }

  /**
   For a validated configuration, building the authenticator succeeds exactly if no certificate, first
   token or verifier fails; it then has one member for each issuer, in order.
   */
  lemma {:induction false} ValidatedConfigurationBuilds(
      p: Platform, net: Network, jwts: seq<JWTAuthenticator>)
    requires AreValid(p.env, jwts)
    ensures AuthenticatorFor(p, net, jwts).Ok?
            <==> forall i | 0 <= i < |jwts| :: MemberBuilds(p, net, jwts[i])
    ensures AuthenticatorFor(p, net, jwts).Ok? ==>
              var members := AuthenticatorFor(p, net, jwts).value;
              |members| == |jwts| && forall i | 0 <= i < |jwts| :: IsMemberOf(p, net, jwts[i], members[i])
  {
    hide *;
    AuthenticatorUnfold(p, net, jwts);
    if jwts != [] {
      var n := |jwts| - 1;
      AuthenticatorRunUnfold(p.env, jwts);
      ValidatedConfigurationBuilds(p, net, jwts[..n]);
      OneMemberBuilds(p, net, jwts[n]);
      assert forall i | 0 <= i < n :: jwts[..n][i] == jwts[i];
    }
  }

  // ----- only validated configurations are ever in use -----

  /** What validation demands of a configuration: issuers, no complaint upstream, valid sources. */
  ghost predicate IsAccepted(p: Platform, config: AuthenticationConfiguration) {
    config.jwt != [] && p.upstream(config) == [] && AreValid(p.env, config.jwt)
  }

  /**
   Exactly when a file is taken: there is a path, the file can be read and decoded, and the configuration
   is accepted. It comes with the hash of the file.
   */
  lemma CheckedExactly(p: Platform, configFile: string, file: Option<string>)
    ensures Checked(p, configFile, file).Some?
            <==> configFile != "" && file.Some? && p.decode(file.value).Some?
                 && IsAccepted(p, p.decode(file.value).value)
    ensures Checked(p, configFile, file).Some? ==>
              Checked(p, configFile, file).value == (p.decode(file.value).value, p.hash(file.value))
  {
    hide ConfigurationErrors, ValidSources;
    if file.Some? && p.decode(file.value).Some? {
      var config := p.decode(file.value).value;
      ConfigurationAccepted(p.env, config, p.upstream(config));
    }
  }

  /** One validated member for each issuer of an accepted configuration. */
  ghost predicate IsBuiltFrom(
      p: Platform, net: Network, config: AuthenticationConfiguration, authenticator: Authenticator)
  {
    && IsAccepted(p, config)
    && |authenticator| == |config.jwt|
    && forall i | 0 <= i < |authenticator| ::
         IsMemberOf(p, net, config.jwt[i], authenticator[i]) && IsValidatedMember(p, authenticator[i])
  }

  /** The authenticator was built from an accepted configuration. */
  ghost predicate IsValidated(p: Platform, authenticator: Authenticator) {
    exists config, net :: IsBuiltFrom(p, net, config, authenticator)
  }

  ghost predicate IsValidatedMember(p: Platform, m: Member) {
    exists net: Network ::
      ValidatedChain.Built(
        p.env, BuildEnvOf(p, net), m.jwt.externalClaimsSources, m.expanders, SourcesPath(0))
  }

  lemma {:induction false} BuiltMembers(p: Platform, net: Network, jwts: seq<JWTAuthenticator>)
    requires AreValid(p.env, jwts) && AuthenticatorFor(p, net, jwts).Ok?
    ensures var members := AuthenticatorFor(p, net, jwts).value;
            |members| == |jwts| && forall i | 0 <= i < |jwts| :: IsValidatedMember(p, members[i])
  {
    hide *;
    AuthenticatorUnfold(p, net, jwts);
    if jwts != [] {
      var n := |jwts| - 1;
      AuthenticatorRunUnfold(p.env, jwts);
      BuiltMembers(p, net, jwts[..n]);
      BuiltMember(p, net, jwts[n]);
      assert forall i | 0 <= i < n :: jwts[..n][i] == jwts[i];
    }
  }

  lemma BuiltMember(p: Platform, net: Network, jwt: JWTAuthenticator)
    requires ValidSources(p.env, jwt.externalClaimsSources) && MemberFor(p, net, jwt).Ok?
    ensures IsValidatedMember(p, MemberFor(p, net, jwt).value)
  {
    SourcesAccepted(p.env, jwt.externalClaimsSources, SourcesPath(0));
    hide SourcesErrors, ValidSources, ResolversFor, SourcesPath;
    var m := MemberFor(p, net, jwt).value;
    assert ValidatedChain.Built(
        p.env, BuildEnvOf(p, net), m.jwt.externalClaimsSources, m.expanders, SourcesPath(0));
  }

  lemma BuildIsValidated(p: Platform, configFile: string, load: Load)
    requires Good(p, configFile, load)
    ensures IsValidated(p, Build(p, configFile, load).value)
  {
    hide Checked, AuthenticatorFor, AreValid, IsValidatedMember, IsMemberOf, MemberBuilds;
    CheckedExactly(p, configFile, load.file);
    var config := Checked(p, configFile, load.file).value.0;
    BuiltMembers(p, load.net, config.jwt);
    ValidatedConfigurationBuilds(p, load.net, config.jwt);
    assert IsBuiltFrom(p, load.net, config, Build(p, configFile, load).value);
  }

  /** Whatever the file contained at any time, the authenticator in use is validated. */
  lemma {:induction false} ActiveIsValidated(p: Platform, configFile: string, loads: seq<Load>)
    ensures var s := After(p, configFile, loads);
            s.active.Some? ==> IsValidated(p, s.active.value.authenticator)
  {
    hide *;
    AfterUnfold(p, configFile, loads);
    if loads != [] {
      var n := |loads| - 1;
      ActiveIsValidated(p, configFile, loads[..n]);
      ReloadCases(p, configFile, After(p, configFile, loads[..n]), loads[n]);
      if Good(p, configFile, loads[n]) {
        BuildIsValidated(p, configFile, loads[n]);
      }
    }
  }
}
