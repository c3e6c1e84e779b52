/**
 The external claims resolver: deciding whether to consult a source, building the request,
 extracting claims from the response, and merging them into the caller's claims in place.
 */
module ClaimsResolver {
  import opened Outcomes
  import opened Cel
  import opened ApiTypes
  import GoQuote
  import Hostname
  import SourcePath

  // ----- a resolver -----

  datatype TokenGetter = Anonymous | RequestProvided | ClientCredential(config: ClientCredentialConfig)

  /** A compiled mapping and the claim it writes. */
  datatype Mapping = Mapping(claim: string, program: Program<Json>)

  datatype HttpClient = HttpClient(timeoutMillis: nat, rootCA: Option<string>)

  datatype Resolver = Resolver(
    tokenGetter: TokenGetter,
    client: HttpClient,
    hostname: string,
    path: Program<Claims>,
    mappings: seq<Mapping>,
    conditions: seq<Program<Claims>>)

  function NamesWritten(r: Resolver): set<string> {
    set i | 0 <= i < |r.mappings| :: r.mappings[i].claim
  }

  // ----- its surroundings -----

  /** A GET request, with its Authorization header if it has one. */
  datatype Request = Request(url: string, authorization: Option<string>)

  /** `NilResponse` is a nil response without an error; a body of `None` cannot be read. */
  datatype Answer = Failure | NilResponse | Response(status: int, body: Option<string>)

  datatype Exchange = Exchange(answer: Answer, millis: nat)

  /**
   What one source meets while it runs: the token of the request being authenticated, the outcome of
   the client credentials flow, the answers to requests, JSON decoding, Go's table of printable
   characters, and whether url.Parse accepts a URL that the model does not follow.
   */
  datatype World = World(
    requestToken: Option<string>,
    clientToken: ClientCredentialConfig -> Option<string>,
    send: (HttpClient, Request) -> Exchange,
    decode: string -> Option<Json>,
    isPrint: char -> bool,
    parsesOther: string -> bool)

  const STATUS_OK := 200

  // ----- conditions -----

  /** Every value, or `None` if any evaluation fails. */
  function EvalAll<In>(programs: seq<Program<In>>, input: In): Option<seq<Value>> {
    if programs == [] then Some([])
    else
      var n := |programs| - 1;
      match (EvalAll(programs[..n], input), programs[n].eval(input))
      case (Some(values), Some(v)) => Some(values + [v])
      case _ => None
  }

  /** The mapper's loop: it stops at the first evaluation error. */
  method Evaluate<In>(programs: seq<Program<In>>, input: In) returns (result: Option<seq<Value>>)
    ensures result == EvalAll(programs, input)
  {
    var values := [];
    for i := 0 to |programs|
      invariant EvalAll(programs[..i], input) == Some(values)
    {
      assert programs[..i + 1][..i] == programs[..i];
      match programs[i].eval(input) {
        case None =>
          EvalAllStops(programs, input, i);
          return None;
        case Some(v) =>
          values := values + [v];
      }
    }
    assert programs[..|programs|] == programs;
    return Some(values);
  }

  lemma {:induction false} EvalAllStops<In>(programs: seq<Program<In>>, input: In, i: nat)
    requires i < |programs| && programs[i].eval(input).None?
    ensures EvalAll(programs, input).None?
    decreases |programs|
  {
    if i < |programs| - 1 {
      EvalAllStops(programs[..|programs| - 1], input, i);
    }
  }

  lemma {:induction false} EvalAllMeaning<In>(programs: seq<Program<In>>, input: In)
    ensures EvalAll(programs, input).Some?
            <==> forall i | 0 <= i < |programs| :: programs[i].eval(input).Some?
    ensures EvalAll(programs, input).Some? ==>
              && |EvalAll(programs, input).value| == |programs|
              && forall i | 0 <= i < |programs| ::
                   Some(EvalAll(programs, input).value[i]) == programs[i].eval(input)
  {
    if programs != [] {
      EvalAllMeaning(programs[..|programs| - 1], input);
    }
  }

  /** The loop over the results: `None` for a result that is no boolean, else whether all are true. */
  function AllTrue(values: seq<Value>): Option<bool> {
    if values == [] then Some(true)
    else if !values[0].BoolValue? then None
    else if !values[0].b then Some(false)
    else AllTrue(values[1..])
  }

  function ConditionsOutcome(conditions: seq<Program<Claims>>, c: Claims): Option<bool> {
    match EvalAll(conditions, c)
    case None => None
    case Some(values) => AllTrue(values)
  }

  method EvaluateConditionsWithClaims(conditions: seq<Program<Claims>>, c: Claims)
    returns (result: Option<bool>)
    ensures result == ConditionsOutcome(conditions, c)
  {
    var results := Evaluate(conditions, c);
    if results.None? {
      return None;
    }
    var values := results.value;
    for i := 0 to |values|
      invariant AllTrue(values) == AllTrue(values[i..])
    {
      if !values[i].BoolValue? {
        return None;
      }
      if !values[i].b {
        return Some(false);
      }
    }
    return Some(true);
  }

  // ----- the URL -----

  function URLOf(r: Resolver, c: Claims): Option<string> {
    match r.path.eval(c)
    case Some(ListOf(list)) =>
      (match StringList(list)
       case None => None
       case Some(values) => Some(SourcePath.SourceURL(r.hostname, SourcePath.PathOf(values))))
    case _ => None
  }

  method GetURLWithClaims(r: Resolver, c: Claims) returns (url: Option<string>)
    ensures url == URLOf(r, c)
  {
    var result := r.path.eval(c);
    if result.None? || !result.value.ListOf? {
      return None;
    }
    var values := StringList(result.value.list);
    if values.None? {
      return None;
    }
    var path := SourcePath.BuildPath(values.value);
    if path.None? {
      return None;
    }
    return Some(SourcePath.SourceURL(r.hostname, path.value));
  }

  /** http.NewRequest fails exactly if its URL does not parse. */
  function CanRequest(w: World, url: string): bool {
    if !(SourcePath.HTTPS <= url) then w.parsesOther(url)
    else match Hostname.ParseHttps(url[|SourcePath.HTTPS|..])
      case Parsed(_) => true
      case Unfollowed => w.parsesOther(url)
      case _ => false
  }

  function AccessToken(getter: TokenGetter, w: World): Option<string> {
    match getter
    case Anonymous => Some("")
    case RequestProvided =>
      if w.requestToken.None? || w.requestToken.value == "" then None else w.requestToken
    case ClientCredential(config) => w.clientToken(config)
  }

  function RequestFor(url: string, token: string): Request {
    Request(url, if token == "" then None else Some("Bearer " + token))
  }

  // ----- claims from a response -----

  function Programs(mappings: seq<Mapping>): (programs: seq<Program<Json>>)
    ensures |programs| == |mappings|
    ensures forall i | 0 <= i < |mappings| :: programs[i] == mappings[i].program
  {
    seq(|mappings|, i requires 0 <= i < |mappings| => mappings[i].program)
  }

  /** The claims for values that are all strings, each printed as raw JSON. */
  function ClaimsFor(isPrint: char -> bool, mappings: seq<Mapping>, values: seq<Value>): Option<Claims>
    requires |mappings| == |values|
  {
    if mappings == [] then Some(map[])
    else
      var n := |mappings| - 1;
      match (ClaimsFor(isPrint, mappings[..n], values[..n]), values[n])
      case (Some(claims), StringValue(s)) => Some(claims[mappings[n].claim := GoQuote.Quote(isPrint, s)])
      case _ => None
  }

  lemma {:induction false} ClaimsForStops(
      isPrint: char -> bool, mappings: seq<Mapping>, values: seq<Value>, i: nat)
    requires i < |mappings| == |values| && !values[i].StringValue?
    ensures ClaimsFor(isPrint, mappings, values).None?
    decreases |mappings|
  {
    if i < |mappings| - 1 {
      ClaimsForStops(isPrint, mappings[..|mappings| - 1], values[..|mappings| - 1], i);
    }
  }

  function ClaimsFromBody(w: World, mappings: seq<Mapping>, body: Option<string>): Option<Claims> {
    if body.None? then None
    else match w.decode(body.value)
      case None => None
      case Some(json) =>
        EvalAllMeaning(Programs(mappings), json);
        match EvalAll(Programs(mappings), json)
        case None => None
        case Some(values) => ClaimsFor(w.isPrint, mappings, values)
  }

  method GetClaimsFromResponse(w: World, mappings: seq<Mapping>, body: Option<string>)
    returns (claims: Option<Claims>)
    ensures claims == ClaimsFromBody(w, mappings, body)
  {
    if body.None? {
      return None;
    }
    var json := w.decode(body.value);
    if json.None? {
      return None;
    }
    var results := Evaluate(Programs(mappings), json.value);
    if results.None? {
      return None;
    }
    EvalAllMeaning(Programs(mappings), json.value);
    var values := results.value;
    var externalClaims := map[];
    for i := 0 to |values|
      invariant ClaimsFor(w.isPrint, mappings[..i], values[..i]) == Some(externalClaims)
    {
      if !values[i].StringValue? {
        ClaimsForStops(w.isPrint, mappings, values, i);
        return None;
      }
      assert mappings[..i + 1][..i] == mappings[..i] && values[..i + 1][..i] == values[..i];
      externalClaims := externalClaims[mappings[i].claim := GoQuote.Quote(w.isPrint, values[i].s)];
    }
    assert mappings[..|values|] == mappings && values[..|values|] == values;
    return Some(externalClaims);
  }

  // ----- expansion -----

  /** The claims of the request being authenticated, which the resolvers change in place. */
  class ClaimsMap {
    var claims: Claims

    constructor (c: Claims)
      ensures claims == c
    {
      claims := c;
    }
  }

  /** The request a source makes: none unless conditions, token and URL all succeed. */
  function RequestMade(r: Resolver, w: World, c: Claims): Option<Request> {
    if ConditionsOutcome(r.conditions, c) != Some(true) then None
    else match (AccessToken(r.tokenGetter, w), URLOf(r, c))
      case (Some(token), Some(url)) =>
        if CanRequest(w, url) then Some(RequestFor(url, token)) else None
      case _ => None
  }

  /** The claims a source contributes; `None` if it is not consulted or fails at any stage. */
  function Fetched(r: Resolver, w: World, c: Claims): Option<Claims> {
    match RequestMade(r, w, c)
    case None => None
    case Some(request) =>
      match w.send(r.client, request).answer
      case Response(status, body) =>
        if status == STATUS_OK then ClaimsFromBody(w, r.mappings, body) else None
      case _ => None
  }

  function Overlay(c: Claims, fetched: Option<Claims>): Claims {
    match fetched
    case None => c
    case Some(extra) => c + extra
  }

  /** A request together with the time it took. */
  datatype Effect = Effect(request: Request, millis: nat)

  function EffectsOf(r: Resolver, w: World, c: Claims): seq<Effect> {
    match RequestMade(r, w, c)
    case None => []
    case Some(request) => [Effect(request, w.send(r.client, request).millis)]
  }

  /** ExpandClaims never fails; `effects` records the requests it makes. */
  method ExpandClaims(r: Resolver, w: World, c: ClaimsMap) returns (effects: seq<Effect>)
    modifies c
    ensures c.claims == Overlay(old(c.claims), Fetched(r, w, old(c.claims)))
    ensures effects == EffectsOf(r, w, old(c.claims))
  {
    effects := [];
    var shouldSource := EvaluateConditionsWithClaims(r.conditions, c.claims);
    if shouldSource.None? || !shouldSource.value {
      return;
    }
    var token := AccessToken(r.tokenGetter, w);
    if token.None? {
      return;
    }
    var url := GetURLWithClaims(r, c.claims);
    if url.None? {
      return;
    }
    if !CanRequest(w, url.value) {
      return;
    }
    var request := RequestFor(url.value, token.value);
    var exchange := w.send(r.client, request);
    effects := [Effect(request, exchange.millis)];
    match exchange.answer {
      case Failure =>
        return;
      case NilResponse =>
        return;
      case Response(status, body) =>
        if status != STATUS_OK {
          return;
        }
        var externalClaims := GetClaimsFromResponse(w, r.mappings, body);
        if externalClaims.None? {
          return;
        }
        c.claims := c.claims + externalClaims.value;
    }
  }

  /** An expander, together with what it meets when its turn comes. */
  datatype Step = Step(resolver: Resolver, world: World)

  /** The claims after all expanders have run in list order. */
  function ExpandAll(steps: seq<Step>, c: Claims): Claims {
    if steps == [] then c
    else
      var n := |steps| - 1;
      var before := ExpandAll(steps[..n], c);
      Overlay(before, Fetched(steps[n].resolver, steps[n].world, before))
  }

  function EffectsOfAll(steps: seq<Step>, c: Claims): seq<Effect> {
    if steps == [] then []
    else
      var n := |steps| - 1;
      EffectsOfAll(steps[..n], c)
      + EffectsOf(steps[n].resolver, steps[n].world, ExpandAll(steps[..n], c))
  }

  lemma ExpandAllNext(steps: seq<Step>, c: Claims, i: nat)
    requires i < |steps|
    ensures var before := ExpandAll(steps[..i], c);
            && ExpandAll(steps[..i + 1], c)
               == Overlay(before, Fetched(steps[i].resolver, steps[i].world, before))
            && EffectsOfAll(steps[..i + 1], c)
               == EffectsOfAll(steps[..i], c)
                  + EffectsOf(steps[i].resolver, steps[i].world, before)
  {
    assert steps[..i + 1][..i] == steps[..i];
  }

  /** The loop over the expanders, all of which run on the same map. */
  method DoClaimsExpansion(steps: seq<Step>, c: ClaimsMap) returns (effects: seq<Effect>)
    modifies c
    ensures c.claims == ExpandAll(steps, old(c.claims))
    ensures effects == EffectsOfAll(steps, old(c.claims))
  {
    hide Fetched, EffectsOf, Overlay;
    effects := [];
    for i := 0 to |steps|
      invariant c.claims == ExpandAll(steps[..i], old(c.claims))
      invariant effects == EffectsOfAll(steps[..i], old(c.claims))
    {
      ExpandAllNext(steps, old(c.claims), i);
      var more := ExpandClaims(steps[i].resolver, steps[i].world, c);
      effects := effects + more;
    }
    assert steps[..|steps|] == steps;
  }
}
