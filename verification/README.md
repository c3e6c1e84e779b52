# A verified model of external claims and configuration reload

The program is an authentication webhook for the Kubernetes API server. It verifies OIDC tokens and,
before it maps their claims to a user, asks configured HTTP sources for further claims. Its
configuration is a file that it watches and reloads while it serves requests. This project models the
parts of it that decide who a token stands for, and proves what they promise:

- **The request of a source.** `Strings`, `PercentEncoding`, `UrlPath`, `SourcePath`, `Regexp` and
  `Hostname` model escaping, path cleaning, the parts of URL parsing that matter here, and the hostname
  check. The path is built value by value as the program does it, and shown to be a single clean, with
  the exact domain of its round trip.
- **The value of a claim.** `GoQuote` models Go's quoting and JSON string decoding side by side.
- **The validator.** `Validation` holds the loops with their shared set, written imperatively and proved
  against specification functions; `ValidationProperties` proves those equivalent to a declarative
  predicate, and `ValidationErrors` says for every kind of error and every path whether it is reported.
- **Lists in any order.** `Multisets` holds what reordering keeps.
- **One source and the chain of sources.** `ClaimsResolver` is the in-place pipeline, `Expanders` builds
  resolvers from configuration, `ClaimsChain` proves what a chain of sources does to the claims, and
  `ValidatedChain` states that for every configuration that passed validation. `ChainOrder` gives the
  exact condition for the order of the sources to be irrelevant.
- **The configurator.** `Configurator` is the object with its authenticator, cancel function and hash;
  `ConfiguratorProperties` proves which authenticator is in use after any loads.
- **Concurrency.** `HotReload` is a transition system in which any number of reloads and requests take
  small steps in any order around one mutex; every sequence of steps is a run. `HotReloadProperties`
  and `EndToEnd` prove the refinement and where every answer comes from; `Authenticate` is the handler.

CEL, the certificate parser, the network, JSON, YAML, the hash and the OIDC verifier enter as functions
that are given: compilation depends on text, variables and return type only; evaluation on its input
only. Claims are maps from names to raw JSON. Answers of sources may differ from one turn to the next
except where order independence is stated, which needs them to depend on the request alone. The hash
must be non-empty, as SHA-256 is. Only the results that name the last good *file* also need it to
tell the good files apart: `ConfiguratorProperties.ActiveIsLastGood` gives the exact condition and
`ConfiguratorProperties.CollisionIsMissed` a failure without it. No end-to-end result depends on it.

## Where the code and its documentation differ

The model follows the code.

- `pkg/apis/authentication/types.go:506` promises hostnames of at most 253 characters. The validator
  does not check that (`Hostname.NoLengthLimit`).
- `docs/cel-expressions.md:14-15` says that external claims are not yet available to conditions and
  paths. All sources work on the same map, so a later source does see what an earlier one wrote
  (`ClaimsChain.EarlierResultsAreVisible`), and two sources can end in different claims depending on
  their order, already in a validated configuration (`ChainOrder.OrderMatters`). The order is irrelevant
  exactly if no source disturbs another one: whatever a source that is asked writes, it leaves unchanged
  whether the other is asked and with which URL (`ChainOrder.OrderFreeExactly`). Sources that do not read
  each other's names meet this (`ClaimsChain.UnreadIsUndisturbed`).
- Why a source is not consulted, an error or a plain false, can depend on the order of its conditions;
  `ClaimsChain.OutcomeOrderFree` says exactly when. With compiled conditions it never does
  (`ValidatedChain.ValidatedOutcomeOrderFree`).
- Claims are printed with `%q` (`pkg/oidc/externalclaims/resolver/resolver.go:386`), which is not JSON
  for every string; `GoQuote.QuoteRoundTrip` gives the exact condition.
- Values that are empty, `.` or `..` do not reach a source as they are: `PathEscape` keeps them and
  `JoinPath` cleans them. `JoinPath` also puts `./` before a first segment that contains a colon and
  leaves a path `*` unescaped; none of this changes what the path decodes to.
- An answer "not initialized" is possible after the first successful load, for a request that asked the
  configurator before it (`EndToEnd.LateNotInitialized`). It is impossible for a request that arrives
  afterwards (`EndToEnd.InitializedAfterFirstLoad`).
- An authenticator may answer after its context was cancelled (`EndToEnd.CancelledWhenAnswering`). It was
  alive when the request fetched it (`EndToEnd.SingleVersion`), and it still is when it answers exactly
  if it is still active and not just being replaced (`EndToEnd.AliveWhenAnswering`).

## Model

| member | source | states |
|---|---|---|
| `SourcePath.BuildPath` | pkg/oidc/externalclaims/resolver/resolver.go:324-334 | Joining the escaped values onto the path one by one, re-parsing it each time, never fails for any list of byte strings and gives the path of a single clean of all escaped segments |
| `SourcePath.PathDotDot` | pkg/oidc/externalclaims/resolver/resolver.go:329-334 | In the path, an ordinary value followed by `..` leaves no trace, and neither does a leading `..` |
| `SourcePath.PathSkips` | pkg/oidc/externalclaims/resolver/resolver.go:329-334 | In the path, empty and `.` values leave no trace wherever they stand |
| `SourcePath.PathOfOrdinary` | pkg/oidc/externalclaims/resolver/resolver.go:324-334 | The path of ordinary values is the escaped values joined by slashes, with `./` before a first value that has a colon and a first value `*` left as it is |
| `UrlPath.CleaningLaws` | pkg/oidc/externalclaims/resolver/resolver.go:330 | The laws of cleaning: `x/..` and a leading `..` vanish, so do empty and dot elements, and ordinary elements stay |
| `UrlPath.JoinPathStep` | pkg/oidc/externalclaims/resolver/resolver.go:330 | Joining one escaped segment onto a path built so far gives the path with that segment cleaned in, including the `./` prefix and the unescaped `*` |
| `SourcePath.CleanEscapeCommute` | pkg/oidc/externalclaims/resolver/resolver.go:329-334 | Cleaning before escaping and after it is the same: `""`, `.` and `..` are exactly the values that act as path operators |
| `SourcePath.ReadBuiltURL` | pkg/oidc/externalclaims/resolver/resolver.go:341-343 | Splitting a built URL after its host and decoding its path gives back the hostname and the cleaned values |
| `SourcePath.URLRoundTrip` | pkg/oidc/externalclaims/resolver/resolver.go:314-344 | The decoded path is the original list of values if and only if no value is empty, `.` or `..` |
| `SourcePath.URLInjective` | pkg/oidc/externalclaims/resolver/resolver.go:314-344 | Two built URLs are equal if and only if hostnames and cleaned values are; ordinary values are their own clean |
| `PercentEncoding.UnescapeEscape` | pkg/oidc/externalclaims/resolver/resolver.go:330 | Percent-decoding an escaped byte string gives it back |
| `PercentEncoding.PathEscapeExactly` | pkg/oidc/externalclaims/resolver/resolver.go:330 | Letters, digits and `-_.~$&+=:@` stand for themselves, every other byte as `%` and two uppercase hexadecimal digits |
| `PercentEncoding.EscapeInjective` | pkg/oidc/externalclaims/resolver/resolver.go:330 | Different byte strings escape differently |
| `Hostname.AcceptedHostnames` | pkg/apis/authentication/validation/validation.go:104-134 | Pattern, URL parse and port bound accept exactly dot-separated lowercase labels, optionally followed by a colon and the canonical decimal of 1..65535 |
| `Hostname.LabelExactly` | pkg/apis/authentication/validation/validation.go:94-96 | A label is made of lowercase letters, digits and hyphens, and neither starts nor ends with a hyphen |
| `Hostname.ParseErrorsUnreachable` | pkg/apis/authentication/validation/validation.go:117-126 | After the pattern accepts, neither the URL parse nor Atoi can fail |
| `Hostname.PatternMatches` | pkg/apis/authentication/validation/validation.go:94-100 | The regular expression matches exactly the subdomain names with an optional port of up to five digits |
| `Hostname.NoLengthLimit` | pkg/apis/authentication/validation/validation.go:104-134 | Hostnames of every length are accepted; the documented 253-character limit is not checked |
| `Hostname.AcceptedHostnameParses` | pkg/oidc/externalclaims/resolver/resolver.go:228 | An accepted hostname followed by any well-formed path parses as an https URL with that host |
| `GoQuote.QuoteRoundTrip` | pkg/oidc/externalclaims/resolver/resolver.go:386 | A claim printed with `%q` decodes as JSON to the same string if and only if no character is one that Go writes with `\a`, `\v`, `\x` or `\U`; otherwise it is not JSON at all |
| `GoQuote.PlainText` | pkg/oidc/externalclaims/resolver/resolver.go:386 | Text is quoted as it stands if and only if it is printable and has no quotes or backslashes |
| `GoQuote.ShortEscapes` | pkg/oidc/externalclaims/resolver/resolver.go:386 | The seven escapes that Go shares with JSON |
| `GoQuote.OtherEscapes` | pkg/oidc/externalclaims/resolver/resolver.go:386 | The escapes that JSON lacks, and how characters that are not printable are written |
| `Validation.ValidateClientCredentialConfig` | pkg/apis/authentication/validation/validation.go:346-363 | Errors are those of ID, secret, endpoint, TLS and every scope, and there are none exactly for a well-formed client credential |
| `Validation.ClientCredentialErrors` | pkg/apis/authentication/validation/validation.go:346-363 | No errors exactly if ID and secret are printable, endpoint and TLS are well formed and every scope is |
| `Validation.TokenEndpointErrors` | pkg/apis/authentication/validation/validation.go:407-444 | No errors exactly for an https URL with host and path and without query, fragment or user |
| `Validation.TLSErrors` | pkg/apis/authentication/validation/validation.go:297-315 | No errors exactly if TLS is absent or has a non-empty certificate authority that parses |
| `Validation.ScopeErrors` | pkg/apis/authentication/validation/validation.go:367-377 | No errors exactly for a non-empty scope of scope characters |
| `Validation.CredentialErrors` | pkg/apis/authentication/validation/validation.go:383-405 | No errors exactly for a non-empty printable string (client ID and client secret) |
| `Validation.AuthenticationErrors` | pkg/apis/authentication/validation/validation.go:317-344 | No errors exactly if authentication is absent, a request-provided token without client credential, or a well-formed client credential |
| `Validation.HostnameErrors` | pkg/apis/authentication/validation/validation.go:104-134 | No errors exactly if the hostname is present and well formed |
| `Validation.PathExpressionErrors` | pkg/apis/authentication/validation/validation.go:138-155 | No errors exactly for a non-empty expression that compiles |
| `Validation.MappingExpressionErrors` | pkg/apis/authentication/validation/validation.go:239-256 | No errors exactly for a non-empty response expression that compiles |
| `Validation.URLErrors` | pkg/apis/authentication/validation/validation.go:81-92 | No errors exactly if URL, hostname and path expression are present and well formed |
| `Validation.ValidateExternalClaimsSourceAuthentication` | pkg/apis/authentication/validation/validation.go:317-344 | The branches over type and client credential give exactly the specified errors |
| `Validation.ValidateExternalClaimsSourceMappingName` | pkg/apis/authentication/validation/validation.go:271-295 | Errors and the new set: a well-formed unseen name is inserted, a seen one is a duplicate, a malformed one is neither |
| `Validation.ValidateExternalClaimsSourceMappings` | pkg/apis/authentication/validation/validation.go:209-225 | The loop over mappings threads the shared set and appends errors as specified, with the early return for an empty list |
| `Validation.ValidateExternalSourceCondition` | pkg/apis/authentication/validation/validation.go:180-203 | A condition expression is checked for presence, compilation and repetition within its source |
| `Validation.ValidateExternalClaimsSourceConditions` | pkg/apis/authentication/validation/validation.go:162-176 | At most 16 conditions, with a set of their own |
| `Validation.ValidateExternalClaimsSource` | pkg/apis/authentication/validation/validation.go:69-79 | One source's errors and its additions to the shared set |
| `Validation.ValidateExternalClaimsSources` | pkg/apis/authentication/validation/validation.go:53-67 | At most five sources, one set of names threaded through all of them |
| `Validation.ValidateAuthenticationConfiguration` | pkg/apis/authentication/validation/validation.go:21-45 | Errors for an empty list, those of the Kubernetes validation, then those of every authenticator's sources |
| `ValidationProperties.NameOutcomeCases` | pkg/apis/authentication/validation/validation.go:271-295 | A name is reported as a duplicate exactly if it is well formed and seen; only well-formed names enter the set |
| `ValidationProperties.NameExactly` | pkg/apis/authentication/validation/validation.go:258-286 | A name is 1 to 256 lowercase letters and underscores |
| `ValidationProperties.ScopeExactly` | pkg/apis/authentication/validation/validation.go:365-377 | A scope is printable ASCII without space, double quote and backslash, and not empty |
| `ValidationErrors.SourcesReport` | pkg/apis/authentication/validation/validation.go:53-344 | An error of a kind at a path is among those for a source list if and only if the field at that path has that fault: missing, malformed, too long, repeated, forbidden or too many (more than 5, 16 and 16) |
| `ValidationErrors.ConfigurationReports` | pkg/apis/authentication/validation/validation.go:21-45 | The same for a configuration: a missing issuer, what the Kubernetes validation found, and the faults of each issuer's sources under its index |
| `ValidationProperties.SourceOutcomeMeaning` | pkg/apis/authentication/validation/validation.go:69-79 | A source passes exactly if it is well formed and its names are distinct and unseen; it adds exactly its well-formed names |
| `ValidationProperties.SourcesAccepted` | pkg/apis/authentication/validation/validation.go:53-79 | Soundness and completeness: the error list is empty if and only if there are at most 5 sources, each well formed with 1 to 16 mappings, at most 16 distinct conditions, and no claim name occurs twice in all of them |
| `ValidationProperties.ConfigurationAccepted` | pkg/apis/authentication/validation/validation.go:21-45 | The same for a whole configuration, which also must not be empty and must pass the Kubernetes validation |
| `ValidationProperties.AcceptanceHereditary` | pkg/apis/authentication/validation/validation.go:53-67 | Every permutation and every sublist, in any order, of an accepted source list is accepted |
| `ValidationProperties.SourceRunConcat` | pkg/apis/authentication/validation/validation.go:62-64 | Threading the set is compositional: errors of `xs + ys` are those of `xs`, then those of `ys` re-indexed and started from the names `xs` inserted |
| `ValidationProperties.DuplicateAccounting` | pkg/apis/authentication/validation/validation.go:288-292 | Duplicate-name errors number the well-formed names minus the distinct ones; the final set is exactly the well-formed names |
| `ClaimsResolver.EvaluateConditionsWithClaims` | pkg/oidc/externalclaims/resolver/resolver.go:288-312 | All conditions are evaluated first and any error wins; then the first non-boolean or false result decides |
| `ClaimsResolver.EvalAllMeaning` | pkg/internal/third_party/kubernetes/apiserver/pkg/authentication/cel/mapper.go:82-98 | Evaluation of a list succeeds exactly if every element does, and gives the values in order |
| `ClaimsResolver.GetURLWithClaims` | pkg/oidc/externalclaims/resolver/resolver.go:314-344 | The URL is that of the path values, and there is none if the expression fails, is no list or holds something else than strings |
| `Cel.StringListMeaning` | pkg/internal/third_party/kubernetes/apiserver/plugin/pkg/authenticator/token/oidc/oidc.go:1245-1281 | A list gives strings if and only if every item is one, and then they are these in order without the empty ones; a Go string slice is taken as it is |
| `ClaimsResolver.GetClaimsFromResponse` | pkg/oidc/externalclaims/resolver/resolver.go:346-390 | Claims for all mappings, or none if reading, decoding, any evaluation or any result type fails |
| `ClaimsResolver.ExpandClaims` | pkg/oidc/externalclaims/resolver/resolver.go:206-275 | In place, the claims become their overlay with what the source fetched, with at most one request sent, and the source never fails |
| `ClaimsChain.FetchedExactly` | pkg/oidc/externalclaims/resolver/resolver.go:239-272 | A source contributes if and only if its request is sent, the answer has status 200 and a body that is read and decoded, and every mapping yields a string |
| `ClaimsResolver.DoClaimsExpansion` | pkg/internal/third_party/kubernetes/apiserver/plugin/pkg/authenticator/token/oidc/oidc_patch.go:33-46 | The expanders run in list order on the same claims |
| `ClaimsChain.ConsultDecision` | pkg/oidc/externalclaims/resolver/resolver.go:288-312 | A source is consulted if and only if every condition evaluates to the boolean true |
| `ClaimsChain.ConsultDecisionOrderFree` | pkg/oidc/externalclaims/resolver/resolver.go:294-311 | Permuting the conditions never changes whether the source is consulted |
| `ClaimsChain.OutcomeExactly` | pkg/oidc/externalclaims/resolver/resolver.go:288-312 | The outcome is false if and only if all conditions have values and the first that is not true is a false; it is true if and only if all are true |
| `ClaimsChain.OutcomeOrderFree` | pkg/oidc/externalclaims/resolver/resolver.go:294-311 | The outcome, an error or a plain false included, is the same for every order of the conditions if and only if they are not mixed: all having values, one of them false and one no boolean |
| `ClaimsChain.BooleanOutcomeOrderFree` | pkg/oidc/externalclaims/resolver/resolver.go:294-311 | Conditions that only return booleans or fail have an outcome free of their order |
| `ClaimsChain.FetchedNames` | pkg/oidc/externalclaims/resolver/resolver.go:375-389 | A source that succeeds fetches exactly its configured names |
| `ClaimsChain.FetchedContents` | pkg/oidc/externalclaims/resolver/resolver.go:375-389 | Each fetched claim is the string of its mapping in Go's quotes, and reads back as JSON exactly when the string needs no Go-only escape |
| `ClaimsChain.Atomicity` | pkg/oidc/externalclaims/resolver/resolver.go:206-275 | A source that fails at any stage changes nothing; one that succeeds writes exactly its names and no other key |
| `ClaimsChain.UnionContents` | pkg/oidc/externalclaims/resolver/resolver.go:272 | What several sources with disjoint names fetched is a disjoint union: each claim has the value of its one source |
| `ClaimsChain.ExactResult` | pkg/internal/third_party/kubernetes/apiserver/plugin/pkg/authenticator/token/oidc/oidc_patch.go:39-43 | After any chain the claims are the token's own overlaid with the union of what the successful sources fetched |
| `ClaimsChain.ResultByClaim` | pkg/internal/third_party/kubernetes/apiserver/plugin/pkg/authenticator/token/oidc/oidc_patch.go:39-43 | The same claim by claim; a claim nobody supplied is untouched |
| `ClaimsChain.FetchedIgnores` | pkg/oidc/externalclaims/resolver/resolver.go:206-239 | A source whose conditions and path ignore some claims behaves the same whatever those claims are |
| `ClaimsChain.OrderIndependence` | pkg/internal/third_party/kubernetes/apiserver/plugin/pkg/authenticator/token/oidc/oidc_patch.go:39-43 | If no source disturbs another one, every order of the sources ends in the same claims |
| `ClaimsChain.EarlierResultsAreVisible` | docs/cel-expressions.md:14-15 | Against the documentation, a later source's conditions see claims an earlier one wrote: if one of B's conditions is the presence of a claim A supplies, B is consulted after A exactly if its other conditions hold there, and not consulted before A |
| `ClaimsChain.OrderDecides` | pkg/internal/third_party/kubernetes/apiserver/plugin/pkg/authenticator/token/oidc/oidc_patch.go:39-43 | If B needs a claim that A supplies, the two orders of A and B end in different claims: B's claim is there in one and missing in the other |
| `ClaimsChain.UnreadIsUndisturbed` | pkg/oidc/externalclaims/resolver/resolver.go:208-239 | A source whose conditions and path do not read another one's names is not disturbed by it |
| `ClaimsChain.ReadingAfter` | pkg/oidc/externalclaims/resolver/resolver.go:208-239 | Whether an undisturbed source is asked, and with which URL, is the same after any other sources ran |
| `ClaimsChain.RequestsOrderFree` | pkg/internal/third_party/kubernetes/apiserver/plugin/pkg/authenticator/token/oidc/oidc_patch.go:39-43 | If no source disturbs another one, every order sends the same requests, each as often |
| `ClaimsChain.GuardedClaimSurvives` | pkg/oidc/externalclaims/resolver/resolver.go:208-215 | A token's own claim survives if every source that writes it has a condition that is never true in its presence |
| `ClaimsChain.SecondRunIsNoOp` | pkg/oidc/externalclaims/resolver/resolver.go:208-215 | Running a guarded source again after it succeeded, whatever ran between, changes nothing and sends nothing |
| `ClaimsChain.RequestCount` | pkg/internal/third_party/kubernetes/apiserver/plugin/pkg/authenticator/token/oidc/oidc_patch.go:39-43 | A chain sends at most one request per source |
| `ClaimsChain.RequestBudget` | pkg/oidc/externalclaims/resolver/resolver.go:54-66 | The total request time is at most the number of sources times the timeout each request honours |
| `ClaimsChain.TokenConfinement` | pkg/oidc/externalclaims/tokengetters/requestprovidedtoken.go:13-29 | In a chain, if no other source reads the claims fetched with the token being authenticated, another token changes none of the other sources' requests or contributions, and no claim but those |
| `Expanders.BuildMappings` | pkg/oidc/externalclaims/resolver/resolver.go:159-180 | Compiles the mappings in order, skipping incomplete ones and stopping at the first that does not compile |
| `Expanders.BuildConditions` | pkg/oidc/externalclaims/resolver/resolver.go:112-132 | The same for conditions |
| `Expanders.BuildResolver` | pkg/oidc/externalclaims/resolver/resolver.go:34-52 | Token getter, client, URL, mappings, conditions; the first error wins |
| `Expanders.BuildExternalClaimsExpanders` | pkg/oidc/oidc.go:89-106 | One expander for each source in order, or the first error |
| `Expanders.MappingsExactly` | pkg/oidc/externalclaims/resolver/resolver.go:159-180 | The mappings that have a name and an expression, in order; an error if and only if one of these does not compile |
| `Expanders.ConditionsExactly` | pkg/oidc/externalclaims/resolver/resolver.go:112-132 | The same for conditions |
| `Expanders.HttpClientExactly` | pkg/oidc/externalclaims/resolver/resolver.go:63-87 | A client has a timeout of 500 ms and the given authority, unless there is none or it is empty; it fails exactly if its certificates are not taken |
| `Expanders.TokenGetterExactly` | pkg/oidc/oidc.go:108-128 | A getter is of the configured type; it fails exactly for no or an unknown type, a missing client credential, its certificates or the first token |
| `Expanders.ResolverExactly` | pkg/oidc/externalclaims/resolver/resolver.go:34-52 | A resolver needs all five parts and consists of them; of failing ones the first in order gives the error |
| `Expanders.ResolversExactly` | pkg/oidc/oidc.go:89-106 | One resolver for each source in order, or the error of the first source that fails |
| `Expanders.SourceCompiles` | pkg/oidc/externalclaims/resolver/resolver.go:89-180 | For a validated source nothing is skipped, every part is compiled in place, and only certificates or the first token fetch can fail, in a given order |
| `Expanders.ValidationSufficesForBuilding` | pkg/oidc/oidc.go:89-106 | For a validated source list, building succeeds if and only if all certificates are taken and all first tokens fetched, and the expanders match the configuration one by one |
| `ValidatedChain.BuiltResolvers` | pkg/apis/authentication/validation/validation.go:53-67 | Resolvers built from an accepted list: at most five, disjoint names equal to the configured ones, accepted hostnames, 500 ms timeouts |
| `ValidatedChain.ValidatedResult` | pkg/oidc/externalclaims/resolver/resolver.go:206-275 | For every validated configuration, all answers and all tokens: the exact final claims, name by name |
| `ValidatedChain.ValidatedOrderIndependence` | pkg/oidc/externalclaims/resolver/resolver.go:206-275 | Every permutation of a validated list is valid, builds, sends the same requests and ends in the same claims if no source disturbs another one |
| `ValidatedChain.ValidatedOutcomeOrderFree` | pkg/oidc/externalclaims/resolver/resolver.go:112-132 | For a built source, why it is not consulted is free of the order of its conditions, if conditions compile to boolean programs |
| `ChainOrder.OrderFreeExactly` | pkg/internal/third_party/kubernetes/apiserver/plugin/pkg/authenticator/token/oidc/oidc_patch.go:39-43 | The exact condition: for all answers, claims and mapping expressions every order of sound sources ends in the same claims, if and only if no source disturbs another one |
| `ChainOrder.ValidatedOrderFreeExactly` | pkg/internal/third_party/kubernetes/apiserver/plugin/pkg/authenticator/token/oidc/oidc_patch.go:39-43 | The same equivalence for the sources of every validated configuration |
| `ChainOrder.DisturbedPair` | pkg/internal/third_party/kubernetes/apiserver/plugin/pkg/authenticator/token/oidc/oidc_patch.go:39-43 | If A disturbs B, there are answers and mapping expressions for which the two orders of A and B end in different claims |
| `ChainOrder.OrderMatters` | pkg/internal/third_party/kubernetes/apiserver/plugin/pkg/authenticator/token/oidc/oidc_patch.go:39-43 | A validated configuration of two sources, valid and built in both orders, whose two orders end in different claims |
| `ValidatedChain.ValidatedGuard` | pkg/oidc/externalclaims/resolver/resolver.go:208-215 | In a validated configuration, a claim whose one source guards it comes through the chain unchanged |
| `ValidatedChain.ValidatedRequest` | pkg/oidc/externalclaims/resolver/resolver.go:217-239 | A request is sent exactly if conditions, token and path values succeed; its URL starts with `https://`, the source's hostname and a slash, and decodes to the cleaned values; its Authorization header is the one the source's authentication calls for |
| `ValidatedChain.ValidatedBudget` | pkg/apis/authentication/validation/validation.go:47-64 | At most 5 requests and, if each honours its timeout, at most 2500 ms |
| `Configurator.TokenAuthenticatorForAuthenticationConfiguration` | pkg/authenticator/jwt/config/configurator.go:170-196 | One authenticator for each issuer in order, or the first error |
| `Configurator.Configurator.TokenAuthenticator` | pkg/authenticator/jwt/config/configurator.go:48-57 | The active authenticator, or none |
| `Configurator.Configurator.Validate` | pkg/authenticator/jwt/config/configurator.go:63-80 | Configuration and hash of a file that is taken |
| `ConfiguratorProperties.CheckedExactly` | pkg/authenticator/jwt/config/configurator.go:63-80 | A file is taken if and only if there is a path, it can be read and decoded, it has an issuer, the Kubernetes validation has no complaint and every source list is valid; it comes with its own configuration and hash |
| `Configurator.Configurator.HandleConfigChange` | pkg/authenticator/jwt/config/configurator.go:106-140 | The whole new state after a load, and whether it reports an error |
| `ConfiguratorProperties.LoadSucceeds` | pkg/authenticator/jwt/config/configurator.go:106-140 | A load reports no error if and only if the file is taken, and is the one in use or can be built |
| `ConfiguratorProperties.ReloadCases` | pkg/authenticator/jwt/config/configurator.go:106-140 | What a load leaves: the same state for a file that is not taken or is in use, the same authenticator for one that cannot be built, and else the authenticator built from it with its hash |
| `Configurator.Configurator.Run` | pkg/authenticator/jwt/config/configurator.go:82-104 | It succeeds if and only if the first load is good, and then every event is one more load |
| `ConfiguratorProperties.ContextsAreTheActiveOnes` | pkg/authenticator/jwt/config/configurator.go:119-137 | After any loads the contexts not cancelled are exactly the active authenticator's, and the hash is empty exactly if there is none |
| `ConfiguratorProperties.LoadEffect` | pkg/authenticator/jwt/config/configurator.go:106-140 | A failed load keeps authenticator and hash; a replacement has a new context and a different hash, and cancels the old context |
| `ConfiguratorProperties.SecondLoadIsNoOp` | pkg/authenticator/jwt/config/configurator.go:115-117 | Loading an unchanged file again after a load without error does nothing |
| `ConfiguratorProperties.WatchStartsQuietly` | pkg/authenticator/jwt/config/configurator.go:83-91 | The load that the watch does at once after Run's own changes nothing for an unchanged file |
| `ConfiguratorProperties.ActiveIsLastGood` | pkg/authenticator/jwt/config/configurator.go:106-140 | The active authenticator was built from a good load, which is the last good one, later loads having failed or found the same file, if and only if no good load of another file with its hash was missed; if the hash tells good files apart, none was |
| `ConfiguratorProperties.ActiveCameFrom` | pkg/authenticator/jwt/config/configurator.go:119-137 | Whatever the hash, the active authenticator was built from a good load of the file whose hash is stored, and later good loads all had that hash |
| `ConfiguratorProperties.LastGoodIsActive` | pkg/authenticator/jwt/config/configurator.go:106-140 | Conversely, if there is a last good file an authenticator is in use that was built from a good load of a file with the same hash, which is that same file if the hash tells good files apart |
| `ConfiguratorProperties.CollisionIsMissed` | pkg/authenticator/jwt/config/configurator.go:115-117 | Without that, a good new file with the hash of the file in use is missed |
| `ConfiguratorProperties.ActiveIffEverGood` | pkg/authenticator/jwt/config/configurator.go:106-140 | One is active if and only if some load was good |
| `ConfiguratorProperties.ActiveIsValidated` | pkg/authenticator/jwt/config/configurator.go:110-137 | Every authenticator in use has one member for each issuer of a configuration that the Kubernetes validation and the source validation accepted |
| `ConfiguratorProperties.ValidatedConfigurationBuilds` | pkg/authenticator/jwt/config/configurator.go:170-196 | For a validated configuration, building succeeds exactly if no certificate, first token or OIDC verifier fails, and gives one member for each issuer in order with one expander for each source |
| `HotReloadProperties.EveryRun` | pkg/authenticator/jwt/config/configurator.go:106-140 | In every interleaving of any number of reloads and requests: mutual exclusion, and the shared state refines loads done one after another |
| `HotReloadProperties.ActiveEverywhere` | pkg/authenticator/jwt/config/configurator.go:106-140 | In every reachable state, whatever the hash distinguishes, the active authenticator is validated, and there is none exactly if no load was good |
| `HotReloadProperties.LastGoodEverywhere` | pkg/authenticator/jwt/config/configurator.go:106-140 | In every reachable state the active authenticator was built from a good load, which is the last good one if and only if no other file with its hash was missed |
| `HotReloadProperties.ContextsEverywhere` | pkg/authenticator/jwt/config/configurator.go:119-137 | In every reachable state the live contexts are the active one's and at most the one a reload is working with; the active one is dead only between being cancelled and being replaced, under the mutex |
| `Authenticate.ServeHTTP` | pkg/handlers/authenticate.go:24-94 | 405 for other methods than POST, 500 for what is no review request; else 200 with exactly the review of what the authenticator returned for the token, or 500 if that cannot be written |
| `Authenticate.Decide` | pkg/handlers/authenticate.go:55-83 | The review of an outcome, with the extra values copied one by one |
| `Authenticate.ReviewOf` | pkg/handlers/authenticate.go:55-83 | Authenticated exactly if there is no error, the verdict is yes and there is a user; then the review names exactly that user |
| `EndToEnd.RequestsSound` | pkg/authenticator/jwt/jwt.go:33-40 | In every interleaving, a request asks about the token it arrived with, and what it holds is what was active when it looked, between its arrival and its answer |
| `EndToEnd.SingleVersion` | pkg/authenticator/jwt/jwt.go:33-40 | The reply carries exactly the review of what one authenticator returned for the token of the request, naming exactly the user it vouched for; that authenticator was active, alive and validated at one moment during the request |
| `EndToEnd.TurnedAwayExactly` | pkg/handlers/authenticate.go:28-46 | A request that is turned away is no review request; the reply is 405 for other methods than POST and else 500 |
| `EndToEnd.ActiveStays` | pkg/authenticator/jwt/config/configurator.go:133-136 | Once an authenticator is active there always is one |
| `EndToEnd.UnauthenticatedBeforeFirstLoad` | pkg/authenticator/jwt/jwt.go:39 | While no load has succeeded every well-formed POST is answered unauthenticated and "not initialized" |
| `EndToEnd.InitializedAfterFirstLoad` | pkg/authenticator/jwt/jwt.go:33-40 | A request that arrives when an authenticator is active is answered by an authenticator |
| `EndToEnd.NotInitializedExactly` | pkg/authenticator/jwt/jwt.go:33-40 | A request finds no authenticator if and only if no load finished when it looked was good; its answer is then "not initialized" |
| `EndToEnd.VersionsGoForward` | pkg/authenticator/jwt/jwt.go:33-40 | A request that arrives after another was answered found the same authenticator as that one or a newer one, never an older one |
| `EndToEnd.AliveWhenAnswering` | pkg/authenticator/jwt/config/configurator.go:129-131 | As an authenticator answers, its context is alive if and only if it is still the active one and is not just being replaced |
| `EndToEnd.CancelledWhenAnswering` | pkg/authenticator/jwt/config/configurator.go:129-131 | A request that fetched before a new file was loaded and answers after it is answered by an authenticator whose context is cancelled: a concrete interleaving |
| `EndToEnd.LateNotInitialized` | pkg/authenticator/jwt/jwt.go:33-40 | A request that looked before the first load can still be answered "not initialized" after it: a concrete interleaving |
| `EndToEnd.ActiveSources` | pkg/oidc/externalclaims/resolver/resolver.go:206-275 | Whatever is loaded and when, expansion by the active authenticator writes disjoint names, sends at most five requests and takes at most 2500 ms if they honour their timeouts |

## Left out

- ClaimsResolver.ExpandClaims: counts the request to the source itself; redirects that the HTTP client follows within one call, and a token that is no valid header value, are part of the given answer.
- ClaimsChain.RequestBudget: counts requests to sources, not the token requests of the client credentials flow, which has its own client and timeout.
- GoQuote.QuoteRoundTrip: is about strings of Unicode characters; claim text that is not valid UTF-8, whose bytes Go quotes with `\x`, is not modelled.
- Hostname.ParseHttps: follows url.Parse for host, port and path; for a query, fragment, user information or bracketed host it stops at "not followed", and whether those parse is given. No accepted hostname leads there.
- UrlPath.Parse: likewise stops at references with a scheme, query or fragment, which no path built here has.
- HotReload.Perform: takes the validation and the build of one load as one step each, and lets loads start at any time; that the program starts them one after another only removes runs.
- Configurator.Configurator.HandleConfigChange: the mutex is not in the object but in the transition system, where its steps are interleaved.
- Configurator.Configurator.Run: a list of events stands for the watch; its timing, polling and re-watching are not modelled.
- Cancellation of the parent context, and what an authenticator does once its context is cancelled, are not modelled.
- CEL parsing, type checking and evaluation, and how claims become CEL values.
- HTTP, TLS, PEM and x509: a certificate authority is accepted or not, a request has an answer and a duration.
- OIDC verification, claim mapping and user validation, the union of several authenticators, and the Kubernetes validation: their results are given.
- Token retrieval and caching of the client credentials flow: a token or a failure, possibly another one each time.
- File reading, YAML decoding and the v1alpha1 conversion: a file has a decoded configuration or none.
- Error messages and the offending values in validation errors; kinds, field paths and their order are kept.
- The server, commands, flags, logging and generated copies.
