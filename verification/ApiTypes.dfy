/** The configuration types; a Go pointer that may be nil is an Option. */
module ApiTypes {
  import opened Outcomes

  const REQUEST_PROVIDED_TOKEN := "RequestProvidedToken"
  const CLIENT_CREDENTIAL := "ClientCredential"

  datatype TLS = TLS(certificateAuthority: Option<string>)

  datatype ClientCredentialConfig = ClientCredentialConfig(
    clientID: string,
    clientSecret: string,
    tokenEndpoint: string,
    scopes: seq<string>,
    tls: Option<TLS>)

  datatype Authentication = Authentication(
    kind: Option<string>,
    clientCredential: Option<ClientCredentialConfig>)

  datatype SourceURL = SourceURL(hostname: Option<string>, pathExpression: Option<string>)

  datatype SourcedClaimMapping = SourcedClaimMapping(name: Option<string>, expression: Option<string>)

  datatype ExternalSourceCondition = ExternalSourceCondition(expression: Option<string>)

  datatype ExternalClaimsSource = ExternalClaimsSource(
    authentication: Option<Authentication>,
    tls: Option<TLS>,
    url: Option<SourceURL>,
    mappings: seq<SourcedClaimMapping>,
    conditions: seq<ExternalSourceCondition>)

  /** One JWT authenticator; `issuerCA` is the issuer's certificate authority. */
  datatype JWTAuthenticator = JWTAuthenticator(
    issuerCA: string,
    externalClaimsSources: seq<ExternalClaimsSource>)

  datatype AuthenticationConfiguration = AuthenticationConfiguration(jwt: seq<JWTAuthenticator>)
}
