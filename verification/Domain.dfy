/** The records the server stores and the requests it answers.

    Times and durations are nanoseconds on an unbounded integer line. Ids stand
    for UUIDs, and a stored hash stands for the SHA-256 of an opaque value. */
module Domain {

  type Time = int
  type Id = nat

  const SECOND: int := 1_000_000_000
  const MINUTE: int := 60 * SECOND
  const HOUR: int := 60 * MINUTE

  /** The all-zero UUID, which callers pass to mean "no session". */
  const NIL_ID: Id := 0

  const OPENID: string := "openid"
  const OFFLINE_ACCESS: string := "offline_access"

  datatype Option<+T> = None | Some(value: T)

  datatype Expiration = Sliding | Absolute

  /** How a client authenticates at the token endpoint; a stored value may be missing or unknown. */
  datatype AuthMethod = Unset | NoAuth | PrivateKeyJwt | OtherMethod(name: string)

  datatype Profile = Spa | Web | M2m | Custom

  const DEFAULT_REFRESH_LIFETIME_SECONDS := 2592000
  const DEFAULT_REFRESH_ABSOLUTE_LIFETIME_SECONDS := 2592000

  /** A registered client as one request sees it. */
  datatype Client = Client(
    clientId: string,
    displayName: string,
    redirectUris: seq<string>,
    postLogoutRedirectUris: seq<string>,
    allowedScopes: seq<string>,
    requirePkce: bool,
    allowRefreshTokens: bool,
    allowClientCredentials: bool,
    authMethod: AuthMethod,
    jwksJson: string,
    refreshLifetimeSeconds: int,
    refreshAbsoluteLifetimeSeconds: int,
    refreshExpiration: Expiration)
  {
    /** The sliding refresh lifetime; a setting that is not positive falls back to the default. */
    function RefreshLifetime(): (d: int)
      ensures d > 0
    {
      (if refreshLifetimeSeconds <= 0 then DEFAULT_REFRESH_LIFETIME_SECONDS else refreshLifetimeSeconds) * SECOND
    }

    /** The absolute refresh lifetime; a setting that is not positive falls back to the default. */
    function AbsoluteLifetime(): (d: int)
      ensures d > 0
    {
      (if refreshAbsoluteLifetimeSeconds <= 0 then DEFAULT_REFRESH_ABSOLUTE_LIFETIME_SECONDS
       else refreshAbsoluteLifetimeSeconds) * SECOND
    }
  }

  datatype Session = Session(
    id: Id,
    userId: string,
    createdAt: Time,
    expiresAt: Time,
    revokedAt: Option<Time>)

  datatype Code = Code(
    id: Id,
    hash: string,
    clientId: string,
    userId: string,
    session: Option<Id>,
    redirectUri: string,
    challenge: Option<string>,
    challengeMethod: Option<string>,
    scope: string,
    nonce: Option<string>,
    expiresAt: Time,
    consumedAt: Option<Time>,
    createdAt: Time)

  datatype Token = Token(
    id: Id,
    hash: string,
    clientId: string,
    userId: string,
    session: Option<Id>,
    parent: Option<Id>,
    scope: string,
    expiresAt: Time,
    absoluteExpiresAt: Time,
    consumedAt: Option<Time>,
    revokedAt: Option<Time>,
    createdAt: Time)

  type Sessions = map<Id, Session>
  type Codes = map<Id, Code>
  type Tokens = map<Id, Token>

  /** Authorize parameters that survive into the code, with the client record they were checked against. */
  datatype AuthorizeRequest = AuthorizeRequest(
    client: Client,
    redirectUri: string,
    scope: string,
    nonce: string,
    challenge: string,
    challengeMethod: string)

  /** A code exchange by an authenticated client; `hash` is the hash of the presented code. */
  datatype CodeRequest = CodeRequest(client: Client, hash: string, redirectUri: string, verifier: string)

  /** A refresh by an authenticated client; `hash` is the hash of the presented token. */
  datatype RefreshRequest = RefreshRequest(client: Client, hash: string, scopeParam: string)

  /** Server-wide policy. `s256` is base64url(SHA-256(verifier)), which the model never looks inside. */
  datatype Config = Config(
    authCodeLifetime: int,
    requirePkce: bool,
    detectReuse: bool,
    s256: string -> string)
}
