/** The records, requests and responses of the OAuth 2.0 provider. Times are milliseconds. */
module OAuthData {
  import opened Options

  type Uid = nat
  type Time = int

  datatype Grant = Application | Password | AccessCode | Implicit | RefreshToken

  /** Lifetimes in seconds and the refresh count; 0 stands for a value that is not configured. */
  datatype RefreshConfig = RefreshConfig(ttl: int, count: int)

  datatype ApiConfig = ApiConfig(
    scopes: seq<string>,
    grants: set<Grant>,
    accessTtl: int,
    refresh: Option<RefreshConfig>,
    clientType: string)
  {
    function TokenTtl(): int { if accessTtl == 0 then 3600 else accessTtl }

    function RefreshTtl(): int {
      if refresh.Some? && refresh.value.ttl != 0 then refresh.value.ttl else 2682000
    }

    function RefreshCount(): int {
      if refresh.Some? && refresh.value.count != 0 then refresh.value.count else 2048
    }

    predicate IsPublic() { clientType == "" || clientType == "public" }
  }

  datatype Code = Code(
    apiId: string, appId: string, userId: string, scopes: seq<string>,
    redirectURI: Option<string>, issuedAt: Time, expiredAt: Time)

  datatype Access = Access(
    apiId: string, appId: string, userId: string, scopes: seq<string>,
    grant: Grant, secret: Uid, authorizationCode: Option<Uid>, refreshToken: Option<Uid>,
    issuedAt: Time, expiredAt: Time)

  datatype Refresh = Refresh(
    apiId: string, appId: string, userId: string, scopes: seq<string>,
    grant: Grant, secret: Uid, countDown: int, issuedAt: Time, expiredAt: Time)

  /** The three tables, and how many random identifiers have been drawn so far. */
  datatype Stores = Stores(
    codes: map<Uid, Code>, access: map<Uid, Access>, refresh: map<Uid, Refresh>, uids: Uid)

  /** A decoded JSON web token; `key` is the secret it was signed with. */
  datatype Jwt = Jwt(jti: Uid, aud: string, iat: Time, exp: Time, key: Uid)

  /** What models.clients.findById answers: the client's id and the digest of its secret. */
  datatype Credentials = Credentials(clientId: string, secret: string)

  /** An Authorization header; its token need not contain a secret. */
  datatype AuthHeader = AuthHeader(scheme: string, id: string, secret: Option<string>)

  /** How a client presents itself; "" is an absent client id. */
  datatype ClientAuth = ClientAuth(
    header: Option<AuthHeader>, clientId: string, clientSecret: Option<string>,
    found: Option<Credentials>)

  /** The parameters of a token request. A refresh token without a readable payload is
      `Some(None)`; `verified` is the answer of the resource owner's authentication. */
  datatype TokenCall =
    | CodeCall(code: Option<Uid>, redirectURI: Option<string>)
    | RefreshCall(token: Option<Option<Jwt>>, scope: Option<string>)
    | PasswordCall(username: string, password: string, scope: Option<string>, verified: bool)
    | ClientCall(scope: Option<string>)
    | UnknownCall

  datatype Request =
    | TokenRequest(api: string, auth: ClientAuth, call: TokenCall)
    | CodeGrant(api: string, appId: string, userId: string, scope: seq<string>, redirectURI: Option<string>)
    | ImplicitGrant(api: string, appId: string, userId: string, scope: seq<string>)
    | OtherVisit(api: string)
    | BearerCheck(token: Option<Jwt>, required: seq<string>, queryApp: string)

  datatype Response =
    | Refused(error: string)
    | CodeIssued(code: Uid)
    | TokensIssued(access: Jwt, refresh: Option<Jwt>)
    | Admitted(userId: string)
    | Nothing

  datatype Outcome = Outcome(stores: Stores, response: Response)

  /** Which of the purges that a request triggers succeed. */
  datatype Purges = Purges(codes: bool, access: bool, refresh: bool)

  const ALL_PURGES := Purges(true, true, true)
  const NO_PURGES := Purges(false, false, false)

  /** A request, when it arrives, and the purges that succeed. */
  datatype Event = Event(now: Time, purges: Purges, request: Request)

  datatype Authentication =
    | Rejected(error: string, revoke: bool)
    | Authenticated(clientId: string, skipped: bool)
}
