/** What each request does to the token stores, as functions: the specification of the
    classes in AuthorizationServer.dfy and the steps of a run. */
module Lifecycle {
  import opened Options
  import opened OAuthData
  import Text

  // ---- The stores -----------------------------------------------------------------

  /** Drop what has expired from the tables whose purge succeeds. */
  function Purge(s: Stores, now: Time, p: Purges): Stores {
    s.(codes := if p.codes then map c | c in s.codes && s.codes[c].expiredAt > now :: s.codes[c] else s.codes,
       access := if p.access then map a | a in s.access && s.access[a].expiredAt > now :: s.access[a] else s.access,
       refresh :=
         if p.refresh then map r | r in s.refresh && s.refresh[r].expiredAt > now :: s.refresh[r] else s.refresh)
  }

  /** The stores that an event to a provider API is served from. */
  function Purged(s: Stores, e: Event): Stores { Purge(s, e.now, e.purges) }

  /** Drop a used refresh token together with the access token it was issued with. */
  function Retire(s: Stores, clientId: string, token: Uid): Stores {
    s.(refresh := map r | r in s.refresh && !(r == token && s.refresh[r].appId == clientId) :: s.refresh[r],
       access := map a | a in s.access
                         && !(s.access[a].appId == clientId && s.access[a].refreshToken == Some(token)) :: s.access[a])
  }

  /** For whom and for what tokens are issued. */
  datatype Holder = Holder(apiId: string, appId: string, userId: string, scopes: seq<string>, grant: Grant)

  /** A refresh token to be issued along with an access token. */
  datatype Renewal = Renewal(ttl: int, countDown: int)

  function Mint(s: Stores, now: Time, h: Holder, azCode: Option<Uid>, ttl: int, renewal: Option<Renewal>): Outcome {
    var a, exp := s.uids, now + ttl * 1000;
    var token := Jwt(a, h.appId, now, exp, a + 1);
    match renewal
    case None =>
      var k := Access(h.apiId, h.appId, h.userId, h.scopes, h.grant, a + 1, azCode, None, now, exp);
      Outcome(s.(access := s.access[a := k], uids := a + 2),
              TokensIssued(token, None))
    case Some(n) =>
      var r, until := a + 2, now + n.ttl * 1000;
      var k := Access(h.apiId, h.appId, h.userId, h.scopes, h.grant, a + 1, azCode, Some(r), now, exp);
      var m := Refresh(h.apiId, h.appId, h.userId, h.scopes, h.grant, r + 1, n.countDown, now, until);
      Outcome(s.(access := s.access[a := k], refresh := s.refresh[r := m], uids := a + 4),
              TokensIssued(token, Some(Jwt(r, h.appId, now, until, r + 1))))
  }

  /** The refresh token that comes with the first access token of a grant. */
  function FirstRenewal(cfg: ApiConfig): Option<Renewal> {
    if cfg.refresh.Some? then Some(Renewal(cfg.RefreshTtl(), cfg.RefreshCount())) else None
  }

  /** The refresh token that replaces one whose count is `countDown`. */
  function NextRenewal(cfg: ApiConfig, countDown: int): Option<Renewal> {
    if countDown > 1 then Some(Renewal(cfg.RefreshTtl(), countDown - 1)) else None
  }

  // ---- Checks ---------------------------------------------------------------------

  predicate Covers(allowed: seq<string>, scopes: seq<string>) {
    forall x <- scopes :: x in allowed
  }

  /** isExpired: a missing or zero time counts as -1, and then the lifetime decides. */
  predicate IsExpired(issuedAt: Time, expiredAt: Time, expiresIn: int, now: Time) {
    var issued := if issuedAt == 0 then -1 else issuedAt;
    var stated := if expiredAt == 0 then -1 else expiredAt;
    now > if stated == -1 && issued != -1 then issued + expiresIn * 1000 else stated
  }

  datatype ScopeCheck = ScopeError(error: string) | AnyScope | Scopes(scopes: seq<string>)

  /** Split the scope parameter at blanks and compare it with the server's scopes. */
  function CheckScope(cfg: ApiConfig, scope: Option<string>, optional: bool): ScopeCheck {
    match scope
    case None => if optional then AnyScope else ScopeError("invalid_request")
    case Some(text) =>
      if text == "" then ScopeError("invalid_request")
      else if Covers(cfg.scopes, Text.Split(text, ' ')) then Scopes(Text.Split(text, ' '))
      else ScopeError("invalid_scope")
  }

  /** Who presents itself. Digesting a secret that the header lacks throws. */
  function Authenticate(cfg: ApiConfig, auth: ClientAuth, call: TokenCall): Authentication {
    if auth.header.Some? && auth.header.value.scheme != "Basic" then Rejected("invalid_client", true)
    else if auth.header.Some? && auth.clientId != "" then Rejected("invalid_request", false)
    else if auth.header.Some? && auth.header.value.secret.None? then Rejected("exception", false)
    else
      var id := if auth.header.Some? then auth.header.value.id else auth.clientId;
      var secret := if auth.header.Some? then auth.header.value.secret else auth.clientSecret;
      var required := call.ClientCall? || !cfg.IsPublic();
      if id == "" || (secret.None? && required) then Rejected("invalid_request", true)
      else if auth.found.None? then Rejected("invalid_client", true)
      else if secret == Some(auth.found.value.secret) then Authenticated(auth.found.value.clientId, false)
      else if secret.None? then Authenticated(auth.found.value.clientId, true)
      else Rejected("invalid_client", true)
  }

  /** Delete the code or refresh token that a client presented and failed to authenticate for. */
  function Revoke(s: Stores, call: TokenCall): Stores {
    match call
    case CodeCall(Some(c), _) => s.(codes := s.codes - {c})
    case RefreshCall(Some(Some(t)), _) => s.(refresh := s.refresh - {t.jti})
    case _ => s
  }

  predicate Genuine(t: Jwt, id: Uid, appId: string, secret: Uid, issuedAt: Time, expiredAt: Time) {
    t.jti == id && t.key == secret && t.aud == appId && t.iat == issuedAt && t.exp == expiredAt
  }

  // ---- Requests -------------------------------------------------------------------

  function GrantCode(cfg: ApiConfig, s: Stores, now: Time, q: Request): Outcome
    requires q.CodeGrant?
  {
    if AccessCode !in cfg.grants then Outcome(s, Refused("unsupported_response_type"))
    else if !Covers(cfg.scopes, q.scope) then Outcome(s, Refused("invalid_scope"))
    else
      var code := Code(q.api, q.appId, q.userId, q.scope, q.redirectURI, now, now + 300000);
      Outcome(s.(codes := s.codes[s.uids := code], uids := s.uids + 2), CodeIssued(s.uids))
  }

  function GrantImplicit(cfg: ApiConfig, s: Stores, now: Time, q: Request): Outcome
    requires q.ImplicitGrant?
  {
    if Implicit !in cfg.grants then Outcome(s, Refused("unsupported_response_type"))
    else if !Covers(cfg.scopes, q.scope) then Outcome(s, Refused("invalid_scope"))
    else Mint(s, now, Holder(q.api, q.appId, q.userId, q.scope, Implicit), None, cfg.TokenTtl(), None)
  }

  /** Whether a stored code may be redeemed with these parameters. */
  predicate Redeemable(c: Code, api: string, clientId: string, redirectURI: Option<string>, now: Time) {
    && c.apiId == api && c.appId == clientId && c.redirectURI == redirectURI
    && !IsExpired(c.issuedAt, c.expiredAt, (c.expiredAt - c.issuedAt) / 1000, now)
  }

  function RedeemCode(cfg: ApiConfig, api: string, s: Stores, now: Time, clientId: string, call: TokenCall): Outcome
    requires call.CodeCall?
  {
    if AccessCode !in cfg.grants then Outcome(s, Refused("unsupported_grant_type"))
    else match call.code
    case None => Outcome(s, Refused("invalid_request"))
    case Some(c) =>
      if c !in s.codes || !Redeemable(s.codes[c], api, clientId, call.redirectURI, now)
      then Outcome(s, Refused("invalid_grant"))
      else
        var h := Holder(api, clientId, s.codes[c].userId, s.codes[c].scopes, AccessCode);
        Mint(s.(codes := s.codes - {c}), now, h, Some(c), cfg.TokenTtl(), FirstRenewal(cfg))
  }

  function ClientGrant(cfg: ApiConfig, api: string, s: Stores, now: Time, clientId: string, call: TokenCall): Outcome
    requires call.ClientCall?
  {
    if Application !in cfg.grants then Outcome(s, Refused("unsupported_grant_type"))
    else match CheckScope(cfg, call.scope, false)
    case ScopeError(error) => Outcome(s, Refused(error))
    case AnyScope => Outcome(s, Refused("invalid_request"))
    case Scopes(scopes) =>
      Mint(s, now, Holder(api, clientId, clientId, scopes, Application), None, cfg.TokenTtl(), FirstRenewal(cfg))
  }

  function PasswordGrant(cfg: ApiConfig, api: string, s: Stores, now: Time, clientId: string, call: TokenCall): Outcome
    requires call.PasswordCall?
  {
    if Password !in cfg.grants then Outcome(s, Refused("unsupported_grant_type"))
    else if call.username == "" || call.password == "" then Outcome(s, Refused("invalid_request"))
    else match CheckScope(cfg, call.scope, false)
    case ScopeError(error) => Outcome(s, Refused(error))
    case AnyScope => Outcome(s, Refused("invalid_request"))
    case Scopes(scopes) =>
      if !call.verified then Outcome(s, Refused("invalid_grant"))
      else Mint(s, now, Holder(api, clientId, call.username, scopes, Password), None, cfg.TokenTtl(), FirstRenewal(cfg))
  }

  /** The scopes of a refreshed token: those asked for, else those of the refresh token. */
  function NarrowedScopes(saved: Refresh, asked: ScopeCheck): seq<string> {
    if asked.Scopes? then asked.scopes else saved.scopes
  }

  function ExchangeRefresh(cfg: ApiConfig, api: string, s: Stores, now: Time, clientId: string, skipped: bool,
      call: TokenCall): Outcome
    requires call.RefreshCall?
  {
    if cfg.refresh.None? then Outcome(s, Refused("unsupported_grant_type"))
    else if call.token.None? then Outcome(s, Refused("invalid_request"))
    else
      var asked := CheckScope(cfg, call.scope, true);
      if asked.ScopeError? then Outcome(s, Refused(asked.error))
      else match call.token.value
      case None => Outcome(s, Refused("invalid_grant"))
      case Some(t) =>
        if t.jti !in s.refresh || s.refresh[t.jti].apiId != api then Outcome(s, Refused("invalid_grant"))
        else
          var saved := s.refresh[t.jti];
          if !Genuine(t, t.jti, saved.appId, saved.secret, saved.issuedAt, saved.expiredAt)
          then Outcome(s, Refused("invalid_grant"))
          else if cfg.IsPublic() && saved.grant == Application && skipped then Outcome(s, Refused("invalid_request"))
          else if saved.appId != clientId || saved.expiredAt < now
              || !Covers(saved.scopes, NarrowedScopes(saved, asked))
          then Outcome(s, Refused("invalid_grant"))
          else
            var h := Holder(api, clientId, saved.userId, NarrowedScopes(saved, asked), RefreshToken);
            Mint(Retire(s, clientId, t.jti), now, h, None, cfg.TokenTtl(), NextRenewal(cfg, saved.countDown))
  }

  function Exchange(cfg: ApiConfig, api: string, s: Stores, now: Time, clientId: string, skipped: bool,
      call: TokenCall): Outcome {
    match call
    case CodeCall(_, _) => RedeemCode(cfg, api, s, now, clientId, call)
    case RefreshCall(_, _) => ExchangeRefresh(cfg, api, s, now, clientId, skipped, call)
    case PasswordCall(_, _, _, _) => PasswordGrant(cfg, api, s, now, clientId, call)
    case ClientCall(_) => ClientGrant(cfg, api, s, now, clientId, call)
    case UnknownCall => Outcome(s, Refused("unsupported_grant_type"))
  }

  function ServeToken(cfg: ApiConfig, api: string, s: Stores, now: Time, auth: ClientAuth, call: TokenCall): Outcome {
    match Authenticate(cfg, auth, call)
    case Rejected(error, revoke) => Outcome(if revoke then Revoke(s, call) else s, Refused(error))
    case Authenticated(clientId, skipped) => Exchange(cfg, api, s, now, clientId, skipped, call)
  }

  /** The resource server's verdict on a bearer token. */
  function CheckBearer(s: Stores, now: Time, q: Request): Response
    requires q.BearerCheck?
  {
    if q.token.None? then Refused("invalid_token")
    else
      var t := q.token.value;
      if t.exp < now || t.jti !in s.access then Refused("invalid_token")
      else
        var saved := s.access[t.jti];
        if !Genuine(t, t.jti, saved.appId, saved.secret, saved.issuedAt, saved.expiredAt) then Refused("invalid_token")
        else if !Covers(saved.scopes, q.required) then Refused("invalid_token")
        else if q.queryApp != "" && q.queryApp != saved.appId then Refused("invalid_token")
        else Admitted(saved.userId)
  }

  // ---- Steps and runs -------------------------------------------------------------

  type Configs = map<string, ApiConfig>

  function Serve(cfg: ApiConfig, s: Stores, now: Time, q: Request): Outcome
    requires !q.BearerCheck?
  {
    match q
    case TokenRequest(api, auth, call) => ServeToken(cfg, api, s, now, auth, call)
    case CodeGrant(_, _, _, _, _) => GrantCode(cfg, s, now, q)
    case ImplicitGrant(_, _, _, _) => GrantImplicit(cfg, s, now, q)
    case OtherVisit(_) => Outcome(s, Nothing)
  }

  /** Bearer checks only read. A visit to an API that is an OAuth provider purges first;
      other APIs pass the request on untouched. */
  function Step(cfgs: Configs, s: Stores, e: Event): Outcome {
    if e.request.BearerCheck? then Outcome(s, CheckBearer(s, e.now, e.request))
    else if e.request.api !in cfgs then Outcome(s, Nothing)
    else Serve(cfgs[e.request.api], Purged(s, e), e.now, e.request)
  }

  /** The stores after a run, and the answer to each of its events. */
  function Run(cfgs: Configs, s: Stores, events: seq<Event>): (r: (Stores, seq<Response>))
    ensures |r.1| == |events|
    decreases |events|
  {
    if events == [] then (s, [])
    else
      var first := Step(cfgs, s, events[0]);
      var rest := Run(cfgs, first.stores, events[1..]);
      (rest.0, [first.response] + rest.1)
  }

  const EMPTY_STORES := Stores(map[], map[], map[], 0)
}
