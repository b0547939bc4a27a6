/** A code or refresh token that was redeemed, or revoked because its presenter failed to
    authenticate, is never accepted again; nor is the access token that went with an
    exchanged refresh token. */
module SingleUse {
  import opened Options
  import opened OAuthData
  import opened Lifecycle
  import opened Lineage
  import opened TokenSafety

  /** What is absent from a table under an identifier already drawn stays absent. */
  predicate StaysAbsent(s: Stores, t: Stores, id: Uid) {
    && s.uids <= t.uids
    && (id !in s.codes ==> id !in t.codes)
    && (id !in s.refresh ==> id !in t.refresh)
    && (id !in s.access ==> id !in t.access)
  }

  lemma MintKeepsAbsent(s: Stores, now: Time, h: Holder, azCode: Option<Uid>, ttl: int, renewal: Option<Renewal>,
      id: Uid)
    requires id < s.uids
    ensures StaysAbsent(s, Mint(s, now, h, azCode, ttl, renewal).stores, id)
  {}

  lemma ExchangeRefreshKeepsAbsent(cfg: ApiConfig, api: string, s: Stores, now: Time, clientId: string, skipped: bool,
                                   call: TokenCall, id: Uid)
    requires id < s.uids && call.RefreshCall?
    ensures StaysAbsent(s, ExchangeRefresh(cfg, api, s, now, clientId, skipped, call).stores, id)
  {
    if ExchangeRefresh(cfg, api, s, now, clientId, skipped, call).response.TokensIssued? {
      GrantedExchange(cfg, api, s, now, clientId, skipped, call);
      var r := call.token.value.value.jti;
      var scopes := NarrowedScopes(s.refresh[r], CheckScope(cfg, call.scope, true));
      MintKeepsAbsent(Retire(s, clientId, r), now, Holder(api, clientId, s.refresh[r].userId, scopes, RefreshToken),
                      None, cfg.TokenTtl(), NextRenewal(cfg, s.refresh[r].countDown), id);
    } else {
      RefusedExchange(cfg, api, s, now, clientId, skipped, call);
    }
  }

  lemma RedeemKeepsAbsent(cfg: ApiConfig, api: string, s: Stores, now: Time, clientId: string, call: TokenCall, id: Uid)
    requires id < s.uids && call.CodeCall?
    ensures StaysAbsent(s, RedeemCode(cfg, api, s, now, clientId, call).stores, id)
  {
    if RedeemCode(cfg, api, s, now, clientId, call).response.TokensIssued? {
      GrantedRedeem(cfg, api, s, now, clientId, call);
      var c := call.code.value;
      MintKeepsAbsent(s.(codes := s.codes - {c}), now,
                      Holder(api, clientId, s.codes[c].userId, s.codes[c].scopes, AccessCode),
                      Some(c), cfg.TokenTtl(), FirstRenewal(cfg), id);
    }
  }

  lemma ExchangeKeepsAbsent(cfg: ApiConfig, api: string, s: Stores, now: Time, clientId: string, skipped: bool,
                            call: TokenCall, id: Uid)
    requires id < s.uids
    ensures StaysAbsent(s, Exchange(cfg, api, s, now, clientId, skipped, call).stores, id)
  {
    match call
    case CodeCall(_, _) => RedeemKeepsAbsent(cfg, api, s, now, clientId, call, id);
    case RefreshCall(_, _) => ExchangeRefreshKeepsAbsent(cfg, api, s, now, clientId, skipped, call, id);
    case _ =>
  }

  lemma ServeKeepsAbsent(cfg: ApiConfig, s: Stores, now: Time, q: Request, id: Uid)
    requires id < s.uids && !q.BearerCheck?
    ensures StaysAbsent(s, Serve(cfg, s, now, q).stores, id)
  {
    if q.TokenRequest? {
      var auth := Authenticate(cfg, q.auth, q.call);
      if auth.Authenticated? { ExchangeKeepsAbsent(cfg, q.api, s, now, auth.clientId, auth.skipped, q.call, id); }
    }
  }

  lemma {:induction false} RunKeepsAbsent(cfgs: Configs, s: Stores, events: seq<Event>, id: Uid)
    requires id < s.uids
    ensures StaysAbsent(s, Run(cfgs, s, events).0, id)
    decreases |events|
  {
    if events != [] {
      var e := events[0];
      if !e.request.BearerCheck? && e.request.api in cfgs {
        ServeKeepsAbsent(cfgs[e.request.api], Purged(s, e), e.now, e.request, id);
      }
      RunKeepsAbsent(cfgs, Step(cfgs, s, e).stores, events[1..], id);
    }
  }

  // ---- Codes and refresh tokens ----------------------------------------------------

  predicate PresentsCode(q: Request, c: Uid) {
    q.TokenRequest? && q.call.CodeCall? && q.call.code == Some(c)
  }

  predicate PresentsRefresh(q: Request, r: Uid) {
    q.TokenRequest? && q.call.RefreshCall? && q.call.token.Some? && q.call.token.value.Some?
        && q.call.token.value.value.jti == r
  }

  /** The request fails at client authentication, other than by naming the client twice or by a
      Basic header without a secret. */
  predicate FailsAuthentication(cfgs: Configs, q: Request) {
    && q.TokenRequest? && q.api in cfgs
    && Authenticate(cfgs[q.api], q.auth, q.call).Rejected?
    && !(q.auth.header.Some? && q.auth.header.value.scheme == "Basic"
         && (q.auth.clientId != "" || q.auth.header.value.secret.None?))
  }

  /** This event uses up the credential it presents. */
  predicate Spends(cfgs: Configs, s: Stores, e: Event) {
    Step(cfgs, s, e).response.TokensIssued? || FailsAuthentication(cfgs, e.request)
  }

  lemma SpentCodeIsGone(cfgs: Configs, s: Stores, e: Event, c: Uid)
    requires PresentsCode(e.request, c) && c < s.uids && Spends(cfgs, s, e)
    ensures c !in Step(cfgs, s, e).stores.codes && c < Step(cfgs, s, e).stores.uids
  {
    var u, q := Purged(s, e), e.request;
    ServeKeepsAbsent(cfgs[q.api], u, e.now, q, c);
    if Step(cfgs, s, e).response.TokensIssued? {
      GrantedRedeem(cfgs[q.api], q.api, u, e.now, Authenticate(cfgs[q.api], q.auth, q.call).clientId, q.call);
    }
  }

  lemma SpentRefreshIsGone(cfgs: Configs, s: Stores, e: Event, r: Uid)
    requires PresentsRefresh(e.request, r) && r < s.uids && Spends(cfgs, s, e)
    ensures r !in Step(cfgs, s, e).stores.refresh && r < Step(cfgs, s, e).stores.uids
  {
    var u, q := Purged(s, e), e.request;
    ServeKeepsAbsent(cfgs[q.api], u, e.now, q, r);
    if Step(cfgs, s, e).response.TokensIssued? {
      var auth := Authenticate(cfgs[q.api], q.auth, q.call);
      GrantedExchange(cfgs[q.api], q.api, u, e.now, auth.clientId, auth.skipped, q.call);
    }
  }

  /** An issued code is granted at most once, and never after a failed authentication. */
  lemma CodesAreSingleUse(cfgs: Configs, s: Stores, e: Event, later: seq<Event>, again: Event, c: Uid)
    requires c < s.uids && PresentsCode(e.request, c) && Spends(cfgs, s, e)
    requires PresentsCode(again.request, c)
    ensures !Step(cfgs, Run(cfgs, Step(cfgs, s, e).stores, later).0, again).response.TokensIssued?
  {
    SpentCodeIsGone(cfgs, s, e, c);
    RunKeepsAbsent(cfgs, Step(cfgs, s, e).stores, later, c);
  }

  /** The same for refresh tokens. */
  lemma RefreshTokensAreSingleUse(cfgs: Configs, s: Stores, e: Event, later: seq<Event>, again: Event, r: Uid)
    requires r < s.uids && PresentsRefresh(e.request, r) && Spends(cfgs, s, e)
    requires PresentsRefresh(again.request, r)
    ensures !Step(cfgs, Run(cfgs, Step(cfgs, s, e).stores, later).0, again).response.TokensIssued?
  {
    SpentRefreshIsGone(cfgs, s, e, r);
    RunKeepsAbsent(cfgs, Step(cfgs, s, e).stores, later, r);
    var t, q := Run(cfgs, Step(cfgs, s, e).stores, later).0, again.request;
    if Step(cfgs, t, again).response.TokensIssued? {
      var auth := Authenticate(cfgs[q.api], q.auth, q.call);
      GrantedExchange(cfgs[q.api], q.api, Purged(t, again), again.now,
                      auth.clientId, auth.skipped, q.call);
    }
  }

  /** A request refused at authentication deletes the credential it presents, if its purge left
      it, exactly when it neither names the client twice nor lacks the secret in its header. */
  lemma RejectionRevokes(cfgs: Configs, s: Stores, e: Event, id: Uid)
    requires e.request.TokenRequest? && e.request.api in cfgs
    requires Authenticate(cfgs[e.request.api], e.request.auth, e.request.call).Rejected?
    ensures var u := Purged(s, e);
            && (PresentsCode(e.request, id) && id in u.codes ==>
                  (id !in Step(cfgs, s, e).stores.codes <==> FailsAuthentication(cfgs, e.request)))
            && (PresentsRefresh(e.request, id) && id in u.refresh ==>
                  (id !in Step(cfgs, s, e).stores.refresh <==> FailsAuthentication(cfgs, e.request)))
  {}

  // ---- Access tokens that were rotated away -----------------------------------------

  /** Once a refresh token is exchanged, the access token issued with it is refused. */
  lemma RotatedAccessIsRefused(cfgs: Configs, before: seq<Event>, e: Event, after: seq<Event>, check: Event, r: Uid,
      a: Uid)
    requires var s := Reached(cfgs, before).stores;
             && r in s.refresh && a in s.access && s.access[a].refreshToken == Some(r)
             && PresentsRefresh(e.request, r) && Step(cfgs, s, e).response.TokensIssued?
    requires check.request.BearerCheck? && check.request.token.Some? && check.request.token.value.jti == a
    ensures Step(cfgs, Run(cfgs, Step(cfgs, Reached(cfgs, before).stores, e).stores, after).0, check).response.Refused?
  {
    ReachedInv(cfgs, before);
    var w := Reached(cfgs, before);
    assert AccessOk(cfgs, w.ledger, a, w.stores.access[a]);
    var v, q := Purged(w.stores, e), e.request;
    var auth := Authenticate(cfgs[q.api], q.auth, q.call);
    GrantedExchange(cfgs[q.api], q.api, v, e.now, auth.clientId, auth.skipped, q.call);
    SameClient(cfgs, w, r, a);
    RunKeepsAbsent(cfgs, Step(cfgs, w.stores, e).stores, after, a);
  }

  /** An access token belongs to the client of its refresh token. */
  lemma SameClient(cfgs: Configs, w: World, r: Uid, a: Uid)
    requires Inv(cfgs, w) && r in w.stores.refresh && a in w.stores.access && w.stores.access[a].refreshToken == Some(r)
    ensures w.stores.access[a].appId == w.stores.refresh[r].appId
    ensures a < w.stores.uids
  {
    assert RefreshOk(cfgs, w.ledger, r, w.stores.refresh[r]);
    assert AccessOk(cfgs, w.ledger, a, w.stores.access[a]);
  }
}
