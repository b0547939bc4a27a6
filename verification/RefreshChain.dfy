/** Exchanging a refresh token, then the one it was replaced with, and so on. */
module RefreshChain {
  import opened Options
  import opened OAuthData
  import opened Lifecycle
  import opened Lineage
  import opened TokenSafety

  function ExchangeOnce(cfg: ApiConfig, api: string, s: Stores, now: Time, clientId: string, t: Jwt): Outcome {
    ExchangeRefresh(cfg, api, s, now, clientId, false, RefreshCall(Some(Some(t)), None))
  }

  /** How many exchanges are granted when the token is presented at the first time, the token
      it is replaced with at the next, and so on. */
  function ChainLength(cfg: ApiConfig, api: string, s: Stores, times: seq<Time>, clientId: string, t: Jwt): nat
    decreases |times|
  {
    if times == [] then 0
    else
      var o := ExchangeOnce(cfg, api, s, times[0], clientId, t);
      if !o.response.TokensIssued? then 0
      else if o.response.refresh.None? then 1
      else 1 + ChainLength(cfg, api, o.stores, times[1..], clientId, o.response.refresh.value)
  }

  /** How many times follow each other within the lifetime of a refresh token. */
  function Prompt(cfg: ApiConfig, times: seq<Time>): (n: nat)
    ensures n <= |times|
    decreases |times|
  {
    if |times| <= 1 then |times|
    else if times[1] <= times[0] + cfg.RefreshTtl() * 1000 then 1 + Prompt(cfg, times[1..])
    else 1
  }

  /** The token is the one on record for this API and client, and has not expired. */
  predicate Presentable(cfg: ApiConfig, api: string, s: Stores, now: Time, clientId: string, t: Jwt) {
    && cfg.refresh.Some? && t.jti in s.refresh
    && var k := s.refresh[t.jti];
    && Genuine(t, t.jti, k.appId, k.secret, k.issuedAt, k.expiredAt)
    && k.apiId == api && k.appId == clientId && now <= k.expiredAt
  }

  lemma PresentableIsExchanged(cfg: ApiConfig, api: string, s: Stores, now: Time, clientId: string, t: Jwt)
    requires Presentable(cfg, api, s, now, clientId, t)
    ensures ExchangeOnce(cfg, api, s, now, clientId, t)
            == Mint(Retire(s, clientId, t.jti), now,
                    Holder(api, clientId, s.refresh[t.jti].userId, s.refresh[t.jti].scopes, RefreshToken), None,
                    cfg.TokenTtl(), NextRenewal(cfg, s.refresh[t.jti].countDown))
  {}

  function Min(a: int, b: int): int { if a <= b then a else b }

  /** A refresh token with count N starts a chain of exactly N granted exchanges, the last of
      which returns no refresh token; the chain is only cut short by the end of the list of times
      or by the first presentation that comes after its token has expired. */
  lemma {:induction false} ChainIsExact(cfg: ApiConfig, api: string, s: Stores, times: seq<Time>, clientId: string,
      t: Jwt)
    requires times != [] && Presentable(cfg, api, s, times[0], clientId, t)
    ensures ChainLength(cfg, api, s, times, clientId, t)
        == Min(Prompt(cfg, times), Exchanges(s.refresh[t.jti].countDown))
    decreases |times|
  {
    PresentableIsExchanged(cfg, api, s, times[0], clientId, t);
    var o := ExchangeOnce(cfg, api, s, times[0], clientId, t);
    if s.refresh[t.jti].countDown > 1 && |times| > 1 {
      if times[1] <= times[0] + cfg.RefreshTtl() * 1000 {
        ChainIsExact(cfg, api, o.stores, times[1..], clientId, o.response.refresh.value);
      } else {
        ExpiredIsRefused(cfg, api, o.stores, times[1], clientId, o.response.refresh.value);
      }
    }
  }

  lemma ExpiredIsRefused(cfg: ApiConfig, api: string, s: Stores, now: Time, clientId: string, t: Jwt)
    requires t.jti in s.refresh && s.refresh[t.jti].expiredAt < now
    ensures !ExchangeOnce(cfg, api, s, now, clientId, t).response.TokensIssued?
  {}

  /** A public client that skips authentication is refused the exchange of a refresh token
      from a client credentials grant only while that token is the grant's first: rotated
      tokens are stored under another grant type and do not meet the check. */
  lemma SkippedAuthentication(cfgs: Configs, events: seq<Event>, now: Time, clientId: string, call: TokenCall)
    requires call.RefreshCall? && call.token.Some? && call.token.value.Some?
    requires var w, r := Reached(cfgs, events), call.token.value.value.jti;
             && r in w.stores.refresh && Known(w.ledger, r) && LineOf(w.ledger, r).kind == Application
             && LineOf(w.ledger, r).apiId in cfgs && cfgs[LineOf(w.ledger, r).apiId].IsPublic()
    ensures var w, r := Reached(cfgs, events), call.token.value.value.jti;
            var n := LineOf(w.ledger, r);
            ExchangeRefresh(cfgs[n.apiId], n.apiId, w.stores, now, clientId, true, call).response.TokensIssued?
            <==> n.issued > 1
                 && ExchangeRefresh(cfgs[n.apiId], n.apiId, w.stores, now, clientId, false, call).response.TokensIssued?
  {
    ReachedInv(cfgs, events);
    var w, r := Reached(cfgs, events), call.token.value.value.jti;
    assert RefreshOk(cfgs, w.ledger, r, w.stores.refresh[r]);
  }
}
