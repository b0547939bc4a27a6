/** The authorization server and the resource server over shared token stores. */
module AuthorizationServer {
  import opened Options
  import opened OAuthData
  import opened Lifecycle
  import opened TokenStores
  import Text

  /** New tokens survive the deletion of an old refresh token and its access token. */
  lemma RetireAfterMint(s: Stores, now: Time, h: Holder, ttl: int, renewal: Option<Renewal>, id: Uid)
    requires id < s.uids && (forall r <- s.refresh :: r < s.uids) && (forall a <- s.access :: a < s.uids)
    ensures var o := Mint(s, now, h, None, ttl, renewal);
            Outcome(Retire(o.stores, h.appId, id), o.response)
                == Mint(Retire(s, h.appId, id), now, h, None, ttl, renewal)
  {
    var x, y := Mint(s, now, h, None, ttl, renewal), Mint(Retire(s, h.appId, id), now, h, None, ttl, renewal);
    assert Retire(x.stores, h.appId, id).access == y.stores.access;
    assert Retire(x.stores, h.appId, id).refresh == y.stores.refresh;
  }

  /** The authorization server of one API. */
  class Server {
    const apiId: string
    const cfg: ApiConfig
    const models: Models
    const supported: seq<string>

    ghost predicate Valid()
      reads models
    {
      models.Valid() && forall x :: x in supported <==> x in cfg.scopes
    }

    /** Register the configured scopes, each once. */
    constructor (apiId: string, cfg: ApiConfig, models: Models)
      requires models.Valid()
      ensures Valid() && this.apiId == apiId && this.cfg == cfg && this.models == models
    {
      var list := [];
      for i := 0 to |cfg.scopes|
        invariant forall x :: x in list <==> x in cfg.scopes[..i]
      {
        if cfg.scopes[i] !in list { list := list + [cfg.scopes[i]]; }
      }
      this.apiId, this.cfg, this.models, this.supported := apiId, cfg, models, list;
    }

    method SupportScope(scopes: seq<string>) returns (ok: bool)
      requires Valid()
      ensures ok <==> Covers(cfg.scopes, scopes)
    {
      for i := 0 to |scopes|
        invariant Covers(cfg.scopes, scopes[..i])
      {
        if scopes[i] !in supported { return false; }
      }
      return true;
    }

    /** The scope part of validateClient. */
    method ValidateScope(scope: Option<string>, optional: bool) returns (r: ScopeCheck)
      requires Valid()
      ensures r == CheckScope(cfg, scope, optional)
    {
      if scope.None? && optional { return AnyScope; }
      if scope.None? || scope.value == "" { return ScopeError("invalid_request"); }
      var parts := Text.Split(scope.value, ' ');
      var ok := SupportScope(parts);
      if !ok { return ScopeError("invalid_scope"); }
      return Scopes(parts);
    }

    /** Generate an access token, and a refresh token if asked to, and save them. */
    method Issue(h: Holder, azCode: Option<Uid>, renewal: Option<Renewal>, now: Time) returns (r: Response)
      requires Valid()
      modifies models
      ensures Valid()
      ensures Outcome(models.View(), r) == Mint(old(models.View()), now, h, azCode, cfg.TokenTtl(), renewal)
    {
      var aTkn := models.GenerateToken(h.appId, cfg.TokenTtl(), now);
      aTkn := aTkn.(azCode := azCode);
      var rTkn: Option<NewToken> := None;
      if renewal.Some? {
        var t := models.GenerateToken(h.appId, renewal.value.ttl, now);
        rTkn := Some(t.(countDown := renewal.value.countDown));
      }
      models.SaveTokens(h, aTkn, rTkn);
      r := TokensIssued(aTkn.jwt, if rTkn.None? then None else Some(rTkn.value.jwt));
    }

    method IssueCode(q: Request, now: Time) returns (r: Response)
      requires Valid() && q.CodeGrant?
      modifies models
      ensures Valid()
      ensures Outcome(models.View(), r) == GrantCode(cfg, old(models.View()), now, q)
    {
      if AccessCode !in cfg.grants { return Refused("unsupported_response_type"); }
      var ok := SupportScope(q.scope);
      if !ok { return Refused("invalid_scope"); }
      var t := models.GenerateToken(q.appId, 300, now);
      models.SaveCode(t.jwt.jti, Code(q.api, q.appId, q.userId, q.scope, q.redirectURI, t.jwt.iat, t.jwt.exp));
      return CodeIssued(t.jwt.jti);
    }

    method IssueImplicit(q: Request, now: Time) returns (r: Response)
      requires Valid() && q.ImplicitGrant?
      modifies models
      ensures Valid()
      ensures Outcome(models.View(), r) == GrantImplicit(cfg, old(models.View()), now, q)
    {
      if Implicit !in cfg.grants { return Refused("unsupported_response_type"); }
      var ok := SupportScope(q.scope);
      if !ok { return Refused("invalid_scope"); }
      r := Issue(Holder(q.api, q.appId, q.userId, q.scope, Implicit), None, None, now);
    }

    method ExchangeCode(clientId: string, call: TokenCall, now: Time) returns (r: Response)
      requires Valid() && call.CodeCall?
      modifies models
      ensures Valid()
      ensures Outcome(models.View(), r) == RedeemCode(cfg, apiId, old(models.View()), now, clientId, call)
    {
      if AccessCode !in cfg.grants { return Refused("unsupported_grant_type"); }
      if call.code.None? { return Refused("invalid_request"); }
      var found := models.FindCode(apiId, call.code.value);
      if found.None? { return Refused("invalid_grant"); }
      var code := found.value;
      if clientId != code.appId { return Refused("invalid_grant"); }
      if call.redirectURI != code.redirectURI { return Refused("invalid_grant"); }
      if IsExpired(code.issuedAt, code.expiredAt, (code.expiredAt - code.issuedAt) / 1000, now) {
        return Refused("invalid_grant");
      }
      models.DeleteCode(Some(apiId), call.code.value);
      r := Issue(Holder(apiId, clientId, code.userId, code.scopes, AccessCode), call.code, FirstRenewal(cfg), now);
    }

    method ClientCredentials(clientId: string, call: TokenCall, now: Time) returns (r: Response)
      requires Valid() && call.ClientCall?
      modifies models
      ensures Valid()
      ensures Outcome(models.View(), r) == ClientGrant(cfg, apiId, old(models.View()), now, clientId, call)
    {
      if Application !in cfg.grants { return Refused("unsupported_grant_type"); }
      var scope := ValidateScope(call.scope, false);
      if scope.ScopeError? { return Refused(scope.error); }
      r := Issue(Holder(apiId, clientId, clientId, scope.scopes, Application), None, FirstRenewal(cfg), now);
    }

    method OwnerPassword(clientId: string, call: TokenCall, now: Time) returns (r: Response)
      requires Valid() && call.PasswordCall?
      modifies models
      ensures Valid()
      ensures Outcome(models.View(), r) == PasswordGrant(cfg, apiId, old(models.View()), now, clientId, call)
    {
      if Password !in cfg.grants { return Refused("unsupported_grant_type"); }
      if call.username == "" || call.password == "" { return Refused("invalid_request"); }
      var scope := ValidateScope(call.scope, false);
      if scope.ScopeError? { return Refused(scope.error); }
      if !call.verified { return Refused("invalid_grant"); }
      r := Issue(Holder(apiId, clientId, call.username, scope.scopes, Password), None, FirstRenewal(cfg), now);
    }

    /** Look a presented refresh token up and compare it with its record. */
    method ValidateRefresh(t: Option<Jwt>) returns (r: Option<Refresh>)
      ensures r.Some? <==>
                t.Some? && t.value.jti in models.refresh
                && var k := models.refresh[t.value.jti];
                   k.apiId == apiId && Genuine(t.value, t.value.jti, k.appId, k.secret, k.issuedAt, k.expiredAt)
      ensures r.Some? ==> r.value == models.refresh[t.value.jti]
    {
      if t.None? { return None; }
      var found := models.FindRefresh(apiId, t.value.jti);
      if found.None? { return None; }
      var k, jwt := found.value, t.value;
      if jwt.key == k.secret && jwt.aud == k.appId && jwt.exp == k.expiredAt && jwt.iat == k.issuedAt {
        return found;
      }
      return None;
    }

    /** Save the new tokens first, then delete the used refresh token and its access token. */
    method Rotate(id: Uid, h: Holder, renewal: Option<Renewal>, now: Time) returns (r: Response)
      requires Valid() && id < models.uids
      modifies models
      ensures Valid()
      ensures Outcome(models.View(), r)
          == Mint(Retire(old(models.View()), h.appId, id), now, h, None, cfg.TokenTtl(), renewal)
    {
      RetireAfterMint(models.View(), now, h, cfg.TokenTtl(), renewal, id);
      r := Issue(h, None, renewal, now);
      Discard(h.appId, id);
    }

    /** Delete a used refresh token and the access token that went with it. */
    method Discard(clientId: string, id: Uid)
      requires Valid()
      modifies models
      ensures Valid() && models.View() == Retire(old(models.View()), clientId, id)
    {
      ghost var s := models.View();
      models.DeleteRefresh(Some(clientId), id);
      assert models.refresh == Retire(s, clientId, id).refresh;
      models.DeleteByRefreshToken(clientId, id);
      assert models.access == Retire(s, clientId, id).access;
    }

    method ExchangeRefreshToken(clientId: string, skipped: bool, call: TokenCall, now: Time) returns (r: Response)
      requires Valid() && call.RefreshCall?
      modifies models
      ensures Valid()
      ensures Outcome(models.View(), r) == ExchangeRefresh(cfg, apiId, old(models.View()), now, clientId, skipped, call)
    {
      if cfg.refresh.None? { return Refused("unsupported_grant_type"); }
      if call.token.None? { return Refused("invalid_request"); }
      var asked := ValidateScope(call.scope, true);
      if asked.ScopeError? { return Refused(asked.error); }
      var found := ValidateRefresh(call.token.value);
      if found.None? { return Refused("invalid_grant"); }
      var id, saved := call.token.value.value.jti, found.value;
      if cfg.IsPublic() && saved.grant == Application && skipped { return Refused("invalid_request"); }
      if saved.appId != clientId { return Refused("invalid_grant"); }
      if saved.expiredAt < now { return Refused("invalid_grant"); }
      var scopes := saved.scopes;
      if asked.Scopes? {
        scopes := asked.scopes;
        for i := 0 to |scopes|
          invariant Covers(saved.scopes, scopes[..i])
        {
          if scopes[i] !in saved.scopes { return Refused("invalid_grant"); }
        }
      }
      var h := Holder(apiId, clientId, saved.userId, scopes, RefreshToken);
      r := Rotate(id, h, NextRenewal(cfg, saved.countDown), now);
    }

    /** clientAuthenticate: who presents itself, revoking what it presents when it fails. */
    method AuthenticateClient(auth: ClientAuth, call: TokenCall) returns (r: Authentication)
      requires Valid()
      modifies models
      ensures Valid()
      ensures r == Authenticate(cfg, auth, call)
      ensures models.View() == if r.Rejected? && r.revoke then Revoke(old(models.View()), call) else old(models.View())
    {
      var clientId, clientSecret := auth.clientId, auth.clientSecret;
      if auth.header.Some? {
        var hdr := auth.header.value;
        if hdr.scheme != "Basic" {
          RemoveCredential(call);
          return Rejected("invalid_client", true);
        }
        if clientId != "" { return Rejected("invalid_request", false); }
        if hdr.secret.None? { return Rejected("exception", false); }
        clientId, clientSecret := hdr.id, hdr.secret;
      }
      var secretIsRequired := call.ClientCall? || !cfg.IsPublic();
      if clientId == "" || (clientSecret.None? && secretIsRequired) {
        RemoveCredential(call);
        return Rejected("invalid_request", true);
      }
      if auth.found.Some? {
        if clientSecret == Some(auth.found.value.secret) { return Authenticated(auth.found.value.clientId, false); }
        if clientSecret.None? && !secretIsRequired { return Authenticated(auth.found.value.clientId, true); }
      }
      RemoveCredential(call);
      return Rejected("invalid_client", true);
    }

    method RemoveCredential(call: TokenCall)
      requires Valid()
      modifies models
      ensures Valid() && models.View() == Revoke(old(models.View()), call)
    {
      match call
      case RefreshCall(Some(Some(t)), _) => models.DeleteRefresh(None, t.jti);
      case CodeCall(Some(c), _) => models.DeleteCode(None, c);
      case _ =>
    }

    method Token(auth: ClientAuth, call: TokenCall, now: Time) returns (r: Response)
      requires Valid()
      modifies models
      ensures Valid()
      ensures Outcome(models.View(), r) == ServeToken(cfg, apiId, old(models.View()), now, auth, call)
    {
      var who := AuthenticateClient(auth, call);
      if who.Rejected? { return Refused(who.error); }
      match call
      case CodeCall(_, _) => r := ExchangeCode(who.clientId, call, now);
      case RefreshCall(_, _) => r := ExchangeRefreshToken(who.clientId, who.skipped, call, now);
      case PasswordCall(_, _, _, _) => r := OwnerPassword(who.clientId, call, now);
      case ClientCall(_) => r := ClientCredentials(who.clientId, call, now);
      case UnknownCall => r := Refused("unsupported_grant_type");
    }

    method Serve(q: Request, now: Time) returns (r: Response)
      requires Valid() && !q.BearerCheck? && q.api == apiId
      modifies models
      ensures Valid()
      ensures Outcome(models.View(), r) == Lifecycle.Serve(cfg, old(models.View()), now, q)
    {
      match q
      case TokenRequest(_, auth, call) => r := Token(auth, call, now);
      case CodeGrant(_, _, _, _, _) => r := IssueCode(q, now);
      case ImplicitGrant(_, _, _, _) => r := IssueImplicit(q, now);
      case OtherVisit(_) => r := Nothing;
    }
  }

  /** The resource server. */
  class ResourceServer {
    const models: Models

    constructor (models: Models)
      ensures this.models == models
    { this.models := models; }

    method ScopesSatisfied(required: seq<string>, granted: seq<string>) returns (ok: bool)
      ensures ok <==> Covers(granted, required)
    {
      for i := 0 to |required|
        invariant Covers(granted, required[..i])
      {
        if required[i] !in granted { return false; }
      }
      return true;
    }

    method ValidateAccessToken(q: Request, now: Time) returns (r: Response)
      requires q.BearerCheck?
      ensures r == CheckBearer(models.View(), now, q)
    {
      if q.token.None? { return Refused("invalid_token"); }
      var jwt := q.token.value;
      if jwt.exp < now { return Refused("invalid_token"); }
      var found := models.FindAccessById(jwt.jti);
      if found.None? { return Refused("invalid_token"); }
      var token := found.value;
      if jwt.key != token.secret { return Refused("invalid_token"); }
      if jwt.aud != token.appId || jwt.iat != token.issuedAt || jwt.exp != token.expiredAt {
        return Refused("invalid_token");
      }
      var ok := ScopesSatisfied(q.required, token.scopes);
      if !ok { return Refused("invalid_token"); }
      if q.queryApp != "" && q.queryApp != token.appId { return Refused("invalid_token"); }
      return Admitted(token.userId);
    }
  }

  /** The servers of all provider APIs and configuration snapshots, created on first use, over one
      set of tables. */
  class Gateway {
    const cfgs: Configs
    const models: Models
    const resources: ResourceServer
    var pool: map<(string, string), Server>

    ghost predicate Valid()
      reads this, models
    {
      && models.Valid() && resources.models == models
      && forall key <- pool :: key.1 in cfgs && pool[key].apiId == key.1 && pool[key].cfg == cfgs[key.1]
                               && pool[key].models == models && pool[key].Valid()
    }

    constructor (cfgs: Configs)
      ensures Valid() && models.View() == EMPTY_STORES && this.cfgs == cfgs
      ensures fresh(models)
    {
      var m := new Models();
      var r := new ResourceServer(m);
      this.cfgs, this.models, this.resources, this.pool := cfgs, m, r, map[];
    }

    /** The pooled server of this snapshot and API, and the same one each time. */
    method GetServer(snapshot: string, api: string) returns (server: Server)
      requires Valid() && api in cfgs
      modifies this`pool
      ensures Valid() && server.Valid() && server.apiId == api && server.cfg == cfgs[api] && server.models == models
      ensures pool == old(pool)[(snapshot, api) := server]
      ensures (snapshot, api) in old(pool) ==> pool == old(pool)
    {
      var key := (snapshot, api);
      if key !in pool {
        var created := new Server(api, cfgs[api], models);
        pool := pool[key := created];
      }
      server := pool[key];
    }

    /** One request, as a step of the specification. */
    method Handle(snapshot: string, e: Event) returns (r: Response)
      requires Valid()
      modifies this`pool, models
      ensures Valid()
      ensures Outcome(models.View(), r) == Step(cfgs, old(models.View()), e)
    {
      if e.request.BearerCheck? {
        r := resources.ValidateAccessToken(e.request, e.now);
        return;
      }
      if e.request.api !in cfgs { return Nothing; }
      if e.purges.access { models.PurgeAccess(e.now); }
      if e.purges.refresh { models.PurgeRefresh(e.now); }
      if e.purges.codes { models.PurgeCodes(e.now); }
      assert models.View() == Purged(old(models.View()), e);
      var server := GetServer(snapshot, e.request.api);
      r := server.Serve(e.request, e.now);
    }
  }
}
