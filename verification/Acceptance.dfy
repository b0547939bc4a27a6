/** Exactly which requests are granted in a run, and what is stored for them: in terms of what earlier
    answers handed out, the grant it descends from, and the configuration of the API. */
module Acceptance {
  import opened Options
  import opened OAuthData
  import opened Lifecycle
  import opened Lineage
  import opened TokenSafety
  import opened Provenance
  import SingleUse
  import Text

  // ---- What was handed out is what is stored ----------------------------------------------

  /** Whatever is still stored under an identifier that this answer handed out is what it handed out. */
  predicate Agrees(s: Stores, x: Entry) {
    && (x.response.CodeIssued? ==>
          && x.response.code < s.uids
          && (x.response.code in s.codes ==> IssuedCode(x, x.response.code, s.codes[x.response.code])))
    && (x.response.TokensIssued? ==>
          && x.response.access.jti < s.uids
          && (x.response.access.jti in s.access ==>
                IssuedAccess(x, x.response.access.jti, s.access[x.response.access.jti])))
    && (x.response.TokensIssued? && x.response.refresh.Some? ==>
          && x.response.refresh.value.jti < s.uids
          && (x.response.refresh.value.jti in s.refresh ==>
                IssuedRefresh(x, x.response.refresh.value.jti, s.refresh[x.response.refresh.value.jti])))
  }

  lemma StoredIsDrawn(cfgs: Configs, w: World, id: Uid)
    requires Inv(cfgs, w) && (id in w.stores.codes || id in w.stores.access || id in w.stores.refresh)
    ensures id < w.stores.uids
  {
    if id in w.stores.codes { assert CodeOk(w.ledger, id, w.stores.codes[id]); }
    if id in w.stores.access { assert AccessOk(cfgs, w.ledger, id, w.stores.access[id]); }
    if id in w.stores.refresh { assert RefreshOk(cfgs, w.ledger, id, w.stores.refresh[id]); }
  }

  lemma UidsGrow(cfgs: Configs, s: Stores, e: Event, id: Uid)
    requires id < s.uids
    ensures s.uids <= Step(cfgs, s, e).stores.uids
  {
    if !e.request.BearerCheck? && e.request.api in cfgs {
      SingleUse.ServeKeepsAbsent(cfgs[e.request.api], Purged(s, e), e.now, e.request, id);
    }
  }

  /** Identifiers handed out by this event were not drawn before. */
  lemma HandedOutIsNew(cfgs: Configs, w: World, e: Event)
    requires Inv(cfgs, w)
    ensures var o := Step(cfgs, w.stores, e);
            && (o.response.CodeIssued? ==> w.stores.uids <= o.response.code < o.stores.uids)
            && (o.response.TokensIssued? ==> w.stores.uids <= o.response.access.jti < o.stores.uids)
            && (o.response.TokensIssued? && o.response.refresh.Some? ==>
                  w.stores.uids <= o.response.refresh.value.jti < o.stores.uids)
  {
    if Step(cfgs, w.stores, e).response.TokensIssued? { IssuedTokens(cfgs, w, e); }
    if Step(cfgs, w.stores, e).response.CodeIssued? { CodeIssuedFresh(cfgs, w, e); }
  }

  lemma OldAgrees(cfgs: Configs, w: World, e: Event, x: Entry)
    requires Inv(cfgs, w) && Agrees(w.stores, x)
    ensures Agrees(Step(cfgs, w.stores, e).stores, x)
  {
    StepIssues(cfgs, w.stores, e);
    HandedOutIsNew(cfgs, w, e);
    if x.response.CodeIssued? { UidsGrow(cfgs, w.stores, e, x.response.code); }
    if x.response.TokensIssued? { UidsGrow(cfgs, w.stores, e, x.response.access.jti); }
  }

  lemma NewAgrees(cfgs: Configs, w: World, e: Event)
    requires Inv(cfgs, w)
    ensures Agrees(Step(cfgs, w.stores, e).stores, Entry(e, Step(cfgs, w.stores, e).response))
  {
    StepIssues(cfgs, w.stores, e);
    HandedOutIsNew(cfgs, w, e);
    forall id: Uid | id in w.stores.codes || id in w.stores.access || id in w.stores.refresh
      ensures id < w.stores.uids
    {
      StoredIsDrawn(cfgs, w, id);
    }
  }

  lemma {:induction false} RunKeepsAgreement(cfgs: Configs, w: World, log: seq<Entry>, events: seq<Event>)
    requires Inv(cfgs, w) && forall x <- log :: Agrees(w.stores, x)
    ensures forall x <- log + LogOf(cfgs, w.stores, events) :: Agrees(Run(cfgs, w.stores, events).0, x)
    decreases |events|
  {
    if events == [] {
      assert log + LogOf(cfgs, w.stores, events) == log;
    } else {
      var e, o := events[0], Step(cfgs, w.stores, events[0]);
      var x, v := Entry(e, o.response), Advance(cfgs, w, e);
      forall y <- log + [x] ensures Agrees(v.stores, y) {
        if y in log { OldAgrees(cfgs, w, e, y); } else { NewAgrees(cfgs, w, e); }
      }
      StepKeepsInv(cfgs, w, e);
      RunKeepsAgreement(cfgs, v, log + [x], events[1..]);
      LogUnfolds(cfgs, w.stores, events);
      Text.Assoc(log, [x], LogOf(cfgs, o.stores, events[1..]));
    }
  }

  /** In the stores that a run reaches: they satisfy the lineage invariant, and records and answers agree,
      both ways. */
  lemma ReachedFacts(cfgs: Configs, events: seq<Event>)
    ensures Reached(cfgs, events).stores == Run(cfgs, EMPTY_STORES, events).0
    ensures Inv(cfgs, Reached(cfgs, events))
    ensures Witnessed(Run(cfgs, EMPTY_STORES, events).0, LogOf(cfgs, EMPTY_STORES, events))
    ensures forall x <- LogOf(cfgs, EMPTY_STORES, events) :: Agrees(Run(cfgs, EMPTY_STORES, events).0, x)
  {
    LedgerIsObserver(cfgs, NEW_WORLD, events);
    ReachedInv(cfgs, events);
    StoresAreWitnessed(cfgs, events);
    RunKeepsAgreement(cfgs, NEW_WORLD, [], events);
    assert [] + LogOf(cfgs, EMPTY_STORES, events) == LogOf(cfgs, EMPTY_STORES, events);
  }

  // ---- Bearer checks ------------------------------------------------------------------------

  /** An earlier answer handed out exactly this access token. */
  predicate HandedAccess(log: seq<Entry>, t: Jwt) {
    exists x <- log :: x.response.TokensIssued? && x.response.access == t
  }

  /** The token was handed out and neither expired, retired nor purged, it covers what is required, and
      no other application than that of its grant is stated. */
  predicate Admissible(w: World, log: seq<Entry>, now: Time, q: Request)
    requires q.BearerCheck?
  {
    && q.token.Some? && HandedAccess(log, q.token.value) && q.token.value.jti in w.stores.access
    && now <= q.token.value.exp && Known(w.ledger, q.token.value.jti)
    && var n := LineOf(w.ledger, q.token.value.jti);
    && (forall x <- q.required :: x in n.current)
    && (q.queryApp == "" || q.queryApp == n.appId)
  }

  /** A bearer check admits exactly such tokens, for the user of their grant, and changes nothing. */
  lemma BearerVerdict(cfgs: Configs, events: seq<Event>, check: Event)
    requires check.request.BearerCheck?
    ensures var s, w := Run(cfgs, EMPTY_STORES, events).0, Reached(cfgs, events);
            var o, q := Step(cfgs, s, check), check.request;
            && o.stores == s == w.stores
            && if Admissible(w, LogOf(cfgs, EMPTY_STORES, events), check.now, q)
               then o.response == Admitted(LineOf(w.ledger, q.token.value.jti).userId)
               else o.response == Refused("invalid_token")
  {
    LedgerIsObserver(cfgs, NEW_WORLD, events);
    ReachedInv(cfgs, events);
    if check.request.token.Some? { HandedAccessIsGenuine(cfgs, events, check.request.token.value); }
    CheckVerdict(cfgs, Reached(cfgs, events), LogOf(cfgs, EMPTY_STORES, events), check.now, check.request);
  }

  /** The record stored under the token's identifier, if any, is the token's exactly when it was handed out. */
  predicate AccessIsGenuine(s: Stores, log: seq<Entry>, t: Jwt) {
    t.jti in s.access ==>
      var k := s.access[t.jti];
      Genuine(t, t.jti, k.appId, k.secret, k.issuedAt, k.expiredAt) <==> HandedAccess(log, t)
  }

  lemma CheckVerdict(cfgs: Configs, w: World, log: seq<Entry>, now: Time, q: Request)
    requires Inv(cfgs, w) && q.BearerCheck? && (q.token.Some? ==> AccessIsGenuine(w.stores, log, q.token.value))
    ensures if Admissible(w, log, now, q)
            then CheckBearer(w.stores, now, q) == Admitted(LineOf(w.ledger, q.token.value.jti).userId)
            else CheckBearer(w.stores, now, q) == Refused("invalid_token")
  {
    if q.token.Some? && q.token.value.jti in w.stores.access {
      assert AccessOk(cfgs, w.ledger, q.token.value.jti, w.stores.access[q.token.value.jti]);
    }
  }

  lemma HandedAccessIsGenuine(cfgs: Configs, events: seq<Event>, t: Jwt)
    ensures AccessIsGenuine(Run(cfgs, EMPTY_STORES, events).0, LogOf(cfgs, EMPTY_STORES, events), t)
  {
    var s := Run(cfgs, EMPTY_STORES, events).0;
    ReachedFacts(cfgs, events);
    if t.jti in s.access { GenuineIsHanded(s, LogOf(cfgs, EMPTY_STORES, events), t); }
  }

  lemma GenuineIsHanded(s: Stores, log: seq<Entry>, t: Jwt)
    requires Witnessed(s, log) && (forall x <- log :: Agrees(s, x)) && t.jti in s.access
    ensures var k := s.access[t.jti];
            Genuine(t, t.jti, k.appId, k.secret, k.issuedAt, k.expiredAt) <==> HandedAccess(log, t)
  {
    var x :| x in log && IssuedAccess(x, t.jti, s.access[t.jti]);
    if HandedAccess(log, t) {
      var y :| y in log && y.response.TokensIssued? && y.response.access == t;
      assert Agrees(s, y);
    }
  }

  // ---- Authentication -------------------------------------------------------------------------

  /** The client states its identifier once and its secret with it. */
  predicate ShowsSecret(auth: ClientAuth) {
    && auth.found.Some?
    && match auth.header
       case Some(h) =>
         h.scheme == "Basic" && h.id != "" && h.secret == Some(auth.found.value.secret) && auth.clientId == ""
       case None => auth.clientId != "" && auth.clientSecret == Some(auth.found.value.secret)
  }

  /** A public client may leave its secret out, though not for a client credentials grant. */
  predicate OmitsSecret(cfg: ApiConfig, auth: ClientAuth, call: TokenCall) {
    && auth.found.Some? && auth.header.None? && auth.clientId != "" && auth.clientSecret.None?
    && cfg.clientType in {"", "public"} && !call.ClientCall?
  }

  predicate Authentic(cfg: ApiConfig, auth: ClientAuth, call: TokenCall) {
    ShowsSecret(auth) || OmitsSecret(cfg, auth, call)
  }

  /** Exactly these clients authenticate, as the client on record. */
  lemma AuthenticationIsExact(cfg: ApiConfig, auth: ClientAuth, call: TokenCall)
    ensures var who := Authenticate(cfg, auth, call);
            && (who.Authenticated? <==> Authentic(cfg, auth, call))
            && (who.Authenticated? ==>
                  who.clientId == auth.found.value.clientId && (who.skipped <==> OmitsSecret(cfg, auth, call)))
  {}

  // ---- What is stored for a granted request ------------------------------------------------------

  /** How many seconds a refresh token lasts. */
  function RefreshSeconds(cfg: ApiConfig): int {
    match cfg.refresh
    case Some(r) => if r.ttl != 0 then r.ttl else 2682000
    case None => 2682000
  }

  /** How often the tokens of a new grant may be refreshed, if at all. */
  function FirstCount(cfg: ApiConfig): Option<int> {
    match cfg.refresh
    case Some(r) => Some(if r.count != 0 then r.count else 2048)
    case None => None
  }

  /** The answer's access token is stored for this client, user and scopes, with the configured lifetime
      or an hour; and likewise a refresh token linked to it, if there is a count. */
  predicate HandsOut(o: Outcome, now: Time, cfg: ApiConfig, h: Holder, azCode: Option<Uid>, count: Option<int>) {
    && o.response.TokensIssued? && o.response.access.jti in o.stores.access
    && var a, k := o.response.access, o.stores.access[o.response.access.jti];
    && k.apiId == h.apiId && k.appId == h.appId && k.userId == h.userId && k.scopes == h.scopes && k.grant == h.grant
    && k.authorizationCode == azCode && k.issuedAt == now
    && k.expiredAt == now + 1000 * (if cfg.accessTtl != 0 then cfg.accessTtl else 3600)
    && a == Jwt(a.jti, h.appId, now, k.expiredAt, k.secret)
    && (o.response.refresh.Some? <==> count.Some?)
    && (if count.None? then k.refreshToken.None?
        else k.refreshToken == Some(o.response.refresh.value.jti)
             && HandsOutRefresh(o, now, cfg, h, o.response.refresh.value, count.value))
  }

  predicate HandsOutRefresh(o: Outcome, now: Time, cfg: ApiConfig, h: Holder, r: Jwt, count: int) {
    && r.jti in o.stores.refresh
    && var m := o.stores.refresh[r.jti];
    && m.apiId == h.apiId && m.appId == h.appId && m.userId == h.userId && m.scopes == h.scopes && m.grant == h.grant
    && m.countDown == count && m.issuedAt == now && m.expiredAt == now + 1000 * RefreshSeconds(cfg)
    && r == Jwt(r.jti, h.appId, now, m.expiredAt, m.secret)
  }

  /** Beside the tokens that are handed out, which are new, the tables hold this. */
  predicate Beside(o: Outcome, kept: Stores) {
    && o.response.TokensIssued?
    && var a, r := o.response.access.jti, o.response.refresh;
    && a !in kept.access && (r.Some? ==> r.value.jti !in kept.refresh)
    && o.stores.codes == kept.codes
    && a in o.stores.access && o.stores.access == kept.access[a := o.stores.access[a]]
    && (if r.None? then o.stores.refresh == kept.refresh
        else r.value.jti in o.stores.refresh
             && o.stores.refresh == kept.refresh[r.value.jti := o.stores.refresh[r.value.jti]])
  }

  lemma MintHandsOut(cfg: ApiConfig, s: Stores, now: Time, h: Holder, azCode: Option<Uid>, renewal: Option<Renewal>)
    requires s.uids !in s.access && s.uids + 2 !in s.refresh
    requires renewal.Some? ==> renewal.value.ttl == RefreshSeconds(cfg)
    ensures var o := Mint(s, now, h, azCode, cfg.TokenTtl(), renewal);
            HandsOut(o, now, cfg, h, azCode, if renewal.Some? then Some(renewal.value.countDown) else None)
            && Beside(o, s)
  {}

  lemma FreshIds(cfgs: Configs, w: World)
    requires Inv(cfgs, w)
    ensures w.stores.uids !in w.stores.access && w.stores.uids + 2 !in w.stores.refresh
  {
    if w.stores.uids in w.stores.access { StoredIsDrawn(cfgs, w, w.stores.uids); }
    if w.stores.uids + 2 in w.stores.refresh { StoredIsDrawn(cfgs, w, w.stores.uids + 2); }
  }

  // ---- Refreshing -----------------------------------------------------------------------------------

  predicate HandedRefresh(log: seq<Entry>, t: Jwt) {
    exists x <- log :: x.response.TokensIssued? && x.response.refresh == Some(t)
  }

  /** The scopes that a refreshed token gets: exactly the words asked for, else those of the grant's
      latest tokens. */
  function RefreshedScopes(n: Line, scope: Option<string>): seq<string> {
    match scope
    case Some(text) => Text.Split(text, ' ')
    case None => n.current
  }

  /** The refresh token was handed out to this client at this API and has neither been used, retired or
      purged nor expired; nothing is asked for beyond its scopes; and a client without its secret does
      not present the first refresh token of a client credentials grant. */
  predicate Exchangeable(w: World, u: Stores, log: seq<Entry>, now: Time, q: Request)
    requires q.TokenRequest? && q.call.RefreshCall? && q.auth.found.Some?
  {
    && q.call.token.Some? && q.call.token.value.Some?
    && var t := q.call.token.value.value;
    && HandedRefresh(log, t) && t.jti in u.refresh && now <= t.exp && Known(w.ledger, t.jti)
    && var n := LineOf(w.ledger, t.jti);
    && n.apiId == q.api && n.appId == q.auth.found.value.clientId
    && (q.call.scope.Some? ==>
          q.call.scope.value != "" && forall x <- Text.Split(q.call.scope.value, ' ') :: x in n.current)
    && (ShowsSecret(q.auth) || !(n.kind == Application && n.issued == 1))
  }

  /** What remains when a refresh token has been used. */
  function WithoutRefresh(u: Stores, r: Uid): Stores {
    u.(refresh := u.refresh - {r},
       access := map a | a in u.access && u.access[a].refreshToken != Some(r) :: u.access[a])
  }

  /** Exactly such refresh tokens are exchanged. The new tokens have the user of the grant and exactly the
      scopes asked for, and the next refresh token, if the count allows one, carries the count less one;
      the used token and its access token go. Any other request of an authentic client leaves the tables
      as they are. */
  lemma RefreshVerdict(cfgs: Configs, events: seq<Event>, e: Event)
    requires e.request.TokenRequest? && e.request.call.RefreshCall? && e.request.api in cfgs
    requires Authentic(cfgs[e.request.api], e.request.auth, e.request.call)
    ensures var s, w, q := Run(cfgs, EMPTY_STORES, events).0, Reached(cfgs, events), e.request;
            var u, o := Purged(s, e), Step(cfgs, s, e);
            if Exchangeable(w, u, LogOf(cfgs, EMPTY_STORES, events), e.now, q) then
              var r := q.call.token.value.value.jti;
              var n, count := LineOf(w.ledger, r), u.refresh[r].countDown;
              && HandsOut(o, e.now, cfgs[q.api],
                          Holder(q.api, n.appId, n.userId, RefreshedScopes(n, q.call.scope), RefreshToken), None,
                          if count > 1 then Some(count - 1) else None)
              && Beside(o, WithoutRefresh(u, r))
            else o.response.Refused? && o.stores == u
  {
    LedgerIsObserver(cfgs, NEW_WORLD, events);
    ReachedInv(cfgs, events);
    var w := Reached(cfgs, events);
    PurgedInv(cfgs, w, e);
    HandedRefreshIsGenuine(cfgs, events, e);
    RefreshStep(cfgs, w.stores, e);
    ExchangeVerdict(cfgs, PurgedWorld(w, e), LogOf(cfgs, EMPTY_STORES, events), e.now, e.request);
  }

  lemma RefreshStep(cfgs: Configs, s: Stores, e: Event)
    requires e.request.TokenRequest? && e.request.call.RefreshCall? && e.request.api in cfgs
    requires Authentic(cfgs[e.request.api], e.request.auth, e.request.call)
    ensures var q := e.request;
            Step(cfgs, s, e) == ExchangeRefresh(cfgs[q.api], q.api, Purged(s, e), e.now, q.auth.found.value.clientId,
                                                OmitsSecret(cfgs[q.api], q.auth, q.call), q.call)
  {
    AuthenticationIsExact(cfgs[e.request.api], e.request.auth, e.request.call);
  }

  /** The records of the presented refresh token, if any, are genuine exactly when it was handed out. */
  predicate HandedIsGenuine(s: Stores, log: seq<Entry>, call: TokenCall) {
    call.RefreshCall? && call.token.Some? && call.token.value.Some? && call.token.value.value.jti in s.refresh ==>
      var t := call.token.value.value;
      var k := s.refresh[t.jti];
      Genuine(t, t.jti, k.appId, k.secret, k.issuedAt, k.expiredAt) <==> HandedRefresh(log, t)
  }

  lemma HandedRefreshIsGenuine(cfgs: Configs, events: seq<Event>, e: Event)
    requires e.request.TokenRequest?
    ensures HandedIsGenuine(Purged(Run(cfgs, EMPTY_STORES, events).0, e), LogOf(cfgs, EMPTY_STORES, events),
                            e.request.call)
  {
    var s, log, call := Run(cfgs, EMPTY_STORES, events).0, LogOf(cfgs, EMPTY_STORES, events), e.request.call;
    ReachedFacts(cfgs, events);
    if call.RefreshCall? && call.token.Some? && call.token.value.Some?
       && call.token.value.value.jti in Purged(s, e).refresh {
      GenuineRefresh(s, log, call.token.value.value);
    }
  }

  lemma GenuineRefresh(s: Stores, log: seq<Entry>, t: Jwt)
    requires Witnessed(s, log) && (forall x <- log :: Agrees(s, x)) && t.jti in s.refresh
    ensures var k := s.refresh[t.jti];
            Genuine(t, t.jti, k.appId, k.secret, k.issuedAt, k.expiredAt) <==> HandedRefresh(log, t)
  {
    var x :| x in log && IssuedRefresh(x, t.jti, s.refresh[t.jti]);
    if HandedRefresh(log, t) {
      var y :| y in log && y.response.TokensIssued? && y.response.refresh == Some(t);
      assert Agrees(s, y);
    }
  }

  lemma ExchangeVerdict(cfgs: Configs, w: World, log: seq<Entry>, now: Time, q: Request)
    requires Inv(cfgs, w) && q.TokenRequest? && q.call.RefreshCall? && q.api in cfgs && q.auth.found.Some?
    requires HandedIsGenuine(w.stores, log, q.call) && Authentic(cfgs[q.api], q.auth, q.call)
    ensures var o := ExchangeRefresh(cfgs[q.api], q.api, w.stores, now, q.auth.found.value.clientId,
                                     OmitsSecret(cfgs[q.api], q.auth, q.call), q.call);
            if Exchangeable(w, w.stores, log, now, q) then
              var r := q.call.token.value.value.jti;
              var n, count := LineOf(w.ledger, r), w.stores.refresh[r].countDown;
              && HandsOut(o, now, cfgs[q.api],
                          Holder(q.api, n.appId, n.userId, RefreshedScopes(n, q.call.scope), RefreshToken), None,
                          if count > 1 then Some(count - 1) else None)
              && Beside(o, WithoutRefresh(w.stores, r))
            else o.response.Refused? && o.stores == w.stores
  {
    var cfg, call, client := cfgs[q.api], q.call, q.auth.found.value.clientId;
    var skipped := OmitsSecret(cfg, q.auth, call);
    ExchangeableIsGranted(cfgs, w, log, now, q);
    if Exchangeable(w, w.stores, log, now, q) {
      var r := call.token.value.value.jti;
      var k, n := w.stores.refresh[r], LineOf(w.ledger, r);
      GrantedExchange(cfg, q.api, w.stores, now, client, skipped, call);
      AskedScopes(cfgs, w, q, r);
      RetireIsWithout(cfgs, w, r);
      assert RefreshOk(cfgs, w.ledger, r, k);
      FreshIds(cfgs, w);
      MintHandsOut(cfg, WithoutRefresh(w.stores, r), now,
                   Holder(q.api, client, k.userId, RefreshedScopes(n, call.scope), RefreshToken), None,
                   NextRenewal(cfg, k.countDown));
    } else {
      RefusedExchange(cfg, q.api, w.stores, now, client, skipped, call);
    }
  }

  lemma RetireIsWithout(cfgs: Configs, w: World, r: Uid)
    requires Inv(cfgs, w) && r in w.stores.refresh
    ensures Retire(w.stores, w.stores.refresh[r].appId, r) == WithoutRefresh(w.stores, r)
  {
    forall a | a in w.stores.access && w.stores.access[a].refreshToken == Some(r)
      ensures w.stores.access[a].appId == w.stores.refresh[r].appId
    {
      SingleUse.SameClient(cfgs, w, r, a);
    }
  }

  /** Words among the scopes of a stored refresh token are supported by its API. */
  lemma AskedScopes(cfgs: Configs, w: World, q: Request, r: Uid)
    requires Inv(cfgs, w) && q.TokenRequest? && q.call.RefreshCall? && r in w.stores.refresh
    requires w.stores.refresh[r].apiId == q.api
    ensures Known(w.ledger, r) && q.api in cfgs
    ensures var k, n, asked := w.stores.refresh[r], LineOf(w.ledger, r), CheckScope(cfgs[q.api], q.call.scope, true);
            && (!asked.ScopeError? && Covers(k.scopes, NarrowedScopes(k, asked))
                <==> (q.call.scope.Some? ==>
                        q.call.scope.value != "" && Covers(n.current, Text.Split(q.call.scope.value, ' '))))
            && (!asked.ScopeError? ==> NarrowedScopes(k, asked) == RefreshedScopes(n, q.call.scope))
  {
    var k := w.stores.refresh[r];
    assert RefreshOk(cfgs, w.ledger, r, k);
    var n := LineOf(w.ledger, r);
    assert LineOk(cfgs, n) by { assert LedgerOk(cfgs, w.ledger, w.stores.uids); }
    if q.call.scope.Some? {
      var words := Text.Split(q.call.scope.value, ' ');
      if Covers(n.current, words) {
        CoversTrans(n.granted, n.current, words);
        CoversTrans(cfgs[q.api].scopes, n.granted, words);
      }
    } else {
      assert Covers(k.scopes, k.scopes);
    }
  }

  /** The branches of an exchange, in terms of the stored record. */
  lemma ExchangeConditions(cfg: ApiConfig, api: string, s: Stores, now: Time, clientId: string, skipped: bool,
      call: TokenCall)
    requires call.RefreshCall?
    ensures ExchangeRefresh(cfg, api, s, now, clientId, skipped, call).response.TokensIssued?
       <==> && cfg.refresh.Some? && call.token.Some? && call.token.value.Some?
            && var t := call.token.value.value;
            && t.jti in s.refresh
            && var k, asked := s.refresh[t.jti], CheckScope(cfg, call.scope, true);
            && k.apiId == api && k.appId == clientId && now <= k.expiredAt
            && Genuine(t, t.jti, k.appId, k.secret, k.issuedAt, k.expiredAt)
            && !(cfg.IsPublic() && k.grant == Application && skipped)
            && !asked.ScopeError? && Covers(k.scopes, NarrowedScopes(k, asked))
  {}

  lemma ExchangeableIsGranted(cfgs: Configs, w: World, log: seq<Entry>, now: Time, q: Request)
    requires Inv(cfgs, w) && q.TokenRequest? && q.call.RefreshCall? && q.api in cfgs && q.auth.found.Some?
    requires HandedIsGenuine(w.stores, log, q.call) && Authentic(cfgs[q.api], q.auth, q.call)
    ensures Exchangeable(w, w.stores, log, now, q)
       <==> ExchangeRefresh(cfgs[q.api], q.api, w.stores, now, q.auth.found.value.clientId,
                            OmitsSecret(cfgs[q.api], q.auth, q.call), q.call).response.TokensIssued?
  {
    var cfg, call := cfgs[q.api], q.call;
    ExchangeConditions(cfg, q.api, w.stores, now, q.auth.found.value.clientId, OmitsSecret(cfg, q.auth, call), call);
    if call.token.Some? && call.token.value.Some? && call.token.value.value.jti in w.stores.refresh {
      var r := call.token.value.value.jti;
      assert RefreshOk(cfgs, w.ledger, r, w.stores.refresh[r]);
      if w.stores.refresh[r].apiId == q.api { AskedScopes(cfgs, w, q, r); }
    }
  }

  // ---- Redeeming a code ---------------------------------------------------------------------------------

  /** This event granted the code to the client, with this redirect address, within the last five minutes. */
  predicate GrantedCode(x: Entry, now: Time, q: Request)
    requires q.TokenRequest? && q.call.CodeCall? && q.call.code.Some? && q.auth.found.Some?
  {
    var g := x.event.request;
    && x.response == CodeIssued(q.call.code.value)
    && g.CodeGrant? && g.api == q.api && g.appId == q.auth.found.value.clientId
    && g.redirectURI == q.call.redirectURI && now <= x.event.now + 300000
  }

  /** The grant type is enabled, and the code was so granted and has not been used, revoked or purged. */
  predicate IsRedeemable(cfg: ApiConfig, u: Stores, log: seq<Entry>, now: Time, q: Request)
    requires q.TokenRequest? && q.call.CodeCall? && q.auth.found.Some?
  {
    && AccessCode in cfg.grants && q.call.code.Some? && q.call.code.value in u.codes
    && exists x <- log :: GrantedCode(x, now, q)
  }

  /** Exactly such codes are redeemed: for the user and scopes of their grant, with a full count if the API
      refreshes tokens, and the code goes. Any other request of an authentic client leaves the tables as
      they are. */
  lemma CodeVerdict(cfgs: Configs, events: seq<Event>, e: Event)
    requires e.request.TokenRequest? && e.request.call.CodeCall? && e.request.api in cfgs
    requires Authentic(cfgs[e.request.api], e.request.auth, e.request.call)
    ensures var s, q, log := Run(cfgs, EMPTY_STORES, events).0, e.request, LogOf(cfgs, EMPTY_STORES, events);
            var u, o := Purged(s, e), Step(cfgs, s, e);
            if IsRedeemable(cfgs[q.api], u, log, e.now, q) then
              && Beside(o, u.(codes := u.codes - {q.call.code.value}))
              && forall x <- log | GrantedCode(x, e.now, q) ::
                   var g := x.event.request;
                   HandsOut(o, e.now, cfgs[q.api], Holder(q.api, g.appId, g.userId, g.scope, AccessCode), q.call.code,
                            FirstCount(cfgs[q.api]))
            else o.response.Refused? && o.stores == u
  {
    LedgerIsObserver(cfgs, NEW_WORLD, events);
    ReachedInv(cfgs, events);
    PurgedInv(cfgs, Reached(cfgs, events), e);
    CodeStep(cfgs, Run(cfgs, EMPTY_STORES, events).0, e);
    if e.request.call.code.Some? { HandedCodeIsKept(cfgs, events, e); }
    RedeemVerdict(cfgs, PurgedWorld(Reached(cfgs, events), e), LogOf(cfgs, EMPTY_STORES, events), e.now, e.request);
  }

  lemma CodeStep(cfgs: Configs, s: Stores, e: Event)
    requires e.request.TokenRequest? && e.request.call.CodeCall? && e.request.api in cfgs
    requires Authentic(cfgs[e.request.api], e.request.auth, e.request.call)
    ensures var q := e.request;
            Step(cfgs, s, e) == RedeemCode(cfgs[q.api], q.api, Purged(s, e), e.now, q.auth.found.value.clientId, q.call)
  {
    AuthenticationIsExact(cfgs[e.request.api], e.request.auth, e.request.call);
  }

  /** A stored code is the one that an answer handed out. */
  predicate CodeIsKept(s: Stores, log: seq<Entry>, c: Uid) {
    c in s.codes ==>
      && (exists x <- log :: IssuedCode(x, c, s.codes[c]))
      && (forall x <- log :: x.response == CodeIssued(c) ==> IssuedCode(x, c, s.codes[c]))
  }

  lemma HandedCodeIsKept(cfgs: Configs, events: seq<Event>, e: Event)
    requires e.request.TokenRequest? && e.request.call.CodeCall? && e.request.call.code.Some?
    ensures CodeIsKept(Purged(Run(cfgs, EMPTY_STORES, events).0, e), LogOf(cfgs, EMPTY_STORES, events),
                       e.request.call.code.value)
  {
    var s, c, log := Run(cfgs, EMPTY_STORES, events).0, e.request.call.code.value, LogOf(cfgs, EMPTY_STORES, events);
    ReachedFacts(cfgs, events);
    if c in Purged(s, e).codes {
      var x :| x in log && IssuedCode(x, c, s.codes[c]);
      forall y | y in log && y.response == CodeIssued(c) ensures IssuedCode(y, c, s.codes[c]) { assert Agrees(s, y); }
    }
  }

  lemma RedeemVerdict(cfgs: Configs, w: World, log: seq<Entry>, now: Time, q: Request)
    requires Inv(cfgs, w) && q.TokenRequest? && q.call.CodeCall? && q.api in cfgs && q.auth.found.Some?
    requires q.call.code.Some? ==> CodeIsKept(w.stores, log, q.call.code.value)
    ensures var o := RedeemCode(cfgs[q.api], q.api, w.stores, now, q.auth.found.value.clientId, q.call);
            if IsRedeemable(cfgs[q.api], w.stores, log, now, q) then
              && Beside(o, w.stores.(codes := w.stores.codes - {q.call.code.value}))
              && forall x <- log | GrantedCode(x, now, q) ::
                   var g := x.event.request;
                   HandsOut(o, now, cfgs[q.api], Holder(q.api, g.appId, g.userId, g.scope, AccessCode), q.call.code,
                            FirstCount(cfgs[q.api]))
            else o.response.Refused? && o.stores == w.stores
  {
    var cfg := cfgs[q.api];
    if q.call.code.Some? && q.call.code.value in w.stores.codes {
      var c, client := q.call.code.value, q.auth.found.value.clientId;
      var k := w.stores.codes[c];
      var x :| x in log && IssuedCode(x, c, k);
      IsExpiredMeaning(k.issuedAt, now);
      assert GrantedCode(x, now, q) <==> Redeemable(k, q.api, client, q.call.redirectURI, now);
      FreshIds(cfgs, w);
      MintHandsOut(cfg, w.stores.(codes := w.stores.codes - {c}), now,
                   Holder(q.api, client, k.userId, k.scopes, AccessCode), Some(c), FirstRenewal(cfg));
    }
  }

  // ---- Grants without a credential ---------------------------------------------------------------------------

  /** The scope parameter is there and every word of it is a scope of the API. */
  predicate AsksSupported(cfg: ApiConfig, scope: Option<string>) {
    scope.Some? && scope.value != "" && forall x <- Text.Split(scope.value, ' ') :: x in cfg.scopes
  }

  /** The password or client credentials grant is enabled and asks for supported scopes, and the resource
      owner's name and password are there and verified. */
  predicate DirectlyGranted(cfg: ApiConfig, call: TokenCall)
    requires call.PasswordCall? || call.ClientCall?
  {
    && AsksSupported(cfg, call.scope)
    && match call
       case PasswordCall(name, password, _, verified) =>
         Password in cfg.grants && name != "" && password != "" && verified
       case ClientCall(_) => Application in cfg.grants
  }

  /** Exactly such requests of an authentic client are granted: for the resource owner or the client itself,
      with exactly the scopes asked for. Any other leaves the tables as they are. */
  lemma DirectVerdict(cfgs: Configs, events: seq<Event>, e: Event)
    requires e.request.TokenRequest? && e.request.api in cfgs
    requires e.request.call.PasswordCall? || e.request.call.ClientCall?
    requires Authentic(cfgs[e.request.api], e.request.auth, e.request.call)
    ensures var s, q := Run(cfgs, EMPTY_STORES, events).0, e.request;
            var cfg, u, o := cfgs[q.api], Purged(s, e), Step(cfgs, s, e);
            if DirectlyGranted(cfg, q.call) then
              var client := q.auth.found.value.clientId;
              && HandsOut(o, e.now, cfg,
                          Holder(q.api, client, if q.call.PasswordCall? then q.call.username else client,
                                 Text.Split(q.call.scope.value, ' '),
                                 if q.call.PasswordCall? then Password else Application),
                          None, FirstCount(cfg))
              && Beside(o, u)
            else o.response.Refused? && o.stores == u
  {
    LedgerIsObserver(cfgs, NEW_WORLD, events);
    ReachedInv(cfgs, events);
    PurgedInv(cfgs, Reached(cfgs, events), e);
    var u, q := Purged(Run(cfgs, EMPTY_STORES, events).0, e), e.request;
    AuthenticationIsExact(cfgs[q.api], q.auth, q.call);
    FreshIds(cfgs, PurgedWorld(Reached(cfgs, events), e));
    if q.call.PasswordCall? { PasswordVerdict(cfgs[q.api], q.api, u, e.now, q.auth.found.value.clientId, q.call); }
    else { ClientVerdict(cfgs[q.api], q.api, u, e.now, q.auth.found.value.clientId, q.call); }
  }

  lemma PasswordVerdict(cfg: ApiConfig, api: string, u: Stores, now: Time, client: string, call: TokenCall)
    requires call.PasswordCall? && u.uids !in u.access && u.uids + 2 !in u.refresh
    ensures var o := PasswordGrant(cfg, api, u, now, client, call);
            if DirectlyGranted(cfg, call) then
              && HandsOut(o, now, cfg, Holder(api, client, call.username, Text.Split(call.scope.value, ' '), Password),
                          None, FirstCount(cfg))
              && Beside(o, u)
            else o.response.Refused? && o.stores == u
  {
    if DirectlyGranted(cfg, call) {
      MintHandsOut(cfg, u, now, Holder(api, client, call.username, Text.Split(call.scope.value, ' '), Password), None,
                   FirstRenewal(cfg));
    }
  }

  lemma ClientVerdict(cfg: ApiConfig, api: string, u: Stores, now: Time, client: string, call: TokenCall)
    requires call.ClientCall? && u.uids !in u.access && u.uids + 2 !in u.refresh
    ensures var o := ClientGrant(cfg, api, u, now, client, call);
            if DirectlyGranted(cfg, call) then
              && HandsOut(o, now, cfg, Holder(api, client, client, Text.Split(call.scope.value, ' '), Application),
                          None, FirstCount(cfg))
              && Beside(o, u)
            else o.response.Refused? && o.stores == u
  {
    if DirectlyGranted(cfg, call) {
      MintHandsOut(cfg, u, now, Holder(api, client, client, Text.Split(call.scope.value, ' '), Application), None,
                   FirstRenewal(cfg));
    }
  }

  /** An authorization is stored as a code, or answered with an access token, exactly when its grant is
      enabled and its scopes are scopes of the API. */
  lemma AuthorizationVerdict(cfgs: Configs, events: seq<Event>, e: Event)
    requires (e.request.CodeGrant? || e.request.ImplicitGrant?) && e.request.api in cfgs
    ensures var s, q := Run(cfgs, EMPTY_STORES, events).0, e.request;
            var cfg, u, o := cfgs[q.api], Purged(s, e), Step(cfgs, s, e);
            if !Authorizable(cfg, q) then o.stores == u && o.response == Refused(UnauthorizableFor(cfg, q))
            else if q.CodeGrant? then StoresCode(o, u, e.now, q)
            else
              && HandsOut(o, e.now, cfg, Holder(q.api, q.appId, q.userId, q.scope, Implicit), None, None)
              && Beside(o, u)
  {
    LedgerIsObserver(cfgs, NEW_WORLD, events);
    ReachedInv(cfgs, events);
    PurgedInv(cfgs, Reached(cfgs, events), e);
    var w, q := PurgedWorld(Reached(cfgs, events), e), e.request;
    FreshIds(cfgs, w);
    if w.stores.uids in w.stores.codes { StoredIsDrawn(cfgs, w, w.stores.uids); }
    if q.CodeGrant? { CodeGrantVerdict(cfgs[q.api], w.stores, e.now, q); }
    else { ImplicitVerdict(cfgs[q.api], w.stores, e.now, q); }
  }

  /** The grant is enabled and asks for scopes of the API. */
  predicate Authorizable(cfg: ApiConfig, q: Request)
    requires q.CodeGrant? || q.ImplicitGrant?
  {
    (if q.CodeGrant? then AccessCode else Implicit) in cfg.grants && forall x <- q.scope :: x in cfg.scopes
  }

  function UnauthorizableFor(cfg: ApiConfig, q: Request): string
    requires q.CodeGrant? || q.ImplicitGrant?
  {
    if (if q.CodeGrant? then AccessCode else Implicit) in cfg.grants then "invalid_scope"
    else "unsupported_response_type"
  }

  /** The answer is a new code, stored for five minutes. */
  predicate StoresCode(o: Outcome, u: Stores, now: Time, q: Request)
    requires q.CodeGrant?
  {
    && o.response.CodeIssued? && o.response.code !in u.codes
    && o.stores.access == u.access && o.stores.refresh == u.refresh
    && o.stores.codes == u.codes[o.response.code :=
         Code(q.api, q.appId, q.userId, q.scope, q.redirectURI, now, now + 300000)]
  }

  lemma CodeGrantVerdict(cfg: ApiConfig, u: Stores, now: Time, q: Request)
    requires q.CodeGrant? && u.uids !in u.codes
    ensures var o := GrantCode(cfg, u, now, q);
            if Authorizable(cfg, q) then StoresCode(o, u, now, q)
            else o.stores == u && o.response == Refused(UnauthorizableFor(cfg, q))
  {}

  lemma ImplicitVerdict(cfg: ApiConfig, u: Stores, now: Time, q: Request)
    requires q.ImplicitGrant? && u.uids !in u.access && u.uids + 2 !in u.refresh
    ensures var o := GrantImplicit(cfg, u, now, q);
            if Authorizable(cfg, q)
            then HandsOut(o, now, cfg, Holder(q.api, q.appId, q.userId, q.scope, Implicit), None, None) && Beside(o, u)
            else o.stores == u && o.response == Refused(UnauthorizableFor(cfg, q))
  {
    if Authorizable(cfg, q) {
      MintHandsOut(cfg, u, now, Holder(q.api, q.appId, q.userId, q.scope, Implicit), None, None);
    }
  }

  // ---- Requests that fail to authenticate ------------------------------------------------------------------------

  /** The client is named twice, or its header lacks the secret. */
  predicate MisusesHeader(auth: ClientAuth) {
    && auth.header.Some? && auth.header.value.scheme == "Basic"
    && (auth.clientId != "" || auth.header.value.secret.None?)
  }

  /** A request that is not authentic is refused. Unless it misuses the header, exactly the code or refresh
      token that it presents is deleted. */
  lemma InauthenticVerdict(cfgs: Configs, s: Stores, e: Event)
    requires e.request.TokenRequest? && e.request.api in cfgs
    requires !Authentic(cfgs[e.request.api], e.request.auth, e.request.call)
    ensures var u, o, q := Purged(s, e), Step(cfgs, s, e), e.request;
            && o.response.Refused? && o.stores.access == u.access && o.stores.uids == u.uids
            && (if MisusesHeader(q.auth) then o.stores == u
                else
                  && (forall c :: c in o.stores.codes <==> c in u.codes && !SingleUse.PresentsCode(q, c))
                  && (forall c <- o.stores.codes :: o.stores.codes[c] == u.codes[c])
                  && (forall r :: r in o.stores.refresh <==> r in u.refresh && !SingleUse.PresentsRefresh(q, r))
                  && (forall r <- o.stores.refresh :: o.stores.refresh[r] == u.refresh[r]))
  {
    AuthenticationIsExact(cfgs[e.request.api], e.request.auth, e.request.call);
  }

  // ---- The errors named -------------------------------------------------------------------------------------------

  predicate Enabled(cfg: ApiConfig, call: TokenCall) {
    match call
    case CodeCall(_, _) => AccessCode in cfg.grants
    case RefreshCall(_, _) => cfg.refresh.Some?
    case PasswordCall(_, _, _, _) => Password in cfg.grants
    case ClientCall(_) => Application in cfg.grants
    case UnknownCall => false
  }

  /** A parameter that the grant type requires is missing, or a scope parameter is empty. */
  predicate LacksParameter(call: TokenCall) {
    match call
    case CodeCall(code, _) => code.None?
    case RefreshCall(token, scope) => token.None? || scope == Some("")
    case PasswordCall(name, password, scope, _) => name == "" || password == "" || scope.None? || scope == Some("")
    case ClientCall(scope) => scope.None? || scope == Some("")
    case UnknownCall => false
  }

  function ScopeOf(call: TokenCall): Option<string> {
    if call.RefreshCall? || call.PasswordCall? || call.ClientCall? then call.scope else None
  }

  /** Without its secret the client presents the first refresh token of a client credentials grant. */
  predicate NeedsSecret(cfg: ApiConfig, u: Stores, q: Request)
    requires q.TokenRequest?
  {
    && q.call.RefreshCall? && q.call.token.Some? && q.call.token.value.Some? && OmitsSecret(cfg, q.auth, q.call)
    && var t := q.call.token.value.value;
    && t.jti in u.refresh
    && var k := u.refresh[t.jti];
    k.apiId == q.api && k.grant == Application && Genuine(t, t.jti, k.appId, k.secret, k.issuedAt, k.expiredAt)
  }

  /** The error with which a request of an authentic client is refused (RFC 6749, section 5.2). */
  lemma RefusalVerdict(cfgs: Configs, s: Stores, e: Event)
    requires e.request.TokenRequest? && e.request.api in cfgs && Step(cfgs, s, e).response.Refused?
    requires Authentic(cfgs[e.request.api], e.request.auth, e.request.call)
    ensures var q, cfg := e.request, cfgs[e.request.api];
            Step(cfgs, s, e) == Outcome(Purged(s, e), Refused(
              if !Enabled(cfg, q.call) then "unsupported_grant_type"
              else if LacksParameter(q.call) then "invalid_request"
              else if ScopeOf(q.call).Some? && !AsksSupported(cfg, ScopeOf(q.call)) then "invalid_scope"
              else if NeedsSecret(cfg, Purged(s, e), q) then "invalid_request"
              else "invalid_grant"))
  {
    AuthenticationIsExact(cfgs[e.request.api], e.request.auth, e.request.call);
  }

  /** And with which a client is refused that is not authentic. */
  lemma InauthenticRefusal(cfgs: Configs, s: Stores, e: Event)
    requires e.request.TokenRequest? && e.request.api in cfgs
    requires !Authentic(cfgs[e.request.api], e.request.auth, e.request.call)
    ensures var q := e.request;
            var header, secret := q.auth.header, q.auth.clientSecret;
            Step(cfgs, s, e).response == Refused(
              if header.Some? && header.value.scheme != "Basic" then "invalid_client"
              else if header.Some? && q.auth.clientId != "" then "invalid_request"
              else if header.Some? && header.value.secret.None? then "exception"
              else if (if header.Some? then header.value.id else q.auth.clientId) == "" then "invalid_request"
              else if header.None? && secret.None? && (q.call.ClientCall? || cfgs[q.api].clientType !in {"", "public"})
              then "invalid_request"
              else "invalid_client")
  {
    AuthenticationIsExact(cfgs[e.request.api], e.request.auth, e.request.call);
  }

  // ---- Other requests ----------------------------------------------------------------------------------------------

  /** What a purge leaves. */
  lemma PurgedMeans(s: Stores, e: Event, id: Uid)
    ensures var u := Purged(s, e);
            && u.uids == s.uids
            && (id in u.codes <==> id in s.codes && !(e.purges.codes && s.codes[id].expiredAt <= e.now))
            && (id in u.access <==> id in s.access && !(e.purges.access && s.access[id].expiredAt <= e.now))
            && (id in u.refresh <==> id in s.refresh && !(e.purges.refresh && s.refresh[id].expiredAt <= e.now))
            && (id in u.codes ==> u.codes[id] == s.codes[id])
            && (id in u.access ==> u.access[id] == s.access[id])
            && (id in u.refresh ==> u.refresh[id] == s.refresh[id])
  {}

  /** Requests to an API that is no provider change nothing; at a provider every other visit only purges, and
      a token request of unknown type is refused. */
  lemma OtherVerdict(cfgs: Configs, s: Stores, e: Event)
    requires !e.request.BearerCheck?
    ensures var o, q := Step(cfgs, s, e), e.request;
            && (q.api !in cfgs ==> o == Outcome(s, Nothing))
            && (q.api in cfgs && q.OtherVisit? ==> o == Outcome(Purged(s, e), Nothing))
            && (q.api in cfgs && q.TokenRequest? && q.call.UnknownCall? ==>
                  o.response.Refused? && o.stores == Purged(s, e))
  {
    if e.request.TokenRequest? && e.request.api in cfgs {
      AuthenticationIsExact(cfgs[e.request.api], e.request.auth, e.request.call);
    }
  }
}
