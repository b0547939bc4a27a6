/** Whatever the servers accept, they issued: a redeemed code, an exchanged refresh token and an
    admitted bearer token agree in every field with an earlier answer of the same run. */
module Provenance {
  import opened Options
  import opened OAuthData
  import opened Lifecycle
  import opened Lineage
  import Text

  /** An event of a run with its answer. */
  datatype Entry = Entry(event: Event, response: Response)

  function Log(events: seq<Event>, responses: seq<Response>): (log: seq<Entry>)
    requires |events| == |responses|
    ensures |log| == |events| && forall i | 0 <= i < |log| :: log[i] == Entry(events[i], responses[i])
  {
    seq(|events|, i requires 0 <= i < |events| => Entry(events[i], responses[i]))
  }

  /** The log of a run from these stores. */
  function LogOf(cfgs: Configs, s: Stores, events: seq<Event>): seq<Entry> { Log(events, Run(cfgs, s, events).1) }

  lemma LogUnfolds(cfgs: Configs, s: Stores, events: seq<Event>)
    requires events != []
    ensures var o := Step(cfgs, s, events[0]);
            LogOf(cfgs, s, events) == [Entry(events[0], o.response)] + LogOf(cfgs, o.stores, events[1..])
  {
    var o := Step(cfgs, s, events[0]);
    var rest := Run(cfgs, o.stores, events[1..]).1;
    assert Run(cfgs, s, events).1 == [o.response] + rest;
    LogCons(events[0], events[1..], o.response, rest);
    assert [events[0]] + events[1..] == events;
  }

  lemma LogCons(e: Event, events: seq<Event>, r: Response, responses: seq<Response>)
    requires |events| == |responses|
    ensures Log([e] + events, [r] + responses) == [Entry(e, r)] + Log(events, responses)
  {}

  predicate IssuedCode(x: Entry, c: Uid, k: Code) {
    && x.response == CodeIssued(c)
    && x.event.request == CodeGrant(k.apiId, k.appId, k.userId, k.scopes, k.redirectURI)
    && k.issuedAt == x.event.now && k.expiredAt == x.event.now + 300000
  }

  predicate IssuedAccess(x: Entry, a: Uid, k: Access) {
    && x.response.TokensIssued?
    && x.response.access == Jwt(a, k.appId, k.issuedAt, k.expiredAt, k.secret) && k.issuedAt == x.event.now
  }

  predicate IssuedRefresh(x: Entry, r: Uid, k: Refresh) {
    && x.response.TokensIssued?
    && x.response.refresh == Some(Jwt(r, k.appId, k.issuedAt, k.expiredAt, k.secret)) && k.issuedAt == x.event.now
  }

  /** Every stored record was issued by an answer in the log. */
  predicate Witnessed(s: Stores, log: seq<Entry>) {
    && (forall c <- s.codes :: exists x <- log :: IssuedCode(x, c, s.codes[c]))
    && (forall a <- s.access :: exists x <- log :: IssuedAccess(x, a, s.access[a]))
    && (forall r <- s.refresh :: exists x <- log :: IssuedRefresh(x, r, s.refresh[r]))
  }

  // ---- One step -------------------------------------------------------------------------

  /** A step keeps records or issues them itself. */
  predicate OldOrNew(s: Stores, t: Stores, x: Entry) {
    && (forall c <- t.codes :: (c in s.codes && t.codes[c] == s.codes[c]) || IssuedCode(x, c, t.codes[c]))
    && (forall a <- t.access :: (a in s.access && t.access[a] == s.access[a]) || IssuedAccess(x, a, t.access[a]))
    && (forall r <- t.refresh :: (r in s.refresh && t.refresh[r] == s.refresh[r]) || IssuedRefresh(x, r, t.refresh[r]))
  }

  lemma ShrinkIsOld(s: Stores, u: Stores, x: Entry)
    requires Within(u, s)
    ensures OldOrNew(s, u, x)
  {}

  lemma MintIsNew(s: Stores, u: Stores, e: Event, h: Holder, azCode: Option<Uid>, ttl: int, renewal: Option<Renewal>)
    requires Within(u, s)
    ensures var o := Mint(u, e.now, h, azCode, ttl, renewal); OldOrNew(s, o.stores, Entry(e, o.response))
  {}

  lemma RedeemIssues(cfg: ApiConfig, s: Stores, u: Stores, e: Event, api: string, clientId: string, call: TokenCall)
    requires Within(u, s) && call.CodeCall?
    ensures var o := RedeemCode(cfg, api, u, e.now, clientId, call); OldOrNew(s, o.stores, Entry(e, o.response))
  {
    if RedeemCode(cfg, api, u, e.now, clientId, call).response.TokensIssued? {
      GrantedRedeem(cfg, api, u, e.now, clientId, call);
      var c := call.code.value;
      MintIsNew(s, u.(codes := u.codes - {c}), e,
                Holder(api, clientId, u.codes[c].userId, u.codes[c].scopes, AccessCode),
                Some(c), cfg.TokenTtl(), FirstRenewal(cfg));
    } else {
      ShrinkIsOld(s, u, Entry(e, RedeemCode(cfg, api, u, e.now, clientId, call).response));
    }
  }

  lemma RefreshIssues(cfg: ApiConfig, s: Stores, u: Stores, e: Event, api: string, clientId: string, skipped: bool,
      call: TokenCall)
    requires Within(u, s) && call.RefreshCall?
    ensures var o := ExchangeRefresh(cfg, api, u, e.now, clientId, skipped, call);
            OldOrNew(s, o.stores, Entry(e, o.response))
  {
    var o := ExchangeRefresh(cfg, api, u, e.now, clientId, skipped, call);
    if o.response.TokensIssued? {
      GrantedExchange(cfg, api, u, e.now, clientId, skipped, call);
      var r := call.token.value.value.jti;
      var scopes := NarrowedScopes(u.refresh[r], CheckScope(cfg, call.scope, true));
      MintIsNew(s, Retire(u, clientId, r), e,
                Holder(api, clientId, u.refresh[r].userId, scopes, RefreshToken),
                None, cfg.TokenTtl(), NextRenewal(cfg, u.refresh[r].countDown));
    } else {
      RefusedExchange(cfg, api, u, e.now, clientId, skipped, call);
      ShrinkIsOld(s, u, Entry(e, o.response));
    }
  }

  lemma CallIssues(cfg: ApiConfig, s: Stores, u: Stores, e: Event, api: string, clientId: string, skipped: bool,
      call: TokenCall)
    requires Within(u, s)
    ensures var o := Exchange(cfg, api, u, e.now, clientId, skipped, call); OldOrNew(s, o.stores, Entry(e, o.response))
  {
    var o := Exchange(cfg, api, u, e.now, clientId, skipped, call);
    if !o.response.TokensIssued? && !call.RefreshCall? { ShrinkIsOld(s, u, Entry(e, o.response)); }
    match call
    case CodeCall(_, _) => RedeemIssues(cfg, s, u, e, api, clientId, call);
    case RefreshCall(_, _) => RefreshIssues(cfg, s, u, e, api, clientId, skipped, call);
    case PasswordCall(name, _, scope, _) =>
      if o.response.TokensIssued? {
        MintIsNew(s, u, e, Holder(api, clientId, name, CheckScope(cfg, scope, false).scopes, Password), None,
                  cfg.TokenTtl(), FirstRenewal(cfg));
      }
    case ClientCall(scope) =>
      if o.response.TokensIssued? {
        MintIsNew(s, u, e, Holder(api, clientId, clientId, CheckScope(cfg, scope, false).scopes, Application), None,
                  cfg.TokenTtl(), FirstRenewal(cfg));
      }
    case UnknownCall =>
  }

  lemma RevokeShrinks(s: Stores, u: Stores, call: TokenCall)
    requires Within(u, s)
    ensures Within(Revoke(u, call), s)
  {}

  lemma TokenIssues(cfg: ApiConfig, s: Stores, u: Stores, e: Event, api: string, auth: ClientAuth, call: TokenCall)
    requires Within(u, s)
    ensures var o := ServeToken(cfg, api, u, e.now, auth, call); OldOrNew(s, o.stores, Entry(e, o.response))
  {
    match Authenticate(cfg, auth, call)
    case Rejected(error, revoke) =>
      RevokeShrinks(s, u, call);
      ShrinkIsOld(s, if revoke then Revoke(u, call) else u, Entry(e, Refused(error)));
    case Authenticated(clientId, skipped) => CallIssues(cfg, s, u, e, api, clientId, skipped, call);
  }

  lemma CodeGrantIssues(cfg: ApiConfig, s: Stores, u: Stores, e: Event)
    requires Within(u, s) && e.request.CodeGrant?
    ensures var o := GrantCode(cfg, u, e.now, e.request); OldOrNew(s, o.stores, Entry(e, o.response))
  {}

  lemma ImplicitIssues(cfg: ApiConfig, s: Stores, u: Stores, e: Event)
    requires Within(u, s) && e.request.ImplicitGrant?
    ensures var o := GrantImplicit(cfg, u, e.now, e.request); OldOrNew(s, o.stores, Entry(e, o.response))
  {
    var o, q := GrantImplicit(cfg, u, e.now, e.request), e.request;
    if o.response.TokensIssued? {
      MintIsNew(s, u, e, Holder(q.api, q.appId, q.userId, q.scope, Implicit), None, cfg.TokenTtl(), None);
    } else {
      ShrinkIsOld(s, u, Entry(e, o.response));
    }
  }

  lemma ServeIssues(cfg: ApiConfig, s: Stores, u: Stores, e: Event)
    requires Within(u, s) && !e.request.BearerCheck?
    ensures var o := Serve(cfg, u, e.now, e.request); OldOrNew(s, o.stores, Entry(e, o.response))
  {
    match e.request
    case TokenRequest(api, auth, call) => TokenIssues(cfg, s, u, e, api, auth, call);
    case CodeGrant(_, _, _, _, _) => CodeGrantIssues(cfg, s, u, e);
    case ImplicitGrant(_, _, _, _) => ImplicitIssues(cfg, s, u, e);
    case OtherVisit(_) => ShrinkIsOld(s, u, Entry(e, Nothing));
  }

  lemma StepIssues(cfgs: Configs, s: Stores, e: Event)
    ensures var o := Step(cfgs, s, e); OldOrNew(s, o.stores, Entry(e, o.response))
  {
    if !e.request.BearerCheck? && e.request.api in cfgs {
      PurgeShrinks(s, e.now, e.purges);
      ServeIssues(cfgs[e.request.api], s, Purged(s, e), e);
    }
  }

  lemma WitnessedStep(s: Stores, t: Stores, log: seq<Entry>, x: Entry)
    requires Witnessed(s, log) && OldOrNew(s, t, x)
    ensures Witnessed(t, log + [x])
  {
    assert x in log + [x] && forall y <- log :: y in log + [x];
  }

  lemma {:induction false} RunKeepsWitnessed(cfgs: Configs, s: Stores, log: seq<Entry>, events: seq<Event>)
    requires Witnessed(s, log)
    ensures Witnessed(Run(cfgs, s, events).0, log + LogOf(cfgs, s, events))
    decreases |events|
  {
    if events == [] {
      assert log + LogOf(cfgs, s, events) == log;
    } else {
      var o := Step(cfgs, s, events[0]);
      var x := Entry(events[0], o.response);
      StepIssues(cfgs, s, events[0]);
      WitnessedStep(s, o.stores, log, x);
      RunKeepsWitnessed(cfgs, o.stores, log + [x], events[1..]);
      LogUnfolds(cfgs, s, events);
      Text.Assoc(log, [x], LogOf(cfgs, o.stores, events[1..]));
    }
  }

  lemma StoresAreWitnessed(cfgs: Configs, events: seq<Event>)
    ensures Witnessed(Run(cfgs, EMPTY_STORES, events).0, LogOf(cfgs, EMPTY_STORES, events))
  {
    RunKeepsWitnessed(cfgs, EMPTY_STORES, [], events);
    assert [] + LogOf(cfgs, EMPTY_STORES, events) == LogOf(cfgs, EMPTY_STORES, events);
  }

  // ---- What is accepted was issued --------------------------------------------------------

  /** A bearer token is admitted only if, field by field, it is an access token that an earlier
      answer handed out, and it has not expired. */
  lemma AdmittedTokensWereIssued(cfgs: Configs, events: seq<Event>, check: Event)
    requires check.request.BearerCheck?
    requires Step(cfgs, Run(cfgs, EMPTY_STORES, events).0, check).response.Admitted?
    ensures check.request.token.Some? && check.now <= check.request.token.value.exp
    ensures exists x <- LogOf(cfgs, EMPTY_STORES, events) ::
              x.response.TokensIssued? && x.response.access == check.request.token.value
  {
    StoresAreWitnessed(cfgs, events);
    var s, a := Run(cfgs, EMPTY_STORES, events).0, check.request.token.value.jti;
    var x :| x in LogOf(cfgs, EMPTY_STORES, events) && IssuedAccess(x, a, s.access[a]);
  }

  /** The same for an exchanged refresh token. */
  lemma ExchangedTokensWereIssued(cfgs: Configs, events: seq<Event>, e: Event)
    requires e.request.TokenRequest? && e.request.call.RefreshCall?
    requires Step(cfgs, Run(cfgs, EMPTY_STORES, events).0, e).response.TokensIssued?
    ensures e.request.call.token.Some? && e.request.call.token.value.Some?
    ensures var t := e.request.call.token.value.value;
            e.now <= t.exp
            && exists x <- LogOf(cfgs, EMPTY_STORES, events) ::
                x.response.TokensIssued? && x.response.refresh == Some(t)
  {
    StoresAreWitnessed(cfgs, events);
    var s, q := Run(cfgs, EMPTY_STORES, events).0, e.request;
    var u, auth := Purged(s, e), Authenticate(cfgs[q.api], q.auth, q.call);
    GrantedExchange(cfgs[q.api], q.api, u, e.now, auth.clientId, auth.skipped, q.call);
    var r := q.call.token.value.value.jti;
    var x :| x in LogOf(cfgs, EMPTY_STORES, events) && IssuedRefresh(x, r, s.refresh[r]);
  }

  /** The tokens in this answer are for this API, client, user and scopes. */
  predicate TokensAreFor(o: Outcome, api: string, client: string, user: string, scopes: seq<string>) {
    && o.response.TokensIssued? && o.response.access.jti in o.stores.access
    && var k := o.stores.access[o.response.access.jti];
    k.apiId == api && k.appId == client && k.userId == user && k.scopes == scopes
  }

  /** What one redemption checks and issues, in terms of the stored code. */
  lemma RedeemStep(cfgs: Configs, s: Stores, e: Event)
    requires e.request.TokenRequest? && e.request.call.CodeCall? && e.request.api in cfgs
    requires Step(cfgs, s, e).response.TokensIssued?
    ensures var q := e.request;
            var who := Authenticate(cfgs[q.api], q.auth, q.call);
            && who.Authenticated? && q.call.code.Some? && q.call.code.value in s.codes
            && var k := s.codes[q.call.code.value];
            && Redeemable(k, q.api, who.clientId, q.call.redirectURI, e.now)
            && TokensAreFor(Step(cfgs, s, e), k.apiId, k.appId, k.userId, k.scopes)
  {
    var q, u := e.request, Purged(s, e);
    GrantedRedeem(cfgs[q.api], q.api, u, e.now, Authenticate(cfgs[q.api], q.auth, q.call).clientId, q.call);
  }

  /** A code is redeemed only for a grant of the same API to the authenticated client, with the
      redirect address of that grant and within five minutes of it; the tokens are for the user
      and the scopes of that grant (RFC 6749, section 4.1.3). */
  lemma RedeemedCodesWereGranted(cfgs: Configs, events: seq<Event>, e: Event)
    requires e.request.TokenRequest? && e.request.call.CodeCall? && e.request.api in cfgs
    requires Step(cfgs, Run(cfgs, EMPTY_STORES, events).0, e).response.TokensIssued?
    ensures var q := e.request;
            var who := Authenticate(cfgs[q.api], q.auth, q.call);
            && who.Authenticated? && q.call.code.Some?
            && exists x <- LogOf(cfgs, EMPTY_STORES, events) ::
                 && x.response == CodeIssued(q.call.code.value) && x.event.request.CodeGrant?
                 && var g := x.event.request;
                 && g.api == q.api && g.appId == who.clientId && g.redirectURI == q.call.redirectURI
                 && e.now <= x.event.now + 300000
                 && TokensAreFor(Step(cfgs, Run(cfgs, EMPTY_STORES, events).0, e), g.api, g.appId, g.userId, g.scope)
  {
    StoresAreWitnessed(cfgs, events);
    var s := Run(cfgs, EMPTY_STORES, events).0;
    RedeemStep(cfgs, s, e);
    var c := e.request.call.code.value;
    var x :| x in LogOf(cfgs, EMPTY_STORES, events) && IssuedCode(x, c, s.codes[c]);
    IsExpiredMeaning(s.codes[c].issuedAt, e.now);
  }
}
