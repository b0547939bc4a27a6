/** Back from an admitted bearer token to whoever allowed it: the answer that started its grant,
    and the login of its user in the session that asked for that grant. */
module Origins {
  import opened Options
  import opened OAuthData
  import opened Lifecycle
  import opened Lineage
  import opened TokenSafety
  import opened Provenance
  import T = Transactions
  import Text

  /** The authenticated client asked the token endpoint of this API for exactly these scopes, for
      itself or for a user whose password was verified. */
  predicate AsksDirectly(cfgs: Configs, q: Request, kind: Grant, api: string, client: string, user: string,
      scopes: seq<string>) {
    && q.TokenRequest? && q.api == api && api in cfgs
    && Authenticate(cfgs[api], q.auth, q.call).Authenticated?
    && Authenticate(cfgs[api], q.auth, q.call).clientId == client
    && (if kind == Password then q.call.PasswordCall? && q.call.verified && q.call.username == user
        else kind == Application && q.call.ClientCall? && user == client)
    && q.call.scope.Some? && scopes == Text.Split(q.call.scope.value, ' ')
  }

  /** This event started the grant `root` with line n. */
  predicate Starts(cfgs: Configs, x: Entry, root: Uid, n: Line) {
    var q := x.event.request;
    && x.event.now == n.start && !q.BearerCheck? && q.api == n.apiId
    && match n.kind
       case AccessCode =>
         x.response == CodeIssued(root) && q.CodeGrant? && q.appId == n.appId && q.userId == n.userId
             && q.scope == n.granted
       case Implicit =>
         && x.response.TokensIssued? && x.response.access.jti == root
         && q.ImplicitGrant? && q.appId == n.appId && q.userId == n.userId && q.scope == n.granted
       case RefreshToken => false
       case _ =>
         && x.response.TokensIssued? && x.response.access.jti == root
         && AsksDirectly(cfgs, q, n.kind, n.apiId, n.appId, n.userId, n.granted)
  }

  /** Every grant was started by an event in the log. */
  predicate AllStarted(cfgs: Configs, l: Ledger, log: seq<Entry>) {
    forall root <- l.lines :: exists x <- log :: Starts(cfgs, x, root, l.lines[root])
  }

  // ---- One step -------------------------------------------------------------------------

  /** The record answers this call of the client. */
  predicate CallStarts(call: TokenCall, client: string, k: Access) {
    && k.appId == client
    && ((call.PasswordCall? && k.grant == Password && call.verified && call.username == k.userId)
        || (call.ClientCall? && k.grant == Application && k.userId == client))
    && call.scope.Some? && k.scopes == Text.Split(call.scope.value, ' ')
  }

  lemma DirectCall(cfg: ApiConfig, api: string, s: Stores, now: Time, clientId: string, skipped: bool, call: TokenCall)
    requires call.PasswordCall? || call.ClientCall?
    requires Exchange(cfg, api, s, now, clientId, skipped, call).response.TokensIssued?
    ensures var o := Exchange(cfg, api, s, now, clientId, skipped, call);
            && o.response.access.jti in o.stores.access
            && var k := o.stores.access[o.response.access.jti];
            k.apiId == api && CallStarts(call, clientId, k)
  {}

  /** Tokens that answer no credential answer a password, client credentials or implicit grant. */
  lemma DirectTokens(cfg: ApiConfig, s: Stores, now: Time, q: Request)
    requires !q.BearerCheck? && Parent(q).None? && Serve(cfg, s, now, q).response.TokensIssued?
    ensures var o := Serve(cfg, s, now, q);
            && o.response.access.jti in o.stores.access
            && var k := o.stores.access[o.response.access.jti];
            && k.apiId == q.api
            && (if q.TokenRequest? then
                  var who := Authenticate(cfg, q.auth, q.call);
                  who.Authenticated? && CallStarts(q.call, who.clientId, k)
                else
                  && q.ImplicitGrant? && k.grant == Implicit
                  && k.appId == q.appId && k.userId == q.userId && k.scopes == q.scope)
  {
    if q.TokenRequest? {
      var who := Authenticate(cfg, q.auth, q.call);
      if q.call.RefreshCall? { RefreshNeedsToken(cfg, q.api, s, now, who.clientId, who.skipped, q.call); }
      DirectCall(cfg, q.api, s, now, who.clientId, who.skipped, q.call);
    }
  }

  lemma RefreshNeedsToken(cfg: ApiConfig, api: string, s: Stores, now: Time, clientId: string, skipped: bool,
      call: TokenCall)
    requires call.RefreshCall? && !(call.token.Some? && call.token.value.Some?)
    ensures !ExchangeRefresh(cfg, api, s, now, clientId, skipped, call).response.TokensIssued?
  {}

  /** Lines that keep their grant keep the event that started it. */
  lemma StillStarted(cfgs: Configs, l: Ledger, log: seq<Entry>, x: Entry, root: Uid, n: Line)
    requires AllStarted(cfgs, l, log) && root in l.lines && SameGrant(l.lines[root], n)
    ensures exists y <- log + [x] :: Starts(cfgs, y, root, n)
  {
    var y :| y in log && Starts(cfgs, y, root, l.lines[root]);
    assert y in log + [x];
  }

  lemma TokensStart(cfgs: Configs, w: World, log: seq<Entry>, e: Event)
    requires Inv(cfgs, w) && AllStarted(cfgs, w.ledger, log) && Step(cfgs, w.stores, e).response.TokensIssued?
    ensures AllStarted(cfgs, Advance(cfgs, w, e).ledger, log + [Entry(e, Step(cfgs, w.stores, e).response)])
  {
    var o, m := Step(cfgs, w.stores, e), Advance(cfgs, w, e).ledger;
    var x, a := Entry(e, o.response), o.response.access.jti;
    TokensEntered(cfgs, w, e);
    forall root <- m.lines ensures exists y <- log + [x] :: Starts(cfgs, y, root, m.lines[root]) {
      if root in w.ledger.lines {
        SameLine(w.ledger.lines[root]);
        StillStarted(cfgs, w.ledger, log, x, root, m.lines[root]);
      } else {
        NewLineStarts(cfgs, w, e);
        assert x in log + [x];
      }
    }
  }

  lemma SameLine(n: Line)
    ensures SameGrant(n, n)
  {}

  lemma NewLineStarts(cfgs: Configs, w: World, e: Event)
    requires Inv(cfgs, w) && Step(cfgs, w.stores, e).response.TokensIssued?
    requires RootOf(w, e, Step(cfgs, w.stores, e).response.access.jti) !in w.ledger.lines
    ensures var o, m := Step(cfgs, w.stores, e), Advance(cfgs, w, e).ledger;
            var root := RootOf(w, e, o.response.access.jti);
            root in m.lines && Starts(cfgs, Entry(e, o.response), root, m.lines[root])
  {
    var o := Step(cfgs, w.stores, e);
    IssuedTokens(cfgs, w, e);
    assert Parent(e.request).None?;
    DirectTokens(cfgs[e.request.api], PurgedWorld(w, e).stores, e.now, e.request);
    TrackUnknown(cfgs, w, e, o);
  }

  lemma StepStarts(cfgs: Configs, w: World, log: seq<Entry>, e: Event)
    requires Inv(cfgs, w) && AllStarted(cfgs, w.ledger, log)
    ensures AllStarted(cfgs, Advance(cfgs, w, e).ledger, log + [Entry(e, Step(cfgs, w.stores, e).response)])
  {
    var o, m := Step(cfgs, w.stores, e), Advance(cfgs, w, e).ledger;
    var x := Entry(e, o.response);
    if o.response.TokensIssued? {
      TokensStart(cfgs, w, log, e);
    } else {
      if o.response.CodeIssued? { CodeIssuedFresh(cfgs, w, e); }
      forall root <- m.lines ensures exists y <- log + [x] :: Starts(cfgs, y, root, m.lines[root]) {
        if root in w.ledger.lines && m.lines[root] == w.ledger.lines[root] {
          SameLine(m.lines[root]);
          StillStarted(cfgs, w.ledger, log, x, root, m.lines[root]);
        } else {
          assert x in log + [x];
        }
      }
    }
  }

  lemma {:induction false} RunStarts(cfgs: Configs, w: World, log: seq<Entry>, events: seq<Event>)
    requires Inv(cfgs, w) && AllStarted(cfgs, w.ledger, log)
    ensures AllStarted(cfgs, AdvanceAll(cfgs, w, events).ledger, log + LogOf(cfgs, w.stores, events))
    decreases |events|
  {
    if events == [] {
      assert log + LogOf(cfgs, w.stores, events) == log;
    } else {
      var o := Step(cfgs, w.stores, events[0]);
      var x := Entry(events[0], o.response);
      StepKeepsInv(cfgs, w, events[0]);
      StepStarts(cfgs, w, log, events[0]);
      RunStarts(cfgs, Advance(cfgs, w, events[0]), log + [x], events[1..]);
      LogUnfolds(cfgs, w.stores, events);
      Text.Assoc(log, [x], LogOf(cfgs, o.stores, events[1..]));
    }
  }

  // ---- Admission ------------------------------------------------------------------------

  /** The line of the token that a bearer check presents. */
  ghost function PresentedLine(cfgs: Configs, events: seq<Event>, check: Event): Line
    requires check.request.BearerCheck? && check.request.token.Some?
    requires Known(Reached(cfgs, events).ledger, check.request.token.value.jti)
  {
    LineOf(Reached(cfgs, events).ledger, check.request.token.value.jti)
  }

  /** An admitted token descends, through whatever refreshes, from a grant that an event of the run
      started for the admitted user; its scopes were granted then. */
  lemma AdmittedTokensHaveOrigins(cfgs: Configs, events: seq<Event>, check: Event)
    requires check.request.BearerCheck?
    requires Step(cfgs, Run(cfgs, EMPTY_STORES, events).0, check).response.Admitted?
    ensures check.request.token.Some? && Known(Reached(cfgs, events).ledger, check.request.token.value.jti)
    ensures var n := PresentedLine(cfgs, events, check);
            && Step(cfgs, Run(cfgs, EMPTY_STORES, events).0, check).response == Admitted(n.userId)
            && n.appId == check.request.token.value.aud && Covers(n.granted, check.request.required)
            && exists x <- LogOf(cfgs, EMPTY_STORES, events) ::
                 Starts(cfgs, x, Reached(cfgs, events).ledger.root[check.request.token.value.jti], n)
  {
    LedgerIsObserver(cfgs, NEW_WORLD, events);
    ReachedInv(cfgs, events);
    var w, a := Reached(cfgs, events), check.request.token.value.jti;
    assert AccessOk(cfgs, w.ledger, a, w.stores.access[a]);
    assert LineOk(cfgs, LineOf(w.ledger, a)) by { assert LedgerOk(cfgs, w.ledger, w.stores.uids); }
    CoversTrans(LineOf(w.ledger, a).granted, LineOf(w.ledger, a).current, check.request.required);
    RunStarts(cfgs, NEW_WORLD, [], events);
    assert [] + LogOf(cfgs, EMPTY_STORES, events) == LogOf(cfgs, EMPTY_STORES, events);
  }

  // ---- Sessions and tokens together ---------------------------------------------------------

  /** A visit to the authorization endpoint, after others in its session, gives this grant. */
  ghost predicate GivenBy(visits: seq<T.Visit>, v: T.Visit, g: Request) {
    T.Step(v.cfg, T.Visited(visits).state, v.event).reply == T.Granted(g)
  }

  ghost predicate GivenInSession(g: Request) { exists visits: seq<T.Visit>, v: T.Visit :: GivenBy(visits, v, g) }

  /** Codes and implicit tokens are only asked for by the authorization endpoint. */
  ghost predicate FromSessions(events: seq<Event>) {
    forall e <- events :: e.request.CodeGrant? || e.request.ImplicitGrant? ==> GivenInSession(e.request)
  }

  /** In some session this user was the latest to log in, in the very transaction for which this
      client was granted these scopes of the API. */
  ghost predicate LoggedInFor(api: string, client: string, user: string, scopes: seq<string>) {
    exists visits: seq<T.Visit>, v: T.Visit, g: Request ::
      && GivenBy(visits, v, g)
      && T.FollowsLogin(v.cfg, T.Visited(visits).state, v.event, T.Extend(T.Visited(visits), v), g)
      && (g.CodeGrant? || g.ImplicitGrant?)
      && g.api == api && g.appId == client && g.userId == user && g.scope == scopes
  }

  lemma SessionGrantsFollowLogin(g: Request)
    requires GivenInSession(g) && (g.CodeGrant? || g.ImplicitGrant?)
    ensures LoggedInFor(g.api, g.appId, g.userId, g.scope)
  {
    var visits: seq<T.Visit>, v: T.Visit :| GivenBy(visits, v, g);
    T.LoginBeforeGrant(visits, v);
  }

  /** Sessions, tokens and resources together: whoever a bearer token is admitted for logged in to
      a session for that very grant; or gave a verified password to the authenticated client, which
      asked for exactly these scopes; or is the authenticated client itself, having asked so. */
  lemma AdmittedUsersAuthenticated(cfgs: Configs, events: seq<Event>, check: Event)
    requires FromSessions(events) && check.request.BearerCheck?
    requires Step(cfgs, Run(cfgs, EMPTY_STORES, events).0, check).response.Admitted?
    ensures check.request.token.Some? && Known(Reached(cfgs, events).ledger, check.request.token.value.jti)
    ensures var n := PresentedLine(cfgs, events, check);
            && Step(cfgs, Run(cfgs, EMPTY_STORES, events).0, check).response == Admitted(n.userId)
            && n.appId == check.request.token.value.aud && Covers(n.granted, check.request.required)
            && (LoggedInFor(n.apiId, n.appId, n.userId, n.granted)
                || exists e <- events ::
                     && n.kind in {Password, Application}
                     && AsksDirectly(cfgs, e.request, n.kind, n.apiId, n.appId, n.userId, n.granted))
  {
    AdmittedTokensHaveOrigins(cfgs, events, check);
    var n, log := PresentedLine(cfgs, events, check), LogOf(cfgs, EMPTY_STORES, events);
    var x :| x in log && Starts(cfgs, x, Reached(cfgs, events).ledger.root[check.request.token.value.jti], n);
    var i :| 0 <= i < |log| && log[i] == x;
    assert x.event == events[i] && events[i] in events;
    if n.kind == AccessCode || n.kind == Implicit { SessionGrantsFollowLogin(x.event.request); }
  }
}
