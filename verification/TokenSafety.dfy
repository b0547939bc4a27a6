/** What the lineage invariant means for every run of the token server. */
module TokenSafety {
  import opened Options
  import opened OAuthData
  import opened Lifecycle
  import opened Lineage

  /** The world after a run from empty stores. */
  function Reached(cfgs: Configs, events: seq<Event>): World { AdvanceAll(cfgs, NEW_WORLD, events) }

  lemma ReachedInv(cfgs: Configs, events: seq<Event>)
    ensures Inv(cfgs, Reached(cfgs, events))
  {
    RunKeepsInv(cfgs, NEW_WORLD, events);
  }

  /** The ledger only watches: without it the stores evolve the same. */
  lemma {:induction false} LedgerIsObserver(cfgs: Configs, w: World, events: seq<Event>)
    ensures AdvanceAll(cfgs, w, events).stores == Run(cfgs, w.stores, events).0
    decreases |events|
  {
    if events != [] { LedgerIsObserver(cfgs, Advance(cfgs, w, events[0]), events[1..]); }
  }

  // ---- One step of the ledger -----------------------------------------------------

  /** The world that a request is served in. */
  function PurgedWorld(w: World, e: Event): World { w.(stores := Purged(w.stores, e)) }

  lemma PurgedInv(cfgs: Configs, w: World, e: Event)
    requires Inv(cfgs, w)
    ensures Inv(cfgs, PurgedWorld(w, e)) && Within(PurgedWorld(w, e).stores, w.stores)
  {
    PurgeShrinks(w.stores, e.now, e.purges);
    ShrinkKeepsInv(cfgs, w, PurgedWorld(w, e).stores);
  }

  lemma MintIds(s: Stores, now: Time, h: Holder, azCode: Option<Uid>, ttl: int, renewal: Option<Renewal>)
    ensures var o := Mint(s, now, h, azCode, ttl, renewal);
            && o.response.TokensIssued? && o.response.access.jti == s.uids < o.stores.uids
            && (o.response.refresh.Some? ==> s.uids < o.response.refresh.value.jti < o.stores.uids)
            && s.uids in o.stores.access && o.stores.access[s.uids].apiId == h.apiId
            && o.stores.access[s.uids].scopes == h.scopes
  {}

  /** Tokens served for `q` are new, and no wider than the credential they were given for. */
  predicate NewTokens(cfgs: Configs, w: World, q: Request, o: Outcome)
    requires o.response.TokensIssued?
  {
    var a, p := o.response.access.jti, Parent(q);
    && w.stores.uids <= a < o.stores.uids && a in o.stores.access
    && (o.response.refresh.Some? ==> a < o.response.refresh.value.jti < o.stores.uids)
    && o.stores.access[a].apiId in cfgs
    && (p.Some? ==> Known(w.ledger, p.value) && Covers(LineOf(w.ledger, p.value).current, o.stores.access[a].scopes))
  }

  lemma RedeemedTokens(cfgs: Configs, w: World, now: Time, clientId: string, q: Request)
    requires Inv(cfgs, w) && q.TokenRequest? && q.call.CodeCall? && q.api in cfgs
    requires RedeemCode(cfgs[q.api], q.api, w.stores, now, clientId, q.call).response.TokensIssued?
    ensures NewTokens(cfgs, w, q, RedeemCode(cfgs[q.api], q.api, w.stores, now, clientId, q.call))
  {
    var c := q.call.code.value;
    var k := w.stores.codes[c];
    assert CodeOk(w.ledger, c, k);
    MintIds(w.stores.(codes := w.stores.codes - {c}), now, Holder(q.api, clientId, k.userId, k.scopes, AccessCode),
            Some(c), cfgs[q.api].TokenTtl(), FirstRenewal(cfgs[q.api]));
  }

  lemma RefreshedTokens(cfgs: Configs, w: World, now: Time, clientId: string, skipped: bool, q: Request)
    requires Inv(cfgs, w) && q.TokenRequest? && q.call.RefreshCall? && q.api in cfgs
    requires ExchangeRefresh(cfgs[q.api], q.api, w.stores, now, clientId, skipped, q.call).response.TokensIssued?
    ensures NewTokens(cfgs, w, q, ExchangeRefresh(cfgs[q.api], q.api, w.stores, now, clientId, skipped, q.call))
  {
    var cfg := cfgs[q.api];
    GrantedExchange(cfg, q.api, w.stores, now, clientId, skipped, q.call);
    var r := q.call.token.value.value.jti;
    var k := w.stores.refresh[r];
    var scopes := NarrowedScopes(k, CheckScope(cfg, q.call.scope, true));
    assert RefreshOk(cfgs, w.ledger, r, k);
    MintIds(Retire(w.stores, clientId, r), now, Holder(q.api, clientId, k.userId, scopes, RefreshToken), None,
            cfg.TokenTtl(), NextRenewal(cfg, k.countDown));
  }

  lemma ExchangedTokens(cfgs: Configs, w: World, now: Time, clientId: string, skipped: bool, q: Request)
    requires Inv(cfgs, w) && q.TokenRequest? && q.api in cfgs
    requires Exchange(cfgs[q.api], q.api, w.stores, now, clientId, skipped, q.call).response.TokensIssued?
    ensures NewTokens(cfgs, w, q, Exchange(cfgs[q.api], q.api, w.stores, now, clientId, skipped, q.call))
  {
    var cfg := cfgs[q.api];
    match q.call
    case CodeCall(_, _) => RedeemedTokens(cfgs, w, now, clientId, q);
    case RefreshCall(_, _) => RefreshedTokens(cfgs, w, now, clientId, skipped, q);
    case PasswordCall(name, _, scope, _) =>
      MintIds(w.stores, now, Holder(q.api, clientId, name, CheckScope(cfg, scope, false).scopes, Password), None,
              cfg.TokenTtl(), FirstRenewal(cfg));
    case ClientCall(scope) =>
      MintIds(w.stores, now, Holder(q.api, clientId, clientId, CheckScope(cfg, scope, false).scopes, Application), None,
              cfg.TokenTtl(), FirstRenewal(cfg));
    case UnknownCall =>
  }

  lemma ServedTokens(cfgs: Configs, w: World, now: Time, q: Request)
    requires Inv(cfgs, w) && !q.BearerCheck? && q.api in cfgs
    requires Serve(cfgs[q.api], w.stores, now, q).response.TokensIssued?
    ensures NewTokens(cfgs, w, q, Serve(cfgs[q.api], w.stores, now, q))
  {
    if q.TokenRequest? {
      var auth := Authenticate(cfgs[q.api], q.auth, q.call);
      ExchangedTokens(cfgs, w, now, auth.clientId, auth.skipped, q);
    } else {
      MintIds(w.stores, now, Holder(q.api, q.appId, q.userId, q.scope, Implicit), None, cfgs[q.api].TokenTtl(), None);
    }
  }

  lemma IssuedTokens(cfgs: Configs, w: World, e: Event)
    requires Inv(cfgs, w) && Step(cfgs, w.stores, e).response.TokensIssued?
    ensures !e.request.BearerCheck? && e.request.api in cfgs
    ensures NewTokens(cfgs, w, e.request, Step(cfgs, w.stores, e))
  {
    PurgedInv(cfgs, w, e);
    ServedTokens(cfgs, PurgedWorld(w, e), e.now, e.request);
  }

  /** How often tokens were issued for a grant. */
  function IssuedFor(l: Ledger, root: Uid): nat { if root in l.lines then l.lines[root].issued else 0 }

  /** Whether this event issues tokens that descend from `root`. */
  predicate IssuesFor(cfgs: Configs, w: World, e: Event, root: Uid) {
    var o, v := Step(cfgs, w.stores, e), Advance(cfgs, w, e);
    o.response.TokensIssued? && o.response.access.jti in v.ledger.root && v.ledger.root[o.response.access.jti] == root
  }

  predicate SameGrant(m: Line, n: Line) {
    && m.apiId == n.apiId && m.appId == n.appId && m.userId == n.userId && m.kind == n.kind
    && m.granted == n.granted && m.start == n.start && m.window == n.window && m.limit == n.limit
    && m.issued <= n.issued
    && Covers(m.current, n.current)
  }

  /** The grant that newly issued tokens descend from. */
  function RootOf(w: World, e: Event, a: Uid): Uid {
    var p := Parent(e.request);
    if p.Some? && p.value in w.ledger.root then w.ledger.root[p.value] else a
  }

  /** How the ledger changes when one line is new or extended by one issue. */
  predicate OneMoreIssue(l: Ledger, m: Ledger, root: Uid, a: Uid) {
    && root in m.lines && m.lines == l.lines[root := m.lines[root]]
    && m.lines[root].issued == IssuedFor(l, root) + 1
    && (root in l.lines ==> SameGrant(l.lines[root], m.lines[root]))
    && a in m.root && m.root[a] == root
    && (forall id <- l.root :: id in m.root && m.root[id] == l.root[id])
  }

  lemma EnterIsOneMore(l: Ledger, root: Uid, n: Line, a: Jwt, r: Option<Jwt>)
    requires a.jti !in l.root && (r.Some? ==> r.value.jti !in l.root && r.value.jti != a.jti)
    requires n.issued == IssuedFor(l, root) + 1 && (root in l.lines ==> SameGrant(l.lines[root], n))
    ensures OneMoreIssue(l, Enter(l, root, n, a, r), root, a.jti)
  {}

  /** New identifiers are not yet in the ledger. */
  lemma NewTokensAreUnknown(cfgs: Configs, w: World, q: Request, o: Outcome)
    requires Inv(cfgs, w) && o.response.TokensIssued? && NewTokens(cfgs, w, q, o)
    ensures o.response.access.jti !in w.ledger.root && o.response.access.jti !in w.ledger.lines
    ensures o.response.refresh.Some? ==>
              o.response.refresh.value.jti !in w.ledger.root && o.response.refresh.value.jti != o.response.access.jti
  {
    assert LedgerOk(cfgs, w.ledger, w.stores.uids);
  }

  /** What the ledger enters for tokens issued in answer to a presented credential. */
  lemma TrackKnown(cfgs: Configs, w: World, e: Event, o: Outcome, p: Uid)
    requires o.response.TokensIssued? && o.response.access.jti in o.stores.access
    requires Parent(e.request) == Some(p) && Known(w.ledger, p)
    ensures var n, k := LineOf(w.ledger, p), o.stores.access[o.response.access.jti];
            Track(cfgs, w.ledger, e, o)
            == Enter(w.ledger, w.ledger.root[p], n.(current := k.scopes, issued := n.issued + 1),
                     o.response.access, o.response.refresh)
  {}

  /** What it enters for a grant that starts with its tokens. */
  function FirstLine(cfgs: Configs, e: Event, k: Access): Line
    requires k.apiId in cfgs
  {
    Line(k.apiId, k.appId, k.userId, k.grant, k.scopes, k.scopes, e.now, 0,
         if k.grant == Implicit then 1 else Limit(cfgs[k.apiId]), 1, None, None)
  }

  lemma TrackUnknown(cfgs: Configs, w: World, e: Event, o: Outcome)
    requires o.response.TokensIssued? && o.response.access.jti in o.stores.access && Parent(e.request).None?
    requires o.stores.access[o.response.access.jti].apiId in cfgs
    ensures Track(cfgs, w.ledger, e, o)
         == Enter(w.ledger, o.response.access.jti, FirstLine(cfgs, e, o.stores.access[o.response.access.jti]),
                  o.response.access, o.response.refresh)
  {}

  /** Issued tokens are entered under their grant, as one more issue. */
  lemma TokensEntered(cfgs: Configs, w: World, e: Event)
    requires Inv(cfgs, w) && Step(cfgs, w.stores, e).response.TokensIssued?
    ensures var a := Step(cfgs, w.stores, e).response.access.jti;
            OneMoreIssue(w.ledger, Advance(cfgs, w, e).ledger, RootOf(w, e, a), a)
  {
    var o := Step(cfgs, w.stores, e);
    IssuedTokens(cfgs, w, e);
    EnterTokens(cfgs, w, e, o);
  }

  lemma EnterTokens(cfgs: Configs, w: World, e: Event, o: Outcome)
    requires Inv(cfgs, w) && o.response.TokensIssued? && NewTokens(cfgs, w, e.request, o)
    ensures OneMoreIssue(w.ledger, Track(cfgs, w.ledger, e, o), RootOf(w, e, o.response.access.jti),
        o.response.access.jti)
  {
    NewTokensAreUnknown(cfgs, w, e.request, o);
    var a, r := o.response.access, o.response.refresh;
    var k, p := o.stores.access[a.jti], Parent(e.request);
    if p.Some? {
      var n := LineOf(w.ledger, p.value);
      TrackKnown(cfgs, w, e, o, p.value);
      EnterIsOneMore(w.ledger, w.ledger.root[p.value], n.(current := k.scopes, issued := n.issued + 1), a, r);
    } else {
      TrackUnknown(cfgs, w, e, o);
      EnterIsOneMore(w.ledger, a.jti, FirstLine(cfgs, e, k), a, r);
    }
  }

  lemma StepCounts(cfgs: Configs, w: World, e: Event, root: Uid)
    requires Inv(cfgs, w)
    ensures IssuedFor(Advance(cfgs, w, e).ledger, root)
            == IssuedFor(w.ledger, root) + if IssuesFor(cfgs, w, e, root) then 1 else 0
  {
    if Step(cfgs, w.stores, e).response.TokensIssued? {
      TokensEntered(cfgs, w, e);
    } else if Step(cfgs, w.stores, e).response.CodeIssued? {
      CodeIssuedFresh(cfgs, w, e);
      assert LedgerOk(cfgs, w.ledger, w.stores.uids);
    }
  }

  lemma ExchangesIssueNoCode(cfg: ApiConfig, api: string, s: Stores, now: Time, clientId: string, skipped: bool,
      call: TokenCall)
    ensures !Exchange(cfg, api, s, now, clientId, skipped, call).response.CodeIssued?
  {
    if call.RefreshCall? && !ExchangeRefresh(cfg, api, s, now, clientId, skipped, call).response.TokensIssued? {
      RefusedExchange(cfg, api, s, now, clientId, skipped, call);
    }
  }

  lemma OnlyCodeGrantsIssueCodes(cfg: ApiConfig, s: Stores, now: Time, q: Request)
    requires !q.BearerCheck? && !q.CodeGrant?
    ensures !Serve(cfg, s, now, q).response.CodeIssued?
  {
    if q.TokenRequest? {
      var who := Authenticate(cfg, q.auth, q.call);
      if who.Authenticated? { ExchangesIssueNoCode(cfg, q.api, s, now, who.clientId, who.skipped, q.call); }
    }
  }

  lemma CodeIssuedFresh(cfgs: Configs, w: World, e: Event)
    requires Step(cfgs, w.stores, e).response.CodeIssued?
    ensures e.request.CodeGrant? && e.request.api in cfgs
    ensures Step(cfgs, w.stores, e).response.code == w.stores.uids
  {
    if !e.request.CodeGrant? && !e.request.BearerCheck? && e.request.api in cfgs {
      OnlyCodeGrantsIssueCodes(cfgs[e.request.api], Purged(w.stores, e), e.now, e.request);
    }
  }

  function Issues(cfgs: Configs, w: World, events: seq<Event>, root: Uid): nat
    decreases |events|
  {
    if events == [] then 0
    else (if IssuesFor(cfgs, w, events[0], root) then 1 else 0)
         + Issues(cfgs, Advance(cfgs, w, events[0]), events[1..], root)
  }

  lemma {:induction false} RunCounts(cfgs: Configs, w: World, events: seq<Event>, root: Uid)
    requires Inv(cfgs, w)
    ensures IssuedFor(AdvanceAll(cfgs, w, events).ledger, root)
            == IssuedFor(w.ledger, root) + Issues(cfgs, w, events, root)
    decreases |events|
  {
    if events != [] {
      StepKeepsInv(cfgs, w, events[0]);
      StepCounts(cfgs, w, events[0], root);
      RunCounts(cfgs, Advance(cfgs, w, events[0]), events[1..], root);
    }
  }

  // ---- Conservation ---------------------------------------------------------------

  /** What the live credentials of a grant still allow. */
  ghost function Potential(w: World, root: Uid): int
    requires root in w.ledger.lines
  {
    if root in w.stores.codes then w.ledger.lines[root].limit
    else if exists r <- w.stores.refresh :: r in w.ledger.root && w.ledger.root[r] == root then
      var r :| r in w.stores.refresh && r in w.ledger.root && w.ledger.root[r] == root;
      Exchanges(w.stores.refresh[r].countDown)
    else 0
  }

  /** In every run, the tokens issued for a grant and what its live credential still allows
      add up to the limit; without a live credential they stay within it. */
  lemma Conservation(cfgs: Configs, events: seq<Event>, root: Uid)
    requires root in Reached(cfgs, events).ledger.lines
    ensures var w := Reached(cfgs, events);
            && var n := w.ledger.lines[root];
            && n.apiId in cfgs && n.limit == (if n.kind == Implicit then 1 else Limit(cfgs[n.apiId]))
            && Issues(cfgs, NEW_WORLD, events, root) + Potential(w, root) <= n.limit
            && (Potential(w, root) > 0 ==> Issues(cfgs, NEW_WORLD, events, root) + Potential(w, root) == n.limit)
  {
    var w := Reached(cfgs, events);
    ReachedInv(cfgs, events);
    RunCounts(cfgs, NEW_WORLD, events, root);
    if root in w.stores.codes {
      assert CodeOk(w.ledger, root, w.stores.codes[root]);
    } else if exists r <- w.stores.refresh :: r in w.ledger.root && w.ledger.root[r] == root {
      forall r | r in w.stores.refresh && w.ledger.root[r] == root
        ensures w.ledger.lines[root].issued + Exchanges(w.stores.refresh[r].countDown) == w.ledger.lines[root].limit
      {
        assert RefreshOk(cfgs, w.ledger, r, w.stores.refresh[r]);
      }
    }
  }

  // ---- Lifetime -------------------------------------------------------------------

  /** No bearer check admits a token after its grant's horizon. */
  lemma LifetimeBound(cfgs: Configs, events: seq<Event>, check: Event)
    requires check.request.BearerCheck?
    requires Step(cfgs, Reached(cfgs, events).stores, check).response.Admitted?
    ensures var w, a := Reached(cfgs, events), check.request.token.value.jti;
            Known(w.ledger, a) && LineOf(w.ledger, a).apiId in cfgs && check.now <= Horizon(cfgs, LineOf(w.ledger, a))
  {
    ReachedInv(cfgs, events);
    var w, a := Reached(cfgs, events), check.request.token.value.jti;
    assert AccessOk(cfgs, w.ledger, a, w.stores.access[a]);
  }

  /** The same bound spelled out for a token that descends from an authorization code. */
  lemma CodeLifetimeBound(cfgs: Configs, events: seq<Event>, check: Event)
    requires check.request.BearerCheck?
    requires Step(cfgs, Reached(cfgs, events).stores, check).response.Admitted?
    ensures var w, a := Reached(cfgs, events), check.request.token.value.jti;
            && Known(w.ledger, a) && LineOf(w.ledger, a).apiId in cfgs
            && var n := LineOf(w.ledger, a);
            && var cfg := cfgs[n.apiId];
            n.kind == AccessCode && cfg.refresh.Some? && cfg.RefreshTtl() > 0 && cfg.RefreshCount() > 0 ==>
              check.now <= n.start + (300 + cfg.RefreshCount() * cfg.RefreshTtl() + cfg.TokenTtl()) * 1000
  {
    LifetimeBound(cfgs, events, check);
    ReachedInv(cfgs, events);
    var w, a := Reached(cfgs, events), check.request.token.value.jti;
    var n := LineOf(w.ledger, a);
    var cfg := cfgs[n.apiId];
    assert LedgerOk(cfgs, w.ledger, w.stores.uids);
    if n.kind == AccessCode && cfg.refresh.Some? && cfg.RefreshTtl() > 0 && cfg.RefreshCount() > 0 {
      assert n.limit - 1 == cfg.RefreshCount();
      assert cfg.RefreshCount() * (cfg.RefreshTtl() * 1000) == cfg.RefreshCount() * cfg.RefreshTtl() * 1000;
    }
  }

  /** A refresh token with `countDown` c leaves room for c - 1 further lifetimes. */
  lemma RefreshExpiry(cfgs: Configs, events: seq<Event>, r: Uid)
    requires r in Reached(cfgs, events).stores.refresh
    ensures var w := Reached(cfgs, events);
            && Known(w.ledger, r) && LineOf(w.ledger, r).apiId in cfgs
            && var n, k := LineOf(w.ledger, r), w.stores.refresh[r];
            k.expiredAt + (Exchanges(k.countDown) - 1) * Span(cfgs[n.apiId])
              <= n.start + n.window + (n.limit - 1) * Span(cfgs[n.apiId])
  {
    ReachedInv(cfgs, events);
    var w := Reached(cfgs, events);
    assert RefreshOk(cfgs, w.ledger, r, w.stores.refresh[r]);
    var n, x := LineOf(w.ledger, r), Exchanges(w.stores.refresh[r].countDown);
    var span := Span(cfgs[n.apiId]);
    assert (x - 1) * span + n.issued * span == (x - 1 + n.issued) * span;
  }

  // ---- Rotation -------------------------------------------------------------------

  /** A grant has at most one live access token and one live refresh token, the access token
      is the one issued with the refresh token, and neither coexists with its live code. */
  lemma RotationSafety(cfgs: Configs, events: seq<Event>, x: Uid, y: Uid)
    requires var w := Reached(cfgs, events);
             Known(w.ledger, x) && Known(w.ledger, y) && w.ledger.root[x] == w.ledger.root[y]
    ensures var s := Reached(cfgs, events).stores;
            && (x in s.access && y in s.access ==> x == y)
            && (x in s.refresh && y in s.refresh ==> x == y)
            && (x in s.codes && y in s.codes ==> x == y)
            && (x in s.codes ==> y !in s.access && y !in s.refresh)
            && (x in s.access && y in s.refresh ==> s.access[x].refreshToken == Some(y))
  {
    ReachedInv(cfgs, events);
    var w := Reached(cfgs, events);
    if x in w.stores.access { assert AccessOk(cfgs, w.ledger, x, w.stores.access[x]); }
    if y in w.stores.access { assert AccessOk(cfgs, w.ledger, y, w.stores.access[y]); }
    if x in w.stores.refresh { assert RefreshOk(cfgs, w.ledger, x, w.stores.refresh[x]); }
    if y in w.stores.refresh { assert RefreshOk(cfgs, w.ledger, y, w.stores.refresh[y]); }
    if x in w.stores.codes { assert CodeOk(w.ledger, x, w.stores.codes[x]); }
    if y in w.stores.codes { assert CodeOk(w.ledger, y, w.stores.codes[y]); }
  }

  // ---- Constancy and shrinking scopes ----------------------------------------------

  lemma StepKeepsGrant(cfgs: Configs, w: World, e: Event, id: Uid)
    requires Inv(cfgs, w) && Known(w.ledger, id)
    ensures var v := Advance(cfgs, w, e);
            Known(v.ledger, id) && v.ledger.root[id] == w.ledger.root[id]
            && SameGrant(LineOf(w.ledger, id), LineOf(v.ledger, id))
  {
    if Step(cfgs, w.stores, e).response.TokensIssued? {
      TokensEntered(cfgs, w, e);
    } else if Step(cfgs, w.stores, e).response.CodeIssued? {
      CodeIssuedFresh(cfgs, w, e);
      assert LedgerOk(cfgs, w.ledger, w.stores.uids);
    }
  }

  /** Once an identifier belongs to a grant, later events change neither that nor the grant's
      API, client and user, and its tokens' scopes only shrink. */
  lemma {:induction false} GrantsOnlyNarrow(cfgs: Configs, w: World, events: seq<Event>, id: Uid)
    requires Inv(cfgs, w) && Known(w.ledger, id)
    ensures var v := AdvanceAll(cfgs, w, events);
            Known(v.ledger, id) && v.ledger.root[id] == w.ledger.root[id]
            && SameGrant(LineOf(w.ledger, id), LineOf(v.ledger, id))
    decreases |events|
  {
    if events != [] {
      var v := Advance(cfgs, w, events[0]);
      StepKeepsInv(cfgs, w, events[0]);
      StepKeepsGrant(cfgs, w, events[0], id);
      GrantsOnlyNarrow(cfgs, v, events[1..], id);
      CoversTrans(LineOf(w.ledger, id).current, LineOf(v.ledger, id).current,
                  LineOf(AdvanceAll(cfgs, v, events[1..]).ledger, id).current);
    }
  }

  /** Every stored record carries its grant's API, client and user, and scopes that were
      granted and that the API's server supports. */
  lemma StoredRecordsMatchGrant(cfgs: Configs, events: seq<Event>, id: Uid)
    requires Known(Reached(cfgs, events).ledger, id)
    ensures var w := Reached(cfgs, events);
            && var s, n := w.stores, LineOf(w.ledger, id);
            && n.apiId in cfgs && Covers(n.granted, n.current) && Covers(cfgs[n.apiId].scopes, n.current)
            && (id in s.codes ==> var k := s.codes[id];
                  k.apiId == n.apiId && k.appId == n.appId && k.userId == n.userId && k.scopes == n.current)
            && (id in s.refresh ==> var k := s.refresh[id];
                  k.apiId == n.apiId && k.appId == n.appId && k.userId == n.userId && k.scopes == n.current)
            && (id in s.access ==> var k := s.access[id];
                  k.apiId == n.apiId && k.appId == n.appId && k.userId == n.userId && k.scopes == n.current)
  {
    ReachedInv(cfgs, events);
    var w := Reached(cfgs, events);
    var n := LineOf(w.ledger, id);
    assert LedgerOk(cfgs, w.ledger, w.stores.uids);
    CoversTrans(cfgs[n.apiId].scopes, n.granted, n.current);
    if id in w.stores.codes { assert CodeOk(w.ledger, id, w.stores.codes[id]); }
    if id in w.stores.refresh { assert RefreshOk(cfgs, w.ledger, id, w.stores.refresh[id]); }
    if id in w.stores.access { assert AccessOk(cfgs, w.ledger, id, w.stores.access[id]); }
  }

  /** Tokens and codes are only issued by the grant types that the API enables, and refreshed only
      where it enables that. */
  lemma GrantsAreEnabled(cfgs: Configs, events: seq<Event>, id: Uid)
    requires Known(Reached(cfgs, events).ledger, id)
    ensures var w := Reached(cfgs, events);
            && var s, n := w.stores, LineOf(w.ledger, id);
            && n.apiId in cfgs && n.kind in cfgs[n.apiId].grants && (id in s.codes ==> n.kind == AccessCode)
            && (n.issued > 1 ==> cfgs[n.apiId].refresh.Some?)
            && (id in s.access ==> s.access[id].grant == if n.issued > 1 then RefreshToken else n.kind)
            && (id in s.refresh
                ==> cfgs[n.apiId].refresh.Some? && s.refresh[id].grant == if n.issued > 1 then RefreshToken else n.kind)
  {
    ReachedInv(cfgs, events);
    var w := Reached(cfgs, events);
    assert LedgerOk(cfgs, w.ledger, w.stores.uids);
    if id in w.stores.codes { assert CodeOk(w.ledger, id, w.stores.codes[id]); }
    if id in w.stores.refresh { assert RefreshOk(cfgs, w.ledger, id, w.stores.refresh[id]); }
    if id in w.stores.access { assert AccessOk(cfgs, w.ledger, id, w.stores.access[id]); }
  }

  /** Every stored record has a grant. */
  lemma StoredRecordsAreKnown(cfgs: Configs, events: seq<Event>, id: Uid)
    requires var s := Reached(cfgs, events).stores; id in s.codes || id in s.refresh || id in s.access
    ensures Known(Reached(cfgs, events).ledger, id) && id < Reached(cfgs, events).stores.uids
  {
    ReachedInv(cfgs, events);
    var w := Reached(cfgs, events);
    if id in w.stores.codes { assert CodeOk(w.ledger, id, w.stores.codes[id]); }
    if id in w.stores.refresh { assert RefreshOk(cfgs, w.ledger, id, w.stores.refresh[id]); }
    if id in w.stores.access { assert AccessOk(cfgs, w.ledger, id, w.stores.access[id]); }
  }
}
