/** When a grant is used up exactly: the tokens issued for it and what its live credential still
    allows add up to the limit as long as no purge or revocation takes its own credential. */
module Exactness {
  import opened Options
  import opened OAuthData
  import opened Lifecycle
  import opened Lineage
  import opened TokenSafety

  /** The grant has a live code or refresh token, or has been used up. */
  predicate Funded(w: World, root: Uid)
    requires root in w.ledger.lines
  {
    var n := w.ledger.lines[root];
    root in w.stores.codes || (n.refresh.Some? && n.refresh.value in w.stores.refresh) || n.issued == n.limit
  }

  /** A grant is funded after as it was before, and a new one is funded. */
  predicate SameFunding(w: World, v: World, root: Uid) {
    if root in w.ledger.lines then root in v.ledger.lines && (Funded(w, root) <==> Funded(v, root))
    else root in v.ledger.lines ==> Funded(v, root)
  }

  // ---- Losing a credential ------------------------------------------------------------------

  /** What is left of the stores keeps the grant's code and refresh token. */
  predicate Keeps(l: Ledger, s: Stores, u: Stores, root: Uid) {
    && (root in s.codes ==> root in u.codes)
    && forall r <- s.refresh :: r in l.root && l.root[r] == root ==> r in u.refresh
  }

  /** The event neither purges nor revokes the grant's stored code or refresh token. */
  predicate Spares(cfgs: Configs, w: World, e: Event, root: Uid) {
    var q, u := e.request, Purged(w.stores, e);
    !q.BearerCheck? && q.api in cfgs ==>
      && Keeps(w.ledger, w.stores, u, root)
      && (q.TokenRequest? ==>
            var who := Authenticate(cfgs[q.api], q.auth, q.call);
            who.Rejected? && who.revoke ==> Keeps(w.ledger, u, Revoke(u, q.call), root))
  }

  predicate SparedRun(cfgs: Configs, w: World, events: seq<Event>, root: Uid)
    decreases |events|
  {
    events != [] ==> Spares(cfgs, w, events[0], root) && SparedRun(cfgs, Advance(cfgs, w, events[0]), events[1..], root)
  }

  lemma CodeHasLine(cfgs: Configs, w: World, c: Uid)
    requires Inv(cfgs, w) && c in w.stores.codes
    ensures c in w.ledger.lines && w.ledger.lines[c].issued < w.ledger.lines[c].limit
  {
    assert CodeOk(w.ledger, c, w.stores.codes[c]);
    assert LineOk(cfgs, w.ledger.lines[c]) by { assert LedgerOk(cfgs, w.ledger, w.stores.uids); }
  }

  /** A code and a refresh token never belong to the same grant. */
  lemma OneCredential(cfgs: Configs, w: World, c: Uid, r: Uid)
    requires Inv(cfgs, w) && c in w.stores.codes && r in w.stores.refresh
    ensures r in w.ledger.root && w.ledger.root[r] != c
  {
    assert CodeOk(w.ledger, c, w.stores.codes[c]);
    assert RefreshOk(cfgs, w.ledger, r, w.stores.refresh[r]);
  }

  lemma LostCodeUnfunds(cfgs: Configs, w: World, u: Stores, root: Uid)
    requires Inv(cfgs, w) && Within(u, w.stores) && root in w.stores.codes && root !in u.codes
    ensures root in w.ledger.lines && !Funded(World(u, w.ledger), root)
  {
    CodeHasLine(cfgs, w, root);
    assert DescendsFrom(w.ledger, w.ledger.lines[root].refresh, root) by {
      assert LedgerOk(cfgs, w.ledger, w.stores.uids);
    }
    forall r <- w.stores.refresh ensures r in w.ledger.root && w.ledger.root[r] != root {
      OneCredential(cfgs, w, root, r);
    }
  }

  lemma LostRefreshUnfunds(cfgs: Configs, w: World, u: Stores, root: Uid, r: Uid)
    requires Inv(cfgs, w) && Within(u, w.stores) && r in w.stores.refresh && r !in u.refresh
    requires r in w.ledger.root && w.ledger.root[r] == root
    ensures root in w.ledger.lines && !Funded(World(u, w.ledger), root)
  {
    assert RefreshOk(cfgs, w.ledger, r, w.stores.refresh[r]);
    if root in w.stores.codes { OneCredential(cfgs, w, root, r); }
  }

  /** A grant stays funded exactly when what is left of the stores keeps its credential. */
  lemma ShrinkFunding(cfgs: Configs, w: World, u: Stores, root: Uid)
    requires Inv(cfgs, w) && Within(u, w.stores) && root in w.ledger.lines
    ensures Funded(World(u, w.ledger), root) <==> Funded(w, root) && Keeps(w.ledger, w.stores, u, root)
  {
    if Keeps(w.ledger, w.stores, u, root) {
      assert DescendsFrom(w.ledger, w.ledger.lines[root].refresh, root) by {
        assert LedgerOk(cfgs, w.ledger, w.stores.uids);
      }
    } else if root in w.stores.codes && root !in u.codes {
      LostCodeUnfunds(cfgs, w, u, root);
    } else {
      var r :| r in w.stores.refresh && r in w.ledger.root && w.ledger.root[r] == root && r !in u.refresh;
      LostRefreshUnfunds(cfgs, w, u, root, r);
    }
  }

  /** A grant that does not exist yet has nothing to lose. */
  lemma UnknownIsKept(cfgs: Configs, w: World, s: Stores, u: Stores, root: Uid)
    requires Inv(cfgs, w) && Within(s, w.stores) && root !in w.ledger.lines
    ensures Keeps(w.ledger, s, u, root)
  {
    if root in s.codes { CodeHasLine(cfgs, w, root); }
    forall r <- s.refresh ensures r in w.ledger.root ==> w.ledger.root[r] != root {
      assert RefreshOk(cfgs, w.ledger, r, w.stores.refresh[r]);
    }
  }

  // ---- Issuing ------------------------------------------------------------------------------

  /** Issuing for one grant leaves all others funded as they are. */
  lemma OtherFunding(cfgs: Configs, v: World, i: Issue, root: Uid)
    requires LedgerOk(cfgs, v.ledger, v.stores.uids) && root != i.root
    ensures root in Entered(v, i).ledger.lines <==> root in v.ledger.lines
    ensures root in v.ledger.lines ==> (Funded(Entered(v, i), root) <==> Funded(v, root))
  {
    EnteredLedger(v, i);
    if root in v.ledger.lines { assert DescendsFrom(v.ledger, v.ledger.lines[root].refresh, root); }
  }

  lemma OwnFunding(v: World, i: Issue)
    requires i.renewal.Some? || i.line.issued == i.line.limit
    ensures i.root in Entered(v, i).ledger.lines && Funded(Entered(v, i), i.root)
  {
    EnteredLedger(v, i);
  }

  /** From w, after the credential presented is gone (v), tokens are issued: every grant is funded as
      it was in w. */
  lemma IssueFunding(cfgs: Configs, w: World, v: World, i: Issue, root: Uid)
    requires MayIssue(cfgs, v, i) && v.ledger == w.ledger && (i.renewal.Some? || i.line.issued == i.line.limit)
    requires if root == i.root then root in w.ledger.lines ==> Funded(w, root) else SameFunding(w, v, root)
    ensures SameFunding(w, Entered(v, i), root)
  {
    if root == i.root { OwnFunding(v, i); } else { OtherFunding(cfgs, v, i, root); }
  }

  lemma IssueForParentFunding(cfgs: Configs, w: World, v: World, e: Event, i: Issue, p: Uid, root: Uid)
    requires MayIssue(cfgs, v, i) && v.ledger == w.ledger && (i.renewal.Some? || i.line.issued == i.line.limit)
    requires Parent(e.request) == Some(p) && Known(v.ledger, p) && i.root == v.ledger.root[p]
    requires i.line == LineOf(v.ledger, p).(current := i.holder.scopes, issued := LineOf(v.ledger, p).issued + 1)
    requires if root == i.root then root in w.ledger.lines ==> Funded(w, root) else SameFunding(w, v, root)
    ensures var o := Minted(v.stores, i); SameFunding(w, World(o.stores, Track(cfgs, v.ledger, e, o)), root)
  {
    IssueFunding(cfgs, w, v, i, root);
    TrackParent(cfgs, v.ledger, e, v.stores, i, p);
  }

  lemma RedeemedFunding(cfgs: Configs, w: World, e: Event, api: string, clientId: string, c: Uid, uri: Option<string>,
      root: Uid)
    requires Inv(cfgs, w) && api in cfgs && c in w.stores.codes && Parent(e.request) == Some(c)
    requires Redeemable(w.stores.codes[c], api, clientId, uri, e.now)
    ensures Known(w.ledger, c)
    ensures var o := Minted(w.stores.(codes := w.stores.codes - {c}),
        RedeemIssue(cfgs[api], w, e.now, api, clientId, c));
            SameFunding(w, World(o.stores, Track(cfgs, w.ledger, e, o)), root)
  {
    RedeemMayIssue(cfgs, w, e.now, api, clientId, c, uri);
    var v := w.(stores := w.stores.(codes := w.stores.codes - {c}));
    assert root != c ==> SameFunding(w, v, root);
    IssueForParentFunding(cfgs, w, v, e, RedeemIssue(cfgs[api], w, e.now, api, clientId, c), c, root);
  }

  lemma RedeemFunding(cfgs: Configs, w: World, e: Event, clientId: string, root: Uid)
    requires Inv(cfgs, w) && e.request.TokenRequest? && e.request.call.CodeCall? && e.request.api in cfgs
    ensures var o := RedeemCode(cfgs[e.request.api], e.request.api, w.stores, e.now, clientId, e.request.call);
            SameFunding(w, World(o.stores, Track(cfgs, w.ledger, e, o)), root)
  {
    var cfg, q, s := cfgs[e.request.api], e.request, w.stores;
    if RedeemCode(cfg, q.api, s, e.now, clientId, q.call).response.TokensIssued? {
      GrantedRedeem(cfg, q.api, s, e.now, clientId, q.call);
      RedeemedFunding(cfgs, w, e, q.api, clientId, q.call.code.value, q.call.redirectURI, root);
      RedeemIsIssue(cfg, w, e.now, q.api, clientId, q.call);
    }
  }

  lemma RetiredFunding(cfgs: Configs, w: World, clientId: string, r: Uid, root: Uid)
    requires LedgerOk(cfgs, w.ledger, w.stores.uids) && Known(w.ledger, r) && root != w.ledger.root[r]
    ensures SameFunding(w, World(Retire(w.stores, clientId, r), w.ledger), root)
  {
    if root in w.ledger.lines { assert DescendsFrom(w.ledger, w.ledger.lines[root].refresh, root); }
  }

  lemma ExchangeFunding(cfgs: Configs, w: World, e: Event, api: string, clientId: string, r: Uid, scopes: seq<string>,
      root: Uid)
    requires Inv(cfgs, w) && api in cfgs && r in w.stores.refresh && Parent(e.request) == Some(r)
    requires w.stores.refresh[r].apiId == api && w.stores.refresh[r].appId == clientId
    requires e.now <= w.stores.refresh[r].expiredAt && Covers(w.stores.refresh[r].scopes, scopes)
    ensures Known(w.ledger, r)
    ensures var o := Minted(Retire(w.stores, clientId, r), RefreshIssue(cfgs[api], w, e.now, api, clientId, r, scopes));
            SameFunding(w, World(o.stores, Track(cfgs, w.ledger, e, o)), root)
  {
    RefreshMayIssue(cfgs, w, e.now, api, clientId, r, scopes);
    assert RefreshOk(cfgs, w.ledger, r, w.stores.refresh[r]);
    if root != w.ledger.root[r] { RetiredFunding(cfgs, w, clientId, r, root); }
    IssueForParentFunding(cfgs, w, World(Retire(w.stores, clientId, r), w.ledger), e,
                          RefreshIssue(cfgs[api], w, e.now, api, clientId, r, scopes), r, root);
  }

  lemma RefreshFunding(cfgs: Configs, w: World, e: Event, clientId: string, skipped: bool, root: Uid)
    requires Inv(cfgs, w) && e.request.TokenRequest? && e.request.call.RefreshCall? && e.request.api in cfgs
    ensures var o := ExchangeRefresh(cfgs[e.request.api], e.request.api, w.stores, e.now, clientId, skipped,
        e.request.call);
            SameFunding(w, World(o.stores, Track(cfgs, w.ledger, e, o)), root)
  {
    var cfg, q := cfgs[e.request.api], e.request;
    if ExchangeRefresh(cfg, q.api, w.stores, e.now, clientId, skipped, q.call).response.TokensIssued? {
      GrantedExchange(cfg, q.api, w.stores, e.now, clientId, skipped, q.call);
      var r := q.call.token.value.value.jti;
      var scopes := NarrowedScopes(w.stores.refresh[r], CheckScope(cfg, q.call.scope, true));
      ExchangeFunding(cfgs, w, e, q.api, clientId, r, scopes, root);
    } else {
      RefusedExchange(cfg, q.api, w.stores, e.now, clientId, skipped, q.call);
    }
  }

  lemma DirectFunding(cfgs: Configs, w: World, e: Event, h: Holder, root: Uid)
    requires Inv(cfgs, w) && h.apiId in cfgs && Covers(cfgs[h.apiId].scopes, h.scopes)
    requires h.grant in {Implicit, Password, Application} && h.grant in cfgs[h.apiId].grants && Parent(e.request).None?
    ensures var o := Minted(w.stores, DirectIssue(cfgs[h.apiId], w, e.now, h));
            SameFunding(w, World(o.stores, Track(cfgs, w.ledger, e, o)), root)
  {
    var i := DirectIssue(cfgs[h.apiId], w, e.now, h);
    assert i.root !in w.ledger.lines by { assert LedgerOk(cfgs, w.ledger, w.stores.uids); }
    DirectMayIssue(cfgs, w, e, h);
    IssueFunding(cfgs, w, w, i, root);
    TrackDirect(cfgs, w, e, h);
  }

  lemma PasswordFunding(cfgs: Configs, w: World, e: Event, clientId: string, root: Uid)
    requires Inv(cfgs, w) && e.request.TokenRequest? && e.request.call.PasswordCall? && e.request.api in cfgs
    ensures var o := PasswordGrant(cfgs[e.request.api], e.request.api, w.stores, e.now, clientId, e.request.call);
            SameFunding(w, World(o.stores, Track(cfgs, w.ledger, e, o)), root)
  {
    var cfg, q := cfgs[e.request.api], e.request;
    if PasswordGrant(cfg, q.api, w.stores, e.now, clientId, q.call).response.TokensIssued? {
      var scopes := CheckScope(cfg, q.call.scope, false).scopes;
      DirectFunding(cfgs, w, e, Holder(q.api, clientId, q.call.username, scopes, Password), root);
    }
  }

  lemma ClientFunding(cfgs: Configs, w: World, e: Event, clientId: string, root: Uid)
    requires Inv(cfgs, w) && e.request.TokenRequest? && e.request.call.ClientCall? && e.request.api in cfgs
    ensures var o := ClientGrant(cfgs[e.request.api], e.request.api, w.stores, e.now, clientId, e.request.call);
            SameFunding(w, World(o.stores, Track(cfgs, w.ledger, e, o)), root)
  {
    var cfg, q := cfgs[e.request.api], e.request;
    if ClientGrant(cfg, q.api, w.stores, e.now, clientId, q.call).response.TokensIssued? {
      var granted := CheckScope(cfg, q.call.scope, false).scopes;
      DirectFunding(cfgs, w, e, Holder(q.api, clientId, clientId, granted, Application), root);
    }
  }

  lemma ImplicitFunding(cfgs: Configs, w: World, e: Event, root: Uid)
    requires Inv(cfgs, w) && e.request.ImplicitGrant? && e.request.api in cfgs
    ensures var o := GrantImplicit(cfgs[e.request.api], w.stores, e.now, e.request);
            SameFunding(w, World(o.stores, Track(cfgs, w.ledger, e, o)), root)
  {
    var q := e.request;
    if GrantImplicit(cfgs[q.api], w.stores, e.now, q).response.TokensIssued? {
      DirectFunding(cfgs, w, e, Holder(q.api, q.appId, q.userId, q.scope, Implicit), root);
    }
  }

  lemma CodeGrantFunding(cfgs: Configs, w: World, e: Event, root: Uid)
    requires Inv(cfgs, w) && e.request.CodeGrant? && e.request.api in cfgs
    ensures var o := GrantCode(cfgs[e.request.api], w.stores, e.now, e.request);
            SameFunding(w, World(o.stores, Track(cfgs, w.ledger, e, o)), root)
  {
    assert LedgerOk(cfgs, w.ledger, w.stores.uids);
  }

  lemma CallFunding(cfgs: Configs, w: World, e: Event, clientId: string, skipped: bool, root: Uid)
    requires Inv(cfgs, w) && e.request.TokenRequest? && e.request.api in cfgs
    ensures var o := Exchange(cfgs[e.request.api], e.request.api, w.stores, e.now, clientId, skipped, e.request.call);
            SameFunding(w, World(o.stores, Track(cfgs, w.ledger, e, o)), root)
  {
    match e.request.call
    case CodeCall(_, _) => RedeemFunding(cfgs, w, e, clientId, root);
    case RefreshCall(_, _) => RefreshFunding(cfgs, w, e, clientId, skipped, root);
    case PasswordCall(_, _, _, _) => PasswordFunding(cfgs, w, e, clientId, root);
    case ClientCall(_) => ClientFunding(cfgs, w, e, clientId, root);
    case UnknownCall =>
  }

  // ---- Steps and runs -------------------------------------------------------------------------

  /** Whether serving the request revokes no credential of the grant. */
  predicate RevokesNone(cfgs: Configs, w: World, q: Request, root: Uid)
    requires !q.BearerCheck? && q.api in cfgs
  {
    q.TokenRequest? ==>
      var who := Authenticate(cfgs[q.api], q.auth, q.call);
      who.Rejected? && who.revoke ==> Keeps(w.ledger, w.stores, Revoke(w.stores, q.call), root)
  }

  /** A grant stays funded exactly when it was and its credential is not taken; a new one is. */
  predicate FundedIff(w: World, v: World, root: Uid, spared: bool) {
    if root in w.ledger.lines then root in v.ledger.lines && (Funded(v, root) <==> Funded(w, root) && spared)
    else spared && (root in v.ledger.lines ==> Funded(v, root))
  }

  lemma LeftMeaning(cfgs: Configs, w: World, q: Request, root: Uid)
    requires q.TokenRequest? && q.api in cfgs
    ensures RevokesNone(cfgs, w, q, root) <==> Keeps(w.ledger, w.stores, Left(cfgs, w.stores, q), root)
  {}

  lemma RejectedFunding(cfgs: Configs, w: World, e: Event, root: Uid)
    requires Inv(cfgs, w) && e.request.TokenRequest? && e.request.api in cfgs
    requires Authenticate(cfgs[e.request.api], e.request.auth, e.request.call).Rejected?
    ensures var o := Serve(cfgs[e.request.api], w.stores, e.now, e.request);
            FundedIff(w, World(o.stores, Track(cfgs, w.ledger, e, o)), root, RevokesNone(cfgs, w, e.request, root))
  {
    LeftShrinks(cfgs, w.stores, e.request);
    LeftMeaning(cfgs, w, e.request, root);
    ShrunkFunding(cfgs, w, Left(cfgs, w.stores, e.request), root);
    RejectedServe(cfgs, w, e);
  }

  lemma ShrunkFunding(cfgs: Configs, w: World, u: Stores, root: Uid)
    requires Inv(cfgs, w) && Within(u, w.stores)
    ensures FundedIff(w, World(u, w.ledger), root, Keeps(w.ledger, w.stores, u, root))
  {
    if root in w.ledger.lines { ShrinkFunding(cfgs, w, u, root); } else { UnknownIsKept(cfgs, w, w.stores, u, root); }
  }

  lemma ServeFunding(cfgs: Configs, w: World, e: Event, root: Uid)
    requires Inv(cfgs, w) && !e.request.BearerCheck? && e.request.api in cfgs
    ensures var o := Serve(cfgs[e.request.api], w.stores, e.now, e.request);
            FundedIff(w, World(o.stores, Track(cfgs, w.ledger, e, o)), root, RevokesNone(cfgs, w, e.request, root))
  {
    var q := e.request;
    match q
    case TokenRequest(_, auth, call) =>
      match Authenticate(cfgs[q.api], auth, call) {
        case Rejected(_, _) => RejectedFunding(cfgs, w, e, root);
        case Authenticated(clientId, skipped) => CallFunding(cfgs, w, e, clientId, skipped, root);
      }
    case CodeGrant(_, _, _, _, _) => CodeGrantFunding(cfgs, w, e, root);
    case ImplicitGrant(_, _, _, _) => ImplicitFunding(cfgs, w, e, root);
    case OtherVisit(_) =>
  }

  lemma StepFunding(cfgs: Configs, w: World, e: Event, root: Uid)
    requires Inv(cfgs, w)
    ensures FundedIff(w, Advance(cfgs, w, e), root, Spares(cfgs, w, e, root))
  {
    var q := e.request;
    if !q.BearerCheck? && q.api in cfgs {
      PurgedInv(cfgs, w, e);
      var v := PurgedWorld(w, e);
      ShrunkFunding(cfgs, w, v.stores, root);
      ServeFunding(cfgs, v, e, root);
    }
  }

  lemma {:induction false} RunFunding(cfgs: Configs, w: World, events: seq<Event>, root: Uid)
    requires Inv(cfgs, w)
    ensures FundedIff(w, AdvanceAll(cfgs, w, events), root, SparedRun(cfgs, w, events, root))
            || (root !in w.ledger.lines && root in AdvanceAll(cfgs, w, events).ledger.lines)
    ensures root !in w.ledger.lines && root in AdvanceAll(cfgs, w, events).ledger.lines ==>
              (Funded(AdvanceAll(cfgs, w, events), root) <==> SparedRun(cfgs, w, events, root))
    decreases |events|
  {
    if events != [] {
      StepKeepsInv(cfgs, w, events[0]);
      StepFunding(cfgs, w, events[0], root);
      RunFunding(cfgs, Advance(cfgs, w, events[0]), events[1..], root);
    }
  }

  /** Conservation is exact for a grant, however far it is used, if and only if no purge or
      revocation in the run took its own code or refresh token. */
  lemma ExactConservation(cfgs: Configs, events: seq<Event>, root: Uid)
    requires root in Reached(cfgs, events).ledger.lines
    ensures var w := Reached(cfgs, events);
            Issues(cfgs, NEW_WORLD, events, root) + Potential(w, root) == w.ledger.lines[root].limit
            <==> SparedRun(cfgs, NEW_WORLD, events, root)
  {
    var w := Reached(cfgs, events);
    ReachedInv(cfgs, events);
    RunFunding(cfgs, NEW_WORLD, events, root);
    Conservation(cfgs, events, root);
    RunCounts(cfgs, NEW_WORLD, events, root);
    FundedMeaning(cfgs, w, root);
  }

  lemma FundedMeaning(cfgs: Configs, w: World, root: Uid)
    requires Inv(cfgs, w) && root in w.ledger.lines
    ensures Funded(w, root) <==> Potential(w, root) > 0 || w.ledger.lines[root].issued == w.ledger.lines[root].limit
  {
    assert LedgerOk(cfgs, w.ledger, w.stores.uids);
    var n := w.ledger.lines[root];
    if root in w.stores.codes {
      assert CodeOk(w.ledger, root, w.stores.codes[root]);
    } else if n.refresh.Some? && n.refresh.value in w.stores.refresh {
      assert DescendsFrom(w.ledger, n.refresh, root);
    } else {
      forall r <- w.stores.refresh ensures r in w.ledger.root ==> w.ledger.root[r] != root {
        assert RefreshOk(cfgs, w.ledger, r, w.stores.refresh[r]);
      }
    }
  }
}
