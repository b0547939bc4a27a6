/** Every token descends from one grant: an authorization code, or a direct issue to a
    client or a resource owner. The ledger records, beside the stores, which grant an
    identifier descends from and how often tokens were issued for it; the invariant ties
    the two together in every reachable state. */
module Lineage {
  import opened Options
  import opened OAuthData
  import opened Lifecycle

  /** One grant: `granted` are its scopes, `current` those of its latest tokens, whose
      identifiers are `access` and `refresh`; `limit` bounds how often tokens are issued. */
  datatype Line = Line(
    apiId: string, appId: string, userId: string, kind: Grant,
    granted: seq<string>, current: seq<string>,
    start: Time, window: int, limit: int, issued: nat,
    access: Option<Uid>, refresh: Option<Uid>)

  datatype Ledger = Ledger(root: map<Uid, Uid>, lines: map<Uid, Line>)

  datatype World = World(stores: Stores, ledger: Ledger)

  /** How many exchanges a refresh token with this count still allows, itself included. */
  function Exchanges(countDown: int): int { if countDown > 1 then countDown else 1 }

  function Limit(cfg: ApiConfig): int {
    if cfg.refresh.Some? then 1 + Exchanges(cfg.RefreshCount()) else 1
  }

  /** A refresh token's lifetime in milliseconds, if it has any. */
  function Span(cfg: ApiConfig): int {
    if cfg.RefreshTtl() > 0 then cfg.RefreshTtl() * 1000 else 0
  }

  // ---- The ledger -----------------------------------------------------------------

  function Parent(q: Request): Option<Uid> {
    match q
    case TokenRequest(_, _, CodeCall(code, _)) => code
    case TokenRequest(_, _, RefreshCall(Some(Some(t)), _)) => Some(t.jti)
    case _ => None
  }

  function IdOf(t: Option<Jwt>): Option<Uid> { if t.Some? then Some(t.value.jti) else None }

  function Enter(l: Ledger, root: Uid, n: Line, a: Jwt, r: Option<Jwt>): Ledger {
    var ids := if r.Some? then map[a.jti := root, r.value.jti := root] else map[a.jti := root];
    Ledger(l.root + ids, l.lines[root := n.(access := Some(a.jti), refresh := IdOf(r))])
  }

  function Track(cfgs: Configs, l: Ledger, e: Event, o: Outcome): Ledger {
    match o.response
    case CodeIssued(c) =>
      var q := e.request;
      if q.CodeGrant? && q.api in cfgs then
        Ledger(l.root[c := c],
               l.lines[c := Line(q.api, q.appId, q.userId, AccessCode, q.scope, q.scope,
                                 e.now, 300000, Limit(cfgs[q.api]), 0, None, None)])
      else l
    case TokensIssued(a, r) =>
      if a.jti !in o.stores.access then l
      else
        var k, p := o.stores.access[a.jti], Parent(e.request);
        if p.Some? && p.value in l.root && l.root[p.value] in l.lines then
          var n := l.lines[l.root[p.value]];
          Enter(l, l.root[p.value], n.(current := k.scopes, issued := n.issued + 1), a, r)
        else if k.apiId in cfgs then
          var limit := if k.grant == Implicit then 1 else Limit(cfgs[k.apiId]);
          Enter(l, a.jti, Line(k.apiId, k.appId, k.userId, k.grant, k.scopes, k.scopes,
                               e.now, 0, limit, 1, None, None), a, r)
        else l
    case _ => l
  }

  function Advance(cfgs: Configs, w: World, e: Event): World {
    var o := Step(cfgs, w.stores, e);
    World(o.stores, Track(cfgs, w.ledger, e, o))
  }

  function AdvanceAll(cfgs: Configs, w: World, events: seq<Event>): World
    decreases |events|
  {
    if events == [] then w else AdvanceAll(cfgs, Advance(cfgs, w, events[0]), events[1..])
  }

  const NEW_WORLD := World(EMPTY_STORES, Ledger(map[], map[]))

  // ---- The invariant --------------------------------------------------------------

  predicate Known(l: Ledger, id: Uid) { id in l.root && l.root[id] in l.lines }

  function LineOf(l: Ledger, id: Uid): Line
    requires Known(l, id)
  { l.lines[l.root[id]] }

  predicate LineOk(cfgs: Configs, n: Line) {
    && n.apiId in cfgs && n.kind in cfgs[n.apiId].grants
    && n.limit == (if n.kind == Implicit then 1 else Limit(cfgs[n.apiId]))
    && n.issued <= n.limit
    && n.window == (if n.kind == AccessCode then 300000 else 0)
    && Covers(n.granted, n.current)
    && Covers(cfgs[n.apiId].scopes, n.granted)
  }

  predicate CodeOk(l: Ledger, c: Uid, k: Code) {
    && Known(l, c) && l.root[c] == c
    && var n := LineOf(l, c);
    && k.apiId == n.apiId && k.appId == n.appId && k.userId == n.userId && k.scopes == n.current
    && n.kind == AccessCode && n.issued == 0
    && k.issuedAt == n.start && k.expiredAt == n.start + n.window
  }

  predicate RefreshOk(cfgs: Configs, l: Ledger, r: Uid, k: Refresh) {
    && Known(l, r)
    && var n := LineOf(l, r);
    && k.apiId == n.apiId && k.appId == n.appId && k.userId == n.userId && k.scopes == n.current
    && n.refresh == Some(r)
    && n.kind != Implicit && n.apiId in cfgs && cfgs[n.apiId].refresh.Some?
    && n.issued >= 1 && n.issued + Exchanges(k.countDown) == n.limit
    && k.grant == (if n.issued == 1 then n.kind else RefreshToken)
    && k.expiredAt <= n.start + n.window + n.issued * Span(cfgs[n.apiId])
  }

  /** When the last access token of a grant expires at the latest. */
  function Horizon(cfgs: Configs, n: Line): int
    requires n.apiId in cfgs
  {
    n.start + n.window + (n.limit - 1) * Span(cfgs[n.apiId]) + cfgs[n.apiId].TokenTtl() * 1000
  }

  predicate AccessOk(cfgs: Configs, l: Ledger, a: Uid, k: Access) {
    && Known(l, a)
    && var n := LineOf(l, a);
    && k.apiId == n.apiId && k.appId == n.appId && k.userId == n.userId && k.scopes == n.current
    && n.access == Some(a) && k.refreshToken == n.refresh
    && n.issued >= 1 && k.grant == (if n.issued == 1 then n.kind else RefreshToken)
    && n.apiId in cfgs && k.expiredAt <= Horizon(cfgs, n)
  }

  predicate DescendsFrom(l: Ledger, id: Option<Uid>, root: Uid) {
    id.Some? ==> id.value in l.root && l.root[id.value] == root
  }

  predicate LedgerOk(cfgs: Configs, l: Ledger, uids: Uid) {
    && (forall id <- l.root :: id < uids && l.root[id] in l.lines)
    && (forall id <- l.lines :: id in l.root && l.root[id] == id && LineOk(cfgs, l.lines[id])
                                && DescendsFrom(l, l.lines[id].refresh, id))
  }

  predicate Inv(cfgs: Configs, w: World) {
    && LedgerOk(cfgs, w.ledger, w.stores.uids)
    && (forall c <- w.stores.codes :: CodeOk(w.ledger, c, w.stores.codes[c]))
    && (forall r <- w.stores.refresh :: RefreshOk(cfgs, w.ledger, r, w.stores.refresh[r]))
    && (forall a <- w.stores.access :: AccessOk(cfgs, w.ledger, a, w.stores.access[a]))
  }

  // ---- It is kept -----------------------------------------------------------------

  predicate Within(s: Stores, t: Stores) {
    && (forall c <- s.codes :: c in t.codes && s.codes[c] == t.codes[c])
    && (forall r <- s.refresh :: r in t.refresh && s.refresh[r] == t.refresh[r])
    && (forall a <- s.access :: a in t.access && s.access[a] == t.access[a])
    && s.uids == t.uids
  }

  /** No stored record descends from `root`. */
  predicate Vacant(w: World, root: Uid) {
    && (forall c <- w.stores.codes :: c in w.ledger.root ==> w.ledger.root[c] != root)
    && (forall r <- w.stores.refresh :: r in w.ledger.root ==> w.ledger.root[r] != root)
    && (forall a <- w.stores.access :: a in w.ledger.root ==> w.ledger.root[a] != root)
  }

  lemma ShrinkKeepsInv(cfgs: Configs, w: World, s: Stores)
    requires Inv(cfgs, w) && Within(s, w.stores)
    ensures Inv(cfgs, World(s, w.ledger))
  {}

  /** What is entered for one grant leaves the lines of all others alone. */
  lemma EnterFrame(l: Ledger, root: Uid, n: Line, a: Jwt, r: Option<Jwt>, id: Uid)
    requires Known(l, id) && l.root[id] != root && id != a.jti && Some(id) != IdOf(r)
    ensures var m := Enter(l, root, n, a, r);
            Known(m, id) && m.root[id] == l.root[id] && LineOf(m, id) == LineOf(l, id)
  {}

  /** Tokens about to be issued for the grant `root`, whose line will then be `line`. */
  datatype Issue = Issue(now: Time, holder: Holder, azCode: Option<Uid>, ttl: int, renewal: Option<Renewal>,
                         root: Uid, line: Line)

  function Minted(s: Stores, i: Issue): (o: Outcome)
    ensures o.response.TokensIssued?
  { Mint(s, i.now, i.holder, i.azCode, i.ttl, i.renewal) }

  function Entered(w: World, i: Issue): World {
    var o := Minted(w.stores, i);
    World(o.stores, Enter(w.ledger, i.root, i.line, o.response.access, o.response.refresh))
  }

  /** What is issued fits the line. */
  predicate Fits(cfgs: Configs, i: Issue) {
    var n, h := i.line, i.holder;
    && LineOk(cfgs, n) && n.issued >= 1
    && h.apiId == n.apiId && h.appId == n.appId && h.userId == n.userId && h.scopes == n.current
    && h.grant == (if n.issued == 1 then n.kind else RefreshToken)
    && i.now + i.ttl * 1000 <= Horizon(cfgs, n)
    && (i.renewal.Some? ==>
          && n.kind != Implicit && cfgs[n.apiId].refresh.Some?
          && n.issued + Exchanges(i.renewal.value.countDown) == n.limit
          && i.now + i.renewal.value.ttl * 1000 <= n.start + n.window + n.issued * Span(cfgs[n.apiId]))
  }

  predicate MayIssue(cfgs: Configs, w: World, i: Issue) {
    && Inv(cfgs, w) && Vacant(w, i.root)
    && (i.root == w.stores.uids || i.root in w.ledger.lines)
    && Fits(cfgs, i)
  }

  /** The identifiers that are drawn for an issue. */
  function NewIds(w: World, i: Issue): set<Uid> {
    if i.renewal.Some? then {w.stores.uids, w.stores.uids + 2} else {w.stores.uids}
  }

  lemma EnteredLedger(w: World, i: Issue)
    ensures var l, a := Entered(w, i).ledger, w.stores.uids;
            && (forall id :: id in l.root <==> id in w.ledger.root || id in NewIds(w, i))
            && (forall id <- l.root :: l.root[id] == if id in NewIds(w, i) then i.root else w.ledger.root[id])
            && l.lines == w.ledger.lines[i.root :=
                i.line.(access := Some(a), refresh := if i.renewal.Some? then Some(a + 2) else None)]
            && Entered(w, i).stores.uids > a + (if i.renewal.Some? then 2 else 0)
  {}

  lemma OldLine(cfgs: Configs, w: World, i: Issue, id: Uid)
    requires LedgerOk(cfgs, w.ledger, w.stores.uids) && id != i.root && id in w.ledger.lines
    ensures var l := Entered(w, i).ledger;
            id in l.lines && id in l.root && l.root[id] == id && LineOk(cfgs, l.lines[id])
            && DescendsFrom(l, l.lines[id].refresh, id)
  {
    EnteredLedger(w, i);
    assert id in w.ledger.root && id < w.stores.uids;
  }

  lemma NewLine(cfgs: Configs, w: World, i: Issue)
    requires LedgerOk(cfgs, w.ledger, w.stores.uids) && Fits(cfgs, i)
    requires i.root == w.stores.uids || i.root in w.ledger.lines
    ensures var l := Entered(w, i).ledger;
            i.root in l.lines && i.root in l.root && l.root[i.root] == i.root && LineOk(cfgs, l.lines[i.root])
            && DescendsFrom(l, l.lines[i.root].refresh, i.root)
  {
    EnteredLedger(w, i);
    if i.root != w.stores.uids { assert i.root in w.ledger.root && i.root < w.stores.uids; }
  }

  lemma EnteredLine(cfgs: Configs, w: World, i: Issue, id: Uid)
    requires MayIssue(cfgs, w, i) && id in Entered(w, i).ledger.lines
    ensures var l := Entered(w, i).ledger;
            id in l.root && l.root[id] == id && LineOk(cfgs, l.lines[id]) && DescendsFrom(l, l.lines[id].refresh, id)
  {
    EnteredLedger(w, i);
    if id != i.root { OldLine(cfgs, w, i, id); } else { NewLine(cfgs, w, i); }
  }

  lemma IssueKeepsLedger(cfgs: Configs, w: World, i: Issue)
    requires MayIssue(cfgs, w, i)
    ensures LedgerOk(cfgs, Entered(w, i).ledger, Entered(w, i).stores.uids)
  {
    var v := Entered(w, i);
    assert LedgerOk(cfgs, w.ledger, w.stores.uids);
    EnteredLedger(w, i);
    forall id <- v.ledger.root ensures id < v.stores.uids && v.ledger.root[id] in v.ledger.lines {
      if id in w.ledger.root { assert w.ledger.root[id] in w.ledger.lines; }
    }
    forall id <- v.ledger.lines
      ensures id in v.ledger.root && v.ledger.root[id] == id && LineOk(cfgs, v.ledger.lines[id])
              && DescendsFrom(v.ledger, v.ledger.lines[id].refresh, id)
    {
      EnteredLine(cfgs, w, i, id);
    }
  }

  /** Records of other grants keep their place in the ledger. */
  lemma EnteredFrame(cfgs: Configs, w: World, i: Issue, id: Uid)
    requires MayIssue(cfgs, w, i) && Known(w.ledger, id) && w.ledger.root[id] != i.root
    ensures var m := Entered(w, i).ledger;
            Known(m, id) && m.root[id] == w.ledger.root[id] && LineOf(m, id) == LineOf(w.ledger, id)
  {
    assert id < w.stores.uids by { assert LedgerOk(cfgs, w.ledger, w.stores.uids); }
    var o := Minted(w.stores, i);
    EnterFrame(w.ledger, i.root, i.line, o.response.access, o.response.refresh, id);
  }

  lemma NewRefreshOk(cfgs: Configs, w: World, i: Issue, r: Uid)
    requires Fits(cfgs, i) && r in Minted(w.stores, i).stores.refresh && r !in w.stores.refresh
    ensures RefreshOk(cfgs, Entered(w, i).ledger, r, Entered(w, i).stores.refresh[r])
  {}

  lemma IssueKeepsRefresh(cfgs: Configs, w: World, i: Issue, r: Uid)
    requires MayIssue(cfgs, w, i) && r in Minted(w.stores, i).stores.refresh
    ensures RefreshOk(cfgs, Entered(w, i).ledger, r, Entered(w, i).stores.refresh[r])
  {
    if r in w.stores.refresh {
      assert RefreshOk(cfgs, w.ledger, r, w.stores.refresh[r]);
      EnteredFrame(cfgs, w, i, r);
      assert r < w.stores.uids by { assert LedgerOk(cfgs, w.ledger, w.stores.uids); }
      assert Entered(w, i).stores.refresh[r] == w.stores.refresh[r];
    } else {
      NewRefreshOk(cfgs, w, i, r);
    }
  }

  lemma NewAccessOk(cfgs: Configs, w: World, i: Issue, a: Uid)
    requires Fits(cfgs, i) && a in Minted(w.stores, i).stores.access && a !in w.stores.access
    ensures AccessOk(cfgs, Entered(w, i).ledger, a, Entered(w, i).stores.access[a])
  {}

  lemma IssueKeepsAccess(cfgs: Configs, w: World, i: Issue, a: Uid)
    requires MayIssue(cfgs, w, i) && a in Minted(w.stores, i).stores.access
    ensures AccessOk(cfgs, Entered(w, i).ledger, a, Entered(w, i).stores.access[a])
  {
    if a in w.stores.access {
      assert AccessOk(cfgs, w.ledger, a, w.stores.access[a]);
      EnteredFrame(cfgs, w, i, a);
      assert a < w.stores.uids by { assert LedgerOk(cfgs, w.ledger, w.stores.uids); }
      assert Entered(w, i).stores.access[a] == w.stores.access[a];
    } else {
      NewAccessOk(cfgs, w, i, a);
    }
  }

  lemma IssueKeepsCode(cfgs: Configs, w: World, i: Issue, c: Uid)
    requires MayIssue(cfgs, w, i) && c in w.stores.codes
    ensures CodeOk(Entered(w, i).ledger, c, w.stores.codes[c])
  {
    assert CodeOk(w.ledger, c, w.stores.codes[c]);
    EnteredFrame(cfgs, w, i, c);
  }

  /** Issuing tokens for a grant that has no live record keeps the invariant. */
  lemma IssueKeepsInv(cfgs: Configs, w: World, i: Issue)
    requires MayIssue(cfgs, w, i)
    ensures Inv(cfgs, Entered(w, i))
  {
    var v, o := Entered(w, i), Minted(w.stores, i);
    IssueKeepsLedger(cfgs, w, i);
    assert v.stores == o.stores && o.stores.codes == w.stores.codes;
    forall c <- v.stores.codes ensures CodeOk(v.ledger, c, v.stores.codes[c]) { IssueKeepsCode(cfgs, w, i, c); }
    forall r <- v.stores.refresh ensures RefreshOk(cfgs, v.ledger, r, v.stores.refresh[r]) {
      IssueKeepsRefresh(cfgs, w, i, r);
    }
    forall a <- v.stores.access ensures AccessOk(cfgs, v.ledger, a, v.stores.access[a]) {
      IssueKeepsAccess(cfgs, w, i, a);
    }
  }

  // ---- Every step keeps it --------------------------------------------------------

  lemma SpanGrows(cfg: ApiConfig, i: int, j: int)
    requires 0 <= i <= j
    ensures 0 <= i * Span(cfg) <= j * Span(cfg)
    ensures (i + 1) * Span(cfg) == i * Span(cfg) + Span(cfg)
  {}

  lemma CoversTrans(a: seq<string>, b: seq<string>, c: seq<string>)
    requires Covers(a, b) && Covers(b, c)
    ensures Covers(a, c)
  {}

  /** For the times a code is stored with, isExpired is a comparison with its expiry. */
  lemma IsExpiredMeaning(issuedAt: Time, now: Time)
    ensures IsExpired(issuedAt, issuedAt + 300000, (issuedAt + 300000 - issuedAt) / 1000, now)
        <==> now > issuedAt + 300000
  {}

  lemma PurgeShrinks(s: Stores, now: Time, p: Purges)
    ensures Within(Purge(s, now, p), s)
  {}

  /** The line of a new code. */
  function CodeLine(cfg: ApiConfig, now: Time, q: Request): Line
    requires q.CodeGrant?
  {
    Line(q.api, q.appId, q.userId, AccessCode, q.scope, q.scope, now, 300000, Limit(cfg), 0, None, None)
  }

  function CodeEntered(l: Ledger, c: Uid, n: Line): Ledger { Ledger(l.root[c := c], l.lines[c := n]) }

  lemma CodeFrame(cfgs: Configs, l: Ledger, uids: Uid, n: Line, id: Uid)
    requires LedgerOk(cfgs, l, uids) && Known(l, id)
    ensures var m := CodeEntered(l, uids, n);
            Known(m, id) && m.root[id] == l.root[id] && LineOf(m, id) == LineOf(l, id)
  {}

  lemma CodeKeepsLedger(cfgs: Configs, l: Ledger, uids: Uid, n: Line)
    requires LedgerOk(cfgs, l, uids) && LineOk(cfgs, n) && n.refresh.None?
    ensures LedgerOk(cfgs, CodeEntered(l, uids, n), uids + 2)
  {}

  lemma CodeGrantKeepsInv(cfgs: Configs, w: World, e: Event)
    requires Inv(cfgs, w) && e.request.CodeGrant? && e.request.api in cfgs
    ensures var o := GrantCode(cfgs[e.request.api], w.stores, e.now, e.request);
            Inv(cfgs, World(o.stores, Track(cfgs, w.ledger, e, o)))
  {
    var o := GrantCode(cfgs[e.request.api], w.stores, e.now, e.request);
    if o.response.CodeIssued? {
      var l, uids, n := w.ledger, w.stores.uids, CodeLine(cfgs[e.request.api], e.now, e.request);
      var m := CodeEntered(l, uids, n);
      assert Track(cfgs, l, e, o) == m;
      CodeKeepsLedger(cfgs, l, uids, n);
      forall c <- o.stores.codes ensures CodeOk(m, c, o.stores.codes[c]) {
        if c in w.stores.codes {
          assert CodeOk(l, c, w.stores.codes[c]);
          CodeFrame(cfgs, l, uids, n, c);
          assert c < uids;
        }
      }
      forall r <- o.stores.refresh ensures RefreshOk(cfgs, m, r, o.stores.refresh[r]) {
        assert RefreshOk(cfgs, l, r, w.stores.refresh[r]);
        CodeFrame(cfgs, l, uids, n, r);
      }
      forall a <- o.stores.access ensures AccessOk(cfgs, m, a, o.stores.access[a]) {
        assert AccessOk(cfgs, l, a, w.stores.access[a]);
        CodeFrame(cfgs, l, uids, n, a);
      }
    }
  }

  /** The first issue of a grant that starts with the tokens themselves. */
  function DirectIssue(cfg: ApiConfig, w: World, now: Time, h: Holder): Issue {
    var limit := if h.grant == Implicit then 1 else Limit(cfg);
    Issue(now, h, None, cfg.TokenTtl(), if h.grant == Implicit then None else FirstRenewal(cfg), w.stores.uids,
          Line(h.apiId, h.appId, h.userId, h.grant, h.scopes, h.scopes, now, 0, limit, 1, None, None))
  }

  lemma TrackDirect(cfgs: Configs, w: World, e: Event, h: Holder)
    requires h.apiId in cfgs && Parent(e.request).None?
    ensures var i := DirectIssue(cfgs[h.apiId], w, e.now, h);
            World(Minted(w.stores, i).stores, Track(cfgs, w.ledger, e, Minted(w.stores, i))) == Entered(w, i)
  {}

  lemma DirectMayIssue(cfgs: Configs, w: World, e: Event, h: Holder)
    requires Inv(cfgs, w) && h.apiId in cfgs && Covers(cfgs[h.apiId].scopes, h.scopes)
    requires h.grant in {Implicit, Password, Application} && h.grant in cfgs[h.apiId].grants
    ensures MayIssue(cfgs, w, DirectIssue(cfgs[h.apiId], w, e.now, h))
  {
    SpanGrows(cfgs[h.apiId], 0, DirectIssue(cfgs[h.apiId], w, e.now, h).line.limit - 1);
    assert LedgerOk(cfgs, w.ledger, w.stores.uids);
  }

  lemma DirectKeepsInv(cfgs: Configs, w: World, e: Event, h: Holder)
    requires Inv(cfgs, w) && h.apiId in cfgs && Covers(cfgs[h.apiId].scopes, h.scopes)
    requires h.grant in {Implicit, Password, Application} && h.grant in cfgs[h.apiId].grants && Parent(e.request).None?
    ensures var o := Minted(w.stores, DirectIssue(cfgs[h.apiId], w, e.now, h));
            Inv(cfgs, World(o.stores, Track(cfgs, w.ledger, e, o)))
  {
    DirectMayIssue(cfgs, w, e, h);
    IssueKeepsInv(cfgs, w, DirectIssue(cfgs[h.apiId], w, e.now, h));
    TrackDirect(cfgs, w, e, h);
  }

  /** When tokens are issued for a presented credential, the ledger extends its line. */
  lemma TrackParent(cfgs: Configs, l: Ledger, e: Event, s: Stores, i: Issue, p: Uid)
    requires Parent(e.request) == Some(p) && Known(l, p) && i.root == l.root[p]
    requires i.line == LineOf(l, p).(current := i.holder.scopes, issued := LineOf(l, p).issued + 1)
    ensures World(Minted(s, i).stores, Track(cfgs, l, e, Minted(s, i))) == Entered(World(s, l), i)
  {}

  /** Issuing for a presented credential keeps the invariant. */
  lemma IssueForParent(cfgs: Configs, w: World, e: Event, i: Issue, p: Uid)
    requires MayIssue(cfgs, w, i) && Parent(e.request) == Some(p) && Known(w.ledger, p) && i.root == w.ledger.root[p]
    requires i.line == LineOf(w.ledger, p).(current := i.holder.scopes, issued := LineOf(w.ledger, p).issued + 1)
    ensures var o := Minted(w.stores, i); Inv(cfgs, World(o.stores, Track(cfgs, w.ledger, e, o)))
  {
    IssueKeepsInv(cfgs, w, i);
    TrackParent(cfgs, w.ledger, e, w.stores, i, p);
  }

  function RedeemIssue(cfg: ApiConfig, w: World, now: Time, api: string, clientId: string, c: Uid): Issue
    requires c in w.stores.codes && Known(w.ledger, c)
  {
    var k := w.stores.codes[c];
    Issue(now, Holder(api, clientId, k.userId, k.scopes, AccessCode), Some(c), cfg.TokenTtl(), FirstRenewal(cfg),
          w.ledger.root[c], LineOf(w.ledger, c).(current := k.scopes, issued := LineOf(w.ledger, c).issued + 1))
  }

  lemma RedeemMayIssue(cfgs: Configs, w: World, now: Time, api: string, clientId: string, c: Uid, uri: Option<string>)
    requires Inv(cfgs, w) && api in cfgs && c in w.stores.codes
    requires Redeemable(w.stores.codes[c], api, clientId, uri, now)
    ensures CodeOk(w.ledger, c, w.stores.codes[c])
    ensures MayIssue(cfgs, w.(stores := w.stores.(codes := w.stores.codes - {c})),
                     RedeemIssue(cfgs[api], w, now, api, clientId, c))
  {
    var v := w.(stores := w.stores.(codes := w.stores.codes - {c}));
    assert CodeOk(w.ledger, c, w.stores.codes[c]);
    ShrinkKeepsInv(cfgs, w, v.stores);
    assert Vacant(v, c) by {
      forall x <- v.stores.codes ensures w.ledger.root[x] != c { assert CodeOk(w.ledger, x, w.stores.codes[x]); }
      forall r <- v.stores.refresh ensures w.ledger.root[r] != c {
        assert RefreshOk(cfgs, w.ledger, r, w.stores.refresh[r]);
      }
      forall a <- v.stores.access ensures w.ledger.root[a] != c {
        assert AccessOk(cfgs, w.ledger, a, w.stores.access[a]);
      }
    }
    IsExpiredMeaning(w.stores.codes[c].issuedAt, now);
    SpanGrows(cfgs[api], 0, LineOf(w.ledger, c).limit - 1);
  }

  /** Redeeming is issuing for the code's grant, the code itself being gone. */
  lemma RedeemIsIssue(cfg: ApiConfig, w: World, now: Time, api: string, clientId: string, call: TokenCall)
    requires call.CodeCall? && RedeemCode(cfg, api, w.stores, now, clientId, call).response.TokensIssued?
    requires call.code.Some? && Known(w.ledger, call.code.value)
    ensures call.code.value in w.stores.codes
        && Redeemable(w.stores.codes[call.code.value], api, clientId, call.redirectURI, now)
    ensures RedeemCode(cfg, api, w.stores, now, clientId, call)
         == Minted(w.stores.(codes := w.stores.codes - {call.code.value}),
             RedeemIssue(cfg, w, now, api, clientId, call.code.value))
  {
    GrantedRedeem(cfg, api, w.stores, now, clientId, call);
  }

  lemma RedeemedKeepsInv(cfgs: Configs, w: World, e: Event, api: string, clientId: string, c: Uid, uri: Option<string>)
    requires Inv(cfgs, w) && api in cfgs && c in w.stores.codes && Parent(e.request) == Some(c)
    requires Redeemable(w.stores.codes[c], api, clientId, uri, e.now)
    ensures Known(w.ledger, c)
    ensures var o := Minted(w.stores.(codes := w.stores.codes - {c}),
        RedeemIssue(cfgs[api], w, e.now, api, clientId, c));
            Inv(cfgs, World(o.stores, Track(cfgs, w.ledger, e, o)))
  {
    RedeemMayIssue(cfgs, w, e.now, api, clientId, c, uri);
    var v := w.(stores := w.stores.(codes := w.stores.codes - {c}));
    IssueForParent(cfgs, v, e, RedeemIssue(cfgs[api], w, e.now, api, clientId, c), c);
  }

  lemma RedeemKeepsInv(cfgs: Configs, w: World, e: Event, clientId: string)
    requires Inv(cfgs, w) && e.request.TokenRequest? && e.request.call.CodeCall? && e.request.api in cfgs
    ensures var o := RedeemCode(cfgs[e.request.api], e.request.api, w.stores, e.now, clientId, e.request.call);
            Inv(cfgs, World(o.stores, Track(cfgs, w.ledger, e, o)))
  {
    var cfg, q, s := cfgs[e.request.api], e.request, w.stores;
    if RedeemCode(cfg, q.api, s, e.now, clientId, q.call).response.TokensIssued? {
      GrantedRedeem(cfg, q.api, s, e.now, clientId, q.call);
      var c := q.call.code.value;
      RedeemedKeepsInv(cfgs, w, e, q.api, clientId, c, q.call.redirectURI);
      RedeemIsIssue(cfg, w, e.now, q.api, clientId, q.call);
    }
  }

  function RefreshIssue(cfg: ApiConfig, w: World, now: Time, api: string, clientId: string, r: Uid,
      scopes: seq<string>): Issue
    requires r in w.stores.refresh && Known(w.ledger, r)
  {
    var k := w.stores.refresh[r];
    Issue(now, Holder(api, clientId, k.userId, scopes, RefreshToken), None,
          cfg.TokenTtl(), NextRenewal(cfg, k.countDown),
          w.ledger.root[r], LineOf(w.ledger, r).(current := scopes, issued := LineOf(w.ledger, r).issued + 1))
  }

  /** Retiring a refresh token leaves nothing behind that descends from the same grant. */
  lemma RetireVacates(cfgs: Configs, w: World, clientId: string, r: Uid)
    requires Inv(cfgs, w) && r in w.stores.refresh && w.stores.refresh[r].appId == clientId
    ensures RefreshOk(cfgs, w.ledger, r, w.stores.refresh[r])
    ensures Inv(cfgs, World(Retire(w.stores, clientId, r), w.ledger))
    ensures Vacant(World(Retire(w.stores, clientId, r), w.ledger), w.ledger.root[r])
  {
    var v, root := Retire(w.stores, clientId, r), w.ledger.root[r];
    ShrinkKeepsInv(cfgs, w, v);
    assert RefreshOk(cfgs, w.ledger, r, w.stores.refresh[r]);
    forall c <- v.codes ensures w.ledger.root[c] != root { assert CodeOk(w.ledger, c, w.stores.codes[c]); }
    forall x <- v.refresh ensures w.ledger.root[x] != root { assert RefreshOk(cfgs, w.ledger, x, w.stores.refresh[x]); }
    forall a <- v.access ensures w.ledger.root[a] != root { assert AccessOk(cfgs, w.ledger, a, w.stores.access[a]); }
  }

  lemma RefreshMayIssue(cfgs: Configs, w: World, now: Time, api: string, clientId: string, r: Uid, scopes: seq<string>)
    requires Inv(cfgs, w) && api in cfgs && r in w.stores.refresh
    requires w.stores.refresh[r].apiId == api && w.stores.refresh[r].appId == clientId
    requires now <= w.stores.refresh[r].expiredAt && Covers(w.stores.refresh[r].scopes, scopes)
    ensures Known(w.ledger, r)
    ensures MayIssue(cfgs, World(Retire(w.stores, clientId, r), w.ledger),
                     RefreshIssue(cfgs[api], w, now, api, clientId, r, scopes))
  {
    RetireVacates(cfgs, w, clientId, r);
    var n := LineOf(w.ledger, r);
    CoversTrans(n.granted, n.current, scopes);
    SpanGrows(cfgs[api], n.issued, n.limit - 1);
  }

  /** What a granted exchange of a refresh token presupposes, and what it does. */
  lemma GrantedExchange(cfg: ApiConfig, api: string, s: Stores, now: Time, clientId: string, skipped: bool,
      call: TokenCall)
    requires call.RefreshCall? && ExchangeRefresh(cfg, api, s, now, clientId, skipped, call).response.TokensIssued?
    ensures cfg.refresh.Some? && call.token.Some? && call.token.value.Some?
    ensures var r := call.token.value.value.jti;
            && r in s.refresh && s.refresh[r].apiId == api && s.refresh[r].appId == clientId
            && now <= s.refresh[r].expiredAt
            && var scopes := NarrowedScopes(s.refresh[r], CheckScope(cfg, call.scope, true));
            && Covers(s.refresh[r].scopes, scopes)
            && ExchangeRefresh(cfg, api, s, now, clientId, skipped, call)
               == Mint(Retire(s, clientId, r), now, Holder(api, clientId, s.refresh[r].userId, scopes, RefreshToken),
                       None, cfg.TokenTtl(), NextRenewal(cfg, s.refresh[r].countDown))
  {}

  /** The same for the redemption of a code. */
  lemma GrantedRedeem(cfg: ApiConfig, api: string, s: Stores, now: Time, clientId: string, call: TokenCall)
    requires call.CodeCall? && RedeemCode(cfg, api, s, now, clientId, call).response.TokensIssued?
    ensures call.code.Some? && call.code.value in s.codes
    ensures var c := call.code.value;
            && Redeemable(s.codes[c], api, clientId, call.redirectURI, now)
            && RedeemCode(cfg, api, s, now, clientId, call)
               == Mint(s.(codes := s.codes - {c}), now,
                       Holder(api, clientId, s.codes[c].userId, s.codes[c].scopes, AccessCode),
                       Some(c), cfg.TokenTtl(), FirstRenewal(cfg))
  {}

  lemma RefusedExchange(cfg: ApiConfig, api: string, s: Stores, now: Time, clientId: string, skipped: bool,
      call: TokenCall)
    requires call.RefreshCall?
    requires !ExchangeRefresh(cfg, api, s, now, clientId, skipped, call).response.TokensIssued?
    ensures var o := ExchangeRefresh(cfg, api, s, now, clientId, skipped, call); o.stores == s && o.response.Refused?
  {}

  lemma ExchangeKeepsInv(cfgs: Configs, w: World, e: Event, api: string, clientId: string, r: Uid, scopes: seq<string>)
    requires Inv(cfgs, w) && api in cfgs && r in w.stores.refresh && Parent(e.request) == Some(r)
    requires w.stores.refresh[r].apiId == api && w.stores.refresh[r].appId == clientId
    requires e.now <= w.stores.refresh[r].expiredAt && Covers(w.stores.refresh[r].scopes, scopes)
    ensures Known(w.ledger, r)
    ensures var o := Minted(Retire(w.stores, clientId, r), RefreshIssue(cfgs[api], w, e.now, api, clientId, r, scopes));
            Inv(cfgs, World(o.stores, Track(cfgs, w.ledger, e, o)))
  {
    RefreshMayIssue(cfgs, w, e.now, api, clientId, r, scopes);
    var v := World(Retire(w.stores, clientId, r), w.ledger);
    IssueForParent(cfgs, v, e, RefreshIssue(cfgs[api], w, e.now, api, clientId, r, scopes), r);
  }

  lemma RefreshKeepsInv(cfgs: Configs, w: World, e: Event, clientId: string, skipped: bool)
    requires Inv(cfgs, w) && e.request.TokenRequest? && e.request.call.RefreshCall? && e.request.api in cfgs
    ensures var o := ExchangeRefresh(cfgs[e.request.api], e.request.api, w.stores, e.now, clientId, skipped,
        e.request.call);
            Inv(cfgs, World(o.stores, Track(cfgs, w.ledger, e, o)))
  {
    var cfg, q := cfgs[e.request.api], e.request;
    if ExchangeRefresh(cfg, q.api, w.stores, e.now, clientId, skipped, q.call).response.TokensIssued? {
      GrantedExchange(cfg, q.api, w.stores, e.now, clientId, skipped, q.call);
      var r := q.call.token.value.value.jti;
      var scopes := NarrowedScopes(w.stores.refresh[r], CheckScope(cfg, q.call.scope, true));
      ExchangeKeepsInv(cfgs, w, e, q.api, clientId, r, scopes);
    } else {
      RefusedExchange(cfg, q.api, w.stores, e.now, clientId, skipped, q.call);
    }
  }

  lemma PasswordKeepsInv(cfgs: Configs, w: World, e: Event, clientId: string)
    requires Inv(cfgs, w) && e.request.TokenRequest? && e.request.call.PasswordCall? && e.request.api in cfgs
    ensures var o := PasswordGrant(cfgs[e.request.api], e.request.api, w.stores, e.now, clientId, e.request.call);
            Inv(cfgs, World(o.stores, Track(cfgs, w.ledger, e, o)))
  {
    var cfg, q := cfgs[e.request.api], e.request;
    if PasswordGrant(cfg, q.api, w.stores, e.now, clientId, q.call).response.TokensIssued? {
      var granted := CheckScope(cfg, q.call.scope, false).scopes;
      DirectKeepsInv(cfgs, w, e, Holder(q.api, clientId, q.call.username, granted, Password));
    }
  }

  lemma ClientKeepsInv(cfgs: Configs, w: World, e: Event, clientId: string)
    requires Inv(cfgs, w) && e.request.TokenRequest? && e.request.call.ClientCall? && e.request.api in cfgs
    ensures var o := ClientGrant(cfgs[e.request.api], e.request.api, w.stores, e.now, clientId, e.request.call);
            Inv(cfgs, World(o.stores, Track(cfgs, w.ledger, e, o)))
  {
    var cfg, q := cfgs[e.request.api], e.request;
    if ClientGrant(cfg, q.api, w.stores, e.now, clientId, q.call).response.TokensIssued? {
      var granted := CheckScope(cfg, q.call.scope, false).scopes;
      DirectKeepsInv(cfgs, w, e, Holder(q.api, clientId, clientId, granted, Application));
    }
  }

  lemma ImplicitKeepsInv(cfgs: Configs, w: World, e: Event)
    requires Inv(cfgs, w) && e.request.ImplicitGrant? && e.request.api in cfgs
    ensures var o := GrantImplicit(cfgs[e.request.api], w.stores, e.now, e.request);
            Inv(cfgs, World(o.stores, Track(cfgs, w.ledger, e, o)))
  {
    var q := e.request;
    if GrantImplicit(cfgs[q.api], w.stores, e.now, q).response.TokensIssued? {
      DirectKeepsInv(cfgs, w, e, Holder(q.api, q.appId, q.userId, q.scope, Implicit));
    }
  }

  lemma CallKeepsInv(cfgs: Configs, w: World, e: Event, clientId: string, skipped: bool)
    requires Inv(cfgs, w) && e.request.TokenRequest? && e.request.api in cfgs
    ensures var o := Exchange(cfgs[e.request.api], e.request.api, w.stores, e.now, clientId, skipped, e.request.call);
            Inv(cfgs, World(o.stores, Track(cfgs, w.ledger, e, o)))
  {
    match e.request.call
    case CodeCall(_, _) => RedeemKeepsInv(cfgs, w, e, clientId);
    case RefreshCall(_, _) => RefreshKeepsInv(cfgs, w, e, clientId, skipped);
    case PasswordCall(_, _, _, _) => PasswordKeepsInv(cfgs, w, e, clientId);
    case ClientCall(_) => ClientKeepsInv(cfgs, w, e, clientId);
    case UnknownCall =>
  }

  /** What a request refused at authentication leaves of the stores. */
  function Left(cfgs: Configs, s: Stores, q: Request): Stores
    requires q.TokenRequest? && q.api in cfgs
  {
    var who := Authenticate(cfgs[q.api], q.auth, q.call);
    if who.Rejected? && who.revoke then Revoke(s, q.call) else s
  }

  lemma LeftShrinks(cfgs: Configs, s: Stores, q: Request)
    requires q.TokenRequest? && q.api in cfgs
    ensures Within(Left(cfgs, s, q), s)
  {}

  lemma RejectedServe(cfgs: Configs, w: World, e: Event)
    requires e.request.TokenRequest? && e.request.api in cfgs
    requires Authenticate(cfgs[e.request.api], e.request.auth, e.request.call).Rejected?
    ensures var q := e.request;
            var o := Serve(cfgs[q.api], w.stores, e.now, q);
            World(o.stores, Track(cfgs, w.ledger, e, o)) == World(Left(cfgs, w.stores, q), w.ledger)
  {}

  lemma RejectedKeepsInv(cfgs: Configs, w: World, e: Event)
    requires Inv(cfgs, w) && e.request.TokenRequest? && e.request.api in cfgs
    requires Authenticate(cfgs[e.request.api], e.request.auth, e.request.call).Rejected?
    ensures var o := Serve(cfgs[e.request.api], w.stores, e.now, e.request);
            Inv(cfgs, World(o.stores, Track(cfgs, w.ledger, e, o)))
  {
    LeftShrinks(cfgs, w.stores, e.request);
    ShrinkKeepsInv(cfgs, w, Left(cfgs, w.stores, e.request));
    RejectedServe(cfgs, w, e);
  }

  lemma TokenKeepsInv(cfgs: Configs, w: World, e: Event)
    requires Inv(cfgs, w) && e.request.TokenRequest? && e.request.api in cfgs
    ensures var o := Serve(cfgs[e.request.api], w.stores, e.now, e.request);
            Inv(cfgs, World(o.stores, Track(cfgs, w.ledger, e, o)))
  {
    match Authenticate(cfgs[e.request.api], e.request.auth, e.request.call)
    case Rejected(_, _) => RejectedKeepsInv(cfgs, w, e);
    case Authenticated(clientId, skipped) => CallKeepsInv(cfgs, w, e, clientId, skipped);
  }

  lemma ServeKeepsInv(cfgs: Configs, w: World, e: Event)
    requires Inv(cfgs, w) && !e.request.BearerCheck? && e.request.api in cfgs
    ensures var o := Serve(cfgs[e.request.api], w.stores, e.now, e.request);
            Inv(cfgs, World(o.stores, Track(cfgs, w.ledger, e, o)))
  {
    match e.request
    case TokenRequest(_, _, _) => TokenKeepsInv(cfgs, w, e);
    case CodeGrant(_, _, _, _, _) => CodeGrantKeepsInv(cfgs, w, e);
    case ImplicitGrant(_, _, _, _) => ImplicitKeepsInv(cfgs, w, e);
    case OtherVisit(_) =>
  }

  lemma StepKeepsInv(cfgs: Configs, w: World, e: Event)
    requires Inv(cfgs, w)
    ensures Inv(cfgs, Advance(cfgs, w, e))
  {
    var q := e.request;
    if !q.BearerCheck? && q.api in cfgs {
      var s := Purged(w.stores, e);
      PurgeShrinks(w.stores, e.now, e.purges);
      ShrinkKeepsInv(cfgs, w, s);
      ServeKeepsInv(cfgs, World(s, w.ledger), e);
    }
  }

  /** The invariant holds in every state that a run from empty stores reaches. */
  lemma {:induction false} RunKeepsInv(cfgs: Configs, w: World, events: seq<Event>)
    requires Inv(cfgs, w)
    ensures Inv(cfgs, AdvanceAll(cfgs, w, events))
    decreases |events|
  {
    if events != [] {
      StepKeepsInv(cfgs, w, events[0]);
      RunKeepsInv(cfgs, Advance(cfgs, w, events[0]), events[1..]);
    }
  }
}
