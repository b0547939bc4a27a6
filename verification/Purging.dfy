/** Purging expired records cannot be observed. No request after a purge can tell whether it
    took place; and a run in which some purges fail answers like one in which others do, except to a
    request whose record a purge took at this very instant, when it expires. */
module Purging {
  import opened Options
  import opened OAuthData
  import opened Lifecycle
  import opened Lineage

  /** `s` is `u` without some records that had expired by time t. */
  predicate Hides(s: Stores, u: Stores, t: Time) {
    && Within(s, u)
    && (forall c <- u.codes :: c !in s.codes ==> u.codes[c].expiredAt <= t)
    && (forall r <- u.refresh :: r !in s.refresh ==> u.refresh[r].expiredAt <= t)
    && (forall a <- u.access :: a !in s.access ==> u.access[a].expiredAt <= t)
  }

  /** The record that a request presents expires exactly at `now`. */
  predicate ExpiresNow(u: Stores, now: Time, q: Request) {
    match q
    case TokenRequest(_, _, CodeCall(Some(c), _)) => c in u.codes && u.codes[c].expiredAt == now
    case TokenRequest(_, _, RefreshCall(Some(Some(t)), _)) => t.jti in u.refresh && u.refresh[t.jti].expiredAt == now
    case BearerCheck(Some(t), _, _) => t.jti in u.access && u.access[t.jti].expiredAt == now
    case _ => false
  }

  /** That record expires exactly at `now`, and is missing from the stores that serve the request. */
  predicate Missed(s: Stores, u: Stores, now: Time, q: Request) {
    ExpiresNow(u, now, q) &&
    match q
    case TokenRequest(_, _, CodeCall(Some(c), _)) => c !in s.codes
    case TokenRequest(_, _, RefreshCall(Some(Some(t)), _)) => t.jti !in s.refresh
    case BearerCheck(Some(t), _, _) => t.jti !in s.access
    case _ => false
  }

  /** The same answer, up to the wording of a refusal. */
  predicate SameVerdict(x: Response, y: Response) { x == y || (x.Refused? && y.Refused?) }

  /** Who asks does not matter to what is presented. */
  const NOBODY := ClientAuth(None, "", None, None)

  lemma PastCodeIsExpired(c: Code, now: Time)
    requires c.expiredAt < now
    ensures IsExpired(c.issuedAt, c.expiredAt, (c.expiredAt - c.issuedAt) / 1000, now)
  {}

  function Added(s: Stores, a: Uid, k: Access, more: map<Uid, Refresh>, uids: Uid): Stores {
    Stores(s.codes, s.access[a := k], s.refresh + more, uids)
  }

  lemma AddedHides(s: Stores, u: Stores, t: Time, a: Uid, k: Access, more: map<Uid, Refresh>, uids: Uid)
    requires Hides(s, u, t)
    ensures Hides(Added(s, a, k, more, uids), Added(u, a, k, more, uids), t)
  {}

  /** What minting adds depends on the identifiers drawn so far, not on the records. */
  lemma MintAdds(s: Stores, now: Time, h: Holder, azCode: Option<Uid>, ttl: int, renewal: Option<Renewal>)
    returns (k: Access, more: map<Uid, Refresh>, uids: Uid)
    ensures forall u: Stores | u.uids == s.uids ::
              Mint(u, now, h, azCode, ttl, renewal)
              == Outcome(Added(u, u.uids, k, more, uids), Mint(s, now, h, azCode, ttl, renewal).response)
  {
    var m := Mint(s, now, h, azCode, ttl, renewal).stores;
    k, uids := m.access[s.uids], m.uids;
    more := if renewal.None? then map[] else map[s.uids + 2 := m.refresh[s.uids + 2]];
    forall u: Stores | u.uids == s.uids
      ensures Mint(u, now, h, azCode, ttl, renewal)
           == Outcome(Added(u, u.uids, k, more, uids), Mint(s, now, h, azCode, ttl, renewal).response)
    {
      if renewal.None? { assert u.refresh + more == u.refresh; }
      else { assert u.refresh + more == u.refresh[s.uids + 2 := m.refresh[s.uids + 2]]; }
    }
  }

  /** Minting adds the same records on both sides. */
  lemma MintHides(s: Stores, u: Stores, t: Time, now: Time, h: Holder, azCode: Option<Uid>, ttl: int,
      renewal: Option<Renewal>)
    requires Hides(s, u, t)
    ensures var x, y := Mint(s, now, h, azCode, ttl, renewal), Mint(u, now, h, azCode, ttl, renewal);
            Hides(x.stores, y.stores, t) && x.response == y.response
  {
    var k, more, uids := MintAdds(s, now, h, azCode, ttl, renewal);
    AddedHides(s, u, t, s.uids, k, more, uids);
  }

  lemma RetireHides(s: Stores, u: Stores, t: Time, clientId: string, r: Uid)
    requires Hides(s, u, t)
    ensures Hides(Retire(s, clientId, r), Retire(u, clientId, r), t)
  {}

  lemma RedeemHides(cfg: ApiConfig, api: string, s: Stores, u: Stores, t: Time, now: Time, clientId: string,
      call: TokenCall)
    requires Hides(s, u, t) && t <= now && call.CodeCall?
    requires !Missed(s, u, now, TokenRequest(api, NOBODY, call))
    ensures var x, y := RedeemCode(cfg, api, s, now, clientId, call), RedeemCode(cfg, api, u, now, clientId, call);
            Hides(x.stores, y.stores, t) && SameVerdict(x.response, y.response)
  {
    if call.code.Some? && call.code.value in u.codes {
      var c := call.code.value;
      if c !in s.codes {
        PastCodeIsExpired(u.codes[c], now);
      } else if RedeemCode(cfg, api, s, now, clientId, call).response.TokensIssued? {
        GrantedRedeem(cfg, api, s, now, clientId, call);
        MintHides(s.(codes := s.codes - {c}), u.(codes := u.codes - {c}), t, now,
                  Holder(api, clientId, u.codes[c].userId, u.codes[c].scopes, AccessCode), Some(c),
                  cfg.TokenTtl(), FirstRenewal(cfg));
      }
    }
  }

  lemma ExchangeHides(cfg: ApiConfig, api: string, s: Stores, u: Stores, t: Time, now: Time, clientId: string,
      skipped: bool, call: TokenCall)
    requires Hides(s, u, t) && t <= now && call.RefreshCall?
    requires !Missed(s, u, now, TokenRequest(api, NOBODY, call))
    ensures var x := ExchangeRefresh(cfg, api, s, now, clientId, skipped, call);
            var y := ExchangeRefresh(cfg, api, u, now, clientId, skipped, call);
            Hides(x.stores, y.stores, t) && SameVerdict(x.response, y.response)
  {
    var x := ExchangeRefresh(cfg, api, s, now, clientId, skipped, call);
    var y := ExchangeRefresh(cfg, api, u, now, clientId, skipped, call);
    if y.response.TokensIssued? {
      GrantedExchange(cfg, api, u, now, clientId, skipped, call);
      var r := call.token.value.value.jti;
      assert r in s.refresh && s.refresh[r] == u.refresh[r];
      assert x.response.TokensIssued?;
      GrantedExchange(cfg, api, s, now, clientId, skipped, call);
      RetireHides(s, u, t, clientId, r);
      var scopes := NarrowedScopes(u.refresh[r], CheckScope(cfg, call.scope, true));
      MintHides(Retire(s, clientId, r), Retire(u, clientId, r), t, now,
                Holder(api, clientId, u.refresh[r].userId, scopes, RefreshToken),
                None, cfg.TokenTtl(), NextRenewal(cfg, u.refresh[r].countDown));
    } else {
      RefusedExchange(cfg, api, u, now, clientId, skipped, call);
      if x.response.TokensIssued? { GrantedExchange(cfg, api, s, now, clientId, skipped, call); }
      RefusedExchange(cfg, api, s, now, clientId, skipped, call);
    }
  }

  function CheckedScopes(cfg: ApiConfig, scope: Option<string>): seq<string> {
    var c := CheckScope(cfg, scope, false);
    if c.Scopes? then c.scopes else []
  }

  lemma PasswordHides(cfg: ApiConfig, api: string, s: Stores, u: Stores, t: Time, now: Time, clientId: string,
      call: TokenCall)
    requires Hides(s, u, t) && call.PasswordCall?
    ensures var x := PasswordGrant(cfg, api, s, now, clientId, call);
            var y := PasswordGrant(cfg, api, u, now, clientId, call);
            Hides(x.stores, y.stores, t) && x.response == y.response
  {
    MintHides(s, u, t, now, Holder(api, clientId, call.username, CheckedScopes(cfg, call.scope), Password), None,
              cfg.TokenTtl(), FirstRenewal(cfg));
  }

  lemma ClientHides(cfg: ApiConfig, api: string, s: Stores, u: Stores, t: Time, now: Time, clientId: string,
      call: TokenCall)
    requires Hides(s, u, t) && call.ClientCall?
    ensures var x, y := ClientGrant(cfg, api, s, now, clientId, call), ClientGrant(cfg, api, u, now, clientId, call);
            Hides(x.stores, y.stores, t) && x.response == y.response
  {
    MintHides(s, u, t, now, Holder(api, clientId, clientId, CheckedScopes(cfg, call.scope), Application), None,
              cfg.TokenTtl(), FirstRenewal(cfg));
  }

  lemma ExchangesHide(cfg: ApiConfig, api: string, s: Stores, u: Stores, t: Time, now: Time, clientId: string,
      skipped: bool, call: TokenCall)
    requires Hides(s, u, t) && t <= now && !Missed(s, u, now, TokenRequest(api, NOBODY, call))
    ensures var x := Exchange(cfg, api, s, now, clientId, skipped, call);
            var y := Exchange(cfg, api, u, now, clientId, skipped, call);
            Hides(x.stores, y.stores, t) && SameVerdict(x.response, y.response)
  {
    match call
    case CodeCall(_, _) => RedeemHides(cfg, api, s, u, t, now, clientId, call);
    case RefreshCall(_, _) => ExchangeHides(cfg, api, s, u, t, now, clientId, skipped, call);
    case PasswordCall(_, _, _, _) => PasswordHides(cfg, api, s, u, t, now, clientId, call);
    case ClientCall(_) => ClientHides(cfg, api, s, u, t, now, clientId, call);
    case UnknownCall =>
  }

  lemma RevokeHides(s: Stores, u: Stores, t: Time, call: TokenCall)
    requires Hides(s, u, t)
    ensures Hides(Revoke(s, call), Revoke(u, call), t)
  {}

  lemma TokenHides(cfg: ApiConfig, api: string, s: Stores, u: Stores, t: Time, now: Time, auth: ClientAuth,
      call: TokenCall)
    requires Hides(s, u, t) && t <= now && !Missed(s, u, now, TokenRequest(api, auth, call))
    ensures var x, y := ServeToken(cfg, api, s, now, auth, call), ServeToken(cfg, api, u, now, auth, call);
            Hides(x.stores, y.stores, t) && SameVerdict(x.response, y.response)
  {
    match Authenticate(cfg, auth, call)
    case Rejected(_, _) => RevokeHides(s, u, t, call);
    case Authenticated(clientId, skipped) =>
      assert !Missed(s, u, now, TokenRequest(api, NOBODY, call));
      ExchangesHide(cfg, api, s, u, t, now, clientId, skipped, call);
  }

  lemma CodeGrantHides(cfg: ApiConfig, s: Stores, u: Stores, t: Time, now: Time, q: Request)
    requires Hides(s, u, t) && q.CodeGrant?
    ensures var x, y := GrantCode(cfg, s, now, q), GrantCode(cfg, u, now, q);
            Hides(x.stores, y.stores, t) && x.response == y.response
  {}

  lemma ImplicitHides(cfg: ApiConfig, s: Stores, u: Stores, t: Time, now: Time, q: Request)
    requires Hides(s, u, t) && q.ImplicitGrant?
    ensures var x, y := GrantImplicit(cfg, s, now, q), GrantImplicit(cfg, u, now, q);
            Hides(x.stores, y.stores, t) && x.response == y.response
  {
    MintHides(s, u, t, now, Holder(q.api, q.appId, q.userId, q.scope, Implicit), None, cfg.TokenTtl(), None);
  }

  lemma ServeHides(cfg: ApiConfig, s: Stores, u: Stores, t: Time, now: Time, q: Request)
    requires Hides(s, u, t) && t <= now && !q.BearerCheck? && !Missed(s, u, now, q)
    ensures var x, y := Serve(cfg, s, now, q), Serve(cfg, u, now, q);
            Hides(x.stores, y.stores, t) && SameVerdict(x.response, y.response)
  {
    match q
    case TokenRequest(api, auth, call) => TokenHides(cfg, api, s, u, t, now, auth, call);
    case ImplicitGrant(_, _, _, _) => ImplicitHides(cfg, s, u, t, now, q);
    case CodeGrant(_, _, _, _, _) => CodeGrantHides(cfg, s, u, t, now, q);
    case OtherVisit(_) =>
  }

  lemma CheckHides(s: Stores, u: Stores, t: Time, now: Time, q: Request)
    requires Hides(s, u, t) && t <= now && q.BearerCheck? && !Missed(s, u, now, q)
    ensures SameVerdict(CheckBearer(s, now, q), CheckBearer(u, now, q))
  {}

  lemma HidesLater(s: Stores, u: Stores, t: Time, now: Time, p: Purges)
    requires Hides(s, u, t) && t <= now
    ensures Hides(s, u, now) && Hides(Purge(s, now, p), u, now)
  {}

  lemma PurgeBothHides(s: Stores, u: Stores, t: Time, now: Time, p: Purges)
    requires Hides(s, u, t)
    ensures Hides(Purge(s, now, p), Purge(u, now, p), t)
  {}

  predicate SameVerdicts(xs: seq<Response>, ys: seq<Response>) {
    |xs| == |ys| && forall i | 0 <= i < |xs| :: SameVerdict(xs[i], ys[i])
  }

  // ---- After a purge ----------------------------------------------------------------------

  /** An event after t, served from stores that differ by records expired by t. */
  lemma StepHidesLater(cfgs: Configs, s: Stores, u: Stores, t: Time, e: Event)
    requires Hides(s, u, t) && t < e.now
    ensures var x, y := Step(cfgs, s, e), Step(cfgs, u, e);
            Hides(x.stores, y.stores, t) && SameVerdict(x.response, y.response)
  {
    PurgeBothHides(s, u, t, e.now, e.purges);
    if e.request.BearerCheck? {
      CheckHides(s, u, t, e.now, e.request);
    } else if e.request.api in cfgs {
      ServeHides(cfgs[e.request.api], Purged(s, e), Purged(u, e),
                 t, e.now, e.request);
    }
  }

  lemma RunUnfolds(cfgs: Configs, s: Stores, events: seq<Event>)
    requires events != []
    ensures var o := Step(cfgs, s, events[0]);
            && Run(cfgs, s, events).0 == Run(cfgs, o.stores, events[1..]).0
            && Run(cfgs, s, events).1 == [o.response] + Run(cfgs, o.stores, events[1..]).1
  {}

  lemma SameVerdictsCons(x: Response, y: Response, xs: seq<Response>, ys: seq<Response>)
    requires SameVerdict(x, y) && SameVerdicts(xs, ys)
    ensures SameVerdicts([x] + xs, [y] + ys)
  {}

  lemma {:induction false} RunHidesLater(cfgs: Configs, s: Stores, u: Stores, t: Time, events: seq<Event>)
    requires Hides(s, u, t) && forall e <- events :: t < e.now
    ensures Hides(Run(cfgs, s, events).0, Run(cfgs, u, events).0, t)
    ensures SameVerdicts(Run(cfgs, s, events).1, Run(cfgs, u, events).1)
    decreases |events|
  {
    if events != [] {
      var x, y := Step(cfgs, s, events[0]), Step(cfgs, u, events[0]);
      StepHidesLater(cfgs, s, u, t, events[0]);
      RunHidesLater(cfgs, x.stores, y.stores, t, events[1..]);
      RunUnfolds(cfgs, s, events);
      RunUnfolds(cfgs, u, events);
      SameVerdictsCons(x.response, y.response, Run(cfgs, x.stores, events[1..]).1, Run(cfgs, y.stores, events[1..]).1);
    }
  }

  /** A purge at t, of whatever tables, changes no answer to any later request, tokens and
      identifiers included. */
  lemma PurgeIsUnobservableLater(cfgs: Configs, u: Stores, t: Time, p: Purges, events: seq<Event>)
    requires forall e <- events :: t < e.now
    ensures SameVerdicts(Run(cfgs, Purge(u, t, p), events).1, Run(cfgs, u, events).1)
  {
    RunHidesLater(cfgs, Purge(u, t, p), u, t, events);
  }

  // ---- With and without purges ---------------------------------------------------------------

  /** Where an event finds the record it presents: a provider API purges first. */
  function ServedFrom(cfgs: Configs, s: Stores, e: Event): Stores {
    if !e.request.BearerCheck? && e.request.api in cfgs then Purged(s, e) else s
  }

  /** One event, served with or without its purges from stores that differ only by purges. */
  lemma StepHides(cfgs: Configs, s: Stores, u: Stores, t: Time, e: Event)
    requires Hides(s, u, t) && t <= e.now && !Missed(ServedFrom(cfgs, s, e), u, e.now, e.request)
    ensures var x, y := Step(cfgs, s, e), Step(cfgs, u, e.(purges := NO_PURGES));
            Hides(x.stores, y.stores, e.now) && SameVerdict(x.response, y.response)
  {
    HidesLater(s, u, t, e.now, e.purges);
    if e.request.BearerCheck? {
      CheckHides(s, u, e.now, e.now, e.request);
    } else if e.request.api in cfgs {
      assert Purged(u, e.(purges := NO_PURGES)) == u;
      ServeHides(cfgs[e.request.api], Purged(s, e), u, e.now, e.now, e.request);
    }
  }

  function WithoutPurges(events: seq<Event>): (r: seq<Event>)
    ensures |r| == |events|
  {
    seq(|events|, i requires 0 <= i < |events| => events[i].(purges := NO_PURGES))
  }

  /** Along the two runs, no purge takes a record at the instant it is presented. */
  predicate NeverMissed(cfgs: Configs, s: Stores, u: Stores, events: seq<Event>)
    decreases |events|
  {
    events != [] ==>
      var e := events[0];
      && !Missed(ServedFrom(cfgs, s, e), u, e.now, e.request)
      && NeverMissed(cfgs, Step(cfgs, s, e).stores, Step(cfgs, u, e.(purges := NO_PURGES)).stores, events[1..])
  }

  predicate InOrder(t: Time, events: seq<Event>)
    decreases |events|
  {
    events != [] ==> t <= events[0].now && InOrder(events[0].now, events[1..])
  }

  /** Along a whole run, every answer is the same with any purges as without any, tokens
      and their identifiers included. */
  lemma {:induction false} PurgesAreUnobservable(cfgs: Configs, s: Stores, u: Stores, t: Time, events: seq<Event>)
    requires Hides(s, u, t) && InOrder(t, events) && NeverMissed(cfgs, s, u, events)
    ensures SameVerdicts(Run(cfgs, s, events).1, Run(cfgs, u, WithoutPurges(events)).1)
    decreases |events|
  {
    if events != [] {
      var e := events[0];
      StepHides(cfgs, s, u, t, e);
      assert WithoutPurges(events)[1..] == WithoutPurges(events[1..]);
      PurgesAreUnobservable(cfgs, Step(cfgs, s, e).stores, Step(cfgs, u, e.(purges := NO_PURGES)).stores, e.now,
          events[1..]);
    }
  }

  /** For one token request: with any purges it is granted exactly when it is granted without, and
      no purge takes the presented record, which then expires at this instant. */
  lemma PurgeMattersOnlyAtExpiry(cfgs: Configs, s: Stores, e: Event)
    requires e.request.TokenRequest? && e.request.api in cfgs
    ensures var o := Step(cfgs, s, e.(purges := NO_PURGES));
            Step(cfgs, s, e).response.TokensIssued?
            <==> o.response.TokensIssued? && !Missed(Purged(s, e), s, e.now, e.request)
  {
    HidesLater(s, s, e.now, e.now, e.purges);
    assert Purged(s, e.(purges := NO_PURGES)) == s;
    var cfg, q, p := cfgs[e.request.api], e.request, Purged(s, e);
    if !Missed(p, s, e.now, q) {
      ServeHides(cfg, p, s, e.now, e.now, q);
    } else if Serve(cfg, p, e.now, q).response.TokensIssued? && q.call.RefreshCall? {
      var auth := Authenticate(cfg, q.auth, q.call);
      GrantedExchange(cfg, q.api, p, e.now, auth.clientId, auth.skipped, q.call);
    }
  }

  /** The record is missing exactly when its table is purged and it expires now. */
  lemma MissedMeaning(s: Stores, now: Time, p: Purges, call: TokenCall)
    ensures var q := TokenRequest("", NOBODY, call);
            Missed(Purge(s, now, p), s, now, q)
            <==> ExpiresNow(s, now, q) && ((call.CodeCall? && p.codes) || (call.RefreshCall? && p.refresh))
  {}

  /** The same for a bearer check after purges at the same instant. */
  lemma PurgeMattersToCheckOnlyAtExpiry(s: Stores, now: Time, p: Purges, q: Request)
    requires q.BearerCheck?
    ensures CheckBearer(Purge(s, now, p), now, q).Admitted?
            <==> CheckBearer(s, now, q).Admitted? && !(p.access && ExpiresNow(s, now, q))
  {}
}
