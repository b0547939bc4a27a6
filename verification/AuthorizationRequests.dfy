/** What an authorization request must state, where its answer is sent, and exactly which requests of a
    session are answered with a grant. */
module AuthorizationRequests {
  import opened Options
  import opened OAuthData
  import opened Transactions
  import Text

  // ---- Acceptable requests --------------------------------------------------------------------

  /** Where the request wants its answer: at the address it states, else at the registered one. */
  function Address(e: FlowEvent): Option<string>
    requires e.Authorize? && e.client.Some?
  {
    if e.uri.Some? && e.uri.value != "" then e.uri else e.client.value.redirection
  }

  /** The address begins with the one that the client registered. Without one it must begin with the word
      that stands for an undefined value. */
  predicate Registered(c: Client, address: string) {
    var start := if c.redirection.Some? then c.redirection.value else "undefined";
    |start| <= |address| && address[..|start|] == start
  }

  /** The request is of a known client and goes to an address of that client. */
  predicate WellAddressed(e: FlowEvent)
    requires e.Authorize?
  {
    && e.client.Some? && Address(e).Some? && Address(e).value != ""
    && Registered(e.client.value, Address(e).value)
  }

  /** The API answers requests of this type. */
  predicate Answerable(cfg: FlowConfig, kind: string) { (kind == "code" && cfg.code) || (kind == "token" && cfg.token) }

  /** It asks for scopes, all of them scopes of the API. */
  predicate WellScoped(cfg: FlowConfig, e: FlowEvent)
    requires e.Authorize?
  {
    e.scope.Some? && e.scope.value != "" && forall x <- Text.Split(e.scope.value, ' ') :: x in cfg.scopes
  }

  predicate Acceptable(v: Visit) {
    && v.event.Authorize? && v.event.clientId != "" && WellAddressed(v.event) && Answerable(v.cfg, v.event.kind)
    && WellScoped(v.cfg, v.event)
  }

  /** The stored request is the one that this visit makes. */
  predicate Makes(v: Visit, r: AzRequest) {
    && v.event.Authorize? && v.event.scope.Some?
    && r.kind == v.event.kind && r.clientId == v.event.clientId && r.state == v.event.state && r.apiId == v.cfg.apiId
    && r.scope == Text.Split(v.event.scope.value, ' ')
    && r.redirectURI == if v.event.uri.Some? then Value(v.event.uri.value) else Absent
  }

  /** The visit filed the transaction: it made this request, acceptably, for this client. */
  predicate Filed(v: Visit, t: Txn) { Acceptable(v) && Makes(v, t.req) && v.event.client.value.id == t.clientId }

  /** The visit made this request, acceptably, and its answer goes where the transaction's does. */
  predicate Directed(v: Visit, t: Txn) { Acceptable(v) && Makes(v, t.req) && Address(v.event) == Some(t.redirectURI) }

  lemma AcceptedIsAcceptable(v: Visit)
    requires v.event.Authorize?
    ensures AuthorizeError(v.cfg, v.event).None? <==> Acceptable(v)
    ensures AuthorizeError(v.cfg, v.event).None? ==> Address(v.event) == Some(Destination(v.event))
    ensures AuthorizeError(v.cfg, v.event).None? ==> Makes(v, Stored(NewRequest(v.cfg, v.event)))
  {
    var e := v.event;
    if e.client.Some? {
      var d, prefix := Destination(e), e.client.value.Prefix();
      assert d != "" && prefix <= d <==> WellAddressed(e);
    }
  }

  /** In every session exactly the acceptable requests are filed, with their destination; any other fails,
      for the first reason that applies, and leaves the session alone. */
  lemma AuthorizeVerdict(visits: seq<Visit>, v: Visit)
    requires v.event.Authorize?
    ensures var s, e, r := Visited(visits).state, v.event, Step(v.cfg, Visited(visits).state, v.event);
            if Acceptable(v) then exists x <- r.state.entries :: Directed(v, x.txn)
            else r.state == s && r.login.None? && r.reply == Failed(Unacceptable(v))
  {
    AcceptedIsAcceptable(v);
    var s, e := Visited(visits).state, v.event;
    if Acceptable(v) {
      VisitedInv(visits);
      ResolveKeepsInv(v.cfg, Visited(visits), e);
      StepPreserves(s, v);
      var (t, i) := Resolve(v.cfg, s, e);
      var u := Step(v.cfg, s, e).state;
      PreservedAt(t, u, i);
      assert u.entries[i] in u.entries && Directed(v, u.entries[i].txn);
    } else {
      UnacceptableIsFailed(s, v);
    }
  }

  /** Why a request is not acceptable. */
  function Unacceptable(v: Visit): string
    requires v.event.Authorize?
  {
    if v.event.kind == "" || v.event.clientId == "" then "invalid_request"
    else if v.event.client.None? then "invalid_client"
    else if !WellAddressed(v.event) then "invalid_request"
    else if !Answerable(v.cfg, v.event.kind) then "unauthorized_client"
    else if v.event.scope.None? || v.event.scope.value == "" then "invalid_request"
    else "invalid_scope"
  }

  lemma UnacceptableIsFailed(s: State, v: Visit)
    requires v.event.Authorize? && !Acceptable(v)
    ensures Step(v.cfg, s, v.event) == Result(s, None, Failed(Unacceptable(v)))
  {
    var e := v.event;
    if e.client.Some? {
      var d, prefix := Destination(e), e.client.value.Prefix();
      assert d != "" && prefix <= d <==> WellAddressed(e);
    }
  }

  // ---- Over a session ----------------------------------------------------------------------------

  predicate Asked(t: Txn, visits: seq<Visit>) {
    (exists v <- visits :: Filed(v, t)) && (exists v <- visits :: Directed(v, t))
  }

  /** Every transaction was filed by one of the visits, and directed where its answer goes by one. */
  predicate AllAsked(s: State, visits: seq<Visit>) {
    forall i | 0 <= i < |s.entries| :: Asked(s.entries[i].txn, visits)
  }

  lemma PreservedAt(s: State, t: State, i: nat)
    requires Preserves(s, t) && i < |s.entries|
    ensures i < |t.entries| && SameOrder(s.entries[i].txn, t.entries[i].txn)
  {}

  lemma SameOrderAsked(t: Txn, u: Txn, visits: seq<Visit>)
    requires Asked(t, visits) && SameOrder(t, u)
    ensures Asked(u, visits)
  {
    var v :| v in visits && Filed(v, t);
    var w :| w in visits && Directed(w, t);
    assert Filed(v, u) && Directed(w, u);
  }

  lemma PreservesAsked(s: State, t: State, visits: seq<Visit>)
    requires AllAsked(s, visits) && Preserves(s, t)
    ensures AllAsked(t, visits)
  {
    forall i | 0 <= i < |t.entries| ensures Asked(t.entries[i].txn, visits) {
      PreservedAt(s, t, i);
      SameOrderAsked(s.entries[i].txn, t.entries[i].txn, visits);
    }
  }

  lemma MoreVisits(t: Txn, visits: seq<Visit>, v: Visit)
    requires Asked(t, visits)
    ensures Asked(t, visits + [v])
  {
    assert forall u <- visits :: u in visits + [v];
  }

  /** A request that is made again directs the transaction that its client filed. */
  lemma AskedAgain(t: Txn, u: Txn, visits: seq<Visit>, v: Visit)
    requires Asked(t, visits) && Directed(v, u) && u == t.(redirectURI := u.redirectURI)
    ensures Asked(u, visits + [v])
  {
    var w :| w in visits && Filed(w, t);
    assert w in visits + [v] && Filed(w, u) && v in visits + [v];
  }

  lemma AskedFirst(u: Txn, visits: seq<Visit>, v: Visit)
    requires Directed(v, u) && Filed(v, u)
    ensures Asked(u, visits + [v])
  {
    assert v in visits + [v];
  }

  lemma ResolveAsked(h: History, visits: seq<Visit>, v: Visit)
    requires Inv(h) && AllAsked(h.state, visits) && v.event.Authorize? && AuthorizeError(v.cfg, v.event).None?
    ensures AllAsked(Resolve(v.cfg, h.state, v.event).0, visits + [v])
  {
    AcceptedIsAcceptable(v);
    ResolveKeepsInv(v.cfg, h, v.event);
    var s := h.state;
    var (t, i) := Resolve(v.cfg, s, v.event);
    assert Directed(v, t.entries[i].txn);
    forall j | 0 <= j < |t.entries| ensures Asked(t.entries[j].txn, visits + [v]) {
      if j < |s.entries| && j != i { MoreVisits(s.entries[j].txn, visits, v); }
      else if j < |s.entries| { AskedAgain(s.entries[j].txn, t.entries[j].txn, visits, v); }
      else { AskedFirst(t.entries[j].txn, visits, v); }
    }
  }

  /** Other events, and what an authorization request does besides, leave all requests and destinations. */
  lemma StepPreserves(s: State, v: Visit)
    ensures if v.event.Authorize? && AuthorizeError(v.cfg, v.event).None?
            then Preserves(Resolve(v.cfg, s, v.event).0, Step(v.cfg, s, v.event).state)
            else Preserves(s, Step(v.cfg, s, v.event).state)
  {
    match v.event
    case Authorize(_, _, _, _, _, _, _, _) =>
      if AuthorizeError(v.cfg, v.event).None? { StartedKeepsEntries(v.cfg, s, v.event); }
    case Login(_, _, _) => LoggedInKeepsEntries(v.cfg, s, v.event);
    case Return(_, _, _, _, _) =>
    case Decide(_, _, _, _, _, _, _) =>
  }

  lemma StepKeepsAsked(h: History, visits: seq<Visit>, v: Visit)
    requires Inv(h) && AllAsked(h.state, visits)
    ensures AllAsked(Step(v.cfg, h.state, v.event).state, visits + [v])
  {
    var t := Step(v.cfg, h.state, v.event).state;
    StepPreserves(h.state, v);
    if v.event.Authorize? && AuthorizeError(v.cfg, v.event).None? {
      ResolveAsked(h, visits, v);
      PreservesAsked(Resolve(v.cfg, h.state, v.event).0, t, visits + [v]);
    } else {
      PreservesAsked(h.state, t, visits);
      forall i | 0 <= i < |t.entries| ensures Asked(t.entries[i].txn, visits + [v]) {
        MoreVisits(t.entries[i].txn, visits, v);
      }
    }
  }

  lemma {:induction false} RunKeepsAsked(h: History, before: seq<Visit>, visits: seq<Visit>)
    requires Inv(h) && AllAsked(h.state, before)
    ensures AllAsked(ExtendAll(h, visits).state, before + visits)
    decreases |visits|
  {
    if visits == [] {
      assert before + visits == before;
    } else {
      StepKeepsInv(visits[0].cfg, h, visits[0].event);
      StepKeepsAsked(h, before, visits[0]);
      RunKeepsAsked(Extend(h, visits[0]), before + [visits[0]], visits[1..]);
      assert before + [visits[0]] + visits[1..] == before + visits;
    }
  }

  /** In every session, each transaction was filed by an acceptable request, for its client; and its answer
      goes to an address that an acceptable request asked for, which begins with the registered one. */
  lemma TransactionsWereAsked(visits: seq<Visit>)
    ensures AllAsked(Visited(visits).state, visits)
  {
    RunKeepsAsked(NEW_HISTORY, [], visits);
    assert [] + visits == visits;
  }

  /** This request of the session asked for the grant: it is of its type, for its client, and states its
      redirect address, which then begins with the one that the client registered. */
  predicate AskedFor(x: Visit, g: Request)
    requires g.CodeGrant? || g.ImplicitGrant?
  {
    && Acceptable(x) && x.event.client.value.id == g.appId
    && x.event.kind == (if g.CodeGrant? then "code" else "token")
    && (g.CodeGrant? ==> g.redirectURI == x.event.uri)
    && (g.CodeGrant? && g.redirectURI.Some? && g.redirectURI.value != "" ==>
          Registered(x.event.client.value, g.redirectURI.value))
  }

  /** In every session, a grant was asked for by an acceptable request of its client; no code is granted
      for an address that does not begin with the registered one. */
  lemma GrantedAddressesAreRegistered(visits: seq<Visit>, v: Visit)
    requires Step(v.cfg, Visited(visits).state, v.event).reply.Granted?
    ensures var g := Step(v.cfg, Visited(visits).state, v.event).reply.grant;
            (g.CodeGrant? || g.ImplicitGrant?) && exists x <- visits + [v] :: AskedFor(x, g)
  {
    var s := Visited(visits).state;
    TransactionsWereAsked(visits);
    VisitedInv(visits);
    StepKeepsAsked(Visited(visits), visits, v);
    LoginBeforeGrant(visits, v);
    var t := Step(v.cfg, s, v.event).state.entries[Target(v.cfg, s, v.event).value].txn;
    var x :| x in visits + [v] && Filed(x, t);
    assert AskedFor(x, Step(v.cfg, s, v.event).reply.grant);
  }

  // ---- Which requests are granted --------------------------------------------------------------------

  /** A user has logged in in the transaction filed under this identifier. */
  predicate LoggedInBefore(h: History, tid: Uid) { LastLogin(h.logins, tid).Some? }

  /** An authorization request is granted at once when it is acceptable, no consent is asked for, and the
      user logs in with it, or has logged in when the same request was made before. */
  predicate EarnsAtOnce(h: History, v: Visit)
    requires v.event.Authorize?
  {
    && Acceptable(v) && v.cfg.consent.Authenticated?
    && match v.cfg.extraction
       case BasicAuth => v.event.name.Some? && v.event.verified
       case RedirectLogin => false
       case _ =>
         v.event.uri.Some? && exists x <- h.state.entries :: Makes(v, x.txn.req) && LoggedInBefore(h, x.key)
  }

  /** What else is granted: a login in the transaction, now or before, where no consent is asked for; the
      verified return from an external login; and an approval by the user who logged in last that repeats
      the transaction's destination, scopes and client. */
  predicate Earns(h: History, v: Visit, x: Entry)
    requires !v.event.Authorize?
  {
    && v.event.tid == Some(x.key) && Answerable(v.cfg, x.txn.req.kind)
    && match v.event
       case Login(_, name, verified) =>
         && v.cfg.extraction.LoginForm? && v.cfg.consent.Authenticated?
         && ((name.Some? && verified) || LoggedInBefore(h, x.key))
       case Return(_, error, complete, name, verified) =>
         v.cfg.extraction.RedirectLogin? && !error && complete && name.Some? && verified
       case Decide(_, _, _, _, _, approve, _) => approve && Repeats(h, v.event, x)
  }

  /** The decision is by the user who logged in last, and repeats the destination, scopes and client. */
  predicate Repeats(h: History, e: FlowEvent, x: Entry)
    requires e.Decide?
  {
    && e.owner != "" && LastLogin(h.logins, x.key) == Some(e.owner)
    && e.seenUri == x.txn.redirectURI && e.seenScope == Text.Join(x.txn.req.scope, ' ')
    && e.seenClient == x.txn.req.clientId
  }

  predicate Earned(h: History, v: Visit) {
    if v.event.Authorize? then EarnsAtOnce(h, v) else exists x <- h.state.entries :: Earns(h, v, x)
  }

  /** In every session, with whatever forms and APIs, exactly these events are answered with a grant. */
  lemma GrantedExactlyWhenEarned(visits: seq<Visit>, v: Visit)
    ensures Step(v.cfg, Visited(visits).state, v.event).reply.Granted? <==> Earned(Visited(visits), v)
  {
    var h := Visited(visits);
    VisitedInv(visits);
    if v.event.Authorize? {
      AcceptedIsAcceptable(v);
      if Acceptable(v) { AuthorizeGrants(h, v); }
    } else {
      LookupIsUnique(h, v.event.tid);
      OtherGrants(h, v);
    }
  }

  /** The entry under an identifier is the one that is loaded. */
  lemma LookupIsUnique(h: History, tid: Option<Uid>)
    requires Inv(h)
    ensures Load(h.state, tid).Some? <==> tid.Some? && exists x <- h.state.entries :: x.key == tid.value
    ensures Load(h.state, tid).Some? ==>
              forall x <- h.state.entries :: x.key == tid.value ==> x == h.state.entries[Load(h.state, tid).value]
  {}

  lemma AuthorizeGrants(h: History, v: Visit)
    requires Inv(h) && v.event.Authorize? && AuthorizeError(v.cfg, v.event).None? && Acceptable(v)
    ensures Step(v.cfg, h.state, v.event).reply.Granted? <==> EarnsAtOnce(h, v)
  {
    var e, cfg := v.event, v.cfg;
    var (s, i) := Resolve(cfg, h.state, e);
    AcceptedIsAcceptable(v);
    var found := Search(h.state.entries, NewRequest(cfg, e));
    if found.Some? {
      assert TxnOk(h, h.state.entries[found.value]);
      assert h.state.entries[found.value] in h.state.entries && Makes(v, h.state.entries[found.value].txn.req);
    }
    if e.uri.Some? {
      forall x | x in h.state.entries && Makes(v, x.txn.req)
        ensures found.Some? && x == h.state.entries[found.value]
      {
        assert x.txn.req == NewRequest(cfg, e);
        var j :| 0 <= j < |h.state.entries| && h.state.entries[j] == x;
      }
    } else {
      StoredRequestsAreDefined(h, NewRequest(cfg, e));
    }
  }

  lemma OtherGrants(h: History, v: Visit)
    requires Inv(h) && !v.event.Authorize?
    ensures Step(v.cfg, h.state, v.event).reply.Granted?
       <==> && Load(h.state, v.event.tid).Some?
            && Earns(h, v, h.state.entries[Load(h.state, v.event.tid).value])
  {
    var i := Load(h.state, v.event.tid);
    if i.Some? { assert TxnOk(h, h.state.entries[i.value]); }
  }

  /** A decision changes nothing. It fails unless it repeats its transaction, and is then denied unless it
      approves. */
  lemma DecisionVerdict(visits: seq<Visit>, v: Visit)
    requires v.event.Decide?
    ensures var h, r := Visited(visits), Step(v.cfg, Visited(visits).state, v.event);
            && r.state == h.state && r.login.None?
            && (v.event.tid.None? ==> r.reply == Failed("bad_request"))
            && (v.event.tid.Some? && (forall x <- h.state.entries :: x.key != v.event.tid.value) ==>
                  r.reply == Failed("forbidden"))
            && forall x <- h.state.entries | v.event.tid == Some(x.key) ::
                 && (r.reply == Failed("forbidden") <==> !Repeats(h, v.event, x))
                 && (r.reply == Denied <==> Repeats(h, v.event, x) && !v.event.approve)
                 && (r.reply.Granted? <==>
                       Repeats(h, v.event, x) && v.event.approve && Answerable(v.cfg, x.txn.req.kind))
  {
    var h := Visited(visits);
    VisitedInv(visits);
    LookupIsUnique(h, v.event.tid);
    var i := Load(h.state, v.event.tid);
    if i.Some? { assert TxnOk(h, h.state.entries[i.value]); }
  }

  // ---- Attempts to log in --------------------------------------------------------------------------------

  predicate Succeeding(name: Option<string>, verified: bool) { name.Some? && verified }

  /** A failing login by the form of this transaction. */
  predicate FailsForm(v: Visit, x: Entry) {
    && v.event.Login? && v.cfg.extraction.LoginForm? && v.event.tid == Some(x.key)
    && !Succeeding(v.event.name, v.event.verified)
  }

  /** A failing login without the form: with the request itself, or on the return from elsewhere. */
  predicate FailsElsewhere(v: Visit, x: Entry) {
    || (&& v.event.Return? && v.cfg.extraction.RedirectLogin? && v.event.tid == Some(x.key)
        && !v.event.error && v.event.complete && !Succeeding(v.event.name, v.event.verified))
    || (&& Acceptable(v) && v.cfg.extraction.BasicAuth? && v.event.uri.Some? && Makes(v, x.txn.req)
        && !Succeeding(v.event.name, v.event.verified))
  }

  /** How often the form of this transaction was failed since it was filed or a login failed elsewhere. */
  function Attempts(visits: seq<Visit>, tid: Uid): nat {
    if visits == [] then 0
    else
      var front, v := visits[..|visits| - 1], visits[|visits| - 1];
      var entries := Visited(front).state.entries;
      if exists x <- entries :: x.key == tid && FailsForm(v, x) then Attempts(front, tid) + 1
      else if exists x <- entries :: x.key == tid && FailsElsewhere(v, x) then 0
      else if exists x <- entries :: x.key == tid then Attempts(front, tid)
      else 0
  }

  lemma {:induction false} OneMoreVisit(h: History, visits: seq<Visit>, v: Visit)
    ensures ExtendAll(h, visits + [v]) == Extend(ExtendAll(h, visits), v)
    decreases |visits|
  {
    if visits == [] {
      assert visits + [v] == [v] && [v][1..] == [];
    } else {
      assert (visits + [v])[1..] == visits[1..] + [v];
      OneMoreVisit(Extend(h, visits[0]), visits[1..], v);
    }
  }

  /** What a visit makes of the attempts of transaction x. */
  function Recount(v: Visit, x: Entry, count: nat): nat {
    if FailsForm(v, x) then count + 1 else if FailsElsewhere(v, x) then 0 else count
  }

  predicate SameCounts(s: State, t: State) {
    |s.entries| == |t.entries|
    && forall i | 0 <= i < |s.entries| :: s.entries[i].txn.loginCount == t.entries[i].txn.loginCount
  }

  lemma ShowLoginCounts(cfg: FlowConfig, s: State, i: nat)
    requires i < |s.entries|
    ensures SameCounts(s, ShowLogin(cfg, s, i).state)
  {
    if s.entries[i].txn.logined == Some(true) { AfterLoginKeeps(cfg, s, i, None); }
  }

  lemma MarkedCounts(cfg: FlowConfig, s: State, i: nat, name: string)
    requires i < |s.entries|
    ensures var t := s.entries[i].txn;
            SameCounts(s, AfterLogin(cfg, Update(s, i, MarkLogin(t, name)), i, Some(LoginMark(t.id, name))).state)
  {
    var t := s.entries[i].txn;
    AfterLoginKeeps(cfg, Update(s, i, MarkLogin(t, name)), i, Some(LoginMark(t.id, name)));
  }

  lemma LoginCounts(h: History, v: Visit, i: nat)
    requires Inv(h) && v.event.Login? && i < |h.state.entries|
    ensures var t := LoggedIn(v.cfg, h.state, v.event).state;
            && |t.entries| == |h.state.entries|
            && t.entries[i].txn.loginCount == Recount(v, h.state.entries[i], h.state.entries[i].txn.loginCount)
  {
    var e, s, found := v.event, h.state, Load(h.state, v.event.tid);
    LookupIsUnique(h, e.tid);
    assert s.entries[i] in s.entries;
    if !v.cfg.extraction.LoginForm? || found.None? {
      IgnoredLogin(v.cfg, h, e);
    } else if Succeeds(e.name, e.verified) {
      LoginSucceeded(v.cfg, s, e, found.value);
      MarkedCounts(v.cfg, s, found.value, e.name.value);
    } else {
      var t := s.entries[found.value].txn;
      LoginFailed(v.cfg, s, e, found.value);
      ShowLoginCounts(v.cfg, Update(s, found.value, t.(loginCount := t.loginCount + 1)), found.value);
    }
  }

  lemma ReturnCounts(h: History, v: Visit, i: nat)
    requires Inv(h) && v.event.Return? && i < |h.state.entries|
    ensures var t := Returned(v.cfg, h.state, v.event).state;
            && |t.entries| == |h.state.entries|
            && t.entries[i].txn.loginCount == Recount(v, h.state.entries[i], h.state.entries[i].txn.loginCount)
  {
    LookupIsUnique(h, v.event.tid);
    assert h.state.entries[i] in h.state.entries;
  }

  /** The resolved entry is the one with this very request, if there is one. */
  lemma ResolveCounts(h: History, v: Visit)
    requires Inv(h) && v.event.Authorize? && AuthorizeError(v.cfg, v.event).None? && Acceptable(v)
    ensures var (t, k) := Resolve(v.cfg, h.state, v.event);
            && |h.state.entries| <= |t.entries|
            && (forall i | 0 <= i < |t.entries| ::
                  t.entries[i].txn.loginCount == if i < |h.state.entries| then h.state.entries[i].txn.loginCount else 0)
            && (forall i: nat | i < |h.state.entries| ::
                  i == k <==> v.event.uri.Some? && Makes(v, h.state.entries[i].txn.req))
            && (|h.state.entries| < |t.entries| ==> k == |h.state.entries|)
  {
    var request := NewRequest(v.cfg, v.event);
    AcceptedIsAcceptable(v);
    if v.event.uri.None? { StoredRequestsAreDefined(h, request); }
    else { assert forall r: AzRequest :: Makes(v, r) <==> r == request; }
  }

  lemma StartedCounts(s: State, v: Visit)
    requires v.event.Authorize? && AuthorizeError(v.cfg, v.event).None?
    ensures var (t, k) := Resolve(v.cfg, s, v.event);
            var u := Started(v.cfg, s, v.event).state;
            && |u.entries| == |t.entries|
            && forall i | 0 <= i < |t.entries| ::
                 u.entries[i].txn.loginCount ==
                   if i == k && v.cfg.extraction.BasicAuth? && !Succeeding(v.event.name, v.event.verified) then 0
                   else t.entries[i].txn.loginCount
  {
    var e := v.event;
    var (t, k) := Resolve(v.cfg, s, e);
    match v.cfg.extraction
    case BasicAuth => if Succeeds(e.name, e.verified) { MarkedCounts(v.cfg, t, k, e.name.value); }
    case LoginForm => ShowLoginCounts(v.cfg, t, k);
    case RedirectLogin =>
    case NoExtraction => AfterLoginKeeps(v.cfg, t, k, None);
  }

  /** What one visit does to the attempts of each transaction. */
  lemma StepCounts(h: History, v: Visit, i: nat)
    requires Inv(h) && i < |Step(v.cfg, h.state, v.event).state.entries|
    ensures Step(v.cfg, h.state, v.event).state.entries[i].txn.loginCount
         == if i >= |h.state.entries| then 0
            else Recount(v, h.state.entries[i], h.state.entries[i].txn.loginCount)
  {
    match v.event
    case Authorize(_, _, _, _, _, _, _, _) =>
      AcceptedIsAcceptable(v);
      if Acceptable(v) {
        ResolveCounts(h, v);
        StartedCounts(h.state, v);
      }
    case Login(_, _, _) =>
      LoggedInKeepsEntries(v.cfg, h.state, v.event);
      LoginCounts(h, v, i);
    case Return(_, _, _, _, _) =>
      StepPreserves(h.state, v);
      ReturnCounts(h, v, i);
    case Decide(_, _, _, _, _, _, _) =>
  }

  lemma AttemptsUnfold(front: seq<Visit>, v: Visit, tid: Uid)
    ensures var entries := Visited(front).state.entries;
            && (forall x <- entries | x.key == tid :: Attempts(front + [v], tid) == Recount(v, x, Attempts(front, tid)))
            && ((forall x <- entries :: x.key != tid) ==> Attempts(front + [v], tid) == 0)
  {
    assert (front + [v])[..|front|] == front;
    VisitedInv(front);
    var entries := Visited(front).state.entries;
    forall x, y | x in entries && y in entries && x.key == tid && y.key == tid ensures x == y {}
  }

  /** In every session each transaction counts the attempts at its form. */
  lemma {:induction false} AttemptsAreCounted(visits: seq<Visit>, i: nat)
    requires i < |Visited(visits).state.entries|
    ensures Visited(visits).state.entries[i].txn.loginCount == Attempts(visits, Visited(visits).state.entries[i].key)
  {
    if visits != [] {
      var front, v := visits[..|visits| - 1], visits[|visits| - 1];
      var before, after := Visited(front).state.entries, Visited(visits).state.entries;
      assert visits == front + [v];
      OneMoreVisit(NEW_HISTORY, front, v);
      VisitedInv(front);
      VisitedInv(visits);
      StepCounts(Visited(front), v, i);
      StepKeepsEntries(v.cfg, Visited(front).state, v.event);
      AttemptsUnfold(front, v, after[i].key);
      if i < |before| {
        AttemptsAreCounted(front, i);
        assert before[i] in before && before[i].key == after[i].key;
      } else {
        KeysBefore(before, after, i);
      }
    }
  }

  lemma KeysBefore(before: seq<Entry>, after: seq<Entry>, i: nat)
    requires |before| <= i < |after| && forall j | 0 <= j < |before| :: before[j].key == after[j].key
    requires forall j, k | 0 <= j < k < |after| :: after[j].key != after[k].key
    ensures forall x <- before :: x.key != after[i].key
  {
    forall x | x in before ensures x.key != after[i].key {
      var j :| 0 <= j < |before| && before[j] == x;
    }
  }
}
