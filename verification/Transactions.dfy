/** The authorization endpoint's transactions: authorize, log in, consent, respond. They live
    in the user's session, filed under their identifiers. */
module Transactions {
  import opened Options
  import opened OAuthData
  import Lifecycle
  import Text

  datatype IdExtraction = BasicAuth | LoginForm | RedirectLogin | NoExtraction
  datatype Consent = Authenticated | ConsentForm | NoConsent

  datatype FlowConfig = FlowConfig(
    apiId: string, extraction: IdExtraction, consent: Consent, code: bool, token: bool, scopes: seq<string>)

  /** A field of a stored request. Storing a session drops undefined fields. */
  datatype Field = Absent | Undefined | Value(text: string)

  datatype AzRequest = AzRequest(
    kind: string, clientId: string, redirectURI: Field, scope: seq<string>, apiId: string, state: Option<string>)

  datatype Txn = Txn(
    id: Uid, clientId: string, logined: Option<bool>, loginCount: nat, user: Option<string>,
    redirectURI: string, req: AzRequest)

  datatype Entry = Entry(key: Uid, txn: Txn)

  /** The transactions in the order they were filed, and the identifiers drawn so far. */
  datatype State = State(entries: seq<Entry>, drawn: Uid)

  /** What the datastore knows about a client; its redirect address need not be registered. */
  datatype Client = Client(id: string, redirection: Option<string>)
  {
    /** What a stated address must start with: an absent one is searched for by its name. */
    function Prefix(): string { if redirection.Some? then redirection.value else "undefined" }
  }

  datatype FlowEvent =
    | Authorize(kind: string, clientId: string, uri: Option<string>, scope: Option<string>, state: Option<string>,
                client: Option<Client>, name: Option<string>, verified: bool)
    | Login(tid: Option<Uid>, name: Option<string>, verified: bool)
    | Return(tid: Option<Uid>, error: bool, complete: bool, name: Option<string>, verified: bool)
    | Decide(tid: Option<Uid>, owner: string, seenUri: string, seenScope: string, seenClient: string,
             approve: bool, selected: seq<string>)

  datatype Reply = Failed(error: string) | Page | Denied | Passed | Granted(grant: Request)

  /** A successful authentication in a transaction. */
  datatype LoginMark = LoginMark(tid: Uid, user: string)

  datatype Result = Result(state: State, login: Option<LoginMark>, reply: Reply)

  // ---- Lookup ---------------------------------------------------------------------

  /** The first entry filed under this identifier. */
  function Lookup(entries: seq<Entry>, tid: Uid): (r: Option<nat>)
    ensures r.Some? ==> r.value < |entries| && entries[r.value].key == tid
    ensures r.None? ==> forall e <- entries :: e.key != tid
  {
    if entries == [] then None
    else if entries[0].key == tid then Some(0)
    else
      var r := Lookup(entries[1..], tid);
      if r.Some? then Some(r.value + 1) else None
  }

  /** The first transaction with this request. */
  function Search(entries: seq<Entry>, req: AzRequest): (r: Option<nat>)
    ensures r.Some? ==> r.value < |entries| && entries[r.value].txn.req == req
    ensures r.None? ==> forall e <- entries :: e.txn.req != req
  {
    if entries == [] then None
    else if entries[0].txn.req == req then Some(0)
    else
      var r := Search(entries[1..], req);
      if r.Some? then Some(r.value + 1) else None
  }

  function Update(s: State, i: nat, t: Txn): State
    requires i < |s.entries|
  { s.(entries := s.entries[i := s.entries[i].(txn := t)]) }

  // ---- The handlers ---------------------------------------------------------------

  /** Issue the grant that the transaction's response type asks for. */
  function Respond(cfg: FlowConfig, s: State, t: Txn, login: Option<LoginMark>, scope: seq<string>): Result {
    if t.req.kind == "code" && cfg.code then
      if t.user.None? then Result(s, login, Failed("server_error"))
      else
        var uri := if t.req.redirectURI.Value? then Some(t.req.redirectURI.text) else None;
        Result(s, login, Granted(CodeGrant(cfg.apiId, t.clientId, t.user.value, scope, uri)))
    else if t.req.kind == "token" && cfg.token then
      if t.user.None? then Result(s, login, Failed("server_error"))
      else Result(s, login, Granted(ImplicitGrant(cfg.apiId, t.clientId, t.user.value, scope)))
    else Result(s, login, Passed)
  }

  /** The steps after the login: respond at once, show the consent form, or neither. */
  function AfterLogin(cfg: FlowConfig, s: State, i: nat, login: Option<LoginMark>): Result
    requires i < |s.entries|
  {
    var t := s.entries[i].txn;
    match cfg.consent
    case Authenticated =>
      if t.logined == Some(true) then Respond(cfg, s, t, login, t.req.scope)
      else Result(s, login, Failed("unauthorized_client"))
    case ConsentForm =>
      if t.user.None? then Result(s, login, Failed("server_error")) else Result(s, login, Page)
    case NoConsent => Result(s, login, Passed)
  }

  predicate Succeeds(name: Option<string>, verified: bool) { name.Some? && verified }

  function MarkLogin(t: Txn, name: string): Txn { t.(user := Some(name), logined := Some(true)) }

  /** A form that asks for a login unless there was one. */
  function ShowLogin(cfg: FlowConfig, s: State, i: nat): Result
    requires i < |s.entries|
  {
    var t := s.entries[i].txn;
    if t.logined == Some(true) then AfterLogin(cfg, s, i, None)
    else Result(Update(s, i, t.(logined := Some(false))), None, Page)
  }

  function NewRequest(cfg: FlowConfig, e: FlowEvent): AzRequest
    requires e.Authorize? && e.scope.Some?
  {
    AzRequest(e.kind, e.clientId, if e.uri.Some? then Value(e.uri.value) else Undefined,
              Text.Split(e.scope.value, ' '), cfg.apiId, e.state)
  }

  /** The form in which a request is found in the session afterwards. */
  function Stored(r: AzRequest): AzRequest { if r.redirectURI.Undefined? then r.(redirectURI := Absent) else r }

  /** Where the response will be sent: to the stated address, else to the registered one. */
  function Destination(e: FlowEvent): string
    requires e.Authorize? && e.client.Some?
  {
    if e.uri.Some? && e.uri.value != "" then e.uri.value
    else if e.client.value.redirection.Some? then e.client.value.redirection.value else ""
  }

  function AuthorizeError(cfg: FlowConfig, e: FlowEvent): Option<string>
    requires e.Authorize?
  {
    if e.kind == "" || e.clientId == "" then Some("invalid_request")
    else if e.client.None? then Some("invalid_client")
    else if Destination(e) == "" || !(e.client.value.Prefix() <= Destination(e)) then Some("invalid_request")
    else if !(e.kind == "code" && cfg.code) && !(e.kind == "token" && cfg.token) then Some("unauthorized_client")
    else if e.scope.None? || e.scope.value == "" then Some("invalid_request")
    else if !Lifecycle.Covers(cfg.scopes, Text.Split(e.scope.value, ' ')) then Some("invalid_scope")
    else None
  }

  /** Find the transaction of an equal request or file a new one; either way its destination
      is the one of this request. */
  function Resolve(cfg: FlowConfig, s: State, e: FlowEvent): (r: (State, nat))
    requires e.Authorize? && AuthorizeError(cfg, e).None?
    ensures r.1 < |r.0.entries|
  {
    var found := Search(s.entries, NewRequest(cfg, e));
    match found
    case Some(i) => (Update(s, i, s.entries[i].txn.(redirectURI := Destination(e))), i)
    case None =>
      var t := Txn(s.drawn, e.client.value.id, None, 0, None, Destination(e), Stored(NewRequest(cfg, e)));
      (State(s.entries + [Entry(s.drawn, t)], s.drawn + 1), |s.entries|)
  }

  function Started(cfg: FlowConfig, s: State, e: FlowEvent): Result
    requires e.Authorize?
  {
    var error := AuthorizeError(cfg, e);
    if error.Some? then Result(s, None, Failed(error.value))
    else
      var (v, i) := Resolve(cfg, s, e);
      var t := v.entries[i].txn;
      match cfg.extraction
      case BasicAuth =>
        if Succeeds(e.name, e.verified) then
          AfterLogin(cfg, Update(v, i, MarkLogin(t, e.name.value)), i, Some(LoginMark(t.id, e.name.value)))
        else Result(Update(v, i, t.(loginCount := 0)), None, Failed("authentication_error"))
      case LoginForm => ShowLogin(cfg, v, i)
      case RedirectLogin => Result(v, None, Passed)
      case NoExtraction => AfterLogin(cfg, v, i, None)
  }

  function Load(s: State, tid: Option<Uid>): Option<nat> { if tid.None? then None else Lookup(s.entries, tid.value) }

  function LoadError(tid: Option<Uid>): string { if tid.None? then "bad_request" else "forbidden" }

  function LoggedIn(cfg: FlowConfig, s: State, e: FlowEvent): Result
    requires e.Login?
  {
    if !cfg.extraction.LoginForm? then
      // without a form no handler loads the transaction, and there may be no handler at all
      Result(s, None, if cfg.consent.NoConsent? then Passed else Failed("server_error"))
    else match Load(s, e.tid)
    case None => Result(s, None, Failed(LoadError(e.tid)))
    case Some(i) =>
      var t := s.entries[i].txn;
      if Succeeds(e.name, e.verified) then
        AfterLogin(cfg, Update(s, i, MarkLogin(t, e.name.value)), i, Some(LoginMark(t.id, e.name.value)))
      else ShowLogin(cfg, Update(s, i, t.(loginCount := t.loginCount + 1)), i)
  }

  /** Back from an external login page. */
  function Returned(cfg: FlowConfig, s: State, e: FlowEvent): Result
    requires e.Return?
  {
    if !cfg.extraction.RedirectLogin? then Result(s, None, Passed)
    else match Load(s, e.tid)
    case None => Result(s, None, Failed(LoadError(e.tid)))
    case Some(i) =>
      var t := s.entries[i].txn;
      if e.error then Result(s, None, Failed("unauthorized_client"))
      else if !e.complete then Result(s, None, Failed("invalid_request"))
      else if Succeeds(e.name, e.verified) then
        var v := MarkLogin(t, e.name.value);
        Respond(cfg, Update(s, i, v), v, Some(LoginMark(t.id, e.name.value)), v.req.scope)
      else Result(Update(s, i, t.(loginCount := 0)), None, Failed("authentication_error"))
  }

  /** The hidden fields of the consent form must repeat the transaction. */
  predicate Confirms(t: Txn, e: FlowEvent)
    requires e.Decide?
  {
    && t.user.Some? && t.user.value != "" && e.owner == t.user.value
    && e.seenUri == t.redirectURI && e.seenScope == Text.Join(t.req.scope, ' ') && e.seenClient == t.req.clientId
  }

  function Decided(cfg: FlowConfig, s: State, e: FlowEvent): Result
    requires e.Decide?
  {
    match Load(s, e.tid)
    case None => Result(s, None, Failed(LoadError(e.tid)))
    case Some(i) =>
      var t := s.entries[i].txn;
      if !Confirms(t, e) then Result(s, None, Failed("forbidden"))
      else if !e.approve then Result(s, None, Denied)
      else Respond(cfg, s, t, None, if e.selected != [] then e.selected else Text.Split(e.seenScope, ' '))
  }

  function Step(cfg: FlowConfig, s: State, e: FlowEvent): Result {
    match e
    case Authorize(_, _, _, _, _, _, _, _) => Started(cfg, s, e)
    case Login(_, _, _) => LoggedIn(cfg, s, e)
    case Return(_, _, _, _, _) => Returned(cfg, s, e)
    case Decide(_, _, _, _, _, _, _) => Decided(cfg, s, e)
  }

  // ---- Runs of a session ------------------------------------------------------------

  /** A request to one of the provider APIs that share the session. */
  datatype Visit = Visit(cfg: FlowConfig, event: FlowEvent)

  /** The session after some visits, and the logins that took place, latest last. */
  datatype History = History(state: State, logins: seq<LoginMark>)

  function Extended(h: History, r: Result): History {
    History(r.state, if r.login.Some? then h.logins + [r.login.value] else h.logins)
  }

  function Extend(h: History, v: Visit): History { Extended(h, Step(v.cfg, h.state, v.event)) }

  function ExtendAll(h: History, visits: seq<Visit>): History
    decreases |visits|
  {
    if visits == [] then h else ExtendAll(Extend(h, visits[0]), visits[1..])
  }

  const NEW_HISTORY := History(State([], 0), [])

  /** Who logged in last in this transaction. */
  function LastLogin(logins: seq<LoginMark>, tid: Uid): Option<string> {
    if logins == [] then None
    else if logins[|logins| - 1].tid == tid then Some(logins[|logins| - 1].user)
    else LastLogin(logins[..|logins| - 1], tid)
  }

  predicate TxnOk(h: History, e: Entry) {
    && e.key == e.txn.id && e.key < h.state.drawn
    && e.txn.user == LastLogin(h.logins, e.key)
    && (e.txn.logined == Some(true) <==> e.txn.user.Some?)
    && !e.txn.req.redirectURI.Undefined?
    && e.txn.req.scope != [] && (forall x <- e.txn.req.scope :: ' ' !in x)
  }

  predicate Inv(h: History) {
    && (forall i | 0 <= i < |h.state.entries| :: TxnOk(h, h.state.entries[i]))
    && (forall i, j | 0 <= i < j < |h.state.entries| :: h.state.entries[i].key != h.state.entries[j].key)
    && (forall i, j | 0 <= i < j < |h.state.entries| && h.state.entries[i].txn.req.redirectURI.Value?
          :: h.state.entries[i].txn.req != h.state.entries[j].txn.req)
    && (forall m <- h.logins :: m.tid < h.state.drawn)
  }

  // ---- The invariant is kept ----------------------------------------------------------

  lemma LastLoginExtend(logins: seq<LoginMark>, m: LoginMark, tid: Uid)
    ensures LastLogin(logins + [m], tid) == if m.tid == tid then Some(m.user) else LastLogin(logins, tid)
  {
    assert (logins + [m])[..|logins|] == logins;
  }

  lemma {:induction false} LastLoginFresh(logins: seq<LoginMark>, tid: Uid)
    requires forall m <- logins :: m.tid < tid
    ensures LastLogin(logins, tid).None?
  {
    if logins != [] { LastLoginFresh(logins[..|logins| - 1], tid); }
  }

  /** A change to one transaction that leaves its identity, its request and its login state. */
  predicate Harmless(t: Txn, u: Txn) {
    && u.id == t.id && u.req == t.req && u.user == t.user
    && (u.logined == Some(true) <==> t.logined == Some(true))
  }

  lemma UpdateKeepsInv(h: History, i: nat, u: Txn)
    requires Inv(h) && i < |h.state.entries| && Harmless(h.state.entries[i].txn, u)
    ensures Inv(h.(state := Update(h.state, i, u)))
  {}

  lemma LoginKeepsInv(h: History, i: nat, name: string)
    requires Inv(h) && i < |h.state.entries|
    ensures var t := h.state.entries[i].txn;
            Inv(History(Update(h.state, i, MarkLogin(t, name)), h.logins + [LoginMark(t.id, name)]))
  {
    var t := h.state.entries[i].txn;
    var m := LoginMark(t.id, name);
    var k := History(Update(h.state, i, MarkLogin(t, name)), h.logins + [m]);
    forall j | 0 <= j < |k.state.entries| ensures TxnOk(k, k.state.entries[j]) {
      assert TxnOk(h, h.state.entries[j]);
      LastLoginExtend(h.logins, m, k.state.entries[j].key);
    }
    assert TxnOk(h, h.state.entries[i]);
  }

  lemma ResolveKeepsInv(cfg: FlowConfig, h: History, e: FlowEvent)
    requires Inv(h) && e.Authorize? && AuthorizeError(cfg, e).None?
    ensures Inv(h.(state := Resolve(cfg, h.state, e).0))
    ensures var (v, i) := Resolve(cfg, h.state, e); v.entries[i].txn.req == Stored(NewRequest(cfg, e))
  {
    var found := Search(h.state.entries, NewRequest(cfg, e));
    if found.Some? {
      assert TxnOk(h, h.state.entries[found.value]);
      UpdateKeepsInv(h, found.value, h.state.entries[found.value].txn.(redirectURI := Destination(e)));
    } else {
      var k := h.(state := Resolve(cfg, h.state, e).0);
      LastLoginFresh(h.logins, h.state.drawn);
      forall j | 0 <= j < |k.state.entries| ensures TxnOk(k, k.state.entries[j]) {
        if j < |h.state.entries| { assert TxnOk(h, h.state.entries[j]); }
      }
    }
  }

  /** The steps after a login change no state. */
  lemma AfterLoginKeeps(cfg: FlowConfig, s: State, i: nat, login: Option<LoginMark>)
    requires i < |s.entries|
    ensures AfterLogin(cfg, s, i, login).state == s && AfterLogin(cfg, s, i, login).login == login
  {}

  lemma ShowLoginKeepsInv(cfg: FlowConfig, h: History, i: nat)
    requires Inv(h) && i < |h.state.entries|
    ensures Inv(Extended(h, ShowLogin(cfg, h.state, i)))
  {
    var t := h.state.entries[i].txn;
    if t.logined == Some(true) { AfterLoginKeeps(cfg, h.state, i, None); }
    else { UpdateKeepsInv(h, i, t.(logined := Some(false))); }
  }

  lemma AfterMarkKeepsInv(cfg: FlowConfig, h: History, i: nat, name: string)
    requires Inv(h) && i < |h.state.entries|
    ensures var t := h.state.entries[i].txn;
            Inv(Extended(h, AfterLogin(cfg, Update(h.state, i, MarkLogin(t, name)), i, Some(LoginMark(t.id, name)))))
  {
    var t := h.state.entries[i].txn;
    LoginKeepsInv(h, i, name);
    AfterLoginKeeps(cfg, Update(h.state, i, MarkLogin(t, name)), i, Some(LoginMark(t.id, name)));
  }

  lemma StartedKeepsInv(cfg: FlowConfig, h: History, e: FlowEvent)
    requires Inv(h) && e.Authorize?
    ensures Inv(Extended(h, Started(cfg, h.state, e)))
  {
    if AuthorizeError(cfg, e).None? {
      ResolveKeepsInv(cfg, h, e);
      var (v, i) := Resolve(cfg, h.state, e);
      var k, t := h.(state := v), v.entries[i].txn;
      match cfg.extraction
      case BasicAuth =>
        if Succeeds(e.name, e.verified) { AfterMarkKeepsInv(cfg, k, i, e.name.value); }
        else { UpdateKeepsInv(k, i, t.(loginCount := 0)); }
      case LoginForm => ShowLoginKeepsInv(cfg, k, i);
      case RedirectLogin =>
      case NoExtraction => AfterLoginKeeps(cfg, v, i, None);
    }
  }

  lemma FailedLoginKeepsInv(cfg: FlowConfig, h: History, i: nat)
    requires Inv(h) && i < |h.state.entries|
    ensures var t := h.state.entries[i].txn;
            Inv(Extended(h, ShowLogin(cfg, Update(h.state, i, t.(loginCount := t.loginCount + 1)), i)))
  {
    var t := h.state.entries[i].txn;
    var k := h.(state := Update(h.state, i, t.(loginCount := t.loginCount + 1)));
    UpdateKeepsInv(h, i, t.(loginCount := t.loginCount + 1));
    ShowLoginKeepsInv(cfg, k, i);
    assert Extended(h, ShowLogin(cfg, k.state, i)) == Extended(k, ShowLogin(cfg, k.state, i));
  }

  lemma LoginSucceeded(cfg: FlowConfig, s: State, e: FlowEvent, i: nat)
    requires e.Login? && cfg.extraction.LoginForm? && Load(s, e.tid) == Some(i) && Succeeds(e.name, e.verified)
    ensures i < |s.entries|
    ensures var t := s.entries[i].txn;
            LoggedIn(cfg, s, e)
            == AfterLogin(cfg, Update(s, i, MarkLogin(t, e.name.value)), i, Some(LoginMark(t.id, e.name.value)))
  {}

  lemma LoginFailed(cfg: FlowConfig, s: State, e: FlowEvent, i: nat)
    requires e.Login? && cfg.extraction.LoginForm? && Load(s, e.tid) == Some(i) && !Succeeds(e.name, e.verified)
    ensures i < |s.entries|
    ensures var t := s.entries[i].txn;
            LoggedIn(cfg, s, e) == ShowLogin(cfg, Update(s, i, t.(loginCount := t.loginCount + 1)), i)
  {}

  lemma SucceededKeepsInv(cfg: FlowConfig, h: History, e: FlowEvent, i: nat)
    requires Inv(h) && e.Login? && cfg.extraction.LoginForm? && Load(h.state, e.tid) == Some(i)
    requires Succeeds(e.name, e.verified)
    ensures Inv(Extended(h, LoggedIn(cfg, h.state, e)))
  {
    LoginSucceeded(cfg, h.state, e, i);
    AfterMarkKeepsInv(cfg, h, i, e.name.value);
  }

  lemma FailedKeepsInv(cfg: FlowConfig, h: History, e: FlowEvent, i: nat)
    requires Inv(h) && e.Login? && cfg.extraction.LoginForm? && Load(h.state, e.tid) == Some(i)
    requires !Succeeds(e.name, e.verified)
    ensures Inv(Extended(h, LoggedIn(cfg, h.state, e)))
  {
    LoginFailed(cfg, h.state, e, i);
    FailedLoginKeepsInv(cfg, h, i);
  }

  lemma IgnoredLogin(cfg: FlowConfig, h: History, e: FlowEvent)
    requires e.Login? && (!cfg.extraction.LoginForm? || Load(h.state, e.tid).None?)
    ensures Extended(h, LoggedIn(cfg, h.state, e)) == h
  {}

  lemma LoggedInKeepsInv(cfg: FlowConfig, h: History, e: FlowEvent)
    requires Inv(h) && e.Login?
    ensures Inv(Extended(h, LoggedIn(cfg, h.state, e)))
  {
    var found := Load(h.state, e.tid);
    if !cfg.extraction.LoginForm? || found.None? {
      IgnoredLogin(cfg, h, e);
    } else if Succeeds(e.name, e.verified) {
      SucceededKeepsInv(cfg, h, e, found.value);
    } else {
      FailedKeepsInv(cfg, h, e, found.value);
    }
  }

  lemma ReturnedKeepsInv(cfg: FlowConfig, h: History, e: FlowEvent)
    requires Inv(h) && e.Return?
    ensures Inv(Extended(h, Returned(cfg, h.state, e)))
  {
    var found := Load(h.state, e.tid);
    if cfg.extraction.RedirectLogin? && found.Some? && !e.error && e.complete {
      var t := h.state.entries[found.value].txn;
      if Succeeds(e.name, e.verified) { LoginKeepsInv(h, found.value, e.name.value); }
      else { UpdateKeepsInv(h, found.value, t.(loginCount := 0)); }
    }
  }

  lemma StepKeepsInv(cfg: FlowConfig, h: History, e: FlowEvent)
    requires Inv(h)
    ensures Inv(Extend(h, Visit(cfg, e)))
  {
    match e
    case Authorize(_, _, _, _, _, _, _, _) => StartedKeepsInv(cfg, h, e);
    case Login(_, _, _) => LoggedInKeepsInv(cfg, h, e);
    case Return(_, _, _, _, _) => ReturnedKeepsInv(cfg, h, e);
    case Decide(_, _, _, _, _, _, _) =>
  }

  lemma {:induction false} RunKeepsInv(h: History, visits: seq<Visit>)
    requires Inv(h)
    ensures Inv(ExtendAll(h, visits))
    decreases |visits|
  {
    if visits != [] {
      StepKeepsInv(visits[0].cfg, h, visits[0].event);
      RunKeepsInv(Extend(h, visits[0]), visits[1..]);
    }
  }

  function Visited(visits: seq<Visit>): History { ExtendAll(NEW_HISTORY, visits) }

  lemma VisitedInv(visits: seq<Visit>)
    ensures Inv(Visited(visits))
  {
    RunKeepsInv(NEW_HISTORY, visits);
  }

  // ---- Login before grant -------------------------------------------------------------

  /** The scopes that a transaction is granted: its own, or those selected at consent. */
  function GrantedScope(t: Txn, e: FlowEvent): seq<string> {
    if e.Decide? && e.selected != [] then e.selected else t.req.scope
  }

  /** The grant is of the kind, for the client and, if it is a code, with the address that this
      transaction's request states; it is for its user, and for the API that was visited. */
  predicate Answers(cfg: FlowConfig, t: Txn, scope: seq<string>, g: Request) {
    t.user.Some? &&
    ((t.req.kind == "code"
      && g == CodeGrant(cfg.apiId, t.clientId, t.user.value, scope,
                        if t.req.redirectURI.Value? then Some(t.req.redirectURI.text) else None))
     || (t.req.kind == "token" && g == ImplicitGrant(cfg.apiId, t.clientId, t.user.value, scope)))
  }

  lemma AfterLoginAnswers(cfg: FlowConfig, s: State, i: nat, login: Option<LoginMark>)
    requires i < |s.entries| && AfterLogin(cfg, s, i, login).reply.Granted?
    ensures Answers(cfg, s.entries[i].txn, s.entries[i].txn.req.scope, AfterLogin(cfg, s, i, login).reply.grant)
  {}

  /** Entry i of the resulting session has the transaction that a grant answers. */
  predicate AnsweredAt(cfg: FlowConfig, r: Result, e: FlowEvent, i: nat) {
    && r.reply.Granted? && i < |r.state.entries|
    && Answers(cfg, r.state.entries[i].txn, GrantedScope(r.state.entries[i].txn, e), r.reply.grant)
  }

  lemma MarkedAnswers(cfg: FlowConfig, s: State, i: nat, name: string, e: FlowEvent)
    requires i < |s.entries| && !e.Decide?
    ensures var t := s.entries[i].txn;
            var r := AfterLogin(cfg, Update(s, i, MarkLogin(t, name)), i, Some(LoginMark(t.id, name)));
            r.reply.Granted? ==> AnsweredAt(cfg, r, e, i)
  {
    var t := s.entries[i].txn;
    AfterLoginKeeps(cfg, Update(s, i, MarkLogin(t, name)), i, Some(LoginMark(t.id, name)));
  }

  lemma ShownAnswers(cfg: FlowConfig, s: State, i: nat, e: FlowEvent)
    requires i < |s.entries| && !e.Decide?
    ensures var r := ShowLogin(cfg, s, i); r.reply.Granted? ==> AnsweredAt(cfg, r, e, i)
  {
    AfterLoginKeeps(cfg, s, i, None);
  }

  lemma StartedAnswers(cfg: FlowConfig, s: State, e: FlowEvent)
    requires e.Authorize? && Started(cfg, s, e).reply.Granted?
    ensures AuthorizeError(cfg, e).None? && AnsweredAt(cfg, Started(cfg, s, e), e, Resolve(cfg, s, e).1)
  {
    var (v, i) := Resolve(cfg, s, e);
    match cfg.extraction
    case BasicAuth => MarkedAnswers(cfg, v, i, e.name.value, e);
    case LoginForm => ShownAnswers(cfg, v, i, e);
    case NoExtraction => AfterLoginAnswers(cfg, v, i, None); AfterLoginKeeps(cfg, v, i, None);
    case RedirectLogin =>
  }

  lemma LoggedInAnswers(cfg: FlowConfig, s: State, e: FlowEvent)
    requires e.Login? && LoggedIn(cfg, s, e).reply.Granted?
    ensures Load(s, e.tid).Some? && AnsweredAt(cfg, LoggedIn(cfg, s, e), e, Load(s, e.tid).value)
  {
    var i := Load(s, e.tid).value;
    var t := s.entries[i].txn;
    if Succeeds(e.name, e.verified) { MarkedAnswers(cfg, s, i, e.name.value, e); }
    else { ShownAnswers(cfg, Update(s, i, t.(loginCount := t.loginCount + 1)), i, e); }
  }

  lemma DecidedAnswers(cfg: FlowConfig, h: History, e: FlowEvent)
    requires Inv(h) && e.Decide? && Decided(cfg, h.state, e).reply.Granted?
    ensures Load(h.state, e.tid).Some? && AnsweredAt(cfg, Decided(cfg, h.state, e), e, Load(h.state, e.tid).value)
  {
    var i := Load(h.state, e.tid).value;
    assert TxnOk(h, h.state.entries[i]);
    Text.SplitJoin(h.state.entries[i].txn.req.scope, ' ');
  }

  /** The transaction that an event is about: the one it resolves to, or the one it names. */
  function Target(cfg: FlowConfig, s: State, e: FlowEvent): Option<nat> {
    match e
    case Authorize(_, _, _, _, _, _, _, _) => if AuthorizeError(cfg, e).None? then Some(Resolve(cfg, s, e).1) else None
    case Login(tid, _, _) => Load(s, tid)
    case Return(tid, _, _, _, _) => Load(s, tid)
    case Decide(tid, _, _, _, _, _, _) => Load(s, tid)
  }

  /** A grant answers the transaction that its event is about, in its state after the step. */
  lemma GrantAnswersTarget(cfg: FlowConfig, h: History, e: FlowEvent)
    requires Inv(h) && Step(cfg, h.state, e).reply.Granted?
    ensures Target(cfg, h.state, e).Some? && AnsweredAt(cfg, Step(cfg, h.state, e), e, Target(cfg, h.state, e).value)
  {
    match e
    case Authorize(_, _, _, _, _, _, _, _) => StartedAnswers(cfg, h.state, e);
    case Login(_, _, _) => LoggedInAnswers(cfg, h.state, e);
    case Return(_, _, _, _, _) =>
    case Decide(_, _, _, _, _, _, _) => DecidedAnswers(cfg, h, e);
  }

  /** The event names this transaction, or makes its request. */
  predicate IsAbout(cfg: FlowConfig, e: FlowEvent, t: Txn) {
    match e
    case Authorize(_, _, _, _, _, _, _, _) => AuthorizeError(cfg, e).None? && t.req == Stored(NewRequest(cfg, e))
    case Login(tid, _, _) => tid == Some(t.id)
    case Return(tid, _, _, _, _) => tid == Some(t.id)
    case Decide(tid, _, _, _, _, _, _) => tid == Some(t.id)
  }

  lemma TargetIsAbout(cfg: FlowConfig, h: History, e: FlowEvent)
    requires Inv(h) && Target(cfg, h.state, e).Some?
    ensures var i, entries := Target(cfg, h.state, e).value, Step(cfg, h.state, e).state.entries;
            i < |entries| && IsAbout(cfg, e, entries[i].txn)
  {
    StepKeepsInv(cfg, h, e);
    StepKeepsEntries(cfg, h.state, e);
    var k := Extend(h, Visit(cfg, e));
    var i := Target(cfg, h.state, e).value;
    if e.Authorize? {
      ResolveKeepsInv(cfg, h, e);
      StartedKeepsEntries(cfg, h.state, e);
    }
    assert TxnOk(k, k.state.entries[i]);
  }

  /** From session s, event e leads to h with grant g: the grant answers the event's own transaction,
      and names the user of the latest login in that transaction. */
  predicate FollowsLogin(cfg: FlowConfig, s: State, e: FlowEvent, h: History, g: Request) {
    && Target(cfg, s, e).Some? && Target(cfg, s, e).value < |h.state.entries|
    && var x := h.state.entries[Target(cfg, s, e).value];
    && x.key == x.txn.id && IsAbout(cfg, e, x.txn)
    && x.txn.user.Some? && LastLogin(h.logins, x.txn.id) == x.txn.user
    && Answers(cfg, x.txn, GrantedScope(x.txn, e), g)
  }

  /** In every session, with whatever forms and APIs, a grant is only given for a transaction
      in which somebody logged in, and it names the user of the latest login there. */
  lemma LoginBeforeGrant(visits: seq<Visit>, v: Visit)
    requires Step(v.cfg, Visited(visits).state, v.event).reply.Granted?
    ensures FollowsLogin(v.cfg, Visited(visits).state, v.event, Extend(Visited(visits), v),
                         Step(v.cfg, Visited(visits).state, v.event).reply.grant)
  {
    VisitedInv(visits);
    var h := Visited(visits);
    GrantAnswersTarget(v.cfg, h, v.event);
    TargetIsAbout(v.cfg, h, v.event);
    StepKeepsInv(v.cfg, h, v.event);
    assert TxnOk(Extend(h, v), Extend(h, v).state.entries[Target(v.cfg, h.state, v.event).value]);
  }

  /** The record of an issued code is that of the grant that asked for it. */
  lemma CodeIsGranted(cfgs: Lifecycle.Configs, s: Stores, e: Event)
    requires (e.request.CodeGrant? || e.request.ImplicitGrant?) && Lifecycle.Step(cfgs, s, e).response.CodeIssued?
    ensures e.request.CodeGrant? && e.request.api in cfgs
        && Lifecycle.Covers(cfgs[e.request.api].scopes, e.request.scope)
    ensures var o := Lifecycle.Step(cfgs, s, e);
            && o.response.code in o.stores.codes
            && var k := o.stores.codes[o.response.code];
            e.request == CodeGrant(k.apiId, k.appId, k.userId, k.scopes, k.redirectURI)
  {}

  /** The record of an implicitly granted token is that of its grant. */
  lemma TokenIsGranted(cfgs: Lifecycle.Configs, s: Stores, e: Event)
    requires e.request.ImplicitGrant? && Lifecycle.Step(cfgs, s, e).response.TokensIssued?
    ensures e.request.api in cfgs && Lifecycle.Covers(cfgs[e.request.api].scopes, e.request.scope)
    ensures var o := Lifecycle.Step(cfgs, s, e);
            && o.response.refresh.None? && o.response.access.jti in o.stores.access
            && var k := o.stores.access[o.response.access.jti];
            e.request == ImplicitGrant(k.apiId, k.appId, k.userId, k.scopes)
  {}

  lemma GrantsAreForAPI(visits: seq<Visit>, v: Visit)
    requires Step(v.cfg, Visited(visits).state, v.event).reply.Granted?
    ensures var g := Step(v.cfg, Visited(visits).state, v.event).reply.grant;
            (g.CodeGrant? || g.ImplicitGrant?) && g.api == v.cfg.apiId
  {
    LoginBeforeGrant(visits, v);
  }

  /** The event by which a visit's grant reaches the token server. */
  function GrantEvent(visits: seq<Visit>, v: Visit, now: Time, purges: Purges): Event
    requires Step(v.cfg, Visited(visits).state, v.event).reply.Granted?
  {
    Event(now, purges, Step(v.cfg, Visited(visits).state, v.event).reply.grant)
  }

  /** Carried through to the token server: the code it stores bears the user of the latest login in
      the visit's own transaction, that transaction's client and redirect address, and scopes that
      its API supports. */
  lemma CodesCarryTheLogin(visits: seq<Visit>, v: Visit, cfgs: Lifecycle.Configs, s: Stores, now: Time, purges: Purges)
    requires Step(v.cfg, Visited(visits).state, v.event).reply.Granted?
    ensures var o := Lifecycle.Step(cfgs, s, GrantEvent(visits, v, now, purges));
            var before, after := Visited(visits), Extend(Visited(visits), v);
            o.response.CodeIssued? ==>
              && v.cfg.apiId in cfgs && o.response.code in o.stores.codes
              && var k := o.stores.codes[o.response.code];
              && k.apiId == v.cfg.apiId && Lifecycle.Covers(cfgs[v.cfg.apiId].scopes, k.scopes)
              && FollowsLogin(v.cfg, before.state, v.event, after,
                  CodeGrant(k.apiId, k.appId, k.userId, k.scopes, k.redirectURI))
  {
    LoginBeforeGrant(visits, v);
    GrantsAreForAPI(visits, v);
    var e := GrantEvent(visits, v, now, purges);
    if Lifecycle.Step(cfgs, s, e).response.CodeIssued? { CodeIsGranted(cfgs, s, e); }
  }

  /** The same for an access token that the implicit grant issues. */
  lemma TokensCarryTheLogin(visits: seq<Visit>, v: Visit, cfgs: Lifecycle.Configs, s: Stores, now: Time, purges: Purges)
    requires Step(v.cfg, Visited(visits).state, v.event).reply.Granted?
    ensures var o := Lifecycle.Step(cfgs, s, GrantEvent(visits, v, now, purges));
            var before, after := Visited(visits), Extend(Visited(visits), v);
            o.response.TokensIssued? ==>
              && v.cfg.apiId in cfgs && o.response.refresh.None? && o.response.access.jti in o.stores.access
              && var k := o.stores.access[o.response.access.jti];
              && k.apiId == v.cfg.apiId && Lifecycle.Covers(cfgs[v.cfg.apiId].scopes, k.scopes)
              && FollowsLogin(v.cfg, before.state, v.event, after, ImplicitGrant(k.apiId, k.appId, k.userId, k.scopes))
  {
    LoginBeforeGrant(visits, v);
    GrantsAreForAPI(visits, v);
    var e := GrantEvent(visits, v, now, purges);
    if Lifecycle.Step(cfgs, s, e).response.TokensIssued? { TokenIsGranted(cfgs, s, e); }
  }

  // ---- Across APIs ------------------------------------------------------------------------

  /** Transactions are shared by all APIs of a session, and the API that one was filed for is not
      looked at again: a grant is for that API exactly when the event was sent there, as an
      authorization request always is. */
  lemma GrantsFollowTheVisit(visits: seq<Visit>, v: Visit)
    requires Step(v.cfg, Visited(visits).state, v.event).reply.Granted?
    ensures var s, after := Visited(visits).state, Extend(Visited(visits), v).state;
            && Target(v.cfg, s, v.event).Some? && Target(v.cfg, s, v.event).value < |after.entries|
            && var t, g := after.entries[Target(v.cfg, s, v.event).value].txn, Step(v.cfg, s, v.event).reply.grant;
            && (g.CodeGrant? || g.ImplicitGrant?)
            && (g.api == t.req.apiId <==> v.cfg.apiId == t.req.apiId)
            && (v.event.Authorize? ==> g.api == t.req.apiId)
  {
    LoginBeforeGrant(visits, v);
    GrantsAreForAPI(visits, v);
  }

  // ---- Consent ----------------------------------------------------------------------------

  /** At consent the scopes selected are not compared with those requested: the grant stays
      within the request exactly when the selection does. */
  lemma ConsentMayWiden(visits: seq<Visit>, v: Visit)
    requires v.event.Decide? && Step(v.cfg, Visited(visits).state, v.event).reply.Granted?
    ensures Load(Visited(visits).state, v.event.tid).Some?
    ensures var t := Visited(visits).state.entries[Load(Visited(visits).state, v.event.tid).value].txn;
            var g := Step(v.cfg, Visited(visits).state, v.event).reply.grant;
            && (g.CodeGrant? || g.ImplicitGrant?)
            && (Lifecycle.Covers(t.req.scope, g.scope) <==> Lifecycle.Covers(t.req.scope, v.event.selected))
  {
    VisitedInv(visits);
    DecidedAnswers(v.cfg, Visited(visits), v.event);
  }

  /** Where a consent form follows the login, every grant is the answer to an approval by the user
      who logged in last in the transaction. */
  lemma ConsentBeforeGrant(visits: seq<Visit>, v: Visit)
    requires v.cfg.consent.ConsentForm? && !v.cfg.extraction.RedirectLogin?
    requires Step(v.cfg, Visited(visits).state, v.event).reply.Granted?
    ensures v.event.Decide? && v.event.approve && v.event.tid.Some?
    ensures LastLogin(Visited(visits).logins, v.event.tid.value) == Some(v.event.owner)
    ensures Step(v.cfg, Visited(visits).state, v.event).reply.grant.userId == v.event.owner
  {
    var h, e := Visited(visits), v.event;
    VisitedInv(visits);
    GrantAnswersTarget(v.cfg, h, e);
    if e.Decide? {
      assert TxnOk(h, h.state.entries[Load(h.state, e.tid).value]);
    } else {
      NoGrantBeforeConsent(v.cfg, h.state, e);
    }
  }

  lemma NoGrantBeforeConsent(cfg: FlowConfig, s: State, e: FlowEvent)
    requires cfg.consent.ConsentForm? && !cfg.extraction.RedirectLogin? && !e.Decide?
    ensures !Step(cfg, s, e).reply.Granted?
  {}

  // ---- The session table ----------------------------------------------------------------

  /** Entries stay where they are, with their key and their request. */
  predicate Keeps(s: State, t: State) {
    && |s.entries| <= |t.entries|
    && forall i | 0 <= i < |s.entries| ::
         s.entries[i].key == t.entries[i].key && s.entries[i].txn.req == t.entries[i].txn.req
  }

  /** The transactions are the same, with the same requests, clients and destinations. */
  predicate Preserves(s: State, t: State) {
    && |s.entries| == |t.entries|
    && forall i | 0 <= i < |s.entries| ::
         s.entries[i].key == t.entries[i].key && SameOrder(s.entries[i].txn, t.entries[i].txn)
  }

  predicate SameOrder(t: Txn, u: Txn) {
    t.id == u.id && t.req == u.req && t.clientId == u.clientId && t.redirectURI == u.redirectURI
  }

  lemma UpdateKeepsEntries(s: State, i: nat, t: Txn)
    requires i < |s.entries| && SameOrder(s.entries[i].txn, t)
    ensures Preserves(s, Update(s, i, t))
  {}

  lemma ShowLoginKeepsEntries(cfg: FlowConfig, s: State, i: nat)
    requires i < |s.entries|
    ensures Preserves(s, ShowLogin(cfg, s, i).state)
  {
    var t := s.entries[i].txn;
    if t.logined == Some(true) { AfterLoginKeeps(cfg, s, i, None); }
    else { UpdateKeepsEntries(s, i, t.(logined := Some(false))); }
  }

  lemma MarkedKeepsEntries(cfg: FlowConfig, s: State, i: nat, name: string)
    requires i < |s.entries|
    ensures var t := s.entries[i].txn;
            Preserves(s, AfterLogin(cfg, Update(s, i, MarkLogin(t, name)), i, Some(LoginMark(t.id, name))).state)
  {
    var t := s.entries[i].txn;
    UpdateKeepsEntries(s, i, MarkLogin(t, name));
    AfterLoginKeeps(cfg, Update(s, i, MarkLogin(t, name)), i, Some(LoginMark(t.id, name)));
  }

  lemma FailedLoginKeepsEntries(cfg: FlowConfig, s: State, i: nat)
    requires i < |s.entries|
    ensures var t := s.entries[i].txn;
            Preserves(s, ShowLogin(cfg, Update(s, i, t.(loginCount := t.loginCount + 1)), i).state)
  {
    var t := s.entries[i].txn;
    var u := t.(loginCount := t.loginCount + 1);
    UpdateKeepsEntries(s, i, u);
    ShowLoginKeepsEntries(cfg, Update(s, i, u), i);
  }

  lemma SucceededKeepsEntries(cfg: FlowConfig, s: State, e: FlowEvent, i: nat)
    requires e.Login? && cfg.extraction.LoginForm? && Load(s, e.tid) == Some(i) && Succeeds(e.name, e.verified)
    ensures Preserves(s, LoggedIn(cfg, s, e).state)
  {
    LoginSucceeded(cfg, s, e, i);
    MarkedKeepsEntries(cfg, s, i, e.name.value);
  }

  lemma FailedKeepsEntries(cfg: FlowConfig, s: State, e: FlowEvent, i: nat)
    requires e.Login? && cfg.extraction.LoginForm? && Load(s, e.tid) == Some(i) && !Succeeds(e.name, e.verified)
    ensures Preserves(s, LoggedIn(cfg, s, e).state)
  {
    LoginFailed(cfg, s, e, i);
    FailedLoginKeepsEntries(cfg, s, i);
  }

  lemma LoggedInKeepsEntries(cfg: FlowConfig, s: State, e: FlowEvent)
    requires e.Login?
    ensures Preserves(s, LoggedIn(cfg, s, e).state)
  {
    var found := Load(s, e.tid);
    if cfg.extraction.LoginForm? && found.Some? {
      if Succeeds(e.name, e.verified) { SucceededKeepsEntries(cfg, s, e, found.value); }
      else { FailedKeepsEntries(cfg, s, e, found.value); }
    } else {
      IgnoredLogin(cfg, History(s, []), e);
    }
  }

  lemma ResolveKeepsEntries(cfg: FlowConfig, s: State, e: FlowEvent)
    requires e.Authorize? && AuthorizeError(cfg, e).None?
    ensures Keeps(s, Resolve(cfg, s, e).0)
  {}

  /** What the authorization handlers do after resolving leaves the resolved entry in place. */
  lemma StartedKeepsEntries(cfg: FlowConfig, s: State, e: FlowEvent)
    requires e.Authorize? && AuthorizeError(cfg, e).None?
    ensures Keeps(s, Resolve(cfg, s, e).0) && Preserves(Resolve(cfg, s, e).0, Started(cfg, s, e).state)
  {
    ResolveKeepsEntries(cfg, s, e);
    var (v, i) := Resolve(cfg, s, e);
    var t := v.entries[i].txn;
    match cfg.extraction
    case BasicAuth =>
      if Succeeds(e.name, e.verified) { MarkedKeepsEntries(cfg, v, i, e.name.value); }
      else { UpdateKeepsEntries(v, i, t.(loginCount := 0)); }
    case LoginForm => ShowLoginKeepsEntries(cfg, v, i);
    case RedirectLogin =>
    case NoExtraction => AfterLoginKeeps(cfg, v, i, None);
  }

  lemma StepKeepsEntries(cfg: FlowConfig, s: State, e: FlowEvent)
    ensures Keeps(s, Step(cfg, s, e).state)
  {
    match e
    case Authorize(_, _, _, _, _, _, _, _) =>
      if AuthorizeError(cfg, e).None? { StartedKeepsEntries(cfg, s, e); }
    case Login(_, _, _) => LoggedInKeepsEntries(cfg, s, e);
    case Return(_, _, _, _, _) =>
    case Decide(_, _, _, _, _, _, _) =>
  }

  lemma {:induction false} RunKeepsEntries(h: History, visits: seq<Visit>)
    ensures Keeps(h.state, ExtendAll(h, visits).state)
    decreases |visits|
  {
    if visits != [] {
      StepKeepsEntries(visits[0].cfg, h.state, visits[0].event);
      RunKeepsEntries(Extend(h, visits[0]), visits[1..]);
    }
  }

  /** A request with an undefined redirect address equals no stored one. */
  lemma StoredRequestsAreDefined(h: History, r: AzRequest)
    requires Inv(h) && r.redirectURI.Undefined?
    ensures Search(h.state.entries, r).None?
  {
    var found := Search(h.state.entries, r);
    assert found.Some? ==> TxnOk(h, h.state.entries[found.value]);
  }

  /** The two requests agree in everything by which a transaction is found. */
  predicate SameRequest(cfg: FlowConfig, e: FlowEvent, cfg': FlowConfig, e': FlowEvent)
    requires e.Authorize? && e'.Authorize? && e.scope.Some? && e'.scope.Some?
  {
    && cfg.apiId == cfg'.apiId && e.kind == e'.kind && e.clientId == e'.clientId && e.uri == e'.uri
    && e.state == e'.state && Text.Split(e.scope.value, ' ') == Text.Split(e'.scope.value, ' ')
  }

  /** However much later in the session, two authorization requests resolve to the same transaction
      exactly when they agree in API, type, client, scopes, state and a stated redirect address. */
  lemma SharedTransaction(before: seq<Visit>, cfg: FlowConfig, e: FlowEvent, later: seq<Visit>, cfg': FlowConfig,
                          e': FlowEvent)
    requires e.Authorize? && AuthorizeError(cfg, e).None? && e'.Authorize? && AuthorizeError(cfg', e').None?
    ensures var first := Resolve(cfg, Visited(before).state, e);
            var h := ExtendAll(Extend(Visited(before), Visit(cfg, e)), later);
            var again := Resolve(cfg', h.state, e');
            again.0.entries[again.1].key == first.0.entries[first.1].key
            <==> e.uri.Some? && SameRequest(cfg, e, cfg', e')
  {
    var h0 := Visited(before);
    VisitedInv(before);
    ResolveKeepsInv(cfg, h0, e);
    var (s1, i) := Resolve(cfg, h0.state, e);
    var h1 := Extend(h0, Visit(cfg, e));
    StartedKeepsEntries(cfg, h0.state, e);
    StepKeepsInv(cfg, h0, e);
    RunKeepsInv(h1, later);
    RunKeepsEntries(h1, later);
    var h2 := ExtendAll(h1, later);
    assert TxnOk(h2, h2.state.entries[i]);
    assert h2.state.entries[i].txn.req == Stored(NewRequest(cfg, e));
    FoundAgain(cfg', h2, e', i);
    assert Stored(NewRequest(cfg, e)) == NewRequest(cfg', e') <==> e.uri.Some? && SameRequest(cfg, e, cfg', e');
  }

  /** A request resolves to an entry of the session exactly when the entry has just this request. */
  lemma FoundAgain(cfg: FlowConfig, h: History, e: FlowEvent, i: nat)
    requires Inv(h) && e.Authorize? && AuthorizeError(cfg, e).None? && i < |h.state.entries|
    ensures var r := Resolve(cfg, h.state, e);
            r.0.entries[r.1].key == h.state.entries[i].key <==> h.state.entries[i].txn.req == NewRequest(cfg, e)
  {
    var found := Search(h.state.entries, NewRequest(cfg, e));
    assert TxnOk(h, h.state.entries[i]);
    if found.Some? { assert TxnOk(h, h.state.entries[found.value]); }
  }

  /** Repeating an authorization request, however much later in the session, resolves to the
      same transaction exactly when the request states its redirect address. */
  lemma RepeatedRequest(before: seq<Visit>, cfg: FlowConfig, e: FlowEvent, later: seq<Visit>)
    requires e.Authorize? && AuthorizeError(cfg, e).None?
    ensures var first := Resolve(cfg, Visited(before).state, e);
            var h := ExtendAll(Extend(Visited(before), Visit(cfg, e)), later);
            var again := Resolve(cfg, h.state, e);
            again.0.entries[again.1].key == first.0.entries[first.1].key <==> e.uri.Some?
  {
    SharedTransaction(before, cfg, e, later, cfg, e);
  }
}
