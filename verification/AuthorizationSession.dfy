/** The authorization middlewares over one user's session, updating its transactions in place. */
module AuthorizationSession {
  import opened Options
  import opened OAuthData
  import opened Transactions
  import Lifecycle
  import Text

  lemma {:induction false} SearchIsFirst(entries: seq<Entry>, req: AzRequest, k: nat)
    requires k < |entries| && entries[k].txn.req == req
    requires forall j | 0 <= j < k :: entries[j].txn.req != req
    ensures Search(entries, req) == Some(k)
  {
    if k > 0 {
      assert entries[0].txn.req != req;
      SearchIsFirst(entries[1..], req, k - 1);
    }
  }

  lemma {:induction false} LookupIsFirst(entries: seq<Entry>, tid: Uid, k: nat)
    requires k < |entries| && entries[k].key == tid
    requires forall j | 0 <= j < k :: entries[j].key != tid
    ensures Lookup(entries, tid) == Some(k)
  {
    if k > 0 {
      assert entries[0].key != tid;
      LookupIsFirst(entries[1..], tid, k - 1);
    }
  }

  class Session {
    var entries: seq<Entry>
    var drawn: Uid

    function View(): State
      reads this
    { State(entries, drawn) }

    constructor ()
      ensures View() == State([], 0)
    { entries, drawn := [], 0; }

    method SearchTxData(req: AzRequest) returns (i: Option<nat>)
      ensures i == Search(entries, req)
    {
      for k := 0 to |entries|
        invariant forall j | 0 <= j < k :: entries[j].txn.req != req
      {
        if entries[k].txn.req == req {
          SearchIsFirst(entries, req, k);
          return Some(k);
        }
      }
      return None;
    }

    /** File a new transaction; the session keeps its request without undefined fields. */
    method CreateTxData(req: AzRequest, client: Client, uri: string) returns (i: nat)
      modifies this
      ensures i == old(|entries|) && drawn == old(drawn) + 1
      ensures entries == old(entries) + [Entry(old(drawn), Txn(old(drawn), client.id, None, 0, None, uri, Stored(req)))]
    {
      i := |entries|;
      entries := entries + [Entry(drawn, Txn(drawn, client.id, None, 0, None, uri, Stored(req)))];
      drawn := drawn + 1;
    }

    method Put(i: nat, t: Txn)
      requires i < |entries|
      modifies this`entries
      ensures View() == Update(old(View()), i, t)
    { entries := entries[i := entries[i].(txn := t)]; }

    method LoadTransaction(tid: Option<Uid>) returns (i: Option<nat>)
      ensures i == Load(View(), tid)
    {
      if tid.None? { return None; }
      for k := 0 to |entries|
        invariant forall j | 0 <= j < k :: entries[j].key != tid.value
      {
        if entries[k].key == tid.value {
          LookupIsFirst(entries, tid.value, k);
          return Some(k);
        }
      }
      return None;
    }

    method Authorization(cfg: FlowConfig, e: FlowEvent) returns (error: Option<string>, i: nat)
      requires e.Authorize?
      modifies this
      ensures error == AuthorizeError(cfg, e)
      ensures error.Some? ==> View() == old(View())
      ensures error.None? ==> (View(), i) == Resolve(cfg, old(View()), e)
    {
      i := 0;
      if e.kind == "" || e.clientId == "" { return Some("invalid_request"), i; }
      if e.client.None? { return Some("invalid_client"), i; }
      var uri := if e.uri.Some? then e.uri.value else "";
      if uri == "" && e.client.value.redirection.Some? { uri := e.client.value.redirection.value; }
      if uri == "" { return Some("invalid_request"), i; }
      if !(e.client.value.Prefix() <= uri) { return Some("invalid_request"), i; }
      if !(e.kind == "code" && cfg.code) && !(e.kind == "token" && cfg.token) { return Some("unauthorized_client"), i; }
      if e.scope.None? || e.scope.value == "" { return Some("invalid_request"), i; }
      if !Lifecycle.Covers(cfg.scopes, Text.Split(e.scope.value, ' ')) { return Some("invalid_scope"), i; }
      var req := NewRequest(cfg, e);
      var found := SearchTxData(req);
      if found.None? {
        i := CreateTxData(req, e.client.value, uri);
      } else {
        i := found.value;
        Put(i, entries[i].txn.(redirectURI := uri));
      }
      error := None;
    }

    /** Record the user of a successful authentication. */
    method ExtractId(i: nat, name: Option<string>, verified: bool, rendersLogin: bool)
        returns (login: Option<LoginMark>)
      requires i < |entries|
      modifies this`entries
      ensures var t := old(entries)[i].txn;
              login == if Succeeds(name, verified) then Some(LoginMark(t.id, name.value)) else None
      ensures var t := old(entries)[i].txn;
              View() == Update(old(View()), i,
                               if Succeeds(name, verified) then MarkLogin(t, name.value)
                               else t.(loginCount := if rendersLogin then t.loginCount + 1 else 0))
    {
      var t := entries[i].txn;
      if name.Some? && verified {
        t := t.(user := name);
        t := t.(logined := Some(true));
        Put(i, t);
        return Some(LoginMark(t.id, name.value));
      }
      t := t.(loginCount := t.loginCount + 1);
      if !rendersLogin { t := t.(loginCount := 0); }
      Put(i, t);
      return None;
    }

    /** Ask for a login, or go on when there was one. */
    method RenderLogin(cfg: FlowConfig, i: nat) returns (reply: Reply)
      requires i < |entries|
      modifies this`entries
      ensures Result(View(), None, reply) == ShowLogin(cfg, old(View()), i)
    {
      var t := entries[i].txn;
      if t.logined == Some(true) {
        return AfterLogin(cfg, View(), i, None).reply;
      }
      if t.logined.None? { t := t.(logined := Some(false)); } else { assert !t.logined.value; }
      Put(i, t);
      reply := Page;
    }

    method HandleAuthorize(cfg: FlowConfig, e: FlowEvent) returns (login: Option<LoginMark>, reply: Reply)
      requires e.Authorize?
      modifies this
      ensures Result(View(), login, reply) == Started(cfg, old(View()), e)
    {
      var error, i := Authorization(cfg, e);
      if error.Some? { return None, Failed(error.value); }
      match cfg.extraction
      case BasicAuth =>
        login := ExtractId(i, e.name, e.verified, false);
        reply := if login.None? then Failed("authentication_error") else AfterLogin(cfg, View(), i, login).reply;
      case LoginForm =>
        login := None;
        reply := RenderLogin(cfg, i);
      case RedirectLogin => login, reply := None, Passed;
      case NoExtraction => login, reply := None, AfterLogin(cfg, View(), i, None).reply;
    }

    method HandleLogin(cfg: FlowConfig, e: FlowEvent) returns (login: Option<LoginMark>, reply: Reply)
      requires e.Login?
      modifies this
      ensures Result(View(), login, reply) == LoggedIn(cfg, old(View()), e)
    {
      if !cfg.extraction.LoginForm? { return None, if cfg.consent.NoConsent? then Passed else Failed("server_error"); }
      var found := LoadTransaction(e.tid);
      if found.None? { return None, Failed(LoadError(e.tid)); }
      login := ExtractId(found.value, e.name, e.verified, true);
      if login.None? {
        reply := RenderLogin(cfg, found.value);
      } else {
        reply := AfterLogin(cfg, View(), found.value, login).reply;
      }
    }

    method HandleReturn(cfg: FlowConfig, e: FlowEvent) returns (login: Option<LoginMark>, reply: Reply)
      requires e.Return?
      modifies this
      ensures Result(View(), login, reply) == Returned(cfg, old(View()), e)
    {
      if !cfg.extraction.RedirectLogin? { return None, Passed; }
      var found := LoadTransaction(e.tid);
      if found.None? { return None, Failed(LoadError(e.tid)); }
      if e.error { return None, Failed("unauthorized_client"); }
      if !e.complete { return None, Failed("invalid_request"); }
      login := ExtractId(found.value, e.name, e.verified, false);
      if login.None? { return None, Failed("authentication_error"); }
      var t := entries[found.value].txn;
      reply := Respond(cfg, View(), t, login, t.req.scope).reply;
    }

    method HandleDecision(cfg: FlowConfig, e: FlowEvent) returns (reply: Reply)
      requires e.Decide?
      ensures Result(View(), None, reply) == Decided(cfg, View(), e)
    {
      var found := LoadTransaction(e.tid);
      if found.None? { return Failed(LoadError(e.tid)); }
      var t := entries[found.value].txn;
      if t.user.None? || t.user.value == "" || e.owner != t.user.value || e.seenUri != t.redirectURI
         || e.seenScope != Text.Join(t.req.scope, ' ') || e.seenClient != t.req.clientId {
        return Failed("forbidden");
      }
      if !e.approve { return Denied; }
      var scope := Text.Split(e.seenScope, ' ');
      if e.selected != [] { scope := e.selected; }
      reply := Respond(cfg, View(), t, None, scope).reply;
    }

    /** One request to the authorization endpoint, as a step of the specification. */
    method Handle(cfg: FlowConfig, e: FlowEvent) returns (login: Option<LoginMark>, reply: Reply)
      modifies this
      ensures Result(View(), login, reply) == Step(cfg, old(View()), e)
    {
      match e
      case Authorize(_, _, _, _, _, _, _, _) => login, reply := HandleAuthorize(cfg, e);
      case Login(_, _, _) => login, reply := HandleLogin(cfg, e);
      case Return(_, _, _, _, _) => login, reply := HandleReturn(cfg, e);
      case Decide(_, _, _, _, _, _, _) =>
        login := None;
        reply := HandleDecision(cfg, e);
    }
  }
}
