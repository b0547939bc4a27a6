/** Runs in which the surprising cases happen: for each condition proved elsewhere to be exact, an
    input that meets it. */
module Occurrences {
  import opened Options
  import opened OAuthData
  import opened Lifecycle
  import PathMatching
  import Text
  import T = Transactions

  lemma OneWord(c: char)
    requires c != ' '
    ensures Text.Split([c], ' ') == [[c]]
  {
    Text.SplitWord([c], "", ' ');
  }

  // ---- A code at the instant it expires ---------------------------------------------------

  const CODES := map["api" := ApiConfig(["a", "b"], {AccessCode}, 0, None, "public")]
  const WITH_SECRET := ClientAuth(None, "app", Some("s"), Some(Credentials("app", "s")))
  const WITHOUT_SECRET := ClientAuth(None, "app", None, Some(Credentials("app", "s")))
  const CODE_GRANT := Event(1000, NO_PURGES, CodeGrant("api", "app", "joe", ["a"], None))

  function Redemption(purges: Purges): Event {
    Event(301000, purges, TokenRequest("api", WITH_SECRET, CodeCall(Some(0), None)))
  }

  /** Redeemed five minutes after its issue, to the millisecond, a code is accepted when the purge
      fails and refused when it succeeds. */
  lemma CodeAtExpiry()
    ensures var s := Run(CODES, EMPTY_STORES, [CODE_GRANT]).0;
            && Step(CODES, s, Redemption(NO_PURGES)).response.TokensIssued?
            && Step(CODES, s, Redemption(Purges(true, false, false))).response.Refused?
  {
    var first := Step(CODES, EMPTY_STORES, CODE_GRANT);
    var code := Code("api", "app", "joe", ["a"], None, 1000, 301000);
    assert first.stores == Stores(map[0 := code], map[], map[], 2);
    assert [CODE_GRANT][1..] == [];
    assert Run(CODES, EMPTY_STORES, [CODE_GRANT]).0 == first.stores;
    assert 0 !in Purge(first.stores, 301000, Purges(true, false, false)).codes;
  }

  /** A client named both in the header and in the parameters is refused, and so is a header without
      a secret; the code survives both and is redeemed afterwards. */
  lemma RefusedCodeSurvives(secret: Option<string>)
    ensures var s := Run(CODES, EMPTY_STORES, [CODE_GRANT]).0;
            var bodyId := if secret.Some? then "app" else "";
            var auth := ClientAuth(Some(AuthHeader("Basic", "app", secret)), bodyId, None, None);
            var o := Step(CODES, s, Event(2000, NO_PURGES, TokenRequest("api", auth, CodeCall(Some(0), None))));
            o.response.Refused? && Step(CODES, o.stores, Redemption(NO_PURGES)).response.TokensIssued?
  {
    CodeAtExpiry();
  }

  // ---- A refresh without authentication -----------------------------------------------------

  const CREDENTIALS := map["api" := ApiConfig(["a"], {Application}, 0, Some(RefreshConfig(0, 0)), "public")]
  const LIFETIME := 2682000000
  const ISSUE := Event(1000, NO_PURGES, TokenRequest("api", WITH_SECRET, ClientCall(Some("a"))))
  const FIRST := Jwt(2, "app", 1000, 1000 + LIFETIME, 3)
  const SECOND := Jwt(6, "app", 2000, 2000 + LIFETIME, 7)

  function RefreshAt(now: Time, auth: ClientAuth, t: Jwt): Event {
    Event(now, NO_PURGES, TokenRequest("api", auth, RefreshCall(Some(Some(t)), None)))
  }

  lemma Issued()
    ensures var s := Run(CREDENTIALS, EMPTY_STORES, [ISSUE]).0;
            && s.refresh == map[2 := Refresh("api", "app", "app", ["a"], Application, 3, 2048, 1000, 1000 + LIFETIME)]
            && s.uids == 4
  {
    OneWord('a');
    assert [ISSUE][1..] == [];
    assert Run(CREDENTIALS, EMPTY_STORES, [ISSUE]).0 == Step(CREDENTIALS, EMPTY_STORES, ISSUE).stores;
  }

  lemma Rotated()
    ensures var s := Run(CREDENTIALS, EMPTY_STORES, [ISSUE, RefreshAt(2000, WITH_SECRET, FIRST)]).0;
            s.refresh == map[6 := Refresh("api", "app", "app", ["a"], RefreshToken, 7, 2047, 2000, 2000 + LIFETIME)]
  {
    var e := RefreshAt(2000, WITH_SECRET, FIRST);
    var s := Run(CREDENTIALS, EMPTY_STORES, [ISSUE]).0;
    Issued();
    assert [ISSUE, e][1..] == [e] && [e][1..] == [] && [ISSUE][1..] == [];
    assert s == Step(CREDENTIALS, EMPTY_STORES, ISSUE).stores;
    assert Run(CREDENTIALS, EMPTY_STORES, [ISSUE, e]).0 == Run(CREDENTIALS, s, [e]).0 == Step(CREDENTIALS, s, e).stores;
  }

  /** The client credentials grant was made with the secret. Without it the first refresh token is
      refused; but once it was exchanged with the secret, its successor is accepted without. */
  lemma SuccessorNeedsNoSecret()
    ensures var s, t := Run(CREDENTIALS, EMPTY_STORES, [ISSUE]).0,
                        Run(CREDENTIALS, EMPTY_STORES, [ISSUE, RefreshAt(2000, WITH_SECRET, FIRST)]).0;
            && Step(CREDENTIALS, s, RefreshAt(2000, WITHOUT_SECRET, FIRST)).response.Refused?
            && Step(CREDENTIALS, t, RefreshAt(3000, WITHOUT_SECRET, SECOND)).response.TokensIssued?
  {
    Issued();
    Rotated();
    assert Covers(["a"], ["a"]);
  }

  // ---- A consent that widens the request ------------------------------------------------------

  const FLOW := T.FlowConfig("api", T.LoginForm, T.ConsentForm, true, true, ["a", "b"])
  const AUTHORIZE :=
    T.Authorize("code", "app", Some("u"), Some("a"), None, Some(T.Client("app", Some("u"))), None, false)
  const LOGIN := T.Login(Some(0), Some("joe"), true)
  const DECIDE := T.Decide(Some(0), "joe", "u", "a", "app", true, ["b"])
  const REQUEST := T.AzRequest("code", "app", T.Value("u"), ["a"], "api", None)

  lemma Asked()
    ensures T.Step(FLOW, T.NEW_HISTORY.state, AUTHORIZE).state
         == T.State([T.Entry(0, T.Txn(0, "app", Some(false), 0, None, "u", REQUEST))], 1)
  {
    OneWord('a');
    assert ["a", "b"][0] == "a";
    assert T.NewRequest(FLOW, AUTHORIZE) == REQUEST;
    assert T.AuthorizeError(FLOW, AUTHORIZE).None?;
  }

  lemma LoggedIn()
    ensures T.Visited([T.Visit(FLOW, AUTHORIZE), T.Visit(FLOW, LOGIN)]).state
         == T.State([T.Entry(0, T.Txn(0, "app", Some(true), 0, Some("joe"), "u", REQUEST))], 1)
  {
    Asked();
    var a, b := T.Visit(FLOW, AUTHORIZE), T.Visit(FLOW, LOGIN);
    assert [a, b][1..] == [b] && [b][1..] == [];
    var h := T.Extend(T.NEW_HISTORY, a);
    assert T.Visited([a, b]) == T.ExtendAll(h, [b]) == T.Extend(h, b);
  }

  /** The client asked for scope a; the code that is stored after the consent has scope b. */
  lemma ConsentWidens()
    ensures var grant := CodeGrant("api", "app", "joe", ["b"], Some("u"));
            var s := T.Visited([T.Visit(FLOW, AUTHORIZE), T.Visit(FLOW, LOGIN)]).state;
            && s.entries != [] && s.entries[0].txn.req.scope == ["a"]
            && T.Step(FLOW, s, DECIDE).reply == T.Granted(grant)
            && Step(CODES, EMPTY_STORES, Event(1000, NO_PURGES, grant)).stores.codes
               == map[0 := Code("api", "app", "joe", ["b"], Some("u"), 1000, 301000)]
  {
    LoggedIn();
    assert ["a", "b"][1] == "b";
    assert Covers(["a", "b"], ["b"]);
  }

  const OTHER := T.FlowConfig("other", T.LoginForm, T.Authenticated, true, true, ["a"])

  /** A transaction filed at an API with a consent form, in which joe has logged in, is answered at an
      API without one, by a login there that fails: the code is for the other API, and for joe. */
  lemma GrantAtAnotherAPI()
    ensures var s := T.Visited([T.Visit(FLOW, AUTHORIZE), T.Visit(FLOW, LOGIN)]).state;
            && s.entries != [] && s.entries[0].txn.req.apiId == "api"
            && T.Step(OTHER, s, T.Login(Some(0), Some("eve"), false)).reply
               == T.Granted(CodeGrant("other", "app", "joe", ["a"], Some("u")))
  {
    LoggedIn();
  }

  /** Asked twice in one session without a redirect address, the same request is filed twice. */
  lemma RequestIsFiledTwice()
    ensures var e := AUTHORIZE.(uri := None);
            |T.Visited([T.Visit(FLOW, e), T.Visit(FLOW, e)]).state.entries| == 2
  {
    var e := AUTHORIZE.(uri := None);
    var v := T.Visit(FLOW, e);
    OneWord('a');
    assert ["a", "b"][0] == "a";
    assert T.AuthorizeError(FLOW, e).None?;
    assert [v, v][1..] == [v] && [v][1..] == [];
    var h := T.Extend(T.NEW_HISTORY, v);
    assert T.Visited([v, v]) == T.ExtendAll(h, [v]) == T.Extend(h, v);
    T.StepKeepsInv(FLOW, T.NEW_HISTORY, e);
    T.StoredRequestsAreDefined(h, T.NewRequest(FLOW, e));
  }

  /** For a client that registered no address, the address "u" is refused and the address "undefined" is
      where the answer goes. */
  lemma UnregisteredAddress()
    ensures var client := Some(T.Client("app", None));
            var e, e' := AUTHORIZE.(client := client), AUTHORIZE.(client := client, uri := Some("undefined"));
            && T.Step(FLOW, T.NEW_HISTORY.state, e) == T.Result(T.NEW_HISTORY.state, None, T.Failed("invalid_request"))
            && var s := T.Step(FLOW, T.NEW_HISTORY.state, e').state;
               |s.entries| == 1 && s.entries[0].txn.redirectURI == "undefined"
  {
    var client := Some(T.Client("app", None));
    var e' := AUTHORIZE.(client := client, uri := Some("undefined"));
    OneWord('a');
    assert ["a", "b"][0] == "a";
    assert |"u"| < |"undefined"|;
    assert T.AuthorizeError(FLOW, e').None?;
  }

  // ---- Parameters that are never read ---------------------------------------------------------

  /** A last plus parameter without a value leaves the parameters unsettled. */
  method MissingListHangs(fold: char -> char, convert: (string, string) -> PathMatching.Conversion)
    returns (o: PathMatching.Outcome)
    ensures o == PathMatching.Hung
  {
    var params := [PathMatching.Elsewhere("+x", PathMatching.Done(PathMatching.Undefined))];
    assert PathMatching.IsList(params, 0);
    o := PathMatching.ParseParameters(fold, convert, "", "/", "/", params);
  }
}
