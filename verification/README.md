# Verified models of the API gateway

These Dafny modules model the parts of the gateway in which many pieces of state have to stay
consistent, and prove what those parts promise for all inputs, all runs or all interleavings.
`dafny verify dfyconfig.toml` checks everything.

**The OAuth 2.0 token life cycle** (RFC 6749, sections 4.1.2, 4.1.3 and 6; RFC 6750).
`Lifecycle.dfy` says, as functions, what each request does to the tables of codes, access tokens
and refresh tokens. `TokenStores.dfy` and `AuthorizationServer.dfy` are the stores, the
authorization server, the resource server and the pool as classes that change those tables in
place, each method proved against its function. `Lineage.dfy` keeps a ledger beside the tables,
in which every identifier points to the grant it descends from, and an invariant that every step
keeps. `TokenSafety.dfy`, `Exactness.dfy`, `Provenance.dfy`, `SingleUse.dfy`, `Purging.dfy` and
`RefreshChain.dfy` derive the results over whole runs: conservation, lifetime, rotation, that
whatever is accepted was issued, single use, revocation, the invisibility of purges and the exact
length of refresh chains. `Acceptance.dfy` says exactly which requests of a run are granted, and what
is stored for them, in terms of earlier answers, grants and configuration alone.

**The authorization transactions.** `Transactions.dfy` is the machine of authorize, log in,
consent and respond, shared by all provider APIs of a session; `AuthorizationSession.dfy` is the
session object that the middlewares update. No grant is given without a login in the same
transaction, and what the token server stores for the grant carries that login.
`AuthorizationRequests.dfy` says exactly which requests are filed and which events are granted, and
that answers only go to addresses that begin with the registered one. `Origins.dfy` puts
sessions, tokens and resources together: an admitted bearer token leads back to that login.

**Security evaluation and API selection.** `EvalSecurity.dfy` evaluates an OR of ANDs through
callbacks that may answer in any order. `Selection.dfy` is the matcher, the filter and the choice
of one API; its results hold for every interleaving of the evaluations.

**Path templates.** `PathTemplate.dfy` compiles a template by rewriting it in place;
`PathMatching.dfy` runs the result with a backtracking search and reads the parameters back.

**Smaller machines.** `Analytics.dfy` (the batching queue), `PolicyLoader.dfy` and
`SemanticVersions.dfy` (versions and defaults), `UnorderedList.dfy` (response types and the dispatch by them).

## Where the code surprises

The models follow the code. Where it does less than its comments, or than one would expect, the
exact condition is proved, and an input or a run is shown that meets it:

- The comment at lib/oauth2/az-server/index.js:526-527 says that every client must authenticate
  to refresh a client credentials grant. Rotated tokens are stored under another grant type, so
  this holds only for the first refresh token (`RefreshChain.SkippedAuthentication`,
  `Occurrences.SuccessorNeedsNoSecret`).
- Purging deletes what expires now, while the expiry checks still accept it at that instant
  (`Purging.PurgeMattersOnlyAtExpiry`, `Purging.PurgeMattersToCheckOnlyAtExpiry`,
  `Occurrences.CodeAtExpiry`). No later request can tell (`Purging.PurgeIsUnobservableLater`).
- Naming the client both in the header and in the parameters, or sending a Basic header without a
  secret, is refused but revokes nothing (`SingleUse.RejectionRevokes`,
  `Occurrences.RefusedCodeSurvives`).
- A stored session drops an undefined redirect address, so a request without one never finds its
  transaction again (`Transactions.RepeatedRequest`, `Occurrences.RequestIsFiledTwice`).
- A client without a registered address may only use addresses that begin with the word "undefined"
  (`AuthorizationRequests.AuthorizeVerdict`, `Occurrences.UnregisteredAddress`).
- The scopes selected at consent are compared with those of the server, not with those requested,
  so a consent can widen a request (`Transactions.ConsentMayWiden`, `Occurrences.ConsentWidens`).
- All APIs share the transactions of a session, and a loaded transaction is not compared with the
  API that answers it. A transaction filed at an API with a consent form can be answered at another
  API, whose code it then yields (`Transactions.GrantsFollowTheVisit`,
  `Occurrences.GrantAtAnotherAPI`).
- An undefined security scheme is only ever reported when no empty requirement comes before it
  (`EvalSecurity.ErrorsComeFromMissingDefinitions`, `EvalSecurity.EmptyRequirementHidesMissing`).
- A policy that fails to load keeps its version on record, which can leave the name without a
  default (`PolicyLoader.FailuresCanHideTheDefault`, `PolicyLoader.NamesWithoutDefault`,
  `PolicyLoader.FailedVersionLeavesNoDefault`).
- Defaults and versions of policies share one table, so a name that equals the name and version of
  another policy gets in its way (`PolicyLoader.GuardMeetsCollisions`,
  `PolicyLoader.PairsNeedClearNames`, `PolicyLoader.NameLikeAVersion`).
- Comparing a list of words with others is equality as bags of words exactly when its own words do
  not repeat (`UnorderedLists.EqualToIsPermutation`, `UnorderedLists.RepeatedWordsCompareOneWay`).
- A last plus parameter that is not a string, or a conversion that throws in its callback, leaves
  the promise of the parameters unsettled
  (`PathMatching.ParseParameters`, `Occurrences.MissingListHangs`).

## Model

| member | source | states |
|---|---|---|
| TokenSafety.Conservation | lib/oauth2/az-server/index.js:306-322 | In every reachable state, the tokens issued for a grant plus what its live code or refresh token still allows never exceed the limit (1 + refresh count), and equal it while a credential is live |
| Exactness.ExactConservation | lib/oauth2/az-server/index.js:306-322 | After every run, for every grant: tokens issued plus remaining potential equal the limit if and only if no request of the run purged or revoked that grant's own stored code or refresh token |
| Exactness.RunFunding | lib/oauth2/az-server/index.js:562-583 | Over every run a grant keeps a live credential until it is used up, if and only if none of its own credentials is purged or revoked |
| TokenSafety.LifetimeBound | lib/oauth2/resource-server/resource-server.js:125-129 | No bearer check, at any time after any run, admits a token past the horizon of its grant |
| TokenSafety.CodeLifetimeBound | lib/oauth2/az-server/index.js:220-226 | For a code issued at t0 that horizon is t0 + (300 + count * refresh lifetime + access lifetime) seconds |
| TokenSafety.RefreshExpiry | lib/oauth2/az-server/index.js:562-567 | A refresh token with count c expires early enough to leave room for c - 1 further lifetimes below the same bound |
| TokenSafety.RotationSafety | lib/oauth2/az-server/index.js:569-594 | A grant has at most one live access token and one live refresh token, linked to each other, and neither beside its live code |
| TokenSafety.GrantsOnlyNarrow | lib/oauth2/az-server/index.js:535-571 | Along a grant the API, client, user, limit and start stay the same over every run, and the scopes only shrink |
| TokenSafety.StoredRecordsMatchGrant | lib/oauth2/az-server/index.js:289-299 | Every stored code and token carries the API, client and user of its grant, and scopes that were granted and that the server supports |
| TokenSafety.StoredRecordsAreKnown | lib/oauth2/models/index.js:185-207 | Every stored record descends from exactly one recorded grant |
| TokenSafety.GrantsAreEnabled | lib/oauth2/az-server/index.js:235-508 | Every grant of every run is of a type that its API enables, only code grants leave codes, refresh tokens and renewed tokens exist only where the API enables refreshing, and each stored token carries the grant type by which it was issued |
| TokenSafety.RunCounts | lib/oauth2/az-server/index.js:560-571 | The number of issues recorded for a grant is the number of events of the run that issued tokens for it |
| TokenSafety.StepKeepsGrant | lib/oauth2/az-server/index.js:535-558 | One event changes neither which grant an identifier descends from nor whom it is for, and does not widen scopes |
| Lineage.RunKeepsInv | lib/oauth2/az-server/index.js:235-595 | The lineage invariant (counts, expiry bounds, links, scopes) holds after every run from empty stores |
| Lineage.StepKeepsInv | lib/oauth2/az-server/index.js:56-77 | Each single request, with whichever purges succeed, keeps that invariant |
| Lineage.IssueKeepsInv | lib/oauth2/az-server/index.js:306-322 | Issuing tokens for a grant without live records keeps it |
| Lineage.IsExpiredMeaning | lib/oauth2/oauth2-helper.js:35-46 | For a stored code, being expired is exactly being past its expiry |
| Provenance.RedeemedCodesWereGranted | lib/oauth2/az-server/index.js:282-323 | A code is redeemed only for an earlier grant of this run, at its API, by the client and with the redirect address of that grant, within five minutes of it; the tokens are for its user and scopes |
| Provenance.ExchangedTokensWereIssued | lib/oauth2/oauth2-helper.js:223-262 | An exchanged refresh token agrees in every field with one that an earlier answer of the run issued, and has not expired |
| Provenance.AdmittedTokensWereIssued | lib/oauth2/resource-server/resource-server.js:131-155 | An admitted bearer token agrees in every field with one that an earlier answer of the run issued, and has not expired |
| Provenance.RunKeepsWitnessed | lib/oauth2/models/index.js:158-207 | Over every run each stored record was issued by an answer of that run |
| Acceptance.BearerVerdict | lib/oauth2/resource-server/resource-server.js:125-182 | In every run a bearer token is admitted if and only if an earlier answer handed out exactly this token, it is still stored and not expired, the required scopes are within those of its grant, and no application other than that of its grant is stated; the user is that of the grant, any other token is invalid, and nothing changes |
| Acceptance.RefreshVerdict | lib/oauth2/az-server/index.js:513-595 | In every run a request of an authentic client to refresh is granted if and only if an earlier answer handed out exactly this refresh token, at this API to this client, it is still stored and not expired, every word of a scope parameter is among its scopes, and a client without its secret does not present the first token of a client credentials grant. The new tokens carry exactly the words asked for, else the scopes they had, the configured lifetimes and the count less one; the used pair goes and nothing else changes |
| Acceptance.CodeVerdict | lib/oauth2/az-server/index.js:278-325 | In every run a request of an authentic client to redeem a code is granted if and only if the grant type is enabled and, within five minutes, an event of the run granted this code at this API to this client with this redirect address, and it is still stored. The tokens are for the user and scopes of that event, with a full count; the code goes and nothing else changes |
| Acceptance.DirectVerdict | lib/oauth2/az-server/index.js:449-507 | In every run a password or client credentials request of an authentic client is granted if and only if its grant type is enabled, every word of its scope parameter is supported, and the user name and password are stated and verified. The tokens are for that user or the client itself, with exactly those scopes; nothing else changes |
| Acceptance.AuthorizationVerdict | lib/oauth2/az-server/index.js:235-357 | In every run a code or implicit grant is stored, for five minutes or the configured lifetime, if and only if its grant type is enabled and its scopes are supported; otherwise nothing changes and the error names which |
| Acceptance.AuthenticationIsExact | lib/oauth2/az-server/middleware/authentication.js:55-151 | A client authenticates if and only if it is known and states its identifier once and its secret with it, in a Basic header or in the parameters, or is public, asks for no client credentials grant and leaves the secret out |
| Acceptance.InauthenticVerdict | lib/oauth2/az-server/middleware/authentication.js:78-116 | Any other client is refused; exactly the code or refresh token that it presents is deleted, or nothing if it is named twice or its header lacks the secret |
| Acceptance.RefusalVerdict | lib/oauth2/az-server/index.js:278-595 | With which error a request of an authentic client is refused, in the order of the checks, over all grant types |
| Acceptance.InauthenticRefusal | lib/oauth2/az-server/middleware/authentication.js:78-151 | With which error an inauthentic client is refused |
| Acceptance.PurgedMeans | lib/oauth2/az-server/index.js:73-77 | A purge of a table removes exactly what expired by now from it |
| Acceptance.OtherVerdict | lib/oauth2/az-server/index.js:56-77 | A request to an API that is no provider changes nothing, any other visit to a provider only purges, and an unknown grant type is refused |
| Acceptance.RunKeepsAgreement | lib/oauth2/models/index.js:158-207 | Over every run, what is still stored under an identifier that an answer handed out is what that answer handed out |
| SingleUse.CodesAreSingleUse | lib/oauth2/az-server/index.js:315-323 | A code that was redeemed, or presented in a request refused at authentication, is never accepted again in any later state |
| SingleUse.RefreshTokensAreSingleUse | lib/oauth2/az-server/index.js:573-583 | The same for refresh tokens |
| SingleUse.RejectionRevokes | lib/oauth2/az-server/middleware/authentication.js:78-116 | A request refused at client authentication deletes the credential it presents, if its purge left it, if and only if it neither names the client twice nor sends a Basic header without a secret |
| Occurrences.RefusedCodeSurvives | lib/oauth2/az-server/middleware/authentication.js:88-99 | A code presented by a client named twice, or with a header that lacks the secret, is refused, survives and is redeemed afterwards |
| SingleUse.RotatedAccessIsRefused | lib/oauth2/models/index.js:126-132 | After a refresh token was exchanged, the access token issued with it is refused by the resource server forever |
| SingleUse.RunKeepsAbsent | lib/oauth2/models/index.js:185-207 | What is absent under an identifier already drawn stays absent over every run |
| Purging.PurgesAreUnobservable | lib/oauth2/az-server/index.js:73-77 | Over a whole run, answers with any pattern of successful purges, for each table by itself, are those without any, identifiers included, as long as no purge takes the record that a request presents at the instant of its expiry |
| Purging.PurgeIsUnobservableLater | lib/oauth2/az-server/index.js:73-77 | Purging any of the tables at time t changes no answer, token or identifier in any run of later requests, without further condition |
| Purging.RunHidesLater | lib/oauth2/models/index.js:281-292 | Stores that differ by records expired by t keep doing so over every run after t, and answer alike |
| Purging.PurgeMattersOnlyAtExpiry | lib/oauth2/models/index.js:228-239 | With any purges a token request is granted if and only if it is granted without and no purge takes its credential, which then expires at this very instant |
| Purging.MissedMeaning | lib/oauth2/models/index.js:281-292 | A purge takes the presented credential exactly when it purges that table and the credential expires at this instant |
| Purging.PurgeMattersToCheckOnlyAtExpiry | lib/oauth2/models/index.js:145-156 | A bearer check after purges at the same instant admits exactly what it admits without, unless access tokens are purged and the token expires at this instant |
| Occurrences.CodeAtExpiry | lib/oauth2/az-server/index.js:73-77 | A run in which a code is redeemed at the instant it expires when the purge fails, and refused when it succeeds |
| Purging.StepHides | lib/oauth2/models/index.js:281-292 | One event keeps purged and unpurged stores in the simulation relation and gives the same verdict, unless the record it presents expires now and is missing on the purged side |
| RefreshChain.ChainIsExact | lib/oauth2/az-server/index.js:562-567 | Presenting each returned token in turn at any list of times, a refresh token with count N is granted exactly as many exchanges as the lesser of max(N, 1) and the number of presentations up to the first one after its token expired |
| RefreshChain.SkippedAuthentication | lib/oauth2/az-server/index.js:526-533 | A public client that skipped authentication is refused the refresh of a client credentials grant only for the first refresh token; every rotated one is exchanged as if it had authenticated |
| Occurrences.SuccessorNeedsNoSecret | lib/oauth2/az-server/index.js:526-533 | A run in which a client credentials refresh token is refused without the secret, exchanged with it, and its successor then exchanged without it |
| AuthorizationServer.Gateway.Handle | lib/oauth2/az-server/index.js:56-77 | One request, over pooled servers and shared tables, has exactly the effect and answer of the step about which the run results are proved |
| AuthorizationServer.Gateway.GetServer | lib/oauth2/az-server/index.js:205-211 | The pool returns the server of this snapshot and API, created on first use and the same from then on, over the shared tables |
| AuthorizationServer.Server.constructor | lib/oauth2/az-server/server.js:215-226 | The registered scopes are the configured ones, whatever duplicates they contain |
| AuthorizationServer.Server.SupportScope | lib/oauth2/az-server/server.js:233-246 | True exactly when every requested scope is configured |
| AuthorizationServer.Server.ValidateScope | lib/oauth2/oauth2-helper.js:138-151 | Missing, empty, unknown and supported scopes are told apart; a missing one passes only where scope is optional |
| AuthorizationServer.Server.Issue | lib/oauth2/az-server/index.js:306-322 | Stores one access token and, if asked, one refresh token that it links to, both for the same holder, and returns exactly those tokens |
| AuthorizationServer.Server.IssueCode | lib/oauth2/az-server/index.js:238-268 | Without the grant or with an unsupported scope nothing is stored; otherwise one new code is stored for the client, user, scopes and redirect address, expiring after five minutes |
| AuthorizationServer.Server.IssueImplicit | lib/oauth2/az-server/index.js:331-357 | Without the grant or with an unsupported scope nothing is stored; otherwise one access token and never a refresh token |
| AuthorizationServer.Server.ExchangeCode | lib/oauth2/az-server/index.js:278-325 | An unknown, foreign, mismatched or expired code is refused and the tables are unchanged; otherwise the code is deleted and tokens for its user and scopes are stored, with a full refresh count if refresh is enabled |
| AuthorizationServer.Server.ClientCredentials | lib/oauth2/az-server/index.js:449-471 | Missing or unsupported scopes are refused; otherwise tokens are stored with the client as its own user |
| AuthorizationServer.Server.OwnerPassword | lib/oauth2/az-server/index.js:477-507 | Missing credentials, bad scopes and a failed login are refused, in that order; otherwise tokens are stored for that user |
| AuthorizationServer.Server.ValidateRefresh | lib/oauth2/oauth2-helper.js:223-262 | A presented refresh token is found exactly when it is stored for this API and agrees with its record |
| AuthorizationServer.Server.Rotate | lib/oauth2/az-server/index.js:560-593 | Saving the new tokens first and then deleting the used ones leaves the same tables as retiring first |
| AuthorizationServer.Server.Discard | lib/oauth2/az-server/index.js:573-594 | Deletes the used refresh token and the access tokens that go with it, of this client, and nothing else |
| AuthorizationServer.Server.ExchangeRefreshToken | lib/oauth2/az-server/index.js:513-595 | A token that is not genuine, foreign, expired, widened or refreshed without due authentication is refused and the tables are unchanged; otherwise it and its access token go, and the next pair carries the count less one |
| AuthorizationServer.Server.AuthenticateClient | lib/oauth2/az-server/middleware/authentication.js:55-151 | Which client a request authenticates as, when authentication is skipped, and for which failures the presented credential is deleted; a header without a secret throws and deletes nothing |
| AuthorizationServer.Server.RemoveCredential | lib/oauth2/az-server/middleware/authentication.js:23-48 | Deletes exactly the presented code or refresh token, of whatever client |
| AuthorizationServer.Server.Token | lib/oauth2/az-server/index.js:598-600 | A failed authentication stores nothing; otherwise the exchange for the grant type runs for the authenticated client |
| AuthorizationServer.ResourceServer.ValidateAccessToken | lib/oauth2/resource-server/resource-server.js:104-183 | Admits exactly the unexpired tokens that agree with their stored record, cover the required scopes and match the stated application |
| AuthorizationServer.ResourceServer.ScopesSatisfied | lib/oauth2/resource-server/resource-server.js:98-102 | True exactly when every required scope was granted |
| AuthorizationServer.RetireAfterMint | lib/oauth2/az-server/index.js:569-593 | Deleting old tokens commutes with saving new ones |
| TokenStores.Models.GenerateToken | lib/oauth2/oauth2-helper.js:375-397 | Two fresh identifiers, and an expiry lifetime seconds after the issue |
| TokenStores.Models.FindCode | lib/oauth2/models/index.js:261-271 | Finds a code only for its own API |
| TokenStores.Models.FindRefresh | lib/oauth2/models/index.js:210-220 | Finds a refresh token only for its own API |
| TokenStores.Models.FindAccessById | lib/oauth2/models/index.js:102-112 | Finds an access token of any API |
| TokenStores.Models.DeleteCode | lib/oauth2/models/index.js:273-279 | Deletes the code, for any API when none is given, and nothing else |
| TokenStores.Models.DeleteRefresh | lib/oauth2/models/index.js:222-226 | Deletes the refresh token, for any client when none is given, and nothing else |
| TokenStores.Models.DeleteByRefreshToken | lib/oauth2/models/index.js:126-132 | Deletes exactly the access tokens of this client that go with the refresh token |
| TokenStores.Models.PurgeAccess | lib/oauth2/models/index.js:145-156 | Removes exactly the access tokens whose expiry is not later than now |
| TokenStores.Models.PurgeRefresh | lib/oauth2/models/index.js:228-239 | Removes exactly the refresh tokens whose expiry is not later than now |
| TokenStores.Models.PurgeCodes | lib/oauth2/models/index.js:281-292 | Removes exactly the codes whose expiry is not later than now |
| TokenStores.Models.SaveTokens | lib/oauth2/models/index.js:185-207 | Stores the access token linked to its optional refresh token |
| Transactions.LoginBeforeGrant | lib/oauth2/az-server/middleware/id-extractor.js:37-48 | In every session, for every login and consent form, a grant has the client, scopes or selection, and address of the transaction that this very event resolved or named, and names the user of the latest login in that transaction |
| Transactions.GrantsFollowTheVisit | lib/oauth2/az-server/middleware/transactionLoader.js:40-75 | The grant is for the API that the transaction was filed at if and only if the answering visit is to that API; always when an authorization request is answered |
| Occurrences.GrantAtAnotherAPI | lib/oauth2/az-server/middleware/transactionLoader.js:40-75 | A transaction filed at an API with a consent form is answered, by a failing login at another API, with a code for that other API and without consent |
| Transactions.CodesCarryTheLogin | lib/oauth2/az-server/grant/code.js:199-206 | The code stored for such a grant carries the user, client and redirect address of that same transaction, and supported scopes |
| Transactions.TokensCarryTheLogin | lib/oauth2/az-server/grant/token.js:206-212 | An implicit access token carries the user and client of that same transaction, and supported scopes |
| Transactions.ConsentMayWiden | lib/oauth2/az-server/middleware/decision.js:94-99 | A grant after consent stays within the requested scopes if and only if the selected scopes do |
| Occurrences.ConsentWidens | lib/oauth2/az-server/middleware/decision.js:94-97 | A session in which the client asks for one scope and the stored code carries another one that the server supports |
| Transactions.ConsentBeforeGrant | lib/oauth2/az-server/index.js:426-444 | Under a consent form, unless logins come by redirection, every grant is the answer to an approval by the user who logged in last in the transaction |
| Origins.AdmittedTokensHaveOrigins | lib/oauth2/resource-server/resource-server.js:131-182 | An admitted bearer token descends, through whatever refreshes, from a grant that an event of the run started for its API, the admitted user, its client and scopes that cover the required ones |
| Origins.AdmittedUsersAuthenticated | lib/oauth2/resource-server/resource-server.js:177-181 | Sessions and tokens together: whoever a bearer token is admitted for was the latest to log in in the transaction of that very grant; or gave a verified password to the client that authenticated at this API and asked for exactly the granted scopes; or is that client itself |
| Origins.RunStarts | lib/oauth2/az-server/index.js:235-508 | Over every run each grant was started by one of its events, at that API, for that user and exactly the scopes it asked for; at the token endpoint by the client that authenticated |
| Transactions.RepeatedRequest | lib/oauth2/az-server/middleware/authorization.js:190-197 | Repeating an authorization request later in the session finds the same transaction if and only if it states its redirect address |
| Transactions.SharedTransaction | lib/oauth2/az-server/middleware/authorization.js:190-197 | However much later in a session, two authorization requests resolve to one transaction if and only if they agree in API, response type, client, scopes, state and a stated redirect address |
| Occurrences.RequestIsFiledTwice | lib/oauth2/az-server/middleware/authorization.js:190-197 | Asked twice in a session without a redirect address, a request is filed twice |
| Transactions.RunKeepsInv | lib/oauth2/oauth2-helper.js:356-373 | Over every session: transactions are filed under their own distinct identifiers, no two hold equal requests that state a redirect address, and logined means a recorded login |
| Transactions.RunKeepsEntries | lib/oauth2/az-server/middleware/decision.js:105-111 | No step removes a transaction or changes its request |
| AuthorizationRequests.AuthorizeVerdict | lib/oauth2/az-server/middleware/authorization.js:141-197 | In every session an authorization request is filed, with its destination, if and only if its client is known, its address begins with the registered one, its response type is enabled and its scopes are supported; any other fails, with the error of the first reason that applies, and leaves the session unchanged |
| AuthorizationRequests.TransactionsWereAsked | lib/oauth2/oauth2-helper.js:117-137 | In every session each transaction was filed by a visit that made just this request acceptably for its client, and its answer goes where an acceptable visit directed it: to an address that begins with the registered one |
| AuthorizationRequests.GrantedAddressesAreRegistered | lib/oauth2/oauth2-helper.js:117-137 | In every session every grant was asked for by an acceptable request of its client, and the address of a code, if one is stated, begins with the one that the client registered |
| AuthorizationRequests.GrantedExactlyWhenEarned | lib/oauth2/az-server/index.js:360-444 | In every session, with whatever forms and APIs, an event is answered with a grant if and only if it is an acceptable request whose user logs in with it or has before, a login in the transaction, now or before, where no consent is asked for, a verified return from an external login, or an approval by the user who logged in last that repeats the destination, scopes and client |
| AuthorizationRequests.DecisionVerdict | lib/oauth2/az-server/middleware/decision.js:76-117 | In every session a decision changes nothing; it fails unless it repeats its transaction, for the user who logged in last, is then denied unless it approves, and is then granted if the API answers that response type |
| AuthorizationRequests.AttemptsAreCounted | lib/oauth2/az-server/middleware/id-extractor.js:50-71 | In every session each transaction counts the failures at its own login form since it was filed or a login failed without the form |
| Occurrences.UnregisteredAddress | lib/oauth2/oauth2-helper.js:121-137 | A client without a registered address is refused the address u and directed to the address undefined |
| AuthorizationRequests.RunKeepsAsked | lib/oauth2/az-server/middleware/authorization.js:190-197 | Over every session all transactions stay so filed and directed |
| Transactions.StoredRequestsAreDefined | lib/oauth2/oauth2-helper.js:366-373 | A request whose redirect address is undefined equals no stored request |
| AuthorizationSession.Session.Handle | lib/oauth2/az-server/index.js:360-444 | One request to the endpoint updates the session in place exactly as the step about which the session results are proved |
| AuthorizationSession.Session.SearchTxData | lib/oauth2/oauth2-helper.js:366-373 | The loop returns the first transaction with an equal request |
| AuthorizationSession.Session.CreateTxData | lib/oauth2/oauth2-helper.js:356-364 | Files one new transaction under a fresh identifier and keeps all others |
| AuthorizationSession.Session.LoadTransaction | lib/oauth2/az-server/middleware/transactionLoader.js:40-75 | Finds the transaction with the presented identifier, or none |
| AuthorizationSession.Session.Authorization | lib/oauth2/az-server/middleware/authorization.js:119-199 | Every refusal leaves the session alone; otherwise the transaction is found or created |
| AuthorizationSession.Session.ExtractId | lib/oauth2/az-server/middleware/id-extractor.js:37-71 | A success records user and login; a failure counts or resets the attempts |
| AuthorizationSession.Session.RenderLogin | lib/oauth2/az-server/middleware/default-login-form.js:16-38 | Goes on after a login and otherwise shows the form |
| AuthorizationSession.Session.HandleAuthorize | lib/oauth2/az-server/index.js:362-398 | The authorize chain for all four kinds of identity extraction: what is filed, who is logged in, and whether a grant follows |
| AuthorizationSession.Session.HandleLogin | lib/oauth2/az-server/index.js:385-408 | A login is recorded in the loaded transaction and may be followed by a grant; a failure renders the form again |
| AuthorizationSession.Session.HandleReturn | lib/oauth2/az-server/index.js:721-762 | After an external login page only a verified return records a login and responds |
| AuthorizationSession.Session.HandleDecision | lib/oauth2/az-server/middleware/decision.js:76-117 | A decision is granted only when owner, address, scope and client repeat the transaction and it approves |
| EvalSecurity.CallsBackAtMostOnce | lib/security-check/security.js:116-180 | For every interleaving of the handlers the final callback runs at most once |
| EvalSecurity.CallsBackOnce | lib/security-check/security.js:116-180 | It has run once all handlers answered |
| EvalSecurity.VerdictIsOrOfAnds | lib/security-check/security.js:105-180 | With all schemes defined the reported verdict is: no requirements, or some requirement all of whose schemes pass |
| EvalSecurity.PassIsDeserved | lib/security-check/security.js:153-166 | Even with missing definitions a pass is reported only when some requirement fully passed, and without error |
| EvalSecurity.ErrorsComeFromMissingDefinitions | lib/security-check/security.js:144-148 | Some complete evaluation reports an error if and only if a requirement with an undefined scheme comes before every empty requirement |
| EvalSecurity.ErrorNeedsMissingFirst | lib/security-check/security.js:111-148 | No evaluation reports an error when an empty requirement comes before the first undefined scheme |
| EvalSecurity.EmptyRequirementHidesMissing | lib/security-check/security.js:111-123 | With an empty requirement in front, every complete evaluation passes without error although a scheme is undefined |
| EvalSecurity.Completed | lib/security-check/security.js:111-118 | Every schedule of starts in order and answers goes on to one in which all have answered |
| EvalSecurity.VerdictIsFinal | lib/security-check/security.js:170-180 | Nothing that happens later changes what was reported |
| EvalSecurity.RunKeepsInv | lib/security-check/security.js:105-180 | The invariant that ties shared variables and counters to the answers received, for every schedule |
| EvalSecurity.Evaluation.constructor | lib/security-check/security.js:109-113 | Without requirements the callback runs at once |
| EvalSecurity.Evaluation.InAsyncCB | lib/security-check/security.js:125-147 | A scheme calling back changes the shared variables exactly as the step about which the interleaving results are proved |
| EvalSecurity.Evaluation.StartRequirement | lib/security-check/security.js:117-123 | A requirement without schemes passes when it is started |
| EvalSecurity.Evaluation.InnerCallback | lib/security-check/security.js:149-169 | The inner final callback, first time only |
| EvalSecurity.Evaluation.OutAsyncCB | lib/security-check/security.js:152-168 | One requirement completes, breaks or fails the outer iteration |
| EvalSecurity.Evaluation.FinalCallback | lib/security-check/security.js:170-180 | The outer final callback, first time only; a break is no error |
| Selection.MatchApis | lib/api-matcher/index.js:41-116 | The single pass with resets returns, in order, exactly the matches of minimal score |
| Selection.MatchPath | lib/api-matcher/index.js:56-115 | One path extends the best matches so far, or starts them over |
| Selection.MatchPaths | lib/api-matcher/index.js:54-115 | The same over the paths of one API |
| Selection.BestIsUnbeaten | lib/api-matcher/index.js:90-114 | A candidate is among the best if and only if it matches and no match has a lower score |
| Selection.MatchesArePlaces | lib/api-matcher/index.js:41-116 | A candidate matches if and only if its API is listed and visible, its path is one of that API and its expression matches the URL, and its operation is the first of the path with the verb, or it has none because no operation has the verb, which is OPTIONS, and the API has CORS; the matches are in the order of APIs and paths, one for each such path |
| Selection.FilteredMembers | lib/security-check/index.js:36-81 | The filter keeps exactly the candidates that pass |
| Selection.CheckSecurity | lib/security-check/index.js:32-122 | Returns the first passing candidate of the plan, else the first, unless it lacks a subscription it needs (401) or is suspended (503); when none passes, an error status set before, else 401 |
| Selection.Champion | lib/security-check/index.js:88-103 | The champion is a passing candidate, of the requested plan if there is one |
| Selection.FirstOfPlan | lib/security-check/index.js:95-100 | The first candidate of the plan |
| Selection.AdmittedIsEntitled | lib/security-check/index.js:105-122 | In whatever order handlers answer, an admitted candidate is an unbeaten match, the first passing one of the requested plan or else the first passing one, its requirements are met, subscribed if it has any, and not suspended |
| Selection.ChampionIsChosen | lib/security-check/index.js:88-103 | The champion is the first candidate that passes and has the requested plan, or the first that passes when none has it |
| Selection.NobodyIsEntitled | lib/security-check/index.js:123-132 | With all schemes defined nothing passes the filter if and only if no unbeaten match is entitled |
| Selection.PassesIsEntitled | lib/security-check/index.js:59-76 | A candidate passes only when entitled, and if entitled with all schemes defined it does pass |
| Selection.AdmissionIsExact | lib/security-check/index.js:83-132 | When nothing passes, an error status of 400 or more is kept and any other becomes 401; else the one chosen candidate decides: 401 if it has requirements and no active subscription, else 503 if it is suspended, else it is admitted |
| Selection.PreflightOnly | lib/api-matcher/index.js:66-88 | A request admitted without an operation is an OPTIONS request for a matching path of a visible API with CORS; one admitted with an operation has its verb |
| PathTemplate.MakePathRegex | lib/apim-context/index.js:235-280 | On every path with matched, unnested braces the rewriting loop ends and yields the segment-by-segment translation and the numbering of its variables |
| PathTemplate.ReplaceBraces | lib/apim-context/index.js:257-271 | One turn replaces exactly the first pair of braces, by the rest group only for the last variable of a path ending in a plus variable |
| PathTemplate.GroupingIsPosition | lib/apim-context/index.js:269-270 | The i-th of distinct variables maps to capture group i |
| PathTemplate.PlusMeaning | lib/apim-context/index.js:251-252 | The regular expression finds a trailing plus variable exactly when the template ends in one |
| PathTemplate.EndsWithPlus | lib/apim-context/index.js:251-252 | The search for that expression |
| PathTemplate.PrintOfReading | lib/apim-context/index.js:257-263 | Every path with matched, unnested braces is the print of the template read from it |
| PathTemplate.ReadingOfPrint | lib/apim-context/index.js:257-263 | Reading the print of a template gives it back |
| PathMatching.TranslationParses | lib/apim-context/index.js:264-268 | The compiled text of a template without metacharacters parses to its literals and capture groups |
| PathMatching.MatchesAreInstances | lib/apim-context/index.js:145 | The backtracking search succeeds if and only if the path is an instance of the pattern |
| PathMatching.ExecIsSound | lib/apim-context/index.js:145 | What the search captures is an instance |
| PathMatching.PathRoundTrip | lib/apim-context/index.js:143-145 | Matching a filled template captures exactly the values it was filled with |
| PathMatching.PathsMatchExactly | lib/apim-context/index.js:241-280 | With letter case told apart, a request path matches if and only if it is the base path, without its final slash, followed by the filled template, or for the template / the base path alone; with or without one slash at the end |
| PathMatching.MatchCapturesAll | lib/apim-context/index.js:166-169 | Every match captures one value per variable |
| PathMatching.ParseParameters | lib/apim-context/index.js:135-233 | Rejected exactly when a path parameter meets a path that does not match or a conversion fails; otherwise never settled exactly when a last plus parameter is not a string or some conversion never settles; otherwise each key holds the converted value of its last parameter |
| PathMatching.ReadRaw | lib/apim-context/index.js:149-169 | The converted values in order, or a rejection, or neither while a conversion is unsettled |
| PathMatching.Collect | lib/apim-context/index.js:211-227 | The loop that files values, splitting the last plus parameter |
| PathMatching.ParametersRoundTrip | lib/apim-context/index.js:166-227 | For a filled template each parameter that names a variable holds its value as converted, and a last plus parameter that stays a string holds the list that was joined |
| PathMatching.OtherParametersHold | lib/apim-context/index.js:149-227 | A parameter read elsewhere holds its converted value, and one that names no variable holds none; a last plus parameter is filed without the plus sign and holds the list that was joined |
| Occurrences.MissingListHangs | lib/apim-context/index.js:217-219 | A list of one plus parameter without a value is never settled |
| Analytics.Conservation | lib/analytics.js:163-186 | Posted batches followed by the queue are the events in arrival order, each once |
| Analytics.NothingIsLost | lib/analytics.js:188-216 | Reading all posted bodies line by line gives all events no longer waiting, in order |
| Analytics.PostedWhenDue | lib/analytics.js:163-216 | After every run a batch is posted exactly when an arrival fills it or the timer fires while events wait; it holds all that wait |
| Analytics.ShortBatchesAreTimed | lib/analytics.js:175-185 | Each posted batch that is not full was posted when the timer fired |
| Analytics.BodySplits | lib/analytics.js:197 | The lines of a posted body are the two lines of each event and a final empty one |
| Analytics.RunKeepsInv | lib/analytics.js:175-185 | Between steps the queue is shorter than a batch, the timer runs if and only if events wait, and no batch is empty or over-full |
| Analytics.Queue.constructor | lib/analytics.js:44 | The batch size with its default |
| Analytics.Queue.ProcessApiEvent | lib/analytics.js:163-186 | Queues the event in place and publishes or arms the timer as specified |
| Analytics.Queue.BatchPublish | lib/analytics.js:188-216 | Posts the whole queue as one body, empties it and disarms the timer |
| Analytics.Queue.TimerExpires | lib/analytics.js:181-182 | A firing timer publishes |
| PolicyLoader.GreatestVersionWins | lib/policy-loader.js:93-153 | When all modules load and no name equals another description's name and version, each name maps to its version of greatest precedence, pre-release tags included, ties going to the last description with override and to the first without |
| PolicyLoader.DefaultHasGreatestVersion | lib/policy-loader.js:93-153 | The same in the numbers and tags of versions: no other version of the name has a greater first differing number, is its release, or has a greater first differing identifier |
| PolicyLoader.GreaterOfTwoWins | lib/policy-loader.js:108-111 | Of two loading versions of a name the one of greater precedence is the default, in either order, with and without override |
| PolicyLoader.GreaterSamplesWin | lib/policy-loader.js:108-111 | So it is for sample texts that differ in major, minor, patch, release against tag, number against word, numbers, words and length of the tag |
| PolicyLoader.PathsAreRecorded | lib/policy-loader.js:125-132 | For every list the paths are those of the descriptions that can be read and are not skipped as repeated versions, loaded or not, in order |
| PolicyLoader.OrderIsIrrelevant | lib/policy-loader.js:79-163 | Without such names, and with distinct names or precedences, the table does not depend on the order of the list |
| PolicyLoader.DefaultKeys | lib/policy-loader.js:103-153 | Without such names, failures included: the default is the last loaded description not preceded by a greater version |
| PolicyLoader.VersionedKeys | lib/policy-loader.js:105-150 | Without such names: a versioned name holds the last loaded description of that spelling with override, the first one read of that precedence without |
| PolicyLoader.FailuresCanHideTheDefault | lib/policy-loader.js:122-160 | The default is a greatest loaded version if and only if some description of that version was not preceded by a greater one |
| PolicyLoader.NamesWithoutDefault | lib/policy-loader.js:105-153 | Without such names a name is left without a default if and only if every loaded description of it was preceded by a greater version |
| PolicyLoader.FailedVersionLeavesNoDefault | lib/policy-loader.js:122-160 | The list of a failing version 2 and a loading version 1 leaves the name without a default |
| PolicyLoader.KnownVersions | lib/policy-loader.js:105-130 | The precedences on record for a name are those read, loaded or not |
| PolicyLoader.TableKeys | lib/policy-loader.js:93-153 | For every list, whatever the names: each key of the table holds the last description written under it, as its version or as its default |
| PolicyLoader.SingleDescription | lib/policy-loader.js:93-149 | A single description that loads is filed under its name, and under its name and version if it has one |
| PolicyLoader.GuardMeetsCollisions | lib/policy-loader.js:133-136 | Without override the second guard stops a description exactly when an earlier one became the default for a name that equals its name and version |
| PolicyLoader.NotFiledTwice | lib/policy-loader.js:133-136 | Without such names it stops nothing |
| PolicyLoader.CollisionsBreak | lib/policy-loader.js:143-149 | A policy named like the name and version of another one keeps it from getting a default without override, and makes the table depend on the order with override |
| PolicyLoader.PairsNeedClearNames | lib/policy-loader.js:93-149 | Two policies of different names both get their default, in both orders and with and without override, if and only if neither is named like the other's name and version |
| PolicyLoader.NameLikeAVersion | lib/policy-loader.js:133-136 | The policies named a:1.0.0 and a, in this order, leave a without a default; in the other order it has one |
| SemanticVersions.VersionOrder | lib/policy-loader.js:108-111 | The comparisons by which the loader decides form a total order: any two versions are equal or compare exactly one way, transitively |
| SemanticVersions.LessMeansPrecedes | lib/policy-loader.js:108-111 | They are precedence as Semantic Versioning defines it: the first differing number decides, a release follows its pre-releases, and else the first differing identifier, numbers by value and before words, words as texts, a proper prefix first |
| PolicyLoader.Loader.constructor | lib/policy-loader.js:66-171 | The constructor loop fills policies and paths exactly as the table about which the version results are proved |
| PolicyLoader.Loader.LoadPolicy | lib/policy-loader.js:98-162 | One description is filed, replaced or skipped, and becomes the default unless a greater version is on record |
| UnorderedLists.UnorderedList.EqualTo | lib/oauth2/az-server/unorderedlist.js:27-42 | The loop decides: equally long, and every word occurs in the other |
| UnorderedLists.EqualToIsPermutation | lib/oauth2/az-server/unorderedlist.js:27-42 | The comparison is equality as bags of words against every list if and only if the words of this list are distinct |
| UnorderedLists.EqualToIsSetEquality | lib/oauth2/az-server/unorderedlist.js:27-42 | On duplicate-free lists it is set equality, hence symmetric and transitive |
| UnorderedLists.RepeatedWordsCompareOneWay | lib/oauth2/az-server/unorderedlist.js:27-42 | With a repeated word it is neither symmetric nor set equality |
| UnorderedLists.Dispatch | lib/oauth2/az-server/server.js:422-496 | The pass over registered handlers, merging the fields they answer until one stops it |
| UnorderedLists.WordOrderIsIrrelevant | lib/oauth2/az-server/server.js:422-496 | Which grant handlers run, and what they contribute, does not depend on the order of words in the response type |
| UnorderedLists.HandlersRunForTheirType | lib/oauth2/az-server/server.js:441-458 | A handler whose words are distinct runs exactly for permutations of them, unless an earlier one stopped the pass |
| UnorderedLists.WildcardsRun | lib/oauth2/az-server/server.js:441-458 | A handler without a type runs unless an earlier one stopped the pass |
| UnorderedLists.LastAnswerWins | lib/oauth2/az-server/server.js:422-458 | Each field has the value given by the last handler run that gives it, else the one it started with |
| UnorderedLists.StoppedByHandler | lib/oauth2/az-server/server.js:441-458 | The pass is stopped exactly when a handler that was run stops it, and none runs after that one |

## Left out

- Interleaving of two exchanges of the same credential: find, delete and save are separate
  callbacks of the datastore, and each request is one atomic step at one instant here.
- Datastore failures: every find, save and delete succeeds; an undefined filter field is dropped.
  Only purges may fail, each by itself, which an event says.
- Random identifiers: a counter stands for them, so a new one is always fresh. Presented
  identifiers are arbitrary.
- JWT encoding and signatures: a decoded token names the key it was signed with, and verification
  compares that key with the stored secret. Tokens that do not decode are one error case.
- Authentication of users and clients: yes or no answers and the stored credentials are inputs.
  Digests of secrets are compared as given.
- Error messages, response bodies, headers, status codes other than those of the security check,
  redirects, HTML forms and CORS headers.
- Permissions: with `consentAgain` always true the lookup decides no grant.
- `supportResponseType`: its loop runs to the wrong length, so only the two single response types
  are accepted by the transaction machine, as the registered grants accept them.
- Changes of configuration: an API has the same configuration in every snapshot.
- Transactions.LoginBeforeGrant: the mutable client object is part of its transaction, and
  the JSON round trip of a session is modelled only by the loss of an undefined redirect address.
- Attempt limits of the login forms: the handlers that render a form are configured without one.
- EvalSecurity.VerdictIsOrOfAnds: says nothing of the client secret, which requirements share.
- EvalSecurity.RunKeepsInv: `async.forEach` is modelled by its documented meaning (all items
  start, in order, the first error or the last completion fires the final callback, once).
- Regular expressions of the matcher: testing one against a URL is a parameter.
- Infinite or undefined scores and the list of allowed methods of a match.
- Rate limits and the API loader's caches, which the pre-flow context also reads.
- PathTemplate.MakePathRegex: paths with unmatched or nested braces are not covered; the loop need
  not end on them.
- PathMatching.PathRoundTrip: literal text has no metacharacters of regular expressions, and every
  variable is followed by a slash or the end. Folding of letter case is an arbitrary function.
- PathMatching.ParseParameters: conversion to a type is an arbitrary function of the string, which
  may fail or never settle; query, header and body parameters enter as read and converted elsewhere.
- Building an analytics event and masking its query string; a post counts as done when it is
  tried, since failures are only logged.
- PolicyLoader.TableKeys: parsing a version is an arbitrary function of its text; one that does not
  parse makes the constructor throw, which is not modelled, nor are the configurations handed to the
  modules. Results about versions need version texts without a colon, which those that parse are.
- UnorderedLists.Dispatch: what a handler answers is given; the handlers themselves are those of the
  transaction machine.
- Unmodified parts of the token endpoint: MAC tokens, token introspection and revocation by the
  owner.
