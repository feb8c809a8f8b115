# Token, session and sign-in protocol of the authorization server

This project models the stateful core of the server and proves what it keeps. Its centre is the life of a token:
authorize, authorization code, code exchange, refresh rotation with reuse detection (sections 4.1.2, 4.1.3 and 6 of
RFC 6749, section 4.6 of RFC 7636, section 4.14.2 of RFC 9700), and the cascades that end sessions and the tokens under
them (section 2.1 of RFC 7009). Around it stand the smaller machines that guard sign-in and signing: the two login
trackers, the request limiter, the replay cache, signing-key rotation, password reset links and client normalisation.

## How the model is layered

1. **Interleaved steps** (`Protocol.dfy`). Every store call is one atomic step. A handler is a process that keeps the
   record it looked up as a snapshot that may be stale; any number run at once; each may stop anywhere, which covers
   every error response, failed write and crash. Session and token revocations happen between any two steps, and the
   client record each request carries is arbitrary, so client settings may change between requests. The clock does not
   go back; ids and hashes of new records are new. A history, read by no handler, records the request behind each code,
   the code behind each chain root, the birth of each token, the step that revoked it and every answer that carried tokens.
   `ProtocolInvariant.dfy`, `ProtocolWrites.dfy`, `ProtocolProcs.dfy` and `ProtocolSteps.dfy` hold the invariant and its
   preservation; `ProtocolChains.dfy`, `ProtocolGrants.dfy`, `ProtocolRevocation.dfy`,
   `ProtocolFinality.dfy`, `SessionEnds.dfy` and `CodeShapes.dfy` hold the results; `Journeys.dfy`, `InFlight.dfy`,
   `DeepChains.dfy` and `Outliving.dfy` build runs from the initial state that show where a promise ends.
2. **Run to completion** (`ProtocolSerial.dfy`). The same runs, restricted so that a whole handler sees one clock
   reading and nothing in between. Results that the code gives only at this granularity are stated here.
3. **Stores and handlers** (`MemoryStores.dfy`, `RefreshHandler.dfy`, `ExchangeHandler.dfy`, `AuthorizeHandler.dfy`,
   `Cascades.dfy`). Classes mirror the in-memory stores; the handlers are methods over them, proved against
   specification functions, with failing store calls among their inputs. Linking lemmas show that each handler, run on its
   own, is a stretch of a serial run with the same effect and answer. `Service.dfy` puts them together: a server object that
   answers any sequence of calls from empty stores ends in the clock and stores of a serial run whose history holds exactly
   the answers with tokens that were given, so the results about runs are results about the server. `Answers.dfy` states some
   of them in terms of calls and replies alone. `AuthorizeAnswers.dfy`, `ExchangeAnswers.dfy` and `RefreshAnswers.dfy` say
   what each handler answers and stores in terms of nothing but the form, the records found, the settings and the calls that
   fail: which requests succeed, and which error every other one gets.

SHA-256 is an uninterpreted function; a stored hash stands for the value it was computed from. Times and durations are
unbounded integers in nanoseconds.

## Findings where the code falls short of a stated intent

- Revoking a session's tokens is not final while certain requests are in flight. Some continuation extends a revoked token
  if and only if some refresh on the session has won its token and will rotate it, or was shown it before the revocation,
  finds it unconsumed and will pass the checks it still has to make (`ProtocolFinality.RevocationIsFinalExactly`). A run from
  the initial state that gets there exists for every client that may get offline access, with or without PKCE
  (`InFlight.RevocationCanComeTooLate`). Whatever is stored later under the session descends from a code exchange or from a
  lookup made before the revocation
  (`ProtocolRevocation.SurvivorsDescendFromInFlight`).
- Ending a session is not final either while an authorize request is in flight: a code for it can still be stored if and only if
  some request has checked the session already, or was shown it before the revocation and finds it unexpired
  (`SessionEnds.EndingIsFinalExactly`). With nobody in flight it is (`SessionEnds.NoCodeAfterTheEnd`).
- The bulk cascades pick only sessions that are neither revoked nor expired, and revoke tokens only under those. A
  refresh token can outlive its session, so a token under an expired session survives a password reset although the
  handler's comment says that everything is ended (`Cascades.WhichTokensSurvive` says exactly which,
  `Outliving.TokenOutlivesItsSession` is a run from the initial state in which the user's sessions are ended and a token of
  the user is refreshed after that, for every session shorter than the reach of its refresh tokens). The sweep also treats
  the instant of expiry as expired while the session resolver treats it as usable (`Cascades.WhichSessionsSurvive`).
- A code minted with a challenge but without a method makes the exchange handler dereference a missing value, which the model
  answers with `Crashed`. `ExchangeHandler.CrashIsExact` says when, `CodeShapes.WhichFormsMintMethodless` which authorize
  requests lead there (those with a challenge and no method where PKCE is optional), and
  `CodeShapes.WhichCodesAreRedeemable` which codes can be redeemed at all.
- The ancestor walk stops after 1000 links. In every interleaving the auth time reported for a token of a given depth is the
  creation of its chain's root if and only if the depth is at most 1000 (`DeepChains.AuthTimeIsExact`); for every greater
  depth `DeepChains.DeepWalkMissesTheRoot` is a run from the initial state that reports a later time.
- The bound of 2 * (n - 1) password guesses in a window, n being the failure that locks, holds of every run if and only if
  the window outlasts the lock by less than 2 * (n - 1) - 1 ticks of the clock, a lock shorter than two ticks counting as two
  (`LoginDiscipline.TheBoundIsExact`). The defaults, 15 minutes each, meet it. Failures that meet an outage of the tracker
  come on top: the handler goes on when the tracker cannot be asked or cannot record.
- That bound is for sign-ins that do not overlap. The tracker is asked before the slow password check and told after it: with
  up to m sign-ins on a key past the question at a time, and a lock at least as long as the window, the bound is
  2 * (n + m - 2) and is reached (`LoginRaces.OverlappingGuessesAreBounded`, `LoginRaces.OverlappingGuessesFit`). A failure
  recorded after the window of a locked row is over clears the lock although it has not run out
  (`LoginRaces.WhatAFailureLeavesLocked` is exact, `LoginRaces.LateFailureClearsTheLock` a run).
- An assertion is accepted once up to its expiry, and again every time it is presented after that while the clock skew still
  admits it, because the cache forgets a use at the expiry. A second acceptance is possible if and only if the skew is at
  least two ticks; the default is a minute (`ReplayCache.WhatIsAccepted` says exactly what the verifier accepts,
  `ReplayCache.WhichSkewsAllowReplay` when it can be replayed).
- Keys of the replay cache tell clients apart only while no client id contains `|` (`ReplayCache.SharedKey` gives the
  exact collisions).
- A user has at most one usable reset link in an interleaving if and only if no request, on storing its token, finds one
  still usable that another request stored since it cleared (`ResetRaces.OneLinkUnlessOvertaken`;
  `ResetRaces.OverlappingRequestsLeaveTwo` is a run in which two overlap).
- While no rotation of the signing key is in flight exactly one key is active if and only if no retirement has failed and no
  two rotations that stored a key had read the same one (`KeyRotation.OneKeyIsLeftExactly`). Overlapping alone does no harm
  (`KeyRotation.OverlapCanLeaveOne`); `KeyRotation.SharedReadLeavesTwo` is a run from the start in which every write succeeds
  and two keys stay active.

A modelling note: the in-memory login tracker reads the zero time as "never locked". The two trackers agree on every call
sequence that sets no lock at that time (`LoginTracker.OneCallAgrees` is exact, `LoginTracker.NonZeroTimesAgree` the case of
any real clock).

## Model

| member | source | states |
|---|---|---|
| ProtocolChains.RotationIsLinear | internal/oidc/grants/refresh.go:82-231 | in every interleaving no two tokens share a parent, a token with a child is consumed, each token is renewed at most once, and the members of a chain lie on one line with at most one unconsumed |
| ProtocolChains.ChainIsALine | internal/oidc/grants/refresh.go:219-231 | of two tokens of one chain the shallower is the ancestor of the deeper |
| ProtocolChains.ChainsKeepTheirRoot | internal/oidc/grants/refresh.go:203-231 | client, user, session and absolute ceiling are constant along a chain; the ceiling is the root's creation plus the lifetime at issuance; rotated sliding tokens stay under it, unreduced absolute ones reach it |
| ProtocolChains.NoRefreshPastTheCeiling | internal/oidc/grants/refresh.go:96-103 | no refresh succeeds after root creation plus absolute lifetime at issuance, whatever the client's settings became |
| ProtocolChains.AuthTimeIsTheRoots | internal/oidc/grants/refresh.go:317-333 | the reported auth time is the creation of the ancestor 1000 links up, never later than the clock, and that ancestor is the root exactly when the chain is at most 1000 deep |
| ProtocolChains.AuthTimeIsStable | internal/oidc/grants/refresh.go:317-333 | two refreshes of one chain within that depth report the same auth time |
| DeepChains.AuthTimeIsExact | internal/oidc/grants/refresh.go:317-333 | in every interleaving the auth time reported for a token of a given depth is the creation of the chain's root if and only if the depth is at most 1000 |
| DeepChains.DeepWalkMissesTheRoot | internal/oidc/grants/refresh.go:317-333 | for every client that may get offline access and every depth above 1000 a run from the initial state presents a token that deep and is told a time later than the root's |
| DeepChains.ChainRun | internal/oidc/grants/refresh.go:203-231 | for every number of rotations a run from the initial state builds a chain that long, the last token of which can be refreshed |
| ProtocolChains.UpReachesRoot | internal/oidc/grants/refresh.go:317-333 | following n parent links ends at the root exactly when the depth is at most n |
| ProtocolChains.NoCycles | internal/oidc/grants/refresh.go:219-231 | following parent links from a token never comes back to it |
| ProtocolChains.CodesAreSingleUse | internal/oidc/grants/authcode.go:90-211 | in every interleaving a code is redeemed at most once and roots at most one chain, only for its client and redirect URI, with a matching verifier when it carries a challenge; every root has a code |
| ProtocolChains.ExchangesReportTheCode | internal/oidc/grants/authcode.go:136-211 | in every interleaving an answered exchange reports the scope of the request behind its code and, as auth time, the code's creation: no later than the clock or the root's creation, and the root carries that scope |
| ProtocolGrants.ScopesOnlyShrink | internal/oidc/grants/refresh.go:135-226 | a stored token's scope words are among its parent's, its root's and the client's allowed scopes when the code was minted, and include offline_access |
| ProtocolGrants.CodeScopeIsAllowed | internal/oidc/authorize.go:97-211 | a code's scope, client and redirect URI are those its request was allowed; if the server's setting or the client of the request requires PKCE it carries an S256 challenge |
| ProtocolGrants.AnswersStayInScope | internal/oidc/grants/refresh.go:135-145 | a refresh never answers with a scope word the presented token lacks |
| ProtocolGrants.PkceIsEnforced | internal/oidc/grants/authcode.go:107-112 | if the server's setting or the client of the minting request requires PKCE, a redemption has a verifier whose S256 image is the code's challenge |
| ProtocolGrants.NewScopeIsNarrower | internal/oidc/grants/refresh.go:135-145 | splitting the joined scope gives back the granted words, all of them granted before |
| ProtocolRevocation.RevocationIsCausal | internal/oidc/grants/refresh.go:91-121 | a child added to a revoked token comes from a process that looked the token up, unrevoked, before the revocation |
| ProtocolRevocation.SurvivorsDescendFromInFlight | internal/store/memory/refreshtoken.go:129-140 | after a session's tokens are revoked every later token of it descends from a later code exchange or from a refresh looked up before |
| ProtocolRevocation.RevokedSessionIsDead | internal/store/memory/refreshtoken.go:129-140 | revoking a session's tokens while no request holds one kills all of them |
| ProtocolRevocation.DeadStaysDead | internal/oidc/grants/refresh.go:91-121 | dead tokens keep their records, are never renewed and get no child for the rest of the run |
| ProtocolRevocation.PunishedReuseIsFinal | internal/oidc/grants/refresh.go:252-266 | punished reuse with no other request in flight on the session kills every token of the session, the reused one among them |
| ProtocolRevocation.InFlightRefreshOutlivesRevocation | internal/oidc/grants/refresh.go:104-231 | one such case step by step: with its walk done before the session is revoked, a refresh stores a child that is unrevoked and passes every check of a later refresh |
| ProtocolFinality.RevocationIsFinalExactly | internal/oidc/grants/refresh.go:82-231 | in a reachable state in which every token under a session is revoked, some continuation adds a child to one of them if and only if some request on the session has won its token and will rotate it, or finds it unconsumed with a snapshot from before and will pass its remaining checks |
| ProtocolFinality.ExtendsAfterAll | internal/oidc/grants/refresh.go:91-231 | such a request, left to run, stores a child under the session that is not revoked |
| ProtocolFinality.SettledForGood | internal/oidc/grants/refresh.go:91-231 | once no request may extend a set of revoked tokens none ever will |
| InFlight.RevocationCanComeTooLate | internal/oidc/grants/refresh.go:104-231 | for every client that may get offline access, PKCE required or not, and every session length there is a run from the initial state after which every token of a session is revoked and one is still extended |
| ProtocolSerial.ReuseEndsTheChain | internal/oidc/grants/refresh.go:104-121 | run to completion, after punished reuse every member of the chain is revoked, unchanged and never renewed, and no member is added |
| ProtocolSerial.CodesRespectTheSession | internal/oidc/authorize.go:200-214 | run to completion, a code is created no later than its session's expiry and revocation, and every exchange of it reports that moment as its auth time |
| ProtocolSerial.RootsRespectTheSession | internal/oidc/authorize.go:200-214 | run to completion, a root is created no later than the session's expiry, and its revocation if it has been revoked, plus the code lifetime |
| ProtocolSerial.RefreshesRespectTheSession | internal/oidc/grants/refresh.go:96-103 | run to completion, no refresh succeeds later than that plus the client's absolute lifetime at the exchange |
| ProtocolSerial.StretchGoesOn | internal/oidc/grants/refresh.go:64-231 | a handler's stretch of steps continues any serial run, so results about runs apply to handlers |
| SessionEnds.WhichSessionIsResolved | internal/oidc/session_resolver.go:26-42 | a request's session is the stored one its cookie names, if the lookup works, the session is not revoked and its expiry has not passed; otherwise none |
| SessionEnds.EndedSessionsAreNotResolved | internal/oidc/session_resolver.go:26-42 | once a session has ended its cookie is resolved at no time and in no later state of any interleaving |
| SessionEnds.EndingIsFinalExactly | internal/oidc/authorize.go:200-214 | in a reachable state in which a session is revoked some continuation stores a code for it if and only if some request in flight has checked it already, or was shown it before the revocation and finds it unexpired |
| SessionEnds.MintsAfterAll | internal/oidc/authorize.go:200-227 | such a request, left to run, stores a code for the session |
| SessionEnds.NoCodeAfterTheEnd | internal/oidc/authorize.go:200-214 | after a session has ended with nobody in flight no code stored later carries it, whatever interleaving follows |
| Service.Server.Serve | internal/oidc/grants/refresh.go:64-246 | each call on the server object changes clock and stores and is answered as the call's specification says, and the stores stay indexed |
| Service.ServeAll | internal/oidc/grants/refresh.go:64-246 | serving a sequence of calls from empty stores computes the specified world and the specified replies |
| Service.ServingIsARun | internal/oidc/grants/refresh.go:64-246 | clock and stores after any sequence of calls from empty stores are those at the end of a serial run of the protocol, and its history holds exactly the exchanges and refreshes answered with tokens, in order |
| Answers.TokensAreRenewedOnce | internal/oidc/grants/refresh.go:104-121 | of two calls that present the same refresh token at most one is answered with tokens, whatever else is called before, between and after |
| Answers.CodesAreRedeemedOnce | internal/oidc/grants/authcode.go:114-125 | of two calls that present the same code at most one is answered with tokens |
| Answers.EndingASessionEndsIt | internal/admin/api.go:417-442 | the call that ends a session sets its revocation time if it was unset and revokes the unrevoked tokens under it; no other record changes |
| Answers.EndingAUserEndsThem | internal/admin/api.go:845-855 | the call that ends a user's sessions changes, of each record, what it should: those neither kept, revoked nor expired and the unrevoked tokens under exactly these |
| Answers.RevokingATokenEndsIt | internal/oidc/revoke.go:77-97 | the call that revokes a token revokes the unrevoked tokens of its session, or without one the token alone, and nothing when it is another client's or unknown |
| ProtocolSteps.RunKeeps | internal/oidc/grants/refresh.go:64-231 | the invariant holds in every state of every interleaving |
| ProtocolSteps.RunGrows | internal/store/memory/refreshtoken.go:91-140 | records are never removed and only gain a consumption or revocation time; nothing is ever un-revoked or un-consumed |
| MemoryStores.IndexIsScan | internal/store/memory/refreshtoken.go:44-54 | a lookup through the hash index finds what a scan of all tokens finds |
| MemoryStores.StoringKeepsIndex | internal/store/memory/refreshtoken.go:30-42 | storing keeps the index exact if and only if id and hash are new or belong together already |
| MemoryStores.MovingOnKeepsIndex | internal/store/memory/refreshtoken.go:91-140 | consuming and revoking keep the index exact |
| MemoryStores.RefreshTokenStore.Store | internal/store/memory/refreshtoken.go:30-42 | stores record and index entry, or refuses a missing record or empty hash and changes nothing |
| MemoryStores.RefreshTokenStore.FindByHash | internal/store/memory/refreshtoken.go:44-54 | the indexed record, and with an exact index the one a scan finds |
| MemoryStores.RefreshTokenStore.FindByID | internal/store/memory/refreshtoken.go:56-64 | the record stored under the id |
| MemoryStores.RefreshTokenStore.MarkConsumed | internal/store/memory/refreshtoken.go:91-111 | true exactly for the call that finds the token unconsumed; only its consumption time changes |
| MemoryStores.RefreshTokenStore.Revoke | internal/store/memory/refreshtoken.go:113-127 | only an unset revocation time of the named token changes |
| MemoryStores.RefreshTokenStore.RevokeBySessionID | internal/store/memory/refreshtoken.go:129-140 | exactly the unrevoked tokens of the session gain a revocation time |
| MemoryStores.AuthorizationCodeStore.Store | internal/store/memory/authcode.go:30-42 | stores record and index entry and keeps an exact index exact for a new id and hash, or refuses and changes nothing |
| MemoryStores.AuthorizationCodeStore.FindByHash | internal/store/memory/authcode.go:44-53 | the indexed code, and with an exact index the one a scan for the hash finds |
| MemoryStores.AuthorizationCodeStore.MarkConsumed | internal/store/memory/authcode.go:60-80 | true exactly for the call that finds the code unconsumed; only its consumption time changes, and the index stays exact |
| MemoryStores.CodeIndexIsScan | internal/store/memory/authcode.go:44-53 | a lookup through the hash index finds what a scan of all codes finds |
| MemoryStores.StoringKeepsCodeIndex | internal/store/memory/authcode.go:30-42 | storing keeps the code index exact if and only if id and hash are new or belong together already |
| MemoryStores.SessionStore.Revoke | internal/store/memory/session.go:70-84 | the named session, when stored, gains a revocation time if it has none and every other is as before; not found is reported |
| MemoryStores.SessionStore.RevokeByUserIDExcept | internal/store/memory/session.go:99-113 | revokes exactly the user's unexpired, unrevoked sessions but the kept one, and returns their ids once each |
| RefreshHandler.ChainRootCreatedAt | internal/oidc/grants/refresh.go:317-333 | the loop returns the creation time of the ancestor at most 1000 links up |
| RefreshHandler.HandleReuse | internal/oidc/grants/refresh.go:252-266 | revokes the tokens of the reused token's session, or the token alone without one; a failing revocation changes nothing |
| RefreshHandler.AnswerWinner | internal/oidc/grants/refresh.go:123-246 | answer and stored child after the compare-and-set |
| RefreshHandler.Handle | internal/oidc/grants/refresh.go:64-246 | answer and token store for every form, client, stored token and failing call; an exact index stays exact |
| RefreshAnswers.WhichRefreshesSucceed | internal/oidc/grants/refresh.go:64-246 | tokens are answered if and only if the form is complete, the client authenticated and the same, the token found, its own, unrevoked, within both expiries and unused, no call fails, the user found, the scope asked for within the token's, the tokens issued and the next token, where due, stored; the scope, child and auth time of the answer |
| RefreshAnswers.WhichErrorsRefreshesGet | internal/oidc/grants/refresh.go:82-246 | which requests get each error; a deleted user is told apart from one that cannot be looked up |
| RefreshAnswers.WhatWinnersStore | internal/oidc/grants/refresh.go:104-231 | the request that wins the token uses it up, whatever goes wrong later, and adds nothing but the next token of the chain, every field of it given |
| RefreshAnswers.WhatLosersStore | internal/oidc/grants/refresh.go:104-121 | any other request changes nothing, but detected reuse of a good token revokes exactly the unrevoked tokens of its session, or the token alone without one |
| RefreshHandler.HandlerIsARun | internal/oidc/grants/refresh.go:64-246 | the handler's effect and answer are those of a stretch of a serial run |
| RefreshHandler.WalkRuns | internal/oidc/grants/refresh.go:317-333 | the process's hops, taken one by one, end where the loop ends |
| ExchangeHandler.VerifyS256 | internal/token/pkce.go:34-50 | accepts exactly a verifier of 43 to 128 characters whose S256 image is the non-empty challenge |
| ExchangeHandler.AnswerWinner | internal/oidc/grants/authcode.go:126-215 | answer and chain root after the compare-and-set |
| ExchangeHandler.Handle | internal/oidc/grants/authcode.go:67-215 | answer, codes and tokens for every form, client, stored code and failing call; exact indexes stay exact |
| ExchangeAnswers.WhichExchangesSucceed | internal/oidc/grants/authcode.go:67-215 | tokens are answered if and only if the form is complete, the client authenticated and the same, the code found, its own for that redirect URI, unexpired and unused, the verifier right, no call fails, the user found and the tokens issued; the answer carries the code's scope and creation time |
| ExchangeAnswers.WhichErrorsExchangesGet | internal/oidc/grants/authcode.go:67-215 | which requests get each error and which no answer at all |
| ExchangeAnswers.WhatExchangesDoToCodes | internal/oidc/grants/authcode.go:107-125 | a code is used up exactly by the request that passes every check before the compare-and-set and finds it unused; no other code changes |
| ExchangeAnswers.WhatExchangesStore | internal/oidc/grants/authcode.go:185-211 | a token is stored exactly when the answer names one: the root of a chain, every field of it given |
| ExchangeAnswers.LifetimesFollowTheSettings | internal/domain/client.go:216-243 | a refresh token's lifetimes are the client's settings, or thirty days where they are not positive |
| ExchangeHandler.HandlerIsARun | internal/oidc/grants/authcode.go:67-215 | the handler's effect and answer are those of a stretch of a serial run |
| ExchangeHandler.CrashIsExact | internal/oidc/grants/authcode.go:107-112 | the answer goes missing exactly when a stored, unexpired code with a challenge and no method is presented by its client with its redirect URI |
| ExchangeHandler.ChallengeWithoutMethodIsUseless | internal/oidc/grants/authcode.go:107-112 | a code with a challenge and no method is never redeemed and the attempt changes nothing |
| CodeShapes.WhichFormsMintMethodless | internal/oidc/authorize.go:97-106 | the endpoint stores such a code exactly when neither the server's setting nor the client requires PKCE and the form has a challenge and no method |
| CodeShapes.LeavingTheMethodOut | internal/oidc/authorize.go:97-106 | an accepted form with a challenge is still accepted without its method if and only if neither the server's setting nor the client requires PKCE |
| CodeShapes.WhichCodesAreRedeemable | internal/oidc/grants/authcode.go:107-112 | a minted code can be redeemed if and only if its request had no challenge, or one with method S256 that some admissible verifier maps to |
| CodeShapes.RedeemedCodesHadAMethod | internal/oidc/grants/authcode.go:107-125 | in every interleaving a redeemed code was minted without a challenge or with method S256 |
| AuthorizeHandler.ScopeLoop | internal/oidc/authorize.go:243-254 | a scope is allowed exactly when it is not empty and all its words are |
| AuthorizeHandler.Resolve | internal/oidc/session_resolver.go:26-42 | the cookie's session exactly when it is found, unrevoked and not past its expiry |
| AuthorizeHandler.MintCode | internal/oidc/authorize.go:189-227 | the stored code carries the request, the session's user and the expiry; a refusal changes nothing and an exact index stays exact |
| AuthorizeHandler.Handle | internal/oidc/authorize.go:49-182 | which answer each request gets, told from form, client, session, settings and failing calls: errors reach the redirect URI only if it is registered, prompt none never leads to the login page, and a code is stored if and only if the request is admissible, the user signed in and known and the store willing, and handed out if the redirect URI also parses |
| AuthorizeAnswers.WhichRequestsMint | internal/oidc/authorize.go:49-182 | a code is stored if and only if the client is known, the redirect URI registered, the response type code, the scope not empty and allowed, an S256 challenge given where the server's setting or the client requires one, the age limit well formed and kept by a live session, no fresh login asked for, the user found and the store willing |
| AuthorizeAnswers.WhatIsMinted | internal/oidc/authorize.go:189-227 | every field of the code from form, client, session and configuration; a method without a challenge is dropped |
| AuthorizeAnswers.LeavingTheChallengeOut | internal/oidc/authorize.go:97-106 | a request that would get a code still gets one without challenge and method if and only if neither the server's setting nor the client requires PKCE |
| AuthorizeHandler.MintingIsARun | internal/oidc/authorize.go:189-227 | minting is a stretch of a serial run that records the request behind the code |
| Cascades.EndUserSessions | internal/oidc/profile.go:290-303 | ends exactly the targeted sessions and all tokens under them, and counts them; which sessions and tokens stay when calls fail |
| Cascades.EndOwnSession | internal/oidc/profile.go:155-205 | ends another own session, setting its revocation time if unset, with the unrevoked tokens under it, and touches no other record; a foreign, missing or current one changes nothing |
| Cascades.TerminateSession | internal/oidc/logout.go:148-169 | sign-out ends the cookie's session, setting its revocation time if unset, and the unrevoked tokens under it, and touches no other record |
| Cascades.EndAnySession | internal/admin/api.go:417-442 | an admin ends any stored session, setting its revocation time if unset, and the unrevoked tokens under it; no other record changes |
| Cascades.RevokePresented | internal/oidc/revoke.go:77-97 | an own token takes its session's tokens with it; a foreign or unknown one changes nothing |
| Cascades.CascadeIsExact | internal/admin/api.go:845-855 | exactly the targeted sessions and the unrevoked tokens under them change, all with the cascade's time; the kept session, other users' sessions and other tokens are as before |
| Cascades.WhichSessionsSurvive | internal/store/memory/session.go:99-113 | a session is usable after the cascade only at the very instant both of the cascade and of its expiry |
| Cascades.WhichTokensSurvive | internal/oidc/reset_password.go:177-187 | a token stays unrevoked if and only if its session was kept, another user's, revoked or expired |
| Cascades.TokenOfExpiredSessionSurvives | internal/store/memory/session.go:99-113 | after any cascade the root of a chain under a session that has expired by then passes the checks of a refresh if and only if it has not expired itself |
| Outliving.TokenOutlivesItsSession | internal/oidc/reset_password.go:165-187 | for every client that may get offline access and every session shorter than the reach of its refresh tokens a run from the initial state ends all of a user's sessions and then refreshes a token of the user |
| Cascades.EndedTokensStayEnded | internal/oidc/profile.go:290-303 | when a cascade ends with nobody in flight, every token it revoked keeps its record, is never renewed and gets no child, whatever interleaving follows |
| Cascades.RevokingInTurn | internal/oidc/profile.go:297-301 | ending sessions' tokens one after the other is ending them at once |
| Cascades.CascadeIsARun | internal/admin/api.go:1052-1062 | a cascade is a stretch of a serial run with the same effect |
| LoginTracker.MemoryTracker.IsLockedOut | internal/store/memory/loginattempt.go:41-57 | answer and remembered attempts after the check |
| LoginTracker.MemoryTracker.RecordFailure | internal/store/memory/loginattempt.go:59-79 | attempts after a failure: new window, counted, or counted and locked |
| LoginTracker.MemoryTracker.Reset | internal/store/memory/loginattempt.go:81-86 | after a success nothing of the key is remembered, and everything of every other key |
| LoginTracker.PersistentTracker.IsLockedOut | internal/store/gormstore/loginattempt.go:40-62 | answer, error and rows after the check, whichever statements fail |
| LoginTracker.PersistentTracker.RecordFailure | internal/store/gormstore/loginattempt.go:64-95 | rows after a failure, or unchanged when the transaction fails |
| LoginTracker.PersistentTracker.Reset | internal/store/gormstore/loginattempt.go:97-99 | after a success the key's row is gone and every other there, or nothing has changed and the failure is reported |
| LoginTracker.OneCallAgrees | internal/store/gormstore/loginattempt.go:40-99 | from corresponding states both trackers answer every call alike, and correspond again if and only if the call sets no lock at the zero time |
| LoginTracker.TrackersAgree | internal/store/gormstore/loginattempt.go:12-99 | both trackers answer every sequence of calls alike up to the first lock at the zero time |
| LoginTracker.NonZeroTimesAgree | internal/store/gormstore/loginattempt.go:12-99 | both trackers answer every sequence of calls at non-zero times alike |
| LoginTracker.ZeroTimeTellsThemApart | internal/store/memory/loginattempt.go:49-78 | after a lock at the zero time they differ exactly on questions within the lockout time |
| LoginDiscipline.Login | internal/oidc/login.go:110-136 | check, validate, record or reset: answer and tracker state for every verdict and every outage of the tracker |
| LoginDiscipline.SuccessClears | internal/store/memory/loginattempt.go:81-86 | after a validated success that reached the tracker the key has no row |
| LoginDiscipline.RowTellsThePast | internal/store/memory/loginattempt.go:59-86 | the row of a key counts exactly the failures recorded for it since its first, all within one window and with no success between, and names the one that locked |
| LoginDiscipline.LocksTakeThresholdFailures | internal/store/memory/loginattempt.go:74-77 | a key is locked only once the threshold of failures was recorded for it within one window with no success between, by the last of them |
| LoginDiscipline.LockHolds | internal/store/memory/loginattempt.go:49-51 | while the tracker can be read a key locked at a time has no credentials validated until the lockout time has passed, and then the next try is |
| LoginDiscipline.GuessesAreBounded | internal/store/memory/loginattempt.go:59-79 | when the lock covers the window any stretch of one window without success holds, beside those that met an outage, at most 2 * (n - 1) validated failures, n being the failure that locks |
| LoginDiscipline.TheBoundIsExact | internal/store/memory/loginattempt.go:59-79 | the bound holds of every run if and only if the window outlasts the lock by less than 2 * (n - 1) - 1 ticks |
| LoginDiscipline.TheBoundIsReached | internal/store/memory/loginattempt.go:59-79 | with a window of at least 2 * (n - 1) ticks some run reaches the bound |
| LoginDiscipline.EightGuessesFit | internal/store/memory/loginattempt.go:28-38 | with the default limits the bound, eight, is reached |
| LoginDiscipline.NeverLocksAgain | internal/store/memory/loginattempt.go:74-77 | once a lock has run out inside its window every guess up to the window's end is validated |
| LoginDiscipline.ShortLockBreaksTheBound | internal/store/memory/loginattempt.go:74-77 | whenever the lock does not cover the window some run without success or outage has two validated failures more in a window than the window outlasts the lock by |
| LoginRaces.OverlappingGuessesAreBounded | internal/oidc/login.go:110-136 | with a lock at least as long as the window and up to m sign-ins on a key past the lock check at a time, any stretch of one window without success holds at most 2 * (n + m - 2) recorded failures |
| LoginRaces.OverlappingGuessesFit | internal/oidc/login.go:110-136 | for every m above one and every window of at least that many ticks some run reaches that bound |
| LoginRaces.LateFailureClearsTheLock | internal/store/memory/loginattempt.go:67-72 | a run in which a failure recorded after the row's window clears a lock that has not run out |
| LoginRaces.WhatAFailureLeavesLocked | internal/store/memory/loginattempt.go:59-78 | a recorded failure leaves a key locked exactly if it was locked and the window of its row is not over |
| LoginRaces.SignInAlone | internal/oidc/login.go:110-136 | a sign-in that overlaps with none is two such events, or one if its key is locked, with the effect of the whole sign-in |
| RateLimiter.LoginRateLimiter.constructor | internal/server/ratelimit.go:39-53 | settings below one fall back to ten requests and a burst of five; idle time ten minutes |
| RateLimiter.LoginRateLimiter.Allow | internal/server/ratelimit.go:57-72 | answer and buckets after a request |
| RateLimiter.LoginRateLimiter.Sweep | internal/server/ratelimit.go:78-88 | the loop removes exactly the buckets idle for the idle time, at most once per idle time |
| RateLimiter.SweepingIsLossless | internal/server/ratelimit.go:74-88 | the limiter answers every request sequence like one that never forgets an address if and only if a drained bucket refills within the idle time |
| RequestBudget.WhichRequestsAreAdmitted | internal/server/ratelimit.go:57-72 | a request is admitted if and only if, counted from any earlier admitted request of its address, it keeps the number admitted within burst plus rate times the time since |
| RequestBudget.TheLimiterAdmits | internal/server/ratelimit.go:57-88 | where a drained bucket refills within the idle time the sweeping limiter admits exactly those |
| RateLimiter.DeployedLimiterIsLossless | cmd/authserver/main.go:542-543 | with a burst equal to the rate sweeping is lossless |
| RateLimiter.OldBucketsAreGone | internal/server/ratelimit.go:78-88 | after a call every bucket left was seen less than two idle times ago |
| ReplayCache.MemAssertionCache.CheckAndStore | internal/token/clientassertion.go:91-107 | expired entries are dropped, then the use is new exactly if its key is not left, and is recorded |
| ReplayCache.MemAssertionCache.Verify | internal/token/clientassertion.go:123-231 | the cache is asked exactly when every other rule holds, the time check with its skew among them; an assertion that fails one burns nothing |
| ReplayCache.AnyAudienceMatch | internal/token/clientassertion.go:252-264 | the double loop accepts exactly when some presented audience matches some accepted one, or none is configured |
| ReplayCache.RefusedExactlyWhenRemembered | internal/token/clientassertion.go:91-107 | with a clock that never goes back a use is refused exactly when an earlier accepted use of its key recorded an expiry not before now |
| ReplayCache.SharedKey | internal/token/clientassertion.go:101 | exactly which pairs of client and jti share a key |
| ReplayCache.KeysTellPairsApart | internal/token/clientassertion.go:74-77 | keys differ for different pairs when client ids hold no separator |
| ReplayCache.SeparatorInIdCollides | internal/token/clientassertion.go:101 | with a separator in an id a first use can be refused for another client's |
| ReplayCache.OneUseUntilExpiry | internal/token/clientassertion.go:64-107 | for ids without the separator a use is refused exactly when the same client's same jti was accepted and has not expired |
| ReplayCache.AcceptedOnceUntilExpiry | internal/token/clientassertion.go:91-107 | an assertion is accepted if and only if it was not accepted before or is presented after its expiry |
| ReplayCache.SkewAllowsASecondUse | internal/token/clientassertion.go:179-187 | some assertion can be accepted twice if and only if the skew is at least two ticks |
| ReplayCache.WhatIsAccepted | internal/token/clientassertion.go:179-215 | with a clock that never goes back a presentation is accepted if and only if it names the expected issuer and subject and an accepted audience, has a jti, comes before expiry plus skew, and no earlier accepted one of its key is unexpired |
| ReplayCache.OnlyGoodOnesAreAccepted | internal/token/clientassertion.go:179-215 | whatever is accepted, at whatever clock, names the expected issuer and subject and an accepted audience, has a jti and comes before expiry plus skew |
| ReplayCache.UsesAreInTime | internal/token/clientassertion.go:179-187 | the calls that reach the cache come before their expiry plus the skew, in the order of the clock |
| ReplayCache.OneAssertionIsAcceptedOnce | internal/token/clientassertion.go:179-215 | one assertion presented again and again is accepted at most once up to its expiry and every time after it until the skew is used up |
| ReplayCache.WhichSkewsAllowReplay | internal/token/clientassertion.go:179-187 | the verifier can be made to accept one assertion twice if and only if the skew is at least two ticks |
| SigningKeys.SigningKeyStore.GetActive | internal/store/memory/signingkey.go:22-32 | the active key stored first, or none if none is active |
| SigningKeys.SigningKeyStore.GetAll | internal/store/memory/signingkey.go:34-42 | every key in the order of storing |
| SigningKeys.SigningKeyStore.Store | internal/store/memory/signingkey.go:44-58 | stores or replaces a key, keeps its place in the order, refuses a missing key or empty id |
| SigningKeys.EnsureActiveKey | internal/token/keys.go:42-51 | returns an active key and stores a new one only if none was active; a failing read or write is an error that changes nothing |
| SigningKeys.Rotate | internal/token/keys.go:68-91 | stores the new active key and then retires the one active before, keeping its id, public key and creation; which keys are left when the read, the first or the second write fails |
| SigningKeys.PublicJWKSet | internal/token/keys.go:149-178 | publishes every stored key, active or retired |
| KeyRotation.SomeKeyIsAlwaysActive | internal/token/keys.go:53-91 | in every interleaving of rotations and issuers, whichever writes fail, some key is active, no issuer makes its own, and every key that ever signed is published |
| KeyRotation.ActiveKeysAreBalanced | internal/token/keys.go:53-91 | in every interleaving the active keys number one plus failed retirements plus rotations between their writes plus retirements of a key retired before |
| KeyRotation.OneKeyIsLeftExactly | internal/token/keys.go:65-67 | with no rotation in flight exactly one key is active if and only if no retirement has failed and no two rotations that stored a key had read the same one |
| KeyRotation.ActiveKeysAreCounted | internal/admin/api.go:554-564 | with one rotation at a time the active keys number one plus failed retirements plus the overlap of the rotation in flight |
| KeyRotation.OverlapLeavesOneTooMany | internal/token/keys.go:65-67 | in any state two rotations in flight that read the same key, run to their ends, replace it by two active keys |
| KeyRotation.SharedReadLeavesTwo | internal/token/keys.go:65-67 | a run from one active key in which every write succeeds and two keys stay active |
| KeyRotation.OverlapCanLeaveOne | internal/token/keys.go:65-67 | a run in which two rotations are between their writes at one time and one key is left |
| KeyRotation.RotateIsARun | internal/token/keys.go:68-91 | the manager's rotation, whichever of its store calls fail, is a stretch of such a run with its effect |
| PasswordReset.PasswordResetStore.Create | internal/store/memory/password_reset.go:26-42 | stores a token unless it is missing, has no hash or repeats one |
| PasswordReset.PasswordResetStore.FindByHash | internal/store/memory/password_reset.go:44-54 | finds a token with the hash if there is one |
| PasswordReset.PasswordResetStore.Consume | internal/store/memory/password_reset.go:56-67 | true exactly for the call that finds the token unconsumed and unexpired |
| PasswordReset.PasswordResetStore.InvalidateForUser | internal/store/memory/password_reset.go:69-80 | exactly the user's unconsumed tokens become consumed |
| PasswordReset.PasswordResetStore.DeleteExpired | internal/store/memory/password_reset.go:82-93 | removes exactly the tokens expired before the cutoff and counts them |
| PasswordReset.Forgot | internal/oidc/forgot_password.go:96-142 | housekeeping, throttle, invalidation and new token, for every account and every failing call: its effect on the store is one of the handler effects below |
| PasswordReset.Throttle | internal/oidc/forgot_password.go:114-121 | to the tracker a request is a failed try, so the bound on guesses is a bound on links |
| PasswordReset.Issue | internal/oidc/forgot_password.go:123-142 | clears the user's tokens before storing the new one; mails only if everything worked |
| PasswordReset.Reset | internal/oidc/reset_password.go:105-187 | spends the link, sets the password, then clears other links, sessions and tokens; what a failing call ends and what is still done after it |
| PasswordReset.CleanUp | internal/oidc/reset_password.go:165-187 | each clean-up call is made whether or not the one before failed |
| PasswordReset.OnlyTheNewestLinkWorks | internal/oidc/forgot_password.go:128-142 | any sequence of the effects that the methods for asking, using and clearing are proved to have leaves each user at most one unconsumed token, whichever calls fail |
| PasswordReset.WhatForgettingDoes | internal/oidc/forgot_password.go:96-142 | what a request for a link does to each stored token, housekeeping and every failing call included: it uses up the user's other usable ones, and the new one is stored exactly if nothing fails |
| PasswordReset.WhatUsingDoes | internal/oidc/reset_password.go:138-172 | a use of a link uses up that link alone, or with it the user's other usable ones, and changes no other token |
| PasswordReset.WhoIsIssuedALink | internal/oidc/forgot_password.go:106-131 | a token is issued exactly to an account with an address that is not known to be locked; it is unused, the account's, and good for the lifetime from now |
| PasswordReset.HousekeepingIsInvisible | internal/oidc/forgot_password.go:100-102 | deleting what expired more than a day ago changes no later lookup or consume answer |
| ResetRaces.OneChangePerLink | internal/oidc/reset_password.go:138-164 | in every interleaving a link changes at most one password, once, its own user's, and only if won before it expired |
| ResetRaces.OneLinkUnlessOvertaken | internal/oidc/forgot_password.go:128-142 | up to any state of any interleaving each user always has at most one usable link if and only if no request, on storing its token, finds one usable that another stored for the user since it cleared |
| ResetRaces.OneAtATimeLeavesOne | internal/oidc/forgot_password.go:128-142 | requests held one at a time leave one, whatever else is interleaved |
| ResetRaces.OverlappingRequestsLeaveTwo | internal/oidc/forgot_password.go:128-142 | a run from the initial state in which two requests overlap and two links work |
| ResetRaces.ResetIsARun | internal/oidc/reset_password.go:138-176 | the reset handler on its own is a stretch of steps with its effect |
| ResetRaces.AskingIsARun | internal/oidc/forgot_password.go:123-142 | a request past its throttle on its own is a stretch of steps with its effect, whichever call fails |
| ClientRegistry.CleanStringList | internal/domain/client.go:170-188 | the loop computes the cleaned list |
| ClientRegistry.CleanKeepsFirstAppearances | internal/domain/client.go:170-188 | each non-empty trimmed entry once, in the order and at the place of its first appearance |
| ClientRegistry.RemoveScope | internal/domain/client.go:199-210 | the loop computes the list without the scope |
| ClientRegistry.WithoutKeeps | internal/domain/client.go:199-210 | exactly the entries that are not the scope up to case remain; a list without it is unchanged |
| ClientRegistry.WithoutKeepsOrder | internal/domain/client.go:199-210 | what remains keeps its order and its repetitions |
| ClientRegistry.WhatFolds | internal/domain/client.go:190-197 | a lower-case scope matches itself in any mixture of cases, and besides only with the long s and the Kelvin sign |
| ClientRegistry.ClientRecord.ApplyProfile | internal/domain/client.go:80-100 | the record's fields after a profile is applied |
| ClientRegistry.ClientRecord.Normalize | internal/domain/client.go:104-127 | the record's fields after normalising |
| ClientRegistry.ScopesKeepTheirOrder | internal/domain/client.go:117-127 | normalised scopes come in the order given, openid put in front and offline_access at the end where missing |
| ClientRegistry.ScopesAreKept | internal/domain/client.go:104-127 | normalising keeps every scope, trimmed, but offline_access where refresh tokens are not allowed, and adds none but openid and offline_access |
| ClientRegistry.NormalizingIsEnough | internal/domain/client.go:104-127 | normalised lists are trimmed and free of repetitions, openid is a scope, offline_access is one, up to case, exactly when refresh tokens are allowed |
| ClientRegistry.NormalFormsAreFixedPoints | internal/domain/client.go:104-127 | normalising changes nothing exactly on normal records, so it is idempotent |
| ClientRegistry.ProfilesReadBack | internal/domain/client.go:66-127 | applying spa, web or m2m and normalising reads back as that profile; exactly which records read back as custom |
| Words.FieldsOfJoin | internal/oidc/grants/refresh.go:135-145 | joining words with spaces and splitting again gives the words back |
| Words.FieldsAreTheWords | internal/oidc/grants/refresh.go:135-145 | splitting finds the words in order, and every character outside them is white space |
| Words.CheckSubset | internal/oidc/grants/refresh.go:300-307 | true exactly when every word of the first list is in the second |
| Words.TrimKeepsTheMiddle | internal/domain/client.go:105-107 | trimming removes white space at the two ends and nothing else |

## Left out

- HTTP, JSON, cookies, CSRF checks, routing, logging, auditing, mail and configuration: input and output around the decisions modelled here.
- JWT signing and parsing, key encodings, password hashing and URL parsing: library code; an assertion's other checks, a token issue or a password check appear as parameters that say how they came out.
- `golang.org/x/time/rate` is not part of this repository; the limiter's bucket is the standard token bucket in exact arithmetic.
- The persistent stores but for the login tracker: a conditional update is one atomic step of the protocol; object mapping, SQL and migrations are not modelled, and the two backends differ in some not-found answers.
- Locks of the in-memory stores: they are what makes a store call one step.
- Aliasing of the records that the login tracker and the limiter keep by reference in their maps: the maps hold values and each method writes the changed record back.
- The ancestor walk takes any failing lookup for a missing parent; the model's lookups by id do not fail on stored tokens, so an outage in the middle of the walk, which would report a later auth time, is not modelled.
- Refresh tokens without a session: the handlers bind every code to a session, so in reachable states the fallback of the reuse punishment that revokes a single token is not reached; the handlers model it all the same.
- The walk through the session list of one user, paging, and the order in which bulk results come back.
- The client-credentials grant, user info, identity claims, discovery, registration, password policy, roles and user administration: facts about single branches.
- The rotation that retires before it generates (data-protection keys): simpler and sequential.
- The other parts of the library's time check of an assertion, not-before and the rounding to seconds: the check is that now comes before the expiry plus the skew.
- Failing calls of the account page's and the user deletion's cascades, which stop at the first one: `Cascades.EndUserSessions` says what the calls that were made did.
- Outages of the tracker while sign-ins overlap: `LoginDiscipline` has them for sign-ins that do not.
- Overflow of 64-bit durations and counters: mathematical integers throughout.
- Case folding beyond lower-case ASCII targets, and the lifetime of access tokens.
