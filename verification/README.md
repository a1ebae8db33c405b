# ZhuoStack: sessions, limits, menus, notifications and stores

A Dafny model of the parts of ZhuoStack that are state machines or algorithms in their own right,
with proofs about every input, every run or every interleaving. Redis is a finite map from key to
value and expiry, read against a clock that only moves forward; each command and each Lua script is
one atomic step; a key is live strictly before its expiry. Database tables are finite maps. Classes
stand for the source's services and stores, with the same steps in the same order; the relations
their methods are proved against are plain functions, and the laws are lemmas about those.

| file | content |
|---|---|
| `Wrappers.dfy`, `Redis.dfy` | options and results; the key store and its typed client |
| `Sessions.dfy` (module `SessionStore`), `TokenCheck.dfy` | the session service, and the acceptance decision of the JWT strategy |
| `SessionProtocol.dfy` | logins, refreshes, revocations and token checks of all users, interleaved command by command |
| `SessionTokens.dfy`, `Revocation.dfy` | its laws: tokens, single-device sessions, revocation, the online record |
| `BrowserClient.dfy` | one browser context with its shared refresh call, on top of the session protocol |
| `Throttle.dfy`, `LoginGuard.dfy` | the rate limiter's script; captcha, failure counter and lockout of login |
| `Forest.dfy`, `Menus.dfy`, `MenuAccess.dfy` | list-to-tree building, ancestor closure, role filtering |
| `TreeTable.dfy`, `TextSearch.dfy` | search, flattening and expansion of a tree table; highlighting |
| `Notifications.dfy` | per-user read and hidden rows, list filters, the cached unread count |
| `PercentCoding.dfy`, `ObjectKeys.dfy` | percent-encoding of UTF-8 (section 2.1 of RFC 3986); storage key to record and back |
| `FileSaga.dfy`, `FileService.dfy` | uploads and removals with faults and crashes anywhere; the service's methods |
| `Dicts.dfy`, `Tabs.dfy` | the dictionary cache under renames; the tab bar |

In the session protocol, SHA-256 is an injective constructor, and every generated refresh token and
jti (the claim of section 4.1.7 of RFC 7519) is fresh. A presented refresh token is arbitrary: it may
be current, spent or invented. A job may be abandoned before any of its commands, which covers
crashes, checks that reject for a reason outside the model, and requests that skip the throttled
online refresh. The deletions of a revocation, sent together on one connection, take effect in the
order written.

The active key holds the JSON text of the jti, with its quotes, because a script compares that text.
The protocol is parametrised by the argument of that script (`Config.quotesArgument`), and its laws
hold for both: for the code, which passes the jti as it is, and for a script that is handed the JSON
text, as its comments intend.

## Where the code does not do what one might expect

Each of these is a lemma, next to the exact condition under which the expected property holds.

- The online record is never refreshed. The script of `refreshOnline` compares the stored JSON text
  with the jti without quotes, so for whatever `activate` has stored it does not match
  (`RawArgumentNeverTouches`); a refresh changes the store exactly when the two texts are equal
  (`TouchChangesExactly`). Only a new session renews the record (`OnlyNewSessionsRenewOnline`), and half
  an hour after a login a user whose requests are accepted is not shown (`AcceptedButNotShown`). What the
  order of a revocation's deletes prevents is a leak of the intended script only (`OnlineFirstWouldLeak`).
- A rejected retry signs the user out, whatever it is rejected for: the retry runs inside the error
  handling of the refresh. So does a 401 of an entry page while signed in, a mistyped password for
  example (`MistypedPasswordEndsSession`). In every run the user stays signed in if and only if no retried
  request was rejected and no request of an entry page was answered 401 (`RetryEndsSessionExactly`). A
  retry answered with another error signs out with an active session (`FailedRetryEndsSession`), and so
  does a late 401 whose second refresh overtakes the retry of the first (`LateUnauthorizedEndsSession`),
  although every refresh was accepted.
- A session may survive a revocation that overlaps its establishment: `rotateRefresh` and `activate`
  are separate commands. Without a new login, a signed-out user becomes active again in some
  continuation if and only if a login of theirs or a refresh past its rotation is in flight
  (`RevivedExactly`); refresh calls that arrive later are refused.
- The online record is bounded by the session's end plus 30 minutes exactly as long as every online
  record is written, after the active key, within the longer of the two lifetimes
  (`OnlineBoundExactly`).
- The stored refresh token and the active jti can belong to different sessions, when two jobs of a user
  have written the refresh key and not yet the active one. Writing the refresh key is safe if and only if
  no other job is halfway (`RotationIsSafeExactly`); sessions established in turn agree
  (`SessionsInTurnAgree`).
- Waiting the seconds advertised with a refusal is enough after every history if and only if the limit
  allows any call and the window is no longer than the block or than a second (`AdvertisedWaitExactly`);
  otherwise some caller is refused again (`ShortBlockRefusesAgain`).
- Five wrong passwords a quarter of an hour is the bound of attempts in turn (`GuessBound`). With at most
  k attempts in flight it is 4 + k (`OverlapBound`), no less at one instant (`OverlapComparesExactly`).
- The announcement badge counts hidden announcements as unread and lets read rows of withdrawn ones
  hide unread ones; it equals the unread list exactly when the two cancel, or when the list is empty
  and the second outweigh the first (`BadgeMatchesListExactly`).
- Two removals of one file in flight together can leave its record visible without its object, from
  every good state (`OverlapLosesObject`). Starting a removal is safe if and only if no removal in flight
  works on a file of it (`StartIsSafeExactly`).
- The cache names of a dictionary id and of a code or the list can coincide: under an id such as
  `data:x` or `list` a live entry of the other kind is answered. An id is answered as the tables do if
  and only if there is no such entry (`FindOne`, `CodeClashes`).
- A file written under one URL prefix and read under another is looked for elsewhere if and only if its
  URL starts with the prefix now read and that is not the one written (`StorageKeyRecoveredExactly`).
- Objects without a record are left by crashes of uploads and rejected roll-backs, and by nothing else
  (`OrphansExactly`).
- Moving a dictionary item clears the cache of its old dictionary only; the cache stays right exactly
  when the new one has no live answer the item belongs to (`UpdateKeepsCacheExactly`).
- Among lower-casings that keep every length, highlighted pieces match the query for every text if and
  only if each letter is lowered on its own (`PiecesMatchExactly`); a letter that becomes two shifts the
  marks (`LongerLowerCaseShifts`). Whatever happens to other texts, they match in a text whose stretches
  are lowered in place (`LoweredInPlaceMatches`).

## Model

| member | source | states |
|---|---|---|
| `Redis.RedisService.Get` | apps/api/src/database/redis.service.ts:85-98 | only a live value is returned |
| `Redis.RedisService.Set` | apps/api/src/database/redis.service.ts:100-111 | the key holds the value until now plus 1000 ms for each second of the ttl; no other key changes |
| `Redis.RedisService.CompareAndSet` | apps/api/src/database/redis.service.ts:114-149 | replaces exactly when the live value is the expected one, with a full new ttl, and else changes nothing |
| `Redis.RedisService.GetDel` | apps/api/src/database/redis.service.ts:205-218 | returns the live value and leaves no key, so a second reader finds nothing |
| `Redis.RedisService.DelPattern` | apps/api/src/database/redis.service.ts:164-179 | in whatever order keys are reported, exactly the matching keys are gone and the rest are as before |
| `SessionStore.KeyNameInjective` | apps/api/src/modules/auth/session.service.ts:4-7 | the four key families never share a key, within or across users |
| `SessionStore.SessionService.Activate` | apps/api/src/modules/auth/session.service.ts:25-50 | the jti becomes the active one for exactly its ttl, then the online record gets the lesser of that and 30 minutes |
| `SessionStore.SessionService.RevokeUserSessions` | apps/api/src/modules/auth/session.service.ts:53-72 | active, refresh and online keys are gone, a kick leaves its mark for 30 seconds, and the answer tells whether anything was live |
| `SessionStore.SessionService.RotateRefresh` | apps/api/src/modules/auth/session.service.ts:89-101 | succeeds exactly when the stored digest is that of the presented token, and then stores the next for the whole configured lifetime |
| `SessionStore.SessionService.RefreshOnline` | apps/api/src/modules/auth/session.service.ts:115-150 | the script's effect for the raw jti; it changes nothing while the active key holds what activate stores |
| `SessionStore.TouchChangesExactly` | apps/api/src/modules/auth/session.service.ts:137-149 | a refresh changes the store if and only if the stored text is the script's argument, byte for byte, and the record has not its full time left; it then gives the online record half an hour and touches nothing else |
| `SessionStore.RawArgumentNeverTouches` | apps/api/src/database/redis.service.ts:106 | the active key holds JSON text, so for the jti without quotes the script never matches, although the session is found active |
| `SessionStore.QuotedArgumentMatchesExactly` | apps/api/src/modules/auth/session.service.ts:137-149 | for the JSON text it would match exactly for the active jti |
| `SessionStore.AcceptedButNotShown` | apps/api/src/modules/auth/session.service.ts:137-149 | half an hour after a login the check accepts the jti, the user is not shown, and the refresh leaves it so |
| `TokenCheck.JwtStrategy.Validate` | apps/api/src/modules/auth/strategies/jwt.strategy.ts:68-124 | accepts exactly a known user's unlisted token whose jti is active while no kick mark is live; notes the time when a refresh was due; never changes the store |
| `TokenCheck.KickLastsExactly` | apps/api/src/modules/auth/session.service.ts:53-72 | the mark of a kick, which makes checks answer so, is live for exactly 30 seconds; a revocation without a kick leaves the marks as they are |
| `TokenCheck.JwtStrategy.PruneRefreshMap` | apps/api/src/modules/auth/strategies/jwt.strategy.ts:51-60 | the timer loop drops exactly the entries older than the cleanup interval |
| `TokenCheck.PruningUnobservable` | apps/api/src/modules/auth/strategies/jwt.strategy.ts:51-60 | pruning never changes a later decision to refresh the online record |
| `SessionProtocol.EstablishAlone` | apps/api/src/modules/auth/auth.service.ts:279-308 | the protocol's establishing steps, uninterrupted, leave what the service methods leave |
| `SessionProtocol.LoginAlone` | apps/api/src/modules/auth/auth.service.ts:213-231 | a login that clears the kick mark, uninterrupted, removes it first and then establishes its session |
| `SessionProtocol.RevokeAlone` | apps/api/src/modules/auth/session.service.ts:53-72 | the protocol's revoking steps, uninterrupted, leave what RevokeUserSessions leaves |
| `SessionProtocol.CheckAlone` | apps/api/src/modules/auth/strategies/jwt.strategy.ts:68-124 | an uninterrupted check goes on to the online record if and only if no kick mark is live and the jti is the active one |
| `SessionProtocol.StepKeepsInv` | apps/api/src/modules/auth/auth.service.ts:267-321 | every step of every interleaving keeps the invariant on stored, pending and used tokens and jtis |
| `SessionProtocol.RunKeepsInv` | apps/api/src/modules/auth/auth.service.ts:267-321 | so does every run |
| `SessionTokens.RefreshValuesNeverRepeat` | apps/api/src/modules/auth/session.service.ts:79-101 | two different steps of one run never store the same digest under a refresh key |
| `SessionTokens.RefreshTokenUsedOnce` | apps/api/src/modules/auth/auth.service.ts:283-292 | in no run do two rotations succeed with the same presented token |
| `SessionTokens.ReplacedTokenNeverRotates` | apps/api/src/modules/auth/auth.service.ts:283-299 | a refresh token that was stored and is so no longer (overwritten, rotated, revoked or expired) is accepted by no later rotation |
| `SessionTokens.RefreshTokenLivesExactly` | apps/api/src/modules/auth/session.service.ts:79-101 | a token stored by a login or a rotation, while no other job of the user writes its key, is accepted by a rotation that presents it if and only if less than the whole configured lifetime has passed |
| `SessionTokens.SessionsInTurnAgree` | apps/api/src/modules/auth/auth.service.ts:279-308 | in every run in which a user's sessions are established in turn and none is cut off halfway, the stored refresh token was issued with the active jti whenever none is halfway |
| `SessionTokens.RotationIsSafeExactly` | apps/api/src/modules/auth/auth.service.ts:283-301 | from a state in step, writing the refresh key keeps that in all further runs in turn if and only if no other job of the user is halfway |
| `SessionTokens.InactiveJtiNeverAccepted` | apps/api/src/modules/auth/strategies/jwt.strategy.ts:105-108 | a jti that was active and is so no longer (overwritten, revoked or expired) is accepted by no later check of any continuation |
| `SessionTokens.NewerSessionEndsOlder` | apps/api/src/modules/auth/session.service.ts:25-31 | once a newer session is active, no check ever accepts the older one: single-device login |
| `Revocation.RevocationHolds` | apps/api/src/modules/auth/session.service.ts:53-72 | while no login of the user and no refresh past its rotation is in flight, the deletes of a revocation add up to neither active, refresh nor online key; refresh calls may arrive, and no check in flight recreates the record |
| `Revocation.RevivedExactly` | apps/api/src/modules/auth/auth.service.ts:279-308 | after the deletes, and without a new login, some continuation makes the user active again if and only if a login of theirs or a refresh past its rotation is in flight |
| `Revocation.ShownAgainExactly` | apps/api/src/modules/auth/session.service.ts:31-49 | and some continuation shows them online if and only if such a job, or one about to write the online record, is in flight |
| `Revocation.OnlyNewSessionsRenewOnline` | apps/api/src/modules/auth/session.service.ts:115-150 | with the argument the code passes, however many checks are accepted, only a new session renews the online record |
| `Revocation.OnlineFirstWouldLeak` | apps/api/src/modules/auth/session.service.ts:62-66 | for a script that is handed the JSON text, deleting the online key before the active one lets a check recreate it, and the order written does not; with the code's argument neither order does |
| `Revocation.EstablishOutlivesRevocation` | apps/api/src/modules/auth/auth.service.ts:283-308 | what is left of a login, or of a refresh past its rotation, makes its session active and shows it, whatever was revoked before |
| `Revocation.WithinLifetimeIsOnTime` | apps/api/src/modules/auth/session.service.ts:31-49 | an activation that finishes within the session lifetime is on time |
| `Revocation.OnlineBoundExactly` | apps/api/src/modules/auth/session.service.ts:25-50 | throughout a run every online record expires before the last active expiry plus 1800 s, if and only if each is written less than max(token lifetime, 1800 s) after the last write of the active key |
| `BrowserClient.StepKeepsInv` | apps/web/src/lib/api-client.ts:41-61 | every step of browser and servers keeps the cookie in step with the stored token, or with the one refresh in flight |
| `BrowserClient.SharedRefreshAlwaysAccepted` | apps/web/src/lib/api-client.ts:95-123 | however requests, 401s and rotations interleave: every refresh call is accepted, at most one is in flight, and refresh calls never outnumber requests |
| `BrowserClient.AccessCookieIsActive` | apps/api/src/modules/auth/auth.controller.ts:195-211 | in every undisturbed run from a login, whenever no refresh is in flight and the active key is live, the access cookie is the active jti |
| `BrowserClient.FreshRequestIsHandled` | apps/web/src/lib/api-client.ts:41-61 | so a request sent then, and evaluated before the next rotation while the session lives, is not answered 401 by an endpoint that handles it |
| `BrowserClient.ResentRequestIsHandled` | apps/web/src/lib/api-client.ts:108-111 | and neither is a request that waited for a refresh and is sent again |
| `BrowserClient.OldRequestIsRefused` | apps/api/src/modules/auth/strategies/jwt.strategy.ts:105-108 | in every run, a request sent with a session that has since been replaced, revoked or has expired is answered 401 |
| `BrowserClient.WaitersExactly` | apps/web/src/lib/api-client.ts:95-123 | in every run, disturbed or not, a refresh is out if and only if a request waits for it |
| `BrowserClient.RetryEndsSessionExactly` | apps/web/src/lib/api-client.ts:95-137 | in every run of a signed-in browser, disturbed or not, the user is signed in if and only if no retried request was rejected and no request of an entry page was answered 401 |
| `BrowserClient.FailedRetryEndsSession` | apps/web/src/lib/api-client.ts:108-122 | from every fresh login: a 401, an accepted refresh, a retry answered with another error, and the user is signed out with an active session |
| `BrowserClient.MistypedPasswordEndsSession` | apps/web/src/lib/api-client.ts:101-137 | from every fresh login: a 401 of the login page signs out, with no retry and no refresh |
| `BrowserClient.LateUnauthorizedEndsSession` | apps/web/src/lib/api-client.ts:101-137 | from every fresh login, two requests and two accepted refreshes can end the session |
| `Throttle.ToSeconds` | apps/api/src/common/throttling/redis-throttler.storage.ts:88-90 | the least whole number of seconds that covers the milliseconds |
| `Throttle.RedisThrottlerStorage.RunScript` | apps/api/src/common/throttling/redis-throttler.storage.ts:8-37 | the script refines one hit of the meter and reports its decision, count and remaining times, when blocked too |
| `Throttle.RedisThrottlerStorage.Increment` | apps/api/src/common/throttling/redis-throttler.storage.ts:50-86 | the same for a named key, in whole seconds, other keys unchanged |
| `Throttle.OtherKeysUntouched` | apps/api/src/common/throttling/redis-throttler.storage.ts:69-74 | two keys without a colon share neither counter nor block |
| `Throttle.OtherThrottlersUntouched` | apps/api/src/common/throttling/redis-throttler.storage.ts:69-74 | nor do any keys of two throttlers whose names have no colon |
| `Throttle.AdmittedExactly` | apps/api/src/common/throttling/redis-throttler.storage.ts:22-34 | for any arrivals, with windows defined from the times alone (one opens at the first unblocked call at or after the last opening plus ttl): a call is admitted if and only if it is unblocked and among the first limit unblocked calls since the opening; its count is its rank there, the window ends ttl after the opening, and a refusal blocks for the block |
| `Throttle.HitSpendsBudget` | apps/api/src/common/throttling/redis-throttler.storage.ts:22-34 | a call spends at least what it admits from what can still be admitted in an interval |
| `Throttle.IntervalBound` | apps/api/src/common/throttling/redis-throttler.storage.ts:8-37 | for any arrival times, an interval of length L admits at most limit times (L / ttl + 2) calls |
| `Throttle.WindowAdmitsFirst` | apps/api/src/common/throttling/redis-throttler.storage.ts:22-34 | each window admits exactly its first limit unblocked calls |
| `Throttle.ReturnAfterBlock` | apps/api/src/common/throttling/redis-throttler.storage.ts:15-34 | a refused caller who next comes after the block is admitted if and only if the limit allows any call and the window has ended |
| `Throttle.AdvertisedWaitSuffices` | apps/api/src/common/throttling/redis-throttler.storage.ts:69-90 | with a window no longer than the block, or than a second, waiting the advertised seconds is enough after any history |
| `Throttle.ShortBlockRefusesAgain` | apps/api/src/common/throttling/redis-throttler.storage.ts:28-31 | for every other setting, a history after which the caller waits the advertised seconds and is refused again |
| `Throttle.AdvertisedWaitExactly` | apps/api/src/common/throttling/redis-throttler.storage.ts:8-37 | waiting the advertised seconds is enough after every history if and only if limit >= 1 and ttl <= max(block, 1000) |
| `LoginGuard.AuthService.VerifyCaptcha` | apps/api/src/modules/auth/auth.service.ts:446-453 | true exactly for the live, non-empty answer; the captcha is gone afterwards in every case |
| `LoginGuard.AuthService.RecordLoginFailure` | apps/api/src/modules/auth/auth.service.ts:458-477 | counts in a window of a quarter of an hour that the first failure opens and later ones do not prolong |
| `LoginGuard.AuthService.Login` | apps/api/src/modules/auth/auth.service.ts:167-231 | the password counts only behind a solved captcha and no lock; a wrong one is a hit of the limiter's meter with limit 4 and locks for a quarter of an hour, an unknown email counts without locking, a success clears the counter |
| `LoginGuard.LockedExactly` | apps/api/src/modules/auth/auth.service.ts:200-211 | for any times of wrong passwords, the account is locked if and only if one of them, less than a quarter of an hour before, was compared and at least the fifth since the first of its window |
| `LoginGuard.GuessesAreAdmitted` | apps/api/src/modules/auth/auth.service.ts:200-211 | the compared guesses of a run are exactly what a limiter of five calls a window admits |
| `LoginGuard.GuessBound` | apps/api/src/modules/auth/auth.service.ts:161-211 | with no success in between, an interval of length L compares at most 5 * (L / 15 min + 2) wrong passwords |
| `LoginGuard.AttemptAlone` | apps/api/src/modules/auth/auth.service.ts:178-211 | an attempt whose commands are not interleaved does to the account what Login does with a wrong password |
| `LoginGuard.OverlapBound` | apps/api/src/modules/auth/auth.service.ts:178-211 | in every interleaving with at most k attempts in flight, an interval of length L compares at most (4 + k) * (L / 15 min + 2) wrong passwords |
| `LoginGuard.OverlapComparesExactly` | apps/api/src/modules/auth/auth.service.ts:178-211 | no such interleaving compares more than a given number at one instant if and only if the number is at least 4 + k |
| `Menus.BuildIsTheMirror` | apps/api/src/modules/system/menu/menu.service.ts:151-158 | a forest mirrors the list (children of a node are exactly its rows, in list order) if and only if it is the built one |
| `Menus.TreeContents` | apps/api/src/modules/auth/auth.service.ts:412-419 | on any list with unique ids, cycles and orphans included, the tree holds exactly the rows whose parent chain reaches null, each once |
| `Menus.PathFits` | apps/api/src/modules/auth/auth.service.ts:412-419 | no chain of parents from null is longer than the list: why the recursion ends |
| `Menus.PathUnique` | apps/api/src/modules/auth/auth.service.ts:412-419 | a row has at most one chain of parents from null |
| `Menus.BuildFlattenBuild` | apps/api/src/modules/system/menu/menu.service.ts:151-158 | building, flattening and building again gives the same tree |
| `Menus.RebuildForest` | apps/api/src/modules/system/menu/menu.service.ts:151-158 | every forest with consistent parent links and unique ids is rebuilt from its preorder list |
| `Menus.DepthIsChainLength` | apps/web/src/components/common/tree-table.tsx:132-162 | a row's depth is the length of its chain of parents |
| `MenuAccess.CompleteAncestors` | apps/api/src/modules/auth/auth.service.ts:397-405 | the loop ends on any parent graph with the least superset of the granted ids closed under the parent link, though each walk stops at the first id present |
| `MenuAccess.FilteredTreeIsPruned` | apps/api/src/modules/auth/auth.service.ts:407-419 | the tree of the permitted rows is the full tree pruned at the first row not permitted |
| `MenuAccess.PrunedRows` | apps/api/src/modules/auth/auth.service.ts:397-409 | over a closed id set, pruning loses no permitted row of the tree |
| `MenuAccess.GetUserMenus` | apps/api/src/modules/auth/auth.service.ts:359-410 | an admin gets the whole tree, anybody else the whole tree pruned to the least closed superset of what the roles grant |
| `MenuAccess.NonAdminSeesGranted` | apps/api/src/modules/auth/auth.service.ts:369-410 | a granted active menu whose ancestors are all active is shown |
| `TreeTable.CollectParentIds` | apps/web/src/components/common/tree-table.tsx:77-90 | the ids of the nodes with children |
| `TreeTable.ParentIdsMeans` | apps/web/src/components/common/tree-table.tsx:77-90 | an id is collected if and only if some row of the forest names it as its ancestor |
| `TreeTable.CountIsLength` | apps/web/src/components/common/tree-table.tsx:95-100 | the count is the length of the preorder list |
| `TreeTable.CollectSearchState` | apps/web/src/components/common/tree-table.tsx:105-127 | the three sets grow by the matched, opened and included ids of the forest |
| `TreeTable.HitMeans` | apps/web/src/components/common/tree-table.tsx:105-127 | a row matches if and only if its text in lower case has the query as a stretch |
| `TreeTable.FlattenTree` | apps/web/src/components/common/tree-table.tsx:132-162 | the loop computes the recursive rows |
| `TreeTable.FlagsMean` | apps/web/src/components/common/tree-table.tsx:132-162 | a row is marked as expanded when its id is, and as having children if and only if a child is among the included ones |
| `TreeTable.RowsArePicked` | apps/web/src/components/common/tree-table.tsx:132-162 | the rows are, in preorder, the nodes included together with all ancestors, all of them expanded; a level is the depth |
| `TreeTable.FullyExpanded` | apps/web/src/components/common/tree-table.tsx:77-162 | fully expanded, every node is listed in preorder at its depth, countTreeNodes of them |
| `TreeTable.RebuildFromTable` | apps/web/src/components/common/tree-table.tsx:132-162 | building from the rows of the fully expanded table gives back any forest with consistent links and unique ids |
| `TreeTable.BuildFlattenBuild` | apps/api/src/modules/system/menu/menu.service.ts:151-158 | building from a list, flattening fully expanded and building again gives the same tree, from countTreeNodes rows |
| `TreeTable.IncludedIsRelevant` | apps/web/src/components/common/tree-table.tsx:105-127 | with unique ids, a node is included exactly when it matches or has a matching descendant |
| `TreeTable.SearchShows` | apps/web/src/components/common/tree-table.tsx:253-288 | a search shows exactly the matches and their ancestors that have no collapsed proper ancestor, in preorder |
| `TreeTable.AncestorPlaced` | apps/web/src/components/common/tree-table.tsx:132-162 | with unique ids, the ancestors of an ancestor are a prefix of a node's own |
| `TreeTable.Table.VisibleList` | apps/web/src/components/common/tree-table.tsx:236-288 | without a search the expanded rows, all of them when everything is expanded; during one the rows SearchShows and LinesAreFound describe; the expanded flag of a row |
| `TreeTable.LinesAreFound` | apps/web/src/components/common/tree-table.tsx:236-288 | the rows shown during a search are exactly those that have the query in their text or below them, under no collapsed ancestor |
| `TreeTable.Table.HandleToggle` | apps/web/src/components/common/tree-table.tsx:298-314 | flips the expansion of one id, keeping every other; a search does not touch the normal expansion, nor the reverse |
| `TreeTable.Table.HandleToggleExpandAll` | apps/web/src/components/common/tree-table.tsx:316-323 | goes from all expanded to none and from anything else to all |
| `TextSearch.FirstFromMeans` | apps/web/src/components/common/tree-table.tsx:167-192 | the next match is the first occurrence at or after the cursor, or there is none |
| `TextSearch.MarksCoverOccurrences` | apps/web/src/components/common/tree-table.tsx:167-192 | the marks are occurrences, do not overlap, and every occurrence meets one |
| `TextSearch.HighlightText` | apps/web/src/components/common/tree-table.tsx:167-192 | the pieces joined are the text, and the marked ones are the stretches at the matches |
| `TextSearch.PiecesMatchExactly` | apps/web/src/components/common/tree-table.tsx:167-192 | among lower-casings that keep every length, all marked pieces always match the query if and only if each letter is lowered on its own |
| `TextSearch.LoweredInPlaceMatches` | apps/web/src/components/common/tree-table.tsx:167-192 | in a text whose stretches are lowered as in the whole, all marked pieces match every query |
| `TextSearch.LettersMatchExactly` | apps/web/src/components/common/tree-table.tsx:167-192 | in a text that keeps its length, the pieces marked for single letters match if and only if each of its letters is lowered on its own |
| `TextSearch.LongerLowerCaseShifts` | apps/web/src/components/common/tree-table.tsx:167-192 | a letter that becomes two shifts the marks: a concrete text |
| `Notifications.ReadAndUnreadSplit` | apps/api/src/modules/notification/notification.service.ts:46-153 | the read and unread lists are disjoint, together the whole list, flags agree with the filter, and nothing hidden appears |
| `Notifications.AnnouncementCountExactly` | apps/api/src/modules/notification/notification.service.ts:181-214 | the announcement count is max(0, U + H - R), the system count is the personal unread list, and the total is their sum |
| `Notifications.BadgeMatchesListExactly` | apps/api/src/modules/notification/notification.service.ts:181-214 | it equals the unread list if and only if H = R, or U = 0 and H < R |
| `Notifications.AllReadClears` | apps/api/src/modules/notification/notification.service.ts:261-294 | after marking all as read no unread item is listed, and the total is max(0, H - R) |
| `Notifications.NotificationService.AnnouncementFilter` | apps/api/src/modules/notification/notification.service.ts:46-110 | on published announcements, the id filter assembled from read and hidden rows selects exactly the listed ones |
| `Notifications.NotificationService.GetUserNotifications` | apps/api/src/modules/notification/notification.service.ts:43-166 | the ids listed for each type and read filter |
| `Notifications.NotificationService.GetUnreadCount` | apps/api/src/modules/notification/notification.service.ts:171-218 | cached or not, the count is the one recomputed from the tables |
| `Notifications.NotificationService.MarkAsRead` | apps/api/src/modules/notification/notification.service.ts:223-256 | the read row or flag it sets, its refusals, and a cache that agrees for every user |
| `Notifications.MarkedAnnouncement` | apps/api/src/modules/notification/notification.service.ts:223-256 | a published announcement marked as read is in the read list and not in the unread one, unless hidden, in which case it is in neither |
| `Notifications.MarkedNothingElse` | apps/api/src/modules/notification/notification.service.ts:223-256 | no other id and no other user's lists change |
| `Notifications.MarkedMessage` | apps/api/src/modules/notification/notification.service.ts:223-256 | an own message marked as read is in the read list and not in the unread one |
| `Notifications.MarkedMessageNothingElse` | apps/api/src/modules/notification/notification.service.ts:223-256 | no other id and no other user's lists change |
| `Notifications.NotificationService.MarkAllAsRead` | apps/api/src/modules/notification/notification.service.ts:261-294 | every visible published announcement and personal message becomes read, and the cache agrees |
| `Notifications.AllReadLists` | apps/api/src/modules/notification/notification.service.ts:261-294 | after marking all as read the read list is the whole list of before |
| `Notifications.AllReadOthersLists` | apps/api/src/modules/notification/notification.service.ts:261-294 | and no other user's lists change |
| `Notifications.NotificationService.RemoveByUser` | apps/api/src/modules/notification/notification.service.ts:299-331 | an announcement is hidden for that user only, an own message deleted, and the cache agrees |
| `Notifications.HiddenForOne` | apps/api/src/modules/notification/notification.service.ts:299-331 | a hidden announcement is in no list of that user; every other id and user keeps its place |
| `Notifications.DeletedEverywhere` | apps/api/src/modules/notification/notification.service.ts:499-514 | a deleted notification is in no list of any user; every other id keeps its place |
| `Notifications.NotificationService.SendNotification` | apps/api/src/modules/notification/notification.service.ts:338-384 | the pushed count is the recomputed one of the receiver, and the cache agrees |
| `Notifications.SentMessage` | apps/api/src/modules/notification/notification.service.ts:338-384 | a sent message is unread for its receiver and in no list of any other user |
| `Notifications.NotificationService.CreateAnnouncement` | apps/api/src/modules/notification/notification.service.ts:389-413 | published unless stated otherwise; every user's cached count agrees |
| `Notifications.NotificationService.UpdateAnnouncement` | apps/api/src/modules/notification/notification.service.ts:418-440 | title and content only, not of a withdrawn one; needs no invalidation |
| `Notifications.NotificationService.PublishAnnouncement` | apps/api/src/modules/notification/notification.service.ts:445-463 | exactly a draft is published, nothing else changes, and the cache agrees |
| `Notifications.NotificationService.RevokeAnnouncement` | apps/api/src/modules/notification/notification.service.ts:468-494 | exactly a published one is withdrawn, nothing else changes, and the cache agrees |
| `Notifications.StatusDecides` | apps/api/src/modules/notification/notification.service.ts:445-494 | a published announcement is listed for everybody but those who have hidden it, unread for those without a row on it; any other status lists it for nobody |
| `Notifications.NotificationService.RemoveAnnouncement` | apps/api/src/modules/notification/notification.service.ts:499-514 | the announcement goes with its read rows, and the cache agrees |
| `PercentCoding.DecodeEncode` | apps/api/src/modules/system/file/file.service.ts:452 | one decode undoes the encoding of any string |
| `PercentCoding.DecodeOne` | apps/api/src/modules/system/file/storage/file-storage.service.ts:271-273 | an encoded character is decoded as itself whatever follows |
| `PercentCoding.UnreservedExactly` | apps/api/src/modules/system/file/storage/file-storage.service.ts:271-273 | a character is left as it is if and only if it is unreserved |
| `PercentCoding.EncodedCharacter` | apps/api/src/modules/system/file/storage/file-storage.service.ts:271-273 | every other is written as its UTF-8 bytes, three characters to a byte |
| `PercentCoding.DecodeAfterSlash` | apps/api/src/modules/system/file/file.service.ts:452 | what follows a slash decodes to less than the whole text: escapes never reach over a slash |
| `PercentCoding.Utf8Determines` | apps/api/src/modules/system/file/storage/file-storage.service.ts:271-273 | the UTF-8 bytes of a character determine it |
| `ObjectKeys.DecodeObjectKey` | apps/api/src/modules/system/file/storage/file-storage.service.ts:271-273 | one decode of the whole undoes the encoding segment by segment |
| `ObjectKeys.PutMeans` | apps/api/src/modules/system/file/storage/file-storage.service.ts:52-145 | the key stored is the object prefix, a slash and the key, and the URL the storage's base with the encoded key |
| `ObjectKeys.LongerPrefixNeverMatches` | apps/api/src/modules/system/file/file.service.ts:450-454 | a url prefix that ends in several slashes never matches, so the fallback is taken |
| `ObjectKeys.StorageKeyRecovered` | apps/api/src/modules/system/file/file.service.ts:446-455 | for every key, object prefix, url prefix and storage, the key recovered from the record is the key stored |
| `ObjectKeys.StorageKeyRecoveredExactly` | apps/api/src/modules/system/file/file.service.ts:446-455 | written and read under different settings, the key is recovered if and only if the file is not local, its URL does not start with the prefix now read, or that is the prefix written |
| `ObjectKeys.ShorterPrefixRecoversElse` | apps/api/src/modules/system/file/file.service.ts:446-455 | a file written under /files/x and read under /files is looked for elsewhere |
| `FileSaga.UploadsAreGenuine` | apps/api/src/modules/system/file/storage/file-storage.service.ts:52-145 | a removal looks for an uploaded object where it lies |
| `FileSaga.StepKeepsInv` | apps/api/src/modules/system/file/file.service.ts:511-551 | every step, fault and crash of uploads and removals keeps the saga's invariant, except the start of a removal that shares a file with one in flight |
| `FileSaga.ActiveRecordsKeepObjects` | apps/api/src/modules/system/file/file.service.ts:256-294 | in every state of every run whose removals in flight share no file, an ACTIVE record has its object |
| `FileSaga.RemovalEnds` | apps/api/src/modules/system/file/file.service.ts:521-548 | at its end succeeded and failed ids partition the input, the former have neither record nor object, the latter are ACTIVE with their object |
| `FileSaga.StartIsSafeExactly` | apps/api/src/modules/system/file/file.service.ts:511-518 | in every good state, all further runs without overlaps keep every visible record its object if and only if the removal started shares no file with one in flight |
| `FileSaga.OverlapLosesObject` | apps/api/src/modules/system/file/file.service.ts:511-551 | from every good state with a visible file, two overlapping removals can leave it visible without its object |
| `FileSaga.OrphansExactly` | apps/api/src/modules/system/file/file.service.ts:256-294 | in every run without overlaps, an object is of no record and no upload in flight if and only if the crash of its upload or a rejected roll-back left it |
| `FileService.FileService.CreateFileRecord` | apps/api/src/modules/system/file/file.service.ts:256-294 | a recorded upload, or a roll-back that removes the object unless it faults too |
| `FileService.UploadAlone` | apps/api/src/modules/system/file/file.service.ts:256-294 | an upload of the saga, uninterrupted, leaves the record and object that CreateFileRecord does, with and without its faults |
| `FileService.FileService.RemoveFiles` | apps/api/src/modules/system/file/file.service.ts:511-551 | objects and rows left for every combination of outcomes and faults; success only when every row is gone; a key that cannot be decoded leaves all rows hidden and the deletions before it under way |
| `FileService.OutcomesPartition` | apps/api/src/modules/system/file/file.service.ts:521-531 | no id is lost or listed twice |
| `FileService.RemovalOutcome` | apps/api/src/modules/system/file/file.service.ts:511-551 | hiding, deleting and restoring leave exactly the rows without the succeeded ones, as they were |
| `FileService.OutcomeMeans` | apps/api/src/modules/system/file/file.service.ts:521-531 | an id is listed as succeeded or failed if and only if its deletion was |
| `FileService.RowsMean` | apps/api/src/modules/system/file/file.service.ts:511-551 | for every combination of faults, what becomes of each row: gone, hidden or visible again; rows not named are as before |
| `FileService.SuccessExactly` | apps/api/src/modules/system/file/file.service.ts:533-551 | success is answered if and only if every deletion and the removal of the rows worked |
| `FileService.RemovalAlone` | apps/api/src/modules/system/file/file.service.ts:511-551 | RemoveFiles is a run of the saga, with the same objects and rows at its end |
| `Dicts.DictService.FindOne` | apps/api/src/modules/system/dict/dict.service.ts:106-125 | the answer for an arbitrary id is that of the tables if and only if no live entry for a code or the list has the same name; else that entry is answered for an id the tables do not have |
| `Dicts.NamesCoincideExactly` | apps/api/src/modules/system/dict/dict.service.ts:13-15 | the cache names of an id and of a code or the list coincide exactly for ids `data:` + code and `list` |
| `Dicts.CodeClashes` | apps/api/src/modules/system/dict/dict.service.ts:106-131 | a live answer for a code is found under the id that spells it out, which the tables do not have |
| `Dicts.PlainNameInjective` | apps/api/src/modules/system/dict/dict.service.ts:13-15 | among generated ids, codes and the list a name stands for one key |
| `Dicts.DictService.FindAll` | apps/api/src/modules/system/dict/dict.service.ts:56-101 | cached or not, the first page is that of the tables |
| `Dicts.DictService.FindByCode` | apps/api/src/modules/system/dict/dict.service.ts:130-154 | cached or not, the dictionary of that code with its active items |
| `Dicts.AnswersHold` | apps/api/src/modules/system/dict/dict.service.ts:106-154 | what an answer holds: the dictionary of the id or code with its items, only active ones for a code |
| `Dicts.NoAnswer` | apps/api/src/modules/system/dict/dict.service.ts:106-154 | an id or code that no dictionary has is answered with none |
| `Dicts.DictService.Create` | apps/api/src/modules/system/dict/dict.service.ts:30-51 | refuses exactly a used code; every cached answer stays right |
| `Dicts.DictService.Update` | apps/api/src/modules/system/dict/dict.service.ts:159-190 | fails exactly for an unknown id or a code of another dictionary; every cached answer stays right under a rename |
| `Dicts.DictService.Remove` | apps/api/src/modules/system/dict/dict.service.ts:195-209 | the items go too; every cached answer stays right |
| `Dicts.RemovedDict` | apps/api/src/modules/system/dict/dict.service.ts:195-209 | that dictionary is answered neither by id nor by code, its items are gone, and every other dictionary and item stays as it is |
| `Dicts.DictService.CreateData` | apps/api/src/modules/system/dict/dict.service.ts:216-231 | refuses exactly an unknown dictionary; every cached answer stays right |
| `Dicts.DictService.UpdateData` | apps/api/src/modules/system/dict/dict.service.ts:246-263 | every cached answer stays right if and only if the move goes unnoticed |
| `Dicts.DictService.RemoveData` | apps/api/src/modules/system/dict/dict.service.ts:268-282 | every cached answer stays right |
| `Dicts.ClearingOldKeysSuffices` | apps/api/src/modules/system/dict/dict.service.ts:181-186 | clearing the keys a dictionary had before a change is enough, the new code included |
| `Dicts.UpdateKeepsCacheExactly` | apps/api/src/modules/system/dict/dict.service.ts:255-261 | clearing the old dictionary only is right exactly when the new one has no live answer by id, nor by code for an active item |
| `Tabs.TabsStore.AddTab` | apps/web/src/stores/tabs-store.ts:69-92 | an open tab is refreshed in place, any other appended, and it becomes active |
| `Tabs.TabsStore.SetActiveTabId` | apps/web/src/stores/tabs-store.ts:94-96 | the state stays well-formed exactly for the id of an open tab |
| `Tabs.TabsStore.UpdateTabTitle` | apps/web/src/stores/tabs-store.ts:98-103 | one title changes, nothing else |
| `Tabs.TabsStore.CloseTab` | apps/web/src/stores/tabs-store.ts:105-126 | only a closable tab goes; closing the active one activates and navigates to its left neighbour |
| `Tabs.ClosingKeeps` | apps/web/src/stores/tabs-store.ts:105-126 | closing keeps every other tab, in order |
| `Tabs.TabsStore.CloseOthers` | apps/web/src/stores/tabs-store.ts:128-141 | the target becomes active and stays with every tab that cannot be closed |
| `Tabs.TabsStore.CloseRight` | apps/web/src/stores/tabs-store.ts:143-160 | everything up to the target stays; the target becomes active exactly when the active tab went |
| `Tabs.ClosingRightKeeps` | apps/web/src/stores/tabs-store.ts:143-160 | a tab stays if and only if it is not to the right of the target or cannot be closed |
| `Tabs.TabsStore.CloseAll` | apps/web/src/stores/tabs-store.ts:162-170 | what cannot be closed stays, and the dashboard becomes active |
| `Tabs.TabsStore.ResetTabs` | apps/web/src/stores/tabs-store.ts:65-67 | only the dashboard is left |
| `Tabs.FindIndex` | apps/web/src/stores/tabs-store.ts:73 | the first position of the id, or -1 when there is none |
| `Tabs.FilterRetains` | apps/web/src/stores/tabs-store.ts:133 | a close action keeps exactly the tabs it should, in the order they had |
| `Tabs.RetainsDetermines` | apps/web/src/stores/tabs-store.ts:133 | and that leaves no choice |
| `Tabs.RetainedStayGood` | apps/web/src/stores/tabs-store.ts:105-170 | keeping what cannot be closed keeps ids unique and the dashboard first |

## Left out

- Redis outages, the non-strict fallbacks and the in-memory throttler fallback: the store is taken as ready. JSON texts are modelled for the active key, where a script reads them; elsewhere values are compared as values, since both sides are encoded alike.
- `incr` of the Redis service as a client method: it appears as the first command of the limiter's script and in LoginGuard.AuthService.RecordLoginFailure.
- Login: bcrypt, RSA and captcha rendering are parameters; login logs are left out. LoginGuard.AuthService runs one attempt at a time; LoginGuard.OverlapBound has the overlapping case.
- LoginGuard.GuessBound: without a success in between, because a successful login clears the counter; for an account that exists, because failures of an unknown email are counted but never lock.
- Parsing of refresh tokens, token generation and JWT signatures and expiry: a refresh token is a user with a secret, and an expired token is one the server may refuse at any time.
- The token blacklist in the session protocol: a listed token is a check that is abandoned. TokenCheck.JwtStrategy.Validate has it as a parameter.
- BrowserClient: what the pages do after a successful login or a log-out. A 401 that an endpoint behind the session answers for reasons of its own is treated, as in the code, like one of a refused token.
- BrowserClient.SharedRefreshAlwaysAccepted: no other login, revocation, expiry or lost answer of this user, and the retry flag is taken to reach the retried request; other users are unrestricted.
- Revocation.RevocationHolds: only while no login of that user and no refresh past its rotation is in flight; Revocation.RevivedExactly says that this is needed.
- LoginGuard.OverlapBound: an attempt that has to write the lock does so at some time; one that crashes before counts as in flight.
- Throttle.OtherKeysUntouched: for keys without a colon, as the hashed keys of the guard are; with colons a key ending in `:blocked` can share one.
- MenuAccess.NonAdminSeesGranted: for menus with non-empty ids, as the tables generate them, because the loop stops at an empty parent id.
- Menu records carry id, parent and name only; the menu service's own tables and cache are left out.
- TextSearch.PiecesMatchExactly: for lower-casings that keep every length; TextSearch.LoweredInPlaceMatches and TextSearch.LettersMatchExactly are about single texts under any.
- Tree tables with controlled `expandedIds`, the `searchable` switch (a search is taken to be possible), keyboard shortcuts, and rendering. `toLocaleLowerCase` is an arbitrary function.
- Notification paging, ordering, timestamps, server-sent events and the age-based cleanup job; the service's operations are sequential, so a count computed while another call invalidates is not covered.
- PercentCoding.DecodeEncode: strings are of Unicode scalar values, so lone surrogates, which `encodeURIComponent` rejects, do not occur. Path normalisation of local files is left out.
- FileSaga.ActiveRecordsKeepObjects: removals in flight share no file; FileSaga.StartIsSafeExactly says that this is needed.
- FileSaga.StepKeepsInv: the same.
- FileSaga: a removal whose key cannot be decoded may do any of its deletions, of which the code starts those before that key.
- File owners, hashes, type checks and reading; the storage clients are a set of locations.
- FileService.FileService.RemoveFiles: the ids are those of visible rows found before, and no other call is under way; FileSaga has the concurrent case.
- Dicts.DictService.FindAll: a page holds every dictionary, so the page size, which the cache name lacks, and the search are left out, and so is the order of items. Dictionary operations are sequential.
- Persistence of the tab bar in the session storage.
- Posts, roles, logs, monitoring, the AI service and the remaining stores.
