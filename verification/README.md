# codex-balancer: a verified model

codex-balancer is a proxy that pins conversations to one of several upstream accounts. This
project models the decisions it makes and the state it shares between goroutines, and proves
what they promise. Network, storage and clocks are parameters or nondeterministic events; the main
statements are about all inputs, all runs or all interleavings.

`dafny verify dfyconfig.toml` checks the whole project with Dafny 4.11.

| modules | what they model |
|---|---|
| `RouteClaims`, `ClaimRuns`, `RouteRegistry` | the registry of provisional route claims: its values, its runs, and the objects that are proved to follow them |
| `RouteStore`, `RouteOwnership`, `OwnershipRuns`, `ResponseRouting` | the durable owners and the protocol of two locks that keeps barriers and rows together, with the runs in which it does not |
| `ActiveSockets`, `SocketProtocol`, `RelayObjects` | live upstream sockets and the register-then-check protocol of relays |
| `RefreshProtocol`, `RefreshObjects`, `Credentials`, `CredentialRuns` | the shared credential refresh, its shutdown group, the merge of refreshed with stored credentials, and its runs |
| `Candidates`, `Selection`, `Routing`, `RetryHint` | account selection and the retry hint |
| `RoutedCredits`, `TrafficShare`, `Ledger`, `UsageMonths`, `Activity`, `UsageTotals` | indexes and allocators, each against a naive version |
| `HttpOutcome`, `OutputAssembly`, `Sse`, `Redaction` | the HTTP side of a response |
| `Broadcast`, `BroadcastObjects` | the dashboard's delta broadcast |
| `Counting`, `Wrappers` | shared helpers |

Protocols are state machines whose events are the sections the program runs under a lock. A guard
that does not hold leaves the state as it is, so a run is any sequence of events. Objects that the
program updates in place are classes; their methods are proved to take the depicted state to the
protocol's next one, and the theorems are proved about the protocol.

## What the proofs found

- Moving a claim to an account and back makes its reference count forget a holder that stayed on
  the first account. That holder's release then removes the claim from under the newest handle, and
  an acceptance in progress can leave a barrier that disagrees with its row. The counts are right
  exactly when no transfer moves a claim to an account where another unspent handle of it waits;
  barriers and rows agree exactly when no commit of a claim that has gone leaves a disagreeing
  barrier behind (`CountsExactlyWithoutReturn`, `ReturningClaimIsLost`, `MirroredExactly`,
  `MirrorBreaks`).
- A refused transfer spends the handle but keeps its reference, so the claim survives every later
  release and commit (`FailedTransferLeaks`, `LeakedClaimSurvives`).
- An acceptance is stamped before it takes the lock, so a later invalidation of the old owner can
  win the durable row (`AcceptanceOwnsRow`, `InterleavedAcceptance`, `StampLoses`).
- The retry hint follows a blocked owner even if the model excludes it; after such a hint the
  request can still be held back (`ExcludedOwnerMisleads`). An account whose cooldown ends at the
  instant of the request is neither routed to nor hinted at (`RetryHintIsExact`).
- The rolling counter still reports an event that is too old when it was added after one that is not
  (`Recent`, `OutOfOrder`).
- The event parser ends lines at line feeds only and keeps a byte order mark, where section 9.2.6 of
  the WHATWG HTML Living Standard also ends them at a lone carriage return and drops the mark; the
  model follows the program.
- At the instant a cooldown ends an account is shown live and is not yet routed to
  (`StatusAgreesWithRouting`).
- Following the same stored row twice can differ from following it once (`MergedTwice`), and a
  finished refresh can put older credentials back when the refresh token did not rotate and a
  reload came between; the next reload repairs it (`MemoryNeverOlder`, `OvertakenByReload`,
  `ReloadRestores`).

## Model

| member | source | states |
|---|---|---|
| RouteClaims.SelectClaims | internal/app/route_claims.go:64-157 | Whenever a selection returns a handle, the pool named its account, the handle's claim is on it, and every key of the route is held by some claim on that account; the claim takes only keys that nobody held. |
| RouteClaims.ConflictRefuses | internal/app/route_claims.go:104-132 | When two claims on different accounts hold keys of one route, no handle is returned whatever account the pool picks. |
| RouteClaims.RankedOwnersFold | internal/app/route_claims.go:74-103 | The owner list handed to the pool is exactly the ranking thread claim, thread barrier, thread row, session claim, session barrier, session row, without empty or repeated accounts. |
| RouteClaims.OwnersFollowRanking | internal/app/route_claims.go:74-103 | The owners are exactly the non-empty candidates, each once, and weaker candidates never displace stronger ones: what any first part of the ranking yields leads the list. |
| RouteClaims.JoinClaims | internal/app/route_claims.go:115-132 | Joining adds one reference to one claim and gives it exactly the route's keys that nobody held; every other claim keeps its keys, and nothing else moves. |
| RouteClaims.BeginClaims | internal/app/route_claims.go:133-157 | A new claim has a fresh id and one reference, and its list holds exactly the route's keys. |
| RouteClaims.ReplacementIsElsewhere | internal/app/route_claims.go:159-203 | A replacement is the pool's pick for a live claim and another account than the claim's; picking the claim's own account is reported as blocked. |
| ClaimRuns.Run | internal/app/route_claims.go:64-467 | In every run `byKey` stays exactly the disjoint union of the key lists of live uncommitted claims, and committed claims own no key. |
| ClaimRuns.CountsAlways | internal/app/route_claims.go:115-127 | Along every run that never moves a claim to an account where another unspent handle of it waits, each live claim counts at least one and at least all its unspent handles; with no failed transfer the count is exact. |
| ClaimRuns.CountsExactlyWithoutReturn | internal/app/route_claims.go:380-392 | The counts are right at every point of a run exactly when no transfer of the run moves a claim to such an account. |
| ClaimRuns.ExactWithoutReturnOrFailure | internal/app/route_claims.go:288-297 | They are exact at every point exactly when, besides, no transfer of a live claim is refused. |
| ClaimRuns.TransferCounts | internal/app/route_claims.go:380-392 | A successful transfer keeps the counts right exactly when no other unspent handle of the claim is on the target account. |
| ClaimRuns.FailedTransferCounts | internal/app/route_claims.go:288-297 | A refused transfer never makes a count too small, and keeps exact counts exact exactly when the handle was not on a live claim. |
| ClaimRuns.StepKeepsCounts | internal/app/route_claims.go:265-427 | Every registry operation keeps the counts, apart from a transfer back. |
| ClaimRuns.UseSparesOtherHolders | internal/app/route_claims.go:323-362 | One holder's release or commit never takes the claim from another unspent holder. |
| ClaimRuns.ExactHasHolder | internal/app/route_claims.go:323-334 | With exact counts every live claim has a holder left. |
| ClaimRuns.ReturningClaimIsLost | internal/app/route_claims.go:380-392 | Two transfers that bring a shared claim back to its first account let the forgotten holder's release remove it from under the newest handle. |
| ClaimRuns.SharedClaimIsReachable | internal/app/route_claims.go:64-157 | The starting point of that failure is reached by two selections of the same route. |
| ClaimRuns.DeadStaysDead | internal/app/route_claims.go:299-307 | Ids are never reused: after a claim is removed no handle issued for it is ever active again, in any continuation. |
| ClaimRuns.SettledKeepsAccount | internal/app/route_claims.go:380-392 | An accepted or committed claim never changes account again. |
| ClaimRuns.AcceptsAtMostOnce | internal/app/route_claims.go:309-321 | Over all handles of one claim and any run, accepting a switch answers true at most once. |
| ClaimRuns.FailedTransferLeaks | internal/app/route_claims.go:288-297 | A refused transfer of a live claim leaves a reference that no handle stands for. |
| ClaimRuns.LeakedClaimSurvives | internal/app/route_claims.go:323-362 | That claim outlives every release and commit; only invalidation or preservation ends it. |
| RouteRegistry.RouteClaimRegistry.SelectAccount | internal/app/route_claims.go:64-157 | The heap registry answers and changes exactly as the value step, and issues a fresh handle exactly when the selection names a claim. |
| RouteRegistry.RouteClaimRegistry.SelectReplacement | internal/app/route_claims.go:159-203 | A replacement leaves the registry alone, refuses a dead or foreign handle, and never answers with the account the claim is on. |
| RouteRegistry.RouteClaimRegistry.ClaimsForKeys | internal/app/route_claims.go:231-240 | The loop answers with the claims that `RouteClaims.ClaimsFor` lists for the keys. |
| RouteClaims.ClaimsForInOrder | internal/app/route_claims.go:231-240 | Claims are listed in the order in which the keys first reach them, none twice: some key reaches the earlier of two before any key reaches the later. |
| RouteRegistry.RouteClaimRegistry.ConflictsWith | internal/app/route_claims.go:242-249 | True exactly when another claim among them is on another account. |
| RouteRegistry.RouteClaimRegistry.AttachKeys | internal/app/route_claims.go:251-259 | The loop takes the registry to `RouteClaims.Attach`. |
| RouteClaims.AttachTakesUnheld | internal/app/route_claims.go:251-259 | Attaching gives the claim exactly the keys of the route that nobody held; held keys stay where they are, and no other claim changes. |
| RouteRegistry.RouteClaimRegistry.InvalidateAccount | internal/app/route_claims.go:402-427 | Every claim of the account goes, exactly its keys become barriers, and the reported keys are those, each once. |
| RouteRegistry.RouteClaimHandle.Release | internal/app/route_claims.go:265-270 | Takes the registry to the released table; a second use changes nothing. |
| RouteRegistry.RouteClaimHandle.Commit | internal/app/route_claims.go:272-277 | Takes the registry to the committed table, with the accepted route's barriers cleared while the claim is still on the handle's account. |
| RouteRegistry.RouteClaimHandle.Preserve | internal/app/route_claims.go:279-286 | Removes the claim for all its holders and reports exactly the keys that became barriers. |
| RouteRegistry.RouteClaimHandle.Transfer | internal/app/route_claims.go:288-297 | Spends the handle in any case and issues one for the target exactly when the claim could move. |
| RouteRegistry.RouteClaimHandle.Active | internal/app/route_claims.go:299-307 | Active exactly while the claim is live on the handle's account. |
| RouteRegistry.RouteClaimHandle.AcceptSwitch | internal/app/route_claims.go:309-321 | True exactly for the first acceptance of a claim still on the handle's account. |
| RouteStore.Store.UpsertRouteOwners | internal/state/store.go:482-500 | Each key takes the new owner unless its row is newer: equal times go to the last writer. |
| RouteStore.Store.RecordRoute | internal/state/store.go:445-464 | Rows change only in a committed transaction for a known account; the account's last use only moves forward. |
| RouteStore.Store.PreserveRouteOwners | internal/state/store.go:466-480 | Barriers are written for accounts that may be gone, all keys or none. |
| RouteStore.RouteOwnersAreDistinct | internal/state/store.go:502-529 | The owners of a route are exactly the accounts of its rows, each once, the thread's first. |
| RouteStore.Store.RouteOwners | internal/state/store.go:502-518 | The owners of thread and session, thread first, without a repeated neighbour. |
| RouteOwnership.MirroredExactly | internal/app/route_claims.go:344-350 | In every run at all: barriers and rows agree at each of its points exactly when each acceptance ends clean, that is, when committing a claim that has gone leaves no barrier on the acceptance's keys that disagrees with its row. |
| RouteOwnership.MirrorsExactly | internal/app/responses_routing.go:46-86 | From a state in which they agree, a section of any operation leads to another exactly when it is not an acceptance that ends otherwise. |
| RouteOwnership.BarriersAreMirrored | internal/app/proxy.go:339-366 | In every run in which each acceptance that ends with its row written still holds its claim, or had none: whenever routeOwnership is free, a barrier and the durable row of its key name the same account, for every key whose last barrier the database took. Selections, transfers and releases interleave freely and stamps may predate the lock. |
| RouteOwnership.NoReturnHoldsClaim | internal/app/route_claims.go:380-392 | Acceptances hold their claims to the end in every run in which no transfer moves a claim to an account where another unspent handle of it waits. |
| RouteOwnership.NothingLost | internal/app/proxy.go:346-357 | While the database takes every barrier that exception is empty. |
| RouteOwnership.ApplyKeepsGood | internal/app/responses_routing.go:46-86 | Every section of acceptance, invalidation and preservation, and every section outside the lock other than a transfer of that kind, keeps the mirror invariant. |
| RouteOwnership.ReturningClaimBreaksMirror | internal/app/responses_routing.go:46-69 | From any good state in which a barrier names another account and two unspent handles share a movable claim, moving the claim away and back can leave a barrier that disagrees with its row. |
| OwnershipRuns.MirrorBreaks | internal/app/responses_routing.go:46-69 | A run from the start that breaks the mirror: until the claim returns the state is good and no key is lost, and afterwards the lock is free and a barrier disagrees with its row. |
| OwnershipRuns.ReturnSpares | internal/app/route_claims.go:380-392 | A run in which a claim returns and barriers and rows agree all along: returning is not what breaks them. |
| RouteOwnership.AcceptanceOwnsRow | internal/app/responses_accounting.go:45-92 | After a committed acceptance, of a moved connection or not, the route's row names the accepted account exactly when the row it found was no later than the stamp or named that account already; the barrier is gone either way. For an acceptance with nothing in between. |
| RouteOwnership.InterleavedAcceptance | internal/app/responses_routing.go:46-69 | The same in any run, whatever sections come in between: a persisted acceptance owns a key's row exactly when the row found at its beginning was no later than its stamp or its own, and leaves a barrier on a key exactly when there is one and its claim has gone. |
| OwnershipRuns.StampLoses | internal/app/responses_accounting.go:53-60 | A run from the start in which the stamp loses that race: a moved connection is accepted and persisted on `b`, and afterwards the row names `a` and the barrier that said so is gone. |
| RouteOwnership.AcceptRunIsAccepted | internal/app/responses_routing.go:46-69 | The four sections of an acceptance run back to back are one closed-form step. |
| RouteOwnership.FenceRunIsWalled | internal/app/proxy.go:339-358 | The sections of an invalidation run back to back are one closed-form step. |
| RouteOwnership.PreserveRunIsWalled | internal/app/responses_routing.go:71-86 | The sections of a preservation run back to back are one closed-form step. |
| ResponseRouting.RouteServer.AcceptResponseRoute | internal/app/responses_routing.go:46-69 | Allowed exactly for a routable account whose claim is active; persisted exactly when allowed, stamped, for a known account and committed by the database; the registry, the rows, the last use and the spent handle end as the protocol's acceptance says, and the connection keeps its claim exactly when nothing was persisted. |
| ResponseRouting.RouteServer.PreserveResponseOwner | internal/app/responses_routing.go:71-86 | A connection gives up its claim; barriers and rows end as the protocol says, the rows exactly when the database commits them, and nothing happens without a claim. |
| ResponseRouting.RouteServer.InvalidateAccount | internal/app/proxy.go:339-366 | The number of claims removed and the world the protocol's invalidation leaves; its rows are written exactly when there are any and the database commits them. |
| ResponseRouting.RouteServer.LogSwitch | internal/app/responses_routing.go:39-44 | A moved connection is reported once among all that share its claim. |
| ActiveSockets.AddTidy | internal/app/active_websockets.go:14-26 | Ids are fresh, every id is registered under one account, and no group is empty; adding changes one lookup. |
| ActiveSockets.MoveTidy | internal/app/active_websockets.go:28-51 | A move changes the lookups of one id and of no other. |
| ActiveSockets.RemoveTidy | internal/app/active_websockets.go:53-64 | Removing changes one lookup and drops a group that becomes empty. |
| ActiveSockets.DetachTidy | internal/app/active_websockets.go:66-78 | Detaching clears one account's lookups and no other's. |
| ActiveSockets.ActiveWebSocketRegistry.MoveSocket | internal/app/active_websockets.go:28-51 | Succeeds exactly for a registered socket, or within one account even for one no longer registered, and leaves the value-level registry. |
| ActiveSockets.ActiveWebSocketRegistry.DetachAccount | internal/app/active_websockets.go:66-78 | One callback for each registration of the account, none twice, in any order. |
| SocketProtocol.NoLostInvalidation | internal/app/websocket_relay.go:67-126 | In every interleaving a serving relay is registered under its account or has an invalidation for it detached or queued; once the account is unroutable and detached, it has been notified, also across switches. |
| SocketProtocol.NotifiedRelayCloses | internal/app/websocket_relay.go:106-126 | In every reachable state, news detached for a serving relay's account can be delivered and ends it: the relay first takes one item if its queue is full, the goroutine with the news delivers it, which is the only step not the relay's own, and the relay reads on, at most five times in all. |
| SocketProtocol.QueuedRelayCloses | internal/app/websocket_relay.go:106-111 | Once the news is queued no other step is needed: whatever anyone else does meanwhile, a relay that keeps its account and reads as far as the news ends. |
| SocketProtocol.GoneIsUnregistered | internal/app/websocket_relay.go:128-135 | A relay that has gone holds no registration. |
| SocketProtocol.ApplySafe | internal/app/websocket_relay.go:166-195 | Every registry section, relay step, invalidation and delivery keeps the invariant. |
| RelayObjects.SocketRelay.SwitchAccount | internal/app/websocket_relay.go:166-195 | Account first, registration after, registered again if it was lost: the relay object follows the protocol's switch, move and register steps. |
| RelayObjects.SocketRelay.CheckAccount | internal/app/websocket_relay.go:67-76 | Serving exactly when the account is routable and the claim active after registration. |
| RelayObjects.SocketRelay.TakeInvalidation | internal/app/websocket_relay.go:106-111 | News about another account is dropped, news about the current one closes the relay. |
| RelayObjects.SocketRelay.Notify | internal/app/websocket_relay.go:119-126 | A callback is delivered, or given up only for a relay whose request has ended. |
| RelayObjects.SocketRelay.CloseRelay | internal/app/websocket_relay.go:128-135 | Closing follows the protocol's unregister step. |
| RefreshProtocol.RefreshesAreShared | internal/app/account_refresh.go:42-138 | In every interleaving of callers, workers and shutdown: an account points at its one unfinished refresh, `waiters` is the number of callers joined, an operation in flight has a waiter unless abandoned, and an abandoned one has none. |
| RefreshProtocol.WaitersAreServed | internal/app/account_refresh.go:122-136 | At most one unfinished refresh per account; a running exchange is cancelled exactly when its last caller has left it, never while one is on it; a returned outcome is the published one of an operation never abandoned. |
| RefreshProtocol.AbandonedForever | internal/app/account_refresh.go:49-57 | An abandoned operation is never joined again and no caller ever returns its result. |
| RefreshProtocol.GroupAlwaysFits | internal/app/refresh_operations.go:25-65 | In every reachable state the idle channel is closed exactly when nothing registered runs, `active` counts the registered workers, and the recorded failure is the first one after stopping. |
| RefreshProtocol.ReleaseGroupFits | internal/app/refresh_operations.go:47-57 | The last worker closes a channel that was open until then: no channel is closed twice. |
| RefreshProtocol.ShutdownJoins | internal/app/refresh_operations.go:67-80 | Once a shutdown wait has returned, no registered worker runs and none ever starts, and the idle channel is never replaced. |
| RefreshObjects.RefreshOperations.Start | internal/app/refresh_operations.go:33-45 | Registration is refused exactly after stopping, and otherwise opens a new idle channel for the first worker. |
| RefreshObjects.RefreshOperations.Finish | internal/app/refresh_operations.go:47-57 | The counter, the first failure after stopping and the closed channel end as the protocol says. |
| RefreshObjects.RefreshOperations.Stop | internal/app/refresh_operations.go:59-65 | Stopping keeps the channel in use and returns it. |
| RefreshObjects.RefreshOperations.CompletionFailure | internal/app/refresh_operations.go:82-86 | What a finished shutdown wait reports: the protocol's first failure after stopping. |
| RefreshObjects.RefreshingAccount.Enter | internal/app/account_refresh.go:47-119 | The section that joins, starts, waits for an abandoned operation or answers takes the depicted system to the protocol's next one. |
| RefreshObjects.RefreshingAccount.Leave | internal/app/account_refresh.go:129-136 | The last caller to leave abandons and cancels an operation still in flight, and only then. |
| RefreshObjects.RefreshingAccount.Publish | internal/app/account_refresh.go:110-114 | The outcome, the cleared pointer and the closed channel appear together. |
| RefreshObjects.AccountRefresh.Release | internal/app/refresh_operations.go:47-57 | The worker leaves the shutdown group after publication. |
| Credentials.CredentialAccount.ApplyPersisted | internal/app/account.go:240-265 | Stale credentials are ignored, preferences are always taken, a rejected access token is forgotten exactly when the token changes. |
| Credentials.CredentialAccount.Settle | internal/app/account.go:424-444 | Credentials from elsewhere survive a finished refresh untouched and turn its failure into success; otherwise a success is put in memory and a permanent refusal asks for a new sign-in. |
| Credentials.CredentialStore.Persist | internal/app/pool.go:203-226 | A newer row stays; otherwise the row takes the new tokens and keeps its preferences, and memory follows the row. |
| Credentials.CredentialStore.FinishRefresh | internal/app/account.go:392-445 | A whole completion with nothing in between: what a success, a refusal and each way of failing to store leave in the row, in memory and as the outcome, also without a row and where memory is newer than the row; the row never gets older. |
| Credentials.MergedAllIsNewest | internal/app/pool_store.go:59-94 | Whatever rows an account follows, its credentials are the newest it has seen, the last among equals. |
| Credentials.MergedTwice | internal/app/account.go:243-260 | Following the same row twice is a no-op exactly unless the row brought new tokens together with a need to sign in. |
| CredentialRuns.MemoryNeverOlder | internal/app/account.go:424-444 | Across any interleaving of begins, completions, settles, reloads and writes of other processes, memory never gets older exactly when no stored refresh settles over newer credentials that share a refresh token with what it started from or stored. |
| CredentialRuns.OvertakenByReload | internal/app/pool_store.go:49-57 | A stored refresh that has not settled is what memory holds, unless a reload since the storing took over the row that memory holds: only then can anything be forgotten. |
| CredentialRuns.MemoryFollows | internal/app/pool.go:203-226 | In every run memory is never ahead of the row, and never behind a stored refresh that has not settled. |
| CredentialRuns.ReloadRestores | internal/app/pool_store.go:49-94 | After any run, a reload brings memory back to the row's credentials. |
| CredentialRuns.RefreshForgets | internal/app/account.go:424-444 | A run in which memory does get older: stored at 1, another process at 2 with the same refresh token, reloaded, settled back to 1. |
| Credentials.OvertakenRefresh | internal/app/account.go:392-445 | The same on the objects, for any such credentials and times. |
| Candidates.SoonestCreditIsSoonest | internal/app/usage.go:256-285 | The chosen reset credit is redeemable, none expires sooner, and there is one whenever any is redeemable. |
| Candidates.NextResetCredit | internal/app/usage.go:257-277 | The loop finds that credit, the first among equals. |
| Candidates.ComparePriorityRanks | internal/app/pool.go:391-412 | The priority comparison is the order of ranks, hence a total preorder. |
| Candidates.PrecedesTotal | internal/app/pool.go:301 | The order of ids is total and strict. |
| Candidates.StatusAgreesWithRouting | internal/app/pool.go:341-362 | The status shown promises routing exactly when routing would use the account, except at the instant a cooldown ends, where the exact condition is given. |
| Selection.SelectFreshAccount | internal/app/pool.go:279-306 | None exactly when nothing is eligible; otherwise the stalest of the best ranked candidates within one percent of the least pressure. |
| Selection.ChoiceIgnoresOrder | internal/app/pool.go:293-306 | With distinct ids the choice is the same for every permutation of the pool. |
| Selection.AnchoredCohort | internal/app/pool.go:293-300 | The tolerance band is the same whichever minimal candidate the first pass found. |
| Routing.Route | internal/app/pool.go:228-277 | The strongest deciding owner, then the choice among included quota, then the strongest owner with credits, then the choice among credits. |
| Routing.CooldownRecovery | internal/app/routing_retry.go:10-36 | The earliest end of a cooldown that alone keeps an allowed account, or the blocked owner, from the request; none exactly when there is no such account. |
| Routing.PickAccount | internal/app/logging.go:27-43 | Disallowed accounts are skipped and the hint is made for the model. |
| RetryHint.RouteNamesAccount | internal/app/pool.go:228-277 | Routing names an account exactly when no owner holds the request back and some unskipped account can take it; credits are charged only when no included quota is left. |
| RetryHint.RouteIgnoresOrder | internal/app/pool.go:228-277 | The same accounts listed in another order get the same decision. |
| RetryHint.RetryHintIsTruthful | internal/app/routing_retry.go:10-36 | Once a hint has passed, routing the next request names an account, if the pool is unchanged and a blocked owner is allowed. |
| RetryHint.RoutedOnceResumed | internal/app/routing_retry.go:10-36 | Then a later request is routed exactly when a cooldown that was not over is over by its time: that of the blocked owner, or without one of any allowed account that nothing else rules out. |
| RetryHint.RetryHintIsExact | internal/app/routing_retry.go:10-36 | When the first request skipped disallowed accounts only, a later request is routed exactly after the hint or when a cooldown ends at the very instant of the first; so the hint is inexact exactly for requests that come no later than it after such an instant. |
| RetryHint.ExcludedOwnerMisleads | internal/app/logging.go:43 | A blocked owner the model excludes gets a hint after which the request can still be held back, though a third account is free. |
| RoutedCredits.AccountCredits.AddRoutedCredits | internal/app/credits.go:90-113 | Uses may arrive out of order: the index stays sorted with right running totals and stands for everything ever added. |
| RoutedCredits.AccountCredits.PruneRoutedCredits | internal/app/credits.go:115-125 | Pruning drops the points older than eight days before the latest, all but the last of them, exactly when there are about a thousand and they are half of all. |
| RoutedCredits.AccountCredits.RoutedCreditsSince | internal/app/credits.go:127-153 | For every start within those days the answer, known or not, amount and beginning, is that of the full history; for any start it is that of the kept points. |
| RoutedCredits.KeptAnswersForAll | internal/app/credits.go:115-153 | The kept points and the full history have the same estimate for every such start. |
| RoutedCredits.TotalsGiveSum | internal/app/credits.go:134-144 | A difference of running totals is the naive sum, also after pruning moved their origin. |
| RoutedCredits.Search | internal/app/credits.go:95-97 | The binary search finds where the later points begin. |
| RoutedCredits.GapsAreUnpriced | internal/app/credits.go:145-147 | The total of unpriced uses is positive exactly when one since the start had no price. |
| TrafficShare.TrafficPercentages | internal/app/dashboard.go:654-684 | Whole percentages that add up to 100, each its share rounded down or up, rounded up in the order of the remainders; all zero without traffic. The loop ends. |
| TrafficShare.ShareIsUnique | internal/app/dashboard.go:670-682 | There is only one such list. |
| TrafficShare.ShareIsClose | internal/app/dashboard.go:664-682 | Every share is within one of exact, and an account without traffic gets zero. |
| TrafficShare.RemaindersFill | internal/app/dashboard.go:663-669 | The remainders add up to exactly what rounding down left out. |
| HttpOutcome.HttpPeer.Respond | internal/app/responses_upstream_http.go:130-183 | For every upstream response, refused, truncated, garbled or repeated, the client gets exactly one JSON result, one JSON error or one event stream with one terminal event last and one [DONE], unless it stopped taking writes. Reading ends at the first event that ends the response, is refused, or says that the account stays the owner; the whole output is what came before it and what it makes of the response, or a transport failure: a stream relays every event in order, a JSON response is the answer to a completed or incomplete event where there is one and a 502 where there is none, and a failure that upstream reports is one error with its own status. A whole accepted JSON body is sent on as it is. Event numbers grow when upstream supplies none. The account stays the owner exactly after a refusal for usage, capacity, or a rate limit of a bound response. |
| HttpOutcome.HttpPeer.ReadEvents | internal/app/responses_upstream_http.go:170-182 | Where the reading ends and what has been sent by then: all of the output if an event ended the response, otherwise the events so far and nothing final; and exactly whether the owner is retained. |
| HttpOutcome.StopsOnce | internal/app/responses_upstream_http.go:170-182 | There is only one place where a reading ends. |
| HttpOutcome.ResultsAreAnswers | internal/app/responses_http.go:297-320 | A JSON result is sent exactly when the reading ends at a completed or incomplete event that can be answered, and it is the answer to that event and all before it. |
| HttpOutcome.FailuresAreShown | internal/app/responses_http.go:253-262 | A failed or error event that ends a JSON response, and an error event that comes first in a stream, are shown as one error with the failure's own status, as `Fail` gives it. |
| HttpOutcome.TerminalIsRelayed | internal/app/responses_http.go:270-296 | A stream that runs to a terminal event relays every event up to it, in order. |
| HttpOutcome.HttpPeer.Dispatch | internal/app/responses_upstream_http.go:185-226 | An event its account does not take changes nothing; a taken one reaches the client, and the owner is retained exactly for a usage limit, model capacity, or a rate limit while the response is bound to the account. |
| HttpOutcome.HttpPeer.Reject | internal/app/responses_upstream_http.go:141-166 | A refused request ends with one JSON error, a 401 shown as 503 and a 413 as 400, and retains the owner exactly in those cases. |
| HttpOutcome.HttpPeer.Deliver | internal/app/responses_upstream_http.go:185-226 | One event: an unacceptable one and an unaccepted one change nothing and are told apart; any other ends the response exactly when it must, adds exactly its own output, and retains the owner exactly when its rejection says so. |
| HttpOutcome.HttpPeer.DeliverJson | internal/app/responses_upstream_http.go:228-273 | A JSON body is sent on, or failed and its owner retained if it reports missing capacity, exactly when it is whole, has a final status, was not asked for as a stream and the account takes it; otherwise which problem it is. |
| HttpOutcome.HttpPeer.Write | internal/app/responses_http.go:241-321 | What an event adds to a stream, whether it ends the response, and what it makes of a JSON response: an upstream failure that comes first is one JSON error, a begun stream shows it as a failed response, a completed or incomplete event is answered exactly when it can be. |
| HttpOutcome.HttpPeer.Fail | internal/app/responses_output.go:121-177 | A finished response is never failed again; the status is always an error status, and a transient throttle becomes a 503 exactly when the client can return to its account. |
| HttpOutcome.HttpPeer.Prepare | internal/app/responses_http.go:189-239 | Exactly which events are refused, and that an event keeps its own number or gets the next one. |
| HttpOutcome.HttpPeer.ForwardEvent | internal/app/responses_http.go:270-296 | What one event adds to a stream, and that a terminal one is followed by [DONE] and nothing else. |
| HttpOutcome.HttpPeer.GatherEvent | internal/app/responses_http.go:297-320 | A JSON response stays silent until its terminal event, which ends it with the answer exactly when there is one and with a 502 otherwise. |
| HttpOutcome.HttpPeer.Collect | internal/app/responses_output.go:179-219 | Which events are refused and what the others add to what is known: an item exactly when its place is valid and everything retained stays within the limit. |
| HttpOutcome.HttpPeer.Result | internal/app/responses_output.go:221-267 | Exactly when there is a result, which fields win, and what its output is. |
| HttpOutcome.HttpPeer.AssembleOutput | internal/app/responses_output.go:241-261 | A rebuilt output has no holes: the indices ever completed are those of the array and each slot holds the last item completed for it. |
| OutputAssembly.NoHoles | internal/app/responses_output.go:253-259 | Distinct indices all below their number are all the indices below it. |
| OutputAssembly.Rebuild | internal/app/responses_output.go:253-260 | Succeeds exactly without holes, with every item in its place. |
| OutputAssembly.GatherCompleted | internal/app/responses_output.go:210-216 | A completed item keeps items, pending indices and byte total in step with the history. |
| Sse.ReadResponseSSE | internal/app/responses_sse.go:9-49 | The scan loop delivers and ends exactly as the line-by-line reading says, for every byte stream and every receiver, which may decide by all it has been handed. |
| Sse.WriteSSEEvent | internal/app/dashboard.go:353-370 | The loop writes one event line, a data line for each line of the payload, and an empty line. |
| Sse.WrittenIsRead | internal/app/responses_sse.go:13-41 | One written event is read back as one payload, whatever follows it, including empty payloads, embedded line feeds and leading spaces. |
| Sse.StreamRoundTrip | internal/app/responses_sse.go:13-41 | Any number of written events are read back in order, by a receiver that takes each after those before it. |
| Sse.WholeStream | internal/app/responses_sse.go:42-48 | A whole written stream delivers exactly its payloads, and then ends unexpectedly. |
| Sse.ReceivedSame | internal/app/responses_sse.go:10-14 | A payload comes back unchanged exactly when none of its lines ends in a carriage return. |
| Broadcast.SubscriberCatchesUp | internal/app/dashboard.go:176-238 | Whatever the interleaving of joining, leaving, receiving, rendering, publishing, dropping and restarting: a subscriber still listed shows, after receiving its queue, exactly what the producer last published, and that is what it last rendered. |
| Broadcast.AlwaysReplicates | internal/app/dashboard.go:327-351 | The invariant behind it holds in every reachable state. |
| Broadcast.RenderDashboardUpdates | internal/app/dashboard.go:384-398 | The loop sends exactly the changed fragments and remembers what it has shown. |
| Broadcast.ChangedSuffices | internal/app/dashboard.go:384-398 | What was shown before and the changed fragments together show everything rendered. |
| BroadcastObjects.DashboardBroadcaster.Publish | internal/app/dashboard.go:204-216 | A full subscriber is dropped and closed, the others get the update; no closed channel is sent to or closed again. |
| BroadcastObjects.DashboardBroadcaster.Subscribe | internal/app/dashboard.go:176-192 | A late subscriber starts from the full set; the producer is started exactly when none runs. |
| BroadcastObjects.DashboardBroadcaster.Unsubscribe | internal/app/dashboard.go:194-202 | Leaving closes the channel unless it was dropped before. |
| BroadcastObjects.DashboardBroadcaster.StopIfIdle | internal/app/dashboard.go:218-227 | Stops exactly without subscribers and forgets the full set. |
| BroadcastObjects.DashboardBroadcaster.Stop | internal/app/dashboard.go:229-238 | Closes every channel still open, once. |
| Ledger.ApiKeyLedger.ComputeTotals | internal/app/api_key_costs.go:26-63 | Across any calls, appended rows, new months, new prices and errors in mid-batch, a successful answer is the fold over all rows at the current month and prices; an error keeps what was folded. |
| Ledger.UsageRowsAfter | internal/state/usage.go:14-35 | The next rows in id order, fewer than asked for only at the end of the table. |
| Ledger.BatchFollows | internal/app/api_key_costs.go:36-62 | A batch after the last id continues the rows seen, none skipped and none twice, and a short one completes them. |
| Ledger.KeysAreSeparate | internal/app/api_key_costs.go:41-58 | A key is listed exactly when it has a row, and its totals come from its own rows alone. |
| Ledger.LastUsedIsLatest | internal/app/api_key_costs.go:54-56 | A key's last use is the latest of its rows. |
| UsageMonths.UsageStats.ApplyUsage | internal/app/stats.go:378-419 | Responses in any order: this month, last month and each account's cost are those of the whole history. |
| UsageMonths.UsageStats.SyncUsageMonth | internal/app/stats.go:681-693 | A new month keeps the totals right, whether it follows the last one or skips some; a step back to an earlier month forgets all that was counted. |
| UsageMonths.UsageStats.Reprice | internal/app/stats.go:431-471 | Both months and every account's cost are added up again from all stored responses since the beginning of last month; one of a later month than the clock counts as this month's. |
| UsageMonths.RepricesStored | internal/app/stats.go:431-471 | Without responses of a later month, those totals are the ones of the whole stored history. |
| Activity.RollingCounter.Recent | internal/app/stats.go:700-718 | Nothing added is forgotten while it may count. What is reported is exactly the events of the last 24 hours if and only if no event inside the window is followed by one outside it, unless the clock has gone back past a forgotten event; so always in time order. |
| Activity.OutOfOrder | internal/app/stats.go:700-718 | A history for which it is not: an event from a day ago, added late, is still reported. |
| Activity.RollingCounter.Add | internal/app/stats.go:695-698 | An event joins the history and the window moves up to it. |
| Activity.AccountActivity | internal/app/stats.go:720-728 | Every event is counted in one hourly bucket, its own, and the buckets add up to all events. |
| Redaction.RedactJSONStrings | internal/app/responses_redaction.go:44-85 | The scanner with its copied-so-far index gives what rewriting token by token gives, for every text. |
| Redaction.RedactionKeepsStructure | internal/app/responses_redaction.go:44-81 | Nothing outside strings changes, and the strings are the rewritten ones in the same places. |
| Redaction.SkipString | internal/app/responses_redaction.go:54-64 | The inner loop finds the quote that closes a string, past escapes, or its absence. |

## Left out

- Networking, WebSocket dialing, HTTP clients, OAuth and device login, zstd, listeners and CLI
  commands: their results are parameters.
- SQL text, migrations and SQLite: tables are maps or sequences with the stated conflict rule, and
  a transaction commits or fails.
- JSON decoding and encoding: events arrive decoded, with the fields the decisions use; whether an
  encoded result is too large is a parameter.
- Logging, tracing and response observation, which change no decision.
- Admin sessions, API key authorization, hashing and the TUI.
- Integer widths: ids, counters, times and costs are unbounded integers, percentages and pressures
  are reals without NaN or infinities.
- Waiting itself: goroutines, timers and channels that block are events that happen or do not.
- `admission.go`, `context_mutex.go` and `resources.go`, simpler instances of the same ideas.
- Credit and cost estimation from rates (`estimateCodexCredits` and the price table): an amount is a
  parameter.
- Header limits on cooldowns (`rateLimited`, `retryAfterHeader`).
- Thread statistics in `stats.go` (`threads`, `liveThreads`), which only collect what is shown.
- How a relay pins, queues and writes messages: a relay's life is its registration, its account and
  its end. Which handler ends it is one event.
- The account's last use and statistics in an acceptance: they follow the row and decide nothing
  about ownership.
- RouteRegistry.RouteClaimRegistry.InvalidateAccount: the order of the reported keys, which the
  program sorts.
- RouteRegistry.RouteClaimHandle.Preserve: the order of the reported keys, likewise.
- ResponseRouting.RouteServer.InvalidateAccount: the socket callbacks it runs after unlocking, which
  `SocketProtocol` models.
- RefreshProtocol.WaitersAreServed: cancellation of an exchange by the runtime's lifetime or its
  timeout; an exchange may end at any time with any outcome.
- RefreshObjects.RefreshOperations.Stop: cancelling the completion context when a shutdown wait
  expires; a completion may take any time.
- RetryHint.RetryHintIsTruthful: it needs the blocked owner to be allowed; without that
  `RouteNamesAccount` gives the exact condition.
- RoutedCredits.AccountCredits.RoutedCreditsSince: the division that turns nano-credits into credits.
- HttpOutcome.HttpPeer.Respond: headers, deadlines, redaction and the mapping of transport errors to
  texts; a failure is its status and whether it is a transient throttle. A changed policy or a
  timeout, which also retain the owner, end the reading like any other problem.
- CredentialRuns.MemoryFollows: removing the stored account, and a process that stores older
  credentials than the row has.
- Ledger.ApiKeyLedger.ComputeTotals: two price snapshots fetched at the same instant are taken to be
  the same, as the program takes them; rows are never deleted.
- Routing.PickAccount: the reason given for a decision, and the catalog that computes which accounts a
  model allows.
- Sse.ReadResponseSSE: read errors other than the end of the stream.
- Broadcast.SubscriberCatchesUp: rendering is any map of non-empty fragments, and a page is the map
  of the fragments it shows.
- Redaction.RedactionKeepsStructure: what the replacer recognizes as a secret.
