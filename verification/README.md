# Verified models of the API's transactional protocols and the search index

This project models the parts of the repository whose guarantees depend on how
several requests interleave, and proves what every interleaving keeps. It also proves
the exact theorems behind a few pure pieces: the search pattern, the page order, the
permission text, the amount grammar and the BM25 ranking. `dafny verify dfyconfig.toml`
checks everything.

## How the models are built

Each protocol has three layers.

* A **protocol module** (`WorkspaceProtocol`, `CreditProtocol`, `AccountProtocol`,
  `UnblockProtocol`) is a state machine. Its state holds the committed tables and the
  transactions in flight; an event is one SQL statement, one Redis call, a commit, a
  crash or the passing of time. Reads see committed rows (READ COMMITTED), what a
  transaction writes appears at its commit, and row locks are held until the transaction
  ends. A statement that needs a lock or a unique value another transaction holds is not
  enabled; it is evaluated on the tables as they are once the wait is over. A
  serialisation failure, a deadlock victim, a lost connection and a crash are all the
  event `Abort`.
* **Safety modules** state an invariant over the whole state, with one `Fact` for each
  point of each transaction, prove that every event keeps it, and derive the theorems
  for all runs. The central step is always the same: a fact of one transaction survives
  the commit of another *because* the two hold compatible locks (`FactSurvives`).
* **Service modules** are classes whose methods execute the statements of one source
  method in order. A schedule parameter decides what all other transactions do before
  each statement. The object carries its own history, and `Reachable()` says that the
  history is a run of the protocol, so the theorems apply to whatever the methods do.
  `Conducted` says of every call that it was one transaction of that run: its first event
  is the request, and its latest event is the commit, or there is no commit. What the
  commit changed is stated against `previous`, the state before the latest event; where a
  check is made earlier, `Met` says that the call went through the state it names. Each
  service contract also determines the outcome of an undisturbed call, one that finds no other
  transaction open and meets none (`Quiet`), in terms of the tables it begins with;
  `WorkspaceAlone` and `AccountAlone` prove those outcomes for the protocol.
  Disturbed, a call is aborted only while another transaction holds what it waits for
  (`Stuck`).

Values that the program draws at random (UUIDs, tokens, salts, refresh hashes) are named
after the transaction that draws them, which makes them fresh. There is one monotone
clock. Amounts are integers in ten-thousandths, after the decimal text has been shown to
have exactly one such value. Passwords, links and hashes are symbolic.

## What is proved

* **Workspaces.** Every workspace has an active owner in every committed state. The
  service locks the workspace row before the user row, the trigger the user row before
  the workspace rows; the shared lock that a promotion takes on the user keeps the
  trigger's list of owned workspaces complete. Invitations stay within their limits, end
  once, and are redeemed once; without an owner acting, nobody is promoted.
* **Login blocks.** Each unblock request deletes the counter at most once and exactly
  once when it completes as unblocked, over crashes, retries, replicas and Redis calls
  that arrive after their transaction has gone. This holds if and only if such a call
  takes effect in less than the six days between the 24-hour age limit and the seven-day
  marker. The retry worker empties its queue in the expected number of passes. The rate
  window admits at most `limit * (2 + r)` attempts in one window length, and that bound is
  reached.
* **Credits.** Balances are the sums of their entries, keys are used once, and every run
  of concurrent adjustments equals the committed ones executed one at a time.
* **Accounts.** Live sessions are vouched for by the current password or by a change that
  spared them, reset links and refresh hashes work once, and an administrator remains
  over every run of saves and removals. With self-deletions the code does not keep that
  promise: a user whose self-deletion is in flight can be made the only administrator
  before it commits. The exact condition is a guard the code lacks, reading the role again
  under the account lock. With it an administrator always remains, and letting any one
  self-deletion past it leaves a continuation with none.
* **Caches and search.** A cached value is never older than the last invalidation before
  the version was read; a cached index ranks as a new fit of the selected rows would; the
  two BM25 classes rank alike, by a score that rises with the count of a term, falls with
  the length of the document and stays below 2.5 times the term's weight.
* **Lists and permissions.** The pattern matches exactly the texts containing the search,
  the pages partition the rows in the only sorted order, and a stored permission text
  gives back exactly what was named when it was saved.

Where the code and a comment differ, the code is followed. A success of
`LoginUnblockService.unblock` may stand for another request of the same key having been
completed, as expired even, so `Unblock` promises a completed request and not a reset.

## Model

| member | source | states |
|---|---|---|
| WorkspaceOwnership.EveryWorkspaceKeepsAnActiveOwner | apps/api/src/workspaces/workspaces.service.ts:183-256 | over every run of creations, acceptances, member changes, suspensions, soft and hard deletions, each workspace has an owner who is active and not deleted |
| WorkspaceOwnership.RunKeepsInv | apps/api/src/database/migrations/1790010000000-Workspaces.ts:33-49 | what each open transaction has established so far (locks held, other owners found, the trigger's list complete) stays true through every other transaction's commit |
| WorkspaceOwnership.FactSurvives | apps/api/src/workspaces/workspaces.service.ts:189-198 | a commit cannot falsify what another transaction relies on when their row locks are compatible; the shared lock of a promotion is what protects the trigger's list |
| WorkspaceOwnership.OwnedShrinks | apps/api/src/workspaces/workspaces.service.ts:33-45 | no commit adds to the workspaces a user owns without at least a shared lock on that user |
| WorkspaceOwnership.WriteLeavesAnOwner | apps/api/src/database/migrations/1790010000000-Workspaces.ts:37-44 | a committed write that takes an active owner away leaves another one |
| WorkspaceOwnership.CommitKeepsOwners | apps/api/src/workspaces/workspaces.service.ts:216-235 | each commit leaves every workspace, new ones included, with an active owner |
| WorkspaceProtocol.Least | apps/api/src/database/migrations/1790010000000-Workspaces.ts:37-38 | the trigger locks the owned workspaces smallest identifier first |
| WorkspaceInvitations.InvitationsStayConsistent | apps/api/src/workspaces/workspaces.service.ts:93-128 | at most one open invitation per workspace and address, at most 100 live ones per workspace, none both accepted and revoked, over every run |
| WorkspaceInvitations.CommitWithinLimit | apps/api/src/workspaces/workspaces.service.ts:108-125 | counting at the start of the transaction is enough for the limit at its commit |
| WorkspaceInvitations.TerminalStatesNeverChange | apps/api/src/workspaces/workspaces.service.ts:142-181 | an accepted or revoked invitation is never changed again |
| WorkspaceInvitations.TokenRedeemedAtMostOnce | apps/api/src/workspaces/workspaces.service.ts:130-168 | however accept, invite and revoke race, one token adds at most one membership row, the one the invitation records |
| WorkspaceInvitations.RedemptionOnlyAdds | apps/api/src/workspaces/workspaces.service.ts:157-165 | redeeming gives a newcomer the invited role, never owner, and changes no existing member's role |
| WorkspaceAuthority.WithoutAnOwnerNobodyIsPromoted | apps/api/src/workspaces/workspaces.service.ts:99-101 | in a run where no acting user owns the workspace at the time, nobody becomes owner, and a new admin redeemed an admin invitation that was open at the start |
| WorkspacesService.Database.Create | apps/api/src/workspaces/workspaces.service.ts:33-57 | creates a workspace owned by the user, who is active and then owns at most 20; refusals are right and change nothing; undisturbed, which of the three outcomes it is |
| WorkspacesService.Database.Authorize | apps/api/src/workspaces/workspaces.service.ts:238-256 | continues only with the workspace locked and the actor's own role read, and never as a plain member where managing is needed |
| WorkspacesService.Database.Invite | apps/api/src/workspaces/workspaces.service.ts:93-128 | adds one invitation with a seven-day life, withdraws the open ones of the address, and only within the inviter's authority and for an address without a membership; undisturbed, the outcome is the first refusal that applies, or success |
| WorkspacesService.Database.Accept | apps/api/src/workspaces/workspaces.service.ts:130-168 | accepts an open, unexpired invitation addressed to the active user; inserts the membership only if absent; undisturbed, it succeeds exactly then |
| WorkspacesService.Database.Revoke | apps/api/src/workspaces/workspaces.service.ts:170-181 | withdraws one open invitation, for an owner any, for an admin only one of a member; undisturbed, it succeeds exactly then |
| WorkspacesService.Database.ChangeMember | apps/api/src/workspaces/workspaces.service.ts:183-236 | changes or removes exactly one membership within the actor's authority, to a role only of an active user; refused as last owner only where the target is an owner and one active owner is left; undisturbed, the outcome is the first refusal that applies, or success |
| WorkspacesService.Database.CheckAllOwned | apps/api/src/database/migrations/1790010000000-Workspaces.ts:37-44 | the trigger's loop ends with every listed workspace checked, or raises where the user is the sole active owner |
| WorkspacesService.Database.ChangeUser | apps/api/src/database/migrations/1790010000000-Workspaces.ts:33-49 | changes exactly the asked column of that user or deletes the user with its memberships; refused by the trigger only for a suspension or deletion of some workspace's sole active owner, and undisturbed exactly then |
| UnblockSafety.UnblockingIsOnceOnly | apps/api/src/settings/login-unblock.service.ts:105-143 | over every run, each request's counter reset happens at most once, exactly once if completed as unblocked; audits tell its life and no key has two pending requests |
| UnblockSafety.OnceOnlyExactlyWithinTheMargin | apps/api/src/settings/login-unblock.service.ts:116-127 | at-most-once holds if and only if a Redis call takes effect less than six days after its age check |
| UnblockSafety.SlowRedisResetsTwice | apps/api/src/platform/redis.service.ts:13-13 | with a slower call a concrete run resets the counter twice for one request |
| UnblockSafety.MarkerOutlivesRetries | apps/api/src/platform/redis.service.ts:130-152 | while a call checked against the 24-hour limit may still arrive, the seven-day marker of the first reset is alive |
| UnblockSafety.OlderGenerationStays | apps/api/src/settings/login-unblock.service.ts:128-133 | over every run, no processing of a request deletes a block of another generation than the one it recorded |
| UnblockSafety.NewerBlocksSurvive | apps/api/src/settings/login-unblock.service.ts:128-133 | a block written after the request was stored is never deleted on its behalf, over every run |
| UnblockSafety.CompletionIsFinal | apps/api/src/settings/login-unblock.service.ts:115-126 | a completed request never changes again |
| LoginUnblockService.Worker.Unblock | apps/api/src/settings/login-unblock.service.ts:45-92 | success means a request of the key has been completed; saved-for-retry means one is stored that is pending or expired; otherwise the call committed nothing; undisturbed, success comes exactly with Redis working and no request of the key past 24 hours |
| LoginUnblockService.Worker.SaveIntent | apps/api/src/settings/login-unblock.service.ts:46-81 | one transaction that stores a pending request with the generation of the block it read, in a state the call went through, or finds the one already there; undisturbed it never fails and does the one or the other exactly by whether one is pending |
| LoginUnblockService.Worker.Process | apps/api/src/settings/login-unblock.service.ts:105-143 | completing as unblocked means one reset in all and the recorded block generation gone; it skips only a missing request or one another worker is at, and gives up only where Redis does not answer in time; undisturbed, the result and its effect on both stores are determined |
| LoginUnblockService.Worker.Reconcile | apps/api/src/settings/login-unblock.service.ts:94-103 | one pass completes the oldest twenty with Redis working, and with Redis failing at least all the expired among them |
| LoginUnblockService.Worker.Passes | apps/api/src/settings/login-unblock.service.ts:94-103 | n passes complete the first 20 * n requests of the queue with Redis working, and with Redis failing at least those of them that are expired |
| LoginUnblockService.Worker.DrainQueue | apps/api/src/settings/login-unblock.service.ts:94-103 | with Redis working, a queue of n requests is empty after ceil(n/20) passes, each made of calls of Process |
| LoginUnblockService.Worker.ExpireStale | apps/api/src/settings/login-unblock.service.ts:94-126 | with Redis failing on every call, all e requests older than 24 hours are completed as expired within ceil(e/20) passes |
| LoginUnblockService.OldestFirst | apps/api/src/settings/login-unblock.service.ts:95-101 | the pending requests, each once, by creation time and then identifier |
| LoginUnblockService.StaleAreFirst | apps/api/src/settings/login-unblock.service.ts:99-126 | oldest-first order puts every request past the age limit before all others |
| RateWindow.AdmissionBound | apps/api/src/platform/redis.service.ts:72-92 | any interval of one window length admits at most limit * (2 + r) attempts of a key, r the effective resets in it |
| RateWindow.AdmissionBoundIsTight | apps/api/src/platform/redis.service.ts:82-86 | for every limit, window length and number r of effective resets some run reaches the bound |
| RateWindow.OneBlockPerWindow | apps/api/src/platform/auth-protection.guard.ts:38-53 | the block is written exactly once in a window that passes the limit, and never otherwise |
| RedisService.InMemory.Consume | apps/api/src/platform/redis.service.ts:72-92 | purges ended windows, counts in the window of the key, refuses exactly at 10000 other live keys, never holds more |
| RedisService.InMemory.PurgeCounters | apps/api/src/platform/redis.service.ts:78-79 | leaves exactly the windows that have not ended |
| RedisService.InMemory.ResetOnce | apps/api/src/platform/redis.service.ts:144-151 | deletes the counter once per operation while its marker lives, and refuses at capacity |
| RedisService.Server.WindowScript | apps/api/src/platform/redis.service.ts:12-12 | the script counts as the window of the key does |
| RedisService.Server.ResetOnceScript | apps/api/src/platform/redis.service.ts:13-13 | the script deletes the counter exactly when no marker of the operation is alive |
| AuthProtectionGuard.Guard.CanActivate | apps/api/src/platform/auth-protection.guard.ts:28-70 | turns away exactly when the counters are full, lets an attempt through exactly within the limit, writes the block exactly at limit + 1 |
| AuthProtectionGuard.Guard.Serve | apps/api/src/platform/auth-protection.guard.ts:34-59 | each operation of a sequence gets the response, and leaves the counters and blocks, that the operations before it call for |
| AuthProtectionGuard.GuardCounts | apps/api/src/platform/auth-protection.guard.ts:34-59 | of the operations not turned away for lack of room, in their order, exactly those are let through that the rate window admits |
| AuthProtectionGuard.GuardBound | apps/api/src/platform/auth-protection.guard.ts:34-59 | the attempts let through in one window length are at most limit * (2 + the resets that cleared a window in it) |
| CreditLedger.LedgerIsConserved | apps/api/src/accounting/account-credits.service.ts:55-110 | in every committed state each balance is the sum of its entries, each key occurs once, and there is one audit row for each entry |
| CreditLedger.EveryRunIsSerialisable | apps/api/src/accounting/account-credits.service.ts:82-108 | every interleaving of adjustments, retries, range errors and aborts ends as the committed ones executed alone in commit order |
| CreditLedger.CommitIsSerial | apps/api/src/accounting/account-credits.service.ts:104-108 | each commit does to the tables what the adjustment alone would do to them at that moment |
| CreditLedger.FailureIsSerial | apps/api/src/accounting/account-credits.service.ts:93-99 | each refusal is the one the adjustment alone would get from the tables it read |
| CreditLedger.AloneInEntries | apps/api/src/accounting/account-credits.service.ts:60-109 | what one adjustment alone answers and writes, in terms of the entries only: known or not, key used by the same or another adjustment, sum within the column or not |
| CreditLedger.CommittedExactlyOnce | apps/api/src/accounting/account-credits.service.ts:82-102 | once an attempt of a request has committed, however often it is retried, the ledger holds exactly one entry under its key, the request's own |
| CreditLedger.AdjustKeepsSound | apps/api/src/accounting/account-credits.service.ts:59-109 | one adjustment alone keeps conservation, unique keys, audits, references and range |
| CreditService.Ledger.Adjust | apps/api/src/accounting/account-credits.service.ts:55-110 | a new adjustment is answered with the sum of the entries it leaves, a replay with the sum of the entries in a state the call went through; missing record, reused key and overflow are refused only for what the tables hold, zero exactly; a refusal changes nothing; undisturbed, the answer is determined |
| CreditService.Ledger.Finish | apps/api/src/admin/admin-mutation.service.ts:26-50 | the commit is the latest event and does to the tables before it all that the adjustment alone would do, entry, balance and audit row together |
| Amounts.ZeroTestIsExact | apps/api/src/accounting/account-credits.service.ts:56-58 | the zero test rejects an accepted amount exactly when its exact value is zero |
| Amounts.StoredInRange | apps/api/src/accounting/catalog.dto.ts:19-19 | every accepted amount is an integer of ten-thousandths smaller than 10^19 in size |
| Amounts.StoredIsExact | apps/api/src/accounting/catalog.dto.ts:19-19 | storing an accepted amount rounds nothing away |
| Amounts.SpellingIrrelevant | apps/api/src/accounting/account-credits.service.ts:93-99 | two texts are the same stored amount exactly when they are the same number |
| Amounts.PaddingKeepsTheAmount | apps/api/src/accounting/account-credits.service.ts:94-95 | a leading zero or a trailing zero of the fraction changes the text and not the amount |
| Amounts.WrittenIsStored | apps/api/src/accounting/catalog.dto.ts:19-19 | every amount below 10^19 ten-thousandths has a decimal text that is accepted and stored as that amount |
| Amounts.GrammarIsSpelt | apps/api/src/accounting/catalog.dto.ts:19-19 | accepted are exactly an optional minus, 1 to 15 digits, and optionally a point with 1 to 4 digits |
| AccountSessions.LiveSessionsAreVouchedFor | apps/api/src/session/persistence/typeorm-session.repository.ts:22-44 | after every run an unrevoked session of an undeleted account belongs to an active account, and was opened under its current password or was spared by every password change since |
| AccountSessions.ResetLinkWorksAtMostOnce | apps/api/src/auth/auth.service.ts:271-287 | over every run one reset link changes a password at most once |
| AccountSessions.RefreshesFormAChain | apps/api/src/session/persistence/typeorm-session.repository.ts:46-66 | accepted refresh hashes of a session form one chain from its current hash |
| AccountSessions.EachHashAcceptedAtMostOnce | apps/api/src/auth/auth.service.ts:389-401 | no refresh hash is accepted twice, whatever interleaves |
| AccountSessions.RevokedSessionNeverRefreshes | apps/api/src/session/persistence/revoke-user-sessions.ts:4-14 | after revocation no hash of the session is accepted |
| AccountSessions.CommitLeavesLockedRows | apps/api/src/users/persistence/typeorm-user.repository.ts:29-41 | what a transaction decided on a locked account row is still what the row calls for when it commits |
| AdministratorSafety.SomeAdministratorRemains | apps/api/src/admin/accounts.service.ts:73-164 | over every interleaving of saves and removals an active undeleted administrator remains, if no self-deletion commits on an account that is an administrator by then |
| AdministratorSafety.LastAdministratorGoes | apps/api/src/admin/accounts.service.ts:138-207 | up to the first such commit, an event takes the last administrator away if and only if it commits a self-deletion on the only one |
| AdministratorSafety.GuardedRunsKeepAnAdministrator | apps/api/src/auth/auth.service.ts:425-431 | if self-deletions stop where they find an administrator's row under its lock, an administrator remains in every run, self-deletions included |
| AdministratorSafety.GuardIsExact | apps/api/src/auth/auth.service.ts:425-431 | after any guarded run, an event leaves an administrator in all guarded continuations if and only if it passes that guard |
| AdministratorSafety.StaleSelfDeletionRemovesTheLast | apps/api/src/auth/auth.service.ts:425-431 | without that condition a concrete run leaves no administrator |
| AccountService.Identity.ValidateLogin | apps/api/src/auth/auth.service.ts:40-98 | one transaction that opens one new session, for an active account whose password at that moment is the one given; refused if the credential that was checked is no longer current; undisturbed, it succeeds exactly for an active account with that password |
| AccountService.Identity.UpdateAtomically | apps/api/src/users/persistence/typeorm-user.repository.ts:22-56 | reset, self-service change, confirmation and self-deletion change the locked row exactly as asked and end exactly the sessions they should; refusals fit the state; undisturbed, each outcome is determined |
| AccountService.Identity.Save | apps/api/src/admin/accounts.service.ts:138-189 | changes password, status and role as asked and nothing else, ends all sessions on a new password, role or suspension; refused as last administrator only where the target is the only one and the save takes its role or its active status; undisturbed, the outcome is the first refusal that applies, or success |
| AccountService.Identity.Create | apps/api/src/admin/accounts.service.ts:134-169 | adds one account with the asked password, status and role, a customer always as an ordinary user; undisturbed it always succeeds |
| AccountService.Identity.Remove | apps/api/src/admin/accounts.service.ts:192-207 | marks another account deleted and ends its sessions, never an administrator's; undisturbed, the outcome is the first refusal that applies, or success |
| AccountService.Identity.RefreshToken | apps/api/src/session/persistence/typeorm-session.repository.ts:46-66 | replaces the hash exactly when the presented one is current and the session is not revoked |
| VersionedCache.ReturnsNothingOlder | apps/api/src/platform/redis.service.ts:154-176 | a returned value was in the source at a moment no earlier than the last invalidation before the call read the version, late and unanswered writes included |
| VersionedCache.WriteThenInvalidateIsSeen | apps/api/src/platform/redis.service.ts:108-122 | data written and then invalidated is what every later call returns until it is written again |
| VersionedCache.Cache.Cached | apps/api/src/platform/redis.service.ts:154-176 | returns a value the source held since the last invalidation before the call; undisturbed, the cached one if there is one, else the loaded one, which it caches |
| LikePattern.MatchesExactlySubstrings | apps/api/src/admin/admin-query.ts:8-10 | the pattern for a value matches a text under LIKE exactly when the text contains the value, whatever metacharacters it holds |
| LikePattern.MatchesUpToCase | apps/api/src/admin/admin-query.ts:19-25 | the same for ILIKE after case folding |
| AdminQuery.BracketFindsSubstrings | apps/api/src/admin/admin-query.ts:19-25 | the bracket of a search is true, in three-valued logic, exactly of the rows one of whose expressions contains the search |
| AdminQuery.QueryBuilder.ApplySearch | apps/api/src/admin/admin-query.ts:13-26 | narrows the rows the builder admits to those found, and leaves it alone with nothing to search |
| AdminQuery.QueryBuilder.PaginateRaw | apps/api/src/admin/admin-query.ts:29-47 | returns the count of the admitted rows and the asked page of them; in the page the sort column rises for "asc" and falls otherwise, rows without a value come last for "asc" and first otherwise, and ties rise in the tie-breaker |
| AdminQuery.PagesPartition | apps/api/src/admin/admin-query.ts:40-45 | whatever order the database meets rows in for each page, pages 1 to ceil(count/size) give every row once, in the only order that is sorted, by the asked column and then strictly by the tie-breaker |
| AdminQuery.PageIsTheSlice | apps/api/src/admin/admin-query.ts:43-44 | page p holds the rows from (p - 1) * size on, up to size of them |
| AdminQuery.SortedIsUnique | apps/api/src/admin/admin-query.ts:41-41 | under an order in which only equal rows tie there is one sorted arrangement |
| AdminQuery.TiesRepeatRows | apps/api/src/admin/admin-query.ts:41-45 | without a tie-breaker any two tied rows can make one appear on two pages and the other on none |
| Permissions.RoundTrip | apps/api/src/admin/roles.controller.ts:92-110 | splitting the stored text gives exactly the permissions the accepted text names |
| Permissions.ParsedInOrder | apps/api/src/auth/strategies/jwt.strategy.ts:50-54 | each permission comes once, in the order of first occurrence |
| Permissions.CatalogIsStorable | libs/contracts/src/permissions.ts:5-42 | every choice of distinct permissions from the catalog is accepted and stored as it is |
| Permissions.RefusedIffUnknown | apps/api/src/admin/roles.controller.ts:101-107 | a text is refused exactly when it names something outside the catalog |
| Permissions.ValidateIsIdempotent | apps/api/src/admin/roles.controller.ts:109-109 | validating the stored text again changes nothing |
| Permissions.TrimCutsBlanks | apps/api/src/admin/roles.controller.ts:97-97 | trimming cuts blanks at both ends and nothing else |
| Permissions.DelegatedDecision | apps/api/src/admin/permission.guard.ts:26-41 | for a delegated role the guard passes a permission exactly if it is not reserved and it or, for reading, its writing counterpart is named |
| Permissions.DecisionDependsOnTheSet | apps/api/src/admin/permission.guard.ts:34-41 | texts naming the same permissions give the same decisions |
| Permissions.WriteImpliesRead | apps/api/src/admin/permission.guard.ts:39-40 | whoever may write a subject may read it |
| Permissions.RequestIsEntitled | apps/api/src/auth/strategies/jwt.strategy.ts:24-55 | a request gets through exactly if it is authenticated and its role is the administrator or was saved with the permission, or with the right to write what is to be read, and the permission is not reserved |
| Permissions.AuthenticatedExactly | apps/api/src/auth/strategies/jwt.strategy.ts:24-55 | authenticated is exactly the owner of a live session whose account is active and has an existing role, with the permissions that role was saved with |
| Permissions.GuardDecision | apps/api/src/admin/permission.guard.ts:20-42 | the decision for administrators and delegated roles alike, reserved permissions named one by one |
| Bm25.RankingIsTheOnlyOne | apps/web/.agents/skills/ui-ux-pro-max/scripts/core.py:343-343 | the ranking is the one arrangement of all rows with falling scores and ties in row order |
| Bm25.OneWordRanking | apps/web/.agents/skills/ui-ux-pro-max/scripts/core.py:333-343 | for a word of positive weight, documents with it come before those without, of equal counts the shorter first, of equal lengths the one with more occurrences |
| Bm25.TermScoreRange | apps/web/.agents/skills/ui-ux-pro-max/scripts/core.py:337-339 | a term of positive weight scores 0 exactly where it does not occur, always below 2.5 times the weight, and the weight itself for one occurrence in a document of mean length |
| Bm25.TermScoreExactly | apps/web/.agents/skills/ui-ux-pro-max/scripts/core.py:337-339 | the score times the saturated length is 2.5 times weight and frequency, a quarter of the length term fixed and three quarters relative to the mean |
| Bm25.MoreOccurrencesScoreMore | apps/web/.agents/skills/ui-ux-pro-max/scripts/core.py:337-339 | the score rises strictly with the number of occurrences |
| Bm25.LongerDocumentsScoreLess | apps/web/.agents/skills/ui-ux-pro-max/scripts/core.py:337-339 | the score falls strictly with the length of the document |
| Bm25.OneWordScore | apps/web/.agents/skills/ui-ux-pro-max/scripts/core.py:333-339 | a one-word query scores a document by its count of the word, its length, the mean length and the weight of corpus size and document frequency |
| Bm25.ScoreAdds | apps/web/.agents/skills/ui-ux-pro-max/scripts/core.py:329-341 | the score of a query is the sum over its words, however they are grouped |
| Bm25.CountsDocuments | apps/web/.agents/skills/ui-ux-pro-max/scripts/core.py:317-318 | the document frequency is the number of documents that hold the term |
| Bm25.MeanIsWithin | apps/web/.agents/skills/ui-ux-pro-max/scripts/core.py:308-309 | the mean length lies between the shortest and the longest document |
| Bm25.TunedIndex.Fit | apps/web/.agents/skills/ui-ux-pro-max/scripts/core.py:302-321 | a new index gets lengths, mean length, term frequencies, and a weight for exactly the terms that occur; a second fit replaces the documents and adds to the document frequencies |
| Bm25.TunedIndex.Score | apps/web/.agents/skills/ui-ux-pro-max/scripts/core.py:323-343 | returns the defined ranking of the fitted documents |
| Bm25.PlainIndex.Fit | apps/web/.agents/skills/design-system/scripts/slide_search_core.py:62-79 | a new index gets lengths, mean length and a weight for exactly the terms that occur; a second fit replaces the documents and adds to the document frequencies |
| Bm25.PlainIndex.Score | apps/web/.agents/skills/design-system/scripts/slide_search_core.py:81-103 | returns the defined ranking, without ever dividing by a zero mean length |
| Bm25.SameRanking | apps/web/.agents/skills/design-system/scripts/slide_search_core.py:62-103 | fitted to the same documents under one tokenizer the two classes rank alike |
| SearchCache.VariantDeterminesFilter | apps/web/.agents/skills/ui-ux-pro-max/scripts/core.py:888-922 | the text of the variant determines the row filter |
| SearchCache.OneGeneration | apps/web/.agents/skills/ui-ux-pro-max/scripts/core.py:888-903 | a stack search never mixes deprecated rows with others, from whichever reading its filter was chosen |
| SearchCache.StackSelection | apps/web/.agents/skills/ui-ux-pro-max/scripts/core.py:888-922 | which rows a stack search keeps: deprecated ones for a legacy query where there are any, none for a legacy query of a versioned stack without, else active ones where there are any, else all not deprecated; with a component library only its rows |
| SearchCache.SelectAdds | apps/web/.agents/skills/ui-ux-pro-max/scripts/core.py:432-433 | selected rows keep their order and number |
| SearchCache.CellsAreJoined | apps/web/.agents/skills/ui-ux-pro-max/scripts/core.py:397-398 | the document of a row is its cells in column order with blanks between, missing cells empty |
| SearchCache.Searcher.LoadSnapshot | apps/web/.agents/skills/ui-ux-pro-max/scripts/core.py:363-378 | returned rows are those of one state of the file, the one its signature stands for, not older than the call |
| SearchCache.Searcher.GetIndex | apps/web/.agents/skills/ui-ux-pro-max/scripts/core.py:386-402 | a hit returns the cached index, a miss fits and stores one, with or without a signature; the caches stay right if and only if it is a hit or the data match the signature, and then hit and miss are fitted to the same documents |
| SearchCache.Searcher.Search | apps/web/.agents/skills/ui-ux-pro-max/scripts/core.py:414-439 | after any searches and rewrites the ranking is that of the selected rows of a state the file had during the call; with no rewrites each outcome is determined |
| SearchCache.Searcher.SearchStack | apps/web/.agents/skills/ui-ux-pro-max/scripts/core.py:951-976 | the same with a filter chosen from a reading of the file no earlier than the call and no later than the one searched; with no rewrites both are the present file and each outcome is determined |

## Left out

- AdministratorSafety.SomeAdministratorRemains: fails for self-deletions, because the code does not read the role again under the lock; `StaleSelfDeletionRemovesTheLast` gives a run and `GuardIsExact` the exact condition.
- WorkspacesService.Database.Create: the limit of 20 owned workspaces is stated for creation only, because promotion does not check it.
- WorkspacesService.Database.Accept: the row lock on the invitation is not modelled; all writers of invitations hold the workspace lock already, so it could only add waiting.
- WorkspacesService.Database.Revoke: states the effect on rows and not the driver's result shape for `UPDATE ... RETURNING`; a failure it reports as not found may be an invitation outside the actor's authority.
- CreditLedger.EveryRunIsSerialisable: the balance in the answer to a replay is that of the tables it read, which may be an earlier committed state than its own commit.
- AccountService.Identity.RefreshToken: the account's status and role are read again after the rotation before new tokens are signed; that later refusal is not modelled.
- AccountService.Identity.ValidateLogin: the provider of the account and the distinction between error texts are not modelled.
- RateWindow.AdmissionBound: windows are in milliseconds of one clock; the one-second rounding of Redis key expiry is not modelled.
- Bm25.TunedIndex.Score: stated for an index fitted once, as every caller does; so is the score of the other class, which can divide by zero after a second fit to empty documents.
- Bm25.SameRanking: numbers are exact reals and the logarithm is an arbitrary weight of corpus size and document frequency; rounding of floating point is not modelled.
- SearchCache.Searcher.Search: query rewriting, thresholds, abstention and the projection of result columns; the regular expressions that read a query's generation and a row's component library are parameters.
- AdminQuery.PagesPartition: the page number is limited to 10000 by the request, so pages beyond that cannot be asked for; rows are fixed while pages are read.
- LikePattern.MatchesUpToCase: case folding is any character map that keeps the metacharacters and makes no new ones; folding that depends on context is not modelled.
- Listing, details and renaming of workspaces, generic catalog editing, mail, captcha, cookies, tokens and their expiry, the HTTP layer and configuration.
- Redis key names and hash tags, connection handling, and the loss of Redis data.
- Deadlock detection: its victim is an `Abort`; that some transaction always proceeds is not claimed.
- Passwords, bcrypt, JWT signatures and SHA-256 are symbolic and injective.
- Registration, confirmation and self-deletion appear only as far as they touch credentials, status and sessions.
