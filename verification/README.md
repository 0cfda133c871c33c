# A verified model of the workspace backend

The program is a NestJS backend for freelancers and their clients: sign-in and sessions,
workspaces with files, chat, whiteboards, notifications and search. This project models
the parts that keep state, and proves what they promise over whole runs. Tables are maps,
the clock is an integer in milliseconds, storage is a set of keys, and hashing is injective.

Two kinds of model stand side by side:

- *State machines* whose steps are the program's database statements, interleaved in any
  order by any number of requests (`SessionCap`, `Lockout`, `SingleUse`, `FileLifecycle`),
  or whole operations (`RefreshRotation`, `TwoFactor`, `GoogleAccounts`, `Whiteboard`,
  `MessageViewers`, `Presence`). The main results are about every run of these.
- *Classes* that do what the service classes do, statement by statement, each method
  proved equal to a step or a run of the machine beside it, so that what holds of the runs
  holds of them. What an operation decides, and the limits it decides by, are also stated in
  the fields it reads and in plain numbers, without the functions its body shares with the
  machine.

| file | what it models |
|---|---|
| `SessionCap.dfy`, `SessionTable.dfy` | the cap of ten sessions in its three copies, suspension |
| `Lockout.dfy`, `LockRaces.dfy`, `PasswordLogin.dfy` | failed-login counter and lock, concurrent attempts, password sign-in |
| `RefreshRotation.dfy` | refresh-token rotation with its grace window |
| `SingleUse.dfy` | reset tokens and exchange codes |
| `PasswordHistory.dfy` | reuse check and pruned history |
| `TwoFactor.dfy` | guess budget per token, backup codes |
| `GoogleAccounts.dfy` | Google sign-in, linking, disconnecting |
| `FileLifecycle.dfy`, `RestoreRace.dfy`, `FileService.dfy` | uploads, trash, quota and object store under failures |
| `TrashSweep.dfy` | the nightly sweep |
| `LikePattern.dfy`, `SearchMerge.dfy` | LIKE escaping, search access, merge of limited sources |
| `Whiteboard.dfy`, `SettledWrites.dfy` | trailing-edge debounce and shutdown flush, what it saves |
| `Presence.dfy`, `MessageViewers.dfy`, `Notifications.dfy` | socket registries, who is notified |
| `Wrappers.dfy` | Option, Result and facts about finite sets |

## What turned out false of the code

Each is kept as the code has it, with a run that shows it and the exact condition under
which the property holds, or the exact bound that holds instead.

- *At most ten sessions.* Reading, evicting and inserting are three statements without a
  transaction. With k issuances in flight the cap is 9 + k (`OvershootIsBounded`), and for
  every k some run reaches it (`OvershootIsReached`).
- *A suspended user has no session.* A sign-in past its status check lands after the
  deletion. The suspension is final exactly when no issuance was in flight
  (`SuspensionIsFinalIff`). With whole operations the property holds (`SuspendedNeverOwn`).
- *No password is evaluated while a lock is in force.* Of two attempts that have looked, one
  may lock and the other is evaluated afterwards (`EvaluatedUnderLock`). It happens exactly
  when, since the attempt looked, a lock was written that neither a reset nor the end of its
  fifteen minutes followed (`EvaluatedUnderLockIff`), and with k attempts in flight at most
  k - 1 times under one lock (`FewUnderOneLock`).
- *Restoring keeps the quota.* The window is read at `src/file/file.service.ts:270-275` and
  again at 299-301. If the row leaves it in between and an upload takes its place, a run from
  the empty store ends over the limit (`LateRestoreBreaksQuota`). A restore that passes its
  check keeps the quota exactly when its row is then still counted or fits beside what is
  (`RestoreKeepsQuotaIff`); without growth in between it always does (`LateButRoomy`).
- *The sweep ends.* With a hundred or more files that keep failing it need not
  (`SweepEndsIff`).
- *The disconnect guard leaves a way to sign in.* It counts a password, but the password form
  is closed to accounts that came from Google (`CountedButNotUsable`). Usually the same Google
  identity is found again by its address and relinked; a user who has also changed their
  address is locked out, and the identity becomes a new user (`DisconnectLocksOut`). Exactly
  when something is left is `DisconnectLeavesUsableIff`.
- *Every scene followed by two seconds of silence is saved.* An update that comes in while its
  own board's timer is due but has not run yet replaces what it would have saved
  (`LateTimerSkips`). Apart from that timers may be late: the saves are exactly the settled
  updates if and only if this never happens (`WritesAreExactIff`).

Where code and documentation disagree the model follows the code: the repository's README
says at line 65 that the lock is revealed only once the password is correct, while
`src/auth/auth.service.ts:599-617` looks at the lock before the password; the comment at
`src/file/file-cleanup.service.ts:48-49` says that rows ageing past the cutoff during a sweep
are picked up, while the cutoff is computed once, at 41-43.

## Model

| member | source | states |
|---|---|---|
| SessionCap.OvershootIsBounded | src/auth/auth.service.ts:100-116 | with at most k issuances of a user in flight, interleaved at every statement with each other and any deletions, the user never holds more than 9 + k sessions |
| SessionCap.OvershootIsReached | src/auth/auth.service.ts:719-732 | the bound is tight: for every k a run with at most k in flight ends with exactly 9 + k sessions |
| SessionCap.CoveredBound | src/auth/auth.service.ts:107-115 | nine kept sessions and at most k others bound the user's rows |
| SessionCap.ListKeeps | src/auth/two-factor-auth.service.ts:383-387 | the oldest-first listing, also under concurrent inserts, keeps the certificate behind the bound |
| SessionCap.TrimKeeps | src/auth/two-factor-auth.service.ts:388-393 | deleting the listed surplus leaves nine kept rows and those created since the listing |
| SessionCap.CreateKeeps | src/auth/passkey.service.ts:386-395 | inserting the row uses up one of the k places |
| SessionCap.RunKeeps | src/auth/passkey.service.ts:374-395 | the bound holds at the end of every interleaving, from any certified state |
| SessionCap.SuspendedDrains | src/admin/admin.service.ts:161-169 | while a user stays suspended, sessions plus issuances in flight never grow |
| SessionCap.StragglerLands | src/auth/auth.service.ts:655-732 | an issuance in flight when the sessions were dropped can still land one |
| SessionCap.SuspensionIsFinalIff | src/admin/admin.service.ts:157-169 | no session of the user ever appears before reactivation if and only if none was being issued when the rows were deleted |
| SessionCap.AloneEvictsOldest | src/auth/auth.service.ts:100-116 | in every run with at most one issuance of the user in flight at a time, whatever else comes between its statements, an eviction takes only rows no newer than every row it leaves and leaves nine at most; the user never holds more than ten |
| SessionCap.SignInBeginsIff | src/auth/auth.service.ts:655-657 | after any run a sign-in of a user can begin if and only if no suspension of theirs is without a later reactivation |
| SessionTables.SoloEvictsOldest | src/auth/auth.service.ts:100-116 | a sign-in whose statements nothing comes between evicts only as many as needed, none newer than a survivor; other users keep theirs |
| SessionTables.CutOrder | src/auth/auth.service.ts:108-111 | the slice splits the user's rows into evicted and kept, every evicted one no newer than every kept one |
| SessionTables.SoloSteps | src/auth/auth.service.ts:701-732 | the statements of one sign-in, uninterrupted, evict the surplus prefix and add the row |
| SessionTables.SessionTable.FindOldest | src/auth/auth.service.ts:103 | returns a row no newer than any other |
| SessionTables.SessionTable.FindOldestFirst | src/auth/auth.service.ts:101-105 | lists exactly the user's rows, oldest first, ties in any order |
| SessionTables.SessionTable.EnforceSessionLimit | src/auth/auth.service.ts:100-116 | removes the surplus prefix of an oldest-first listing and nothing else |
| SessionTables.SessionTable.IssueSession | src/auth/two-factor-auth.service.ts:303-404 | refuses a suspended user; else adds the row, and of ten or more evicts the oldest down to nine, touching nobody else; equals the statement-level run |
| SessionTables.SessionTable.UpdateStatus | src/admin/admin.service.ts:157-169 | suspending marks the user and takes all their rows, reactivating unmarks them and takes none; every other user keeps status and rows |
| SessionTables.SessionTable.RevokeSession | src/user/user.service.ts:540-552 | removes the row if and only if it exists and is the user's own; a stranger's id is answered like an unknown one |
| SessionTables.SessionTable.RevokeOtherSessions | src/user/user.service.ts:554-566 | leaves the user at most the current session, other users all of theirs, and returns the number removed |
| SessionTables.SessionTable.DeleteSessions | src/auth/auth.service.ts:960-962 | bulk deletions only remove rows and keep the suspension invariant |
| Lockout.GuessesAreRateLimited | src/auth/auth.service.ts:125-147 | with at most k attempts in flight, wrong passwords evaluated between two resets within T ms number at most 4 + k(1 + T / 900000) |
| Lockout.SequentialGuessesAreRateLimited | src/auth/auth.service.ts:604-665 | one attempt at a time: at most 5 + T / 900000 |
| Lockout.CounterIsExact | src/auth/auth.service.ts:128-134 | in every interleaving the counter equals the wrong passwords since the last reset |
| Lockout.SpreadByOne | src/auth/auth.service.ts:135-145 | from the fifth wrong guess on, the guess k places later comes at least fifteen minutes later |
| Lockout.SpreadByMany | src/auth/auth.service.ts:135-145 | and c times k places later, at least c times fifteen minutes |
| Lockout.StepKeeps | src/auth/auth.service.ts:604-665 | every statement keeps the history that ties each late guess to a lock still in force or about to be written |
| LockRaces.RateIsReached | src/auth/auth.service.ts:125-147 | the rate is tight: for every k and m a run with at most k in flight spans T = m * 900000 ms with exactly 4 + k(1 + T / 900000) wrong guesses |
| LockRaces.EvaluatedUnderLockIff | src/auth/auth.service.ts:599-665 | an attempt that has looked is evaluated under a lock if and only if since then a lock was written that neither a reset nor the end of its fifteen minutes followed |
| LockRaces.EvaluatedUnderLock | src/auth/auth.service.ts:599-622 | a run with two attempts in flight in which the second is evaluated while the lock is in force |
| LockRaces.FewUnderOneLock | src/auth/auth.service.ts:599-622 | a lock written with at most k attempts in flight lets at most k - 1 more passwords be evaluated while it holds; with one at a time, none |
| PasswordLogin.CeilDiv | src/auth/auth.service.ts:605-607 | rounds the minutes left up |
| PasswordLogin.Account.RegisterFailedLogin | src/auth/auth.service.ts:125-147 | counts the failure, and from the fifth on locks for fifteen minutes |
| PasswordLogin.Account.Login | src/auth/auth.service.ts:578-752 | the answers in the order of the code, told by the columns; the row changes as its statements do: one more failure, a lock of 900000 ms from the fifth on, a reset for an active user with the right password, else nothing |
| RefreshRotation.RefreshFollowsTrail | src/auth/auth.service.ts:754-849 | in every reachable state a refresh succeeds if and only if the token is the last one issued, or the one whose presentation produced it under 30 s ago, and the session is unexpired and its user active; any other token of the session ends it |
| RefreshRotation.CheckIsAcceptable | src/auth/auth.service.ts:778-796 | the check of the stored current and previous token equals that rule about the tokens ever issued |
| RefreshRotation.RenewalHandsOver | src/auth/auth.service.ts:837-846 | after a renewal the stored token is the last one issued, and exactly it and the token just presented are acceptable |
| RefreshRotation.LivesSinceLastUse | src/auth/auth.service.ts:798-848 | in every reachable state the current token of an active user's session renews it if and only if at most 2592000000 ms (remember-me) or 86400000 ms (otherwise) have passed since the last sign-in or renewal; afterwards it reports the session expired |
| RefreshRotation.StaleForever | src/auth/auth.service.ts:778-796 | an issued token that has stopped being acceptable never becomes acceptable again |
| RefreshRotation.ReplayEndsSession | src/auth/auth.service.ts:792-795 | presenting such a token ends the session; no token of it is accepted in any later state |
| RefreshRotation.EndedStaysEnded | src/auth/auth.service.ts:851-866 | a session that was deleted, whatever deleted it, never comes back |
| RefreshRotation.DeletedForGood | src/user/user.service.ts:540-566 | a deletion ends the sessions it names in every later state and leaves the others as they were |
| RefreshRotation.ClockFollowsTicks | src/auth/auth.service.ts:798-801 | over any run the clock moves by the sum of its ticks, so lifetimes are measured in elapsed time |
| RefreshRotation.StepKeeps | src/auth/auth.service.ts:769-848 | every operation keeps the row in agreement with the trail of tokens issued |
| RefreshRotation.SuspendedNeverOwn | src/auth/auth.service.ts:803-811 | with each operation atomic, in every run of sign-ins, refreshes, logouts, deletions, suspensions and reactivations a suspended user owns no session |
| RefreshRotation.SuspensionHolds | src/admin/admin.service.ts:161-169 | a suspension takes the user's sessions and nobody else's, and until a reactivation the user owns none and every token of theirs is refused |
| RefreshRotation.RefreshService.IssueTokens | src/auth/auth.service.ts:700-732 | a sign-in leaves a row with its token, no previous one, and the lifetime that was chosen; a suspended user gets none |
| RefreshRotation.RefreshService.Refresh | src/auth/auth.service.ts:754-849 | the refusals in the order of the code, told by the row; a renewal stores the new token, keeps the presented one for its 30 s, and lasts thirty days with remember-me and one without; a replay or a suspended user ends the session |
| RefreshRotation.RefreshService.CheckAndRotate | src/auth/auth.service.ts:769-848 | the same for the statements one by one |
| RefreshRotation.RefreshService.Logout | src/auth/auth.service.ts:851-866 | deletes the session of a valid token; never fails |
| SingleUse.SharesAreConserved | src/auth/auth.service.ts:942-949 | row, holders and uses of a ticket are conserved by every step of serving it |
| SingleUse.SpentAtMostOnce | src/auth/auth.service.ts:186-206 | whatever the interleaving, a reset token leads to at most one password write and a code to at most one session |
| SingleUse.SweptIsNeverSpent | src/auth/cleanup.service.ts:37-44 | a ticket deleted before any request got hold of it is never worth anything, also not to requests that have found its row |
| SingleUse.WholeRequest | src/auth/auth.service.ts:906-963 | a request that meets no other is look-up, delete, effect |
| SingleUse.TicketDesk.ResetPassword | src/auth/auth.service.ts:906-963 | a reset refused for breach, expiry or reuse leaves the token row in place; one that succeeds spends it exactly once, as an uninterrupted request does |
| SingleUse.TicketDesk.ExchangeForTokens | src/auth/auth.service.ts:181-208 | burns the code whatever comes of it, and honours it only unexpired and for an active user |
| PasswordHistory.HistoryIsExact | src/libs/common/services/password-history.service.ts:21-71 | over any run any seven consecutive passwords are pairwise distinct, and the history is exactly the last five replaced hashes |
| PasswordHistory.ColumnsDecide | src/libs/common/services/password-history.service.ts:26-44 | the stored hashes match a candidate if and only if it is one of the user's last six passwords ever |
| PasswordHistory.RecordedIsNewest | src/libs/common/services/password-history.service.ts:52-71 | insert and prune leave the five newest replaced hashes |
| PasswordHistory.StepKeeps | src/user/user.service.ts:95-123 | an accepted password extends the trail, which stays free of repeats |
| PasswordHistory.UserPasswords.AssertNotReused | src/libs/common/services/password-history.service.ts:21-45 | reports a match with the current or one of the five newest remembered hashes, and only then |
| PasswordHistory.UserPasswords.Record | src/libs/common/services/password-history.service.ts:52-71 | puts the replaced hash on top and drops the stale ones; nothing for an account without one |
| PasswordHistory.UserPasswords.ChangePassword | src/user/user.service.ts:95-123 | no password, wrong current one, breached, used among the last six: refused in that order without a change; else the new hash is current and the old one on top of at most five remembered |
| PasswordHistory.UserPasswords.ResetPassword | src/auth/auth.service.ts:906-963 | the same without the first two checks |
| PasswordHistory.UserPasswords.SetPassword | src/user/user.service.ts:412-432 | a first password, only where there is none, unless breached |
| TwoFactor.TokenBudget | src/auth/two-factor-auth.service.ts:290-357 | over any run at most five codes are evaluated per token, and none after one succeeded |
| TwoFactor.BudgetStep | src/auth/two-factor-auth.service.ts:424-435 | every step keeps evaluations, counter and burnt flag of a token in step |
| TwoFactor.SweptIsDead | src/auth/cleanup.service.ts:46-49 | a token whose row was swept is never checked against a code again |
| TwoFactor.TenCodesOneUseEach | src/auth/two-factor-auth.service.ts:315-333 | while 2FA is on the user has exactly ten code rows, used ones included, otherwise none; no row is redeemed twice |
| TwoFactor.IssueGivesTen | src/auth/two-factor-auth.service.ts:81-89 | a new set replaces the old one entirely and touches no other user's |
| TwoFactor.HyphenIsOptional | src/auth/two-factor-auth.service.ts:75-77 | a code is accepted as shown and without its hyphen, and distinct codes never match |
| TwoFactor.TwoFactorService.IssuePendingToken | src/auth/auth.service.ts:680-699 | a right password of a user with 2FA leaves a row without attempts that expires in 300000 ms |
| TwoFactor.TwoFactorService.RegisterFailedVerifyAttempt | src/auth/two-factor-auth.service.ts:424-435 | counts the failure and burns the token at the fifth |
| TwoFactor.TwoFactorService.FindUnusedCode | src/auth/two-factor-auth.service.ts:319-325 | finds an unused row of the user for the typed code if and only if there is one |
| TwoFactor.TwoFactorService.VerifyTwoFactorForLogin | src/auth/two-factor-auth.service.ts:262-357 | an unconsumed, unexpired token of an active user with 2FA is let in if and only if the authenticator code is right or, when a backup code was typed, an unused row of that user carries its hash; success consumes the token and that row, a wrong code costs one attempt and the fifth burns the token |
| TwoFactor.TwoFactorService.GeneratePlainBackupCodes | src/auth/two-factor-auth.service.ts:66-73 | ten codes, each hashing to its own random draw |
| TwoFactor.TwoFactorService.StoreBackupCodes | src/auth/two-factor-auth.service.ts:81-89 | the user's rows become exactly the given codes, unused; everybody else keeps theirs |
| TwoFactor.TwoFactorService.EnableTwoFactor | src/auth/two-factor-auth.service.ts:157-214 | needs an unexpired staged setup and a valid code, uses the setup up, and drops an expired one |
| TwoFactor.TwoFactorService.RegenerateBackupCodes | src/auth/two-factor-auth.service.ts:91-120 | needs 2FA on and a valid code |
| TwoFactor.TwoFactorService.DisableTwoFactor | src/auth/two-factor-auth.service.ts:216-260 | needs password and code; removes all of the user's rows and nobody else's |
| GoogleAccounts.IdentitiesAreSeparate | src/auth/auth.service.ts:410-443 | in every reachable state a user has at most one Google row, a subject at most one user, and every user a password or a linked account |
| GoogleAccounts.RoutePersists | src/auth/auth.service.ts:466-480 | a subject stays linked to its user through any run without disconnect, deletion or relink |
| GoogleAccounts.SubjectKeepsItsUser | src/auth/auth.service.ts:466-480 | so it signs in that user, or is refused if the user is suspended, whatever either side's email has become, and changes nothing |
| GoogleAccounts.SignInDecides | src/auth/auth.service.ts:454-528 | whom a profile signs in, told by the rows: a verified address is needed, then the subject decides, then the address for verified users only; a stranger becomes a new user; a suspended user is refused last |
| GoogleAccounts.SignInLinks | src/auth/auth.service.ts:410-442 | only a sign-in that finds its user by address links them, with one row and the new subject; only one that finds nobody creates a user; all others' rows stay |
| GoogleAccounts.UnverifiedIsNeverAdopted | src/auth/auth.service.ts:485-493 | in every run without its verification, a user registered with a password is linked to no Google identity and lets none in |
| GoogleAccounts.LinkKeeps | src/auth/auth.service.ts:482-510 | linking to a verified local account keeps identities separate |
| GoogleAccounts.SignUpKeeps | src/auth/auth.service.ts:513-529 | so does a new sign-up |
| GoogleAccounts.DisconnectLeavesUsableIff | src/user/user.service.ts:472-484 | after an accepted disconnect the user can sign in, by password form or with their Google identity, if and only if they are active and either signed up with a password or have that identity's address as their own |
| GoogleAccounts.DisconnectLocksOut | src/auth/auth.service.ts:483-529 | Google sign-up, password, change of address, disconnect: the password form is closed and the identity is made a new user |
| GoogleAccounts.CountedButNotUsable | src/auth/auth.service.ts:585-597 | a Google sign-up that sets a password may disconnect Google, and the counted password does not open the password form |
| GoogleAccounts.AccountLinks.FindAccount | src/auth/auth.service.ts:411-413 | finds a row with the property if and only if there is one |
| GoogleAccounts.AccountLinks.FindByEmail | src/auth/auth.service.ts:483 | finds the user of an address if and only if there is one |
| GoogleAccounts.AccountLinks.LinkGoogleAccount | src/auth/auth.service.ts:410-443 | updates the user's row in place, keeping the subject if none was sent, or adds one |
| GoogleAccounts.AccountLinks.LoginGoogleUser | src/auth/auth.service.ts:351-360 | refuses a suspended user |
| GoogleAccounts.AccountLinks.FindOrCreateGoogleUser | src/auth/auth.service.ts:450-530 | decides subject before email, refuses unverified addresses on either side and, after linking, suspended users; equals one step |
| GoogleAccounts.AccountLinks.DisconnectProvider | src/user/user.service.ts:455-489 | succeeds if and only if the user has a linked account and a password; takes that user's rows and no others |
| FileLifecycle.QuotaHolds | src/file/file.service.ts:151-203 | for every interleaving of uploads, restores, removals, purges, sweeps, failures and ticks, counted bytes stay within the plan (500 MB, 10 GB, 50 GB), by the check under the lock alone, as long as each restore's row is at its check still counted or fits beside what is |
| FileLifecycle.QuotaStep | src/file/file.service.ts:291-331 | every statement keeps it, with writes that were cleared still fitting |
| FileLifecycle.CheckClears | src/file/file.service.ts:163-178 | a passed check means the write fits, whatever else runs while the lock is held |
| FileLifecycle.WriteKeeps | src/file/file.service.ts:180-196 | committing a cleared write keeps every workspace within its limit |
| FileLifecycle.RestoreKeepsQuotaIff | src/file/file.service.ts:294-331 | a restore that passes its check keeps the quota if and only if its row was still in the sum, or fits beside it |
| FileLifecycle.LateButRoomy | src/file/file.service.ts:294-301 | a restore whose row left the window on its way to the check still has room if nothing more came to be counted |
| RestoreRace.LateRestoreBreaksQuota | src/file/file.service.ts:270-331 | a run from the empty store, every upload within the plan's file size, that ends over the limit: the last upload commits between the two moments a restore reads the window |
| FileLifecycle.NoObjectIsLost | src/file/file.service.ts:148-204 | under arbitrary failures every stored object belongs to a row, an upload in flight, or an upload for which storage itself failed |
| FileLifecycle.RemovedRowsLeaveNoObject | src/file/file.service.ts:372-373 | a purge or sweep deletes a row only when its object is gone, for good |
| FileLifecycle.GoneStaysGone | src/file/file.service.ts:148-149 | a deleted object never returns, keys being fresh |
| FileLifecycle.TotalRemove | src/file/file.service.ts:536-548 | the sum of sizes does not depend on the order of summing |
| FileLifecycle.UsageByRow | src/file/file.service.ts:536-548 | a row counts with its size exactly if it is its workspace's and active or trashed at most 2592000000 ms ago |
| FileLifecycle.UsageShrinks | src/file/file.service.ts:536-548 | with no new counted file and the window moving on, usage never grows |
| FileServices.UploadRun | src/file/file.service.ts:148-204 | an uninterrupted admitted upload leaves rows, objects and leftovers as each combination of failures says |
| FileServices.RestoreRun | src/file/file.service.ts:254-337 | an uninterrupted restore reactivates the row or changes nothing |
| FileServices.PurgeRun | src/file/file.service.ts:349-376 | an uninterrupted purge under each combination of failures |
| FileServices.FileService.GetWorkspaceUsage | src/file/file.service.ts:536-548 | sums the active files and those in trash inside the window |
| FileServices.FileService.Admit | src/file/file.service.ts:113-146 | the refusals before anything is stored, in order: no file, no workspace, no access, extension, contents, size, quota |
| FileServices.FileService.Upload | src/file/file.service.ts:113-204 | adds exactly one row with its object if and only if the request is complete, comes from the owner or a member and fits the plan and both stores work; otherwise leaves the rows as they were; quota and object invariants hold whatever fails |
| FileServices.FileService.Store | src/file/file.service.ts:148-204 | object first, row second, and a compensating delete |
| FileServices.FileService.Remove | src/file/file.service.ts:378-408 | the uploader or the workspace owner, and nobody else, dates the deletion; the counted bytes stay as they were |
| FileServices.FileService.Restore | src/file/file.service.ts:254-337 | the uploader or the workspace owner, and nobody else, gets the file back exactly within 2592000000 ms; the counted bytes stay as they were |
| FileServices.FileService.Purge | src/file/file.service.ts:349-376 | the uploader or the workspace owner, and nobody else; object first, then row; a failure leaves the row, and no object without one |
| TrashSweep.SweepEndsIff | src/file/file-cleanup.service.ts:50-73 | the number of rounds is bounded, for every choice of batches, if and only if fewer than a hundred expired files keep failing |
| TrashSweep.FullRoundsAreFew | src/file/file-cleanup.service.ts:50-73 | every full batch removes an expired file that does not fail, so full rounds are at most as many as those |
| TrashSweep.SweepIsExact | src/file/file-cleanup.service.ts:40-78 | rows still active, listed or counted are untouched, usage is unchanged, and what is left expired is failing |
| TrashSweep.CleanupService.FindExpired | src/file/file-cleanup.service.ts:51-55 | a hundred of the expired rows, or all if there are fewer |
| TrashSweep.CleanupService.PurgeFile | src/file/file-cleanup.service.ts:59-70 | object, then row, with either delete failing |
| TrashSweep.CleanupService.PurgeBatch | src/file/file-cleanup.service.ts:58-71 | a failure skips only its own file; the two counters are exact |
| TrashSweep.CleanupService.ProcessExpired | src/file/file-cleanup.service.ts:40-78 | whatever fails, of the files tried exactly those that do not are gone from both stores; once it ends it has tried every expired file, and with fewer than a hundred failing it ends |
| LikePattern.PatternMatchesSubstrings | src/search/search.service.ts:213 | for all queries and texts, `%` + escape(q) + `%` matches if and only if q occurs in the text |
| LikePattern.SearchIgnoresCase | src/search/search.service.ts:229 | the same up to case under ILIKE, for any case folding that leaves the special characters alone |
| LikePattern.PatternIsWellFormed | src/search/search.service.ts:273 | no query makes the database reject the pattern |
| LikePattern.EscapedIsLiteral | src/search/search.service.ts:273 | an escaped text matches itself and nothing else |
| SearchMerge.MergeOfTopsIsTop | src/search/search.service.ts:149-162 | for any number of sources and rows, merging each source's own first page, sorting in any way that breaks no order, and cutting gives a first page of all their rows |
| SearchMerge.TopIsUnique | src/search/search.service.ts:158-162 | a first page is determined up to rows of equal rank and time |
| SearchMerge.SortSorts | src/search/search.service.ts:158-161 | the sort orders its rows and loses none |
| SearchMerge.SortedCutIsTop | src/search/search.service.ts:158-162 | any sort of the rows, cut, is a first page of them |
| SearchMerge.NamingSorts | src/search/search.service.ts:152-157 | filling in workspace names does not disturb the order |
| SearchMerge.SourcesAreFindable | src/search/search.service.ts:110-147 | the sources queried offer exactly the rows the request is entitled to |
| SearchMerge.SearchIsTop | src/search/search.service.ts:149-164 | whatever pages the sources answer with, the response is a first page of all their rows, with names |
| SearchMerge.ResponseIsPageOfEntitled | src/search/search.service.ts:104-203 | the response to a search that is let through is ordered by rank and recency and within its limit, holds only rows its requester is entitled to, each with the name of its workspace, and leaves one out only when it is full of rows that are not behind it |
| SearchMerge.JobsAskFor | src/search/search.service.ts:106-147 | the sources queried are exactly those the request asks for and may use |
| SearchMerge.LetThroughIff | src/search/search.service.ts:172-203 | a search is let through if and only if it has no scope or its user owns or joined the workspace it names; otherwise it says whether there is such a workspace |
| SearchMerge.AccessibleExactly | src/search/search.service.ts:172-203 | the workspaces read from are exactly those the user owns or joined, or the one asked for |
| SettledWrites.WritesAreExactIff | src/whiteboard/whiteboard.gateway.ts:327-342 | once no timer is due, the saves are exactly the updates followed by 2000 ms without another of their board, in order, if and only if no update came in while its own board's timer was due and waiting |
| SettledWrites.SomethingIsLost | src/whiteboard/whiteboard.gateway.ts:330-341 | such an update loses, for good, a scene that had its silence |
| SettledWrites.WritesFollowSilence | src/whiteboard/whiteboard.gateway.ts:333-339 | however late timers run, a save is of its board's latest scene, after its silence, in order |
| SettledWrites.LateTimerSkips | src/whiteboard/whiteboard.gateway.ts:330-341 | with a late timer a scene that had its silence can go unsaved |
| SettledWrites.TimersRunOut | src/whiteboard/whiteboard.gateway.ts:333-339 | from every state the due callbacks, earliest first, can all run, so a state without a due timer is always reached without further delay |
| Whiteboard.FlushSavesLast | src/whiteboard/whiteboard.gateway.ts:131-139 | in every run stored and pending together are the last scene sent per board, and a shutdown flush stores just that |
| Whiteboard.StepKeeps | src/whiteboard/whiteboard.gateway.ts:327-342 | timers and payloads have the same boards, one armed timer each, carrying the board's last update |
| SettledWrites.OrderedIsSettled | src/whiteboard/whiteboard.gateway.ts:327-342 | a list of matching saves in order that misses none is the expected list |
| Whiteboard.WhiteboardGateway.SchedulePersist | src/whiteboard/whiteboard.gateway.ts:327-342 | re-arms the board's one timer with the new payload |
| Whiteboard.WhiteboardGateway.RunTimer | src/whiteboard/whiteboard.gateway.ts:333-339 | clears both maps and saves the latest payload |
| Whiteboard.WhiteboardGateway.OnModuleDestroy | src/whiteboard/whiteboard.gateway.ts:131-139 | saves every pending scene, disarms every timer, empties both maps |
| Presence.RegistryFollowsHistory | src/presence/presence.service.ts:18-34 | in every run the registry holds exactly the sockets that opened and have not closed since, and no empty set |
| Presence.OnlineWhileOpen | src/presence/presence.service.ts:36-38 | a user is online exactly while one of their sockets is open |
| Presence.AddedRelation | src/presence/presence.service.ts:18-25 | adding adds exactly the one pair |
| Presence.RemovedRelation | src/presence/presence.service.ts:27-34 | removing removes exactly the one pair, and the entry with the last socket |
| Presence.PresenceService.Add | src/presence/presence.service.ts:18-25 | updates the map in place as that addition |
| Presence.PresenceService.Remove | src/presence/presence.service.ts:27-34 | updates the map in place as that removal |
| Presence.PresenceService.IsOnline | src/presence/presence.service.ts:36-38 | true if and only if the user holds a socket |
| Presence.PresenceService.GetSocketIds | src/presence/presence.service.ts:40-42 | lists the user's sockets, each once |
| MessageViewers.RegistryIsExact | src/message/message.gateway.ts:318-356 | in every run a socket is under (workspace, user) exactly when it is an open socket of that user whose back-pointer names the workspace; nothing empty is kept; no socket is in two places |
| MessageViewers.MessageReaches | src/message/message.gateway.ts:294-306 | in every reachable state a message makes one row for each participant but the sender and whoever has the tab open on some socket, and one mail for those of them with no socket |
| MessageViewers.StepKeeps | src/message/message.gateway.ts:117-171 | connecting, joining, leaving and disconnecting keep registry, back-pointers and presence in agreement |
| MessageViewers.TabsFollow | src/message/message.gateway.ts:109-171 | joining opens the tab on the socket in place of any other, leaving closes that tab only, and the registries follow |
| MessageViewers.OpenedRelation | src/message/message.gateway.ts:326-336 | recording a viewer adds exactly one triple |
| MessageViewers.ClosedRelation | src/message/message.gateway.ts:343-352 | clearing one removes exactly one triple and prunes what became empty |
| MessageViewers.ViewersWatch | src/message/message.gateway.ts:359-361 | the keys read off the map are the users with an open socket on that tab |
| MessageViewers.OnlineHasSocket | src/message/message.gateway.ts:109-119 | presence knows exactly the users with an open socket |
| MessageViewers.MessageGateway.AddViewer | src/message/message.gateway.ts:318-338 | moves the socket to the workspace and out of any other |
| MessageViewers.MessageGateway.RemoveViewer | src/message/message.gateway.ts:343-356 | takes the socket from this workspace only, and clears the back-pointer only if it names it |
| MessageViewers.MessageGateway.GetViewerIds | src/message/message.gateway.ts:359-361 | lists the users watching, each once |
| MessageViewers.MessageGateway.HandleConnection | src/message/message.gateway.ts:109-111 | adds the socket to presence |
| MessageViewers.MessageGateway.HandleDisconnect | src/message/message.gateway.ts:117-125 | leaves no trace of the socket in either registry |
| MessageViewers.MessageGateway.HandleJoinRoom | src/message/message.gateway.ts:127-147 | a member becomes a viewer, a stranger does not, an expired session is disconnected |
| MessageViewers.MessageGateway.HandleLeaveRoom | src/message/message.gateway.ts:161-171 | stops viewing that workspace |
| MessageViewers.MessageGateway.HandleSendMessage | src/message/message.gateway.ts:259-313 | saves and broadcasts a non-empty message of a member and announces it to the participants not watching; otherwise nothing |
| Notifications.EachIsToldOnce | src/notification/notification.service.ts:74-104 | each participant but the sender and the watchers is told once, and mailed once if and only if offline, whichever mails fail |
| Notifications.AudienceIsExact | src/notification/notification.service.ts:180-216 | the recipients are the owner and the members without the excluded user, each once |
| Notifications.MemberRoleWins | src/notification/notification.service.ts:203-212 | a member entry decides address and role even for the owner |
| Notifications.OwnerIsFreelancer | src/notification/notification.service.ts:199-202 | an owner who is not listed as a member is addressed as a freelancer |
| Notifications.AnnouncedIsExact | src/notification/notification.service.ts:86-92 | viewers are taken out, and only they |
| Notifications.ReachedIsPrefix | src/notification/notification.service.ts:232-243 | a row that cannot be created ends the dispatch there, with everyone before it reached |
| Notifications.OfflineMembers | src/notification/notification.service.ts:248-249 | the mailed are exactly the reached who are offline, each once |
| Notifications.WhatEachGets | src/notification/notification.service.ts:232-262 | each recipient gets one row and one push, each of the offline one mail at their address, with the portal link for clients only |
| Notifications.MessageSays | src/notification/notification.service.ts:94-104 | the row previews up to 140 characters and the mail names the sender before them |
| Notifications.Truncate | src/notification/notification.service.ts:272-275 | at most the given length, and either the text or a prefix of it with an ellipsis |
| Notifications.NotificationService.ResolveRecipients | src/notification/notification.service.ts:180-216 | builds that audience, or nothing for a missing workspace |
| Notifications.SentToOneMore | src/notification/notification.service.ts:232-269 | one turn of the loop serves one more recipient, whatever becomes of the mail |
| Notifications.NotificationService.Dispatch | src/notification/notification.service.ts:220-270 | a row and a push for each recipient in order up to the first failed row, a mail for the offline ones; a failed mail skips nobody |
| Notifications.NotificationService.NotifyNewMessage | src/notification/notification.service.ts:74-104 | does that for the audience without the active viewers |

## Left out

- Controllers, DTO validation, guards, cookies, throttling, health checks, environment validation: framework plumbing.
- A signed token's own expiry, which is part of whether its signature verifies.
- argon2, SHA-256, JWT signing, TOTP, WebAuthn and AES: hashes compare what was hashed, a signature or code is valid or not as a parameter.
- The breach look-up, mail delivery, storage and database failures: parameters or events of the steps that use them.
- Refresh tokens are taken as never repeated; two tokens signed in the same second with equal claims would be one string.
- `refresh`, 2FA verification, Google sign-in, password changes and `remove` are one step each: their reads and writes are separate statements in the code and are not interleaved here.
- Lockout.GuessesAreRateLimited: an attempt that dies between its increment and its lock write is not modelled; the sixth failure would write the lock.
- The reset-token look-up does not read the token's type, so the rules of SingleUse are stated for any row it finds.
- Two password-history rows with the same creation time, whose order the query leaves open.
- The signature counter of passkeys and their registration: library verification and one write.
- TrashSweep.CleanupService.ProcessExpired: makes at most a given number of rounds, standing for the time the process lives, since with a hundred failing files the loop need not end (SweepEndsIff); the instance lock around it is not modelled.
- FileLifecycle.QuotaHolds: the owner's plan is constant.
- GoogleAccounts.DisconnectLeavesUsableIff: a passkey, which neither the guard nor this model counts, and the second factor after the password.
- Admin hard deletes and workspace cascades of files, which bypass the file service.
- sanitizeFilename, MIME detection and download links: string checks and calls into storage; their verdicts are parameters of Admit.
- Full-text matching, ranking and highlighting: facts of a row; only ORDER BY, LIMIT and LIKE matter here.
- SettledWrites.WritesAreExactIff: for runs without a REST save or a version restore of the board, with saves that succeed; access checks, broadcasts and the presenter's board are not modelled.
- Whiteboard.WhiteboardGateway.OnModuleDestroy: one step; an update that arrives while it waits for a save is not modelled, nor is the order of the saves.
- Whiteboard.WhiteboardGateway.RunTimer: handles count the calls that armed them instead of being opaque.
- Presence.PresenceService.GetSocketIds: the order of a JavaScript Set is not modelled; the same holds of MessageViewers.MessageGateway.GetViewerIds.
- MessageViewers.MessageGateway.HandleJoinRoom: history and read state sent to the client, and joins that resume after their socket has gone, are not modelled.
- MessageViewers.MessageGateway.HandleSendMessage: saving succeeds, the text is taken as trimmed, and nobody connects or leaves during a dispatch.
- MessageViewers.MessageGateway.AddViewer: the update of a workspace's inner map is a method on values (AddSocket, DeleteSocket), not an aliased inner Map.
- Notifications.Truncate: trimming of white space.
- File-comment and whiteboard-comment notifications, which are a message notification without viewers.
- Workspace, link, task, feedback and invite operations, message and notification paging: an access check and one query each.
