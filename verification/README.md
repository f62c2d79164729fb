# Verified model of the fee-payment core

This project models the parts of the school-fee payment system whose correctness is hardest to
see from the code, and proves what they promise for every input, every run and every
interleaving. Each module follows one component.

| module | component |
|---|---|
| `LockTable`, `VerifyPayment`, `VerifyPaymentSafety`, `VerifyPaymentTokens`, `VerifyPaymentCredit`, `VerifyPaymentAlone` | `verifyPayment` as a protocol: any number of concurrent calls, one atomic step per `await` on the payment rows, the outbox, the balance, a lock or the chain, locks that may expire at any moment, calls and releases that may fail |
| `EditDistance` | the edit-distance table of the directory checker and the near-duplicate test |
| `RefreshTokens` | refresh-token families as a timed state machine: rotation, replay detection, revocation markers that expire, and store calls that fail, reported or not |
| `JsScanner`, `JsArgs`, `JsRoundTrip` | comment blanking, string skipping, bracket matching and argument splitting in the route extractor |
| `Installments` | payment plans: creation, first-in first-out allocation, manual settlement |
| `BackupCodeLimiter`, `BackupCodes`, `BackupCodeUse` | MFA backup codes: the attempt limiter, spelling and generation, and the read / match / compare-and-set protocol |
| `PaymentStatus`, `AdminStatus`, `Disputes` | the payment and dispute state machines and the admin operations on them |
| `LeaseLock`, `DeadLetters` | the lease on one payment, and the batched dead-letter listing |
| `FeeLedger` | the fee cascade and the independent balance checker |
| `Money`, `Basics` | exact money and fee classification; what several components share |

`dafny verify dfyconfig.toml` checks the whole project.

## Main results

- Under every interleaving, with locks expiring and store calls failing anywhere, a transaction is
  recorded at most once, every recorded row repeats a reply the chain gave for it, and at most one
  call is told that it has just credited it (`NoDoubleCredit`, `EveryRowWasPaid`,
  `OneFreshAnswerPerTransaction`). Unless a student's lock expired under its holder, or a store call failed between the insert and the end of
  the balance write, whenever that student's lock is free the stored balance is the one recomputed
  from all counted payments, and every new row carries the classification of the running total; all
  verified answers for a transaction always agree (`FreeLockMeansBalanced`,
  `StatusFollowsCumulativeTotal`, `AnswersAgree`). The exceptions are per student and recorded in
  `unsafe`; from any state at all, a balance write repairs the student exactly when the counted sum
  did not move since its read, and a call left alone balances it exactly when none of its store calls
  after the insert fails (`BalanceWriteRepairsExactly`, `LoneCallBalancesExactly`).
- The table that skips the minimum on equal characters still computes the least number of edits, and
  the distance is a metric (`DistIsMinimal`, `DiagonalIsMinimal`, `Triangle`, `Levenshtein`).
- Whatever store calls fail, a token family has one live token at most, tokens are single use, and a
  family that is over, by its marker or by its last token being gone, stays over although markers
  expire (`AtMostOneLiveToken`, `TokensAreSingleUse`, `OverForever`, `ReplayKillsFamily`). Which
  failures keep a logout or a revocation from ending a family is stated exactly
  (`LogoutEndsExactly`, `RevokeEndsExactly`).
- Comment blanking is pointwise exact and idempotent, and printing arguments then reading the call
  returns the arguments (`StripPointwise`, `StripIdempotent`, `ReadCall`).
- Allocation depends only on the sum of the payments, not on their split or order, and fills from
  the front (`ManyIsOne`, `OrderDoesNotMatter`, `PaymentsFillFromTheFront`).
- At most five backup-code failures per window and ten in any span of a window's length, with the
  spans that keep the promised five and the effect of latency stated exactly; every slot is accepted
  at most once under any interleaving, and for the code presented exactly when the list was not
  regenerated in between (`FailuresAreBounded`, `SlidingPromiseExactly`, `BoundByLatency`,
  `CodesAreSingleUse`, `RightWhenAcceptedExactly`).
- Over every run of admin, bulk and dispute steps a payment moves along the admin table exactly when
  each dispute call finds it in a status that call may start from, a refund is final exactly when no
  dispute call takes it elsewhere, and no payment ever re-enters an initial status
  (`RunWalksExactly`, `RefundFinalExactly`, `InitialNeverEntered`). Leases are disjoint, the
  dead-letter scan refines filter-then-cut, and the cascade and the checker, which group payments
  differently, agree (`LeasesAreDisjoint`, `GetDeadLetterJobs`, `GroupingsAgree`, `CascadeThenCheck`).

## Where code and documentation differ

The model follows the code. Where a promise fails, a lemma states when it holds, and another one
gives the input on which it does not.

- The controllers describe a save hook that refuses moves outside the transition tables; the hook at
  `backend/src/models/paymentModel.js:364-374` only derives two fields, and nothing else checks a
  dispute's effect on its payment. So payments do leave the admin table: `RunWalksExactly` and
  `RefundFinalExactly` say exactly when, and `RefundCountsAgainWithoutGuard` counts a refunded payment
  as paid again. The parameter `guarded` is true for the code with the hook it describes.
- The dispute code expects a way back from DISPUTED to SUCCESS; the admin table has none. Turning down
  a dispute therefore leaves the table every time; with the hook described it would fail instead,
  after the dispute record was already written (`TurningDownIsOffTheTable`).
- The flag operation refuses a second active dispute, but re-opening a closed one does not look for
  one (`OneActiveKeptExactly`, over whole runs `OneActiveAlwaysExactly`, `TwoActiveDisputes`).
- A REJECTED row is meant never to keep its transaction from being credited later, and the lookup does
  skip it; but the unique index refuses the insert whatever the status of the first row. So a
  transaction with a rejected or deleted row is never verified in any run
  (`HiddenRowBlocksForever`), and a call left alone credits exactly when there is no row at all
  (`LoneCallCreditsExactly`).
- The payment row and its outbox event are meant to be stored together, but verification stores them
  by two calls without a transaction. When the second fails, or the balance read or write after it,
  the payment is recorded, the student's balance is not rewritten, and all locks are free
  (`LoneCallBalancesExactly`); the next undisturbed section repairs it (`CallLeftAloneCredits`,
  `BalanceWriteRepairsExactly`). The student lock is meant to rule out stale balances, but it has a time
  limit: one that expires under its holder leaves one without any failure
  (`ExpiredLockLeavesStaleBalance`).
- A session is meant to be revocable by its owner, but its record is written without waiting and its
  failure only logged. `WorkingTokenCanBeRevoked` says exactly when the owner can revoke;
  `LostSessionCannotBeRevoked` and `MissedUpdateHidesSession` show working tokens nobody can revoke. A
  revocation answers "revoked" even when its marker was not written (`RevokeEndsExactly`).
- The dead-letter page is documented as the inclusive range `start..end`; the scan returns up to
  `end + 1` jobs from `start`. The two differ for every longer queue and later start
  (`PageIsInclusiveExactly`).
- The limiter is called a sliding window; its windows are fixed. A span keeps the promised five
  failures in all runs exactly when no window opens inside it (`SlidingPromiseExactly`, whose witness
  needs no latency at all); ten are reached with one millisecond of latency, nine without
  (`TenIsReached`, `BoundByLatency`, `NineIsReached`).
- A backup-code acceptance checks a position, not the code: after a regeneration in between, an old
  code uses up a new slot (`OldCodeCanUseUpNewSlot`). Whatever else happens between match and mark, an
  acceptance is for a slot holding the code presented exactly when the list is not regenerated
  (`RightWhenAcceptedExactly`; over whole runs `AcceptedCodeWasIssued`).
- The cascade counts payments under suspicion and ignores credits, unlike the balance updater used
  everywhere else (`CascadeMinusCanonical`, `CascadeIsCanonicalExactly`, `ReviewedPaymentIsCounted`);
  the checker counts them as well, so it objects to correct balances with more than a stroop under
  review (`CheckerFlagsReviewExactly`).
- `authController.js` calls store functions that `services/sessionStore.js` does not define at this
  commit, `stellarService.js` does not define `recordPayment`, and `money.js` does not export the
  `toDecimal` the plan controller uses. The model follows the callers: entries with a time to live,
  an insert with the meaning of `savePayment` in `transactionService.js`, and exact decimal addition.

## Modelling decisions

- Money is a whole number of stroops (seven decimals, `backend/eslint.config.js:19-21`), also where
  the code computes with doubles.
- Identifiers in the protocols are numbers compared only for equality; random tokens, lock tokens and
  session identifiers are idealised as never seen before.
- Clocks, chain replies, random bytes and failures of store and lock calls are parameters or events
  chosen by the environment. A single store call that fails has no effect on the store.
- In `VerifyPayment` the protocol is a step relation on values, because its subject is the
  interleaving of many calls. Fees and credits of students do not change during a run, so reading
  them is not a step of its own. Token 0 stands for no token. The unique
  index is on (school, transaction), because this path leaves the operation index that
  `backend/src/models/paymentModel.js:390-396` adds to it at its default 0; rows that other paths store
  under another operation index of the same transaction are not part of this model. The chain result carries the hash that was
  asked for.
- In `RefreshTokens` each handler is one atomic step and the refresh lifetime is constant in a run.
  A failing awaited call ends the handler where it stands; a failing call that the source only logs
  is a flag of the step. `adrift` is history: the families whose session record a lost write left
  missing or too short.
- Where the code changes documents, maps and arrays in place, the model has classes, arrays and loops,
  each method proved against a function of the old state.

## Model

| member | source | states |
|---|---|---|
| `Money.Classify` | backend/src/utils/money.js:82-99 | what is still owed and what was paid in excess balance the books, never both positive; the status and the paid flag are exactly their signs |
| `LockTable.Exclusive` | backend/src/services/distributedLock.js:84-103 | two processes never hold the same key, unless that key expired under a holder |
| `LockTable.TakeOk` | backend/src/services/distributedLock.js:142-180 | taking a free key with a fresh token keeps token uniqueness, ownership and guarding |
| `LockTable.FreeOk` | backend/src/services/distributedLock.js:188-207 | a release removes only the caller's own entry, so everybody else stays guarded |
| `LockTable.LoseOk` | backend/src/services/distributedLock.js:191-198 | a release that never reaches the store leaves an entry accounted for as lost, and nobody else unguarded |
| `LockTable.ExpireOk` | backend/src/services/distributedLock.js:99-100 | an expiry can unguard only its own key, and not even that when the entry was a lost release |
| `LockTable.JoinOk` | backend/src/controllers/paymentController.js:345-345 | a new call changes nothing for the others |
| `VerifyPayment.FindVisible` | backend/src/controllers/paymentController.js:375-375 | the lookup finds a row of that transaction that is neither rejected nor deleted, and misses only if there is none |
| `VerifyPaymentSafety.MovesAreLegal` | backend/src/controllers/paymentController.js:375-655 | every step of a call has one of the allowed effects, in the right section, with the lock it needs |
| `VerifyPaymentSafety.KeepsStudentTable` | backend/src/controllers/paymentController.js:479-484 | every step keeps the student locks owned, unique and guarding their sections |
| `VerifyPaymentSafety.KeepsVerifyTable` | backend/src/controllers/paymentController.js:415-422 | every step keeps the transaction locks owned and unique |
| `VerifyPaymentSafety.Exclusion` | backend/src/controllers/paymentController.js:474-483 | two calls are never in the balance section of one student unless its lock expired under a holder |
| `VerifyPaymentSafety.KeepsLocals` | backend/src/controllers/paymentController.js:509-518 | what every call read under the student lock is still true when it uses it, whatever the other calls do |
| `VerifyPaymentSafety.KeepsBalances` | backend/src/utils/studentBalanceUpdater.js:143-211 | every step keeps the balances of all students nobody is between insert and balance write for |
| `VerifyPaymentSafety.KeepsRows` | backend/src/controllers/paymentController.js:509-547 | every step keeps keys unique and each new row classified by the running total |
| `VerifyPaymentSafety.StepKeepsInv` | backend/src/controllers/paymentController.js:345-655 | every event of every call, every expiry and every failure keeps the whole invariant |
| `VerifyPaymentSafety.RunKeepsInv` | backend/src/controllers/paymentController.js:345-655 | the invariant holds after every run |
| `VerifyPaymentSafety.NoDoubleCredit` | backend/migrations/032_fix_payment_txhash_indexes.js:42-46 | in every run, even with locks expiring mid-section, each (school, transaction) has at most one row and no earlier row is lost or changed |
| `VerifyPaymentSafety.RowsOnlyAppended` | backend/src/services/transactionService.js:32-77 | a step only appends payment rows |
| `VerifyPaymentSafety.HistoryGrows` | backend/src/services/transactionService.js:32-77 | over a whole run payment rows are only appended |
| `VerifyPaymentSafety.FreeLockMeansBalanced` | backend/src/controllers/paymentController.js:474-583 | whenever a student's lock is free, total, remainder and paid flag are those of the rows that succeeded and are neither suspicious nor deleted, plus credits, unless the lock expired under a holder or a store call failed between insert and balance write |
| `VerifyPaymentSafety.SumIsPaidTotal` | backend/src/utils/studentBalanceUpdater.js:66-78 | the aggregated sum is the total of exactly those rows |
| `VerifyPaymentSafety.StatusFollowsCumulativeTotal` | backend/src/controllers/paymentController.js:492-547 | the status and excess stored with each new row compare the fee with the student's total of successful, unsuspicious, undeleted rows up to and including it, in insertion order |
| `VerifyPaymentSafety.AnswersAgree` | backend/src/controllers/paymentController.js:375-404 | all verified answers for one transaction, cached or not, agree |
| `VerifyPaymentCredit.AnswersTellTheTruth` | backend/src/controllers/paymentController.js:391-395 | every verified answer of every run tells student, amount, fee status and excess of its transaction's own row, neither rejected nor deleted; if the run wrote that row, the chain said so; if not cached, the run wrote it |
| `VerifyPaymentCredit.KnownTransactionIsAnswered` | backend/src/controllers/paymentController.js:375-404 | a transaction whose row may be answered from is answered from it at once |
| `VerifyPaymentCredit.DuplicateIsAnswered` | backend/src/controllers/paymentController.js:550-570 | so is a call whose insert is refused as a duplicate |
| `VerifyPaymentCredit.FinishedCallsHaveAnswers` | backend/src/controllers/paymentController.js:345-655 | a finished call has an answer, and every call has one from its insert on |
| `VerifyPaymentTokens.RunKeepsTokens` | backend/src/services/distributedLock.js:142-143 | over every run no lock token is ever given to two calls, finished or not |
| `VerifyPaymentTokens.FinishedCallsHoldNoLock` | backend/src/controllers/paymentController.js:581-655 | at any moment a lock is there because some unfinished call is in its section with that token, or because its release was lost; no finished call's token is in either lock map unless its release was lost |
| `VerifyPaymentSafety.CallsNeverBlock` | backend/src/controllers/paymentController.js:345-655 | every step of a call is possible in every state and brings it strictly closer to its end |
| `VerifyPaymentCredit.EveryRowWasPaid` | backend/src/controllers/paymentController.js:425-547 | every row written in a run goes back to the chain step of a call for that transaction, in that run, at which the chain replied with that student and amount |
| `VerifyPaymentCredit.EveryOutcomeHasItsReason` | backend/src/controllers/paymentController.js:375-570 | each outcome is given only for its own reason: held lock, chain verdict, missing student, failing store, visible row |
| `VerifyPaymentCredit.FailingStepIsHarmless` | backend/src/controllers/paymentController.js:375-655 | a failing store or lock call takes no lock, writes nothing and verifies nothing; what the caller is told then |
| `VerifyPaymentCredit.HiddenRowBlocksForever` | backend/src/controllers/paymentController.js:370-375 | in every run, no call for a transaction with a rejected or deleted row is ever told that it is credited |
| `VerifyPaymentAlone.LoneCallCreditsExactly` | backend/src/models/paymentModel.js:390-396 | a call left alone credits exactly when its transaction has no row at all, and is not answered from a hidden one |
| `VerifyPaymentAlone.AloneRun` | backend/src/controllers/paymentController.js:375-655 | where a call that runs alone can be after any number of steps, and what it has changed so far |
| `VerifyPaymentAlone.CallLeftAloneCredits` | backend/src/controllers/paymentController.js:375-655 | a call left alone credits exactly the amount in twelve steps: one row, an answer with that student, amount, status and excess, locks as found, and the balance right afterwards even if it was wrong before |
| `VerifyPaymentAlone.LoneCallBalancesExactly` | backend/src/services/transactionService.js:38-48 | whichever of outbox write, balance read and balance write fails, the row is stored and the locks are free; the student is balanced at the end exactly when none failed |
| `VerifyPaymentAlone.ExpiredLockLeavesStaleBalance` | backend/src/controllers/paymentController.js:474-484 | for any two calls ready to credit one student: a lock that expires under its holder, and nothing else going wrong, leaves both credited and the balance stale |
| `VerifyPaymentAlone.BalanceWriteRepairsExactly` | backend/src/utils/studentBalanceUpdater.js:143-205 | from any state, a balance read and its write leave the student balanced exactly when the counted sum did not move in between, whatever the others did |
| `VerifyPaymentCredit.OneFreshAnswerPerTransaction` | backend/src/controllers/paymentController.js:531-575 | in every run at most one call per transaction is told that it has just been credited |
| `EditDistance.DistIsMinimal` | scripts/check-orphan-dirs.js:48-59 | a script of that length turns one string into the other and none is shorter |
| `EditDistance.NoShorterScript` | scripts/check-orphan-dirs.js:48-59 | no script of inserts, deletes and substitutions at any positions beats the distance |
| `EditDistance.ShortestScript` | scripts/check-orphan-dirs.js:48-59 | constructs a script of exactly that length |
| `EditDistance.OneEditCostsOne` | scripts/check-orphan-dirs.js:48-59 | one edit anywhere moves the distance by at most one |
| `EditDistance.FrontCloseLeft` | scripts/check-orphan-dirs.js:53-55 | dropping the last character of the first string changes the distance by at most one |
| `EditDistance.FrontCloseRight` | scripts/check-orphan-dirs.js:53-55 | the same for the second string |
| `EditDistance.DiagonalIsMinimal` | scripts/check-orphan-dirs.js:53-55 | taking the diagonal unconditionally on equal characters loses nothing against the full minimum |
| `EditDistance.Symmetric` | scripts/check-orphan-dirs.js:48-59 | the distance is symmetric |
| `EditDistance.ZeroIffEqual` | scripts/check-orphan-dirs.js:48-59 | it is zero exactly on equal strings |
| `EditDistance.LengthBounds` | scripts/check-orphan-dirs.js:48-59 | it lies between the length difference and the longer length |
| `EditDistance.GridTriangle` | scripts/check-orphan-dirs.js:51-57 | three tables filled by the minimum recurrence obey the triangle inequality cell by cell |
| `EditDistance.Triangle` | scripts/check-orphan-dirs.js:48-59 | triangle inequality on all strings |
| `EditDistance.FillRow` | scripts/check-orphan-dirs.js:52-56 | the inner loop extends a correct table by a correct row |
| `EditDistance.Levenshtein` | scripts/check-orphan-dirs.js:48-59 | the array loops compute the distance |
| `EditDistance.CloseTypoMeansOneEdit` | scripts/check-orphan-dirs.js:94-94 | the near-typo test is symmetric and holds exactly for two different names of at least four characters one edit apart |
| `EditDistance.FlaggedMeansOneEdit` | scripts/check-orphan-dirs.js:92-96 | a pair is flagged exactly when one name without its copy suffix equals the other or is one edit away, or the two are one edit apart and neither is short |
| `EditDistance.NearMisses` | scripts/check-orphan-dirs.js:80-104 | the report has exactly the flagged pairs, and a near-typo from both sides |
| `RefreshTokens.Handlers.constructor` | backend/src/controllers/authController.js:164-185 | empty stores |
| `RefreshTokens.Handlers.HandleLogin` | backend/src/controllers/authController.js:164-185 | stores a token and, if that write gets through, its session, as the specification says |
| `RefreshTokens.Handlers.HandleRefresh` | backend/src/controllers/authController.js:377-503 | replay check, marker check, rotation, and each failing or lost store call, against the specification |
| `RefreshTokens.Handlers.HandleLogout` | backend/src/controllers/authController.js:507-526 | marks the family, deletes session and token, each unless that call is lost |
| `RefreshTokens.Handlers.HandleRevokeSession` | backend/src/controllers/authController.js:573-605 | the three replies, and marker and deletion unless lost |
| `RefreshTokens.StepKeepsInv` | backend/src/controllers/authController.js:164-605 | every step, whatever fails in it, keeps one token per family, markers outliving the tokens they block, and sessions outliving working tokens of families not adrift |
| `RefreshTokens.RunKeeps` | backend/src/controllers/authController.js:164-605 | the invariant holds over every run; revoked families and exchanges are never forgotten, tokens gone never come back, families without a token never get one |
| `RefreshTokens.AtMostOneLiveToken` | backend/src/controllers/authController.js:399-422 | two unexpired tokens of one family are the same token |
| `RefreshTokens.RefreshSucceedsExactly` | backend/src/controllers/authController.js:384-422 | an undisturbed refresh succeeds exactly for a live token of a family never revoked, and swaps it for a new one |
| `RefreshTokens.RefreshRepliesExactly` | backend/src/controllers/authController.js:384-466 | for every state and every failure: refreshed, account disabled, store error, session revoked and invalid, each exactly on its condition |
| `RefreshTokens.RefreshChangesExactly` | backend/src/controllers/authController.js:399-429 | what a refresh with a working token does to tokens, sessions and markers, for each place it may fail at |
| `RefreshTokens.LoginGivesWorkingToken` | backend/src/controllers/authController.js:164-185 | a login gives a working token of a new family for that user, with a session record exactly if its write gets through |
| `RefreshTokens.RememberedExactly` | backend/src/controllers/authController.js:413-413 | an exchange is remembered for 300 seconds, to the second |
| `RefreshTokens.RevokedForever` | backend/src/controllers/authController.js:384-422 | once a family was revoked no later refresh in it succeeds, whatever happens in between |
| `RefreshTokens.OverForever` | backend/src/controllers/authController.js:384-422 | the same for every family whose marker was written or whose last token is gone |
| `RefreshTokens.ExpiredMarkerHasDoneItsWork` | backend/src/controllers/authController.js:384-422 | when a marker has expired, so has every token of its family |
| `RefreshTokens.WorkingFamilyNeverRevoked` | backend/src/controllers/authController.js:384-422 | a live token without a live marker belongs to a family never revoked |
| `RefreshTokens.TokensAreSingleUse` | backend/src/controllers/authController.js:384-422 | an exchanged token is never exchanged again, after every continuation and however the later attempt fares |
| `RefreshTokens.ReplayRevokesExactlyWhileRemembered` | backend/src/controllers/authController.js:387-397 | presenting a dead token marks its family exactly while it is remembered and the marker gets written, and otherwise changes nothing |
| `RefreshTokens.ReplayKillsFamily` | backend/src/controllers/authController.js:387-397 | a replay within 300 seconds whose marker is written ends every token of the family for good |
| `RefreshTokens.LogoutEndsExactly` | backend/src/controllers/authController.js:507-520 | a logout ends the family exactly when the marker or the token deletion gets through; otherwise the token still works |
| `RefreshTokens.LogoutRemovesExactly` | backend/src/controllers/authController.js:507-520 | which records a logout removes, and that it marks the family of a token it could read |
| `RefreshTokens.LoggedOutForever` | backend/src/controllers/authController.js:507-520 | and then no token of the family works in any continuation |
| `RefreshTokens.RevokeEndsExactly` | backend/src/controllers/authController.js:573-593 | the reply is "revoked" exactly for a live session of the caller or any for a super admin; the family is over exactly if the marker was written too |
| `RefreshTokens.RevokeRemovesExactly` | backend/src/controllers/authController.js:589-594 | which record a revocation removes, and that it touches no token |
| `RefreshTokens.WorkingTokenCanBeRevoked` | backend/src/controllers/authController.js:573-605 | the owner of a working token can end it exactly when its session record is live, which it is unless a lost write set the family adrift |
| `RefreshTokens.LostSessionCannotBeRevoked` | backend/src/controllers/authController.js:171-182 | a login whose session write is lost: the token works and nobody can revoke it |
| `RefreshTokens.MissedUpdateHidesSession` | backend/src/controllers/authController.js:424-429 | a refresh whose session update is lost: the new token outlives its session record |
| `RefreshTokens.MarkerExpiresFamilyStaysDead` | backend/src/controllers/authController.js:589-593 | a run with a revoked session, its token still stored, its marker expired and the family still dead |
| `JsScanner.SkipString` | scripts/openapi/extract-routes.js:55-63 | finds the end of the literal, escapes skipped in pairs |
| `JsScanner.ClosedLiteral` | scripts/openapi/extract-routes.js:55-63 | a closed literal is skipped exactly, whatever follows |
| `JsScanner.SkippedIsLiteral` | scripts/openapi/extract-routes.js:55-63 | what was skipped within the text is a literal body and its closing quote |
| `JsScanner.SkipStepExactly` | scripts/openapi/extract-routes.js:55-63 | a literal is left by its own quote, never by one behind a backslash |
| `JsScanner.BlankLineComment` | scripts/openapi/extract-routes.js:33-34 | blanks one line comment |
| `JsScanner.BlankToMark` | scripts/openapi/extract-routes.js:35-39 | blanks up to the first closing mark, keeping newlines |
| `JsScanner.BlankBlockComment` | scripts/openapi/extract-routes.js:35-41 | blanks one block comment, closed or not |
| `JsScanner.CopyLiteral` | scripts/openapi/extract-routes.js:42-45 | copies one literal unchanged |
| `JsScanner.StripComments` | scripts/openapi/extract-routes.js:27-52 | the loop blanks exactly what the segmentation of the text calls for |
| `JsScanner.LexIsLossless` | scripts/openapi/extract-routes.js:27-52 | the segments concatenate to the text |
| `JsScanner.LineLenStops` | scripts/openapi/extract-routes.js:33-34 | a line comment ends before the first newline |
| `JsScanner.BlockLenStops` | scripts/openapi/extract-routes.js:35-41 | a block comment ends at its first closing mark |
| `JsScanner.StripPointwise` | scripts/openapi/extract-routes.js:27-52 | length kept (two more only for an unterminated block comment), and each character changes, to a space, exactly inside a comment and not at a newline |
| `JsScanner.LinesKept` | scripts/openapi/check-contract.js:49-51 | line numbers computed on the output are those of the input |
| `JsScanner.LineOfCounts` | scripts/openapi/check-contract.js:49-51 | a line number is one more than the newlines before the index |
| `JsScanner.SegmentKinds` | scripts/openapi/extract-routes.js:30-48 | what begins a line comment, a block comment, a literal of one of three quotes, and code |
| `JsScanner.StripIdempotent` | scripts/openapi/extract-routes.js:27-52 | blanking twice is blanking once |
| `JsArgs.MatchClose` | scripts/openapi/extract-routes.js:66-78 | the bracket-stack loop against its recursive meaning |
| `JsArgs.MatchStepExactly` | scripts/openapi/extract-routes.js:66-78 | what each character does to the brackets awaited, in any text, well bracketed or not |
| `JsArgs.SplitArgs` | scripts/openapi/extract-routes.js:81-98 | the depth-counter loop returns the trimmed top-level pieces, an empty last one dropped |
| `JsArgs.SplitFromIsKept` | scripts/openapi/extract-routes.js:81-98 | from any point on, what the loop still returns is the trimmed pieces of the rest of the text |
| `JsArgs.PiecesStepExactly` | scripts/openapi/extract-routes.js:84-93 | pieces are cut at a comma outside all brackets and only there, in any text |
| `JsArgs.SplittingIsLossless` | scripts/openapi/extract-routes.js:81-98 | the pieces joined by commas are the text |
| `JsArgs.BracketsExactly` | scripts/openapi/extract-routes.js:66-98 | which six characters open and close, and what each does to the depth |
| `JsArgs.TrimExact` | scripts/openapi/extract-routes.js:86-96 | trimming takes white space off both ends, leaves none there, and takes nothing else |
| `Basics.SpaceCodePoints` | scripts/openapi/extract-routes.js:86-96 | the code points that count as white space |
| `JsRoundTrip.MatchItems` | scripts/openapi/extract-routes.js:66-78 | the matcher passes over any well-bracketed text, literals included |
| `JsRoundTrip.PiecesItems` | scripts/openapi/extract-routes.js:81-98 | the splitter keeps any well-bracketed text without top-level comma in one piece |
| `JsRoundTrip.AgreeItems` | scripts/openapi/extract-routes.js:66-98 | bracket stack and depth counter agree at every position of well-bracketed text |
| `JsRoundTrip.SplitReturnsValues` | scripts/openapi/extract-routes.js:81-98 | splitting printed arguments, with any spaces around them, returns them, empty ones included but for an empty last one |
| `JsRoundTrip.MatcherFindsTheClose` | scripts/openapi/extract-routes.js:66-78 | the matcher stops at the parenthesis printed after the arguments |
| `JsRoundTrip.RoundTrip` | scripts/openapi/extract-routes.js:66-98 | print, match and split returns the arguments, anywhere in a text, but for an empty last one |
| `JsRoundTrip.ReadCall` | scripts/openapi/extract-routes.js:113-115 | the code path that reads a call satisfies the round trip for every way the text could have been printed; non-empty arguments come back exactly |
| `Installments.CreatePlan` | backend/src/controllers/paymentPlanController.js:64-132 | each reply is given exactly on its condition; a created plan has the requested amounts in order, nothing paid, and totals to their sum |
| `Installments.ValidRequestExactly` | backend/src/controllers/paymentPlanController.js:11-43 | what a plan is refused for: no instalment or more than twenty-four, an amount not positive, a due date not in the future or not after every earlier one |
| `Installments.ReconcilesWith` | backend/src/controllers/paymentPlanController.js:54-62 | the total must equal the remaining balance if known, else the fee if known |
| `Installments.AllocateLoop` | backend/src/controllers/paymentPlanController.js:176-195 | the mutating loop against the recursive allocation |
| `Installments.Plan.constructor` | backend/src/controllers/paymentPlanController.js:102-132 | an active plan with the given instalments |
| `Installments.Plan.AllocatePayment` | backend/src/controllers/paymentPlanController.js:172-199 | allocates on an active plan and changes nothing otherwise |
| `Installments.Plan.SettleManually` | backend/src/controllers/paymentPlanController.js:201-228 | each error path exactly; the instalment becomes paid in full or not at all, as asked, and nothing else changes |
| `Installments.Plan.Cancel` | backend/src/controllers/paymentPlanController.js:248-260 | deactivates and soft-deletes a plan not yet deleted, and answers whether there was one |
| `Installments.AllocNothing` | backend/src/controllers/paymentPlanController.js:178-178 | a payment of nothing changes nothing |
| `Installments.AllocConserves` | backend/src/controllers/paymentPlanController.js:172-199 | the paid sum rises and the outstanding sum falls by exactly min(payment, outstanding) |
| `Installments.AllocAt` | backend/src/controllers/paymentPlanController.js:176-195 | instalment by instalment: how much of what is left it takes, when it becomes paid, and that it notes the transaction exactly when it takes something |
| `Installments.LeftIsWhatWasNotTaken` | backend/src/controllers/paymentPlanController.js:176-184 | what is left for an instalment is what the earlier ones did not take |
| `Installments.AllocTwice` | backend/src/controllers/paymentPlanController.js:172-199 | allocating x then y is allocating x + y |
| `Installments.AllocAdditive` | backend/src/controllers/paymentPlanController.js:172-199 | the same for any transaction hashes, hash lists aside |
| `Installments.ManyIsOne` | backend/src/controllers/paymentPlanController.js:172-199 | any list of payments has the effect of one payment of their sum |
| `Installments.OrderDoesNotMatter` | backend/src/controllers/paymentPlanController.js:172-199 | any reordering of the payments has the same effect |
| `Installments.AllocKeepsSound` | backend/src/controllers/paymentPlanController.js:176-195 | allocation keeps 0 ≤ paid ≤ amount and the paid flag exact |
| `Installments.RunKeepsSound` | backend/src/controllers/paymentPlanController.js:172-226 | so does every run of allocations and manual settlements from plan creation |
| `Installments.AllocKeepsPrefix` | backend/src/controllers/paymentPlanController.js:176-195 | full instalments, then at most one partial, then zeros: kept by allocation |
| `Installments.PaymentsFillFromTheFront` | backend/src/controllers/paymentPlanController.js:172-199 | over every list of payments |
| `Installments.TotalPaysOffThePlan` | backend/src/controllers/paymentPlanController.js:102-199 | a fresh plan has received min(payments, total), and payments reaching the total pay every instalment |
| `BackupCodeLimiter.Limiter.constructor` | backend/src/controllers/mfaController.js:58-62 | no attempts recorded |
| `BackupCodeLimiter.Limiter.Check` | backend/src/controllers/mfaController.js:63-74 | opens or reads the key's window; the wait told to a refused caller is the rest of that window; other keys unchanged |
| `BackupCodeLimiter.Limiter.Record` | backend/src/controllers/mfaController.js:76-84 | counts one failure in the key's window; other keys unchanged |
| `BackupCodeLimiter.Limiter.Clear` | backend/src/controllers/mfaController.js:86-88 | forgets one key only |
| `BackupCodeLimiter.RunKeepsInv` | backend/src/controllers/mfaController.js:63-84 | the counter equals the failures logged in its window, over every sequential run |
| `BackupCodeLimiter.SpanHasTwoWindows` | backend/src/controllers/mfaController.js:63-84 | a span of a window's length meets at most two windows |
| `BackupCodeLimiter.FailuresAreBounded` | backend/src/controllers/mfaController.js:55-84 | at most five failures per window and ten in any closed span of 900000 milliseconds |
| `BackupCodeLimiter.QuietSpanKeepsPromise` | backend/src/controllers/mfaController.js:58-84 | in every sequential run, a span into which no window opens holds at most five failures |
| `BackupCodeLimiter.SlidingPromiseExactly` | backend/src/controllers/mfaController.js:58-84 | over all runs that open no window inside a span but at w, the promise of five holds exactly when w lies outside the span |
| `BackupCodeLimiter.TenIsReached` | backend/src/controllers/mfaController.js:58-84 | wherever a window opens, ten failures within a window's length get through, with one millisecond between one check and its record |
| `BackupCodeLimiter.BoundByLatency` | backend/src/controllers/mfaController.js:63-84 | the bound is nine exactly when no time passes between a check and its record |
| `BackupCodeLimiter.NineWithoutLatency` | backend/src/controllers/mfaController.js:63-84 | without latency every span holds at most nine |
| `BackupCodeLimiter.NineIsReached` | backend/src/controllers/mfaController.js:58-84 | and nine are reached |
| `BackupCodes.NormalizeExactlySpellings` | backend/src/controllers/mfaController.js:90-97 | a text normalises to a code exactly when it spells it, up to case, separators and look-alikes |
| `BackupCodes.CharacterByCharacter` | backend/src/controllers/mfaController.js:90-97 | what becomes of each character: kept, replaced by the digit it looks like, capitalised or dropped |
| `BackupCodes.NormalizeConcat` | backend/src/controllers/mfaController.js:90-97 | and that wherever it stands |
| `BackupCodes.ShownNormalizes` | backend/src/controllers/mfaController.js:99-111 | the form shown to the user normalises back to the code |
| `BackupCodes.AlphabetIsSymbols` | backend/src/controllers/mfaController.js:51-51 | the alphabet has 32 symbols and none of the look-alikes |
| `BackupCodes.NoModuloBias` | backend/src/controllers/mfaController.js:103-106 | every symbol is drawn by exactly eight of the 256 byte values, and nothing else is drawn |
| `BackupCodes.GenerateBackupCodes` | backend/src/controllers/mfaController.js:99-111 | ten codes of ten symbols, each determined by its random bytes and shown in the form that normalises to it |
| `BackupCodes.FirstFit` | backend/src/controllers/mfaController.js:132-147 | the first unused, current slot with that code |
| `BackupCodes.FindMatchingIndex` | backend/src/controllers/mfaController.js:132-147 | the loop finds the first slot that is unused, not a legacy one and holds the code, and answers -1 exactly when there is none |
| `BackupCodeUse.RunKeepsInv` | backend/src/controllers/mfaController.js:181-241 | acceptances are of distinct slots and, with what is unused, never exceed what was issued |
| `BackupCodeUse.RunKeepsPointers` | backend/src/controllers/mfaController.js:181-241 | a matched request points at a slot holding its code as long as the list was not replaced |
| `BackupCodeUse.CodesAreSingleUse` | backend/src/controllers/mfaController.js:181-241 | in every interleaving, with regenerations, each slot is accepted at most once and acceptances never exceed codes issued |
| `BackupCodeUse.AcceptedCodeWasIssued` | backend/src/controllers/mfaController.js:181-241 | every acceptance ever made for a code read from the list as it then stood used up a slot that held that code |
| `BackupCodeUse.RightWhenAcceptedExactly` | backend/src/controllers/mfaController.js:181-241 | for every matched request, whatever happens before its mark: an acceptance is for a slot holding its code exactly when no regeneration came in between |
| `BackupCodeUse.OldCodeCanUseUpNewSlot` | backend/src/controllers/mfaController.js:724-735 | for every pair of codes, a regeneration between read and mark lets the old code use up the new slot |
| `BackupCodeUse.LoneRequest` | backend/src/controllers/mfaController.js:181-241 | a request left alone is accepted exactly when an unused slot that is not a legacy one holds its code; one that is rate limited is refused |
| `PaymentStatus.WalksAreSafe` | backend/src/constants/paymentStatus.js:107-153 | along any walk on the admin table refunds are final and never counted again, and PENDING and SUBMITTED are never re-entered |
| `PaymentStatus.TablesAgree` | backend/src/constants/paymentStatus.js:82-171 | the admin table extends the ordinary one, has no self-loops, and leaves an unconfirmed status only from FAILED |
| `PaymentStatus.EnteredExactly` | backend/src/constants/paymentStatus.js:82-153 | both tables read backwards: from where each status may be entered |
| `PaymentStatus.ReachExactly` | backend/src/constants/paymentStatus.js:107-114 | which statuses any number of admin transitions can lead to, from each status |
| `PaymentStatus.CountsExactlyInSuccess` | backend/src/constants/paymentStatus.js:151-171 | money counts exactly in SUCCESS; which statuses are confirmed and which not |
| `AdminStatus.Admin.constructor` | backend/src/controllers/paymentAdminController.js:371-407 | given payments, empty audit log |
| `AdminStatus.Admin.ApplyStatusTransition` | backend/src/controllers/paymentAdminController.js:371-407 | outcome, new status and audit entry of one transition |
| `AdminStatus.TransitionExactly` | backend/src/controllers/paymentAdminController.js:371-407 | not found, invalid or updated, each exactly on its condition, with the new status and the audit entry only then |
| `AdminStatus.Admin.BulkUpdate` | backend/src/controllers/paymentAdminController.js:461-527 | refused exactly on an invalid batch or change; otherwise the fold of the single update, with updated + failed = requested and one audit entry per success |
| `AdminStatus.RefusedExactly` | backend/src/controllers/paymentAdminController.js:415-480 | what a batch is refused for: no hash or more than a hundred, a blank one, a repeated one, no reason, or a way back to PENDING |
| `AdminStatus.BulkPointwise` | backend/src/controllers/paymentAdminController.js:494-515 | a payment changes exactly when it is in the batch and its own transition is allowed |
| `AdminStatus.OrderDoesNotMatter` | backend/src/controllers/paymentAdminController.js:494-515 | any order, and any repetition, of the hashes gives the same payments |
| `AdminStatus.ResultsAreIndependent` | backend/src/controllers/paymentAdminController.js:494-515 | each result is the one its hash would get alone |
| `AdminStatus.AuditLength` | backend/src/controllers/paymentAdminController.js:394-406 | as many audit entries as successes |
| `AdminStatus.AuditIsTrue` | backend/src/controllers/paymentAdminController.js:371-407 | an entry is in the trail exactly when that payment really moved from its from-status to its to-status |
| `Disputes.Controller.constructor` | backend/src/controllers/dispute.controller.js:44-75 | given payments, no disputes |
| `Disputes.Controller.SyncPaymentStatus` | backend/src/controllers/dispute.controller.js:161-201 | reply and payments of the synchronisation |
| `Disputes.Controller.FlagDispute` | backend/src/controllers/dispute.controller.js:211-293 | every refusal and the new dispute, in the order of the code |
| `Disputes.Controller.ResolveDispute` | backend/src/controllers/dispute.controller.js:375-484 | the dispute is written before the payment is synchronised; a normal return leaves the payment at SUCCESS for "rejected", DISPUTED for "open" and "under_review", REFUNDED otherwise |
| `Disputes.RequestMeansStatus` | backend/src/controllers/dispute.controller.js:62-67 | the same for dispute and payment, request word by request word |
| `Disputes.SyncMeetsImage` | backend/src/controllers/dispute.controller.js:161-201 | refused exactly when the image is a different status without a table edge; otherwise the payment has the image, other payments unchanged |
| `Disputes.NormalReturnMeansImage` | backend/src/controllers/dispute.controller.js:211-484 | every reply of flagging and resolving exactly on its condition, in terms of disputes, owners and statuses; what a call that goes through leaves behind |
| `Disputes.TurningDownIsOffTheTable` | backend/src/controllers/dispute.controller.js:444-484 | turning down any active dispute of a disputed payment puts the payment to SUCCESS, off the admin table; with the hook the controllers describe it would fail after the dispute was closed |
| `Disputes.SafeFromIsTheTable` | backend/src/constants/paymentStatus.js:107-114 | the statuses from which each dispute status may be reached without leaving the admin table |
| `Disputes.StepLands` | backend/src/controllers/dispute.controller.js:161-201 | where each step leaves each payment |
| `Disputes.AdminStepLands` | backend/src/controllers/paymentAdminController.js:371-407 | an admin step moves exactly the payments it names, by school and hash, and only along an edge |
| `Disputes.StepMovesExactly` | backend/src/constants/paymentStatus.js:107-153 | a step keeps a payment on the admin table exactly when its dispute call finds it in a status it may start from, or saves are guarded |
| `Disputes.RunWalksExactly` | backend/src/controllers/dispute.controller.js:161-201 | a run mixing admin, bulk and dispute steps, of the code as it stands or guarded, is a walk on the admin table exactly when every dispute call finds the payment in a status it may start from, or saves are guarded |
| `Disputes.SafeRuns` | backend/src/constants/paymentStatus.js:107-153 | on such runs a refund is final and never counted as paid |
| `Disputes.InitialNeverEntered` | backend/src/constants/paymentStatus.js:107-153 | in every run, guarded or not, nothing re-enters PENDING or SUBMITTED |
| `Disputes.RefundLeftExactly` | backend/src/controllers/dispute.controller.js:161-201 | as the code stands, a step leaves a refund exactly when it is a dispute call to anything but resolved |
| `Disputes.RefundFinalExactly` | backend/src/controllers/dispute.controller.js:161-201 | so a refund is final over a run exactly when no such call is made |
| `Disputes.RefundCountsAgainWithoutGuard` | backend/src/models/paymentModel.js:364-374 | a dispute raised on any refunded payment and turned down makes it count as paid |
| `Disputes.OneActiveKeptExactly` | backend/src/controllers/dispute.controller.js:264-267 | at most one active dispute per payment, kept by a step exactly when it does not re-open one beside an active one |
| `Disputes.OneActiveAlwaysExactly` | backend/src/controllers/dispute.controller.js:264-267 | over a whole run, at most one active dispute per payment all along exactly when no step does so |
| `Disputes.TwoActiveDisputes` | backend/src/controllers/dispute.controller.js:44-49 | raise, turn down, raise, re-open: two active disputes over any payment |
| `LeaseLock.PaymentLease.constructor` | backend/src/controllers/paymentAdminController.js:167-195 | no lease |
| `LeaseLock.PaymentLease.LockForUpdate` | backend/src/controllers/paymentAdminController.js:167-195 | granted exactly when no lease runs; sets deadline and holder only then |
| `LeaseLock.PaymentLease.Unlock` | backend/src/controllers/paymentAdminController.js:197-217 | clears the lease exactly for its holder |
| `LeaseLock.RunKeepsInv` | backend/src/controllers/paymentAdminController.js:167-217 | the two fields always describe the last granted lease |
| `LeaseLock.LeasesAreDisjoint` | backend/src/controllers/paymentAdminController.js:167-217 | the granted lease intervals, each cut at its own unlock, are pairwise disjoint over every run |
| `LeaseLock.UnlockEndsOnlyItsOwnLease` | backend/src/controllers/paymentAdminController.js:197-217 | an unlock, stale or not, never shortens another holder's lease |
| `LeaseLock.LockGrantedExactlyWhenNoLeaseRuns` | backend/src/controllers/paymentAdminController.js:167-195 | the free test on the fields holds exactly when every granted lease has ended |
| `DeadLetters.ParseRange` | backend/src/controllers/paymentAdminController.js:230-237 | start, or 0 if missing or negative; end, cut to 500 rows, or 100 rows if missing or before start |
| `DeadLetters.ScanBatch` | backend/src/controllers/paymentAdminController.js:283-289 | one batch extends the page of the filtered prefix |
| `DeadLetters.GetDeadLetterJobs` | backend/src/controllers/paymentAdminController.js:260-298 | for any batch size the result is the caller's jobs from `start`, cut to `end + 1`; the total is exact when the page was not filled; every job shown to a school carries that school's id |
| `DeadLetters.FilteredPrefix` | backend/src/controllers/paymentAdminController.js:260-298 | filtering a prefix of the queue gives a prefix of the filtered queue, so stopping early is safe |
| `DeadLetters.PageIsInclusiveExactly` | backend/src/controllers/paymentAdminController.js:224-229 | the page is the documented inclusive range exactly when it starts at zero or the jobs end by `end`; otherwise it only adds to it |
| `DeadLetters.FilterIsExact` | backend/src/controllers/paymentAdminController.js:256-258 | a school sees exactly the queued jobs with its own id, as often as queued |
| `DeadLetters.EverythingIsEverything` | backend/src/controllers/paymentAdminController.js:256-284 | a cross-tenant viewer sees the whole queue |
| `FeeLedger.GroupTotals` | backend/scripts/verify-restored-db.js:33-40 | the grouping loop maps exactly the payers to the sum of their counted payments |
| `FeeLedger.School.constructor` | backend/src/controllers/feeController.js:119-123 | given students, empty history |
| `FeeLedger.ClassTotals` | backend/src/controllers/feeController.js:123-131 | the cascade's own grouping, of one school and the ids of the class, keyed by id alone: exactly the payers among them with the sum of their counted payments |
| `FeeLedger.PaidInClass` | backend/src/controllers/feeController.js:134-134 | looking up a student of the class by id, with nothing for a missing entry, gives what that student paid |
| `FeeLedger.RewriteClass` | backend/src/controllers/feeController.js:133-165 | students of the class recomputed, everybody else as before, one equal history row each |
| `FeeLedger.School.Cascade` | backend/src/controllers/feeController.js:119-168 | every student of the class is recomputed from the class's own grouped sums, everybody else unchanged, one history row per student, equal to it |
| `FeeLedger.CascadeAt` | backend/src/controllers/feeController.js:120-144 | who is touched and how: the live students of that school and class get the new fee and what follows from their payments, nobody else changes |
| `FeeLedger.HistoryExactly` | backend/src/controllers/feeController.js:153-165 | one history row for each of them, with the stored values |
| `FeeLedger.OnePaymentMore` | backend/scripts/verify-restored-db.js:34-37 | what one more payment adds to cascade, checker and canonical sums, by its own fields |
| `FeeLedger.GroupingsAgree` | backend/scripts/verify-restored-db.js:33-40 | the cascade's grouping and the checker's, by different filters and keys, agree on every student of the class |
| `FeeLedger.CheckBalances` | backend/scripts/verify-restored-db.js:28-70 | drift as specified; orphans exactly those with a successful undeleted payment and no live student; every live student counted once |
| `FeeLedger.DriftReport` | backend/scripts/verify-restored-db.js:44-60 | a row is reported exactly for a live student more than a stroop off in total or remainder, with the stored and the computed total |
| `FeeLedger.NoDriftExactly` | backend/scripts/verify-restored-db.js:44-60 | the drift list is empty exactly when every student meets the specification |
| `FeeLedger.RecomputedIsConsistent` | backend/src/controllers/feeController.js:133-165 | total equals the payments, paid exactly when nothing remains, history equals the student, and the checker objects exactly to a credit above its tolerance |
| `FeeLedger.CascadeThenCheck` | backend/scripts/verify-restored-db.js:44-60 | after a cascade the checker objects to a student of the class exactly when credits exceed its tolerance, and to anybody else exactly as before |
| `FeeLedger.ClassTotalsAddUp` | backend/src/controllers/feeController.js:119-168 | the totals of a class add up to the payments of its students |
| `FeeLedger.CascadeMinusCanonical` | backend/src/utils/studentBalanceUpdater.js:165-180 | cascade total and canonical total differ by exactly the payments under review minus the credit |
| `FeeLedger.CascadeIsCanonicalExactly` | backend/src/utils/studentBalanceUpdater.js:66-78 | they agree exactly when those two are equal |
| `FeeLedger.ReviewedPaymentIsCounted` | backend/src/controllers/feeController.js:127-127 | a student whose only payment is under review: the cascade counts it, the canonical balance does not |
| `FeeLedger.CheckerFlagsReviewExactly` | backend/scripts/verify-restored-db.js:34-37 | the checker objects to a canonical balance exactly when payments under review exceed its tolerance |

## Left out

- `submitTransaction`, the poller, the sync of a whole school and the retry queues: they write balances and statuses outside the step discipline modelled here.
- Chain, Redis, Mongo, currency conversion, audit delivery, server-sent events, webhooks and email: foreign calls, taken as replies or successful steps.
- A single store call that takes effect and then reports a failure, and a process that dies between two steps: a failing call has no effect here, and a call that is never advanced again stands for a crash.
- The category and period breakdown in `updateStudentBalance`, and payment intents: the model keeps total, remainder and paid flag. A failure after the balance write (period fees, audit, currency conversion), which turns the answer into an error and changes nothing else, is not a step.
- bcrypt, JWT, TOTP and encryption: they rest on cryptographic assumptions; a stored hash matches exactly its own code here.
- Interleavings inside `handleRefresh`: each authentication handler is one atomic step. Password change and session listing are not part of this model.
- The student's `disputeHold`, suspicion review and evidence: closing one dispute lifts the hold and re-opening does not set it, so no simple invariant holds.
- Directory walking and the suffix pattern of the directory checker: the stripped name is a parameter of `NearMisses`.
- Route discovery by regular expression, middleware classification and path helpers in the extractor.
- Upper-casing outside ASCII in `normalizeBackupCode`.
- Due dates and `paidAt` clocks in plan allocation; the dates only validate a new plan here.
- The NUL-joined string keys of `checkBalances` (pairs here), its cap on reported rows and its console output.
- A dead-letter queue that changes while it is scanned.
- Migrations, and the health, report, reminder, school, student and user controllers: they would only add easy members.
