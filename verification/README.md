# Mail Suite control plane: verified model

This project models the part of the Mail Suite control plane that must not go wrong while machines
crash, clocks run and replies get lost: the mailbox operation ledger, the workers that lease operations
from it, the Stalwart adapter they drive, the intake that fills it, and four smaller state machines
around it (message paging, bounded message text, login and sessions, the test identity fixture).

| file | holds |
|---|---|
| `Types` | identifiers, digests, time, 64-bit durations |
| `Ledger` | the tables, the claim, finalize and resolve statements, the ledger invariant |
| `LedgerSafety` | every statement and environment step keeps the invariant |
| `LedgerRuns` | fencing, bounded retries, no stuck work, bounded overtaking over whole runs |
| `LedgerHistory` | the attempt rows as an unbroken log that explains the operation row |
| `LedgerEffects` | what each statement leaves in the rows, retry times and reasons for giving up over whole runs |
| `LedgerChecks` | the CHECK constraints of the schema over whole runs |
| `Store` | the provisioning repository as a class that updates its tables in place |
| `Intake` | request normalisation, and the table of accepted requests the intake refines |
| `Worker` | one attempt: deadlines, decisions, backoff, the report |
| `Marker` | the account marker: printer, parser, round trip |
| `MailCore` | the adapter against a server, and racing ensure calls on one account |
| `Convergence`, `ConvergenceSafety`, `ConvergenceRuns` | ledger, workers, network and server as one machine, its invariant, and what every run of it guarantees |
| `ConvergenceLedger`, `ConvergenceReports`, `ConvergenceCalls` | the ledger's side of a history, what workers report and how retries follow, and what they may rely on about their calls |
| `ConvergenceOrder`, `ConvergenceProgress`, `ConvergenceWitness` | a check before a new revision that keeps calls in order, exactly which claims can still succeed, and histories that show the failures |
| `Paging`, `MessageText`, `Utf8` | the read adapter's pages, its bounded text, and an encoder its validity check is measured against |
| `Identity`, `IdentityRuns`, `IdentityStore` | login flows, sessions and revocation: machine, run theorems, tables in place |
| `Bootstrap` | the test identity fixture: Apply, use, Remove |

## How to read the model

A statement or a transaction is one atomic step, as the row locks make it. `Ledger.Next` is the transition
relation of the tables, including the environment: the clock, administrators, new intents, and revisions
of a mailbox. `Convergence.Happens` adds workers that may crash at any point, set calls that outlive the
worker that sent them, replies that get lost, and landings in any order. Theorems quantify over all runs of
these relations. The classes (`Store.Repository`, `MailCore.Server`, `IdentityStore.Directory`,
`Bootstrap.ControlPlane`) update their fields the way the Go code and its SQL do, and their contracts tie
each call to the relation or function the theorems are about.

Assumptions, all visible in the definitions:

- one non-decreasing clock is shared by workers and database; all workers share one configuration except
  their owner id; a mailbox revision never decreases;
- `attempt_count` and `lease_epoch` start at 0 and `next_attempt_at` at insertion time (the defaults in
  `src/backend/migrations/`);
- a mailbox has at most one operation per revision; the code as built only writes revision 1, so
  `FollowUpEvent` and `ReviseEvent` stand for the environment and may never happen;
- nobody but this system edits the accounts that carry its marker, and new UUIDs are fresh;
- SHA-256 is used through its results only, with the absence of a collision between the two requests
  compared as an explicit premise; authenticated encryption is unforgeable;
- strings are sequences of Unicode characters, so invalid UTF-8 cannot occur in them; message bodies are
  bytes, and valid UTF-8 because Go's JSON decoder makes them so;
- `updated_at`, `kind`, `resource_type`, `event_type` and `payload` columns are constant or unused by the
  logic and are not modelled.

## Results that needed a condition

- *An account's revision never goes down, and each operation alters mail-core at most once.* False when a mailbox is
  moved to a new revision while a call for the old one is under way: the adapter reads, decides and then writes, so the
  older call can land last (`ConvergenceWitness.RevisionGoesBack` is such a history of the whole system,
  `MailCore.OverlapRegresses` the bare race). Over every history it holds exactly when no landing call is overtaken by a
  newer one between the read it acts on and its landing (`ConvergenceRuns.EffectIff`, `ConvergenceRuns.NeverBackIff`). A
  caller ensures that by moving a mailbox to a new revision only when none of its attempts may still send a call and none
  of its calls may still land (`ConvergenceOrder.SettledIsEnough`). The code as built never moves a mailbox to a new
  revision, so for it there is no condition.
- *Idle expiry never moves back.* False in two ways. Reading the session and recording the visit are two statements, and
  the second does not check that the recorded time is newer, so the slower of two overlapping requests can shorten the
  session (`IdentityRuns.OverlapShortens`). And the repository accepts any idle timeout up to thirty minutes while a login
  always grants thirty, so with a shorter timeout a single early visit shortens it (`IdentityRuns.ShortTimeoutShortens`).
  `IdentityRuns.IdleNeverBackIff` is exact for every accepted timeout; with the default one only the first way is left
  (`IdentityRuns.IdleNeverBackDefault`).
- *After a success at t, a session stays usable until t plus the idle timeout less the touch interval, or its
  absolute expiry.* False because of overlapping requests: in `IdentityRuns.OverlapShortens` a success at minute 15 should
  last until minute 40, and the session is gone at minute 36. It holds exactly when no touch has landed since, or the last one that landed is at
  most the touch interval older than t, or reaches absolute expiry anyway (`IdentityRuns.StaysSignedInIff`).
- *Every due operation can be claimed or finalized.* True while its mailbox is wanted active; otherwise exactly
  the current operations with attempts left can do neither (`LedgerRuns.DueWorkMoves`), and such work is reachable
  (`LedgerRuns.StuckIsReachable`).
- *Every claim can still succeed.* Exactly when the account at its address is not somebody else's and not newer
  (`ConvergenceProgress.ClaimCanSucceed`); `ConvergenceWitness.ForeignAccountBlocks` reaches a claim that cannot.
- *A mailbox can be read to its end by following cursors.* Exactly when it holds at most 10000 messages
  (`Paging.WholeMailboxIff`).
- *Text is marked as truncated only if something is missing.* An empty last part that meets a full text marks
  it too (`MessageText.FullThenEmpty`). `MessageText.MarkedThoughWhole` gives the exact condition.

## Model

| member | source | states |
|---|---|---|
| LedgerSafety.ClaimKeepsInv | src/backend/internal/data/postgres/generated/provisioning.sql.go:15-130 | claiming a claimable operation keeps the ledger invariant: attempts numbered 1..n with matching epochs, exactly one open attempt while running, event delivered exactly once, unique keys and addresses |
| LedgerSafety.FinalizeKeepsInv | src/backend/internal/data/postgres/generated/provisioning.sql.go:188-262 | closing superseded or exhausted work keeps the ledger invariant |
| LedgerSafety.ResolveKeepsInv | src/backend/internal/data/postgres/generated/provisioning.sql.go:550-667 | an accepted resolution keeps the ledger invariant, including that success rests on a matching observation and an active mailbox on a succeeded operation |
| LedgerSafety.NextKeepsInv | src/backend/internal/data/postgres/generated/provisioning.sql.go:15-667 | every statement, intake and environment step keeps the whole ledger invariant |
| LedgerRuns.RunInv | src/backend/internal/data/postgres/generated/provisioning.sql.go:15-667 | the ledger invariant holds in every state of every run |
| LedgerHistory.RunRecorded | src/backend/internal/data/postgres/generated/provisioning.sql.go:60-130 | in every state of every run the attempts of an operation form an unbroken log: each starts when the one before is over, from the status it left or by taking over its expired lease at that moment; the last one explains status, last error and stored observation; the first claim is the delivery of the wake-up event |
| LedgerHistory.ResolveChronicled | src/backend/internal/data/postgres/generated/provisioning.sql.go:598-661 | a resolution closes its attempt now with its status, error and observation, and the operation row follows it |
| LedgerEffects.ClaimWrites | src/backend/internal/data/postgres/generated/provisioning.sql.go:60-130 | a claim leases the operation to its owner for exactly the asked time, counts the attempt and its epoch up by one, inserts an attempt row that records the status it found, and returns a snapshot that agrees with those rows, the prior status included; nothing else changes |
| LedgerEffects.ClaimServesFirst | src/backend/internal/data/postgres/generated/provisioning.sql.go:51-59 | it serves the unlocked claimable operation that was ready first, then the one created first, then the smallest id |
| LedgerEffects.ClaimableIff | src/backend/internal/data/postgres/generated/provisioning.sql.go:35-50 | an operation can be claimed exactly if it is not finished, its time has come or its lease is over, attempts remain, its mailbox is wanted active at its revision and the domain is its tenant's |
| LedgerEffects.FinalizeWrites | src/backend/internal/data/postgres/generated/provisioning.sql.go:188-262 | a finalize closes work as superseded exactly when its mailbox has a newer revision and as dead exactly when the revisions agree and its attempts are used up, each with its own error code, and closes the running attempt with the same result |
| LedgerEffects.FinalizeTakesFirst | src/backend/internal/data/postgres/generated/provisioning.sql.go:223-228 | it takes superseded work before exhausted work, then the one created first, then the smallest id |
| LedgerEffects.FinalizableIff | src/backend/internal/data/postgres/generated/provisioning.sql.go:205-222 | work can be given up exactly if it is not finished and its mailbox has moved on, or its attempts are used up and no lease is running |
| LedgerEffects.RunSuperseded | src/backend/internal/data/postgres/generated/provisioning.sql.go:196-204 | in every state of every run superseded work is work its mailbox has moved past |
| LedgerEffects.ResolutionWrites | src/backend/internal/data/postgres/generated/provisioning.sql.go:598-661 | an accepted resolution gives the operation its status, error and observation and a retry time of now plus its delay to the microsecond above, closes exactly its own attempt row, and touches the mailbox on success only |
| LedgerEffects.RetryTime | src/backend/internal/data/postgres/generated/provisioning.sql.go:601-606 | after an accepted retry or unknown resolution the operation becomes due its delay later, by less than a microsecond, and stays due until it is touched |
| LedgerEffects.RetryWaits | src/backend/internal/data/postgres/generated/provisioning.sql.go:601-606 | over every run no claim of that operation happens before the delay has passed |
| LedgerChecks.RunChecks | src/backend/migrations/00003_mailbox_operation_worker.sql:83-121 | in every state of every run every operation, attempt and mailbox row satisfies the CHECK constraints of its table: lease state complete, error codes well formed, success backed by a matching observation, attempts completed in order and without an error on success, an active mailbox observed at its revision |
| LedgerRuns.TouchMoves | src/backend/internal/data/postgres/generated/provisioning.sql.go:60-80 | each claim, finalize and accepted resolution strictly lowers 2·(max − attempts) + running + 1, and only a claim opens an epoch |
| LedgerRuns.AcceptedIsFenced | src/backend/internal/data/postgres/generated/provisioning.sql.go:562-568 | an accepted resolution carries owner and epoch of a claim after which no claim, finalize or accepted resolution of the operation happened |
| LedgerRuns.AcceptedOnce | src/backend/internal/data/postgres/generated/provisioning.sql.go:562-568 | accepted resolutions of one operation carry strictly growing epochs, so each claim is resolved at most once |
| LedgerRuns.TouchFencesOut | src/backend/internal/data/postgres/generated/provisioning.sql.go:562-568 | once a later claim, finalize or resolution touched the operation, an older token is refused for good and changes nothing |
| LedgerRuns.TokenHonoured | src/backend/internal/data/postgres/generated/provisioning.sql.go:562-584 | a genuine token is honoured if and only if nothing touched the operation since its claim, the lease still runs and the evidence fits |
| LedgerRuns.FenceDecides | src/backend/internal/data/postgres/generated/provisioning.sql.go:635-667 | under the invariant the applied flag equals the fence conditions on the operation row |
| LedgerRuns.BoundedRetries | src/backend/internal/data/postgres/generated/provisioning.sql.go:39-50 | over any run an operation takes at most 2·max + 1 ledger steps and its attempt count is exactly its number of claims, at most max |
| LedgerRuns.TerminalStays | src/backend/internal/data/postgres/generated/provisioning.sql.go:44-50 | a terminal operation row never changes again |
| LedgerRuns.DueWorkMoves | src/backend/internal/data/postgres/generated/provisioning.sql.go:35-50 | due work is never both claimable and finalizable, and neither exactly when its mailbox is not wanted active, is at the operation's revision and attempts remain |
| LedgerRuns.StuckIsReachable | src/backend/internal/data/postgres/generated/provisioning.sql.go:35-50 | a run in which a mailbox is requested and suspended leaves its operation due and neither claimable nor finalizable |
| LedgerRuns.OvertakenOnce | src/backend/internal/data/postgres/generated/provisioning.sql.go:51-59 | while an operation waits claimable, no other operation is claimed twice before it |
| LedgerRuns.BoundedOvertaking | src/backend/internal/data/postgres/generated/provisioning.sql.go:51-59 | the number of claims before a waiting operation is served is below the number of operations |
| Store.FirstExists | src/backend/internal/data/postgres/generated/provisioning.sql.go:51-59 | the ORDER BY is total: a non-empty selection has a row before all others |
| Store.Repository.FinalizeBeforeClaim | src/backend/internal/data/postgres/generated/provisioning.sql.go:188-262 | finalizes the first unlocked candidate as one ledger step, in the order superseded, creation time, id, closes it as superseded or dead for exactly the reason it has, and does nothing exactly when there is none |
| Store.Repository.ClaimStatement | src/backend/internal/data/postgres/generated/provisioning.sql.go:15-150 | leases the unlocked due operation that was ready first as one ledger step and returns a snapshot that agrees with the operation row and the attempt row it leaves, including the status it found; returns nothing exactly when none is claimable |
| Store.Repository.ClaimMailboxOperation | src/backend/internal/data/postgres/provisioning_repository.go:169-221 | refuses exactly the invalid requests without touching a table; otherwise finalizes one operation exactly when one can be finalized, then claims, and never grants a lease shorter than asked |
| Store.Repository.ResolveMailboxOperation | src/backend/internal/data/postgres/provisioning_repository.go:224-281 | reports success exactly when the resolution is valid, fenced in and committed; the operation then carries its status, error, observation and a retry time of now plus the delay; a commit whose reply is lost has stored it and answers with an error; a refused resolution and a failed commit leave all tables as they were |
| Store.Repository.RequestMailbox | src/backend/internal/provisioning/provisioning.go:150-159 | normalises, then answers from the book of accepted requests, or enters the request whole or not at all |
| Store.Repository.Enter | src/backend/internal/data/postgres/provisioning_repository.go:38-147 | the intake transaction with its lookup race, its constraint errors and its commit outcomes meets the exact answer for each case |
| Store.Repository.Lookup | src/backend/internal/data/postgres/generated/provisioning.sql.go:273-282 | finds the operation of a tenant and key exactly when the book has it |
| Ledger.Microseconds | src/backend/internal/data/postgres/provisioning_repository.go:328-346 | rounds a positive duration up to microseconds, never shortening it and by less than one |
| Intake.TrimFrames | src/backend/internal/provisioning/provisioning.go:187-193 | trimming removes blanks on both ends and nothing else |
| Intake.TrimIsUnique | src/backend/internal/provisioning/provisioning.go:187-193 | the trimmed text is the only one with that property |
| Intake.PrepareTwice | src/backend/internal/provisioning/provisioning.go:174-218 | a normalised request is valid and normalises to itself |
| Intake.PrepareAbsorbs | src/backend/internal/provisioning/provisioning.go:179-193 | letter case of the local part and blanks around display name and key do not change the request |
| Intake.PreparedIff | src/backend/internal/provisioning/provisioning.go:174-195 | a request is accepted exactly if tenant and domain are named, the local part has 1 to 64 allowed characters with no dot at an end or next to another, the trimmed display name at most 128 characters and no control character, and the trimmed key 16 to 128 allowed characters |
| Intake.PreparedFrom | src/backend/internal/provisioning/provisioning.go:179-216 | the accepted request carries the same tenant and domain, the local part in lower case letter by letter, and display name and key without the blanks around them |
| Intake.LowerLetters | src/backend/internal/provisioning/provisioning.go:179 | each capital letter is lowered to its small letter, as are the Kelvin sign and the dotted capital I |
| Intake.CharacterClasses | src/backend/internal/provisioning/provisioning.go:187-193 | blanks and control characters are exactly the listed code points |
| MailCore.IntakeAddressIsValid | src/backend/internal/mailcore/stalwart/adapter.go:661-674 | the address of every accepted request, in a normalised domain, passes the adapter's own address check |
| Intake.EntriesStay | src/backend/internal/data/postgres/provisioning_repository.go:38-147 | what is booked under a tenant and key stays booked with the same digest, mailbox and operation through every later step |
| Intake.GrantIsBooked | src/backend/internal/data/postgres/provisioning_repository.go:142-146 | a granted request is in the book with the digest of its fingerprint and the ids it was granted |
| Intake.FirstRequestWins | src/backend/internal/data/postgres/provisioning_repository.go:357-369 | after a grant, a request with the same key and the same normalised domain, local part and display name gets the original ids back, one that differs in any of them conflicts, and neither writes a row, whatever happened in between; only a request whose first lookup missed the grant while its domain is switched off is answered that the domain is unavailable |
| Intake.GrantWrites | src/backend/internal/data/postgres/provisioning_repository.go:71-137 | a new grant inserts exactly one mailbox at revision 1, one pending operation with the request digest and one pending event, with the requested values |
| Intake.RefusalExplained | src/backend/internal/data/postgres/provisioning_repository.go:60-137 | a new request is refused as domain unavailable exactly if domain or tenant is unknown, foreign or switched off, as existing only if the address is taken, and otherwise only because it could not be stored |
| Intake.TablesCorrespond | src/backend/internal/data/postgres/provisioning_repository.go:71-137 | with intake as the only source of work, mailboxes, operations and events stay in one-to-one correspondence and addresses unique |
| Worker.Classify | src/backend/internal/mailcore/mailcore.go:65-84 | any error becomes a class and code the ledger stores, and a well-formed one is unchanged |
| Worker.RetryDelay | src/backend/internal/operation/operation.go:358-370 | the 64-bit loop equals min(cap, base·2^(attempt−1)) over unbounded integers, with no overflow |
| Worker.BackoffShape | src/backend/internal/operation/operation.go:358-370 | delays start at the base, are positive, capped, monotone in the attempt number, and double until the cap |
| Worker.AdapterWindow | src/backend/internal/operation/operation.go:178-200 | adapter calls end a safety margin before the earliest of lease expiry, own timeout and caller deadline, exactly, and an attempt started at claim time gets its full timeout |
| Worker.AnswerIsValid | src/backend/internal/operation/operation.go:321-343 | a coherent report passes the repository's check, carries the claim's token and delays only retries |
| Worker.Resolve | src/backend/internal/operation/operation.go:321-343 | builds that report with the delay the loop computes |
| Worker.ResolveUncertain | src/backend/internal/operation/operation.go:307-318 | unknown while attempts remain, dead on the last one, with the given code and observation; always a valid report |
| Worker.ResolveAdapterFailure | src/backend/internal/operation/operation.go:278-304 | a permanent error fails the operation; otherwise the last attempt is dead, a retryable error waits and any other is unknown; the code is the error's own if well formed; always a valid report |
| Worker.Execute | src/backend/internal/operation/operation.go:173-259 | for every adapter behaviour within its contract the report is valid, carries the claim's token, and is explained by the calls alone: success exactly when the last call was a matching inspect, failed exactly when it was an ensure that failed permanently, dead exactly on the last attempt without either, retry exactly when an ensure failed retryably before that, unknown in all other cases, each with the code and observation of the last call; inspect first after an unknown outcome; no call outlasts lease minus margin |
| Worker.EnsureAndConfirm | src/backend/internal/operation/operation.go:226-258 | the second half of an attempt makes one ensure call and, if it succeeded, one inspect, and its report is explained by them |
| Marker.FormatSplits | src/backend/internal/mailcore/stalwart/adapter.go:594-610 | the colon split of a printed marker yields exactly its seven printed parts |
| Marker.RoundTrip | src/backend/internal/mailcore/stalwart/adapter.go:594-630 | parsing a printed marker returns exactly the mailbox, domain, operation, revision and hash |
| Marker.FormatInjective | src/backend/internal/mailcore/stalwart/adapter.go:594-604 | different markers are printed differently |
| Marker.Canonical | src/backend/internal/mailcore/stalwart/adapter.go:607-630 | any accepted spelling, reprinted, parses to the same marker |
| MailCore.Server.EnsureMailbox | src/backend/internal/mailcore/stalwart/adapter.go:116-145 | changes only its own account, only from vacant or an older revision of the same mailbox to exactly the command, also when another client creates the account in between; success means the account carries it or a newer revision; without faults it fails, with the permanent conflict error, exactly if the account is foreign, another mailbox's or of the same revision with another hash; invalid commands, failed reads and a missing domain have their own errors |
| MailCore.Server.CreateAccount | src/backend/internal/mailcore/stalwart/adapter.go:335-376 | a create that finds the address taken looks again and ends as an ensure of that account |
| MailCore.Server.EnsureExistingAccount | src/backend/internal/mailcore/stalwart/adapter.go:379-433 | moves an owned account forward only, and without faults fails exactly on a conflict |
| MailCore.Server.InspectMailbox | src/backend/internal/mailcore/stalwart/adapter.go:148-195 | refuses an invalid query as a configuration error; otherwise reports exactly what the account at the address holds: absent, the marker's revision and hash, or the permanent conflict error for a foreign or another mailbox's account |
| MailCore.MonotoneIffNotOvertaken | src/backend/internal/mailcore/stalwart/adapter.go:379-400 | over any schedule of racing ensure calls an account's revision never goes down if and only if no update is overtaken by a newer one |
| MailCore.LandsOnce | src/backend/internal/mailcore/stalwart/adapter.go:379-400 | with one operation per revision and nothing overtaken, a repeated landing changes nothing |
| MailCore.OverlapRegresses | src/backend/internal/mailcore/stalwart/adapter.go:379-400 | two overlapping ensure calls can take an account from revision 3 back to 2 |
| ConvergenceRuns.HistoryInv | src/backend/internal/operation/operation.go:173-259 | the system invariant, which contains the ledger invariant, holds in every state of every run of workers, network and server |
| ConvergenceLedger.RunOfLedger | src/backend/internal/operation/operation.go:173-259 | the ledger's states along any history of the whole system form a run of the ledger, so its run theorems apply |
| ConvergenceLedger.LooksFirst | src/backend/internal/operation/operation.go:202-228 | over every history an attempt whose predecessor in the log ended unknown or was taken over examines its account for a set call only after an inspect of its own was answered |
| ConvergenceLedger.UnknownMustInspect | src/backend/internal/operation/operation.go:202-204 | a claim asks for that inspect exactly if the log says its predecessor ended unknown |
| ConvergenceReports.GivenUpOnlyExhausted | src/backend/internal/operation/operation.go:278-318 | over every history an operation is dead only with all its attempts used up |
| ConvergenceReports.LostReplyAsksAgain | src/backend/internal/operation/operation.go:297-302 | a lost or failed reply that is not permanent, before the last attempt, is reported as retry or unknown |
| ConvergenceReports.LostReplyIsRetried | src/backend/internal/operation/operation.go:297-302 | and so leaves an unfinished operation unfinished over every history |
| ConvergenceReports.RetriesBackOff | src/backend/internal/operation/operation.go:321-370 | over every history, after an accepted report that asks for a retry the operation is not claimed again before min(cap, base·2^(attempt−1)) has passed |
| ConvergenceCalls.ServedUnderLease | src/backend/internal/operation/operation.go:178-200 | over every history, whenever the adapter answers a worker a safety margin of its lease is left and the operation is still leased to that attempt, unless it is finished |
| ConvergenceCalls.ExamineDecides | src/backend/internal/mailcore/stalwart/adapter.go:116-145 | a worker that reads the account for a set call fails for good on a foreign, another mailbox's or conflicting account, sends nothing if the account is there or further, and otherwise sends one create or update with its own marker |
| ConvergenceCalls.ReplyTells | src/backend/internal/mailcore/stalwart/adapter.go:335-433 | a set call reported as landed left its marker at the step it arrived, in an account that was vacant or its mailbox's own; one reported as refused was a create that found the address taken and changed nothing |
| ConvergenceRuns.OwnersStay | src/backend/internal/mailcore/stalwart/adapter.go:335-400 | over every history an account appears once and keeps its owner, and foreign accounts are never written |
| ConvergenceRuns.NeverBackIff | src/backend/internal/mailcore/stalwart/adapter.go:379-400 | over every history of workers, network and server no account's revision ever goes down if and only if no landing call is overtaken by a newer one since the read it acts on |
| ConvergenceRuns.EffectIff | src/backend/internal/operation/operation.go:202-258 | no account goes back and every operation alters mail-core at most once, if and only if no landing call is overtaken |
| ConvergenceOrder.SettledIsEnough | src/backend/internal/operation/operation.go:178-258 | if a mailbox is moved to a new revision only when none of its attempts may still send and none of its calls may still land, nothing is overtaken, no account goes back and each operation alters mail-core at most once |
| ConvergenceWitness.RevisionGoesBack | src/backend/internal/mailcore/stalwart/adapter.go:379-433 | a history in which revision 3 is queued while the call for 2 is under way ends with the account back at 2 |
| ConvergenceRuns.AltersWrites | src/backend/internal/mailcore/stalwart/adapter.go:335-400 | a landing call that changes an account leaves exactly the operation's marker, and if it moves the account forward the account lacked the operation before |
| ConvergenceRuns.AtMostOnce | src/backend/internal/operation/operation.go:202-258 | through claims, crashes, lost replies and takeovers the set calls of one operation change mail-core at most once in every history in which none is overtaken |
| ConvergenceRuns.EveryChangeIsAlters | src/backend/internal/mailcore/stalwart/adapter.go:335-452 | nothing but a landing set call changes an account, and only at its own address |
| ConvergenceRuns.DisjointWindows | src/backend/internal/operation/operation.go:178-200 | the windows in which attempts on one operation may call the adapter never overlap and follow the order of their epochs |
| ConvergenceRuns.SuccessIsReal | src/backend/internal/operation/operation.go:251-258 | once an operation has succeeded, mail-core holds its mailbox for good, and at that revision or a later one as long as no landing call is overtaken |
| ConvergenceRuns.ActiveMeansServed | src/backend/internal/data/postgres/generated/provisioning.sql.go:573-597 | a mailbox the ledger shows as active owns the account at its address, and with exactly its revision and hash as long as no landing call is overtaken |
| ConvergenceRuns.ClaimsAreValid | src/backend/internal/operation/operation.go:373-381 | every claim the ledger hands out passes the worker's own check |
| ConvergenceRuns.CleanAttempt | src/backend/internal/operation/operation.go:202-258 | with all replies delivered an attempt succeeds exactly when the account is vacant, behind or as desired, and then leaves it as desired |
| ConvergenceProgress.ClaimCanSucceed | src/backend/internal/operation/operation.go:173-259 | from every reachable state, after a claim, some continuation of the whole system makes the operation succeed if and only if the account at its address is neither somebody else's nor newer: vacant, behind, or already carrying the marker from a call nobody heard of; it then ends with exactly the operation's marker |
| ConvergenceProgress.FindsItDone | src/backend/internal/operation/operation.go:202-258 | an attempt whose account already carries its marker reports success through its first inspect, or through an ensure that sends nothing and its last inspect |
| ConvergenceWitness.ForeignAccountBlocks | src/backend/internal/mailcore/stalwart/adapter.go:379-388 | a claim whose account belongs to somebody else is reachable, and no continuation makes it succeed |
| ConvergenceProgress.SuccessHonoured | src/backend/internal/data/postgres/generated/provisioning.sql.go:562-584 | the success an attempt reports at any later time is accepted if and only if nothing touched the operation since its claim, its lease still runs and the mailbox still wants that revision active |
| Paging.ListMessages | src/backend/internal/mailcore/stalwart/read_adapter.go:138-224 | against any server, a page is returned exactly when request, query reply and fetched emails check out; it shows the queried ids in order, a cursor exactly when there is more, and refuses a cursor of another mailbox version |
| Paging.ListedOpens | src/backend/internal/mailcore/stalwart/read_tokens.go:40-115 | every listed reference names its message and opens for message reads only, under the same mailbox configuration only, and for exactly 900 seconds; the cursor for list requests only, for exactly 600 seconds, and continues after the messages shown in the version listed |
| Paging.PageIsSound | src/backend/internal/mailcore/stalwart/read_adapter.go:138-212 | a page rests on a complete scope, a limit of 1 to 50, and a dated email of non-negative size fetched for every id shown, with none reported missing |
| Paging.Index | src/backend/internal/mailcore/stalwart/read_adapter.go:195-201 | the index by id is built exactly when the ids are present and distinct |
| Paging.Gather | src/backend/internal/mailcore/stalwart/read_adapter.go:191-212 | summaries come in query order, each with the email fetched for its id, exactly when the reply is complete |
| Paging.HonestPage | src/backend/internal/mailcore/stalwart/read_adapter.go:163-223 | against a server that returns the requested slice, with emails in any order, the page is that of the plain list |
| Paging.PagesAreThePrefix | src/backend/internal/mailcore/stalwart/read_adapter.go:138-224 | following the cursors with any limits yields the list in order without gap or repeat, in pages of at most the limit, and stops exactly at its end |
| Paging.ServedPagesAreThePrefix | src/backend/internal/mailcore/stalwart/read_adapter.go:138-224 | what ListMessages answers along its own cursors, against an honest server, is the list in order without gap or repeat, and the last page has no cursor exactly when everything was shown |
| Paging.FollowedIff | src/backend/internal/mailcore/stalwart/read_adapter.go:145-156 | the next page is granted exactly when the limit is 1 to 50, position plus limit is within 10000 and the cursor is younger than ten minutes |
| Paging.WholeMailboxIff | src/backend/internal/mailcore/stalwart/read_adapter.go:154-156 | some walk reads the mailbox to its end exactly when it holds at most 10000 messages |
| MessageText.CutIsPrefix | src/backend/internal/mailcore/stalwart/read_adapter.go:275-276 | cutting valid text and dropping broken bytes gives a valid prefix at most three bytes short of the cut |
| MessageText.CutIsLongest | src/backend/internal/mailcore/stalwart/read_adapter.go:275-276 | no valid prefix within the cut is longer |
| MessageText.AssembleText | src/backend/internal/mailcore/stalwart/read_adapter.go:262-282 | fails exactly on a missing part reached before the text is full; otherwise the text is a valid prefix of the join of the parts it looked at, at most the limit plus one separator, the whole join exactly when that fits or only an empty last part follows a full text, never more than three bytes short of the limit, and marked truncated exactly when the join does not fit or a part was truncated; without missing parts the same holds of all parts |
| MessageText.MarkedThoughWhole | src/backend/internal/mailcore/stalwart/read_adapter.go:267-274 | a text is marked although nothing is missing exactly when no part was truncated, the last part is empty and the text with its last separator has reached the limit |
| MessageText.FullThenEmpty | src/backend/internal/mailcore/stalwart/read_adapter.go:267-274 | a full part followed by an empty one is returned whole and marked |
| Utf8.ValidIff | src/backend/internal/mailcore/stalwart/read_adapter.go:275-276 | the UTF-8 check accepts exactly the byte strings an encoder of Unicode text writes (section 3 of RFC 3629) |
| Utf8.EncodeInjective | src/backend/internal/mailcore/stalwart/read_adapter.go:275-276 | no two texts are encoded alike |
| Identity.NextKeepsInv | src/backend/internal/data/postgres/generated/identity.sql.go:15-24 | every login, resolve, touch, revoke and audit step keeps lifetimes, flow bounds and the match of sessions with flows and audits |
| IdentityRuns.SessionOutlives | src/backend/internal/data/postgres/generated/identity.sql.go:471-483 | owner, digest, creation and absolute expiry of a session never change, and the first revocation stands |
| IdentityRuns.RevokedForGood | src/backend/internal/data/postgres/generated/identity.sql.go:395-449 | a revoked session keeps its first revocation time and reason and is never active again |
| IdentityRuns.LogoutEnds | src/backend/internal/data/postgres/generated/identity.sql.go:395-449 | a logout ends exactly the session with that digest, the provider session of that issuer or every session of that issuer and subject: they never resolve again and keep their first revocation; every other session is left as it was |
| IdentityRuns.TouchWrites | src/backend/internal/data/postgres/generated/identity.sql.go:471-483 | recording a visit takes effect exactly on a session unrevoked and unexpired at that time, moves idle expiry to the timeout in whole microseconds from there or to the absolute expiry, and leaves every other session alone |
| IdentityRuns.DigestsDistinct | src/backend/migrations/00002_identity_authentication.sql:175 | in every reachable state a session digest stands for at most one session |
| IdentityRuns.ActiveIsYoung | src/backend/internal/data/postgres/generated/identity.sql.go:302-305 | no resolve succeeds eight hours after creation, thirty minutes after the last recorded visit, after a revocation or for a principal without access |
| IdentityRuns.ConsumedInTime | src/backend/internal/data/postgres/generated/identity.sql.go:15-24 | a flow is consumed with its own state and cookie, unused, between its creation and its expiry at most ten minutes later |
| IdentityRuns.ConsumedOnce | src/backend/internal/data/postgres/generated/identity.sql.go:15-24 | over any interleaving of completed and rejected callbacks a flow is consumed at most once |
| IdentityRuns.OneFlowPerSession | src/backend/internal/data/postgres/identity_repository.go:159-184 | in every reachable state sessions map injectively to consumed flows and one to one to login success audits of the same principal and time |
| IdentityRuns.IdleNeverBackIff | src/backend/internal/data/postgres/identity_repository.go:279-296 | under every timeout the repository accepts, idle expiry never moves back if and only if no touch lands that is older than the last recorded visit, or that comes too early after creation for the timeout to reach the granted half hour |
| IdentityRuns.IdleNeverBackDefault | src/backend/internal/data/postgres/identity_repository.go:279-296 | with the default timeout that leaves only touches older than the last recorded visit |
| IdentityRuns.ShortTimeoutShortens | src/backend/internal/data/postgres/identity_repository.go:33-38 | with a timeout of 20 minutes, a login and one visit five minutes later move idle expiry from minute 30 back to 25 |
| IdentityRuns.OverlapShortens | src/backend/internal/data/postgres/identity_repository.go:279-296 | two overlapping requests can move idle expiry from minute 45 back to 35, so that a resolve at minute 36 fails although a success at minute 15 should have kept the session until 40 |
| IdentityRuns.StaysSignedInIff | src/backend/internal/data/postgres/identity_repository.go:229-298 | under every accepted timeout, after a success at t an unrevoked, authorised session is usable at every time before t plus idle timeout less touch interval and before absolute expiry if and only if no touch has landed since, or the last one that landed is recent enough or reaches absolute expiry |
| IdentityRuns.StaysSignedIn | src/backend/internal/data/postgres/identity_repository.go:229-298 | in particular it stays usable that long when no stale touch lands in between |
| IdentityStore.Directory.ConsumeAuthFlow | src/backend/internal/data/postgres/generated/identity.sql.go:15-24 | consumes the one unused, unexpired flow with this state and cookie as one step, and nothing exactly when there is none |
| IdentityStore.Directory.CreateSessionWithAudit | src/backend/internal/data/postgres/identity_repository.go:159-184 | session and success audit appear together or not at all; a commit whose reply is lost leaves both and answers with an error |
| IdentityStore.Directory.CompleteLogin | src/backend/internal/identity/service.go:207-268 | a session appears exactly if this call consumed a flow, provider, principal and second factor check out and the commit goes through, heard or not; then exactly one, with its audit, as two steps of the identity machine; each failed check has its own answer; the flow is spent either way |
| IdentityStore.Directory.ResolveSession | src/backend/internal/data/postgres/identity_repository.go:229-298 | finds the session exactly when it is unrevoked, unexpired and authorised at the read and, if the touch interval has passed, still touchable when the second statement runs after whatever other requests did; it records the visit exactly then |
| IdentityStore.Directory.RevokeSessions | src/backend/internal/data/postgres/generated/identity.sql.go:395-449 | revokes exactly the selected unrevoked sessions and answers with their number |
| Bootstrap.ControlPlane.Apply | src/backend/internal/identity/testbootstrap/service.go:47-75 | commits the missing rows exactly when the whole fixture then verifies, reports whether anything changed, and otherwise leaves the tables alone; a failed commit changes nothing, one whose reply is lost has inserted the rows |
| Bootstrap.ControlPlane.Remove | src/backend/internal/identity/testbootstrap/service.go:78-118 | leaves a clean database alone, deletes exactly the fixture's rows when it is whole and alone in its tenant, and otherwise refuses; a failed commit changes nothing, one whose reply is lost has deleted the rows |
| Bootstrap.ApplyFresh | src/backend/internal/identity/testbootstrap/service.go:156-305 | on any database without footprint, Apply puts the whole fixture in place and erasing it gives the database back |
| Bootstrap.ApplyWrites | src/backend/internal/identity/testbootstrap/service.go:156-305 | row by row what Apply leaves on a clean database: tenant, domain, two mailboxes wanted active at revision 1, one pending operation and event, an active and a suspended user, two administrators who alone get the one permission, and no row for the unmapped subject |
| Bootstrap.VerifiedIff | src/backend/internal/identity/testbootstrap/service.go:308-575 | the fixture verifies exactly if its rows agree in their stable columns with what Apply writes into a bare database, its principals hold the same permissions and nobody has the unmapped subject |
| Bootstrap.ApplyAgain | src/backend/internal/identity/testbootstrap/service.go:156-305 | a fixture that verifies has nothing left to insert, so a repeated Apply changes nothing |
| Bootstrap.ActivityKeepsInPlace | src/backend/internal/identity/testbootstrap/service.go:308-409 | worker steps on any operation and sign-ins keep the fixture verifiable and removable |
| Bootstrap.RoundTrip | src/backend/internal/identity/testbootstrap/service.go:594-697 | after Apply and any interleaving of worker steps on the fixture operation and sign-ins, removal gives back the original tables up to the clock |
| Bootstrap.RoundTripAmong | src/backend/internal/identity/testbootstrap/service.go:594-697 | with workers on any operation, sign-ins and refused sign-ins going on, removal leaves the clean database moved by the same activities step for step, as if the fixture had never been there |
| Bootstrap.OtherWorkCommutes | src/backend/internal/identity/testbootstrap/service.go:634-662 | a worker step on another operation is the same step on the database without the fixture |
| Bootstrap.ErasedFits | src/backend/internal/identity/testbootstrap/service.go:665-697 | removing a fixture that is in place breaks no foreign key |
| Bootstrap.RowCounts | src/backend/internal/identity/testbootstrap/service.go:671-695 | every delete of a whole fixture affects exactly the number of rows it expects |

## Left out

- HTTP, TLS, JSON and JMAP decoding, session discovery and status-code mapping in the Stalwart adapter: only their outcomes appear, as replies, faults and lost replies.
- OIDC discovery, token exchange and signatures, and the cryptography of tokens, digests and derived passwords: abstract values or premises.
- `Runner.Run`: a loop that claims, executes and waits; each of its iterations is a `Take` and the steps of that job in `Convergence.Happens`, and its polling interval and shutdown add no property.
- URL and return-path checks, HTTP handlers, cookies, telemetry, configuration loading, deployment scripts and the front end: plumbing around the modelled logic.
- `GetOperation`, permissions and principal rows of a resolved session, `RejectLogin` and `Logout` as calls: they add only easy members; rejected callbacks and revocations are steps of the identity machine.
- Attachments of a message and their references: a bounds check and a copy.
- Manifest validation beyond the distinctness of ids, subjects and local parts, and the migration check before Apply: independent of the round trip.
