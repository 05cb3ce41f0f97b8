/**
 What each ledger statement leaves in the rows, said of the rows themselves, and what follows for whole runs:
 retries wait as long as they were told to, and work is given up for the reason it carries.
 */
module LedgerEffects {
  import opened Types
  import opened Ledger
  import opened LedgerSafety
  import opened LedgerRuns

  /** Nothing but operation `id`, its attempts and its event differs. */
  predicate OthersSame(db: Db, db': Db, id: Uuid) {
    && db'.now == db.now && db'.tenants == db.tenants && db'.domains == db.domains
    && db'.operations.Keys == db.operations.Keys && db'.outbox.Keys == db.outbox.Keys
    && (forall o :: o in db.operations && o != id ==> db'.operations[o] == db.operations[o])
    && (forall o :: o in db.outbox && o != id ==> db'.outbox[o] == db.outbox[o])
    && (forall o :: o != id ==> Rows(db', o) == Rows(db, o))
  }

  // ----------------------------------------------------------------- claim

  /** The operation row after a claim. */
  predicate Leased(now: Time, op: Operation, op': Operation, owner: Uuid, leaseMicros: nat) {
    && SameIntent(op, op') && op'.status == Running && op'.attemptCount == op.attemptCount + 1
    && op'.leaseOwner == Some(owner) && op'.leaseEpoch == op.leaseEpoch + 1
    && op'.leaseExpiresAt == Some(now + 1000 * leaseMicros)
    && op'.nextAttemptAt == op.nextAttemptAt && op'.lastError == op.lastError && op'.observed == op.observed
  }

  /** The attempt row a claim inserts: it records the status it found. */
  predicate Opens(now: Time, op: Operation, op': Operation, owner: Uuid, row: Attempt) {
    && row.number == op'.attemptCount && row.epoch == op'.leaseEpoch && row.owner == owner
    && row.priorStatus == op.status && row.startedAt == now
    && row.desiredRevision == op.desiredRevision && row.configurationHash == op.configurationHash
    && row.completedAt.None? && row.result.None? && row.error.None? && row.observed.None?
  }

  /** The snapshot a worker gets agrees with the rows the claim leaves. */
  predicate Describes(db': Db, claimed: Claimed, owner: Uuid, row: Attempt) {
    && claimed.operation in db'.operations
    && var op := db'.operations[claimed.operation];
    && op.mailbox in db'.mailboxes && db'.mailboxes[op.mailbox].domain in db'.domains
    && var mb := db'.mailboxes[op.mailbox];
    && claimed.tenant == op.tenant == mb.tenant && claimed.mailbox == op.mailbox && claimed.domain == mb.domain
    && claimed.address == mb.localPart + "@" + db'.domains[mb.domain].name
    && claimed.desiredRevision == op.desiredRevision == row.desiredRevision
    && claimed.configurationHash == op.configurationHash == row.configurationHash
    && claimed.attemptNumber == op.attemptCount == row.number && claimed.priorStatus == row.priorStatus
    && claimed.leaseOwner == owner == row.owner && claimed.leaseEpoch == op.leaseEpoch == row.epoch
    && op.leaseExpiresAt == Some(claimed.leaseExpiresAt)
  }

  /** A claim leases the operation, closes the attempt it takes over, opens the next one and hands out a
      snapshot that agrees with those rows. */
  lemma ClaimWrites(maxAttempts: nat, db: Db, e: Event, db': Db)
    requires Next(maxAttempts, db, e, db') && e.ClaimEvent?
    ensures e.id in db.operations && e.id in db'.operations && OthersSame(db, db', e.id) && db'.mailboxes == db.mailboxes
    ensures Claimable(db, maxAttempts, e.id)
    ensures var op, op', rows, rows' := db.operations[e.id], db'.operations[e.id], Rows(db, e.id), Rows(db', e.id);
            && Leased(db.now, op, op', e.owner, e.leaseMicros)
            && |rows'| == |rows| + 1 && Opens(db.now, op, op', e.owner, rows'[|rows|])
            && Describes(db', ClaimedRow(db, e.id, e.owner, e.leaseMicros), e.owner, rows'[|rows|])
            && (!op.status.Running? ==> rows'[..|rows|] == rows)
            && forall i :: 0 <= i < |rows| ==> rows'[i].priorStatus == rows[i].priorStatus
  {
    hide ClaimBefore, Due;
    assert db' == Claim(db, e.id, e.owner, e.leaseMicros);
  }

  /** When a waiting operation is due, or a running one may be taken over. */
  function ReadyAt(op: Operation): Time {
    match op.status
    case Running => if op.leaseExpiresAt.Some? then op.leaseExpiresAt.value else op.nextAttemptAt
    case _ => op.nextAttemptAt
  }

  /** Which work can be claimed: what its mailbox still wants active at that revision, in a domain of its tenant, with
      attempts left, once its time has come or its lease is over. */
  lemma ClaimableIff(db: Db, maxAttempts: nat, id: Uuid)
    requires Inv(db, maxAttempts) && id in db.operations
    ensures Joined(db, db.operations[id])
    ensures var op := db.operations[id]; var mb := db.mailboxes[op.mailbox];
            Claimable(db, maxAttempts, id) <==>
              && !op.status.Terminal() && ReadyAt(op) <= db.now && op.attemptCount < maxAttempts
              && mb.desiredStatus.DesiredActive? && mb.revision == op.desiredRevision
              && mb.domain in db.domains && db.domains[mb.domain].tenant == op.tenant
  {
    Fits(db, maxAttempts, id);
  }

  /** The one that was ready first, then the one created first, then the one with the smaller id. */
  predicate ServedBefore(db: Db, i: Uuid, j: Uuid)
    requires i in db.operations && j in db.operations
  {
    var a, b := db.operations[i], db.operations[j];
    if ReadyAt(a) != ReadyAt(b) then ReadyAt(a) < ReadyAt(b)
    else if a.createdAt != b.createdAt then a.createdAt < b.createdAt
    else i < j
  }

  /** A claim serves the first of the claimable operations that are not locked, and one whose time has come. */
  lemma ClaimServesFirst(maxAttempts: nat, db: Db, e: Event, db': Db)
    requires Next(maxAttempts, db, e, db') && e.ClaimEvent?
    ensures e.id in db.operations && e.id !in e.locked && ReadyAt(db.operations[e.id]) <= db.now
    ensures forall o :: o in db.operations && o != e.id && o !in e.locked && Claimable(db, maxAttempts, o) ==>
              ServedBefore(db, e.id, o)
  {
    forall o | o in db.operations && o != e.id && o !in e.locked && Claimable(db, maxAttempts, o)
      ensures ServedBefore(db, e.id, o)
    {
      assert ClaimBefore(db, e.id, o);
    }
  }

  // ----------------------------------------------------------------- finalize

  /** The operation row after a finalize: superseded if its mailbox has moved on, dead if its attempts are used up. */
  predicate GivenUp(maxAttempts: nat, revision: nat, now: Time, op: Operation, op': Operation) {
    && SameIntent(op, op') && op'.attemptCount == op.attemptCount && op'.leaseEpoch == op.leaseEpoch
    && op'.leaseOwner.None? && op'.leaseExpiresAt.None? && op'.nextAttemptAt == now && op'.observed == op.observed
    && (op'.status.Superseded? <==> revision > op.desiredRevision)
    && (op'.status.Dead? <==> revision == op.desiredRevision && op.attemptCount >= maxAttempts)
    && (op'.status.Superseded? ==> op'.lastError == Some("OPERATION_REVISION_SUPERSEDED"))
    && (op'.status.Dead? ==> op'.lastError == Some("WORKER_ATTEMPTS_EXHAUSTED"))
    && (op'.status.Superseded? || op'.status.Dead?)
  }

  /** Work its mailbox has moved past goes first, then the one created first, then the one with the smaller id. */
  predicate GivenUpBefore(db: Db, i: Uuid, j: Uuid)
    requires i in db.operations && j in db.operations
    requires Joined(db, db.operations[i]) && Joined(db, db.operations[j])
  {
    var a, b := db.operations[i], db.operations[j];
    var oldA, oldB := db.mailboxes[a.mailbox].revision > a.desiredRevision, db.mailboxes[b.mailbox].revision > b.desiredRevision;
    if oldA != oldB then oldA
    else if a.createdAt != b.createdAt then a.createdAt < b.createdAt
    else i < j
  }

  /** A finalize takes the first of the operations to be given up that are not locked, and says why. */
  lemma FinalizeTakesFirst(maxAttempts: nat, db: Db, e: Event, db': Db)
    requires Next(maxAttempts, db, e, db') && e.FinalizeEvent?
    ensures e.id in db.operations && Joined(db, db.operations[e.id]) && e.id !in e.locked && e.id in db'.operations
    ensures forall o :: o in db.operations && o != e.id && o !in e.locked && Finalizable(db, maxAttempts, o) ==>
              Joined(db, db.operations[o]) && GivenUpBefore(db, e.id, o)
    ensures var op := db.operations[e.id];
            GivenUp(maxAttempts, db.mailboxes[op.mailbox].revision, db.now, op, db'.operations[e.id])
  {
    forall o | o in db.operations && o != e.id && o !in e.locked && Finalizable(db, maxAttempts, o)
      ensures Joined(db, db.operations[o]) && GivenUpBefore(db, e.id, o)
    {
      assert FinalizeBefore(db, e.id, o);
    }
  }

  /** A finalize gives the operation up for the right reason and closes its running attempt with it. */
  lemma FinalizeWrites(maxAttempts: nat, db: Db, e: Event, db': Db)
    requires Inv(db, maxAttempts) && Next(maxAttempts, db, e, db') && e.FinalizeEvent?
    ensures e.id in db.operations && e.id in db'.operations && OthersSame(db, db', e.id) && db'.mailboxes == db.mailboxes
    ensures Joined(db, db.operations[e.id])
    ensures var op, op', rows, rows' := db.operations[e.id], db'.operations[e.id], Rows(db, e.id), Rows(db', e.id);
            && GivenUp(maxAttempts, db.mailboxes[op.mailbox].revision, db.now, op, op')
            && |rows'| == |rows|
            && (!op.status.Running? ==> rows' == rows)
            && (op.status.Running? ==>
                  && |rows| > 0 && rows'[..|rows| - 1] == rows[..|rows| - 1]
                  && var last := rows'[|rows| - 1];
                     last.completedAt == Some(db.now) && last.result == Some(op'.status) && last.error == op'.lastError)
  {
    hide Inv;
    FinalizeIsStep(maxAttempts, db, e, db');
    hide Next;
    Fits(db, maxAttempts, e.id);
    FinalizableIff(db, maxAttempts, e.id);
    var op := db.operations[e.id];
    assert RowsFit(op, Rows(db, e.id)) && op.attemptCount <= maxAttempts && op.desiredRevision <= db.mailboxes[op.mailbox].revision;
    hide RecordFits, RowsFit, Finalizable, FinalizedOperation, FinalizedRows;
    FinalizeTouches(db, e.id);
    FinalizedRecord(maxAttempts, db.mailboxes[op.mailbox].revision, db.now, op, Rows(db, e.id));
  }

  lemma FinalizeIsStep(maxAttempts: nat, db: Db, e: Event, db': Db)
    requires Next(maxAttempts, db, e, db') && e.FinalizeEvent?
    ensures Finalizable(db, maxAttempts, e.id) && db' == Finalize(db, e.id)
  {
  }

  lemma FinalizeTouches(db: Db, id: Uuid)
    requires id in db.operations && Joined(db, db.operations[id])
    ensures var db', op := Finalize(db, id), db.operations[id];
            && OthersSame(db, db', id) && db'.mailboxes == db.mailboxes
            && db'.operations[id] == FinalizedOperation(db.now, op, Outdated(db, op))
            && Rows(db', id) == FinalizedRows(db.now, op, Rows(db, id), Outdated(db, op))
  {
    hide FinalizedOperation, FinalizedRows;
  }

  lemma FinalizedRecord(maxAttempts: nat, revision: nat, now: Time, op: Operation, rows: seq<Attempt>)
    requires RowsFit(op, rows) && op.attemptCount <= maxAttempts && op.desiredRevision <= revision
    requires revision > op.desiredRevision || op.attemptCount == maxAttempts
    ensures var outdated := revision > op.desiredRevision;
            var op', rows' := FinalizedOperation(now, op, outdated), FinalizedRows(now, op, rows, outdated);
            && GivenUp(maxAttempts, revision, now, op, op') && |rows'| == |rows|
            && (!op.status.Running? ==> rows' == rows)
            && (op.status.Running? ==>
                  && |rows| > 0 && rows'[..|rows| - 1] == rows[..|rows| - 1]
                  && var last := rows'[|rows| - 1];
                     last.completedAt == Some(now) && last.result == Some(op'.status) && last.error == op'.lastError)
  {
    if op.status.Running? {
      var outdated := revision > op.desiredRevision;
      AbandonLast(op, rows, now, FinalResult(outdated), FinalError(outdated));
    }
  }

  /** Which work can be given up: what its mailbox has moved past, at once; and what has used up its attempts, once its
      last lease is over. */
  lemma FinalizableIff(db: Db, maxAttempts: nat, id: Uuid)
    requires Inv(db, maxAttempts) && id in db.operations
    ensures Joined(db, db.operations[id])
    ensures var op := db.operations[id]; var revision := db.mailboxes[op.mailbox].revision;
            Finalizable(db, maxAttempts, id) <==>
              && !op.status.Terminal()
              && (revision > op.desiredRevision
                  || (op.attemptCount == maxAttempts
                      && (op.status.Running? ==> op.leaseExpiresAt.Some? && op.leaseExpiresAt.value <= db.now)))
  {
    Fits(db, maxAttempts, id);
  }

  /** What is marked superseded has been moved past by its mailbox, for good. */
  predicate SupersededIsOld(db: Db) {
    forall id :: id in db.operations && db.operations[id].status.Superseded? ==>
      Joined(db, db.operations[id]) && db.mailboxes[db.operations[id].mailbox].revision > db.operations[id].desiredRevision
  }

  lemma RevisionsGrow(maxAttempts: nat, db: Db, e: Event, db': Db, m: Uuid)
    requires Next(maxAttempts, db, e, db') && m in db.mailboxes
    ensures m in db'.mailboxes && db'.mailboxes[m].tenant == db.mailboxes[m].tenant
    ensures db.mailboxes[m].revision <= db'.mailboxes[m].revision
  {
  }

  lemma StepSuperseded(maxAttempts: nat, db: Db, e: Event, db': Db)
    requires Inv(db, maxAttempts) && Next(maxAttempts, db, e, db') && SupersededIsOld(db)
    ensures SupersededIsOld(db')
  {
    hide Inv, Next;
    forall id | id in db'.operations && db'.operations[id].status.Superseded?
      ensures Joined(db', db'.operations[id])
              && db'.mailboxes[db'.operations[id].mailbox].revision > db'.operations[id].desiredRevision
    {
      if id !in db.operations {
        Created(maxAttempts, db, e, db', id);
      } else if Touches(db, e, id) {
        TouchSuperseded(maxAttempts, db, e, db', id);
      } else {
        Untouched(maxAttempts, db, e, db', id);
        RevisionsGrow(maxAttempts, db, e, db', db.operations[id].mailbox);
      }
    }
  }

  lemma TouchSuperseded(maxAttempts: nat, db: Db, e: Event, db': Db, id: Uuid)
    requires Inv(db, maxAttempts) && Next(maxAttempts, db, e, db') && Touches(db, e, id)
    requires id in db'.operations && db'.operations[id].status.Superseded?
    ensures Joined(db', db'.operations[id])
    ensures db'.mailboxes[db'.operations[id].mailbox].revision > db'.operations[id].desiredRevision
  {
    hide Inv, Next;
    if e.FinalizeEvent? {
      FinalizeWrites(maxAttempts, db, e, db');
    } else if e.ClaimEvent? {
      ClaimWrites(maxAttempts, db, e, db');
    } else {
      ResolutionWrites(maxAttempts, db, e, db');
    }
  }

  /** In every state of every run, superseded work is work its mailbox has moved past. */
  lemma {:induction false} RunSuperseded(maxAttempts: nat, ss: seq<Db>, es: seq<Event>, k: nat)
    requires Run(maxAttempts, ss, es) && Initial(ss[0]) && k < |ss|
    ensures SupersededIsOld(ss[k])
  {
    hide Inv, Next;
    if k > 0 {
      RunSuperseded(maxAttempts, ss, es, k - 1);
      RunInv(maxAttempts, ss, es, k - 1);
      StepSuperseded(maxAttempts, ss[k - 1], es[k - 1], ss[k]);
    }
  }

  // ----------------------------------------------------------------- resolve

  predicate Retries(status: Status) { status.RetryWait? || status.Unknown? }

  predicate SameEvidence(e: Option<Evidence>, o: ObservedMailbox) {
    e.Some? && e.value.status == o.status && e.value.revision == o.revision && e.value.hash == o.hash
    && e.value.at == o.inspectedAt
  }

  /** The operation row after an accepted resolution: it takes the status, the error and the observation of the
      report, and a retry is due the reported delay from now, to the microsecond above. */
  predicate Reported(now: Time, op: Operation, op': Operation, r: Resolution) {
    && SameIntent(op, op') && op'.attemptCount == op.attemptCount && op'.leaseEpoch == op.leaseEpoch
    && op'.status == r.status && op'.leaseOwner.None? && op'.leaseExpiresAt.None?
    && op'.lastError == (if r.errorCode == "" then None else Some(r.errorCode))
    && (if r.observation.Some? then SameEvidence(op'.observed, r.observation.value) else op'.observed == op.observed)
    && (if Retries(r.status) then now + r.nextAttemptDelay <= op'.nextAttemptAt < now + r.nextAttemptDelay + 1000
        else op'.nextAttemptAt == now)
  }

  /** The attempt row it closes. */
  predicate Closes(now: Time, row: Attempt, row': Attempt, r: Resolution) {
    && row.completedAt.None? && row.owner == r.leaseOwner && row.epoch == r.leaseEpoch && row.number == r.attemptNumber
    && row' == row.(completedAt := Some(now), result := Some(r.status), error := row'.error, observed := row'.observed)
    && row'.error == (if r.errorCode == "" then None else Some(r.errorCode))
    && (if r.observation.Some? then SameEvidence(row'.observed, r.observation.value) else row'.observed.None?)
  }

  /** An accepted resolution moves the operation, its open attempt and, on success only, the mailbox's observation. */
  lemma ResolutionWrites(maxAttempts: nat, db: Db, e: Event, db': Db)
    requires Inv(db, maxAttempts) && Next(maxAttempts, db, e, db') && e.ResolveEvent? && Accepted(db, e.resolution)
    ensures var r := e.resolution; var id := r.operation;
            && id in db.operations && id in db'.operations && OthersSame(db, db', id) && db'.outbox == db.outbox
            && Reported(db.now, db.operations[id], db'.operations[id], r)
            && !r.status.Superseded?
            && |Rows(db', id)| == |Rows(db, id)| > 0
            && var n := |Rows(db, id)| - 1;
               Rows(db', id)[..n] == Rows(db, id)[..n] && Closes(db.now, Rows(db, id)[n], Rows(db', id)[n], r)
    ensures var r := e.resolution; var op := db.operations[r.operation];
            if r.status.Succeeded? then
              && op.mailbox in db.mailboxes && op.mailbox in db'.mailboxes && r.observation.Some?
              && db'.mailboxes == db.mailboxes[op.mailbox := db'.mailboxes[op.mailbox]]
              && var mb, mb' := db.mailboxes[op.mailbox], db'.mailboxes[op.mailbox];
                 mb' == mb.(observedStatus := ObservedActive, observed := mb'.observed)
                 && SameEvidence(mb'.observed, r.observation.value)
            else db'.mailboxes == db.mailboxes
  {
    hide Inv;
    var r := e.resolution;
    ResolveIsStep(maxAttempts, db, e, db');
    hide Next, Accepted;
    Fits(db, maxAttempts, r.operation);
    var op := db.operations[r.operation];
    assert RowsFit(op, Rows(db, r.operation));
    hide RecordFits, RowsFit, ValidResolution, ResolvedOperation, ResolvedRows;
    ResolveTouches(db, r);
    ResolvedRecord(db.now, op, Rows(db, r.operation), r);
  }

  lemma ResolveIsStep(maxAttempts: nat, db: Db, e: Event, db': Db)
    requires Next(maxAttempts, db, e, db') && e.ResolveEvent? && Accepted(db, e.resolution)
    ensures ValidResolution(e.resolution) && Resolvable(db, e.resolution) && db' == Resolve(db, e.resolution)
    ensures !e.resolution.status.Superseded?
  {
  }

  lemma ResolveTouches(db: Db, r: Resolution)
    requires Resolvable(db, r)
    ensures var db', op := Resolve(db, r), db.operations[r.operation];
            && OthersSame(db, db', r.operation) && db'.outbox == db.outbox
            && db'.operations[r.operation] == ResolvedOperation(db.now, op, r)
            && Rows(db', r.operation) == ResolvedRows(db.now, Rows(db, r.operation), r)
            && if r.status.Succeeded? then
                 && r.observation.Some?
                 && db'.mailboxes == db.mailboxes[op.mailbox := db'.mailboxes[op.mailbox]]
                 && var mb, mb' := db.mailboxes[op.mailbox], db'.mailboxes[op.mailbox];
                    mb' == mb.(observedStatus := ObservedActive, observed := mb'.observed)
                    && SameEvidence(mb'.observed, r.observation.value)
               else db'.mailboxes == db.mailboxes
  {
    hide ResolvedOperation, ResolvedRows;
  }

  lemma ReportedRow(now: Time, op: Operation, r: Resolution)
    requires ValidResolution(r)
    ensures Reported(now, op, ResolvedOperation(now, op, r), r)
  {
    hide ValidErrorCode;
  }

  lemma ResolvedRecord(now: Time, op: Operation, rows: seq<Attempt>, r: Resolution)
    requires RowsFit(op, rows) && ValidResolution(r) && op.status.Running? && op.leaseOwner == Some(r.leaseOwner)
    requires op.leaseEpoch == r.leaseEpoch && op.attemptCount == r.attemptNumber
    ensures Reported(now, op, ResolvedOperation(now, op, r), r)
    ensures var rows' := ResolvedRows(now, rows, r); var n := |rows| - 1;
            |rows'| == |rows| > 0 && rows'[..n] == rows[..n] && Closes(now, rows[n], rows'[n], r)
  {
    hide ValidErrorCode;
    assert OwnRow(rows[|rows| - 1], r);
  }

  // ----------------------------------------------------------------- retries wait

  lemma {:induction false} ClockRuns(maxAttempts: nat, ss: seq<Db>, es: seq<Event>, i: nat, k: nat)
    requires Run(maxAttempts, ss, es) && i <= k < |ss|
    ensures ss[i].now <= ss[k].now
  {
    hide Inv, Next;
    if i < k {
      ClockRuns(maxAttempts, ss, es, i, k - 1);
      ClockSteps(maxAttempts, ss[k - 1], es[k - 1], ss[k]);
    }
  }

  lemma ClockSteps(maxAttempts: nat, db: Db, e: Event, db': Db)
    requires Next(maxAttempts, db, e, db')
    ensures db.now <= db'.now
  {
  }

  /** The resolution at step `i` is accepted and asks for another attempt. */
  predicate AsksRetry(ss: seq<Db>, es: seq<Event>, i: nat, id: Uuid) {
    && i < |es| < |ss| && es[i].ResolveEvent? && es[i].resolution.operation == id
    && Accepted(ss[i], es[i].resolution) && Retries(es[i].resolution.status)
  }

  /** From an accepted retry until the operation is touched again, its row stays and it is due exactly from its
      retry time on, which is the reported delay later, to the microsecond above. */
  lemma RetryTime(maxAttempts: nat, ss: seq<Db>, es: seq<Event>, id: Uuid, i: nat, k: nat)
    requires Run(maxAttempts, ss, es) && AsksRetry(ss, es, i, id) && i < k < |ss|
    requires forall m :: i < m < k ==> !Touches(ss[m], es[m], id)
    ensures id in ss[k].operations
    ensures var op := ss[k].operations[id]; var d := es[i].resolution.nextAttemptDelay;
            && op.status == es[i].resolution.status && Retries(op.status)
            && ss[i].now + d <= op.nextAttemptAt < ss[i].now + d + 1000
            && (Due(ss[k], op) <==> op.nextAttemptAt <= ss[k].now)
            && (ss[k].now < ss[i].now + d ==> !Due(ss[k], op))
            && (ss[k].now >= ss[i].now + d + 1000 ==> Due(ss[k], op))
  {
    hide Inv, Next, Accepted;
    RunInv(maxAttempts, ss, es, i);
    ResolutionWrites(maxAttempts, ss[i], es[i], ss[i + 1]);
    Undisturbed(maxAttempts, ss, es, id, i + 1, k);
  }

  /** No claim of the operation comes before its reported delay is over, whatever else happens. */
  lemma RetryWaits(maxAttempts: nat, ss: seq<Db>, es: seq<Event>, id: Uuid, i: nat, k: nat)
    requires Run(maxAttempts, ss, es) && AsksRetry(ss, es, i, id) && i < k < |es|
    requires es[k].ClaimEvent? && es[k].id == id
    ensures ss[k].now >= ss[i].now + es[i].resolution.nextAttemptDelay
  {
    FirstTouch(maxAttempts, ss, es, id, i, i + 1, k);
  }

  lemma {:induction false} FirstTouch(maxAttempts: nat, ss: seq<Db>, es: seq<Event>, id: Uuid, i: nat, m: nat, k: nat)
    requires Run(maxAttempts, ss, es) && AsksRetry(ss, es, i, id) && i < m <= k < |es|
    requires es[k].ClaimEvent? && es[k].id == id && forall n :: i < n < m ==> !Touches(ss[n], es[n], id)
    ensures ss[k].now >= ss[i].now + es[i].resolution.nextAttemptDelay
    decreases k - m
  {
    hide Inv, Next, Accepted, Due, AsksRetry;
    RetryTime(maxAttempts, ss, es, id, i, m);
    if Touches(ss[m], es[m], id) {
      ClockRuns(maxAttempts, ss, es, m, k);
      RunInv(maxAttempts, ss, es, m);
      if es[m].ClaimEvent? {
        ClaimIsDue(maxAttempts, ss[m], es[m], ss[m + 1]);
      } else {
        TouchedElsewise(maxAttempts, ss, es, id, i, m, k);
      }
    } else {
      FirstTouch(maxAttempts, ss, es, id, i, m + 1, k);
    }
  }

  lemma ClaimIsDue(maxAttempts: nat, db: Db, e: Event, db': Db)
    requires Next(maxAttempts, db, e, db') && e.ClaimEvent?
    ensures e.id in db.operations && Due(db, db.operations[e.id]) && !db.operations[e.id].status.Terminal()
  {
  }

  /** Waiting work that is touched but not claimed is given up, and is never claimed again. */
  lemma TouchedElsewise(maxAttempts: nat, ss: seq<Db>, es: seq<Event>, id: Uuid, i: nat, m: nat, k: nat)
    requires Run(maxAttempts, ss, es) && m < k < |es| && Touches(ss[m], es[m], id) && !es[m].ClaimEvent?
    requires id in ss[m].operations && Retries(ss[m].operations[id].status)
    ensures !(es[k].ClaimEvent? && es[k].id == id)
  {
    hide Inv, Next;
    RunInv(maxAttempts, ss, es, m);
    TouchMoves(maxAttempts, ss[m], es[m], ss[m + 1], id);
    TerminalStays(maxAttempts, ss, es, id, m + 1, k);
    if es[k].ClaimEvent? && es[k].id == id {
      ClaimIsDue(maxAttempts, ss[k], es[k], ss[k + 1]);
    }
  }
}
