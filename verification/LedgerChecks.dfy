/** The CHECK constraints of the schema, as the migrations state them.  No run ever reaches a row that breaks one, so no
    statement is ever refused for one. */
module LedgerChecks {
  import opened Types
  import opened Ledger
  import opened LedgerRuns

  /** ^[A-Z][A-Z0-9_]{2,63}$ */
  predicate CodeColumn(code: Option<string>) {
    code.Some? ==>
      && 3 <= |code.value| <= 64 && 'A' <= code.value[0] <= 'Z'
      && forall i :: 0 < i < |code.value| ==>
           'A' <= code.value[i] <= 'Z' || '0' <= code.value[i] <= '9' || code.value[i] == '_'
  }

  predicate SeenColumns(seen: Option<Evidence>) { seen.Some? ==> seen.value.revision >= 0 && seen.value.at != 0 }

  predicate OperationRow(op: Operation) {
    && op.desiredRevision > 0 && CodeColumn(op.lastError) && SeenColumns(op.observed)
    && (if op.status.Running? then op.leaseOwner.Some? && op.leaseExpiresAt.Some?
        else op.leaseOwner.None? && op.leaseExpiresAt.None?)
    && (op.status.Succeeded? ==>
          && op.observed.Some? && op.observed.value.status.Active?
          && op.observed.value.revision == op.desiredRevision && op.observed.value.hash == op.configurationHash)
  }

  predicate AttemptRow(now: Time, row: Attempt) {
    && row.number > 0 && row.epoch > 0 && row.desiredRevision > 0 && !row.priorStatus.Terminal() && row.startedAt <= now
    && CodeColumn(row.error) && SeenColumns(row.observed)
    && (if row.completedAt.None? then row.result.None? && row.error.None?
        else row.startedAt <= row.completedAt.value && row.result.Some?)
    && (row.result.Some? ==> !row.result.value.Pending? && !row.result.value.Running?)
    && (row.result == Some(Succeeded) ==> row.error.None?)
  }

  predicate MailboxRow(mb: Mailbox) {
    && mb.revision > 0 && SeenColumns(mb.observed)
    && (mb.observedStatus.ObservedActive? ==> mb.observed.Some? && mb.observed.value.revision == mb.revision)
  }

  predicate AttemptRows(now: Time, rows: seq<Attempt>) { forall i :: 0 <= i < |rows| ==> AttemptRow(now, rows[i]) }

  predicate Checks(db: Db) {
    && (forall id :: id in db.operations ==> OperationRow(db.operations[id]) && AttemptRows(db.now, Rows(db, id)))
    && (forall m :: m in db.mailboxes ==> MailboxRow(db.mailboxes[m]))
  }

  // ----------------------------------------------------------------- the statements

  lemma LeaseCodeFits()
    ensures CodeColumn(Some(LEASE_EXPIRED)) && CodeColumn(None)
  {
  }

  lemma FinalCodeFits(outdated: bool)
    ensures CodeColumn(Some(FinalError(outdated)))
  {
    if outdated {
      assert CodeColumn(Some(SUPERSEDED));
    } else {
      assert CodeColumn(Some(EXHAUSTED));
    }
  }

  lemma AbandonedRows(rows: seq<Attempt>, number: int, epoch: int, now: Time, result: Status, error: string)
    requires AttemptRows(now, rows) && CodeColumn(Some(error)) && (result.Unknown? || result.Superseded? || result.Dead?)
    ensures AttemptRows(now, Abandon(rows, number, epoch, now, result, error))
  {
    hide CodeColumn;
  }

  lemma ClaimedFits(now: Time, op: Operation, rows: seq<Attempt>, owner: Uuid, leaseMicros: nat)
    requires OperationRow(op) && AttemptRows(now, rows) && !op.status.Terminal()
    ensures OperationRow(ClaimedOperation(now, op, owner, leaseMicros)) && AttemptRows(now, ClaimedRows(now, op, rows, owner))
  {
    LeaseCodeFits();
    hide CodeColumn, Abandon;
    AbandonedRows(rows, op.attemptCount, op.leaseEpoch, now, Unknown, LEASE_EXPIRED);
  }

  lemma FinalizedFits(now: Time, op: Operation, rows: seq<Attempt>, outdated: bool)
    requires OperationRow(op) && AttemptRows(now, rows)
    ensures OperationRow(FinalizedOperation(now, op, outdated)) && AttemptRows(now, FinalizedRows(now, op, rows, outdated))
  {
    FinalCodeFits(outdated);
    hide CodeColumn, Abandon, FinalError;
    AbandonedRows(rows, op.attemptCount, op.leaseEpoch, now, FinalResult(outdated), FinalError(outdated));
  }

  lemma ReportFits(r: Resolution)
    requires ValidResolution(r)
    ensures CodeColumn(ErrorColumn(r.errorCode)) && SeenColumns(SeenEvidence(r))
    ensures r.status.Succeeded? ==> ErrorColumn(r.errorCode).None?
  {
  }

  lemma ResolvedFits(db: Db, r: Resolution)
    requires Accepted(db, r) && OperationRow(db.operations[r.operation]) && AttemptRows(db.now, Rows(db, r.operation))
    ensures OperationRow(ResolvedOperation(db.now, db.operations[r.operation], r))
    ensures AttemptRows(db.now, ResolvedRows(db.now, Rows(db, r.operation), r))
  {
    ReportFits(r);
    hide CodeColumn, SeenColumns, ValidErrorCode, ErrorColumn;
  }

  lemma ObservedFits(db: Db, r: Resolution)
    requires Accepted(db, r) && r.status.Succeeded? && MailboxRow(db.mailboxes[db.operations[r.operation].mailbox])
    ensures MailboxRow(db.mailboxes[db.operations[r.operation].mailbox].(observedStatus := ObservedActive, observed := SeenEvidence(r)))
  {
    ReportFits(r);
    hide CodeColumn;
  }

  // ----------------------------------------------------------------- every step

  lemma OperationStep(maxAttempts: nat, db: Db, e: Event, db': Db, id: Uuid)
    requires Checks(db) && Next(maxAttempts, db, e, db') && id in db'.operations
    requires db.attempts.Keys <= db.operations.Keys
    ensures OperationRow(db'.operations[id]) && AttemptRows(db.now, Rows(db', id))
  {
    if id !in db.operations {
      NewOperation(maxAttempts, db, e, db', id);
    } else if Touches(db, e, id) {
      hide MailboxRow;
      TouchedFits(maxAttempts, db, e, db', id);
    } else {
      hide Next, OperationRow, AttemptRows, MailboxRow;
      Untouched(maxAttempts, db, e, db', id);
    }
  }

  lemma TouchedFits(maxAttempts: nat, db: Db, e: Event, db': Db, id: Uuid)
    requires Next(maxAttempts, db, e, db') && id in db.operations && id in db'.operations && Touches(db, e, id)
    requires OperationRow(db.operations[id]) && AttemptRows(db.now, Rows(db, id))
    ensures OperationRow(db'.operations[id]) && AttemptRows(db.now, Rows(db', id))
  {
    hide OperationRow, AttemptRows, ClaimBefore, FinalizeBefore;
    if e.ClaimEvent? {
      ClaimedFits(db.now, db.operations[id], Rows(db, id), e.owner, e.leaseMicros);
    } else if e.FinalizeEvent? {
      FinalizedFits(db.now, db.operations[id], Rows(db, id), Outdated(db, db.operations[id]));
    } else {
      ResolvedFits(db, e.resolution);
    }
  }

  lemma MailboxStep(maxAttempts: nat, db: Db, e: Event, db': Db, m: Uuid)
    requires Checks(db) && Next(maxAttempts, db, e, db') && m in db'.mailboxes
    ensures MailboxRow(db'.mailboxes[m])
  {
    hide Next, OperationRow, AttemptRows, MailboxRow, Resolves;
    if m !in db.mailboxes {
      NewMailboxFits(maxAttempts, db, e, db', m);
    } else if Resolves(db, e, m) {
      SucceededMailbox(maxAttempts, db, e, db', m);
    } else {
      OtherMailboxes(maxAttempts, db, e, db', m);
    }
  }

  lemma NewMailboxFits(maxAttempts: nat, db: Db, e: Event, db': Db, m: Uuid)
    requires Next(maxAttempts, db, e, db') && m in db'.mailboxes && m !in db.mailboxes
    ensures MailboxRow(db'.mailboxes[m])
  {
    hide ClaimCandidate, FinalizeCandidate, ClaimedOperation, ClaimedRows, FinalizedOperation, FinalizedRows,
      ResolvedOperation, ResolvedRows, ValidResolution, Delivered;
    match e { case RequestEvent(_, _, _, _, _, _, _, _, _) => case ResolveEvent(_) => case _ => }
  }

  lemma SucceededMailbox(maxAttempts: nat, db: Db, e: Event, db': Db, m: Uuid)
    requires Next(maxAttempts, db, e, db') && m in db.mailboxes && Resolves(db, e, m) && MailboxRow(db.mailboxes[m])
    ensures m in db'.mailboxes && MailboxRow(db'.mailboxes[m])
  {
    hide MailboxRow, ValidResolution, OwnRow;
    ObservedFits(db, e.resolution);
  }

  /** A success report for mailbox `m` is accepted. */
  predicate Resolves(db: Db, e: Event, m: Uuid) {
    && e.ResolveEvent? && Accepted(db, e.resolution) && e.resolution.status.Succeeded?
    && db.operations[e.resolution.operation].mailbox == m
  }

  lemma OtherMailboxes(maxAttempts: nat, db: Db, e: Event, db': Db, m: Uuid)
    requires Next(maxAttempts, db, e, db') && m in db.mailboxes && !Resolves(db, e, m) && MailboxRow(db.mailboxes[m])
    ensures m in db'.mailboxes && MailboxRow(db'.mailboxes[m])
  {
    hide SeenColumns, ClaimCandidate, FinalizeCandidate, ClaimedOperation, ClaimedRows, FinalizedOperation, FinalizedRows,
      ResolvedOperation, ResolvedRows, ValidResolution, Delivered;
    match e { case ReviseEvent(_, _) => case DesireEvent(_, _) => case ResolveEvent(_) => case _ => }
  }

  lemma Later(now: Time, later: Time, rows: seq<Attempt>)
    requires AttemptRows(now, rows) && now <= later
    ensures AttemptRows(later, rows)
  {
    hide CodeColumn, SeenColumns;
  }

  lemma StepChecks(maxAttempts: nat, db: Db, e: Event, db': Db)
    requires Inv(db, maxAttempts) && Checks(db) && Next(maxAttempts, db, e, db')
    ensures Checks(db')
  {
    hide Inv, Next, OperationRow, AttemptRows, MailboxRow;
    Keys(db, maxAttempts);
    ClockGoesOn(maxAttempts, db, e, db');
    forall id | id in db'.operations ensures OperationRow(db'.operations[id]) && AttemptRows(db'.now, Rows(db', id)) {
      OperationStep(maxAttempts, db, e, db', id);
      Later(db.now, db'.now, Rows(db', id));
    }
    forall m | m in db'.mailboxes ensures MailboxRow(db'.mailboxes[m]) {
      MailboxStep(maxAttempts, db, e, db', m);
    }
  }

  lemma Keys(db: Db, maxAttempts: nat)
    requires Inv(db, maxAttempts)
    ensures db.attempts.Keys <= db.operations.Keys
  {
  }

  lemma ClockGoesOn(maxAttempts: nat, db: Db, e: Event, db': Db)
    requires Next(maxAttempts, db, e, db')
    ensures db.now <= db'.now
  {
  }

  /** In every state of every run, every row satisfies the constraints of its table. */
  lemma {:induction false} RunChecks(maxAttempts: nat, ss: seq<Db>, es: seq<Event>, k: nat)
    requires Run(maxAttempts, ss, es) && Initial(ss[0]) && k < |ss|
    ensures Checks(ss[k])
  {
    hide Inv, Next;
    if k > 0 {
      RunChecks(maxAttempts, ss, es, k - 1);
      RunInv(maxAttempts, ss, es, k - 1);
      hide Checks;
      StepChecks(maxAttempts, ss[k - 1], es[k - 1], ss[k]);
    }
  }

  lemma NewOperation(maxAttempts: nat, db: Db, e: Event, db': Db, id: Uuid)
    requires Next(maxAttempts, db, e, db') && id in db'.operations && id !in db.operations && id !in db.attempts
    requires forall m :: m in db.mailboxes ==> MailboxRow(db.mailboxes[m])
    ensures OperationRow(db'.operations[id]) && AttemptRows(db.now, Rows(db', id))
  {
  }
}
