/** The attempts table is a faithful log: what attempt rows, operation row and wake-up event say about
    one another, in every state of every run. */
module LedgerHistory {
  import opened Types
  import opened Ledger
  import opened LedgerSafety
  import opened LedgerRuns

  /** `b` is the attempt after `a`: it starts when `a` is over, from the status `a` left behind, or it
      took over from `a` at that very moment. */
  predicate Follows(a: Attempt, b: Attempt) {
    && a.completedAt.Some? && a.result.Some? && a.startedAt <= a.completedAt.value <= b.startedAt
    && (a.result.value.RetryWait? || a.result.value.Unknown?)
    && (|| b.priorStatus == a.result.value
        || (b.priorStatus.Running? && a.result.value.Unknown? && a.error == Some(LEASE_EXPIRED)
            && a.completedAt.value == b.startedAt))
  }

  /** The operation was closed without an attempt running. */
  predicate ClosedIdle(op: Operation) {
    (op.status.Dead? && op.lastError == Some(EXHAUSTED)) || (op.status.Superseded? && op.lastError == Some(SUPERSEDED))
  }

  /** The operation row agrees with its latest attempt. */
  predicate Ends(now: Time, op: Operation, row: Attempt) {
    && row.startedAt <= now
    && (row.completedAt.None? ==>
          && row.result.None? && row.error.None? && row.observed.None?
          && op.leaseExpiresAt.Some? && op.leaseExpiresAt.value > row.startedAt)
    && (row.completedAt.Some? ==>
          && row.result.Some? && row.startedAt <= row.completedAt.value <= now
          && (if row.result.value.RetryWait? || row.result.value.Unknown?
              then (op.status == row.result.value && op.lastError == row.error && op.nextAttemptAt > row.completedAt.value)
                   || ClosedIdle(op)
              else op.status == row.result.value && op.lastError == row.error && op.status.Terminal()))
  }

  /** The observation of the latest attempt that stored one. */
  function LastSeen(rows: seq<Attempt>): Option<Evidence> {
    if rows == [] then None
    else if rows[|rows| - 1].observed.Some? then rows[|rows| - 1].observed
    else LastSeen(rows[..|rows| - 1])
  }

  predicate Chronicle(now: Time, op: Operation, rows: seq<Attempt>, event: OutboxEvent) {
    && (forall i :: 0 <= i < |rows| - 1 ==> Follows(rows[i], rows[i + 1]))
    && (if rows == [] then op.status.Pending? || ClosedIdle(op)
        else
          && rows[0].priorStatus.Pending? && op.createdAt <= rows[0].startedAt
          && event.deliveredAt == Some(rows[0].startedAt)
          && Ends(now, op, rows[|rows| - 1]))
    && op.observed == LastSeen(rows)
    && op.createdAt <= now
  }

  lemma Later(now: Time, later: Time, op: Operation, rows: seq<Attempt>, event: OutboxEvent)
    requires Chronicle(now, op, rows, event) && now <= later
    ensures Chronicle(later, op, rows, event)
  {
  }

  lemma LastSeenLast(rows: seq<Attempt>, row: Attempt)
    ensures LastSeen(rows + [row]) == if row.observed.Some? then row.observed else LastSeen(rows)
  {
    assert (rows + [row])[..|rows|] == rows;
  }

  /** Only the last row is rewritten. */
  lemma RewriteLast(rows: seq<Attempt>, done: seq<Attempt>)
    requires rows != [] && |done| == |rows| && forall i :: 0 <= i < |rows| - 1 ==> done[i] == rows[i]
    requires rows[|rows| - 1].observed.None?
    ensures LastSeen(done) == if done[|rows| - 1].observed.Some? then done[|rows| - 1].observed else LastSeen(rows)
  {
    var n := |rows| - 1;
    assert done[..n] == rows[..n];
  }

  lemma ClaimChronicled(maxAttempts: nat, now: Time, op: Operation, rows: seq<Attempt>, event: OutboxEvent,
                        owner: Uuid, leaseMicros: nat)
    requires RecordFits(maxAttempts, op, rows, event) && Chronicle(now, op, rows, event)
    requires !op.status.Terminal() && leaseMicros > 0
    ensures Chronicle(now, ClaimedOperation(now, op, owner, leaseMicros), ClaimedRows(now, op, rows, owner),
                      DeliveredEvent(now, op.tenant, event))
  {
    var kept := if op.status.Running?
                then Abandon(rows, op.attemptCount, op.leaseEpoch, now, Unknown, LEASE_EXPIRED) else rows;
    if op.status.Running? {
      AbandonLast(op, rows, now, Unknown, LEASE_EXPIRED);
      RewriteLast(rows, kept);
    }
    var row := Attempt(op.attemptCount + 1, owner, op.leaseEpoch + 1, op.status, op.desiredRevision,
                       op.configurationHash, now, None, None, None, None);
    LastSeenLast(kept, row);
    hide LastSeen;
  }

  lemma FinalizeChronicled(maxAttempts: nat, now: Time, op: Operation, rows: seq<Attempt>, event: OutboxEvent,
                           outdated: bool)
    requires RecordFits(maxAttempts, op, rows, event) && Chronicle(now, op, rows, event) && !op.status.Terminal()
    ensures Chronicle(now, FinalizedOperation(now, op, outdated), FinalizedRows(now, op, rows, outdated),
                      DeliveredEvent(now, op.tenant, event))
  {
    if op.status.Running? {
      AbandonLast(op, rows, now, FinalResult(outdated), FinalError(outdated));
      RewriteLast(rows, FinalizedRows(now, op, rows, outdated));
    }
    hide LastSeen;
  }

  lemma ResolveChronicled(maxAttempts: nat, now: Time, op: Operation, rows: seq<Attempt>, event: OutboxEvent, r: Resolution)
    requires RecordFits(maxAttempts, op, rows, event) && Chronicle(now, op, rows, event)
    requires op.status.Running? && ValidResolution(r) && op.leaseOwner == Some(r.leaseOwner)
    requires op.leaseEpoch == r.leaseEpoch && op.attemptCount == r.attemptNumber
    ensures Chronicle(now, ResolvedOperation(now, op, r), ResolvedRows(now, rows, r), event)
  {
    hide ValidErrorCode;
    assert OwnRow(rows[|rows| - 1], r);
    RewriteLast(rows, ResolvedRows(now, rows, r));
    hide LastSeen;
  }

  // ----------------------------------------------------------------- every run

  predicate Recorded(db: Db, id: Uuid) {
    id in db.operations && id in db.outbox && Chronicle(db.now, db.operations[id], Rows(db, id), db.outbox[id])
  }

  predicate AllRecorded(db: Db) { forall id :: id in db.operations ==> Recorded(db, id) }

  lemma EventUntouched(maxAttempts: nat, db: Db, e: Event, db': Db, id: Uuid)
    requires Next(maxAttempts, db, e, db') && id in db.operations && id in db.outbox && !Touches(db, e, id)
    ensures id in db'.outbox && db'.outbox[id] == db.outbox[id] && db.now <= db'.now
  {
  }

  predicate Fitting(maxAttempts: nat, db: Db, id: Uuid) {
    Recorded(db, id) && RecordFits(maxAttempts, db.operations[id], Rows(db, id), db.outbox[id])
  }

  lemma RecordIsFitting(maxAttempts: nat, db: Db, id: Uuid)
    requires Inv(db, maxAttempts) && Recorded(db, id)
    ensures Fitting(maxAttempts, db, id)
  {
    hide Inv, Chronicle, RecordFits;
    KnownOperation(db, id);
    Fits(db, maxAttempts, id);
  }

  lemma KnownOperation(db: Db, id: Uuid)
    requires Recorded(db, id)
    ensures id in db.operations
  {
  }

  lemma ClaimRecorded(maxAttempts: nat, db: Db, id: Uuid, owner: Uuid, leaseMicros: nat)
    requires Fitting(maxAttempts, db, id) && !db.operations[id].status.Terminal() && leaseMicros > 0
    ensures Recorded(Claim(db, id, owner, leaseMicros), id)
  {
    hide Chronicle, RecordFits;
    ClaimChronicled(maxAttempts, db.now, db.operations[id], Rows(db, id), db.outbox[id], owner, leaseMicros);
  }

  lemma FinalizeRecorded(maxAttempts: nat, db: Db, id: Uuid)
    requires Fitting(maxAttempts, db, id) && !db.operations[id].status.Terminal() && Joined(db, db.operations[id])
    ensures Recorded(Finalize(db, id), id)
  {
    hide Chronicle, RecordFits;
    var op := db.operations[id];
    FinalizeChronicled(maxAttempts, db.now, op, Rows(db, id), db.outbox[id], Outdated(db, op));
  }

  lemma ResolveRecorded(maxAttempts: nat, db: Db, r: Resolution)
    requires Fitting(maxAttempts, db, r.operation) && ValidResolution(r) && Resolvable(db, r)
    ensures Recorded(Resolve(db, r), r.operation)
  {
    hide Chronicle, RecordFits, ValidResolution;
    var id := r.operation;
    ResolveChronicled(maxAttempts, db.now, db.operations[id], Rows(db, id), db.outbox[id], r);
  }

  lemma TouchRecorded(maxAttempts: nat, db: Db, e: Event, db': Db, id: Uuid)
    requires Inv(db, maxAttempts) && Next(maxAttempts, db, e, db') && Touches(db, e, id) && Recorded(db, id)
    ensures Recorded(db', id)
  {
    hide Inv, Recorded, ValidResolution, Fitting, Claim, Finalize, Resolve, ClaimBefore, FinalizeBefore;
    RecordIsFitting(maxAttempts, db, id);
    match e
    case ClaimEvent(_, owner, leaseMicros, _) => ClaimRecorded(maxAttempts, db, id, owner, leaseMicros);
    case FinalizeEvent(_, _) => FinalizeRecorded(maxAttempts, db, id);
    case ResolveEvent(r) => ResolveRecorded(maxAttempts, db, r);
  }

  lemma NoAttemptsYet(maxAttempts: nat, db: Db, id: Uuid)
    requires Inv(db, maxAttempts) && id !in db.operations
    ensures id !in db.attempts
  {
  }

  lemma CreatedRecorded(maxAttempts: nat, db: Db, e: Event, db': Db, id: Uuid)
    requires Inv(db, maxAttempts) && Next(maxAttempts, db, e, db') && id !in db.operations && id in db'.operations
    ensures Recorded(db', id)
  {
    hide Inv;
    NoAttemptsYet(maxAttempts, db, id);
    hide KeyFree, AddressFree, RevisionFree;
  }

  lemma NextKeepsRecord(maxAttempts: nat, db: Db, e: Event, db': Db)
    requires Inv(db, maxAttempts) && Next(maxAttempts, db, e, db') && AllRecorded(db)
    ensures AllRecorded(db')
  {
    hide Inv, Next, Chronicle, Touches;
    forall id | id in db'.operations ensures Recorded(db', id) {
      if id !in db.operations {
        CreatedRecorded(maxAttempts, db, e, db', id);
      } else if Touches(db, e, id) {
        TouchRecorded(maxAttempts, db, e, db', id);
      } else {
        assert Recorded(db, id);
        Untouched(maxAttempts, db, e, db', id);
        EventUntouched(maxAttempts, db, e, db', id);
        Later(db.now, db'.now, db.operations[id], Rows(db, id), db.outbox[id]);
      }
    }
  }

  /** In every state of every run the attempt rows of each operation form an unbroken log that explains its
      status, its last error, its stored observation and its wake-up. */
  lemma {:induction false} RunRecorded(maxAttempts: nat, ss: seq<Db>, es: seq<Event>, k: nat)
    requires Run(maxAttempts, ss, es) && Initial(ss[0]) && k < |ss|
    ensures AllRecorded(ss[k])
  {
    hide Inv, Next, Recorded;
    if k > 0 {
      RunRecorded(maxAttempts, ss, es, k - 1);
      RunInv(maxAttempts, ss, es, k - 1);
      NextKeepsRecord(maxAttempts, ss[k - 1], es[k - 1], ss[k]);
    }
  }
}
