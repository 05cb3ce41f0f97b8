/** Every step keeps the ledger invariant, so every reachable state has it. */
module LedgerSafety {
  import opened Types
  import opened Ledger

  // ----------------------------------------------------------------- one operation's records

  lemma AbandonLast(op: Operation, rows: seq<Attempt>, at: Time, result: Status, error: string)
    requires RowsFit(op, rows) && op.status.Running?
    ensures var done := Abandon(rows, op.attemptCount, op.leaseEpoch, at, result, error);
            && |done| == |rows|
            && (forall i :: 0 <= i < |rows| - 1 ==> done[i] == rows[i])
            && done[|rows| - 1] ==
                 rows[|rows| - 1].(completedAt := Some(at), result := Some(result), error := Some(error))
  {
    assert OpenRow(rows[|rows| - 1], op.attemptCount, op.leaseEpoch);
  }

  lemma ClaimedRecordFits(maxAttempts: nat, now: Time, op: Operation, rows: seq<Attempt>, event: OutboxEvent,
                          owner: Uuid, leaseMicros: nat)
    requires RecordFits(maxAttempts, op, rows, event) && op.attemptCount < maxAttempts && !op.status.Terminal()
    ensures RecordFits(maxAttempts, ClaimedOperation(now, op, owner, leaseMicros),
                       ClaimedRows(now, op, rows, owner), DeliveredEvent(now, op.tenant, event))
  {
    if op.status.Running? {
      AbandonLast(op, rows, now, Unknown, LEASE_EXPIRED);
    }
  }

  lemma FinalizedRecordFits(maxAttempts: nat, now: Time, op: Operation, rows: seq<Attempt>, event: OutboxEvent,
                            outdated: bool)
    requires RecordFits(maxAttempts, op, rows, event) && !op.status.Terminal()
    ensures RecordFits(maxAttempts, FinalizedOperation(now, op, outdated),
                       FinalizedRows(now, op, rows, outdated), DeliveredEvent(now, op.tenant, event))
  {
    if op.status.Running? {
      AbandonLast(op, rows, now, FinalResult(outdated), FinalError(outdated));
    }
  }

  lemma ResolvedRecordFits(maxAttempts: nat, now: Time, op: Operation, rows: seq<Attempt>, event: OutboxEvent,
                           r: Resolution)
    requires RecordFits(maxAttempts, op, rows, event) && op.status.Running? && ValidResolution(r)
    requires op.leaseEpoch == r.leaseEpoch && op.attemptCount == r.attemptNumber
    requires op.leaseOwner == Some(r.leaseOwner)
    requires r.status.Succeeded? ==> Proves(ToEvidence(r.observation.value), op)
    ensures RecordFits(maxAttempts, ResolvedOperation(now, op, r), ResolvedRows(now, rows, r), event)
  {
    assert OwnRow(rows[|rows| - 1], r);
  }

  // ----------------------------------------------------------------- the other rows

  /** The step rewrites the moving columns of operation `id`, its attempts and its event, and nothing else. */
  ghost predicate MovesOnly(db: Db, db': Db, id: Uuid) {
    && id in db.operations && id in db'.operations && id in db.outbox && id in db'.outbox
    && db'.now == db.now && db'.domains == db.domains
    && db'.operations == db.operations[id := db'.operations[id]]
    && db'.outbox == db.outbox[id := db'.outbox[id]]
    && db'.attempts == db.attempts[id := Rows(db', id)]
    && var a, b := db.operations[id], db'.operations[id];
    && SameIntent(a, b) && !a.status.Terminal()
  }

  /** Mailboxes keep everything but their observation. */
  predicate MailboxesStay(a: map<Uuid, Mailbox>, b: map<Uuid, Mailbox>) {
    && a.Keys == b.Keys
    && forall m :: m in a ==> b[m] == a[m].(observedStatus := b[m].observedStatus, observed := b[m].observed)
  }

  lemma OperationsStillFit(db: Db, db': Db, maxAttempts: nat, id: Uuid)
    requires OperationsFit(db, maxAttempts)
    requires MovesOnly(db, db', id) && MailboxesStay(db.mailboxes, db'.mailboxes)
    requires RecordFits(maxAttempts, db'.operations[id], Rows(db', id), db'.outbox[id])
    ensures OperationsFit(db', maxAttempts)
  {
    hide RecordFits;
    forall i | i in db'.operations
      ensures OperationFits(db', maxAttempts, i)
    {
      assert OperationFits(db, maxAttempts, i);
      assert i != id ==> Rows(db', i) == Rows(db, i);
      assert JoinsFit(db', i);
    }
  }

  lemma UniquenessStays(db: Db, db': Db, id: Uuid)
    requires UniqueOperations(db.operations) && UniqueMailboxes(db.mailboxes)
    requires MovesOnly(db, db', id) && MailboxesStay(db.mailboxes, db'.mailboxes)
    ensures UniqueOperations(db'.operations) && UniqueMailboxes(db'.mailboxes)
  {
    forall i, j ensures !Clash(db'.operations, i, j) { assert !Clash(db.operations, i, j); }
    forall m, n ensures !SameAddress(db'.mailboxes, m, n) { assert !SameAddress(db.mailboxes, m, n); }
  }

  /** Succeeded operations stay as they are. */
  predicate SuccessesStay(db: Db, db': Db) {
    forall i :: i in db.operations && db.operations[i].status.Succeeded? ==>
      i in db'.operations && db'.operations[i] == db.operations[i]
  }

  /** A mailbox whose observation a step leaves alone keeps its backing operation. */
  lemma MailboxStillFits(db: Db, db': Db, m: Uuid)
    requires m in db.mailboxes && MailboxFits(db, m) && m in db'.mailboxes
    requires db'.mailboxes[m] == db.mailboxes[m].(desiredStatus := db'.mailboxes[m].desiredStatus)
    requires DomainJoined(db', db'.mailboxes[m])
    requires SuccessesStay(db, db')
    ensures MailboxFits(db', m)
  {
    if db'.mailboxes[m].observedStatus.ObservedActive? {
      var id :| Backs(db, id, m);
      assert Backs(db', id, m);
    }
  }

  lemma MailboxesStillFit(db: Db, db': Db, id: Uuid)
    requires MailboxesFit(db) && MailboxesStay(db.mailboxes, db'.mailboxes)
    requires db'.domains == db.domains && SuccessesStay(db, db')
    requires forall m :: m in db.mailboxes ==> db'.mailboxes[m] == db.mailboxes[m] || Backs(db', id, m)
    ensures MailboxesFit(db')
  {
    forall m | m in db'.mailboxes ensures MailboxFits(db', m) {
      assert MailboxFits(db, m);
      if !Backs(db', id, m) {
        MailboxStillFits(db, db', m);
      }
    }
  }

  // ----------------------------------------------------------------- the steps

  lemma MoveKeepsInv(db: Db, db': Db, maxAttempts: nat, id: Uuid)
    requires Inv(db, maxAttempts) && MovesOnly(db, db', id) && MailboxesStay(db.mailboxes, db'.mailboxes)
    requires RecordFits(maxAttempts, db'.operations[id], Rows(db', id), db'.outbox[id])
    requires forall m :: m in db.mailboxes ==> db'.mailboxes[m] == db.mailboxes[m] || Backs(db', id, m)
    ensures Inv(db', maxAttempts)
  {
    hide OperationsFit, MailboxesFit, RecordFits;
    assert SuccessesStay(db, db');
    OperationsStillFit(db, db', maxAttempts, id);
    UniquenessStays(db, db', id);
    MailboxesStillFit(db, db', id);
  }

  lemma Fits(db: Db, maxAttempts: nat, id: Uuid)
    requires Inv(db, maxAttempts) && id in db.operations
    ensures id in db.outbox && JoinsFit(db, id)
    ensures RecordFits(maxAttempts, db.operations[id], Rows(db, id), db.outbox[id])
  {
    assert OperationFits(db, maxAttempts, id);
  }

  lemma ClaimKeepsInv(db: Db, maxAttempts: nat, id: Uuid, owner: Uuid, leaseMicros: nat)
    requires Inv(db, maxAttempts) && Claimable(db, maxAttempts, id)
    ensures Inv(Claim(db, id, owner, leaseMicros), maxAttempts)
  {
    hide Inv, RecordFits;
    Fits(db, maxAttempts, id);
    ClaimedRecordFits(maxAttempts, db.now, db.operations[id], Rows(db, id), db.outbox[id], owner, leaseMicros);
    MoveKeepsInv(db, Claim(db, id, owner, leaseMicros), maxAttempts, id);
  }

  lemma FinalizeKeepsInv(db: Db, maxAttempts: nat, id: Uuid)
    requires Inv(db, maxAttempts) && Finalizable(db, maxAttempts, id)
    ensures Inv(Finalize(db, id), maxAttempts)
  {
    hide Inv, RecordFits;
    Fits(db, maxAttempts, id);
    FinalizedRecordFits(maxAttempts, db.now, db.operations[id], Rows(db, id), db.outbox[id],
                        Outdated(db, db.operations[id]));
    MoveKeepsInv(db, Finalize(db, id), maxAttempts, id);
  }

  lemma ResolveKeepsInv(db: Db, maxAttempts: nat, r: Resolution)
    requires Inv(db, maxAttempts) && Accepted(db, r)
    ensures Inv(Resolve(db, r), maxAttempts)
  {
    hide Inv, RecordFits;
    var id := r.operation;
    Fits(db, maxAttempts, id);
    ResolvedRecordFits(maxAttempts, db.now, db.operations[id], Rows(db, id), db.outbox[id], r);
    assert r.status.Succeeded? ==> Backs(Resolve(db, r), id, db.operations[id].mailbox);
    MoveKeepsInv(db, Resolve(db, r), maxAttempts, id);
  }

  lemma EnqueuedOperationsFit(db: Db, maxAttempts: nat, id: Uuid, event: Uuid, mailbox: Uuid, key: string, hash: Hash)
    requires OperationsFit(db, maxAttempts) && id !in db.operations && id != NIL
    requires mailbox in db.mailboxes && mailbox != NIL && MailboxFits(db, mailbox)
    ensures OperationsFit(Enqueue(db, id, event, db.mailboxes[mailbox].tenant, mailbox, key, hash,
                                  db.mailboxes[mailbox].revision), maxAttempts)
  {
    var db' := Enqueue(db, id, event, db.mailboxes[mailbox].tenant, mailbox, key, hash, db.mailboxes[mailbox].revision);
    assert Rows(db', id) == [];
    assert JoinsFit(db', id);
    forall i | i in db.operations ensures OperationFits(db', maxAttempts, i) {
      assert OperationFits(db, maxAttempts, i);
      assert JoinsFit(db', i);
      assert Rows(db', i) == Rows(db, i);
    }
  }

  lemma EnqueueKeepsInv(db: Db, maxAttempts: nat, id: Uuid, event: Uuid, mailbox: Uuid, key: string, hash: Hash)
    requires Inv(db, maxAttempts) && mailbox in db.mailboxes && mailbox != NIL && id !in db.operations && id != NIL
    requires KeyFree(db, db.mailboxes[mailbox].tenant, key)
    requires RevisionFree(db, mailbox, db.mailboxes[mailbox].revision)
    ensures Inv(Enqueue(db, id, event, db.mailboxes[mailbox].tenant, mailbox, key, hash,
                        db.mailboxes[mailbox].revision), maxAttempts)
  {
    var db' := Enqueue(db, id, event, db.mailboxes[mailbox].tenant, mailbox, key, hash, db.mailboxes[mailbox].revision);
    assert MailboxFits(db, mailbox);
    hide OperationsFit, MailboxesFit, MailboxFits, UniqueOperations, KeyFree, RevisionFree;
    EnqueuedOperationsFit(db, maxAttempts, id, event, mailbox, key, hash);
    MailboxesStillFit(db, db', id);
    EnqueuedUnique(db, id, event, mailbox, key, hash);
  }

  lemma EnqueuedUnique(db: Db, id: Uuid, event: Uuid, mailbox: Uuid, key: string, hash: Hash)
    requires UniqueOperations(db.operations) && mailbox in db.mailboxes && id !in db.operations
    requires KeyFree(db, db.mailboxes[mailbox].tenant, key)
    requires RevisionFree(db, mailbox, db.mailboxes[mailbox].revision)
    ensures UniqueOperations(Enqueue(db, id, event, db.mailboxes[mailbox].tenant, mailbox, key, hash,
                                     db.mailboxes[mailbox].revision).operations)
  {
    var db' := Enqueue(db, id, event, db.mailboxes[mailbox].tenant, mailbox, key, hash, db.mailboxes[mailbox].revision);
    forall i, j ensures !Clash(db'.operations, i, j) { assert !Clash(db.operations, i, j); }
  }

  lemma AddMailboxKeepsInv(db: Db, maxAttempts: nat, m: Uuid, mb: Mailbox)
    requires Inv(db, maxAttempts) && m !in db.mailboxes
    requires mb.tenant != NIL && mb.domain != NIL && mb.revision > 0 && DomainJoined(db, mb)
    requires mb.observedStatus.ObservedUnknown? && AddressFree(db, mb.domain, mb.localPart)
    ensures Inv(db.(mailboxes := db.mailboxes[m := mb]), maxAttempts)
  {
    var db' := db.(mailboxes := db.mailboxes[m := mb]);
    assert OperationsFit(db', maxAttempts) by {
      forall i | i in db'.operations ensures OperationFits(db', maxAttempts, i) {
        assert OperationFits(db, maxAttempts, i);
        assert JoinsFit(db', i);
      }
    }
    assert MailboxesFit(db') by {
      forall n | n in db.mailboxes ensures MailboxFits(db', n) {
        assert MailboxFits(db, n);
        MailboxStillFits(db, db', n);
      }
    }
    forall n, k ensures !SameAddress(db'.mailboxes, n, k) { assert !SameAddress(db.mailboxes, n, k); }
  }

  /** The environment moved the clock, the domains or the mailbox intents, and nothing else. */
  predicate Steady(db: Db, db': Db) {
    && db'.operations == db.operations && db'.attempts == db.attempts && db'.outbox == db.outbox
    && db.now <= db'.now
    && (forall d :: d in db.domains ==> d in db'.domains && db'.domains[d].tenant == db.domains[d].tenant)
    && db'.mailboxes.Keys == db.mailboxes.Keys
    && forall m :: m in db.mailboxes ==> MailboxSteady(db.mailboxes[m], db'.mailboxes[m])
  }

  predicate MailboxSteady(a: Mailbox, b: Mailbox) {
    || b == a.(desiredStatus := b.desiredStatus)
    || (b == a.(revision := b.revision, observedStatus := ObservedUnknown) && a.revision <= b.revision)
  }

  lemma SteadyOperationsFit(db: Db, maxAttempts: nat, db': Db)
    requires OperationsFit(db, maxAttempts) && Steady(db, db')
    ensures OperationsFit(db', maxAttempts)
  {
    forall i | i in db'.operations ensures OperationFits(db', maxAttempts, i) {
      assert OperationFits(db, maxAttempts, i);
      assert MailboxSteady(db.mailboxes[db.operations[i].mailbox], db'.mailboxes[db.operations[i].mailbox]);
      assert JoinsFit(db', i);
    }
  }

  lemma SteadyMailboxesFit(db: Db, db': Db)
    requires MailboxesFit(db) && Steady(db, db')
    ensures MailboxesFit(db')
  {
    forall m | m in db'.mailboxes ensures MailboxFits(db', m) {
      assert MailboxFits(db, m);
      assert MailboxSteady(db.mailboxes[m], db'.mailboxes[m]);
      if db'.mailboxes[m] == db.mailboxes[m].(desiredStatus := db'.mailboxes[m].desiredStatus) {
        MailboxStillFits(db, db', m);
      }
    }
  }

  lemma SteadyMailboxesUnique(db: Db, db': Db)
    requires UniqueMailboxes(db.mailboxes) && Steady(db, db')
    ensures UniqueMailboxes(db'.mailboxes)
  {
    forall m, n ensures !SameAddress(db'.mailboxes, m, n) {
      assert !SameAddress(db.mailboxes, m, n);
      if m in db.mailboxes && n in db.mailboxes {
        assert MailboxSteady(db.mailboxes[m], db'.mailboxes[m]);
        assert MailboxSteady(db.mailboxes[n], db'.mailboxes[n]);
      }
    }
  }

  lemma SteadyKeepsInv(db: Db, maxAttempts: nat, db': Db)
    requires Inv(db, maxAttempts) && Steady(db, db')
    ensures Inv(db', maxAttempts)
  {
    SteadyOperationsFit(db, maxAttempts, db');
    SteadyMailboxesFit(db, db');
    SteadyMailboxesUnique(db, db');
  }

  lemma RequestKeepsInv(maxAttempts: nat, db: Db, e: Event, db': Db)
    requires Inv(db, maxAttempts) && e.RequestEvent? && Next(maxAttempts, db, e, db')
    ensures Inv(db', maxAttempts)
  {
    var mb := NewMailbox(e.tenant, e.domain, e.localPart, e.displayName);
    AddMailboxKeepsInv(db, maxAttempts, e.mailbox, mb);
    forall i | i in db.operations ensures db.operations[i].mailbox != e.mailbox {
      assert OperationFits(db, maxAttempts, i);
    }
    EnqueueKeepsInv(db.(mailboxes := db.mailboxes[e.mailbox := mb]), maxAttempts, e.id, e.event, e.mailbox, e.key, e.hash);
  }

  lemma NextKeepsInv(maxAttempts: nat, db: Db, e: Event, db': Db)
    requires Inv(db, maxAttempts) && Next(maxAttempts, db, e, db')
    ensures Inv(db', maxAttempts)
  {
    hide Inv;
    match e
    case Tick(_) => SteadyKeepsInv(db, maxAttempts, db');
    case AdminEvent(_, _) => SteadyKeepsInv(db, maxAttempts, db');
    case ReviseEvent(_, _) => SteadyKeepsInv(db, maxAttempts, db');
    case DesireEvent(_, _) => SteadyKeepsInv(db, maxAttempts, db');
    case RequestEvent(_, _, _, _, _, _, _, _, _) => RequestKeepsInv(maxAttempts, db, e, db');
    case FollowUpEvent(id, event, mailbox, key, hash) =>
      EnqueueKeepsInv(db, maxAttempts, id, event, mailbox, key, hash);
    case ClaimEvent(id, owner, leaseMicros, _) => ClaimKeepsInv(db, maxAttempts, id, owner, leaseMicros);
    case FinalizeEvent(id, _) => FinalizeKeepsInv(db, maxAttempts, id);
    case ResolveEvent(r) => if Accepted(db, r) { ResolveKeepsInv(db, maxAttempts, r); }
  }
}
