/**
 The mailbox operation ledger: the rows of the control-plane tables, the three SQL
 statements that move an operation, and the invariant they keep.  Each statement is one
 atomic step on the whole database; `now` is the database clock.
 */
module Ledger {
  import opened Types

  datatype Status = Pending | Running | RetryWait | Unknown | Succeeded | Failed | Dead | Superseded {
    predicate Terminal() { Succeeded? || Failed? || Dead? || Superseded? }
    predicate Waiting() { Pending? || RetryWait? || Unknown? }
  }

  /** What mail-core reported for a mailbox. */
  datatype MailboxStatus = Absent | Active | Suspended
  datatype DesiredStatus = DesiredActive | DesiredSuspended | DesiredDeleted
  datatype ObservedStatus = ObservedUnknown | ObservedActive

  datatype Evidence = Evidence(status: MailboxStatus, revision: int, hash: Hash, at: Time)

  datatype Domain = Domain(tenant: Uuid, name: string, active: bool)

  datatype Mailbox = Mailbox(
    tenant: Uuid,
    domain: Uuid,
    localPart: string,
    displayName: Option<string>,
    desiredStatus: DesiredStatus,
    revision: nat,
    observedStatus: ObservedStatus,
    observed: Option<Evidence>)

  datatype Operation = Operation(
    tenant: Uuid,
    mailbox: Uuid,
    key: string,
    requestHash: Hash,
    desiredRevision: nat,
    configurationHash: Hash,
    createdAt: Time,
    status: Status,
    attemptCount: nat,
    nextAttemptAt: Time,
    leaseOwner: Option<Uuid>,
    leaseEpoch: nat,
    leaseExpiresAt: Option<Time>,
    lastError: Option<string>,
    observed: Option<Evidence>)

  datatype Attempt = Attempt(
    number: nat,
    owner: Uuid,
    epoch: nat,
    priorStatus: Status,
    desiredRevision: nat,
    configurationHash: Hash,
    startedAt: Time,
    completedAt: Option<Time>,
    result: Option<Status>,
    error: Option<string>,
    observed: Option<Evidence>)

  datatype DeliveryStatus = EventPending | EventProcessing | EventDelivered | EventDead

  datatype OutboxEvent = OutboxEvent(
    id: Uuid,
    tenant: Uuid,
    status: DeliveryStatus,
    attempts: nat,
    deliveredAt: Option<Time>)

  /** The tables.  `attempts` keeps the rows of each operation in insertion order, and
      `outbox` is keyed by operation because outbox_events.operation_id is unique. */
  datatype Db = Db(
    now: Time,
    tenants: map<Uuid, bool>,
    domains: map<Uuid, Domain>,
    mailboxes: map<Uuid, Mailbox>,
    operations: map<Uuid, Operation>,
    attempts: map<Uuid, seq<Attempt>>,
    outbox: map<Uuid, OutboxEvent>)

  datatype ObservedMailbox = ObservedMailbox(
    mailbox: Uuid,
    status: MailboxStatus,
    revision: int,
    hash: Hash,
    inspectedAt: Time)

  /** The execution snapshot a successful claim hands to a worker. */
  datatype Claimed = Claimed(
    operation: Uuid,
    tenant: Uuid,
    mailbox: Uuid,
    domain: Uuid,
    address: string,
    desiredRevision: nat,
    configurationHash: Hash,
    attemptNumber: nat,
    priorStatus: Status,
    leaseOwner: Uuid,
    leaseEpoch: nat,
    leaseExpiresAt: Time)

  /** The result of one attempt, as a worker submits it. */
  datatype Resolution = Resolution(
    operation: Uuid,
    attemptNumber: int,
    leaseOwner: Uuid,
    leaseEpoch: int,
    desiredRevision: int,
    status: Status,
    nextAttemptDelay: int,
    errorCode: string,
    observation: Option<ObservedMailbox>)

  const LEASE_EXPIRED := "WORKER_LEASE_EXPIRED"
  const SUPERSEDED := "OPERATION_REVISION_SUPERSEDED"
  const EXHAUSTED := "WORKER_ATTEMPTS_EXHAUSTED"

  // ----------------------------------------------------------------- reading the tables

  function Rows(db: Db, id: Uuid): seq<Attempt> {
    if id in db.attempts then db.attempts[id] else []
  }

  /** The operation's mailbox row joins it on id and tenant. */
  predicate Joined(db: Db, op: Operation) {
    op.mailbox in db.mailboxes && db.mailboxes[op.mailbox].tenant == op.tenant
  }

  /** The mailbox's domain row joins it on id and tenant. */
  predicate DomainJoined(db: Db, mb: Mailbox) {
    mb.domain in db.domains && db.domains[mb.domain].tenant == mb.tenant
  }

  /** The ORDER BY time of a claim candidate. */
  function DueAt(op: Operation): Time {
    if op.status.Running? && op.leaseExpiresAt.Some? then op.leaseExpiresAt.value else op.nextAttemptAt
  }

  predicate Due(db: Db, op: Operation) {
    || (op.status.Waiting() && op.nextAttemptAt <= db.now)
    || (op.status.Running? && op.leaseExpiresAt.Some? && op.leaseExpiresAt.value <= db.now)
  }

  /** The WHERE clause of claimMailboxOperation. */
  predicate Claimable(db: Db, maxAttempts: nat, id: Uuid) {
    id in db.operations &&
    var op := db.operations[id];
    Joined(db, op) &&
    var mb := db.mailboxes[op.mailbox];
    && DomainJoined(db, mb)
    && mb.desiredStatus.DesiredActive?
    && mb.revision == op.desiredRevision
    && op.attemptCount < maxAttempts
    && Due(db, op)
  }

  predicate TimesBefore(a: Time, b: Time, c: Time, d: Time, i: Uuid, j: Uuid) {
    a < b || (a == b && (c < d || (c == d && i < j)))
  }

  /** ORDER BY of the claim statement: due time, creation time, id. */
  predicate ClaimBefore(db: Db, i: Uuid, j: Uuid)
    requires i in db.operations && j in db.operations
  {
    var a, b := db.operations[i], db.operations[j];
    TimesBefore(DueAt(a), DueAt(b), a.createdAt, b.createdAt, i, j)
  }

  /** `id` is the row the claim statement locks; rows held by other transactions are skipped. */
  predicate ClaimCandidate(db: Db, maxAttempts: nat, locked: set<Uuid>, id: Uuid) {
    && id !in locked
    && Claimable(db, maxAttempts, id)
    && forall other | other in db.operations && other != id && other !in locked ::
         Claimable(db, maxAttempts, other) ==> ClaimBefore(db, id, other)
  }

  predicate Outdated(db: Db, op: Operation)
    requires Joined(db, op)
  {
    db.mailboxes[op.mailbox].revision > op.desiredRevision
  }

  /** The WHERE clause of finalizeMailboxOperationBeforeClaim. */
  predicate Finalizable(db: Db, maxAttempts: nat, id: Uuid) {
    id in db.operations &&
    var op := db.operations[id];
    && Joined(db, op)
    && !op.status.Terminal()
    && (|| Outdated(db, op)
        || (&& db.mailboxes[op.mailbox].revision == op.desiredRevision
            && op.attemptCount >= maxAttempts
            && (op.status.Waiting() || (op.leaseExpiresAt.Some? && op.leaseExpiresAt.value <= db.now))))
  }

  /** ORDER BY of the finalize statement: superseded work first, then creation time and id. */
  predicate FinalizeBefore(db: Db, i: Uuid, j: Uuid)
    requires i in db.operations && j in db.operations
    requires Joined(db, db.operations[i]) && Joined(db, db.operations[j])
  {
    var a, b := db.operations[i], db.operations[j];
    TimesBefore(if Outdated(db, a) then 0 else 1, if Outdated(db, b) then 0 else 1,
                a.createdAt, b.createdAt, i, j)
  }

  predicate FinalizeCandidate(db: Db, maxAttempts: nat, locked: set<Uuid>, id: Uuid) {
    && id !in locked
    && Finalizable(db, maxAttempts, id)
    && forall other | other in db.operations && other != id && other !in locked ::
         Finalizable(db, maxAttempts, other) ==> FinalizeBefore(db, id, other)
  }

  // ----------------------------------------------------------------- writing the tables

  predicate OpenRow(row: Attempt, number: int, epoch: int) {
    row.number == number && row.epoch == epoch && row.completedAt.None?
  }

  /** Claim and finalize close the open row with this number and epoch, whoever owned it. */
  function Abandon(rows: seq<Attempt>, number: int, epoch: int, at: Time, result: Status,
                   error: string): seq<Attempt>
  {
    seq(|rows|, i requires 0 <= i < |rows| =>
      if OpenRow(rows[i], number, epoch)
      then rows[i].(completedAt := Some(at), result := Some(result), error := Some(error))
      else rows[i])
  }

  /** The delivered_wakeup part of claim and finalize. */
  function DeliveredEvent(now: Time, tenant: Uuid, event: OutboxEvent): OutboxEvent {
    if event.tenant == tenant && (event.status.EventPending? || event.status.EventProcessing?)
    then event.(status := EventDelivered, attempts := event.attempts + 1, deliveredAt := Some(now))
    else event
  }

  function Delivered(db: Db, id: Uuid, tenant: Uuid): map<Uuid, OutboxEvent> {
    if id in db.outbox then db.outbox[id := DeliveredEvent(db.now, tenant, db.outbox[id])] else db.outbox
  }

  function ClaimedOperation(now: Time, op: Operation, owner: Uuid, leaseMicros: nat): Operation {
    op.(status := Running,
        attemptCount := op.attemptCount + 1,
        leaseOwner := Some(owner),
        leaseEpoch := op.leaseEpoch + 1,
        leaseExpiresAt := Some(now + leaseMicros * MICROSECOND))
  }

  /** A claim closes the expired attempt it takes over and opens the next one. */
  function ClaimedRows(now: Time, op: Operation, rows: seq<Attempt>, owner: Uuid): seq<Attempt> {
    var kept := if op.status.Running?
                then Abandon(rows, op.attemptCount, op.leaseEpoch, now, Unknown, LEASE_EXPIRED)
                else rows;
    kept + [Attempt(op.attemptCount + 1, owner, op.leaseEpoch + 1, op.status,
                    op.desiredRevision, op.configurationHash, now, None, None, None, None)]
  }

  /** The claim statement applied to candidate `id`. */
  function Claim(db: Db, id: Uuid, owner: Uuid, leaseMicros: nat): Db
    requires id in db.operations
  {
    var op := db.operations[id];
    db.(operations := db.operations[id := ClaimedOperation(db.now, op, owner, leaseMicros)],
        attempts := db.attempts[id := ClaimedRows(db.now, op, Rows(db, id), owner)],
        outbox := Delivered(db, id, op.tenant))
  }

  /** The row the claim statement returns. */
  function ClaimedRow(db: Db, id: Uuid, owner: Uuid, leaseMicros: nat): Claimed
    requires id in db.operations && Joined(db, db.operations[id])
    requires DomainJoined(db, db.mailboxes[db.operations[id].mailbox])
  {
    var op := db.operations[id];
    var mb := db.mailboxes[op.mailbox];
    Claimed(id, op.tenant, op.mailbox, mb.domain, mb.localPart + "@" + db.domains[mb.domain].name,
            op.desiredRevision, op.configurationHash, op.attemptCount + 1, op.status, owner,
            op.leaseEpoch + 1, db.now + leaseMicros * MICROSECOND)
  }

  function FinalResult(outdated: bool): Status { if outdated then Superseded else Dead }

  function FinalError(outdated: bool): string { if outdated then SUPERSEDED else EXHAUSTED }

  function FinalizedOperation(now: Time, op: Operation, outdated: bool): Operation {
    op.(status := FinalResult(outdated), nextAttemptAt := now, leaseOwner := None, leaseExpiresAt := None,
        lastError := Some(FinalError(outdated)))
  }

  function FinalizedRows(now: Time, op: Operation, rows: seq<Attempt>, outdated: bool): seq<Attempt> {
    if op.status.Running?
    then Abandon(rows, op.attemptCount, op.leaseEpoch, now, FinalResult(outdated), FinalError(outdated))
    else rows
  }

  /** The finalize statement applied to candidate `id`. */
  function Finalize(db: Db, id: Uuid): Db
    requires id in db.operations && Joined(db, db.operations[id])
  {
    var op := db.operations[id];
    db.(operations := db.operations[id := FinalizedOperation(db.now, op, Outdated(db, op))],
        attempts := db.attempts[id := FinalizedRows(db.now, op, Rows(db, id), Outdated(db, op))],
        outbox := Delivered(db, id, op.tenant))
  }

  /** Rounds a positive duration up to whole microseconds; others count as none. */
  function Microseconds(duration: int): (micros: nat)
    ensures duration <= micros * MICROSECOND
    ensures duration > 0 ==> 0 < micros && micros * MICROSECOND < duration + MICROSECOND
    ensures duration <= 0 ==> micros == 0
  {
    if duration <= 0 then 0
    else duration / MICROSECOND + (if duration % MICROSECOND != 0 then 1 else 0)
  }

  function ToEvidence(o: ObservedMailbox): Evidence {
    Evidence(o.status, o.revision, o.hash, o.inspectedAt)
  }

  /** The observation proves that `op` is in force. */
  predicate Proves(e: Evidence, op: Operation) {
    e.status.Active? && e.revision == op.desiredRevision && e.hash == op.configurationHash
  }

  /** The fence: the candidate conditions of resolveMailboxOperation. */
  predicate Resolvable(db: Db, r: Resolution) {
    r.operation in db.operations &&
    var op := db.operations[r.operation];
    && Joined(db, op)
    && op.status.Running?
    && op.leaseOwner == Some(r.leaseOwner)
    && op.leaseEpoch == r.leaseEpoch
    && op.attemptCount == r.attemptNumber
    && op.desiredRevision == r.desiredRevision
    && op.leaseExpiresAt.Some? && op.leaseExpiresAt.value > db.now
    && (r.observation.Some? ==> r.observation.value.mailbox == op.mailbox)
    && (r.status.Succeeded? ==>
          && r.observation.Some?
          && Proves(ToEvidence(r.observation.value), op)
          && db.mailboxes[op.mailbox].revision == op.desiredRevision
          && db.mailboxes[op.mailbox].desiredStatus.DesiredActive?)
  }

  /** The statement's `applied` column: the operation row and an attempt row both changed. */
  predicate Applies(db: Db, r: Resolution) {
    && Resolvable(db, r)
    && exists i :: 0 <= i < |Rows(db, r.operation)| && OwnRow(Rows(db, r.operation)[i], r)
  }

  function ErrorColumn(code: string): Option<string> {
    if code == "" then None else Some(code)
  }

  function SeenEvidence(r: Resolution): Option<Evidence> {
    if r.observation.Some? then Some(ToEvidence(r.observation.value)) else None
  }

  function ResolvedOperation(now: Time, op: Operation, r: Resolution): Operation {
    op.(status := r.status,
        nextAttemptAt := if r.status.RetryWait? || r.status.Unknown?
                         then now + Microseconds(r.nextAttemptDelay) * MICROSECOND else now,
        leaseOwner := None, leaseExpiresAt := None,
        lastError := ErrorColumn(r.errorCode),
        observed := if r.observation.Some? then SeenEvidence(r) else op.observed)
  }

  /** The attempt row a resolution closes: open, with its number and epoch, and of its owner. */
  predicate OwnRow(row: Attempt, r: Resolution) {
    OpenRow(row, r.attemptNumber, r.leaseEpoch) && row.owner == r.leaseOwner
  }

  function ResolvedRows(now: Time, rows: seq<Attempt>, r: Resolution): seq<Attempt> {
    seq(|rows|, i requires 0 <= i < |rows| =>
      if OwnRow(rows[i], r)
      then rows[i].(completedAt := Some(now), result := Some(r.status), error := ErrorColumn(r.errorCode),
                    observed := SeenEvidence(r))
      else rows[i])
  }

  /** The resolve statement on a resolution that passes the fence. */
  function Resolve(db: Db, r: Resolution): Db
    requires Resolvable(db, r)
  {
    var op := db.operations[r.operation];
    var mb := db.mailboxes[op.mailbox];
    db.(operations := db.operations[r.operation := ResolvedOperation(db.now, op, r)],
        attempts := db.attempts[r.operation := ResolvedRows(db.now, Rows(db, r.operation), r)],
        mailboxes := if r.status.Succeeded?
                     then db.mailboxes[op.mailbox := mb.(observedStatus := ObservedActive, observed := SeenEvidence(r))]
                     else db.mailboxes)
  }

  /** A mailbox intent: one operation and its wake-up event for an existing mailbox. */
  function Enqueue(db: Db, id: Uuid, event: Uuid, tenant: Uuid, mailbox: Uuid, key: string,
                   hash: Hash, revision: nat): Db
  {
    db.(operations := db.operations[id := Operation(tenant, mailbox, key, hash, revision, hash, db.now,
                                                    Pending, 0, db.now, None, 0, None, None, None)],
        outbox := db.outbox[id := OutboxEvent(event, tenant, EventPending, 0, None)])
  }

  function NewMailbox(tenant: Uuid, domain: Uuid, localPart: string, displayName: string): Mailbox {
    Mailbox(tenant, domain, localPart, if displayName == "" then None else Some(displayName),
            DesiredActive, 1, ObservedUnknown, None)
  }

  /** The columns fixed when an operation is created. */
  predicate SameIntent(a: Operation, b: Operation) {
    && a.tenant == b.tenant && a.mailbox == b.mailbox && a.key == b.key && a.requestHash == b.requestHash
    && a.desiredRevision == b.desiredRevision && a.configurationHash == b.configurationHash
    && a.createdAt == b.createdAt
  }

  // ----------------------------------------------------------------- the transition relation

  datatype Event =
    | Tick(elapsed: nat)
    | AdminEvent(tenants: map<Uuid, bool>, domains: map<Uuid, Domain>)
    | RequestEvent(mailbox: Uuid, id: Uuid, event: Uuid, tenant: Uuid, domain: Uuid,
                   localPart: string, displayName: string, key: string, hash: Hash)
    | FollowUpEvent(id: Uuid, event: Uuid, mailbox: Uuid, key: string, hash: Hash)
    | ReviseEvent(mailbox: Uuid, revision: nat)
    | DesireEvent(mailbox: Uuid, status: DesiredStatus)
    | ClaimEvent(id: Uuid, owner: Uuid, leaseMicros: nat, locked: set<Uuid>)
    | FinalizeEvent(id: Uuid, locked: set<Uuid>)
    | ResolveEvent(resolution: Resolution)

  predicate KeyFree(db: Db, tenant: Uuid, key: string) {
    forall id :: id in db.operations ==> !(db.operations[id].tenant == tenant && db.operations[id].key == key)
  }

  predicate AddressFree(db: Db, domain: Uuid, localPart: string) {
    forall m :: m in db.mailboxes ==> !(db.mailboxes[m].domain == domain && db.mailboxes[m].localPart == localPart)
  }

  predicate RevisionFree(db: Db, mailbox: Uuid, revision: nat) {
    forall id :: id in db.operations ==>
      !(db.operations[id].mailbox == mailbox && db.operations[id].desiredRevision == revision)
  }

  /** Stable error codes accepted by the ledger: [A-Z][A-Z0-9_]{2,63}. */
  predicate ValidErrorCode(code: string) {
    && 3 <= |code| <= 64
    && 'A' <= code[0] <= 'Z'
    && forall i :: 1 <= i < |code| ==> 'A' <= code[i] <= 'Z' || '0' <= code[i] <= '9' || code[i] == '_'
  }

  /** The repository's own check on a resolution before it opens a transaction. */
  predicate ValidResolution(r: Resolution) {
    && r.operation != NIL && r.leaseOwner != NIL
    && r.leaseEpoch > 0 && 0 < r.attemptNumber <= MAX_INT32 && r.desiredRevision > 0
    && (r.status.Succeeded? || r.status.Failed? || r.status.Dead? || r.status.RetryWait? || r.status.Unknown?)
    && ((r.status.RetryWait? || r.status.Unknown?) == (r.nextAttemptDelay > 0))
    && (r.status.Terminal() ==> r.nextAttemptDelay == 0)
    && (if r.status.Succeeded? then r.errorCode == "" && r.observation.Some? else ValidErrorCode(r.errorCode))
    && (r.observation.Some? ==>
          && r.observation.value.mailbox != NIL
          && r.observation.value.revision >= 0
          && r.observation.value.inspectedAt != 0)
  }

  /** A submitted resolution takes effect. */
  predicate Accepted(db: Db, r: Resolution) {
    ValidResolution(r) && Applies(db, r)
  }

  /** One step of the control plane or of its environment. */
  predicate Next(maxAttempts: nat, db: Db, e: Event, db': Db) {
    match e
    case Tick(elapsed) => db' == db.(now := db.now + elapsed)
    case AdminEvent(tenants, domains) =>
      && (forall d :: d in db.domains ==>
            d in domains && domains[d].tenant == db.domains[d].tenant && domains[d].name == db.domains[d].name)
      && db' == db.(tenants := tenants, domains := domains)
    case RequestEvent(mailbox, id, event, tenant, domain, localPart, displayName, key, hash) =>
      && mailbox !in db.mailboxes && mailbox != NIL && id !in db.operations && id != NIL
      && tenant != NIL && domain != NIL
      && domain in db.domains && db.domains[domain].tenant == tenant
      && KeyFree(db, tenant, key) && AddressFree(db, domain, localPart)
      && db' == Enqueue(db.(mailboxes := db.mailboxes[mailbox := NewMailbox(tenant, domain, localPart, displayName)]),
                        id, event, tenant, mailbox, key, hash, 1)
    case FollowUpEvent(id, event, mailbox, key, hash) =>
      && mailbox in db.mailboxes && mailbox != NIL && id !in db.operations && id != NIL
      && var mb := db.mailboxes[mailbox];
      && KeyFree(db, mb.tenant, key)
      && RevisionFree(db, mailbox, mb.revision)
      && db' == Enqueue(db, id, event, mb.tenant, mailbox, key, hash, mb.revision)
    case ReviseEvent(mailbox, revision) =>
      && mailbox in db.mailboxes && db.mailboxes[mailbox].revision < revision
      && db' == db.(mailboxes := db.mailboxes[mailbox :=
                      db.mailboxes[mailbox].(revision := revision, observedStatus := ObservedUnknown)])
    case DesireEvent(mailbox, status) =>
      && mailbox in db.mailboxes
      && db' == db.(mailboxes := db.mailboxes[mailbox := db.mailboxes[mailbox].(desiredStatus := status)])
    case ClaimEvent(id, owner, leaseMicros, locked) =>
      && owner != NIL && leaseMicros > 0
      && ClaimCandidate(db, maxAttempts, locked, id)
      && db' == Claim(db, id, owner, leaseMicros)
    case FinalizeEvent(id, locked) =>
      && FinalizeCandidate(db, maxAttempts, locked, id)
      && db' == Finalize(db, id)
    case ResolveEvent(r) =>
      db' == if Accepted(db, r) then Resolve(db, r) else db
  }

  // ----------------------------------------------------------------- the invariant

  /** The attempt rows of one operation: numbered 1..n with matching epochs, all closed
      except the last one of a running operation, which its lease owner started. */
  predicate RowsFit(op: Operation, rows: seq<Attempt>) {
    && |rows| == op.attemptCount == op.leaseEpoch
    && (forall i :: 0 <= i < |rows| ==>
          && rows[i].number == i + 1 && rows[i].epoch == i + 1
          && rows[i].desiredRevision == op.desiredRevision
          && rows[i].configurationHash == op.configurationHash
          && rows[i].completedAt.Some? == rows[i].result.Some?
          && (rows[i].completedAt.None? <==> op.status.Running? && i == |rows| - 1))
    && (op.status.Running? ==> |rows| > 0 && op.leaseOwner == Some(rows[|rows| - 1].owner))
  }

  /** The wake-up event is pending exactly while nobody has touched the operation, and is
      delivered at most once. */
  predicate EventFits(op: Operation, event: OutboxEvent) {
    && event.tenant == op.tenant
    && (op.status.Pending? ==> op.attemptCount == 0)
    && (if op.status.Pending? then event.status.EventPending? && event.attempts == 0 && event.deliveredAt.None?
        else event.status.EventDelivered? && event.attempts == 1 && event.deliveredAt.Some?)
  }

  /** An operation row agrees with its attempt rows and its event. */
  predicate RecordFits(maxAttempts: nat, op: Operation, rows: seq<Attempt>, event: OutboxEvent) {
    && 0 < op.desiredRevision
    && op.attemptCount <= maxAttempts
    && (op.status.Running? <==> op.leaseOwner.Some?)
    && (op.status.Running? <==> op.leaseExpiresAt.Some?)
    && RowsFit(op, rows)
    && EventFits(op, event)
    && (op.status.Succeeded? ==> op.observed.Some? && Proves(op.observed.value, op))
  }

  /** An operation row agrees with the rows it joins. */
  predicate JoinsFit(db: Db, id: Uuid)
    requires id in db.operations
  {
    var op := db.operations[id];
    && id != NIL && op.tenant != NIL && op.mailbox != NIL
    && Joined(db, op)
    && op.desiredRevision <= db.mailboxes[op.mailbox].revision
    && op.createdAt <= db.now
  }

  predicate OperationFits(db: Db, maxAttempts: nat, id: Uuid)
    requires id in db.operations
  {
    && JoinsFit(db, id)
    && id in db.outbox
    && RecordFits(maxAttempts, db.operations[id], Rows(db, id), db.outbox[id])
  }

  /** `id` is the succeeded operation behind an active mailbox. */
  predicate Backs(db: Db, id: Uuid, mailbox: Uuid)
    requires mailbox in db.mailboxes
  {
    id in db.operations &&
    var op, mb := db.operations[id], db.mailboxes[mailbox];
    && op.mailbox == mailbox && op.status.Succeeded?
    && op.desiredRevision == mb.revision
    && mb.observed.Some? && Proves(mb.observed.value, op)
  }

  ghost predicate MailboxFits(db: Db, mailbox: Uuid)
    requires mailbox in db.mailboxes
  {
    var mb := db.mailboxes[mailbox];
    && mb.revision > 0 && mb.tenant != NIL && mb.domain != NIL && DomainJoined(db, mb)
    && (mb.observedStatus.ObservedActive? ==> exists id :: Backs(db, id, mailbox))
  }

  /** Two operations share an idempotency key, or a mailbox revision. */
  predicate Clash(operations: map<Uuid, Operation>, i: Uuid, j: Uuid) {
    && i in operations && j in operations && i != j
    && (|| (operations[i].tenant == operations[j].tenant && operations[i].key == operations[j].key)
        || (operations[i].mailbox == operations[j].mailbox
            && operations[i].desiredRevision == operations[j].desiredRevision))
  }

  ghost predicate UniqueOperations(operations: map<Uuid, Operation>) {
    forall i, j :: !Clash(operations, i, j)
  }

  /** Two mailboxes share an address. */
  predicate SameAddress(mailboxes: map<Uuid, Mailbox>, m: Uuid, n: Uuid) {
    && m in mailboxes && n in mailboxes && m != n
    && mailboxes[m].domain == mailboxes[n].domain && mailboxes[m].localPart == mailboxes[n].localPart
  }

  ghost predicate UniqueMailboxes(mailboxes: map<Uuid, Mailbox>) {
    forall m, n :: !SameAddress(mailboxes, m, n)
  }

  predicate OperationsFit(db: Db, maxAttempts: nat) {
    && (forall id :: id in db.operations ==> OperationFits(db, maxAttempts, id))
    && db.attempts.Keys <= db.operations.Keys
    && db.outbox.Keys == db.operations.Keys
  }

  ghost predicate MailboxesFit(db: Db) {
    forall m :: m in db.mailboxes ==> MailboxFits(db, m)
  }

  ghost predicate Inv(db: Db, maxAttempts: nat) {
    && OperationsFit(db, maxAttempts)
    && MailboxesFit(db)
    && UniqueOperations(db.operations)
    && UniqueMailboxes(db.mailboxes)
  }

  /** A freshly migrated control plane: domains may exist, no mailbox work does. */
  predicate Initial(db: Db) {
    db.mailboxes == map[] && db.operations == map[] && db.attempts == map[] && db.outbox == map[]
  }
}
