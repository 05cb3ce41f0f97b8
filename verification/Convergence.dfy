/**
 The whole system: many workers claim operations from one ledger and drive one mail server over a
 network that loses replies, delays calls and lets workers crash.  Every interleaving of their steps
 is a run.
 */
module Convergence {
  import opened Types
  import opened Ledger
  import opened Worker
  import opened Marker
  import opened MailCore

  // ----------------------------------------------------------------- state

  /** Where an Execute call stands.  `Awaiting` has sent a set call and has no reply yet. */
  datatype Phase =
    | Fresh
    | Inspecting
    | Reading
    | Awaiting(call: nat)
    | Confirming
    | Submitting(resolution: Resolution)

  datatype Job = Job(claimed: Claimed, deadline: int, phase: Phase)

  datatype CallState = InFlight | Landed | Refused

  /** A set call on its way to the server, or there.  It outlives the job that sent it. */
  datatype SetCall = SetCall(
    operation: Uuid,
    epoch: nat,
    address: string,
    create: bool,
    meta: Metadata,
    deadline: int,
    state: CallState)

  datatype World = World(
    db: Db,
    accounts: map<string, Slot>,
    jobs: map<nat, Job>,
    calls: map<nat, SetCall>)

  /** Timed: calls land before their deadline or never.  Untimed: calls may land arbitrarily late. */
  datatype Policy = Timed | Untimed

  // ----------------------------------------------------------------- steps

  function LeaseMicros(c: Config): nat { Microseconds(c.leaseDuration as int) }

  function LeaseTime(c: Config): nat { LeaseMicros(c) * MICROSECOND }

  /** The worker's configuration; workers differ in their owner id only. */
  function Own(c: Config, claimed: Claimed): Config { c.(owner := claimed.leaseOwner) }

  function MarkerOf(claimed: Claimed): Metadata {
    Metadata(claimed.mailbox, claimed.domain, claimed.operation, claimed.desiredRevision, claimed.configurationHash)
  }

  function ToPhase(move: Move): Phase {
    match move
    case InspectFirst => Inspecting
    case CallEnsure => Reading
    case InspectAfter => Confirming
    case Submit(r) => Submitting(r)
  }

  /** The reply of an inspect: an error, or the state of the account before the deadline. */
  predicate Answers(w: World, job: Job, fault: Option<AdapterError>, reply: Inspection) {
    if fault.Some? then reply == InspectFailed(fault.value)
    else
      && w.db.now < job.deadline
      && reply == Truth(SlotAt(w.accounts, job.claimed.address), job.claimed.mailbox, job.claimed.domain, w.db.now)
  }

  predicate MarkerFree(accounts: map<string, Slot>, mailbox: Uuid) {
    forall a :: a in accounts && accounts[a].Managed? ==> accounts[a].meta.mailbox != mailbox
  }

  datatype Happening =
    | LedgerStep(event: Event)
    | Take(job: nat, event: Event)
    | Start(job: nat, context: Option<Time>)
    | Look(job: nat, fault: Option<AdapterError>, reply: Inspection)
    | Examine(job: nat, call: nat, fault: Option<AdapterError>)
    | Arrival(call: nat)
    | Hear(job: nat)
    | Miss(job: nat, error: AdapterError)
    | Confirm(job: nat, fault: Option<AdapterError>, reply: Inspection)
    | Report(job: nat)
    | Crash(job: nat)

  /** A step inside an Execute call. */
  predicate InJob(h: Happening) {
    h.Start? || h.Look? || h.Examine? || h.Hear? || h.Miss? || h.Confirm?
  }

  /** EnsureMailbox up to its set call: read the account, judge it, and send if it is behind. */
  predicate Examined(c: Config, w: World, h: Happening, w': World)
    requires ValidConfig(c) && h.Examine? && h.job in w.jobs && w.jobs[h.job].claimed.leaseOwner != NIL
  {
    var job := w.jobs[h.job];
    var own := Own(c, job.claimed);
    var verdict := Judge(SlotAt(w.accounts, job.claimed.address), MarkerOf(job.claimed));
    if h.fault.Some? then
      w' == w.(jobs := w.jobs[h.job := job.(phase :=
                 ToPhase(AfterEnsure(own, job.claimed, EnsureFailed(h.fault.value))))])
    else
      && w.db.now < job.deadline
      && match verdict {
           case Conflict =>
             w' == w.(jobs := w.jobs[h.job := job.(phase :=
                        ToPhase(AfterEnsure(own, job.claimed,
                                            EnsureFailed(AdapterError(Permanent, RESOURCE_CONFLICT)))))])
           case InForce =>
             w' == w.(jobs := w.jobs[h.job := job.(phase := ToPhase(AfterEnsure(own, job.claimed, Ensured)))])
           case Newer =>
             w' == w.(jobs := w.jobs[h.job := job.(phase := ToPhase(AfterEnsure(own, job.claimed, Ensured)))])
           case _ =>
             && h.call !in w.calls
             && w' == w.(jobs := w.jobs[h.job := job.(phase := Awaiting(h.call))],
                         calls := w.calls[h.call :=
                           SetCall(job.claimed.operation, job.claimed.leaseEpoch, job.claimed.address,
                                   verdict.MustCreate?, MarkerOf(job.claimed), job.deadline, InFlight)])
         }
  }

  /** A set call reaches the server. */
  function Arrived(w: World, call: nat): World
    requires call in w.calls
  {
    var s := w.calls[call];
    var before := SlotAt(w.accounts, s.address);
    var after := Land(before, s.create, s.meta);
    w.(accounts := w.accounts[s.address := after],
       calls := w.calls[call := s.(state := if s.create == before.Vacant? then Landed else Refused)])
  }

  predicate MayLand(p: Policy, now: Time, s: SetCall) {
    s.state.InFlight? && (p.Untimed? || now < s.deadline)
  }

  /** The ledger moves without a worker: time passes, intents arrive, dead work is finalized. */
  predicate LedgerMoves(c: Config, w: World, e: Event, w': World) {
    && !e.ClaimEvent? && !e.ResolveEvent?
    && (e.RequestEvent? ==> MarkerFree(w.accounts, e.mailbox))
    && Next(c.maxAttempts, w.db, e, w'.db)
    && w' == w.(db := w'.db)
  }

  /** A worker claims an operation. */
  predicate JobTaken(c: Config, w: World, j: nat, e: Event, w': World) {
    && j !in w.jobs && e.ClaimEvent? && e.leaseMicros == LeaseMicros(c)
    && Next(c.maxAttempts, w.db, e, w'.db)
    && w' == w.(db := w'.db, jobs := w.jobs[j := Job(ClaimedRow(w.db, e.id, e.owner, e.leaseMicros), 0, Fresh)])
  }

  /** A worker submits its report and is done, whether or not the fence lets it through. */
  predicate JobReported(c: Config, w: World, j: nat, w': World) {
    && j in w.jobs && w.jobs[j].phase.Submitting?
    && Next(c.maxAttempts, w.db, ResolveEvent(w.jobs[j].phase.resolution), w'.db)
    && w' == w.(db := w'.db, jobs := w.jobs - {j})
  }

  /** One step of the system. */
  predicate Happens(c: Config, p: Policy, w: World, h: Happening, w': World)
    requires ValidConfig(c)
  {
    match h
    case LedgerStep(e) => LedgerMoves(c, w, e, w')
    case Take(j, e) => JobTaken(c, w, j, e, w')
    case Report(j) => JobReported(c, w, j, w')
    case Crash(j) => j in w.jobs && w' == w.(jobs := w.jobs - {j})
    case Arrival(k) => k in w.calls && MayLand(p, w.db.now, w.calls[k]) && w' == Arrived(w, k)
    case _ => h.job in w.jobs && w.jobs[h.job].claimed.leaseOwner != NIL && JobStep(c, w, h, w')
  }

  /** A step a running worker takes. */
  predicate JobStep(c: Config, w: World, h: Happening, w': World)
    requires ValidConfig(c) && InJob(h)
    requires h.job in w.jobs && w.jobs[h.job].claimed.leaseOwner != NIL
  {
    var job := w.jobs[h.job];
    var own := Own(c, job.claimed);
    match h
    case Start(j, context) =>
      var deadline := AdapterDeadline(c, job.claimed, w.db.now, context);
      && job.phase.Fresh? && ValidClaim(own, job.claimed)
      && w' == w.(jobs := w.jobs[j := job.(deadline := deadline,
                                           phase := ToPhase(Begin(own, job.claimed, deadline, w.db.now)))])
    case Look(j, fault, reply) =>
      && job.phase.Inspecting? && Answers(w, job, fault, reply)
      && w' == w.(jobs := w.jobs[j := job.(phase := ToPhase(AfterFirstInspect(own, job.claimed, reply)))])
    case Examine(j, _, _) => job.phase.Reading? && Examined(c, w, h, w')
    case Hear(j) =>
      && job.phase.Awaiting? && job.phase.call in w.calls && !w.calls[job.phase.call].state.InFlight?
      && w' == w.(jobs := w.jobs[j := job.(phase :=
                    if w.calls[job.phase.call].state.Landed?
                    then ToPhase(AfterEnsure(own, job.claimed, Ensured))
                    else Reading)])
    case Miss(j, error) =>
      && job.phase.Awaiting?
      && w' == w.(jobs := w.jobs[j := job.(phase := ToPhase(AfterEnsure(own, job.claimed, EnsureFailed(error))))])
    case Confirm(j, fault, reply) =>
      && job.phase.Confirming? && Answers(w, job, fault, reply)
      && w' == w.(jobs := w.jobs[j := job.(phase := ToPhase(AfterLastInspect(own, job.claimed, reply)))])
  }

  // ----------------------------------------------------------------- invariants

  function AddressOf(db: Db, mailbox: Uuid): string {
    if mailbox in db.mailboxes && db.mailboxes[mailbox].domain in db.domains
    then db.mailboxes[mailbox].localPart + "@" + db.domains[db.mailboxes[mailbox].domain].name
    else ""
  }

  /** The marker an operation writes. */
  function Stamp(db: Db, id: Uuid): Metadata
    requires id in db.operations && db.operations[id].mailbox in db.mailboxes
  {
    var op := db.operations[id];
    Metadata(op.mailbox, db.mailboxes[op.mailbox].domain, id, op.desiredRevision, op.configurationHash)
  }

  predicate Known(db: Db, id: Uuid) {
    id in db.operations && db.operations[id].mailbox in db.mailboxes
  }

  /** The operation is the one its mailbox currently wants. */
  predicate Current(db: Db, id: Uuid) {
    Known(db, id) && db.operations[id].desiredRevision == db.mailboxes[db.operations[id].mailbox].revision
  }

  /** A claim snapshot agrees with the ledger, and its lease with the attempt row it opened. */
  predicate Snapshot(c: Config, db: Db, claimed: Claimed) {
    && Known(db, claimed.operation)
    && MarkerOf(claimed) == Stamp(db, claimed.operation)
    && claimed.address == AddressOf(db, claimed.mailbox)
    && 1 <= claimed.leaseEpoch <= |Rows(db, claimed.operation)|
    && Rows(db, claimed.operation)[claimed.leaseEpoch - 1].startedAt + LeaseTime(c) == claimed.leaseExpiresAt
    && Rows(db, claimed.operation)[claimed.leaseEpoch - 1].priorStatus == claimed.priorStatus
    && claimed.leaseOwner != NIL
  }

  predicate CallFits(c: Config, db: Db, s: SetCall) {
    && Known(db, s.operation)
    && s.meta == Stamp(db, s.operation)
    && s.address == AddressOf(db, s.meta.mailbox)
    && 1 <= s.epoch <= |Rows(db, s.operation)|
    && s.deadline + c.leaseSafetyMargin as int
         <= Rows(db, s.operation)[s.epoch - 1].startedAt + LeaseTime(c)
  }

  predicate JobFits(c: Config, w: World, job: Job) {
    && Snapshot(c, w.db, job.claimed)
    && (job.phase.Fresh? || job.deadline + c.leaseSafetyMargin as int <= job.claimed.leaseExpiresAt)
    && (job.phase.Submitting? ==> Carries(job.claimed, job.phase.resolution))
  }

  predicate JobsFit(c: Config, w: World) { forall j :: j in w.jobs ==> JobFits(c, w, w.jobs[j]) }

  predicate CallsFit(c: Config, w: World) { forall k :: k in w.calls ==> CallFits(c, w.db, w.calls[k]) }

  /** An update only ever targets an account its mailbox owns. */
  predicate UpdatesOwned(w: World) {
    forall k :: k in w.calls && !w.calls[k].create ==> Owns(SlotAt(w.accounts, w.calls[k].address), w.calls[k].meta)
  }

  /** The attempt may still call the adapter. */
  predicate Alive(c: Config, now: Time, claimed: Claimed) {
    now + c.leaseSafetyMargin as int < claimed.leaseExpiresAt
  }

  /** Markers of our mailboxes were written by their operations. */
  predicate Provenance(w: World) {
    forall a :: a in w.accounts && w.accounts[a].Managed? && w.accounts[a].meta.mailbox in w.db.mailboxes ==>
      Known(w.db, w.accounts[a].meta.operation)
      && w.accounts[a].meta == Stamp(w.db, w.accounts[a].meta.operation)
  }

  /** Mail-core holds the operation's mailbox; firmly, if at its revision or a later one. */
  predicate Holds(w: World, id: Uuid, firm: bool) {
    && Known(w.db, id)
    && var slot := SlotAt(w.accounts, AddressOf(w.db, w.db.operations[id].mailbox));
       Owns(slot, Stamp(w.db, id)) && (firm ==> slot.meta.revision >= w.db.operations[id].desiredRevision)
  }

  predicate SuccessHolds(w: World, firm: bool) {
    && (forall id :: id in w.db.operations && w.db.operations[id].status.Succeeded? ==> Holds(w, id, firm))
    && (forall j :: j in w.jobs && w.jobs[j].phase.Submitting? && w.jobs[j].phase.resolution.status.Succeeded? ==>
          Holds(w, w.jobs[j].claimed.operation, firm))
  }

  /** A live attempt still owns its operation's lease, unless the operation is finished. */
  predicate LeaseHeld(c: Config, db: Db, claimed: Claimed) {
    claimed.operation in db.operations &&
    var op := db.operations[claimed.operation];
    && op.leaseEpoch == claimed.leaseEpoch
    && (op.status.Terminal() || (op.status.Running? && op.leaseExpiresAt == Some(claimed.leaseExpiresAt)))
  }

  predicate WindowsHeld(c: Config, w: World) {
    forall j :: j in w.jobs && Alive(c, w.db.now, w.jobs[j].claimed) ==> LeaseHeld(c, w.db, w.jobs[j].claimed)
  }

  predicate SameToken(a: Claimed, b: Claimed) { a.operation == b.operation && a.leaseEpoch == b.leaseEpoch }

  predicate TokensDistinct(w: World) {
    forall i, j :: i in w.jobs && j in w.jobs && i != j ==> !SameToken(w.jobs[i].claimed, w.jobs[j].claimed)
  }

  /** What every reachable state satisfies; the firm version as long as no account has gone back. */
  ghost predicate WorldInv(c: Config, firm: bool, w: World) {
    && w.db.now > 0 && Inv(w.db, c.maxAttempts)
    && JobsFit(c, w) && CallsFit(c, w) && UpdatesOwned(w)
    && Provenance(w) && SuccessHolds(w, firm)
    && WindowsHeld(c, w) && TokensDistinct(w)
  }
}
