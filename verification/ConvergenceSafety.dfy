/** Every step of the system keeps its invariant. */
module ConvergenceSafety {
  import opened Types
  import opened Ledger
  import opened LedgerSafety
  import opened LedgerRuns
  import opened Worker
  import opened Marker
  import opened MailCore
  import opened Convergence

  // ----------------------------------------------------------------- what grows

  /** Identities, addresses and attempt start times never change. */
  predicate Grown(db: Db, db': Db) {
    && db.now <= db'.now
    && (forall id :: id in db.operations ==> OperationGrown(db, db', id))
    && (forall m :: m in db.mailboxes ==>
          && m in db'.mailboxes && db'.mailboxes[m].domain == db.mailboxes[m].domain
          && db'.mailboxes[m].localPart == db.mailboxes[m].localPart
          && db.mailboxes[m].domain in db.domains)
    && (forall d :: d in db.domains ==> d in db'.domains && db'.domains[d].name == db.domains[d].name)
  }

  lemma MailboxesGrow(maxAttempts: nat, db: Db, e: Event, db': Db)
    requires Next(maxAttempts, db, e, db')
    ensures forall m :: m in db.mailboxes ==>
              && m in db'.mailboxes && db'.mailboxes[m].domain == db.mailboxes[m].domain
              && db'.mailboxes[m].localPart == db.mailboxes[m].localPart
              && (!(e.ReviseEvent? && e.mailbox == m) ==> db'.mailboxes[m].revision == db.mailboxes[m].revision)
    ensures forall d :: d in db.domains ==> d in db'.domains && db'.domains[d].name == db.domains[d].name
    ensures forall m :: m in db'.mailboxes && m !in db.mailboxes ==> e.RequestEvent? && e.mailbox == m
    ensures db.now <= db'.now && (!e.Tick? ==> db'.now == db.now)
  {
  }

  lemma DomainsExist(maxAttempts: nat, db: Db)
    requires Inv(db, maxAttempts)
    ensures forall m :: m in db.mailboxes ==> db.mailboxes[m].domain in db.domains
  {
    forall m | m in db.mailboxes ensures db.mailboxes[m].domain in db.domains {
      assert MailboxFits(db, m);
    }
  }

  lemma NextGrows(maxAttempts: nat, db: Db, e: Event, db': Db)
    requires Inv(db, maxAttempts) && Next(maxAttempts, db, e, db')
    ensures Grown(db, db')
  {
    hide Inv, Next, OperationGrown;
    DomainsExist(maxAttempts, db);
    MailboxesGrow(maxAttempts, db, e, db');
    forall id | id in db.operations ensures OperationGrown(db, db', id) {
      OperationGrows(maxAttempts, db, e, db', id);
    }
  }

  lemma GrownKeepsStamp(db: Db, db': Db, id: Uuid)
    requires Grown(db, db') && Known(db, id)
    ensures Known(db', id) && Stamp(db', id) == Stamp(db, id)
    ensures AddressOf(db', db.operations[id].mailbox) == AddressOf(db, db.operations[id].mailbox)
  {
    assert OperationGrown(db, db', id);
  }

  lemma GrownKeepsSnapshot(c: Config, db: Db, db': Db, claimed: Claimed)
    requires Grown(db, db') && Snapshot(c, db, claimed)
    ensures Snapshot(c, db', claimed)
  {
    assert OperationGrown(db, db', claimed.operation);
    GrownKeepsStamp(db, db', claimed.operation);
  }

  lemma GrownKeepsCall(c: Config, db: Db, db': Db, s: SetCall)
    requires Grown(db, db') && CallFits(c, db, s)
    ensures CallFits(c, db', s)
  {
    assert OperationGrown(db, db', s.operation);
    GrownKeepsStamp(db, db', s.operation);
  }

  lemma GrownKeepsHolds(w: World, w': World, id: Uuid, firm: bool)
    requires Grown(w.db, w'.db) && w'.accounts == w.accounts && Holds(w, id, firm)
    ensures Holds(w', id, firm)
  {
    GrownKeepsStamp(w.db, w'.db, id);
  }

  // ----------------------------------------------------------------- steps of the database

  lemma DbStepKeepsFit(c: Config, w: World, w': World)
    requires Grown(w.db, w'.db) && JobsFit(c, w) && CallsFit(c, w) && UpdatesOwned(w)
    requires w' == w.(db := w'.db, jobs := w'.jobs)
    requires forall j :: j in w'.jobs ==> (j in w.jobs && w'.jobs[j] == w.jobs[j]) || JobFits(c, w', w'.jobs[j])
    ensures JobsFit(c, w') && CallsFit(c, w') && UpdatesOwned(w')
  {
    forall j | j in w'.jobs ensures JobFits(c, w', w'.jobs[j]) {
      if j in w.jobs && w'.jobs[j] == w.jobs[j] {
        assert JobFits(c, w, w.jobs[j]);
        GrownKeepsSnapshot(c, w.db, w'.db, w.jobs[j].claimed);
      }
    }
    forall k | k in w'.calls ensures CallFits(c, w'.db, w'.calls[k]) {
      assert CallFits(c, w.db, w.calls[k]);
      GrownKeepsCall(c, w.db, w'.db, w.calls[k]);
    }
  }

  lemma DbStepKeepsAccounts(w: World, w': World)
    requires Grown(w.db, w'.db) && Provenance(w)
    requires w' == w.(db := w'.db, jobs := w'.jobs)
    requires forall m :: m in w'.db.mailboxes && m !in w.db.mailboxes ==> MarkerFree(w.accounts, m)
    ensures Provenance(w')
  {
    forall a | a in w'.accounts && w'.accounts[a].Managed? && w'.accounts[a].meta.mailbox in w'.db.mailboxes
      ensures Known(w'.db, w'.accounts[a].meta.operation)
              && w'.accounts[a].meta == Stamp(w'.db, w'.accounts[a].meta.operation)
    {
      assert w.accounts[a].meta.mailbox in w.db.mailboxes;
      GrownKeepsStamp(w.db, w'.db, w.accounts[a].meta.operation);
    }
  }

  /** A database step that no live attempt's operation is touched by keeps the windows. */
  lemma DbStepKeepsWindows(c: Config, w: World, w': World)
    requires WindowsHeld(c, w) && w.db.now <= w'.db.now
    requires forall j :: j in w'.jobs ==>
               || (&& j in w.jobs && w'.jobs[j] == w.jobs[j]
                   && (LeaseHeld(c, w.db, w.jobs[j].claimed) && Alive(c, w'.db.now, w.jobs[j].claimed) ==>
                         LeaseHeld(c, w'.db, w.jobs[j].claimed)))
               || LeaseHeld(c, w'.db, w'.jobs[j].claimed)
    ensures WindowsHeld(c, w')
  {
  }

  /** Only a resolution makes an operation succeed. */
  lemma NoNewSuccess(maxAttempts: nat, db: Db, e: Event, db': Db, id: Uuid)
    requires Next(maxAttempts, db, e, db') && id in db'.operations && db'.operations[id].status.Succeeded?
    ensures || (id in db.operations && db.operations[id].status.Succeeded?)
            || (e.ResolveEvent? && e.resolution.operation == id && Accepted(db, e.resolution)
                && e.resolution.status.Succeeded?)
  {
  }

  lemma SuccessStays(c: Config, firm: bool, w: World, w': World)
    requires Grown(w.db, w'.db) && SuccessHolds(w, firm) && w' == w.(db := w'.db, jobs := w'.jobs)
    requires forall j :: j in w'.jobs ==> (j in w.jobs && w'.jobs[j] == w.jobs[j]) || w'.jobs[j].phase.Fresh?
    requires forall id :: id in w'.db.operations && w'.db.operations[id].status.Succeeded? ==>
               (id in w.db.operations && w.db.operations[id].status.Succeeded?) || Holds(w, id, firm)
    ensures SuccessHolds(w', firm)
  {
    forall id | id in w'.db.operations && w'.db.operations[id].status.Succeeded? ensures Holds(w', id, firm) {
      GrownKeepsHolds(w, w', id, firm);
    }
    forall j | j in w'.jobs && w'.jobs[j].phase.Submitting? && w'.jobs[j].phase.resolution.status.Succeeded?
      ensures Holds(w', w'.jobs[j].claimed.operation, firm)
    {
      GrownKeepsHolds(w, w', w.jobs[j].claimed.operation, firm);
    }
  }

  /** Ticks, intents and finalizes take no lease away from a live attempt of an unfinished operation. */
  lemma LeaseStays(c: Config, db: Db, e: Event, db': Db, claimed: Claimed)
    requires Next(c.maxAttempts, db, e, db') && !e.ClaimEvent? && !e.ResolveEvent? && LeaseHeld(c, db, claimed)
    ensures LeaseHeld(c, db', claimed)
  {
    if !Touches(db, e, claimed.operation) {
      Untouched(c.maxAttempts, db, e, db', claimed.operation);
    }
  }

  /** What a database step owes to each job that exists after it. */
  predicate JobSettled(c: Config, w: World, w': World, j: nat)
    requires j in w'.jobs
  {
    || (&& j in w.jobs && w'.jobs[j] == w.jobs[j]
        && (LeaseHeld(c, w.db, w.jobs[j].claimed) && Alive(c, w'.db.now, w.jobs[j].claimed) ==>
              LeaseHeld(c, w'.db, w.jobs[j].claimed)))
    || (&& w'.jobs[j].phase.Fresh? && Snapshot(c, w'.db, w'.jobs[j].claimed)
        && LeaseHeld(c, w'.db, w'.jobs[j].claimed))
  }

  lemma DbStepKeeps(c: Config, firm: bool, w: World, e: Event, w': World)
    requires ValidConfig(c) && WorldInv(c, firm, w) && Next(c.maxAttempts, w.db, e, w'.db)
    requires w' == w.(db := w'.db, jobs := w'.jobs)
    requires e.RequestEvent? ==> MarkerFree(w.accounts, e.mailbox)
    requires forall j :: j in w'.jobs ==> JobSettled(c, w, w', j)
    requires e.ResolveEvent? && e.resolution.status.Succeeded? && Accepted(w.db, e.resolution) ==>
               Holds(w, e.resolution.operation, firm)
    requires TokensDistinct(w')
    ensures WorldInv(c, firm, w')
  {
    hide Inv, Next, JobsFit, CallsFit, UpdatesOwned, Provenance,
      SuccessHolds, WindowsHeld, Holds, LeaseHeld, Grown, MarkerFree, Snapshot, Current, TokensDistinct,
      Accepted;
    NextKeepsInv(c.maxAttempts, w.db, e, w'.db);
    NextGrows(c.maxAttempts, w.db, e, w'.db);
    MailboxesGrow(c.maxAttempts, w.db, e, w'.db);
    DbStepKeepsFit(c, w, w');
    DbStepKeepsAccounts(w, w');
    DbStepKeepsWindows(c, w, w');
    forall id | id in w'.db.operations && w'.db.operations[id].status.Succeeded?
      ensures (id in w.db.operations && w.db.operations[id].status.Succeeded?) || Holds(w, id, firm)
    {
      NoNewSuccess(c.maxAttempts, w.db, e, w'.db, id);
    }
    SuccessStays(c, firm, w, w');
  }

  lemma LedgerStepKeeps(c: Config, firm: bool, w: World, e: Event, w': World)
    requires ValidConfig(c) && WorldInv(c, firm, w) && LedgerMoves(c, w, e, w')
    ensures WorldInv(c, firm, w')
  {
    forall j | j in w'.jobs ensures JobSettled(c, w, w', j) {
      if LeaseHeld(c, w.db, w.jobs[j].claimed) {
        LeaseStays(c, w.db, e, w'.db, w.jobs[j].claimed);
      }
    }
    hide WorldInv, Next, JobSettled;
    assert TokensDistinct(w') by { Tokens(c, firm, w); }
    DbStepKeeps(c, firm, w, e, w');
  }

  lemma Tokens(c: Config, firm: bool, w: World)
    requires WorldInv(c, firm, w)
    ensures TokensDistinct(w)
  {
  }

  // ----------------------------------------------------------------- taking and finishing a job

  /** The claim statement's row agrees with the ledger it leaves behind. */
  lemma ClaimIsSnapshot(c: Config, db: Db, e: Event, db': Db)
    requires ValidConfig(c) && Inv(db, c.maxAttempts) && e.ClaimEvent? && e.leaseMicros == LeaseMicros(c)
    requires Next(c.maxAttempts, db, e, db')
    ensures var claimed := ClaimedRow(db, e.id, e.owner, e.leaseMicros);
            && Snapshot(c, db', claimed) && LeaseHeld(c, db', claimed) && Current(db', e.id)
            && claimed.leaseEpoch == |Rows(db, e.id)| + 1
            && claimed.operation == e.id
  {
    hide Inv, Next;
    CandidateIsClaimable(c.maxAttempts, db, e, db');
    Fits(db, c.maxAttempts, e.id);
    assert RowsFit(db.operations[e.id], Rows(db, e.id));
    hide RecordFits, RowsFit, ClaimBefore;
    assert |Rows(db', e.id)| == |Rows(db, e.id)| + 1;
  }

  lemma CandidateIsClaimable(maxAttempts: nat, db: Db, e: Event, db': Db)
    requires Next(maxAttempts, db, e, db') && e.ClaimEvent?
    ensures Claimable(db, maxAttempts, e.id) && e.owner != NIL && db' == Claim(db, e.id, e.owner, e.leaseMicros)
  {
  }

  /** A claim takes over only from attempts that are no longer alive. */
  lemma ClaimLeavesLiveAttempts(c: Config, db: Db, e: Event, db': Db, claimed: Claimed)
    requires ValidConfig(c) && Next(c.maxAttempts, db, e, db') && e.ClaimEvent?
    requires LeaseHeld(c, db, claimed) && Alive(c, db.now, claimed)
    ensures LeaseHeld(c, db', claimed)
  {
    if claimed.operation != e.id {
      Untouched(c.maxAttempts, db, e, db', claimed.operation);
    }
  }

  lemma TakenTokenIsNew(c: Config, w: World, j: nat, claimed: Claimed)
    requires JobsFit(c, w) && j in w.jobs
    requires claimed.leaseEpoch == |Rows(w.db, claimed.operation)| + 1
    ensures !SameToken(w.jobs[j].claimed, claimed) && !SameToken(claimed, w.jobs[j].claimed)
  {
    assert JobFits(c, w, w.jobs[j]);
  }

  lemma TokensStayDistinct(w: World, w': World, j: nat)
    requires TokensDistinct(w) && j in w'.jobs && w'.jobs == w.jobs[j := w'.jobs[j]]
    requires forall i :: i in w.jobs && i != j ==>
               !SameToken(w.jobs[i].claimed, w'.jobs[j].claimed) && !SameToken(w'.jobs[j].claimed, w.jobs[i].claimed)
    ensures TokensDistinct(w')
  {
  }

  lemma TakeKeeps(c: Config, firm: bool, w: World, j: nat, e: Event, w': World)
    requires ValidConfig(c) && WorldInv(c, firm, w) && JobTaken(c, w, j, e, w')
    ensures WorldInv(c, firm, w')
  {
    var claimed := ClaimedRow(w.db, e.id, e.owner, e.leaseMicros);
    ClaimIsSnapshot(c, w.db, e, w'.db);
    hide Inv, Next, JobsFit, Snapshot, Current, LeaseHeld, ClaimedRow, SameToken;
    MailboxesGrow(c.maxAttempts, w.db, e, w'.db);
    forall i | i in w'.jobs ensures JobSettled(c, w, w', i) {
      if i != j && LeaseHeld(c, w.db, w.jobs[i].claimed) && Alive(c, w.db.now, w.jobs[i].claimed) {
        ClaimLeavesLiveAttempts(c, w.db, e, w'.db, w.jobs[i].claimed);
      }
    }
    forall i | i in w.jobs
      ensures !SameToken(w.jobs[i].claimed, claimed) && !SameToken(claimed, w.jobs[i].claimed)
    {
      TakenTokenIsNew(c, w, i, claimed);
    }
    TokensStayDistinct(w, w', j);
    hide WorldInv, JobSettled, TokensDistinct;
    DbStepKeeps(c, firm, w, e, w');
  }

  /** A report moves only the operation it carries the token of. */
  lemma ReportLeavesOthers(c: Config, db: Db, e: Event, db': Db, reporter: Claimed, other: Claimed)
    requires Next(c.maxAttempts, db, e, db') && e.ResolveEvent? && Carries(reporter, e.resolution)
    requires LeaseHeld(c, db, other) && !SameToken(other, reporter)
    ensures LeaseHeld(c, db', other)
  {
    if !Touches(db, e, other.operation) {
      Untouched(c.maxAttempts, db, e, db', other.operation);
    }
  }

  lemma ReportKeeps(c: Config, firm: bool, w: World, j: nat, w': World)
    requires ValidConfig(c) && WorldInv(c, firm, w) && JobReported(c, w, j, w')
    ensures WorldInv(c, firm, w')
  {
    var e := ResolveEvent(w.jobs[j].phase.resolution);
    assert JobFits(c, w, w.jobs[j]);
    hide Inv, Next, JobsFit, CallsFit, Snapshot, Current, LeaseHeld, Accepted, Holds;
    MailboxesGrow(c.maxAttempts, w.db, e, w'.db);
    forall i | i in w'.jobs ensures JobSettled(c, w, w', i) {
      if LeaseHeld(c, w.db, w.jobs[i].claimed) {
        assert !SameToken(w.jobs[i].claimed, w.jobs[j].claimed);
        ReportLeavesOthers(c, w.db, e, w'.db, w.jobs[j].claimed, w.jobs[i].claimed);
      }
    }
    assert TokensDistinct(w');
    assert e.resolution.status.Succeeded? ==> Holds(w, e.resolution.operation, firm);
    hide WorldInv, JobSettled, TokensDistinct;
    DbStepKeeps(c, firm, w, e, w');
  }

  // ----------------------------------------------------------------- steps inside a job

  /** A job moves on without touching the ledger or mail-core; it may put a set call in flight. */
  predicate MovesOn(w: World, j: nat, job: Job, w': World) {
    && j in w.jobs && job.claimed == w.jobs[j].claimed
    && w' == w.(jobs := w.jobs[j := job], calls := w'.calls)
    && forall k :: k in w.calls ==> k in w'.calls && w'.calls[k] == w.calls[k]
  }

  /** What a job step owes for the job and for a call it sends. */
  predicate JobStepSound(c: Config, firm: bool, w: World, job: Job, w': World) {
    && JobFits(c, w, job)
    && (job.phase.Submitting? && job.phase.resolution.status.Succeeded? ==> Holds(w, job.claimed.operation, firm))
    && forall k :: k in w'.calls && k !in w.calls ==> CallSound(c, w, w'.calls[k])
  }

  predicate CallSound(c: Config, w: World, s: SetCall) {
    && CallFits(c, w.db, s)
    && (!s.create ==> Owns(SlotAt(w.accounts, s.address), s.meta))
  }

  lemma JobStepKeepsFit(c: Config, firm: bool, w: World, j: nat, job: Job, w': World)
    requires JobsFit(c, w) && CallsFit(c, w) && UpdatesOwned(w)
    requires MovesOn(w, j, job, w') && JobStepSound(c, firm, w, job, w')
    ensures JobsFit(c, w') && CallsFit(c, w') && UpdatesOwned(w')
  {
    hide CallFits, Snapshot, Owns, Current;
    forall i | i in w'.jobs ensures JobFits(c, w', w'.jobs[i]) {
      assert i != j ==> JobFits(c, w, w.jobs[i]);
    }
    forall k | k in w'.calls ensures CallFits(c, w'.db, w'.calls[k]) {
      assert k !in w.calls ==> CallSound(c, w, w'.calls[k]);
    }
  }

  lemma JobStepKeepsWindows(c: Config, firm: bool, w: World, j: nat, job: Job, w': World)
    requires WindowsHeld(c, w) && TokensDistinct(w)
    requires MovesOn(w, j, job, w') && JobStepSound(c, firm, w, job, w')
    ensures WindowsHeld(c, w') && TokensDistinct(w')
  {
    hide LeaseHeld, SameToken, JobFits, Holds, CallSound;
  }

  lemma SameAccountsHold(w: World, w': World, firm: bool)
    requires w'.db == w.db && w'.accounts == w.accounts
    ensures forall id :: Holds(w, id, firm) <==> Holds(w', id, firm)
  {
  }

  lemma JobStepKeepsAccounts(c: Config, firm: bool, w: World, j: nat, job: Job, w': World)
    requires Provenance(w) && SuccessHolds(w, firm)
    requires MovesOn(w, j, job, w') && JobStepSound(c, firm, w, job, w')
    ensures Provenance(w') && SuccessHolds(w', firm)
  {
    SameAccountsHold(w, w', firm);
    hide Holds, JobFits, CallSound;
  }

  lemma SoundJobStepKeeps(c: Config, firm: bool, w: World, j: nat, job: Job, w': World)
    requires WorldInv(c, firm, w) && MovesOn(w, j, job, w') && JobStepSound(c, firm, w, job, w')
    ensures WorldInv(c, firm, w')
  {
    hide Inv, JobsFit, CallsFit, UpdatesOwned, Provenance,
      SuccessHolds, WindowsHeld, TokensDistinct, JobStepSound;
    JobStepKeepsFit(c, firm, w, j, job, w');
    JobStepKeepsWindows(c, firm, w, j, job, w');
    JobStepKeepsAccounts(c, firm, w, j, job, w');
  }

  /** A decision of Execute copies the claim's token, and claims no success without `seen`. */
  predicate Honest(claimed: Claimed, move: Move, seen: bool) {
    move.Submit? ==> Carries(claimed, move.resolution) && (move.resolution.status.Succeeded? ==> seen)
  }

  lemma BlindMovesAreHonest(c: Config, claimed: Claimed, deadline: int, now: Time, reply: EnsureReply)
    requires ValidConfig(c)
    ensures Honest(claimed, Begin(c, claimed, deadline, now), false)
    ensures Honest(claimed, AfterEnsure(c, claimed, reply), false)
  {
    hide Backoff;
  }

  /** An attempt decides on success only after an inspect showed the account to be as desired. */
  lemma InspectMovesAreHonest(c: Config, firm: bool, w: World, job: Job, fault: Option<AdapterError>, reply: Inspection)
    requires ValidConfig(c) && Snapshot(c, w.db, job.claimed) && Answers(w, job, fault, reply)
    ensures var own, seen := Own(c, job.claimed), Holds(w, job.claimed.operation, firm);
            && Honest(job.claimed, AfterFirstInspect(own, job.claimed, reply), seen)
            && Honest(job.claimed, AfterLastInspect(own, job.claimed, reply), seen)
  {
    hide Backoff;
  }

  lemma JobKnown(c: Config, firm: bool, w: World, j: nat)
    requires WorldInv(c, firm, w) && j in w.jobs
    ensures JobFits(c, w, w.jobs[j])
  {
    hide Inv, JobFits, Current, CallsFit, UpdatesOwned, Provenance, SuccessHolds,
      WindowsHeld, TokensDistinct;
  }

  /** A job that moves on honestly and sends nothing. */
  lemma HonestStepKeeps(c: Config, firm: bool, w: World, j: nat, job: Job, move: Move, w': World)
    requires WorldInv(c, firm, w) && j in w.jobs && job.claimed == w.jobs[j].claimed && job.phase == ToPhase(move)
    requires job.deadline + c.leaseSafetyMargin as int <= job.claimed.leaseExpiresAt
    requires Honest(job.claimed, move, Holds(w, job.claimed.operation, firm))
    requires w' == w.(jobs := w.jobs[j := job])
    ensures WorldInv(c, firm, w')
  {
    hide WorldInv, Snapshot, Holds, Current;
    JobKnown(c, firm, w, j);
    SoundJobStepKeeps(c, firm, w, j, job, w');
  }

  /** The set call an attempt sends updates only what its mailbox owns. */
  lemma SentCallIsSound(c: Config, w: World, job: Job, s: SetCall)
    requires JobFits(c, w, job) && !job.phase.Fresh? && w.db.now < job.deadline
    requires var verdict := Judge(SlotAt(w.accounts, job.claimed.address), MarkerOf(job.claimed));
             && (verdict.MustCreate? || verdict.MustAdvance?)
             && s == SetCall(job.claimed.operation, job.claimed.leaseEpoch, job.claimed.address,
                             verdict.MustCreate?, MarkerOf(job.claimed), job.deadline, InFlight)
    ensures CallSound(c, w, s)
  {
  }

  lemma SendKeeps(c: Config, firm: bool, w: World, j: nat, k: nat, s: SetCall, w': World)
    requires WorldInv(c, firm, w) && j in w.jobs && k !in w.calls
    requires !w.jobs[j].phase.Fresh? && CallSound(c, w, s)
    requires w' == w.(jobs := w.jobs[j := w.jobs[j].(phase := Awaiting(k))], calls := w.calls[k := s])
    ensures WorldInv(c, firm, w')
  {
    hide WorldInv, Snapshot, CallSound, Current;
    JobKnown(c, firm, w, j);
    SoundJobStepKeeps(c, firm, w, j, w.jobs[j].(phase := Awaiting(k)), w');
  }

  lemma ExamineKeeps(c: Config, firm: bool, w: World, h: Happening, w': World)
    requires ValidConfig(c) && WorldInv(c, firm, w) && h.Examine? && h.job in w.jobs
    requires w.jobs[h.job].claimed.leaseOwner != NIL && JobStep(c, w, h, w')
    ensures WorldInv(c, firm, w')
  {
    hide WorldInv, Snapshot, Carries, Holds, AfterEnsure, Current, Judge, Honest, CallSound;
    var job := w.jobs[h.job];
    var own := Own(c, job.claimed);
    JobKnown(c, firm, w, h.job);
    var verdict := Judge(SlotAt(w.accounts, job.claimed.address), MarkerOf(job.claimed));
    if h.fault.None? && (verdict.MustCreate? || verdict.MustAdvance?) {
      var s := SetCall(job.claimed.operation, job.claimed.leaseEpoch, job.claimed.address,
                       verdict.MustCreate?, MarkerOf(job.claimed), job.deadline, InFlight);
      SentCallIsSound(c, w, job, s);
      SendKeeps(c, firm, w, h.job, h.call, s, w');
    } else {
      var reply := if h.fault.Some? then EnsureFailed(h.fault.value)
                   else if verdict.Conflict? then EnsureFailed(AdapterError(Permanent, RESOURCE_CONFLICT))
                   else Ensured;
      BlindStepKeeps(c, firm, w, h.job, job.deadline, reply, w');
    }
  }

  /** The steps that hear of an ensure call without having inspected the account. */
  lemma BlindStepKeeps(c: Config, firm: bool, w: World, j: nat, deadline: int, reply: EnsureReply, w': World)
    requires ValidConfig(c) && WorldInv(c, firm, w) && j in w.jobs && w.jobs[j].claimed.leaseOwner != NIL
    requires !w.jobs[j].phase.Fresh?
    requires w' == w.(jobs := w.jobs[j := w.jobs[j].(phase :=
                        ToPhase(AfterEnsure(Own(c, w.jobs[j].claimed), w.jobs[j].claimed, reply)))])
    ensures WorldInv(c, firm, w')
  {
    hide WorldInv, Snapshot, Holds, AfterEnsure, Begin, Current, Carries;
    var job := w.jobs[j];
    var own := Own(c, job.claimed);
    JobKnown(c, firm, w, j);
    BlindMovesAreHonest(own, job.claimed, deadline, w.db.now, reply);
    var move := AfterEnsure(own, job.claimed, reply);
    HonestStepKeeps(c, firm, w, j, job.(phase := ToPhase(move)), move, w');
  }

  lemma JobStepKeeps(c: Config, firm: bool, w: World, h: Happening, w': World)
    requires ValidConfig(c) && WorldInv(c, firm, w) && InJob(h) && h.job in w.jobs
    requires w.jobs[h.job].claimed.leaseOwner != NIL && JobStep(c, w, h, w')
    ensures WorldInv(c, firm, w')
  {
    hide WorldInv, Snapshot, Holds, AfterEnsure, AfterFirstInspect, AfterLastInspect, Begin, Answers, Current,
      Carries, AdapterDeadline, Examined;
    var job := w.jobs[h.job];
    var own := Own(c, job.claimed);
    JobKnown(c, firm, w, h.job);
    match h
    case Start(j, context) =>
      var deadline := AdapterDeadline(c, job.claimed, w.db.now, context);
      AdapterWindow(c, job.claimed, w.db.now, context);
      BlindMovesAreHonest(own, job.claimed, deadline, w.db.now, Ensured);
      var move := Begin(own, job.claimed, deadline, w.db.now);
      HonestStepKeeps(c, firm, w, j, job.(deadline := deadline, phase := ToPhase(move)), move, w');
    case Look(j, fault, reply) =>
      InspectMovesAreHonest(c, firm, w, job, fault, reply);
      var move := AfterFirstInspect(own, job.claimed, reply);
      HonestStepKeeps(c, firm, w, j, job.(phase := ToPhase(move)), move, w');
    case Examine(_, _, _) => ExamineKeeps(c, firm, w, h, w');
    case Hear(j) =>
      if w.calls[job.phase.call].state.Landed? {
        BlindStepKeeps(c, firm, w, j, job.deadline, Ensured, w');
      } else {
        HonestStepKeeps(c, firm, w, j, job.(phase := Reading), CallEnsure, w');
      }
    case Miss(j, error) => BlindStepKeeps(c, firm, w, j, job.deadline, EnsureFailed(error), w');
    case Confirm(j, fault, reply) =>
      InspectMovesAreHonest(c, firm, w, job, fault, reply);
      var move := AfterLastInspect(own, job.claimed, reply);
      HonestStepKeeps(c, firm, w, j, job.(phase := ToPhase(move)), move, w');
  }

  lemma CrashKeeps(c: Config, firm: bool, w: World, j: nat, w': World)
    requires WorldInv(c, firm, w) && w' == w.(jobs := w.jobs - {j})
    ensures WorldInv(c, firm, w')
  {
    hide Inv, JobFits, Current, CallFits, SameToken, LeaseHeld;
    assert forall i :: i in w'.jobs ==> i in w.jobs && w'.jobs[i] == w.jobs[i];
    SameAccountsHold(w, w', firm);
    hide Holds;
    assert JobsFit(c, w') by {
      forall i | i in w'.jobs ensures JobFits(c, w', w'.jobs[i]) { JobFitsByDb(c, w, w', w.jobs[i]); }
    }
  }

  lemma JobFitsByDb(c: Config, w: World, w': World, job: Job)
    requires JobFits(c, w, job) && w'.db == w.db
    ensures JobFits(c, w', job)
  {
  }

  // ----------------------------------------------------------------- a set call lands

  /** An account appears, or is rewritten for the mailbox that owns it, or stays. */
  predicate SlotKept(a: Slot, b: Slot) { b == a || (b.Managed? && (a.Vacant? || Owns(a, b.meta))) }

  ghost predicate AccountsKept(accounts: map<string, Slot>, accounts': map<string, Slot>) {
    forall a :: SlotKept(SlotAt(accounts, a), SlotAt(accounts', a))
  }

  /** An account appears, or advances to a higher revision of the same mailbox, or stays. */
  predicate SlotGrown(a: Slot, b: Slot) {
    b == a || (b.Managed? && 0 < b.meta.revision && (a.Vacant? || (Owns(a, b.meta) && a.meta.revision < b.meta.revision)))
  }

  ghost predicate AccountsGrown(accounts: map<string, Slot>, accounts': map<string, Slot>) {
    forall a :: SlotGrown(SlotAt(accounts, a), SlotAt(accounts', a))
  }

  lemma SlotStays(a: Slot)
    ensures SlotGrown(a, a) && SlotKept(a, a)
  {
  }

  /** The operations of one mailbox differ in their revisions, so the newest revision has one owner. */
  lemma CurrentIsNewest(maxAttempts: nat, db: Db, id: Uuid, other: Uuid)
    requires Inv(db, maxAttempts) && Current(db, id) && Known(db, other)
    requires db.operations[other].mailbox == db.operations[id].mailbox
    ensures other == id || db.operations[other].desiredRevision < db.operations[id].desiredRevision
  {
    Fits(db, maxAttempts, other);
    assert !Clash(db.operations, id, other);
  }

  /** A landing set call never takes an account from its owner. */
  lemma LandingKeepsOwner(c: Config, w: World, k: nat)
    requires CallsFit(c, w) && UpdatesOwned(w) && k in w.calls
    ensures var s := w.calls[k]; var before := SlotAt(w.accounts, s.address);
            SlotKept(before, Land(before, s.create, s.meta))
  {
    assert !w.calls[k].create ==> Owns(SlotAt(w.accounts, w.calls[k].address), w.calls[k].meta);
  }

  lemma KeptSlotStillOwned(a: Slot, b: Slot, m: Metadata)
    requires SlotKept(a, b) && Owns(a, m)
    ensures Owns(b, m)
  {
  }

  lemma LandingKeepsHolds(w: World, w': World, id: Uuid, firm: bool)
    requires w'.db == w.db && AccountsKept(w.accounts, w'.accounts) && Holds(w, id, firm)
    requires firm ==> AccountsGrown(w.accounts, w'.accounts)
    ensures Holds(w', id, firm)
  {
    var a := AddressOf(w.db, w.db.operations[id].mailbox);
    assert SlotKept(SlotAt(w.accounts, a), SlotAt(w'.accounts, a));
    assert firm ==> SlotGrown(SlotAt(w.accounts, a), SlotAt(w'.accounts, a));
  }

  lemma ArrivalKeepsFit(c: Config, w: World, k: nat, w': World)
    requires JobsFit(c, w) && CallsFit(c, w) && UpdatesOwned(w)
    requires k in w.calls && w' == Arrived(w, k) && AccountsKept(w.accounts, w'.accounts)
    ensures JobsFit(c, w') && CallsFit(c, w') && UpdatesOwned(w')
  {
    hide Snapshot, SlotKept, Owns;
    forall i | i in w'.calls ensures CallFits(c, w'.db, w'.calls[i]) {
      assert CallFits(c, w.db, w.calls[i]);
    }
    forall i | i in w'.calls && !w'.calls[i].create
      ensures Owns(SlotAt(w'.accounts, w'.calls[i].address), w'.calls[i].meta)
    {
      var a := w.calls[i].address;
      assert SlotKept(SlotAt(w.accounts, a), SlotAt(w'.accounts, a));
      KeptSlotStillOwned(SlotAt(w.accounts, a), SlotAt(w'.accounts, a), w.calls[i].meta);
    }
    forall j | j in w'.jobs ensures JobFits(c, w', w'.jobs[j]) { JobFitsByDb(c, w, w', w.jobs[j]); }
  }

  lemma ArrivalKeepsAccounts(c: Config, firm: bool, w: World, k: nat, w': World)
    requires CallsFit(c, w) && Provenance(w) && SuccessHolds(w, firm)
    requires k in w.calls && w' == Arrived(w, k) && AccountsKept(w.accounts, w'.accounts)
    requires firm ==> AccountsGrown(w.accounts, w'.accounts)
    ensures Provenance(w') && SuccessHolds(w', firm)
  {
    var s := w.calls[k];
    assert CallFits(c, w.db, s);
    forall id | Holds(w, id, firm) ensures Holds(w', id, firm) { LandingKeepsHolds(w, w', id, firm); }
    hide Holds, SlotGrown, SlotKept;
  }

  /** Any set call in flight may land: it keeps the invariant, and the firm one if it moves no account back. */
  lemma ArrivalKeeps(c: Config, firm: bool, w: World, k: nat, w': World)
    requires WorldInv(c, firm, w) && k in w.calls && w' == Arrived(w, k)
    requires firm ==> AccountsGrown(w.accounts, w'.accounts)
    ensures WorldInv(c, firm, w') && AccountsKept(w.accounts, w'.accounts)
  {
    hide Inv, JobsFit, CallsFit, UpdatesOwned, Provenance,
      SuccessHolds, LeaseHeld, SameToken, Land, SlotGrown, SlotKept, Current, AccountsGrown;
    LandingKeepsOwner(c, w, k);
    forall a ensures SlotKept(SlotAt(w.accounts, a), SlotAt(w'.accounts, a)) {
      if a != w.calls[k].address { SlotStays(SlotAt(w.accounts, a)); }
    }
    ArrivalKeepsFit(c, w, k, w');
    ArrivalKeepsAccounts(c, firm, w, k, w');
  }
}
