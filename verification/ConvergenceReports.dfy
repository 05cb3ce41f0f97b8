/** What workers report, over every history: work is given up only when its attempts are used up, a lost reply is
    tried again, and no sooner than the backoff says. */
module ConvergenceReports {
  import opened Types
  import opened Ledger
  import opened LedgerSafety
  import opened LedgerRuns
  import opened LedgerEffects
  import opened Worker
  import opened MailCore
  import opened Convergence
  import opened ConvergenceRuns
  import opened ConvergenceLedger

  /** The report gives up only on the last attempt, and asks for a retry after exactly the backoff. */
  predicate Just(c: Config, claimed: Claimed, r: Resolution)
    requires ValidConfig(c)
  {
    && Carries(claimed, r)
    && (r.status.Dead? ==> claimed.attemptNumber >= c.maxAttempts)
    && (Retries(r.status) ==> r.nextAttemptDelay == Backoff(c, claimed.attemptNumber))
  }

  predicate JustPhase(c: Config, job: Job)
    requires ValidConfig(c)
  {
    job.phase.Submitting? ==> Just(c, job.claimed, job.phase.resolution)
  }

  lemma OwnBackoff(c: Config, claimed: Claimed, attempt: nat)
    requires ValidConfig(c) && claimed.leaseOwner != NIL
    ensures ValidConfig(Own(c, claimed)) && Backoff(Own(c, claimed), attempt) == Backoff(c, attempt)
  {
  }

  /** Every decision of an attempt is just. */
  lemma DecisionsAreJust(c: Config, claimed: Claimed, deadline: int, now: Time, look: Inspection, reply: EnsureReply)
    requires ValidConfig(c) && claimed.leaseOwner != NIL
    ensures var own := Own(c, claimed);
            && JustPhase(c, Job(claimed, deadline, ToPhase(Begin(own, claimed, deadline, now))))
            && JustPhase(c, Job(claimed, deadline, ToPhase(AfterFirstInspect(own, claimed, look))))
            && JustPhase(c, Job(claimed, deadline, ToPhase(AfterEnsure(own, claimed, reply))))
            && JustPhase(c, Job(claimed, deadline, ToPhase(AfterLastInspect(own, claimed, look))))
  {
    OwnBackoff(c, claimed, claimed.attemptNumber);
    hide Backoff, Classify, MatchesDesired;
  }

  predicate AllJust(c: Config, w: World)
    requires ValidConfig(c)
  {
    forall j :: j in w.jobs ==> JustPhase(c, w.jobs[j])
  }

  /** A step inside a job moves that job alone, by one of its decisions or to a phase without a report. */
  lemma JobStepJust(c: Config, w: World, h: Happening, w': World)
    requires ValidConfig(c) && InJob(h) && h.job in w.jobs && w.jobs[h.job].claimed.leaseOwner != NIL && JobStep(c, w, h, w')
    ensures w'.db == w.db && w'.jobs.Keys == w.jobs.Keys && JustPhase(c, w'.jobs[h.job])
    ensures forall j :: j in w.jobs && j != h.job ==> w'.jobs[j] == w.jobs[j]
  {
    hide JustPhase, Begin, AfterFirstInspect, AfterEnsure, AfterLastInspect, AdapterDeadline, ValidClaim, Judge, Answers;
    var job := w.jobs[h.job];
    match h
    case Start(_, context) =>
      var deadline := AdapterDeadline(c, job.claimed, w.db.now, context);
      DecisionsAreJust(c, job.claimed, deadline, w.db.now, InspectFailed(ForeignError), Ensured);
    case Look(_, _, reply) => DecisionsAreJust(c, job.claimed, job.deadline, w.db.now, reply, Ensured);
    case Confirm(_, _, reply) => DecisionsAreJust(c, job.claimed, job.deadline, w.db.now, reply, Ensured);
    case Examine(_, call, fault) =>
      DecisionsAreJust(c, job.claimed, job.deadline, w.db.now, InspectFailed(ForeignError), Ensured);
      DecisionsAreJust(c, job.claimed, job.deadline, w.db.now, InspectFailed(ForeignError),
                       EnsureFailed(if fault.Some? then fault.value else AdapterError(Permanent, RESOURCE_CONFLICT)));
      QuietPhase(c, job.(phase := Awaiting(call)));
    case Hear(_) =>
      DecisionsAreJust(c, job.claimed, job.deadline, w.db.now, InspectFailed(ForeignError), Ensured);
      QuietPhase(c, job.(phase := Reading));
    case Miss(_, error) => DecisionsAreJust(c, job.claimed, job.deadline, w.db.now, InspectFailed(ForeignError), EnsureFailed(error));
  }

  lemma QuietPhase(c: Config, job: Job)
    requires ValidConfig(c) && !job.phase.Submitting?
    ensures JustPhase(c, job)
  {
  }

  lemma StepJust(c: Config, p: Policy, w: World, h: Happening, w': World)
    requires ValidConfig(c) && AllJust(c, w) && Happens(c, p, w, h, w')
    ensures AllJust(c, w')
  {
    hide JobStep, Next, ClaimedRow;
    match h
    case Take(j, e) => QuietPhase(c, w'.jobs[j]);
    case LedgerStep(_) =>
    case Report(_) =>
    case Crash(_) =>
    case Arrival(_) =>
    case _ => JobStepJust(c, w, h, w');
  }

  lemma {:induction false} HistoryJust(c: Config, p: Policy, ws: seq<World>, hs: seq<Happening>, k: nat)
    requires History(c, p, ws, hs) && k < |ws|
    ensures AllJust(c, ws[k])
  {
    hide Happens, JustPhase;
    if k > 0 {
      HistoryJust(c, p, ws, hs, k - 1);
      StepJust(c, p, ws[k - 1], hs[k - 1], ws[k]);
    }
  }

  // ----------------------------------------------------------------- giving up

  predicate DeadIsExhausted(maxAttempts: nat, db: Db) {
    forall id :: id in db.operations && db.operations[id].status.Dead? ==> db.operations[id].attemptCount == maxAttempts
  }

  /** Resolutions come from reports of jobs, and from nowhere else. */
  lemma ResolvesAreReports(c: Config, p: Policy, w: World, h: Happening, w': World)
    requires ValidConfig(c) && Happens(c, p, w, h, w') && EventOf(w, h).ResolveEvent?
    ensures h.Report? && h.job in w.jobs && w.jobs[h.job].phase == Submitting(EventOf(w, h).resolution)
  {
  }

  lemma TouchDead(maxAttempts: nat, db: Db, e: Event, db': Db, id: Uuid)
    requires Inv(db, maxAttempts) && Next(maxAttempts, db, e, db') && Touches(db, e, id)
    requires id in db'.operations && db'.operations[id].status.Dead?
    requires e.ResolveEvent? && e.resolution.status.Dead? ==> e.resolution.attemptNumber >= maxAttempts
    ensures db'.operations[id].attemptCount == maxAttempts
  {
    hide Inv, Next;
    TouchMoves(maxAttempts, db, e, db', id);
    NextKeepsInv(maxAttempts, db, e, db');
    Fits(db', maxAttempts, id);
    hide RowsFit, EventFits;
    if e.FinalizeEvent? {
      FinalizeWrites(maxAttempts, db, e, db');
    } else if e.ClaimEvent? {
      ClaimWrites(maxAttempts, db, e, db');
    } else {
      ResolutionWrites(maxAttempts, db, e, db');
    }
  }

  lemma StepDead(c: Config, p: Policy, w: World, h: Happening, w': World)
    requires ValidConfig(c) && Inv(w.db, c.maxAttempts) && AllJust(c, w) && Happens(c, p, w, h, w')
    requires DeadIsExhausted(c.maxAttempts, w.db)
    ensures DeadIsExhausted(c.maxAttempts, w'.db)
  {
    hide Happens, Inv, Next, Touches, Backoff;
    var e := EventOf(w, h);
    StepOfLedger(c, p, w, h, w');
    if e.ResolveEvent? {
      ResolvesAreReports(c, p, w, h, w');
      assert JustPhase(c, w.jobs[h.job]);
    }
    hide EventOf, AllJust;
    forall id | id in w'.db.operations && w'.db.operations[id].status.Dead?
      ensures w'.db.operations[id].attemptCount == c.maxAttempts
    {
      if id !in w.db.operations {
        Created(c.maxAttempts, w.db, e, w'.db, id);
      } else if Touches(w.db, e, id) {
        TouchDead(c.maxAttempts, w.db, e, w'.db, id);
      } else {
        Untouched(c.maxAttempts, w.db, e, w'.db, id);
      }
    }
  }

  /** Over every history, an operation is dead only with all its attempts used up. */
  lemma {:induction false} GivenUpOnlyExhausted(c: Config, p: Policy, ws: seq<World>, hs: seq<Happening>, k: nat)
    requires History(c, p, ws, hs) && k < |ws|
    ensures forall id :: id in ws[k].db.operations && ws[k].db.operations[id].status.Dead? ==>
              ws[k].db.operations[id].attemptCount == c.maxAttempts
  {
    hide Happens, Inv, WorldInv, AllJust;
    if k > 0 {
      GivenUpOnlyExhausted(c, p, ws, hs, k - 1);
      HistoryInv(c, p, ws, hs, k - 1);
      HistoryJust(c, p, ws, hs, k - 1);
      StepDead(c, p, ws[k - 1], hs[k - 1], ws[k]);
    }
  }

  // ----------------------------------------------------------------- trying again

  /** A lost or failed ensure reply before the last attempt leaves a report that asks for another attempt. */
  lemma LostReplyAsksAgain(c: Config, p: Policy, w: World, h: Happening, w': World)
    requires ValidConfig(c) && Happens(c, p, w, h, w') && h.Miss? && h.job in w.jobs
    requires w.jobs[h.job].claimed.attemptNumber < c.maxAttempts && !Classify(h.error).kind.Permanent?
    ensures h.job in w'.jobs && w'.jobs[h.job].claimed == w.jobs[h.job].claimed && w'.jobs[h.job].phase.Submitting?
    ensures w'.jobs[h.job].phase.resolution.status == if Classify(h.error).kind.Retryable? then RetryWait else Unknown
  {
    hide Backoff, Classify;
  }

  /** The report of a job leaves its operation with the reported status, or as it was. */
  lemma ReportLeaves(c: Config, w: World, j: nat, w': World)
    requires ValidConfig(c) && Inv(w.db, c.maxAttempts) && JobReported(c, w, j, w')
    ensures var r := w.jobs[j].phase.resolution;
            if Accepted(w.db, r) then r.operation in w'.db.operations && w'.db.operations[r.operation].status == r.status
            else w'.db == w.db
  {
    hide Inv;
    var r := w.jobs[j].phase.resolution;
    if Accepted(w.db, r) {
      hide Next, Accepted;
      ResolutionWrites(c.maxAttempts, w.db, ResolveEvent(r), w'.db);
    } else {
      RejectedChangesNothing(c.maxAttempts, w.db, ResolveEvent(r), w'.db);
    }
  }

  /** So it leaves the operation unfinished, if it was. */
  lemma LostReplyIsRetried(c: Config, p: Policy, ws: seq<World>, hs: seq<Happening>, i: nat, n: nat)
    requires History(c, p, ws, hs) && i < n < |hs| && hs[i].Miss? && hs[n] == Report(hs[i].job)
    requires hs[i].job in ws[i].jobs && hs[i].job in ws[i + 1].jobs && hs[i].job in ws[n].jobs
    requires ws[n].jobs[hs[i].job] == ws[i + 1].jobs[hs[i].job]
    requires ws[i].jobs[hs[i].job].claimed.attemptNumber < c.maxAttempts && !Classify(hs[i].error).kind.Permanent?
    ensures var id := ws[i].jobs[hs[i].job].claimed.operation;
            id in ws[n].db.operations && !ws[n].db.operations[id].status.Terminal() ==>
              id in ws[n + 1].db.operations && !ws[n + 1].db.operations[id].status.Terminal()
  {
    ReportIsStep(c, p, ws[n], hs[n], ws[n + 1]);
    hide Happens, Inv, WorldInv, JobReported, Accepted, Classify, AllJust, Backoff;
    var j := hs[i].job;
    LostReplyAsksAgain(c, p, ws[i], hs[i], ws[i + 1]);
    HistoryInv(c, p, ws, hs, n);
    ReportLeaves(c, ws[n], j, ws[n + 1]);
    HistoryJust(c, p, ws, hs, n);
    JustCarries(c, ws[n], j);
  }

  lemma JustCarries(c: Config, w: World, j: nat)
    requires ValidConfig(c) && AllJust(c, w) && j in w.jobs && w.jobs[j].phase.Submitting?
    ensures Just(c, w.jobs[j].claimed, w.jobs[j].phase.resolution)
  {
    assert JustPhase(c, w.jobs[j]);
  }

  lemma ReportIsStep(c: Config, p: Policy, w: World, h: Happening, w': World)
    requires ValidConfig(c) && Happens(c, p, w, h, w') && h.Report?
    ensures JobReported(c, w, h.job, w') && h.job in w.jobs && w.jobs[h.job].phase.Submitting?
  {
  }

  /** After a report that asks for a retry is accepted, the operation is not claimed again before
      min(MaxRetryDelay, BaseRetryDelay * 2^(attempt - 1)) has passed. */
  lemma RetriesBackOff(c: Config, p: Policy, ws: seq<World>, hs: seq<Happening>, i: nat, k: nat)
    requires History(c, p, ws, hs) && i < k < |hs| && hs[i].Report? && hs[k].Take? && hs[k].event.ClaimEvent?
    requires hs[i].job in ws[i].jobs && ws[i].jobs[hs[i].job].phase.Submitting?
    requires var r := ws[i].jobs[hs[i].job].phase.resolution;
             Accepted(ws[i].db, r) && Retries(r.status) && hs[k].event.id == r.operation
    ensures var n := ws[i].jobs[hs[i].job].claimed.attemptNumber;
            ws[k].db.now - ws[i].db.now >= Backoff(c, n)
  {
    hide Happens, Inv, Backoff, Accepted, AllJust;
    var j := hs[i].job;
    HistoryJust(c, p, ws, hs, i);
    JustCarries(c, ws[i], j);
    RunOfLedger(c, p, ws, hs);
    var ss, es := Dbs(ws), Events(ws, hs);
    assert es[i] == ResolveEvent(ws[i].jobs[j].phase.resolution) && es[k] == hs[k].event;
    hide Run;
    RetryWaits(c.maxAttempts, ss, es, hs[k].event.id, i, k);
  }
}
