/**
 A condition a caller can check before it moves a mailbox to a new revision, and that keeps every landing call
 from being overtaken: nothing that works for the mailbox can still reach the server.
 */
module ConvergenceOrder {
  import opened Types
  import opened Ledger
  import opened LedgerRuns
  import opened Worker
  import opened MailCore
  import opened Convergence
  import opened ConvergenceSafety
  import opened ConvergenceRuns

  /** The attempt may still send a set call. */
  predicate Busy(c: Config, p: Policy, now: Time, job: Job) {
    !job.phase.Submitting? && (p.Untimed? || Alive(c, now, job.claimed))
  }

  /** No attempt on the mailbox may still send a call, and none that was sent may still land. */
  predicate Settled(c: Config, p: Policy, w: World, mailbox: Uuid) {
    && (forall j :: j in w.jobs && Busy(c, p, w.db.now, w.jobs[j]) ==> w.jobs[j].claimed.mailbox != mailbox)
    && (forall k :: k in w.calls && MayLand(p, w.db.now, w.calls[k]) ==> w.calls[k].meta.mailbox != mailbox)
  }

  /** A mailbox is moved to a new revision only when it is settled. */
  predicate Gentle(c: Config, p: Policy, w: World, h: Happening) {
    h.LedgerStep? && h.event.ReviseEvent? ==> Settled(c, p, w, h.event.mailbox)
  }

  /** Whatever can still change mail-core works for the revision its mailbox wants now. */
  predicate OnlyCurrent(c: Config, p: Policy, w: World) {
    && (forall j :: j in w.jobs && Busy(c, p, w.db.now, w.jobs[j]) ==> Current(w.db, w.jobs[j].claimed.operation))
    && (forall k :: k in w.calls && MayLand(p, w.db.now, w.calls[k]) ==> Current(w.db, w.calls[k].operation))
  }

  // ----------------------------------------------------------------- steps of the database

  lemma CurrentStays(maxAttempts: nat, db: Db, e: Event, db': Db, id: Uuid)
    requires Inv(db, maxAttempts) && Next(maxAttempts, db, e, db') && Current(db, id)
    requires e.ReviseEvent? ==> e.mailbox != db.operations[id].mailbox
    ensures Current(db', id)
  {
    hide Inv, Next;
    MailboxesGrow(maxAttempts, db, e, db');
    NextGrows(maxAttempts, db, e, db');
    assert OperationGrown(db, db', id);
  }

  /** What a database step leaves of the jobs: the same ones, or new ones for current work. */
  predicate JobsFollow(w: World, w': World) {
    forall j :: j in w'.jobs ==>
      (j in w.jobs && w'.jobs[j] == w.jobs[j]) || Current(w'.db, w'.jobs[j].claimed.operation)
  }

  lemma DbStepKeepsCurrent(c: Config, p: Policy, w: World, e: Event, w': World)
    requires Inv(w.db, c.maxAttempts) && JobsFit(c, w) && CallsFit(c, w) && OnlyCurrent(c, p, w)
    requires Next(c.maxAttempts, w.db, e, w'.db) && w'.calls == w.calls && JobsFollow(w, w')
    requires e.ReviseEvent? ==> Settled(c, p, w, e.mailbox)
    ensures OnlyCurrent(c, p, w')
  {
    MailboxesGrow(c.maxAttempts, w.db, e, w'.db);
    hide Inv, Next, JobsFit, CallsFit, Current, Settled, OnlyCurrent;
    forall j | j in w'.jobs && Busy(c, p, w'.db.now, w'.jobs[j]) ensures Current(w'.db, w'.jobs[j].claimed.operation) {
      if j in w.jobs && w'.jobs[j] == w.jobs[j] {
        JobStaysCurrent(c, p, w, e, w', j);
      }
    }
    forall k | k in w'.calls && MayLand(p, w'.db.now, w'.calls[k]) ensures Current(w'.db, w'.calls[k].operation) {
      CallStaysCurrent(c, p, w, e, w', k);
    }
    AllCurrent(c, p, w');
  }

  lemma AllCurrent(c: Config, p: Policy, w: World)
    requires forall j :: j in w.jobs && Busy(c, p, w.db.now, w.jobs[j]) ==> Current(w.db, w.jobs[j].claimed.operation)
    requires forall k :: k in w.calls && MayLand(p, w.db.now, w.calls[k]) ==> Current(w.db, w.calls[k].operation)
    ensures OnlyCurrent(c, p, w)
  {
  }

  lemma JobStaysCurrent(c: Config, p: Policy, w: World, e: Event, w': World, j: nat)
    requires Inv(w.db, c.maxAttempts) && JobsFit(c, w) && OnlyCurrent(c, p, w) && w.db.now <= w'.db.now
    requires Next(c.maxAttempts, w.db, e, w'.db) && (e.ReviseEvent? ==> Settled(c, p, w, e.mailbox))
    requires j in w.jobs && Busy(c, p, w'.db.now, w.jobs[j])
    ensures Current(w'.db, w.jobs[j].claimed.operation)
  {
    hide Inv, Next;
    assert JobFits(c, w, w.jobs[j]);
    assert Busy(c, p, w.db.now, w.jobs[j]);
    CurrentStays(c.maxAttempts, w.db, e, w'.db, w.jobs[j].claimed.operation);
  }

  lemma CallStaysCurrent(c: Config, p: Policy, w: World, e: Event, w': World, k: nat)
    requires Inv(w.db, c.maxAttempts) && CallsFit(c, w) && OnlyCurrent(c, p, w) && w.db.now <= w'.db.now
    requires Next(c.maxAttempts, w.db, e, w'.db) && (e.ReviseEvent? ==> Settled(c, p, w, e.mailbox))
    requires k in w.calls && MayLand(p, w'.db.now, w.calls[k])
    ensures Current(w'.db, w.calls[k].operation)
  {
    hide Inv, Next;
    assert CallFits(c, w.db, w.calls[k]);
    assert MayLand(p, w.db.now, w.calls[k]);
    CurrentStays(c.maxAttempts, w.db, e, w'.db, w.calls[k].operation);
  }

  lemma LedgerStepKeepsCurrent(c: Config, p: Policy, w: World, e: Event, w': World)
    requires WorldInv(c, false, w) && OnlyCurrent(c, p, w) && LedgerMoves(c, w, e, w')
    requires e.ReviseEvent? ==> Settled(c, p, w, e.mailbox)
    ensures OnlyCurrent(c, p, w')
  {
    hide WorldInv, Next, OnlyCurrent, Settled;
    LedgerHolds(c, false, w);
    DbStepKeepsCurrent(c, p, w, e, w');
  }

  lemma TakeKeepsCurrent(c: Config, p: Policy, w: World, j: nat, e: Event, w': World)
    requires ValidConfig(c) && WorldInv(c, false, w) && OnlyCurrent(c, p, w) && JobTaken(c, w, j, e, w')
    ensures OnlyCurrent(c, p, w')
  {
    hide WorldInv, OnlyCurrent, Inv;
    LedgerHolds(c, false, w);
    ClaimIsSnapshot(c, w.db, e, w'.db);
    hide Current, Snapshot, LeaseHeld;
    assert JobsFollow(w, w');
    DbStepKeepsCurrent(c, p, w, e, w');
  }

  lemma ReportKeepsCurrent(c: Config, p: Policy, w: World, j: nat, w': World)
    requires WorldInv(c, false, w) && OnlyCurrent(c, p, w) && JobReported(c, w, j, w')
    ensures OnlyCurrent(c, p, w')
  {
    hide WorldInv, Next, OnlyCurrent;
    LedgerHolds(c, false, w);
    DbStepKeepsCurrent(c, p, w, ResolveEvent(w.jobs[j].phase.resolution), w');
  }

  // ----------------------------------------------------------------- the other steps

  /** Steps inside a job leave the database alone; only a job that is not done moves, and what it sends is its own. */
  lemma JobStepShape(c: Config, w: World, h: Happening, w': World)
    requires ValidConfig(c) && InJob(h) && h.job in w.jobs && w.jobs[h.job].claimed.leaseOwner != NIL && JobStep(c, w, h, w')
    ensures w'.db == w.db && !w.jobs[h.job].phase.Submitting?
    ensures forall j :: j in w'.jobs ==>
              j in w.jobs && w'.jobs[j].claimed == w.jobs[j].claimed && (j != h.job ==> w'.jobs[j] == w.jobs[j])
    ensures forall k :: k in w'.calls ==>
              || (k in w.calls && w'.calls[k] == w.calls[k])
              || (&& w'.calls[k].operation == w.jobs[h.job].claimed.operation
                  && w.db.now < w.jobs[h.job].deadline && !w.jobs[h.job].phase.Fresh?)
  {
    hide AfterEnsure, AfterFirstInspect, AfterLastInspect, Begin, Answers, AdapterDeadline, ValidClaim, Judge;
  }

  lemma JobStepKeepsCurrent(c: Config, p: Policy, w: World, h: Happening, w': World)
    requires ValidConfig(c) && WorldInv(c, false, w) && OnlyCurrent(c, p, w)
    requires InJob(h) && h.job in w.jobs && w.jobs[h.job].claimed.leaseOwner != NIL && JobStep(c, w, h, w')
    ensures OnlyCurrent(c, p, w')
  {
    hide WorldInv, JobStep, Current, Snapshot;
    JobStepShape(c, w, h, w');
    JobKnown(c, false, w, h.job);
    var job := w.jobs[h.job];
    forall k | k in w'.calls && MayLand(p, w'.db.now, w'.calls[k]) ensures Current(w'.db, w'.calls[k].operation) {
      if !(k in w.calls && w'.calls[k] == w.calls[k]) {
        assert Busy(c, p, w.db.now, job);
      }
    }
  }

  lemma StepKeepsCurrent(c: Config, p: Policy, w: World, h: Happening, w': World)
    requires ValidConfig(c) && WorldInv(c, false, w) && OnlyCurrent(c, p, w) && Happens(c, p, w, h, w') && Gentle(c, p, w, h)
    ensures OnlyCurrent(c, p, w')
  {
    hide WorldInv, LedgerMoves, JobTaken, JobReported, JobStep, Settled;
    match h
    case LedgerStep(e) => LedgerStepKeepsCurrent(c, p, w, e, w');
    case Take(j, e) => TakeKeepsCurrent(c, p, w, j, e, w');
    case Report(j) => ReportKeepsCurrent(c, p, w, j, w');
    case Crash(j) => LessKeepsCurrent(c, p, w, w');
    case Arrival(k) => LessKeepsCurrent(c, p, w, w');
    case _ => JobStepKeepsCurrent(c, p, w, h, w');
  }

  /** Jobs that go and calls that land leave fewer to worry about. */
  lemma LessKeepsCurrent(c: Config, p: Policy, w: World, w': World)
    requires OnlyCurrent(c, p, w) && w'.db == w.db && w'.calls.Keys == w.calls.Keys
    requires forall j :: j in w'.jobs ==> j in w.jobs && w'.jobs[j] == w.jobs[j]
    requires forall k :: k in w'.calls ==> w'.calls[k] == w.calls[k] || !w'.calls[k].state.InFlight?
    ensures OnlyCurrent(c, p, w')
  {
    hide Current;
  }

  // ----------------------------------------------------------------- no call is overtaken

  /** A call for the revision its mailbox wants lands on an account that is no newer. */
  lemma CurrentLandsForward(c: Config, p: Policy, w: World, k: nat)
    requires Inv(w.db, c.maxAttempts) && CallsFit(c, w) && UpdatesOwned(w) && Provenance(w) && OnlyCurrent(c, p, w)
    requires k in w.calls && MayLand(p, w.db.now, w.calls[k])
    ensures var s := w.calls[k]; var before := SlotAt(w.accounts, s.address);
            RevisionOf(before) <= RevisionOf(Land(before, s.create, s.meta))
  {
    hide Inv;
    var s := w.calls[k];
    assert CallFits(c, w.db, s) && Current(w.db, s.operation);
    var before := SlotAt(w.accounts, s.address);
    PositiveRevision(c, w.db, s);
    if !s.create {
      assert Owns(before, s.meta);
      CurrentIsNewest(c.maxAttempts, w.db, s.operation, before.meta.operation);
    }
  }

  lemma CurrentStepForward(c: Config, p: Policy, w: World, h: Happening, w': World)
    requires ValidConfig(c) && WorldInv(c, false, w) && OnlyCurrent(c, p, w) && Happens(c, p, w, h, w')
    ensures AccountsGrown(w.accounts, w'.accounts)
  {
    hide WorldInv, Happens, OnlyCurrent, AccountsGrown, Provenance, CallsFit, UpdatesOwned, Inv;
    if h.Arrival? {
      ArrivalMayLand(c, p, w, h, w');
      LedgerHolds(c, false, w);
      CurrentLandsForward(c, p, w, h.call);
      forall a ensures RevisionAt(w, a) <= RevisionAt(w', a) {}
      StepForward(c, p, w, h, w');
    } else {
      OnlyArrivalsWrite(c, p, w, h, w');
    }
  }

  lemma ArrivalMayLand(c: Config, p: Policy, w: World, h: Happening, w': World)
    requires ValidConfig(c) && Happens(c, p, w, h, w') && h.Arrival?
    ensures h.call in w.calls && MayLand(p, w.db.now, w.calls[h.call]) && w' == Arrived(w, h.call)
  {
  }

  ghost predicate GentleHistory(c: Config, p: Policy, ws: seq<World>, hs: seq<Happening>) {
    History(c, p, ws, hs) && forall i :: 0 <= i < |hs| ==> Gentle(c, p, ws[i], hs[i])
  }

  lemma {:induction false} HistoryCurrent(c: Config, p: Policy, ws: seq<World>, hs: seq<Happening>, k: nat)
    requires GentleHistory(c, p, ws, hs) && k < |ws|
    ensures OnlyCurrent(c, p, ws[k])
  {
    hide WorldInv, Happens, Gentle;
    if k > 0 {
      hide OnlyCurrent;
      HistoryCurrent(c, p, ws, hs, k - 1);
      HistoryInv(c, p, ws, hs, k - 1);
      StepKeepsCurrent(c, p, ws[k - 1], hs[k - 1], ws[k]);
    }
  }

  /** If mailboxes are moved to new revisions only when they are settled, no landing call is ever overtaken; so no
      account goes back, and every operation alters mail-core at most once. */
  lemma SettledIsEnough(c: Config, p: Policy, ws: seq<World>, hs: seq<Happening>)
    requires GentleHistory(c, p, ws, hs)
    ensures NoneOvertaken(ws, hs) && NeverBack(ws) && EachOnce(ws, hs)
  {
    hide WorldInv, Happens, Gentle, OnlyCurrent, NoneOvertaken, NeverBack, EachOnce, AccountsGrown;
    forall i | 0 <= i < |hs| ensures AccountsGrown(ws[i].accounts, ws[i + 1].accounts) {
      HistoryInv(c, p, ws, hs, i);
      HistoryCurrent(c, p, ws, hs, i);
      CurrentStepForward(c, p, ws[i], hs[i], ws[i + 1]);
    }
    ForwardIff(c, p, ws, hs);
    EffectIff(c, p, ws, hs);
  }
}
