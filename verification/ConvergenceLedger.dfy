/** The ledger's side of a history of the whole system is a run of the ledger. */
module ConvergenceLedger {
  import opened Types
  import opened Ledger
  import opened LedgerRuns
  import opened LedgerHistory
  import opened Worker
  import opened MailCore
  import opened Convergence
  import opened ConvergenceSafety
  import opened ConvergenceRuns

  /** The ledger step a happening takes; others let no time pass. */
  function EventOf(w: World, h: Happening): Event {
    match h
    case LedgerStep(e) => e
    case Take(_, e) => e
    case Report(j) => if j in w.jobs && w.jobs[j].phase.Submitting? then ResolveEvent(w.jobs[j].phase.resolution) else Event.Tick(0)
    case _ => Event.Tick(0)
  }

  function Dbs(ws: seq<World>): seq<Db> { seq(|ws|, i requires 0 <= i < |ws| => ws[i].db) }

  function Events(ws: seq<World>, hs: seq<Happening>): seq<Event>
    requires |ws| == |hs| + 1
  {
    seq(|hs|, i requires 0 <= i < |hs| => EventOf(ws[i], hs[i]))
  }

  lemma StepOfLedger(c: Config, p: Policy, w: World, h: Happening, w': World)
    requires ValidConfig(c) && Happens(c, p, w, h, w')
    ensures Next(c.maxAttempts, w.db, EventOf(w, h), w'.db)
  {
    if h.LedgerStep? || h.Take? || h.Report? {
      hide Next;
    } else {
      StillLedger(c, p, w, h, w');
      hide Happens;
    }
  }

  lemma StillLedger(c: Config, p: Policy, w: World, h: Happening, w': World)
    requires ValidConfig(c) && Happens(c, p, w, h, w') && !h.LedgerStep? && !h.Take? && !h.Report?
    ensures w'.db == w.db
  {
  }

  lemma RunOfLedger(c: Config, p: Policy, ws: seq<World>, hs: seq<Happening>)
    requires History(c, p, ws, hs)
    ensures Run(c.maxAttempts, Dbs(ws), Events(ws, hs)) && Initial(Dbs(ws)[0])
  {
    InitialInv(ws[0].db, c.maxAttempts);
    hide Inv, Next, Happens;
    forall i | 0 <= i < |hs| ensures Next(c.maxAttempts, Dbs(ws)[i], Events(ws, hs)[i], Dbs(ws)[i + 1]) {
      StepOfLedger(c, p, ws[i], hs[i], ws[i + 1]);
    }
  }

  // ----------------------------------------------------------------- inspect before sending again

  /** The attempt has got past the point where it may send. */
  predicate Sending(phase: Phase) { phase.Reading? || phase.Awaiting? || phase.Confirming? }

  /** A job that must inspect first gets there only by an inspect of its own that was answered. */
  lemma SendingNeedsLook(c: Config, p: Policy, w: World, h: Happening, w': World, j: nat)
    requires ValidConfig(c) && Happens(c, p, w, h, w') && j in w'.jobs && Sending(w'.jobs[j].phase)
    requires MustInspect(w'.jobs[j].claimed)
    ensures j in w.jobs && w.jobs[j].claimed == w'.jobs[j].claimed
    ensures Sending(w.jobs[j].phase) || (h.Look? && h.job == j && h.fault.None?)
  {
    hide Next, AdapterDeadline, ValidClaim, Backoff, Classify, Judge, MatchesDesired, Truth, ClaimedRow;
  }

  lemma {:induction false} LookedBefore(c: Config, p: Policy, ws: seq<World>, hs: seq<Happening>, n: nat, j: nat) returns (m: nat)
    requires History(c, p, ws, hs) && n < |ws| && j in ws[n].jobs && Sending(ws[n].jobs[j].phase)
    requires MustInspect(ws[n].jobs[j].claimed)
    ensures m < n && hs[m].Look? && hs[m].job == j && hs[m].fault.None?
    ensures j in ws[m].jobs && ws[m].jobs[j].claimed == ws[n].jobs[j].claimed
  {
    hide Happens, MustInspect;
    SendingNeedsLook(c, p, ws[n - 1], hs[n - 1], ws[n], j);
    if Sending(ws[n - 1].jobs[j].phase) {
      m := LookedBefore(c, p, ws, hs, n - 1, j);
    } else {
      m := n - 1;
    }
  }

  /** The attempt before this one ended with an unknown outcome, by its own report or because it was taken over. */
  predicate AfterUnknown(db: Db, claimed: Claimed) {
    && 2 <= claimed.leaseEpoch <= |Rows(db, claimed.operation)|
    && Rows(db, claimed.operation)[claimed.leaseEpoch - 2].result == Some(Unknown)
  }

  /** The log says so exactly if the claim does. */
  lemma UnknownMustInspect(c: Config, db: Db, claimed: Claimed)
    requires Snapshot(c, db, claimed) && AllRecorded(db)
    ensures MustInspect(claimed) <==> AfterUnknown(db, claimed)
  {
    assert Recorded(db, claimed.operation);
    var rows := Rows(db, claimed.operation);
    if claimed.leaseEpoch >= 2 {
      assert Follows(rows[claimed.leaseEpoch - 2], rows[claimed.leaseEpoch - 2 + 1]);
    }
  }

  /** Over every history, an attempt whose predecessor ended unknown or was taken over examines its account for a set call
      only after an inspect of its own was answered. */
  lemma LooksFirst(c: Config, p: Policy, ws: seq<World>, hs: seq<Happening>, n: nat) returns (m: nat)
    requires History(c, p, ws, hs) && n < |hs| && hs[n].Examine? && hs[n].job in ws[n].jobs
    requires AfterUnknown(ws[n].db, ws[n].jobs[hs[n].job].claimed)
    ensures m < n && hs[m].Look? && hs[m].job == hs[n].job && hs[m].fault.None?
    ensures hs[m].job in ws[m].jobs && ws[m].jobs[hs[m].job].claimed == ws[n].jobs[hs[n].job].claimed
  {
    ExamineIsReading(c, p, ws[n], hs[n], ws[n + 1]);
    hide Happens, Inv, WorldInv, Snapshot, AfterUnknown, MustInspect, AllRecorded;
    var j := hs[n].job;
    HistoryInv(c, p, ws, hs, n);
    JobKnown(c, false, ws[n], j);
    RunOfLedger(c, p, ws, hs);
    RunRecorded(c.maxAttempts, Dbs(ws), Events(ws, hs), n);
    UnknownMustInspect(c, ws[n].db, ws[n].jobs[j].claimed);
    m := LookedBefore(c, p, ws, hs, n, j);
  }

  lemma ExamineIsReading(c: Config, p: Policy, w: World, h: Happening, w': World)
    requires ValidConfig(c) && Happens(c, p, w, h, w') && h.Examine?
    ensures h.job in w.jobs && w.jobs[h.job].phase.Reading?
  {
  }
}
