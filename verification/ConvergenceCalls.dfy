/** What a worker may rely on about its adapter calls, over every history: it makes them only while it holds the lease, and
    a reply to a set call says what the call did. */
module ConvergenceCalls {
  import opened Types
  import opened Ledger
  import opened Worker
  import opened MailCore
  import opened Convergence
  import opened ConvergenceSafety
  import opened ConvergenceRuns

  /** The adapter has an answer for the worker: an inspect came back, or the account was read for a set call. */
  predicate Served(h: Happening) { (h.Look? || h.Examine? || h.Confirm?) && h.fault.None? }

  lemma ServedInTime(c: Config, p: Policy, w: World, h: Happening, w': World)
    requires ValidConfig(c) && Happens(c, p, w, h, w') && Served(h)
    ensures h.job in w.jobs && !w.jobs[h.job].phase.Fresh? && w.db.now < w.jobs[h.job].deadline
  {
    hide AfterEnsure, AfterFirstInspect, AfterLastInspect, Judge, Truth;
  }

  /** Whenever the adapter serves a worker, a safety margin of its lease is left, and nobody has claimed the operation
      since: it is still leased to that attempt, unless it is finished. */
  lemma ServedUnderLease(c: Config, p: Policy, ws: seq<World>, hs: seq<Happening>, n: nat)
    requires History(c, p, ws, hs) && n < |hs| && Served(hs[n]) && hs[n].job in ws[n].jobs
    ensures var claimed := ws[n].jobs[hs[n].job].claimed;
            && ws[n].db.now + c.leaseSafetyMargin as int < claimed.leaseExpiresAt
            && claimed.operation in ws[n].db.operations
            && var op := ws[n].db.operations[claimed.operation];
               && op.leaseEpoch == claimed.leaseEpoch
               && (op.status.Terminal() || (op.status.Running? && op.leaseExpiresAt == Some(claimed.leaseExpiresAt)))
  {
    hide Happens, WorldInv, Inv, Snapshot;
    var w, j := ws[n], hs[n].job;
    HistoryInv(c, p, ws, hs, n);
    ServedInTime(c, p, w, hs[n], ws[n + 1]);
    JobKnown(c, false, w, j);
    LedgerHolds(c, false, w);
    assert Alive(c, w.db.now, w.jobs[j].claimed);
  }

  /** The account belongs to somebody else, or carries the claim's revision with another configuration. */
  predicate Barred(slot: Slot, claimed: Claimed) {
    slot.Foreign? || (slot.Managed? && (slot.meta.mailbox != claimed.mailbox || slot.meta.domain != claimed.domain
                                        || (slot.meta.revision == claimed.desiredRevision
                                            && slot.meta.hash != claimed.configurationHash)))
  }

  /** A worker that reads the account for a set call reports a failure for good if it is barred, goes on to confirm if the
      account is already there or further, and otherwise sends one call with its own marker: a create for a vacant
      address, an update for an older revision. */
  lemma ExamineDecides(c: Config, p: Policy, w: World, h: Happening, w': World)
    requires ValidConfig(c) && Happens(c, p, w, h, w') && Served(h) && h.Examine? && h.job in w.jobs
    ensures h.job in w'.jobs && w'.jobs[h.job].claimed == w.jobs[h.job].claimed
    ensures var claimed, phase := w.jobs[h.job].claimed, w'.jobs[h.job].phase;
            var slot := SlotAt(w.accounts, claimed.address);
            if Barred(slot, claimed) then
              && phase.Submitting? && phase.resolution.status == Failed
              && phase.resolution.errorCode == "MAIL_CORE_RESOURCE_CONFLICT" && w'.calls == w.calls
            else if slot.Managed? && slot.meta.revision >= claimed.desiredRevision then
              phase.Confirming? && w'.calls == w.calls
            else
              && phase == Awaiting(h.call) && h.call !in w.calls && h.call in w'.calls
              && w'.calls == w.calls[h.call := w'.calls[h.call]]
              && var s := w'.calls[h.call];
                 && s.address == claimed.address && (s.create <==> slot.Vacant?) && s.state.InFlight?
                 && s.operation == claimed.operation == s.meta.operation && s.epoch == claimed.leaseEpoch
                 && s.meta.mailbox == claimed.mailbox && s.meta.domain == claimed.domain
                 && s.meta.revision == claimed.desiredRevision && s.meta.hash == claimed.configurationHash
                 && s.deadline == w.jobs[h.job].deadline
  {
    hide Backoff;
    ConflictIsPermanent();
    hide ValidErrorCode;
  }

  lemma ConflictIsPermanent()
    ensures ValidErrorCode("MAIL_CORE_RESOURCE_CONFLICT")
  {
  }

  /** The only step that settles a call is its arrival. */
  lemma SettledByArrival(c: Config, p: Policy, w: World, h: Happening, w': World, k: nat)
    requires ValidConfig(c) && Happens(c, p, w, h, w') && k in w'.calls && !w'.calls[k].state.InFlight?
    ensures k in w.calls && (w.calls[k] == w'.calls[k] || h == Arrival(k))
  {
    hide AfterEnsure, AfterFirstInspect, AfterLastInspect, Begin, Next, Judge;
  }

  lemma ArrivalTells(c: Config, p: Policy, w: World, k: nat, w': World)
    requires ValidConfig(c) && WorldInv(c, false, w) && Happens(c, p, w, Arrival(k), w')
    ensures k in w.calls && k in w'.calls && SameCall(w.calls[k], w'.calls[k]) && !w'.calls[k].state.InFlight?
    ensures var s := w.calls[k];
            var before, after := SlotAt(w.accounts, s.address), SlotAt(w'.accounts, s.address);
            if w'.calls[k].state.Landed?
            then after == Managed(s.meta) && (before.Vacant? <==> s.create) && (s.create || Owns(before, s.meta))
            else after == before && s.create && !before.Vacant?
  {
    LedgerHolds(c, false, w);
    hide WorldInv, Inv;
  }

  /** A settled call arrived at some step.  If it is settled as landed, that step left its marker in the account, which was
      vacant for a create and the mailbox's own for an update; if it is settled as refused, it was a create that found the
      address taken, and nothing changed. */
  lemma {:induction false} ReplyTells(c: Config, p: Policy, ws: seq<World>, hs: seq<Happening>, n: nat, k: nat) returns (m: nat)
    requires History(c, p, ws, hs) && n < |ws| && k in ws[n].calls && !ws[n].calls[k].state.InFlight?
    ensures m < n && hs[m] == Arrival(k) && k in ws[m].calls && k in ws[m + 1].calls && ws[m + 1].calls[k] == ws[n].calls[k]
    ensures var s := ws[n].calls[k];
            var before, after := SlotAt(ws[m].accounts, s.address), SlotAt(ws[m + 1].accounts, s.address);
            if s.state.Landed?
            then after == Managed(s.meta) && (before.Vacant? <==> s.create) && (s.create || Owns(before, s.meta))
            else after == before && s.create && !before.Vacant?
  {
    hide Happens, WorldInv, Inv;
    SettledByArrival(c, p, ws[n - 1], hs[n - 1], ws[n], k);
    if hs[n - 1] == Arrival(k) {
      m := n - 1;
      HistoryInv(c, p, ws, hs, m);
      ArrivalTells(c, p, ws[m], k, ws[n]);
    } else {
      m := ReplyTells(c, p, ws, hs, n - 1, k);
    }
  }
}
