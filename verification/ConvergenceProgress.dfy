/**
 Which claims can still end in success: the guarantees of the whole system are not kept by standing still.
 A claim can succeed exactly when the account at its address is vacant, behind, or already as desired.
 */
module ConvergenceProgress {
  import opened Types
  import opened Ledger
  import opened LedgerSafety
  import opened LedgerRuns
  import opened Worker
  import opened Marker
  import opened MailCore
  import opened Convergence
  import opened ConvergenceSafety
  import opened ConvergenceRuns

  /** A path of the system from one world to another. */
  ghost predicate Path(c: Config, p: Policy, ws: seq<World>, hs: seq<Happening>, w: World, w': World)
    requires ValidConfig(c)
  {
    && |ws| == |hs| + 1 && ws[0] == w && ws[|hs|] == w'
    && forall i :: 0 <= i < |hs| ==> Happens(c, p, ws[i], hs[i], ws[i + 1])
  }

  /** The job has been claimed and not started, and there is time for its calls. */
  predicate Waiting(c: Config, w: World, j: nat)
    requires ValidConfig(c)
  {
    && j in w.jobs && w.jobs[j].phase.Fresh? && w.db.now > 0
    && ValidClaim(Own(c, w.jobs[j].claimed), w.jobs[j].claimed) && w.jobs[j].claimed.leaseOwner != NIL
    && w.db.now < AdapterDeadline(c, w.jobs[j].claimed, w.db.now, None)
  }

  /** The account is vacant or behind. */
  predicate Behind(w: World, j: nat)
    requires j in w.jobs
  {
    var verdict := Judge(SlotAt(w.accounts, w.jobs[j].claimed.address), MarkerOf(w.jobs[j].claimed));
    verdict.MustCreate? || verdict.MustAdvance?
  }

  function InPhase(w: World, j: nat, deadline: int, phase: Phase): World
    requires j in w.jobs
  {
    w.(jobs := w.jobs[j := Job(w.jobs[j].claimed, deadline, phase)])
  }

  /** From the claim to the account: an inspect first where the earlier outcome is unknown. */
  lemma Approaches(c: Config, p: Policy, w: World, j: nat) returns (ws: seq<World>, hs: seq<Happening>, deadline: int)
    requires ValidConfig(c) && Waiting(c, w, j) && Behind(w, j)
    ensures deadline == AdapterDeadline(c, w.jobs[j].claimed, w.db.now, None)
    ensures Path(c, p, ws, hs, w, InPhase(w, j, deadline, Reading))
  {
    hide AdapterDeadline, Backoff, ValidErrorCode;
    var claimed := w.jobs[j].claimed;
    deadline := AdapterDeadline(c, claimed, w.db.now, None);
    var last := InPhase(w, j, deadline, Reading);
    if MustInspect(claimed) {
      var mid := InPhase(w, j, deadline, Inspecting);
      var reply := Truth(SlotAt(w.accounts, claimed.address), claimed.mailbox, claimed.domain, w.db.now);
      assert mid.jobs[j := mid.jobs[j].(phase := Reading)] == last.jobs;
      assert Happens(c, p, w, Start(j, None), mid);
      assert Happens(c, p, mid, Look(j, None, reply), last);
      ws, hs := [w, mid, last], [Start(j, None), Look(j, None, reply)];
    } else {
      assert Happens(c, p, w, Start(j, None), last);
      ws, hs := [w, last], [Start(j, None)];
    }
  }

  /** The call an attempt sends lands and alters the account. */
  lemma Writes(c: Config, p: Policy, w: World, j: nat, deadline: int, k: nat)
    returns (ws: seq<World>, hs: seq<Happening>, w': World)
    requires ValidConfig(c) && j in w.jobs && Behind(w, j) && w.jobs[j].claimed.leaseOwner != NIL && w.db.now < deadline
    requires w.jobs[j] == Job(w.jobs[j].claimed, deadline, Reading) && k !in w.calls
    ensures Path(c, p, ws, hs, w, w') && w'.db == w.db && j in w'.jobs && k in w'.calls
    ensures w'.jobs[j] == w.jobs[j].(phase := Awaiting(k)) && w'.calls[k].state.Landed?
    ensures SlotAt(w'.accounts, w.jobs[j].claimed.address) == Managed(MarkerOf(w.jobs[j].claimed))
  {
    hide AfterEnsure;
    var claimed := w.jobs[j].claimed;
    var create := Judge(SlotAt(w.accounts, claimed.address), MarkerOf(claimed)).MustCreate?;
    var s := SetCall(claimed.operation, claimed.leaseEpoch, claimed.address, create, MarkerOf(claimed), deadline, InFlight);
    var a := w.(jobs := w.jobs[j := w.jobs[j].(phase := Awaiting(k))], calls := w.calls[k := s]);
    assert Happens(c, p, w, Examine(j, k, None), a);
    w' := Arrived(a, k);
    assert Happens(c, p, a, Arrival(k), w');
    ws, hs := [w, a, w'], [Examine(j, k, None), Arrival(k)];
  }

  function Seen(claimed: Claimed, now: Time): ObservedMailbox {
    ObservedMailbox(claimed.mailbox, Active, claimed.desiredRevision, claimed.configurationHash, now)
  }

  /** The attempt hears of its landed call, inspects the account and reports success. */
  lemma Confirms(c: Config, p: Policy, w: World, j: nat)
    returns (ws: seq<World>, hs: seq<Happening>, w': World)
    requires ValidConfig(c) && j in w.jobs && w.jobs[j].claimed.leaseOwner != NIL && 0 < w.db.now < w.jobs[j].deadline
    requires w.jobs[j].phase.Awaiting? && w.jobs[j].phase.call in w.calls && w.calls[w.jobs[j].phase.call].state.Landed?
    requires SlotAt(w.accounts, w.jobs[j].claimed.address) == Managed(MarkerOf(w.jobs[j].claimed))
    ensures Path(c, p, ws, hs, w, w') && w'.db == w.db && j in w'.jobs && w'.jobs[j].phase.Submitting?
    ensures w'.accounts == w.accounts
    ensures var claimed := w.jobs[j].claimed;
            w'.jobs[j].phase.resolution ==
              Answer(Own(c, claimed), claimed, Succeeded, "", Some(Seen(claimed, w.db.now)))
  {
    hide Backoff, ValidErrorCode;
    var claimed := w.jobs[j].claimed;
    var d := w.(jobs := w.jobs[j := w.jobs[j].(phase := Confirming)]);
    assert Happens(c, p, w, Hear(j), d);
    var reply := Observed(Seen(claimed, w.db.now));
    w' := d.(jobs := d.jobs[j := d.jobs[j].(phase := ToPhase(AfterLastInspect(Own(c, claimed), claimed, reply)))]);
    assert Happens(c, p, d, Confirm(j, None, reply), w');
    ws, hs := [w, d, w'], [Hear(j), Confirm(j, None, reply)];
  }

  /** The success an attempt reports within its lease is accepted. */
  lemma SuccessAccepted(c: Config, db: Db, e: Event, db': Db)
    requires ValidConfig(c) && Inv(db, c.maxAttempts) && db.now > 0
    requires e.ClaimEvent? && e.leaseMicros == LeaseMicros(c) && Next(c.maxAttempts, db, e, db')
    ensures Claimable(db, c.maxAttempts, e.id)
    ensures var claimed := ClaimedRow(db, e.id, e.owner, e.leaseMicros);
            ValidConfig(Own(c, claimed))
            && Accepted(db', Answer(Own(c, claimed), claimed, Succeeded, "", Some(Seen(claimed, db.now))))
  {
    hide Inv, Backoff, ValidErrorCode;
    CandidateIsClaimable(c.maxAttempts, db, e, db');
    ClaimsAreValid(c, db, e, db');
    NextKeepsInv(c.maxAttempts, db, e, db');
    hide Next, ClaimBefore;
    var claimed := ClaimedRow(db, e.id, e.owner, e.leaseMicros);
    var r := Answer(Own(c, claimed), claimed, Succeeded, "", Some(Seen(claimed, db.now)));
    AnswerIsValid(Own(c, claimed), claimed, Succeeded, "", Some(Seen(claimed, db.now)));
    FenceDecides(db', c.maxAttempts, r);
  }

  /** The success an attempt reports at any later time is accepted if and only if nothing touched the operation
      since the claim, the lease still runs, and the mailbox still wants the operation's revision active. */
  lemma SuccessHonoured(c: Config, ss: seq<Db>, es: seq<Event>, j: nat, k: nat, claimed: Claimed, seenAt: Time)
    requires ValidConfig(c) && LedgerRuns.Run(c.maxAttempts, ss, es) && j < k < |es| && ss[j].now > 0 && seenAt > 0
    requires es[j].ClaimEvent? && es[j].leaseMicros == LeaseMicros(c) && Claimable(ss[j], c.maxAttempts, es[j].id)
    requires claimed == ClaimedRow(ss[j], es[j].id, es[j].owner, es[j].leaseMicros) && ValidConfig(Own(c, claimed))
    requires es[k] == ResolveEvent(Answer(Own(c, claimed), claimed, Succeeded, "", Some(Seen(claimed, seenAt))))
    ensures es[j].id in ss[k].operations && Joined(ss[k], ss[k].operations[es[j].id])
    ensures var mb := ss[k].mailboxes[ss[k].operations[es[j].id].mailbox];
            Accepted(ss[k], es[k].resolution) <==>
              && (forall i :: j < i < k ==> !Touches(ss[i], es[i], es[j].id))
              && ss[k].now < ss[j].now + LeaseTime(c)
              && mb.revision == claimed.desiredRevision && mb.desiredStatus.DesiredActive?
  {
    assert es[j].id in ss[j].operations;
    hide Inv, Next, Backoff, ValidErrorCode, Claimable, Accepted;
    RunInv(c.maxAttempts, ss, es, j);
    ClaimsAreValid(c, ss[j], es[j], ss[j + 1]);
    AnswerIsValid(Own(c, claimed), claimed, Succeeded, "", Some(Seen(claimed, seenAt)));
    IntentStays(c.maxAttempts, ss, es, es[j].id, j, k);
    TokenHonoured(c.maxAttempts, ss, es, j, k);
  }

  lemma Join(c: Config, p: Policy, a: World, b: World, d: World,
             ws: seq<World>, hs: seq<Happening>, xs: seq<World>, gs: seq<Happening>)
    returns (ys: seq<World>, fs: seq<Happening>)
    requires ValidConfig(c) && Path(c, p, ws, hs, a, b) && Path(c, p, xs, gs, b, d)
    ensures Path(c, p, ys, fs, a, d)
  {
    hide Happens;
    ys, fs := ws + xs[1..], hs + gs;
    forall i | 0 <= i < |fs| ensures Happens(c, p, ys[i], fs[i], ys[i + 1]) {
      if i >= |hs| {
        assert ys[i] == xs[i - |hs|] && ys[i + 1] == xs[i - |hs| + 1];
      }
    }
  }

  /** The operation is done, and mail-core holds exactly its marker. */
  predicate Provisioned(w: World, id: Uuid, address: string, meta: Metadata) {
    && id in w.db.operations && w.db.operations[id].status.Succeeded?
    && SlotAt(w.accounts, address) == Managed(meta)
  }

  lemma Reports(c: Config, p: Policy, w: World, j: nat) returns (w': World)
    requires ValidConfig(c) && j in w.jobs && w.jobs[j].phase.Submitting? && Accepted(w.db, w.jobs[j].phase.resolution)
    ensures Path(c, p, [w, w'], [Report(j)], w, w') && w'.accounts == w.accounts
    ensures w.jobs[j].phase.resolution.operation in w'.db.operations
    ensures w'.db.operations[w.jobs[j].phase.resolution.operation].status == w.jobs[j].phase.resolution.status
  {
    hide ValidResolution;
    var r := w.jobs[j].phase.resolution;
    w' := w.(db := Ledger.Resolve(w.db, r), jobs := w.jobs - {j});
    assert Happens(c, p, w, Report(j), w');
  }

  /** The account already carries the marker: an earlier attempt's call landed and nobody heard of it.
      The attempt sees it in its first inspect, or finds nothing to send and sees it in its last one. */
  lemma FindsItDone(c: Config, p: Policy, w: World, j: nat)
    returns (ws: seq<World>, hs: seq<Happening>, w': World)
    requires ValidConfig(c) && Waiting(c, w, j)
    requires SlotAt(w.accounts, w.jobs[j].claimed.address) == Managed(MarkerOf(w.jobs[j].claimed))
    ensures Path(c, p, ws, hs, w, w') && w'.db == w.db && w'.accounts == w.accounts && j in w'.jobs
    ensures var claimed := w.jobs[j].claimed;
            w'.jobs[j].phase == Submitting(Answer(Own(c, claimed), claimed, Succeeded, "", Some(Seen(claimed, w.db.now))))
  {
    hide AdapterDeadline, Backoff, ValidErrorCode;
    var claimed := w.jobs[j].claimed;
    var own := Own(c, claimed);
    var deadline := AdapterDeadline(c, claimed, w.db.now, None);
    var reply := Observed(Seen(claimed, w.db.now));
    w' := InPhase(w, j, deadline, Submitting(Answer(own, claimed, Succeeded, "", Some(Seen(claimed, w.db.now)))));
    if MustInspect(claimed) {
      var mid := InPhase(w, j, deadline, Inspecting);
      assert mid.jobs[j := mid.jobs[j].(phase := w'.jobs[j].phase)] == w'.jobs;
      assert Happens(c, p, w, Start(j, None), mid);
      assert Happens(c, p, mid, Look(j, None, reply), w');
      ws, hs := [w, mid, w'], [Start(j, None), Look(j, None, reply)];
    } else {
      var a, b := InPhase(w, j, deadline, Reading), InPhase(w, j, deadline, Confirming);
      assert a.jobs[j := a.jobs[j].(phase := Confirming)] == b.jobs;
      assert b.jobs[j := b.jobs[j].(phase := w'.jobs[j].phase)] == w'.jobs;
      assert Happens(c, p, w, Start(j, None), a);
      assert Happens(c, p, a, Examine(j, 0, None), b);
      assert Happens(c, p, b, Confirm(j, None, reply), w');
      ws, hs := [w, a, b, w'], [Start(j, None), Examine(j, 0, None), Confirm(j, None, reply)];
    }
  }

  /** A new job starts in time to finish. */
  lemma TakenIsWaiting(c: Config, w: World, j: nat, e: Event, w': World)
    requires ValidConfig(c) && Inv(w.db, c.maxAttempts) && w.db.now > 0 && JobTaken(c, w, j, e, w')
    ensures w'.jobs[j].claimed == ClaimedRow(w.db, e.id, e.owner, e.leaseMicros)
    ensures Waiting(c, w', j) && w'.db.now == w.db.now
  {
    var claimed := ClaimedRow(w.db, e.id, e.owner, e.leaseMicros);
    assert w'.db.now == w.db.now;
    ClaimsAreValid(c, w.db, e, w'.db);
    hide Inv, Next, Claimable;
    AdapterWindow(c, claimed, w.db.now, None);
  }

  /** A job's way to its account. */
  lemma Reaches(c: Config, p: Policy, w: World, j: nat, k: nat)
    returns (ws: seq<World>, hs: seq<Happening>, w': World)
    requires ValidConfig(c) && Waiting(c, w, j) && Behind(w, j) && k !in w.calls
    ensures Path(c, p, ws, hs, w, w') && w'.db == w.db && j in w'.jobs && k in w'.calls
    ensures w'.jobs[j].claimed == w.jobs[j].claimed && w'.jobs[j].phase == Awaiting(k) && w'.calls[k].state.Landed?
    ensures w'.db.now < w'.jobs[j].deadline
    ensures SlotAt(w'.accounts, w.jobs[j].claimed.address) == Managed(MarkerOf(w.jobs[j].claimed))
  {
    hide Path, AdapterDeadline, Judge, ValidClaim, MarkerOf;
    var deadline;
    ws, hs, deadline := Approaches(c, p, w, j);
    var mid := InPhase(w, j, deadline, Reading);
    var xs, gs;
    xs, gs, w' := Writes(c, p, mid, j, deadline, k);
    ws, hs := Join(c, p, w, mid, w', ws, hs, xs, gs);
  }

  /** A waiting job whose account is vacant, behind or as desired gets to report success. */
  lemma GetsToReport(c: Config, p: Policy, w: World, j: nat)
    returns (ws: seq<World>, hs: seq<Happening>, w': World)
    requires ValidConfig(c) && Waiting(c, w, j)
    requires Behind(w, j) || SlotAt(w.accounts, w.jobs[j].claimed.address) == Managed(MarkerOf(w.jobs[j].claimed))
    ensures Path(c, p, ws, hs, w, w') && w'.db == w.db && j in w'.jobs
    ensures SlotAt(w'.accounts, w.jobs[j].claimed.address) == Managed(MarkerOf(w.jobs[j].claimed))
    ensures var claimed := w.jobs[j].claimed;
            w'.jobs[j].phase == Submitting(Answer(Own(c, claimed), claimed, Succeeded, "", Some(Seen(claimed, w.db.now))))
  {
    hide Path, MarkerOf, Answer, AdapterDeadline, Judge;
    if Behind(w, j) {
      var k := Unused(w.calls.Keys);
      var mid, xs, gs;
      ws, hs, mid := Reaches(c, p, w, j, k);
      xs, gs, w' := Confirms(c, p, mid, j);
      ws, hs := Join(c, p, w, mid, w', ws, hs, xs, gs);
    } else {
      ws, hs, w' := FindsItDone(c, p, w, j);
    }
  }

  lemma {:induction false} Unused(taken: set<nat>) returns (k: nat)
    ensures forall x :: x in taken ==> x < k
  {
    if taken == {} {
      k := 0;
    } else {
      var x :| x in taken;
      var b := Unused(taken - {x});
      k := if b <= x then x + 1 else b;
      forall y | y in taken ensures y < k {
        assert y == x || y in taken - {x};
      }
    }
  }

  // ----------------------------------------------------------------- exactly which claims can succeed

  lemma ClockRuns(c: Config, w: World)
    requires WorldInv(c, false, w)
    ensures w.db.now > 0 && Inv(w.db, c.maxAttempts)
  {
  }

  /** The mailbox's account is the current operation's own, or older. */
  lemma OwnedIsOursOrOlder(maxAttempts: nat, w: World, id: Uuid)
    requires Inv(w.db, maxAttempts) && Provenance(w) && Current(w.db, id)
    ensures var slot := SlotAt(w.accounts, AddressOf(w.db, w.db.operations[id].mailbox));
            Owns(slot, Stamp(w.db, id)) ==>
              slot == Managed(Stamp(w.db, id)) || slot.meta.revision < w.db.operations[id].desiredRevision
  {
    hide Inv;
    var slot := SlotAt(w.accounts, AddressOf(w.db, w.db.operations[id].mailbox));
    if Owns(slot, Stamp(w.db, id)) {
      CurrentIsNewest(maxAttempts, w.db, id, slot.meta.operation);
    }
  }

  /** What a claim's account looks like to the operation: vacant, its own, behind, or somebody else's. */
  lemma TakenSlot(c: Config, w: World, j: nat, e: Event, w1: World)
    requires ValidConfig(c) && WorldInv(c, false, w) && JobTaken(c, w, j, e, w1)
    ensures WorldInv(c, false, w1) && Known(w1.db, e.id)
    ensures var claimed := w1.jobs[j].claimed; var slot := SlotAt(w1.accounts, claimed.address);
            && MarkerOf(claimed) == Stamp(w1.db, e.id) && claimed.address == AddressOf(w1.db, w1.db.operations[e.id].mailbox)
            && (Owns(slot, MarkerOf(claimed)) ==>
                  slot == Managed(MarkerOf(claimed)) || slot.meta.revision < claimed.desiredRevision)
  {
    hide WorldInv, Provenance, Inv;
    ClockRuns(c, w);
    TakeKeeps(c, false, w, j, e, w1);
    ClaimIsSnapshot(c, w.db, e, w1.db);
    LedgerHolds(c, false, w1);
    hide Next, JobsFit, SuccessHolds, WindowsHeld;
    OwnedIsOursOrOlder(c.maxAttempts, w1, e.id);
  }

  /** Along a path accounts keep their owners, and an operation its marker and address. */
  lemma {:induction false} PathKeeps(c: Config, p: Policy, ws: seq<World>, hs: seq<Happening>, w: World, w': World,
                                     id: Uuid, n: nat)
    requires ValidConfig(c) && WorldInv(c, false, w) && Path(c, p, ws, hs, w, w') && n <= |hs| && Known(w.db, id)
    ensures WorldInv(c, false, ws[n]) && Known(ws[n].db, id) && Stamp(ws[n].db, id) == Stamp(w.db, id)
    ensures AddressOf(ws[n].db, ws[n].db.operations[id].mailbox) == AddressOf(w.db, w.db.operations[id].mailbox)
    ensures forall a :: SlotKept(SlotAt(w.accounts, a), SlotAt(ws[n].accounts, a))
  {
    hide WorldInv, Happens, Grown, SlotKept;
    if n == 0 {
      forall a ensures SlotKept(SlotAt(w.accounts, a), SlotAt(w.accounts, a)) { SlotStays(SlotAt(w.accounts, a)); }
    } else {
      PathKeeps(c, p, ws, hs, w, w', id, n - 1);
      var u, v := ws[n - 1], ws[n];
      StepKeeps(c, p, false, u, hs[n - 1], v);
      StepGrows(c, p, u, hs[n - 1], v);
      GrownKeepsStamp(u.db, v.db, id);
      forall a ensures SlotKept(SlotAt(w.accounts, a), SlotAt(v.accounts, a)) {
        assert SlotKept(SlotAt(u.accounts, a), SlotAt(v.accounts, a));
        SlotKeptTransitive(SlotAt(w.accounts, a), SlotAt(u.accounts, a), SlotAt(v.accounts, a));
      }
    }
  }

  /** Some continuation makes the operation succeed. */
  ghost predicate CanSucceed(c: Config, p: Policy, w: World, id: Uuid)
    requires ValidConfig(c)
  {
    exists ws, hs, w' :: Path(c, p, ws, hs, w, w') && id in w'.db.operations && w'.db.operations[id].status.Succeeded?
  }

  /** Some continuation makes the operation succeed with the account carrying exactly its marker. */
  ghost predicate CanProvision(c: Config, p: Policy, w: World, id: Uuid, address: string, meta: Metadata)
    requires ValidConfig(c)
  {
    exists ws, hs, w' :: Path(c, p, ws, hs, w, w') && Provisioned(w', id, address, meta)
  }

  lemma RoomGivesSuccess(c: Config, p: Policy, w: World, j: nat, e: Event, w1: World)
    requires ValidConfig(c) && WorldInv(c, false, w) && JobTaken(c, w, j, e, w1)
    requires var verdict := Judge(SlotAt(w1.accounts, w1.jobs[j].claimed.address), MarkerOf(w1.jobs[j].claimed));
             !verdict.Conflict? && !verdict.Newer?
    ensures CanProvision(c, p, w1, e.id, w1.jobs[j].claimed.address, MarkerOf(w1.jobs[j].claimed))
  {
    hide WorldInv, Inv, Next, Path, Accepted, Answer, AdapterDeadline, ValidClaim, Known, Stamp;
    ClockRuns(c, w);
    TakenIsWaiting(c, w, j, e, w1);
    TakenSlot(c, w, j, e, w1);
    SuccessAccepted(c, w.db, e, w1.db);
    var ws, hs, mid := GetsToReport(c, p, w1, j);
    AnswersFor(c, w1.jobs[j].claimed, w1.db.now);
    var w' := Reports(c, p, mid, j);
    ws, hs := Join(c, p, w1, mid, w', ws, hs, [mid, w'], [Report(j)]);
    assert Provisioned(w', e.id, w1.jobs[j].claimed.address, MarkerOf(w1.jobs[j].claimed));
  }

  lemma AnswersFor(c: Config, claimed: Claimed, now: Time)
    requires ValidConfig(c) && ValidConfig(Own(c, claimed))
    ensures var r := Answer(Own(c, claimed), claimed, Succeeded, "", Some(Seen(claimed, now)));
            r.operation == claimed.operation && r.status.Succeeded?
  {
  }

  lemma SuccessNeedsRoom(c: Config, p: Policy, w: World, j: nat, e: Event, w1: World,
                         ws: seq<World>, hs: seq<Happening>, w': World)
    requires ValidConfig(c) && WorldInv(c, false, w) && JobTaken(c, w, j, e, w1) && Path(c, p, ws, hs, w1, w')
    requires e.id in w'.db.operations && w'.db.operations[e.id].status.Succeeded?
    ensures var verdict := Judge(SlotAt(w1.accounts, w1.jobs[j].claimed.address), MarkerOf(w1.jobs[j].claimed));
            !verdict.Conflict? && !verdict.Newer?
  {
    hide WorldInv, Next, Happens;
    TakenSlot(c, w, j, e, w1);
    PathKeeps(c, p, ws, hs, w1, w', e.id, |hs|);
    LedgerHolds(c, false, w');
    hide Inv, JobsFit, WindowsHeld, Provenance;
    var address := w1.jobs[j].claimed.address;
    assert Holds(w', e.id, false);
    assert SlotKept(SlotAt(w1.accounts, address), SlotAt(w'.accounts, address));
  }

  /**
   A claim can succeed if and only if the account at its address is neither somebody else's nor newer.
   The account may be vacant, behind, or already carry the operation's marker because an earlier attempt's
   call landed unheard; the success then leaves exactly the operation's marker.  Otherwise no continuation
   whatever makes the operation succeed.
   */
  lemma ClaimCanSucceed(c: Config, p: Policy, w: World, j: nat, e: Event, w1: World)
    requires ValidConfig(c) && WorldInv(c, false, w) && JobTaken(c, w, j, e, w1)
    ensures var claimed := w1.jobs[j].claimed;
            var verdict := Judge(SlotAt(w1.accounts, claimed.address), MarkerOf(claimed));
            && (CanSucceed(c, p, w1, e.id) <==> !verdict.Conflict? && !verdict.Newer?)
            && (CanSucceed(c, p, w1, e.id) <==> CanProvision(c, p, w1, e.id, claimed.address, MarkerOf(claimed)))
  {
    hide WorldInv, Next, Path, Judge, MarkerOf;
    var claimed := w1.jobs[j].claimed;
    var verdict := Judge(SlotAt(w1.accounts, claimed.address), MarkerOf(claimed));
    if !verdict.Conflict? && !verdict.Newer? {
      RoomGivesSuccess(c, p, w, j, e, w1);
    }
    if ws, hs, w' :| Path(c, p, ws, hs, w1, w') && e.id in w'.db.operations && w'.db.operations[e.id].status.Succeeded? {
      SuccessNeedsRoom(c, p, w, j, e, w1, ws, hs, w');
    }
  }
}
