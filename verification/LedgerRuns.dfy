/** Properties of whole runs of the ledger: fencing, bounded retries, liveness of due work, fairness. */
module LedgerRuns {
  import opened Types
  import opened Ledger
  import opened LedgerSafety

  /** Any interleaving of ledger statements and environment steps. */
  ghost predicate Run(maxAttempts: nat, ss: seq<Db>, es: seq<Event>) {
    && |ss| == |es| + 1
    && Inv(ss[0], maxAttempts)
    && forall i :: 0 <= i < |es| ==> Next(maxAttempts, ss[i], es[i], ss[i + 1])
  }

  lemma InitialInv(db: Db, maxAttempts: nat)
    requires Initial(db)
    ensures Inv(db, maxAttempts)
  {
  }

  /** The ledger invariant holds in every state of every run. */
  lemma {:induction false} RunInv(maxAttempts: nat, ss: seq<Db>, es: seq<Event>, k: nat)
    requires Run(maxAttempts, ss, es) && k < |ss|
    ensures Inv(ss[k], maxAttempts)
  {
    hide Inv, Next;
    if k > 0 {
      RunInv(maxAttempts, ss, es, k - 1);
      NextKeepsInv(maxAttempts, ss[k - 1], es[k - 1], ss[k]);
    }
  }

  // ----------------------------------------------------------------- what one step does to one operation

  /** The event is a claim, a finalize or an accepted resolution of operation `id`. */
  predicate Touches(db: Db, e: Event, id: Uuid) {
    || (e.ClaimEvent? && e.id == id)
    || (e.FinalizeEvent? && e.id == id)
    || (e.ResolveEvent? && e.resolution.operation == id && Accepted(db, e.resolution))
  }

  /** Ledger steps an operation may still take. */
  function Measure(maxAttempts: nat, op: Operation): int {
    if op.status.Terminal() then 0
    else 2 * (maxAttempts - op.attemptCount) + (if op.status.Running? then 1 else 0) + 1
  }

  lemma Untouched(maxAttempts: nat, db: Db, e: Event, db': Db, id: Uuid)
    requires Next(maxAttempts, db, e, db') && id in db.operations && !Touches(db, e, id)
    ensures id in db'.operations && db'.operations[id] == db.operations[id]
    ensures Rows(db', id) == Rows(db, id)
  {
  }

  /** Each touch uses up the measure; only a claim opens a new epoch, only a resolution or a
      finalize leaves `running`, and a resolution needs the epoch it carries. */
  lemma TouchMoves(maxAttempts: nat, db: Db, e: Event, db': Db, id: Uuid)
    requires Inv(db, maxAttempts) && Next(maxAttempts, db, e, db') && Touches(db, e, id)
    ensures id in db.operations && id in db'.operations
    ensures var a, b := db.operations[id], db'.operations[id];
      && !a.status.Terminal() && SameIntent(a, b)
      && 0 <= Measure(maxAttempts, b) < Measure(maxAttempts, a)
      && (e.ClaimEvent? ==> b.status.Running? && b.leaseOwner == Some(e.owner)
                            && b.leaseEpoch == a.leaseEpoch + 1 && b.attemptCount == a.attemptCount + 1
                            && b.leaseExpiresAt == Some(db.now + e.leaseMicros * MICROSECOND))
      && (!e.ClaimEvent? ==> !b.status.Running? && b.leaseEpoch == a.leaseEpoch && b.attemptCount == a.attemptCount)
      && (e.ResolveEvent? ==> a.status.Running? && a.leaseEpoch == e.resolution.leaseEpoch)
      && (e.FinalizeEvent? ==> b.status.Terminal())
  {
    hide Inv;
    if e.ResolveEvent? { assert Accepted(db, e.resolution); }
    Fits(db, maxAttempts, id);
  }

  // ----------------------------------------------------------------- fencing

  /** 2·epoch while the epoch's lease is out, 2·epoch + 1 once it is back. */
  function Rank(op: Operation): nat {
    2 * op.leaseEpoch + (if op.status.Running? then 0 else 1)
  }

  lemma {:induction false} RankGrows(maxAttempts: nat, ss: seq<Db>, es: seq<Event>, id: Uuid, i: nat, j: nat)
    requires Run(maxAttempts, ss, es) && i <= j < |ss| && id in ss[i].operations
    ensures id in ss[j].operations && Rank(ss[i].operations[id]) <= Rank(ss[j].operations[id])
  {
    hide Inv, Next;
    if i < j {
      RankGrows(maxAttempts, ss, es, id, i, j - 1);
      StepRank(maxAttempts, ss, es, id, j - 1);
    }
  }

  lemma StepRank(maxAttempts: nat, ss: seq<Db>, es: seq<Event>, id: Uuid, k: nat)
    requires Run(maxAttempts, ss, es) && k < |es| && id in ss[k].operations
    ensures id in ss[k + 1].operations
    ensures Rank(ss[k].operations[id]) <= Rank(ss[k + 1].operations[id])
    ensures Touches(ss[k], es[k], id) && ss[k].operations[id].status.Running? ==>
              Rank(ss[k].operations[id]) < Rank(ss[k + 1].operations[id])
    ensures es[k].ClaimEvent? && es[k].id == id ==>
              Rank(ss[k + 1].operations[id]) == 2 * (ss[k].operations[id].leaseEpoch + 1)
  {
    hide Inv, Next;
    RunInv(maxAttempts, ss, es, k);
    if Touches(ss[k], es[k], id) {
      TouchMoves(maxAttempts, ss[k], es[k], ss[k + 1], id);
    } else {
      Untouched(maxAttempts, ss[k], es[k], ss[k + 1], id);
    }
  }

  /** A lease that is out was handed out by one claim, and nothing has touched the operation since. */
  lemma {:induction false} LeaseHasClaim(maxAttempts: nat, ss: seq<Db>, es: seq<Event>, id: Uuid, k: nat)
      returns (j: nat)
    requires Run(maxAttempts, ss, es) && Initial(ss[0]) && k < |ss|
    requires id in ss[k].operations && ss[k].operations[id].status.Running?
    ensures j < k && es[j].ClaimEvent? && es[j].id == id
    ensures ss[k].operations[id].leaseOwner == Some(es[j].owner)
    ensures id in ss[j].operations && ss[k].operations[id].leaseEpoch == ss[j].operations[id].leaseEpoch + 1
    ensures forall i :: j < i < k ==> !Touches(ss[i], es[i], id)
  {
    hide Inv, Next;
    RunInv(maxAttempts, ss, es, k - 1);
    if Touches(ss[k - 1], es[k - 1], id) {
      TouchMoves(maxAttempts, ss[k - 1], es[k - 1], ss[k], id);
      j := k - 1;
    } else {
      if id !in ss[k - 1].operations {
        Created(maxAttempts, ss[k - 1], es[k - 1], ss[k], id);
      }
      Untouched(maxAttempts, ss[k - 1], es[k - 1], ss[k], id);
      j := LeaseHasClaim(maxAttempts, ss, es, id, k - 1);
    }
  }

  /** Fencing: an accepted resolution carries the token of a claim after which no claim, finalize
      or other accepted resolution of the operation happened. */
  lemma AcceptedIsFenced(maxAttempts: nat, ss: seq<Db>, es: seq<Event>, k: nat) returns (j: nat)
    requires Run(maxAttempts, ss, es) && Initial(ss[0]) && k < |es|
    requires es[k].ResolveEvent? && Accepted(ss[k], es[k].resolution)
    ensures j < k && es[j].ClaimEvent? && es[j].id == es[k].resolution.operation
    ensures es[j].owner == es[k].resolution.leaseOwner
    ensures es[j].id in ss[j + 1].operations
            && ss[j + 1].operations[es[j].id].leaseEpoch == es[k].resolution.leaseEpoch
    ensures forall i :: j < i < k ==> !Touches(ss[i], es[i], es[j].id)
  {
    var id := es[k].resolution.operation;
    j := LeaseHasClaim(maxAttempts, ss, es, id, k);
    RunInv(maxAttempts, ss, es, j);
    assert Next(maxAttempts, ss[j], es[j], ss[j + 1]);
    TouchMoves(maxAttempts, ss[j], es[j], ss[j + 1], id);
  }

  /** Each epoch is resolved at most once: two accepted resolutions of an operation carry
      growing epochs. */
  lemma AcceptedOnce(maxAttempts: nat, ss: seq<Db>, es: seq<Event>, i: nat, j: nat)
    requires Run(maxAttempts, ss, es) && i < j < |es|
    requires es[i].ResolveEvent? && Accepted(ss[i], es[i].resolution)
    requires es[j].ResolveEvent? && Accepted(ss[j], es[j].resolution)
    requires es[i].resolution.operation == es[j].resolution.operation
    ensures es[i].resolution.leaseEpoch < es[j].resolution.leaseEpoch
  {
    hide Inv, Next;
    var id := es[i].resolution.operation;
    StepRank(maxAttempts, ss, es, id, i);
    RankGrows(maxAttempts, ss, es, id, i + 1, j);
  }

  /** Any later touch fences the token out for good. */
  lemma TouchFencesOut(maxAttempts: nat, ss: seq<Db>, es: seq<Event>, j: nat, i: nat, k: nat)
    requires Run(maxAttempts, ss, es) && j < i < k < |es|
    requires es[j].ClaimEvent? && Touches(ss[i], es[i], es[j].id)
    requires es[k].ResolveEvent? && es[k].resolution.operation == es[j].id
    requires es[j].id in ss[j].operations
    requires es[k].resolution.leaseEpoch == ss[j].operations[es[j].id].leaseEpoch + 1
    ensures !Accepted(ss[k], es[k].resolution) && ss[k + 1] == ss[k]
  {
    hide Inv, Next;
    var id := es[j].id;
    StepRank(maxAttempts, ss, es, id, j);
    RankGrows(maxAttempts, ss, es, id, j + 1, i);
    StepRank(maxAttempts, ss, es, id, i);
    RunInv(maxAttempts, ss, es, i);
    TouchMoves(maxAttempts, ss[i], es[i], ss[i + 1], id);
    RankGrows(maxAttempts, ss, es, id, i + 1, k);
    RejectedChangesNothing(maxAttempts, ss[k], es[k], ss[k + 1]);
  }

  /** A rejected resolution leaves every table as it was. */
  lemma RejectedChangesNothing(maxAttempts: nat, db: Db, e: Event, db': Db)
    requires Next(maxAttempts, db, e, db') && e.ResolveEvent?
    ensures db' == db <==> !Accepted(db, e.resolution)
  {
    if Accepted(db, e.resolution) {
      assert db'.operations[e.resolution.operation].status == e.resolution.status;
    }
  }

  /** The resolution carries the token of the claim at step `j`. */
  predicate CarriesToken(db: Db, e: Event, r: Resolution) {
    e.ClaimEvent? && e.id in db.operations &&
    var op := db.operations[e.id];
    && r.operation == e.id && r.leaseOwner == e.owner
    && r.leaseEpoch == op.leaseEpoch + 1 && r.attemptNumber == op.attemptCount + 1
    && r.desiredRevision == op.desiredRevision
  }

  /** What a resolution must show besides its token. */
  predicate EvidenceHolds(db: Db, r: Resolution)
    requires r.operation in db.operations && Joined(db, db.operations[r.operation])
  {
    var op := db.operations[r.operation];
    var mb := db.mailboxes[op.mailbox];
    && (r.observation.Some? ==> r.observation.value.mailbox == op.mailbox)
    && (r.status.Succeeded? ==>
          r.observation.Some? && Proves(ToEvidence(r.observation.value), op)
          && mb.revision == op.desiredRevision && mb.desiredStatus.DesiredActive?)
  }

  /** A genuine token is honoured exactly while its lease runs, nothing has touched the operation
      since the claim, and the evidence fits. */
  lemma TokenHonoured(maxAttempts: nat, ss: seq<Db>, es: seq<Event>, j: nat, k: nat)
    requires Run(maxAttempts, ss, es) && j < k < |es|
    requires es[k].ResolveEvent? && ValidResolution(es[k].resolution)
    requires CarriesToken(ss[j], es[j], es[k].resolution)
    ensures es[j].id in ss[k].operations && Joined(ss[k], ss[k].operations[es[j].id])
    ensures Accepted(ss[k], es[k].resolution) <==>
              && (forall i :: j < i < k ==> !Touches(ss[i], es[i], es[j].id))
              && ss[k].now < ss[j].now + es[j].leaseMicros * MICROSECOND
              && EvidenceHolds(ss[k], es[k].resolution)
  {
    hide Inv, Next;
    var id, r := es[j].id, es[k].resolution;
    RunInv(maxAttempts, ss, es, j);
    TouchMoves(maxAttempts, ss[j], es[j], ss[j + 1], id);
    RankGrows(maxAttempts, ss, es, id, j + 1, k);
    RunInv(maxAttempts, ss, es, k);
    Fits(ss[k], maxAttempts, id);
    if i :| j < i < k && Touches(ss[i], es[i], id) {
      TouchFencesOut(maxAttempts, ss, es, j, i, k);
    } else {
      Undisturbed(maxAttempts, ss, es, id, j + 1, k);
      FenceDecides(ss[k], maxAttempts, r);
    }
  }

  lemma {:induction false} Undisturbed(maxAttempts: nat, ss: seq<Db>, es: seq<Event>, id: Uuid, i: nat, k: nat)
    requires Run(maxAttempts, ss, es) && i <= k < |ss| && id in ss[i].operations
    requires forall h :: i <= h < k ==> !Touches(ss[h], es[h], id)
    ensures id in ss[k].operations && ss[k].operations[id] == ss[i].operations[id]
  {
    hide Next;
    if i < k {
      Undisturbed(maxAttempts, ss, es, id, i, k - 1);
      Untouched(maxAttempts, ss[k - 1], es[k - 1], ss[k], id);
    }
  }

  /** Under the invariant the fence alone decides whether the statement applies. */
  lemma FenceDecides(db: Db, maxAttempts: nat, r: Resolution)
    requires Inv(db, maxAttempts)
    ensures Applies(db, r) <==> Resolvable(db, r)
  {
    if Resolvable(db, r) {
      Fits(db, maxAttempts, r.operation);
      var rows := Rows(db, r.operation);
      assert OwnRow(rows[|rows| - 1], r);
    }
  }

  // ----------------------------------------------------------------- what grows

  /** The intent of an operation, and when and from which status its attempts started, never change. */
  predicate OperationGrown(db: Db, db': Db, id: Uuid)
    requires id in db.operations
  {
    && id in db'.operations && SameIntent(db.operations[id], db'.operations[id])
    && |Rows(db, id)| <= |Rows(db', id)|
    && forall i :: 0 <= i < |Rows(db, id)| ==>
         Rows(db', id)[i].startedAt == Rows(db, id)[i].startedAt && Rows(db', id)[i].priorStatus == Rows(db, id)[i].priorStatus
  }

  lemma OperationGrows(maxAttempts: nat, db: Db, e: Event, db': Db, id: Uuid)
    requires Next(maxAttempts, db, e, db') && id in db.operations
    ensures OperationGrown(db, db', id)
  {
    if !Touches(db, e, id) {
      Untouched(maxAttempts, db, e, db', id);
    } else if e.ResolveEvent? {
      assert Accepted(db, e.resolution);
    }
  }

  lemma {:induction false} IntentStays(maxAttempts: nat, ss: seq<Db>, es: seq<Event>, id: Uuid, i: nat, k: nat)
    requires Run(maxAttempts, ss, es) && i <= k < |ss| && id in ss[i].operations
    ensures id in ss[k].operations && SameIntent(ss[i].operations[id], ss[k].operations[id])
  {
    hide Inv, Next;
    if i < k {
      IntentStays(maxAttempts, ss, es, id, i, k - 1);
      OperationGrows(maxAttempts, ss[k - 1], es[k - 1], ss[k], id);
    }
  }

  // ----------------------------------------------------------------- bounded retries

  ghost function Steps(ss: seq<Db>, es: seq<Event>, id: Uuid, k: nat): nat
    requires |ss| == |es| + 1 && k <= |es|
  {
    if k == 0 then 0
    else Steps(ss, es, id, k - 1) + (if Touches(ss[k - 1], es[k - 1], id) then 1 else 0)
  }

  ghost function Claims(es: seq<Event>, id: Uuid, k: nat): nat
    requires k <= |es|
  {
    if k == 0 then 0
    else Claims(es, id, k - 1) + (if es[k - 1].ClaimEvent? && es[k - 1].id == id then 1 else 0)
  }

  function Budget(maxAttempts: nat, db: Db, id: Uuid): int {
    if id in db.operations then Measure(maxAttempts, db.operations[id]) else 2 * maxAttempts + 1
  }

  /** An operation takes at most 2·maxAttempts + 1 ledger steps, and its attempt count is exactly
      the number of times it was claimed, which never exceeds maxAttempts. */
  lemma {:induction false} BoundedRetries(maxAttempts: nat, ss: seq<Db>, es: seq<Event>, id: Uuid, k: nat)
    requires Run(maxAttempts, ss, es) && Initial(ss[0]) && k <= |es|
    ensures 0 <= Budget(maxAttempts, ss[k], id)
    ensures Steps(ss, es, id, k) + Budget(maxAttempts, ss[k], id) <= 2 * maxAttempts + 1
    ensures Claims(es, id, k) == (if id in ss[k].operations then ss[k].operations[id].attemptCount else 0)
    ensures Claims(es, id, k) <= maxAttempts
  {
    hide Inv, Next;
    RunInv(maxAttempts, ss, es, k);
    if id in ss[k].operations {
      Fits(ss[k], maxAttempts, id);
    }
    if k > 0 {
      BoundedRetries(maxAttempts, ss, es, id, k - 1);
      RunInv(maxAttempts, ss, es, k - 1);
      if Touches(ss[k - 1], es[k - 1], id) {
        TouchMoves(maxAttempts, ss[k - 1], es[k - 1], ss[k], id);
      } else if id in ss[k - 1].operations {
        Untouched(maxAttempts, ss[k - 1], es[k - 1], ss[k], id);
      } else if id in ss[k].operations {
        Created(maxAttempts, ss[k - 1], es[k - 1], ss[k], id);
      }
    }
  }

  /** A new operation starts pending, with no attempts. */
  lemma Created(maxAttempts: nat, db: Db, e: Event, db': Db, id: Uuid)
    requires Next(maxAttempts, db, e, db') && id !in db.operations && id in db'.operations
    ensures (e.RequestEvent? || e.FollowUpEvent?) && e.id == id
    ensures db'.operations[id].status.Pending? && db'.operations[id].attemptCount == 0
  {
  }

  lemma TerminalUntouched(maxAttempts: nat, db: Db, e: Event, db': Db, id: Uuid)
    requires Next(maxAttempts, db, e, db') && id in db.operations && db.operations[id].status.Terminal()
    ensures !Touches(db, e, id)
  {
  }

  /** Terminal states are absorbing: the row never changes again. */
  lemma {:induction false} TerminalStays(maxAttempts: nat, ss: seq<Db>, es: seq<Event>, id: Uuid, i: nat, k: nat)
    requires Run(maxAttempts, ss, es) && i <= k < |ss|
    requires id in ss[i].operations && ss[i].operations[id].status.Terminal()
    ensures id in ss[k].operations && ss[k].operations[id] == ss[i].operations[id]
  {
    hide Next, Touches;
    if i < k {
      TerminalStays(maxAttempts, ss, es, id, i, k - 1);
      assert Next(maxAttempts, ss[k - 1], es[k - 1], ss[k]);
      TerminalUntouched(maxAttempts, ss[k - 1], es[k - 1], ss[k], id);
      Untouched(maxAttempts, ss[k - 1], es[k - 1], ss[k], id);
    }
  }

  // ----------------------------------------------------------------- no stuck work

  /** Due work is never claimable and finalizable at once, and it is neither exactly when its
      mailbox is no longer wanted active while the operation is current and has attempts left. */
  lemma DueWorkMoves(db: Db, maxAttempts: nat, id: Uuid)
    requires Inv(db, maxAttempts) && id in db.operations && Due(db, db.operations[id])
    ensures !(Claimable(db, maxAttempts, id) && Finalizable(db, maxAttempts, id))
    ensures Joined(db, db.operations[id])
    ensures var op := db.operations[id]; var mb := db.mailboxes[op.mailbox];
            && (mb.desiredStatus.DesiredActive? ==>
                  Claimable(db, maxAttempts, id) || Finalizable(db, maxAttempts, id))
            && (!Claimable(db, maxAttempts, id) && !Finalizable(db, maxAttempts, id) <==>
                  !mb.desiredStatus.DesiredActive? && mb.revision == op.desiredRevision
                  && op.attemptCount < maxAttempts)
  {
    Fits(db, maxAttempts, id);
    assert MailboxFits(db, db.operations[id].mailbox);
  }

  /** Work that is due and can neither be claimed nor finalized. */
  predicate Stuck(db: Db, maxAttempts: nat, id: Uuid) {
    && id in db.operations && Due(db, db.operations[id])
    && !Claimable(db, maxAttempts, id) && !Finalizable(db, maxAttempts, id)
  }

  /** Such work is reachable: a mailbox is requested and suspended before its first attempt. */
  lemma StuckIsReachable(maxAttempts: nat) returns (ss: seq<Db>, es: seq<Event>)
    requires maxAttempts > 0
    ensures |es| == 2 && Run(maxAttempts, ss, es) && Initial(ss[0]) && Stuck(ss[2], maxAttempts, 1)
  {
    var db0 := Db(1, map[1 := true], map[1 := Domain(1, "d", true)], map[], map[], map[], map[]);
    var request := RequestEvent(1, 1, 1, 1, 1, "a", "", "k", 0);
    var mb := NewMailbox(1, 1, "a", "");
    var db1 := Enqueue(db0.(mailboxes := map[1 := mb]), 1, 1, 1, 1, "k", 0, 1);
    var db2 := db1.(mailboxes := map[1 := mb.(desiredStatus := DesiredSuspended)]);
    InitialInv(db0, maxAttempts);
    hide Inv;
    assert Next(maxAttempts, db0, request, db1);
    assert Next(maxAttempts, db1, DesireEvent(1, DesiredSuspended), db2);
    ss, es := [db0, db1, db2], [request, DesireEvent(1, DesiredSuspended)];
  }

  // ----------------------------------------------------------------- bounded overtaking

  /** Another operation that was served at or after time `t` has its key past `t`, or is finished. */
  predicate ServedPast(db: Db, y: Uuid, t: Time) {
    y in db.operations && (db.operations[y].status.Terminal() || t < DueAt(db.operations[y]))
  }

  lemma ServedStaysPast(maxAttempts: nat, db: Db, e: Event, db': Db, y: Uuid, t: Time)
    requires Inv(db, maxAttempts) && Next(maxAttempts, db, e, db') && t <= db.now
    requires ServedPast(db, y, t) || (e.ClaimEvent? && e.id == y)
    ensures ServedPast(db', y, t) && t <= db'.now
  {
    hide Inv;
    if Touches(db, e, y) {
      TouchMoves(maxAttempts, db, e, db', y);
    } else {
      Untouched(maxAttempts, db, e, db', y);
    }
  }

  lemma {:induction false} ServedStays(maxAttempts: nat, ss: seq<Db>, es: seq<Event>, y: Uuid, i: nat, j: nat)
    requires Run(maxAttempts, ss, es) && i < j <= |es| && es[i].ClaimEvent? && es[i].id == y
    ensures ServedPast(ss[j], y, ss[i].now) && ss[i].now <= ss[j].now
  {
    hide Inv, Next, ServedPast;
    RunInv(maxAttempts, ss, es, j - 1);
    if i < j - 1 {
      ServedStays(maxAttempts, ss, es, y, i, j - 1);
    }
    ServedStaysPast(maxAttempts, ss[j - 1], es[j - 1], ss[j], y, ss[i].now);
  }

  lemma NotTouched(maxAttempts: nat, db: Db, e: Event, db': Db, x: Uuid)
    requires Inv(db, maxAttempts) && Next(maxAttempts, db, e, db')
    requires Claimable(db, maxAttempts, x) && Claimable(db', maxAttempts, x)
    ensures !Touches(db, e, x)
  {
    hide Inv;
  }

  /** Work that stays claimable through a step was not touched by it. */
  lemma WaitingUntouched(maxAttempts: nat, db: Db, e: Event, db': Db, x: Uuid)
    requires Inv(db, maxAttempts) && Next(maxAttempts, db, e, db')
    requires Claimable(db, maxAttempts, x) && Claimable(db', maxAttempts, x)
    ensures db'.operations[x] == db.operations[x]
  {
    assert !Touches(db, e, x) by { NotTouched(maxAttempts, db, e, db', x); }
    hide Inv, Next;
    Untouched(maxAttempts, db, e, db', x);
  }

  lemma {:induction false} WaitingStays(maxAttempts: nat, ss: seq<Db>, es: seq<Event>, x: Uuid, i: nat, j: nat)
    requires Run(maxAttempts, ss, es) && i <= j <= |es|
    requires forall k :: i <= k <= j ==> Claimable(ss[k], maxAttempts, x)
    ensures x in ss[i].operations && x in ss[j].operations
    ensures ss[j].operations[x] == ss[i].operations[x]
  {
    hide Inv, Next;
    assert Claimable(ss[i], maxAttempts, x) && Claimable(ss[j], maxAttempts, x);
    if i < j {
      WaitingStays(maxAttempts, ss, es, x, i, j - 1);
      RunInv(maxAttempts, ss, es, j - 1);
      WaitingUntouched(maxAttempts, ss[j - 1], es[j - 1], ss[j], x);
    }
  }

  /** `x` stays due and claimable through the whole run, and no claim skips a locked row. */
  ghost predicate Waits(maxAttempts: nat, ss: seq<Db>, es: seq<Event>, x: Uuid) {
    && Run(maxAttempts, ss, es)
    && (forall k :: 0 <= k < |ss| ==> Claimable(ss[k], maxAttempts, x))
    && (forall k :: 0 <= k < |es| && es[k].ClaimEvent? ==> es[k].locked == {})
  }

  /** While `x` waits, every other operation overtakes it at most once. */
  lemma OvertakenOnce(maxAttempts: nat, ss: seq<Db>, es: seq<Event>, x: Uuid, i: nat, j: nat)
    requires Waits(maxAttempts, ss, es, x) && i < j < |es|
    requires es[i].ClaimEvent? && es[j].ClaimEvent?
    ensures es[i].id != es[j].id && es[i].id != x && es[j].id != x
  {
    hide Inv, Next;
    NotServed(maxAttempts, ss, es, x, i);
    NotServed(maxAttempts, ss, es, x, j);
    assert Claimable(ss[i], maxAttempts, x) && Claimable(ss[j], maxAttempts, x);
    if es[i].id == es[j].id {
      ServedStays(maxAttempts, ss, es, es[i].id, i, j);
      WaitingStays(maxAttempts, ss, es, x, i, j);
      Served(maxAttempts, ss[j], es[j], ss[j + 1], x);
    }
  }

  /** A claim that passes over a claimable operation serves one with an earlier key. */
  lemma Served(maxAttempts: nat, db: Db, e: Event, db': Db, x: Uuid)
    requires Next(maxAttempts, db, e, db') && e.ClaimEvent? && e.locked == {} && e.id != x
    requires Claimable(db, maxAttempts, x)
    ensures Claimable(db, maxAttempts, e.id) && DueAt(db.operations[e.id]) <= DueAt(db.operations[x])
  {
    assert ClaimBefore(db, e.id, x);
  }

  lemma NotServed(maxAttempts: nat, ss: seq<Db>, es: seq<Event>, x: Uuid, i: nat)
    requires Waits(maxAttempts, ss, es, x) && i < |es| && es[i].ClaimEvent?
    ensures es[i].id != x && es[i].id in ss[i].operations
  {
    assert Next(maxAttempts, ss[i], es[i], ss[i + 1]);
    assert Claimable(ss[i + 1], maxAttempts, x);
  }

  ghost function AllClaims(es: seq<Event>): nat {
    if es == [] then 0 else AllClaims(es[..|es| - 1]) + (if es[|es| - 1].ClaimEvent? then 1 else 0)
  }

  ghost function ClaimedIds(es: seq<Event>): set<Uuid> {
    set k | 0 <= k < |es| && es[k].ClaimEvent? :: es[k].id
  }

  lemma {:induction false} ClaimsAreDistinct(maxAttempts: nat, ss: seq<Db>, es: seq<Event>, x: Uuid)
    requires Waits(maxAttempts, ss, es, x)
    ensures |ClaimedIds(es)| == AllClaims(es)
  {
    hide Inv, Next, Claimable;
    if es != [] {
      var n := |es| - 1;
      ClaimsAreDistinct(maxAttempts, ss[..n + 1], es[..n], x);
      if es[n].ClaimEvent? {
        NotClaimedBefore(maxAttempts, ss, es, x);
      }
      ClaimedIdsStep(es);
    }
  }

  lemma NotClaimedBefore(maxAttempts: nat, ss: seq<Db>, es: seq<Event>, x: Uuid)
    requires Waits(maxAttempts, ss, es, x) && es != [] && es[|es| - 1].ClaimEvent?
    ensures es[|es| - 1].id !in ClaimedIds(es[..|es| - 1])
  {
    hide Waits;
    var n := |es| - 1;
    if es[n].id in ClaimedIds(es[..n]) {
      var k :| 0 <= k < n && es[k].ClaimEvent? && es[k].id == es[n].id;
      OvertakenOnce(maxAttempts, ss, es, x, k, n);
    }
  }

  lemma ClaimedIdsStep(es: seq<Event>)
    requires es != []
    ensures var n := |es| - 1;
            ClaimedIds(es) == ClaimedIds(es[..n]) + if es[n].ClaimEvent? then {es[n].id} else {}
  {
  }

  lemma KeysGrow(maxAttempts: nat, db: Db, e: Event, db': Db)
    requires Next(maxAttempts, db, e, db')
    ensures db.operations.Keys <= db'.operations.Keys
  {
  }

  lemma {:induction false} OperationsGrow(maxAttempts: nat, ss: seq<Db>, es: seq<Event>, i: nat, k: nat)
    requires Run(maxAttempts, ss, es) && i <= k < |ss|
    ensures ss[i].operations.Keys <= ss[k].operations.Keys
  {
    hide Inv, Next;
    if i < k {
      OperationsGrow(maxAttempts, ss, es, i, k - 1);
      KeysGrow(maxAttempts, ss[k - 1], es[k - 1], ss[k]);
    }
  }

  /** Bounded overtaking: before a waiting operation is served, there are fewer claims than operations. */
  lemma BoundedOvertaking(maxAttempts: nat, ss: seq<Db>, es: seq<Event>, x: Uuid)
    requires Waits(maxAttempts, ss, es, x)
    ensures AllClaims(es) < |ss[|es|].operations|
  {
    hide Inv, Next;
    ClaimsAreDistinct(maxAttempts, ss, es, x);
    assert Claimable(ss[|es|], maxAttempts, x);
    var all := ss[|es|].operations.Keys;
    assert x in all;
    forall y | y in ClaimedIds(es) ensures y in all - {x} {
      var k :| 0 <= k < |es| && es[k].ClaimEvent? && es[k].id == y;
      NotServed(maxAttempts, ss, es, x, k);
      OperationsGrow(maxAttempts, ss, es, k, |es|);
    }
    SubsetSize(ClaimedIds(es), all - {x});
  }

  lemma {:induction false} SubsetSize(a: set<Uuid>, b: set<Uuid>)
    requires a <= b
    ensures |a| <= |b|
  {
    if a != {} {
      var x :| x in a;
      SubsetSize(a - {x}, b - {x});
    }
  }
}
