/**
 What the whole system guarantees over every run: attempts on one operation never overlap, accounts keep
 their owner, and success is real.  Exactly when no landing call is overtaken by a newer one, no account
 ever goes back, and then each operation alters mail-core at most once.
 */
module ConvergenceRuns {
  import opened Types
  import opened Ledger
  import opened LedgerSafety
  import opened LedgerRuns
  import opened Worker
  import opened MailCore
  import opened Convergence
  import opened ConvergenceSafety

  /** No work has been done yet; mail-core may already hold any accounts. */
  predicate Genesis(w: World) {
    w.db.now > 0 && Initial(w.db) && w.jobs == map[] && w.calls == map[]
  }

  ghost predicate History(c: Config, p: Policy, ws: seq<World>, hs: seq<Happening>) {
    && ValidConfig(c) && |ws| == |hs| + 1 && Genesis(ws[0])
    && forall i :: 0 <= i < |hs| ==> Happens(c, p, ws[i], hs[i], ws[i + 1])
  }

  lemma GenesisInv(c: Config, firm: bool, w: World)
    requires Genesis(w)
    ensures WorldInv(c, firm, w)
  {
    InitialInv(w.db, c.maxAttempts);
    hide Inv;
  }

  // ----------------------------------------------------------------- one step

  lemma AccountsStay(w: World, w': World)
    requires w'.accounts == w.accounts
    ensures AccountsGrown(w.accounts, w'.accounts) && AccountsKept(w.accounts, w'.accounts)
  {
    forall a
      ensures SlotGrown(SlotAt(w.accounts, a), SlotAt(w'.accounts, a))
      ensures SlotKept(SlotAt(w.accounts, a), SlotAt(w'.accounts, a))
    {
      SlotStays(SlotAt(w.accounts, a));
    }
  }

  /** Every step keeps the invariant and every account with its owner. */
  lemma StepKeeps(c: Config, p: Policy, firm: bool, w: World, h: Happening, w': World)
    requires ValidConfig(c) && WorldInv(c, firm, w) && Happens(c, p, w, h, w')
    requires firm ==> AccountsGrown(w.accounts, w'.accounts)
    ensures WorldInv(c, firm, w') && AccountsKept(w.accounts, w'.accounts)
  {
    hide WorldInv, LedgerMoves, JobTaken, JobReported, JobStep, AccountsGrown, AccountsKept, Arrived, MayLand;
    if !h.Arrival? {
      OnlyArrivalsWrite(c, p, w, h, w');
    }
    match h
    case LedgerStep(e) =>
      LedgerStepKeeps(c, firm, w, e, w');
    case Take(j, e) =>
      TakeKeeps(c, firm, w, j, e, w');
    case Report(j) =>
      ReportKeeps(c, firm, w, j, w');
    case Crash(j) =>
      CrashKeeps(c, firm, w, j, w');
    case Arrival(k) => ArrivalKeeps(c, firm, w, k, w');
    case _ =>
      JobStepKeeps(c, firm, w, h, w');
  }

  lemma OnlyArrivalsWrite(c: Config, p: Policy, w: World, h: Happening, w': World)
    requires ValidConfig(c) && Happens(c, p, w, h, w') && !h.Arrival?
    ensures w'.accounts == w.accounts && AccountsGrown(w.accounts, w'.accounts) && AccountsKept(w.accounts, w'.accounts)
  {
    AccountsStay(w, w');
  }

  lemma DbMoves(c: Config, p: Policy, w: World, h: Happening, w': World)
    requires ValidConfig(c) && Happens(c, p, w, h, w')
    ensures w'.db == w.db || exists e :: Next(c.maxAttempts, w.db, e, w'.db)
  {
    hide Next;
  }

  lemma StepGrows(c: Config, p: Policy, w: World, h: Happening, w': World)
    requires ValidConfig(c) && WorldInv(c, false, w) && Happens(c, p, w, h, w')
    ensures Grown(w.db, w'.db)
  {
    LedgerHolds(c, false, w);
    DbMoves(c, p, w, h, w');
    hide Happens, Inv, Next, Grown, WorldInv;
    if e :| Next(c.maxAttempts, w.db, e, w'.db) {
      NextGrows(c.maxAttempts, w.db, e, w'.db);
    } else {
      GrownSelf(c.maxAttempts, w.db);
    }
  }

  lemma LedgerHolds(c: Config, firm: bool, w: World)
    requires WorldInv(c, firm, w)
    ensures Inv(w.db, c.maxAttempts) && Provenance(w) && SuccessHolds(w, firm) && WindowsHeld(c, w) && JobsFit(c, w)
    ensures CallsFit(c, w) && UpdatesOwned(w) && WorldInv(c, false, w)
  {
  }

  lemma GrownSelf(maxAttempts: nat, db: Db)
    requires Inv(db, maxAttempts)
    ensures Grown(db, db)
  {
    DomainsExist(maxAttempts, db);
  }

  // ----------------------------------------------------------------- every run

  /** The ledger and system invariants hold in every reachable state. */
  lemma {:induction false} HistoryInv(c: Config, p: Policy, ws: seq<World>, hs: seq<Happening>, k: nat)
    requires History(c, p, ws, hs) && k < |ws|
    ensures WorldInv(c, false, ws[k]) && Inv(ws[k].db, c.maxAttempts)
  {
    hide WorldInv, Happens, Inv;
    if k == 0 {
      GenesisInv(c, false, ws[0]);
    } else {
      HistoryInv(c, p, ws, hs, k - 1);
      StepKeeps(c, p, false, ws[k - 1], hs[k - 1], ws[k]);
    }
    LedgerHolds(c, false, ws[k]);
  }

  lemma SlotKeptTransitive(a: Slot, b: Slot, d: Slot)
    requires SlotKept(a, b) && SlotKept(b, d)
    ensures SlotKept(a, d)
  {
  }

  /** An account appears once and keeps its owner for good; accounts that are not ours are never written. */
  lemma {:induction false} OwnersStay(c: Config, p: Policy, ws: seq<World>, hs: seq<Happening>, i: nat, j: nat, a: string)
    requires History(c, p, ws, hs) && i <= j < |ws|
    ensures SlotKept(SlotAt(ws[i].accounts, a), SlotAt(ws[j].accounts, a))
    ensures SlotAt(ws[i].accounts, a).Foreign? ==> SlotAt(ws[j].accounts, a).Foreign?
  {
    hide WorldInv, Happens;
    if i == j {
      SlotStays(SlotAt(ws[i].accounts, a));
    } else {
      OwnersStay(c, p, ws, hs, i, j - 1, a);
      HistoryInv(c, p, ws, hs, j - 1);
      StepKeeps(c, p, false, ws[j - 1], hs[j - 1], ws[j]);
      SlotKeptTransitive(SlotAt(ws[i].accounts, a), SlotAt(ws[j - 1].accounts, a), SlotAt(ws[j].accounts, a));
    }
  }

  // ----------------------------------------------------------------- what a landing call writes

  /** A set call of operation `id` lands and alters its account. */
  predicate Alters(w: World, h: Happening, w': World, id: Uuid) {
    && h.Arrival? && h.call in w.calls && w.calls[h.call].operation == id
    && SlotAt(w'.accounts, w.calls[h.call].address) != SlotAt(w.accounts, w.calls[h.call].address)
  }

  /** Only landing set calls alter mail-core, each at its own address. */
  lemma EveryChangeIsAlters(c: Config, p: Policy, w: World, h: Happening, w': World, a: string)
    requires ValidConfig(c) && Happens(c, p, w, h, w') && SlotAt(w'.accounts, a) != SlotAt(w.accounts, a)
    ensures h.Arrival? && h.call in w.calls && w.calls[h.call].address == a
    ensures Alters(w, h, w', w.calls[h.call].operation)
  {
  }

  lemma ArrivalLands(c: Config, p: Policy, w: World, h: Happening, w': World)
    requires ValidConfig(c) && Happens(c, p, w, h, w') && h.Arrival?
    ensures h.call in w.calls && w' == Arrived(w, h.call)
  {
  }

  lemma CallKnown(c: Config, firm: bool, w: World, k: nat)
    requires WorldInv(c, firm, w) && k in w.calls
    ensures CallFits(c, w.db, w.calls[k])
  {
  }

  /** A change takes an account to exactly the operation's marker; if it moves the account forward, the account
      did not hold the operation before. */
  lemma AltersWrites(c: Config, p: Policy, w: World, h: Happening, w': World, id: Uuid)
    requires ValidConfig(c) && WorldInv(c, false, w) && Happens(c, p, w, h, w') && Alters(w, h, w', id)
    ensures Known(w.db, id) && Holds(w', id, true)
    ensures SlotAt(w'.accounts, AddressOf(w.db, w.db.operations[id].mailbox)) == Managed(Stamp(w.db, id))
    ensures AccountsGrown(w.accounts, w'.accounts) ==> !Holds(w, id, true)
  {
    hide WorldInv, Happens, CallFits, Arrived, AccountsGrown, Holds;
    ArrivalLands(c, p, w, h, w');
    CallKnown(c, false, w, h.call);
    LandingWrites(c, w, h.call, w');
  }

  lemma LandingWrites(c: Config, w: World, k: nat, w': World)
    requires k in w.calls && w' == Arrived(w, k) && CallFits(c, w.db, w.calls[k])
    requires SlotAt(w'.accounts, w.calls[k].address) != SlotAt(w.accounts, w.calls[k].address)
    ensures var id := w.calls[k].operation;
            && Known(w.db, id) && Holds(w', id, true)
            && SlotAt(w'.accounts, AddressOf(w.db, w.db.operations[id].mailbox)) == Managed(Stamp(w.db, id))
            && (AccountsGrown(w.accounts, w'.accounts) ==> !Holds(w, id, true))
  {
    var s := w.calls[k];
    if AccountsGrown(w.accounts, w'.accounts) {
      assert SlotGrown(SlotAt(w.accounts, s.address), SlotAt(w'.accounts, s.address));
    }
  }

  // ----------------------------------------------------------------- calls on their way

  /** The call as it was sent, wherever it is now. */
  predicate SameCall(a: SetCall, b: SetCall) { b == a.(state := b.state) }

  lemma CallsStay(c: Config, p: Policy, w: World, h: Happening, w': World, k: nat)
    requires ValidConfig(c) && Happens(c, p, w, h, w') && k in w.calls
    ensures k in w'.calls && SameCall(w.calls[k], w'.calls[k])
  {
  }

  /** A call is sent by an attempt that has just found its account vacant or behind. */
  lemma CallIsSent(c: Config, p: Policy, w: World, h: Happening, w': World, k: nat)
    requires ValidConfig(c) && Happens(c, p, w, h, w') && k !in w.calls && k in w'.calls
    ensures w'.accounts == w.accounts
    ensures var s := w'.calls[k]; var slot := SlotAt(w.accounts, s.address);
            if s.create then slot.Vacant? else Owns(slot, s.meta) && slot.meta.revision < s.meta.revision
  {
    hide AfterEnsure, AfterFirstInspect, AfterLastInspect, Begin, Next;
  }

  lemma {:induction false} CallStays(c: Config, p: Policy, ws: seq<World>, hs: seq<Happening>, i: nat, j: nat, k: nat)
    requires History(c, p, ws, hs) && i <= j < |ws| && k in ws[i].calls
    ensures k in ws[j].calls && SameCall(ws[i].calls[k], ws[j].calls[k])
  {
    hide Happens;
    if i < j {
      CallStays(c, p, ws, hs, i, j - 1, k);
      CallsStay(c, p, ws[j - 1], hs[j - 1], ws[j], k);
    }
  }

  /** Every call was sent at some step. */
  lemma {:induction false} SentAt(c: Config, p: Policy, ws: seq<World>, hs: seq<Happening>, n: nat, k: nat)
    returns (i: nat)
    requires History(c, p, ws, hs) && n < |ws| && k in ws[n].calls
    ensures i < n && k !in ws[i].calls && k in ws[i + 1].calls
  {
    hide Happens;
    if k in ws[n - 1].calls {
      i := SentAt(c, p, ws, hs, n - 1, k);
    } else {
      i := n - 1;
    }
  }

  // ----------------------------------------------------------------- overtaking

  /** The call takes effect when it lands: a create on a vacant address, an update on an account. */
  predicate Effective(w: World, k: nat) {
    k in w.calls && w.calls[k].create == SlotAt(w.accounts, w.calls[k].address).Vacant?
  }

  /** The call that lands at `n` was under way, its account read, when a call for a newer revision landed at `m`. */
  predicate Overtaken(ws: seq<World>, hs: seq<Happening>, m: nat, n: nat)
    requires |ws| == |hs| + 1
  {
    && m < n < |hs| && hs[m].Arrival? && hs[n].Arrival? && Effective(ws[m], hs[m].call) && Effective(ws[n], hs[n].call)
    && hs[n].call in ws[m].calls
    && ws[m].calls[hs[m].call].address == ws[m].calls[hs[n].call].address
    && ws[m].calls[hs[m].call].meta.revision > ws[m].calls[hs[n].call].meta.revision
  }

  ghost predicate NoneOvertaken(ws: seq<World>, hs: seq<Happening>)
    requires |ws| == |hs| + 1
  {
    forall m: nat, n: nat :: !Overtaken(ws, hs, m, n)
  }

  function RevisionAt(w: World, a: string): int { RevisionOf(SlotAt(w.accounts, a)) }

  ghost predicate NeverBack(ws: seq<World>) {
    forall i, j, a | 0 <= i <= j < |ws| :: RevisionAt(ws[i], a) <= RevisionAt(ws[j], a)
  }

  /** A landing call leaves its own revision, or nothing new. */
  lemma LandingRevision(c: Config, p: Policy, w: World, h: Happening, w': World, a: string)
    requires ValidConfig(c) && Happens(c, p, w, h, w')
    ensures if h.Arrival? && Effective(w, h.call) && w.calls[h.call].address == a
            then SlotAt(w'.accounts, a) == Managed(w.calls[h.call].meta)
            else SlotAt(w'.accounts, a) == SlotAt(w.accounts, a)
  {
    if h.Arrival? {
      ArrivalLands(c, p, w, h, w');
    } else {
      OnlyArrivalsWrite(c, p, w, h, w');
    }
    hide Happens;
  }

  /** From its sending to its landing, a call that nothing newer overtakes finds its account no newer. */
  lemma {:induction false} StillOlder(c: Config, p: Policy, ws: seq<World>, hs: seq<Happening>, i: nat, n: nat, m: nat)
    requires History(c, p, ws, hs) && NoneOvertaken(ws, hs) && i < m <= n < |hs|
    requires hs[n].Arrival? && Effective(ws[n], hs[n].call) && !ws[n].calls[hs[n].call].create
    requires hs[n].call !in ws[i].calls && hs[n].call in ws[i + 1].calls
    ensures var s := ws[n].calls[hs[n].call]; RevisionAt(ws[m], s.address) <= s.meta.revision
  {
    hide Happens, NoneOvertaken, Effective;
    var k := hs[n].call;
    CallStays(c, p, ws, hs, i + 1, n, k);
    var s := ws[n].calls[k];
    if m == i + 1 {
      CallIsSent(c, p, ws[i], hs[i], ws[i + 1], k);
    } else {
      StillOlder(c, p, ws, hs, i, n, m - 1);
      CallStays(c, p, ws, hs, i + 1, m - 1, k);
      LandingRevision(c, p, ws[m - 1], hs[m - 1], ws[m], s.address);
      NotOvertaken(ws, hs, m - 1, n);
    }
  }

  lemma NotOvertaken(ws: seq<World>, hs: seq<Happening>, m: nat, n: nat)
    requires |ws| == |hs| + 1 && NoneOvertaken(ws, hs)
    ensures !Overtaken(ws, hs, m, n)
  {
  }

  /** With nothing overtaken, no step takes an account back. */
  lemma StepNotBack(c: Config, p: Policy, ws: seq<World>, hs: seq<Happening>, n: nat, a: string)
    requires History(c, p, ws, hs) && NoneOvertaken(ws, hs) && n < |hs|
    ensures RevisionAt(ws[n], a) <= RevisionAt(ws[n + 1], a)
  {
    hide Happens, WorldInv, NoneOvertaken;
    LandingRevision(c, p, ws[n], hs[n], ws[n + 1], a);
    if hs[n].Arrival? && Effective(ws[n], hs[n].call) && ws[n].calls[hs[n].call].address == a {
      var k := hs[n].call;
      HistoryInv(c, p, ws, hs, n);
      CallKnown(c, false, ws[n], k);
      PositiveRevision(c, ws[n].db, ws[n].calls[k]);
      if !ws[n].calls[k].create {
        var i := SentAt(c, p, ws, hs, n, k);
        StillOlder(c, p, ws, hs, i, n, n);
      }
    }
  }

  lemma PositiveRevision(c: Config, db: Db, s: SetCall)
    requires Inv(db, c.maxAttempts) && CallFits(c, db, s)
    ensures s.meta.revision > 0
  {
    Fits(db, c.maxAttempts, s.operation);
  }

  lemma {:induction false} StepsNotBack(c: Config, p: Policy, ws: seq<World>, hs: seq<Happening>, i: nat, j: nat, a: string)
    requires History(c, p, ws, hs) && NoneOvertaken(ws, hs) && i <= j < |ws|
    ensures RevisionAt(ws[i], a) <= RevisionAt(ws[j], a)
  {
    hide Happens, NoneOvertaken;
    if i < j {
      StepsNotBack(c, p, ws, hs, i, j - 1, a);
      StepNotBack(c, p, ws, hs, j - 1, a);
    }
  }

  /** Over every run of the whole system, no account's revision ever goes down if and only if no landing call is
      overtaken by a newer one between the read it acts on and its landing. */
  lemma NeverBackIff(c: Config, p: Policy, ws: seq<World>, hs: seq<Happening>)
    requires History(c, p, ws, hs)
    ensures NeverBack(ws) <==> NoneOvertaken(ws, hs)
  {
    hide Happens;
    if NoneOvertaken(ws, hs) {
      forall i, j, a | 0 <= i <= j < |ws| ensures RevisionAt(ws[i], a) <= RevisionAt(ws[j], a) {
        StepsNotBack(c, p, ws, hs, i, j, a);
      }
    } else {
      var m: nat, n: nat :| Overtaken(ws, hs, m, n);
      var k := hs[n].call;
      var a := ws[m].calls[k].address;
      CallStays(c, p, ws, hs, m, n, k);
      LandingRevision(c, p, ws[m], hs[m], ws[m + 1], a);
      LandingRevision(c, p, ws[n], hs[n], ws[n + 1], a);
      assert RevisionAt(ws[m + 1], a) > RevisionAt(ws[n + 1], a);
    }
  }

  // ----------------------------------------------------------------- accounts that only advance

  /** Every step moves every account forward or leaves it. */
  ghost predicate Forward(ws: seq<World>) {
    forall i :: 0 <= i < |ws| - 1 ==> AccountsGrown(ws[i].accounts, ws[i + 1].accounts)
  }

  /** One operation per revision: an account that does not go back, and stays at its revision, stays as it is. */
  lemma LandingGrows(c: Config, w: World, k: nat)
    requires Inv(w.db, c.maxAttempts) && CallsFit(c, w) && UpdatesOwned(w) && Provenance(w) && k in w.calls
    requires var s := w.calls[k]; var before := SlotAt(w.accounts, s.address);
             RevisionOf(before) <= RevisionOf(Land(before, s.create, s.meta))
    ensures var s := w.calls[k]; var before := SlotAt(w.accounts, s.address);
            SlotGrown(before, Land(before, s.create, s.meta))
  {
    hide Inv;
    var s := w.calls[k];
    assert CallFits(c, w.db, s);
    var before := SlotAt(w.accounts, s.address);
    PositiveRevision(c, w.db, s);
    if !s.create {
      assert Owns(before, s.meta);
      OneOwnerPerRevision(c.maxAttempts, w.db, s.operation, before.meta.operation);
    }
  }

  lemma OneOwnerPerRevision(maxAttempts: nat, db: Db, id: Uuid, other: Uuid)
    requires Inv(db, maxAttempts) && Known(db, id) && Known(db, other)
    requires db.operations[other].mailbox == db.operations[id].mailbox
    ensures db.operations[other].desiredRevision == db.operations[id].desiredRevision ==> other == id
  {
    assert !Clash(db.operations, id, other);
  }

  lemma StepForward(c: Config, p: Policy, w: World, h: Happening, w': World)
    requires ValidConfig(c) && WorldInv(c, false, w) && Happens(c, p, w, h, w')
    requires forall a :: RevisionAt(w, a) <= RevisionAt(w', a)
    ensures AccountsGrown(w.accounts, w'.accounts)
  {
    hide Happens, WorldInv, CallsFit, UpdatesOwned, Provenance, Inv, JobsFit, SuccessHolds, WindowsHeld, SlotGrown;
    if h.Arrival? {
      ArrivalLands(c, p, w, h, w');
      LedgerHolds(c, false, w);
      assert RevisionAt(w, w.calls[h.call].address) <= RevisionAt(w', w.calls[h.call].address);
      LandingGrows(c, w, h.call);
      forall a ensures SlotGrown(SlotAt(w.accounts, a), SlotAt(w'.accounts, a)) {
        if a != w.calls[h.call].address {
          SlotStays(SlotAt(w.accounts, a));
        }
      }
    } else {
      OnlyArrivalsWrite(c, p, w, h, w');
    }
  }

  lemma GrownIsNotBack(a: Slot, b: Slot)
    requires SlotGrown(a, b)
    ensures RevisionOf(a) <= RevisionOf(b)
  {
  }

  /** Never going back is the same as only advancing. */
  lemma ForwardIff(c: Config, p: Policy, ws: seq<World>, hs: seq<Happening>)
    requires History(c, p, ws, hs)
    ensures Forward(ws) <==> NoneOvertaken(ws, hs)
  {
    hide Happens, WorldInv, NoneOvertaken;
    NeverBackIff(c, p, ws, hs);
    if NeverBack(ws) {
      forall i | 0 <= i < |hs| ensures AccountsGrown(ws[i].accounts, ws[i + 1].accounts) {
        HistoryInv(c, p, ws, hs, i);
        forall a ensures RevisionAt(ws[i], a) <= RevisionAt(ws[i + 1], a) {}
        StepForward(c, p, ws[i], hs[i], ws[i + 1]);
      }
    }
    if Forward(ws) {
      forall i, j, a | 0 <= i <= j < |ws| ensures RevisionAt(ws[i], a) <= RevisionAt(ws[j], a) {
        ForwardNotBack(ws, i, j, a);
      }
    }
  }

  lemma {:induction false} ForwardNotBack(ws: seq<World>, i: nat, j: nat, a: string)
    requires Forward(ws) && i <= j < |ws|
    ensures RevisionAt(ws[i], a) <= RevisionAt(ws[j], a)
  {
    if i < j {
      ForwardNotBack(ws, i, j - 1, a);
      assert AccountsGrown(ws[j - 1].accounts, ws[j].accounts);
      GrownIsNotBack(SlotAt(ws[j - 1].accounts, a), SlotAt(ws[j].accounts, a));
    }
  }

  /** While accounts only advance, the firm invariant holds. */
  lemma {:induction false} FirmInv(c: Config, p: Policy, ws: seq<World>, hs: seq<Happening>, k: nat)
    requires History(c, p, ws, hs) && Forward(ws) && k < |ws|
    ensures WorldInv(c, true, ws[k])
  {
    hide WorldInv, Happens, AccountsGrown;
    if k == 0 {
      GenesisInv(c, true, ws[0]);
    } else {
      FirmInv(c, p, ws, hs, k - 1);
      assert AccountsGrown(ws[k - 1].accounts, ws[k].accounts);
      StepKeeps(c, p, true, ws[k - 1], hs[k - 1], ws[k]);
    }
  }

  // ----------------------------------------------------------------- at most once

  lemma HoldsGrows(w: World, w': World, id: Uuid, firm: bool)
    requires Grown(w.db, w'.db) && AccountsKept(w.accounts, w'.accounts) && Holds(w, id, firm)
    requires firm ==> AccountsGrown(w.accounts, w'.accounts)
    ensures Holds(w', id, firm)
  {
    var between := w.(accounts := w'.accounts);
    LandingKeepsHolds(w, between, id, firm);
    GrownKeepsHolds(between, w', id, firm);
  }

  /** What mail-core holds for an operation it holds for good. */
  lemma {:induction false} HoldsForGood(c: Config, p: Policy, ws: seq<World>, hs: seq<Happening>,
                                        i: nat, j: nat, id: Uuid, firm: bool)
    requires History(c, p, ws, hs) && i <= j < |ws| && Holds(ws[i], id, firm) && (firm ==> Forward(ws))
    ensures Holds(ws[j], id, firm)
  {
    hide WorldInv, Happens, Holds, Grown, AccountsGrown;
    if i < j {
      HoldsForGood(c, p, ws, hs, i, j - 1, id, firm);
      HistoryInv(c, p, ws, hs, j - 1);
      StepGrows(c, p, ws[j - 1], hs[j - 1], ws[j]);
      StepKeeps(c, p, false, ws[j - 1], hs[j - 1], ws[j]);
      assert firm ==> AccountsGrown(ws[j - 1].accounts, ws[j].accounts);
      HoldsGrows(ws[j - 1], ws[j], id, firm);
    }
  }

  /** Through claims, crashes, lost replies and takeovers, the set calls of one operation alter mail-core at
      most once, as long as none is overtaken. */
  lemma AtMostOnce(c: Config, p: Policy, ws: seq<World>, hs: seq<Happening>, i: nat, j: nat, id: Uuid)
    requires History(c, p, ws, hs) && NoneOvertaken(ws, hs) && i < j < |hs|
    requires Alters(ws[i], hs[i], ws[i + 1], id)
    ensures !Alters(ws[j], hs[j], ws[j + 1], id)
  {
    hide WorldInv, Happens, Holds, Alters, NoneOvertaken, AccountsGrown;
    ForwardIff(c, p, ws, hs);
    HistoryInv(c, p, ws, hs, i);
    AltersWrites(c, p, ws[i], hs[i], ws[i + 1], id);
    HoldsForGood(c, p, ws, hs, i + 1, j, id, true);
    HistoryInv(c, p, ws, hs, j);
    assert AccountsGrown(ws[j].accounts, ws[j + 1].accounts);
    if Alters(ws[j], hs[j], ws[j + 1], id) {
      AltersWrites(c, p, ws[j], hs[j], ws[j + 1], id);
    }
  }

  ghost predicate EachOnce(ws: seq<World>, hs: seq<Happening>)
    requires |ws| == |hs| + 1
  {
    forall i: nat, j: nat, id | i < j :: AltersAt(ws, hs, i, id) ==> !AltersAt(ws, hs, j, id)
  }

  predicate AltersAt(ws: seq<World>, hs: seq<Happening>, i: nat, id: Uuid)
    requires |ws| == |hs| + 1
  {
    i < |hs| && Alters(ws[i], hs[i], ws[i + 1], id)
  }

  /** The effect of the system on mail-core is right, each operation altering it at most once and no account going
      back, if and only if no landing call is overtaken. */
  lemma EffectIff(c: Config, p: Policy, ws: seq<World>, hs: seq<Happening>)
    requires History(c, p, ws, hs)
    ensures NeverBack(ws) && EachOnce(ws, hs) <==> NoneOvertaken(ws, hs)
  {
    hide Happens, NoneOvertaken, NeverBack, Alters;
    NeverBackIff(c, p, ws, hs);
    if NoneOvertaken(ws, hs) {
      forall i: nat, j: nat, id | i < j && AltersAt(ws, hs, i, id) ensures !AltersAt(ws, hs, j, id) {
        if j < |hs| {
          AtMostOnce(c, p, ws, hs, i, j, id);
        }
      }
    }
  }

  // ----------------------------------------------------------------- disjoint windows

  /** The attempt may call the adapter now. */
  predicate MayCall(w: World, j: nat) {
    && j in w.jobs && w.db.now < w.jobs[j].deadline
    && (var phase := w.jobs[j].phase;
        phase.Inspecting? || phase.Reading? || phase.Awaiting? || phase.Confirming?)
  }

  /** A calling attempt is the latest of its operation. */
  lemma CallerIsLatest(c: Config, w: World, j: nat)
    requires ValidConfig(c) && WorldInv(c, false, w) && MayCall(w, j)
    ensures Known(w.db, w.jobs[j].claimed.operation)
    ensures w.jobs[j].claimed.leaseEpoch == |Rows(w.db, w.jobs[j].claimed.operation)|
  {
    LedgerHolds(c, false, w);
    hide WorldInv, Inv;
    assert JobFits(c, w, w.jobs[j]);
    Fits(w.db, c.maxAttempts, w.jobs[j].claimed.operation);
  }

  lemma {:induction false} HistoryGrows(c: Config, p: Policy, ws: seq<World>, hs: seq<Happening>,
                                        i: nat, j: nat, id: Uuid)
    requires History(c, p, ws, hs) && i <= j < |ws| && Known(ws[i].db, id)
    ensures Known(ws[j].db, id) && |Rows(ws[i].db, id)| <= |Rows(ws[j].db, id)|
  {
    hide WorldInv, Happens;
    if i < j {
      HistoryGrows(c, p, ws, hs, i, j - 1, id);
      HistoryInv(c, p, ws, hs, j - 1);
      StepGrows(c, p, ws[j - 1], hs[j - 1], ws[j]);
      assert OperationGrown(ws[j - 1].db, ws[j].db, id);
    }
  }

  /** The windows in which attempts on one operation may call the adapter never overlap: they follow
      one another in the order of the attempts' epochs. */
  lemma DisjointWindows(c: Config, p: Policy, ws: seq<World>, hs: seq<Happening>, m: nat, n: nat, i: nat, j: nat)
    requires History(c, p, ws, hs) && m <= n < |ws| && MayCall(ws[m], i) && MayCall(ws[n], j)
    requires ws[m].jobs[i].claimed.operation == ws[n].jobs[j].claimed.operation
    ensures ws[m].jobs[i].claimed.leaseEpoch <= ws[n].jobs[j].claimed.leaseEpoch
    ensures m == n ==> i == j
  {
    hide WorldInv, Happens;
    HistoryInv(c, p, ws, hs, m);
    HistoryInv(c, p, ws, hs, n);
    CallerIsLatest(c, ws[m], i);
    CallerIsLatest(c, ws[n], j);
    HistoryGrows(c, p, ws, hs, m, n, ws[m].jobs[i].claimed.operation);
    Tokens(c, false, ws[m]);
  }

  // ----------------------------------------------------------------- success is real

  /** Once an operation has succeeded, mail-core holds its mailbox for good; at that revision or a later one, as long as
      no landing call is overtaken. */
  lemma SuccessIsReal(c: Config, p: Policy, ws: seq<World>, hs: seq<Happening>, i: nat, j: nat, id: Uuid)
    requires History(c, p, ws, hs) && i <= j < |ws|
    requires id in ws[i].db.operations && ws[i].db.operations[id].status.Succeeded?
    ensures Holds(ws[j], id, false)
    ensures NoneOvertaken(ws, hs) ==> Holds(ws[j], id, true)
  {
    hide WorldInv, Happens, Holds, NoneOvertaken;
    HistoryInv(c, p, ws, hs, i);
    LedgerHolds(c, false, ws[i]);
    HoldsForGood(c, p, ws, hs, i, j, id, false);
    if NoneOvertaken(ws, hs) {
      ForwardIff(c, p, ws, hs);
      FirmInv(c, p, ws, hs, i);
      LedgerHolds(c, true, ws[i]);
      HoldsForGood(c, p, ws, hs, i, j, id, true);
    }
  }

  /** A mailbox the ledger shows as active is the account mail-core holds at its address; exactly, with its revision and
      hash, as long as no landing call is overtaken. */
  lemma ActiveMeansServed(c: Config, p: Policy, ws: seq<World>, hs: seq<Happening>, k: nat, mailbox: Uuid)
    requires History(c, p, ws, hs) && k < |ws| && mailbox in ws[k].db.mailboxes
    requires ws[k].db.mailboxes[mailbox].observedStatus.ObservedActive?
    ensures var mb, slot := ws[k].db.mailboxes[mailbox], SlotAt(ws[k].accounts, AddressOf(ws[k].db, mailbox));
            && slot.Managed? && slot.meta.mailbox == mailbox && slot.meta.domain == mb.domain && mb.observed.Some?
            && (NoneOvertaken(ws, hs) ==> slot.meta.revision == mb.revision && slot.meta.hash == mb.observed.value.hash)
  {
    hide WorldInv, Happens, NoneOvertaken;
    HistoryInv(c, p, ws, hs, k);
    LedgerHolds(c, false, ws[k]);
    hide JobsFit, WindowsHeld, SuccessHolds, CallsFit, UpdatesOwned;
    assert MailboxFits(ws[k].db, mailbox);
    var id :| Backs(ws[k].db, id, mailbox);
    SuccessIsReal(c, p, ws, hs, k, k, id);
    if NoneOvertaken(ws, hs) {
      ServedExactly(c.maxAttempts, ws[k], id);
    }
  }

  /** A succeeded operation that is still current has exactly its marker at its address. */
  lemma ServedExactly(maxAttempts: nat, w: World, id: Uuid)
    requires Inv(w.db, maxAttempts) && Provenance(w) && Holds(w, id, true) && Current(w.db, id)
    ensures SlotAt(w.accounts, AddressOf(w.db, w.db.operations[id].mailbox)) == Managed(Stamp(w.db, id))
  {
    hide Inv;
    var slot := SlotAt(w.accounts, AddressOf(w.db, w.db.operations[id].mailbox));
    CurrentIsNewest(maxAttempts, w.db, id, slot.meta.operation);
  }

  // ----------------------------------------------------------------- claims are valid

  /** Whatever the ledger hands out passes the worker's own check, so no claim is wasted. */
  lemma ClaimsAreValid(c: Config, db: Db, e: Event, db': Db)
    requires ValidConfig(c) && Inv(db, c.maxAttempts) && db.now > 0
    requires e.ClaimEvent? && e.leaseMicros == LeaseMicros(c) && Next(c.maxAttempts, db, e, db')
    ensures var claimed := ClaimedRow(db, e.id, e.owner, e.leaseMicros); ValidClaim(Own(c, claimed), claimed)
  {
    CandidateIsClaimable(c.maxAttempts, db, e, db');
    hide Next;
    Fits(db, c.maxAttempts, e.id);
    assert MailboxFits(db, db.operations[e.id].mailbox);
    hide Inv;
  }

  // ----------------------------------------------------------------- a clean attempt converges

  /** With every reply delivered, an attempt succeeds exactly when the account at its address is vacant,
      behind, or already as desired; a newer revision and a conflict are the only ways to fail. */
  lemma CleanAttempt(c: Config, claimed: Claimed, deadline: int, now: Time, before: Slot)
    requires ValidConfig(c) && ValidClaim(c, claimed) && 0 < now < deadline
    ensures var verdict := Judge(before, MarkerOf(claimed));
            var writes := verdict.MustCreate? || verdict.MustAdvance?;
            var after := if writes then Land(before, verdict.MustCreate?, MarkerOf(claimed)) else before;
            var reply := if verdict.Conflict? then EnsureFailed(AdapterError(Permanent, RESOURCE_CONFLICT)) else Ensured;
            var report := Plan(c, claimed, deadline, now, Truth(before, claimed.mailbox, claimed.domain, now), reply,
                               Truth(after, claimed.mailbox, claimed.domain, now));
            && (report.status.Succeeded? <==> !verdict.Conflict? && !verdict.Newer?)
            && (report.status.Succeeded? ==> after.Managed? && after.meta.revision == claimed.desiredRevision
                                             && after.meta.hash == claimed.configurationHash)
  {
    hide Backoff, ValidErrorCode;
  }
}
