/**
 Histories that show what can go wrong: a claim whose account belongs to somebody else, and a call that is
 overtaken because its mailbox was revised while it was under way.
 */
module ConvergenceWitness {
  import opened Types
  import opened Ledger
  import opened Worker
  import opened MailCore
  import opened Convergence
  import opened ConvergenceRuns
  import opened ConvergenceProgress

  const ADDRESS := "a@d"

  /** One domain, no work, and mail-core as given. */
  function Empty(accounts: map<string, Slot>): World {
    World(Db(1, map[1 := true], map[1 := Domain(1, "d", true)], map[], map[], map[], map[]), accounts, map[], map[])
  }

  function Key(r: nat): string { seq(r, i => 'k') }

  /** The one mailbox stands at revision `r`, with one operation per revision so far, and the latest one is waiting
      or running. */
  ghost predicate Stage(w: World, r: Uuid, waiting: bool) {
    && w.db.now == 1 && w.db.domains == map[1 := Domain(1, "d", true)]
    && 1 in w.db.mailboxes
    && (var mb := w.db.mailboxes[1];
        mb.tenant == 1 && mb.domain == 1 && mb.localPart == "a" && mb.desiredStatus.DesiredActive? && mb.revision == r)
    && 1 <= r && (forall o: Uuid :: o in w.db.operations <==> 1 <= o <= r)
    && (forall o :: o in w.db.operations ==> OfRevision(w.db.operations[o], o))
    && (waiting ==> w.db.operations[r].status.Pending? && w.db.operations[r].attemptCount == 0
                    && w.db.operations[r].nextAttemptAt <= 1)
  }

  predicate OfRevision(op: Operation, r: nat) {
    op.tenant == 1 && op.mailbox == 1 && op.desiredRevision == r && op.key == Key(r)
  }

  lemma Extend(c: Config, p: Policy, ws: seq<World>, hs: seq<Happening>, h: Happening, w: World)
    requires History(c, p, ws, hs) && Happens(c, p, ws[|hs|], h, w)
    ensures History(c, p, ws + [w], hs + [h])
  {
    hide Happens;
  }

  lemma Requested(c: Config, p: Policy, accounts: map<string, Slot>) returns (w: World, h: Happening)
    requires ValidConfig(c) && forall a :: a in accounts ==> !accounts[a].Managed?
    ensures History(c, p, [Empty(accounts), w], [h]) && Stage(w, 1, true)
    ensures w.accounts == accounts && w.jobs == map[] && w.calls == map[]
  {
    var w0 := Empty(accounts);
    var e := RequestEvent(1, 1, 1, 1, 1, "a", "", Key(1), 0);
    w := w0.(db := Enqueue(w0.db.(mailboxes := map[1 := NewMailbox(1, 1, "a", "")]), 1, 1, 1, 1, Key(1), 0, 1));
    h := LedgerStep(e);
    assert Next(c.maxAttempts, w0.db, e, w.db);
    assert Happens(c, p, w0, h, w);
  }

  /** The latest operation is the one the ledger hands out. */
  lemma LatestIsCandidate(maxAttempts: nat, w: World, r: Uuid)
    requires Stage(w, r, true) && maxAttempts > 0
    ensures ClaimCandidate(w.db, maxAttempts, {}, r)
  {
    forall o | o in w.db.operations && o != r ensures !Claimable(w.db, maxAttempts, o) {
      assert OfRevision(w.db.operations[o], o);
    }
  }

  lemma Taken(c: Config, p: Policy, ws: seq<World>, hs: seq<Happening>, r: Uuid, j: nat) returns (w: World, e: Event)
    requires History(c, p, ws, hs) && Stage(ws[|hs|], r, true) && j !in ws[|hs|].jobs
    ensures e.ClaimEvent? && e.id == r && JobTaken(c, ws[|hs|], j, e, w) && Happens(c, p, ws[|hs|], Take(j, e), w)
    ensures w.accounts == ws[|hs|].accounts && w.calls == ws[|hs|].calls && Stage(w, r, false)
    ensures w.jobs[j].claimed.address == ADDRESS
    ensures MarkerOf(w.jobs[j].claimed).mailbox == 1 && MarkerOf(w.jobs[j].claimed).domain == 1
    ensures MarkerOf(w.jobs[j].claimed).revision == r
  {
    var last := ws[|hs|];
    hide History;
    LatestIsCandidate(c.maxAttempts, last, r);
    e := ClaimEvent(r, c.owner, LeaseMicros(c), {});
    assert OfRevision(last.db.operations[r], r);
    hide ClaimBefore, ClaimedRows, Delivered;
    w := last.(db := Claim(last.db, r, c.owner, LeaseMicros(c)),
               jobs := last.jobs[j := Job(ClaimedRow(last.db, r, c.owner, LeaseMicros(c)), 0, Fresh)]);
    assert Next(c.maxAttempts, last.db, e, w.db);
    assert "a" + "@" + "d" == ADDRESS;
  }

  /** A claim whose account belongs to somebody else is reachable, and no continuation makes it succeed. */
  lemma ForeignAccountBlocks(c: Config, p: Policy) returns (ws: seq<World>, hs: seq<Happening>, e: Event)
    requires ValidConfig(c)
    ensures |hs| == 2 && History(c, p, ws, hs) && hs[1] == Take(0, e) && JobTaken(c, ws[1], 0, e, ws[2])
    ensures !CanSucceed(c, p, ws[2], e.id)
  {
    var accounts := map[ADDRESS := Foreign];
    var w1, h := Requested(c, p, accounts);
    var w2;
    w2, e := Taken(c, p, [Empty(accounts), w1], [h], 1, 0);
    Extend(c, p, [Empty(accounts), w1], [h], Take(0, e), w2);
    ws, hs := [Empty(accounts), w1] + [w2], [h] + [Take(0, e)];
    hide Happens, WorldInv, JobTaken, Stage;
    HistoryInv(c, p, ws, hs, 1);
    ClaimCanSucceed(c, p, w1, 0, e, w2);
  }

  // ----------------------------------------------------------------- a call is overtaken

  /** The account at the address is vacant or carries the mailbox at an older revision. */
  predicate Older(w: World, r: nat) {
    var slot := SlotAt(w.accounts, ADDRESS);
    slot.Vacant? || (slot.Managed? && slot.meta.mailbox == 1 && slot.meta.domain == 1 && slot.meta.revision < r)
  }

  /** A set call for revision `r` is under way; it creates the account if `create`. */
  predicate UnderWay(w: World, r: nat, create: bool) {
    && r in w.calls && w.calls[r].state.InFlight? && w.calls[r].address == ADDRESS && w.calls[r].create == create
    && w.calls[r].meta.mailbox == 1 && w.calls[r].meta.domain == 1 && w.calls[r].meta.revision == r
    && w.db.now < w.calls[r].deadline
  }

  /** The job is about to read the account. */
  lemma Reads(c: Config, p: Policy, w: World, j: nat) returns (ws: seq<World>, hs: seq<Happening>, w': World)
    requires ValidConfig(c) && Waiting(c, w, j) && Behind(w, j)
    ensures Path(c, p, ws, hs, w, w')
    ensures w' == InPhase(w, j, AdapterDeadline(c, w.jobs[j].claimed, w.db.now, None), Reading)
  {
    var deadline;
    hide AdapterDeadline;
    ws, hs, deadline := Approaches(c, p, w, j);
    w' := InPhase(w, j, deadline, Reading);
  }

  /** It finds the account vacant or behind and sends its call. */
  lemma Sends(c: Config, p: Policy, w: World, j: nat, k: nat) returns (w': World)
    requires ValidConfig(c) && j in w.jobs && Behind(w, j) && w.jobs[j].claimed.leaseOwner != NIL
    requires w.jobs[j].phase.Reading? && w.db.now < w.jobs[j].deadline && k !in w.calls
    ensures Happens(c, p, w, Examine(j, k, None), w')
    ensures w'.db == w.db && w'.accounts == w.accounts && w'.jobs.Keys == w.jobs.Keys
    ensures var s := SetCall(w.jobs[j].claimed.operation, w.jobs[j].claimed.leaseEpoch, w.jobs[j].claimed.address,
                             SlotAt(w.accounts, w.jobs[j].claimed.address).Vacant?, MarkerOf(w.jobs[j].claimed),
                             w.jobs[j].deadline, InFlight);
            w'.calls == w.calls[k := s]
  {
    hide AfterEnsure;
    var claimed := w.jobs[j].claimed;
    var s := SetCall(claimed.operation, claimed.leaseEpoch, claimed.address,
                     SlotAt(w.accounts, claimed.address).Vacant?, MarkerOf(claimed), w.jobs[j].deadline, InFlight);
    w' := w.(jobs := w.jobs[j := w.jobs[j].(phase := Awaiting(k))], calls := w.calls[k := s]);
  }

  lemma {:induction false} Along(c: Config, p: Policy, ws: seq<World>, hs: seq<Happening>,
                                 xs: seq<World>, gs: seq<Happening>, w: World)
    returns (ys: seq<World>, fs: seq<Happening>)
    requires History(c, p, ws, hs) && Path(c, p, xs, gs, ws[|hs|], w)
    ensures History(c, p, ys, fs) && ys[|fs|] == w
  {
    hide Happens;
    ys, fs := ws + xs[1..], hs + gs;
    forall i | 0 <= i < |fs| ensures Happens(c, p, ys[i], fs[i], ys[i + 1]) {
      if i >= |hs| {
        assert ys[i] == xs[i - |hs|] && ys[i + 1] == xs[i - |hs| + 1];
      }
    }
  }

  lemma MakesBehind(w: World, j: nat, r: nat)
    requires j in w.jobs && w.jobs[j].claimed.address == ADDRESS && Older(w, r)
    requires MarkerOf(w.jobs[j].claimed).mailbox == 1 && MarkerOf(w.jobs[j].claimed).domain == 1
    requires MarkerOf(w.jobs[j].claimed).revision == r
    ensures Behind(w, j)
  {
  }

  /** The latest operation is claimed, with its account behind. */
  lemma Begins(c: Config, p: Policy, ws: seq<World>, hs: seq<Happening>, r: Uuid) returns (w: World, h: Happening)
    requires History(c, p, ws, hs) && Stage(ws[|hs|], r, true) && Older(ws[|hs|], r) && r !in ws[|hs|].jobs
    ensures History(c, p, ws + [w], hs + [h]) && Stage(w, r, false) && w.db.now == ws[|hs|].db.now
    ensures w.accounts == ws[|hs|].accounts && w.calls == ws[|hs|].calls && w.jobs.Keys == ws[|hs|].jobs.Keys + {r as nat}
    ensures Waiting(c, w, r) && Behind(w, r) && w.jobs[r].claimed.address == ADDRESS
    ensures var m := MarkerOf(w.jobs[r].claimed); m.mailbox == 1 && m.domain == 1 && m.revision == r
  {
    hide Happens, WorldInv, Inv, Behind, Stage, MarkerOf, AdapterDeadline, ValidClaim, Older, Next;
    var last := ws[|hs|];
    HistoryInv(c, p, ws, hs, |hs|);
    ClockRuns(c, last);
    var e;
    w, e := Taken(c, p, ws, hs, r, r);
    TakenIsWaiting(c, last, r, e, w);
    SameOlder(last, w, r);
    MakesBehind(w, r, r);
    h := Take(r, e);
    Extend(c, p, ws, hs, h, w);
  }

  lemma SameOlder(w: World, w': World, r: nat)
    requires Older(w, r) && w'.accounts == w.accounts
    ensures Older(w', r)
  {
  }

  /** The latest operation is claimed and its call sent. */
  lemma Round(c: Config, p: Policy, ws: seq<World>, hs: seq<Happening>, r: Uuid) returns (ys: seq<World>, fs: seq<Happening>)
    requires History(c, p, ws, hs) && Stage(ws[|hs|], r, true) && Older(ws[|hs|], r)
    requires r !in ws[|hs|].jobs && r !in ws[|hs|].calls
    ensures History(c, p, ys, fs) && |ys| == |fs| + 1 && Stage(ys[|fs|], r, false) && ys[|fs|].db.now == ws[|hs|].db.now
    ensures UnderWay(ys[|fs|], r, SlotAt(ws[|hs|].accounts, ADDRESS).Vacant?)
    ensures ys[|fs|].accounts == ws[|hs|].accounts && ys[|fs|].jobs.Keys == ws[|hs|].jobs.Keys + {r as nat}
    ensures ys[|fs|].calls == ws[|hs|].calls[r := ys[|fs|].calls[r]]
  {
    hide Happens, WorldInv, Inv, JobTaken, Behind, Stage, Path, MarkerOf, AdapterDeadline, ValidClaim, Older;
    var w1, h := Begins(c, p, ws, hs, r);
    ys, fs := ws + [w1], hs + [h];
    var xs, gs, w2 := Reads(c, p, w1, r);
    ys, fs := Along(c, p, ys, fs, xs, gs, w2);
    SameBehind(w1, w2, r);
    var w3 := Sends(c, p, w2, r, r);
    Extend(c, p, ys, fs, Examine(r, r, None), w3);
    ys, fs := ys + [w3], fs + [Examine(r, r, None)];
    SameStage(w1, w3, r, false);
  }

  lemma SameBehind(w: World, w': World, j: nat)
    requires j in w.jobs && j in w'.jobs && Behind(w, j) && w'.accounts == w.accounts && w'.jobs[j].claimed == w.jobs[j].claimed
    ensures Behind(w', j)
  {
  }

  lemma SameStage(w: World, w': World, r: Uuid, waiting: bool)
    requires Stage(w, r, waiting) && w'.db == w.db
    ensures Stage(w', r, waiting)
  {
  }

  /** The mailbox is moved to the next revision and an operation is queued for it. */
  lemma Bumped(c: Config, p: Policy, ws: seq<World>, hs: seq<Happening>, r: Uuid) returns (ys: seq<World>, fs: seq<Happening>)
    requires History(c, p, ws, hs) && Stage(ws[|hs|], r, false) && r < 3
    ensures History(c, p, ys, fs) && |ys| == |fs| + 1 && Stage(ys[|fs|], r + 1, true)
    ensures ys[|fs|].db.now == ws[|hs|].db.now
    ensures ys[|fs|] == ws[|hs|].(db := ys[|fs|].db)
  {
    var last := ws[|hs|];
    hide History;
    var mb := last.db.mailboxes[1];
    var next: Uuid := r + 1;
    var db1 := last.db.(mailboxes := last.db.mailboxes[1 := mb.(revision := next, observedStatus := ObservedUnknown)]);
    assert Next(c.maxAttempts, last.db, ReviseEvent(1, next), db1);
    var w1 := last.(db := db1);
    assert Happens(c, p, last, LedgerStep(ReviseEvent(1, next)), w1);
    Extend(c, p, ws, hs, LedgerStep(ReviseEvent(1, next)), w1);
    ys, fs := ws + [w1], hs + [LedgerStep(ReviseEvent(1, next))];
    var w2 := Queued(c, p, w1, next);
    Extend(c, p, ys, fs, LedgerStep(FollowUpEvent(next, next, 1, Key(next), 0)), w2);
    ys, fs := ys + [w2], fs + [LedgerStep(FollowUpEvent(next, next, 1, Key(next), 0))];
  }

  lemma Queued(c: Config, p: Policy, w: World, r: Uuid) returns (w': World)
    requires ValidConfig(c) && 1 < r && w.db.now == 1 && w.db.domains == map[1 := Domain(1, "d", true)] && 1 in w.db.mailboxes
    requires var mb := w.db.mailboxes[1];
             mb.tenant == 1 && mb.domain == 1 && mb.localPart == "a" && mb.desiredStatus.DesiredActive? && mb.revision == r
    requires forall o: Uuid :: o in w.db.operations <==> 1 <= o < r
    requires forall o :: o in w.db.operations ==> OfRevision(w.db.operations[o], o)
    ensures Happens(c, p, w, LedgerStep(FollowUpEvent(r, r, 1, Key(r), 0)), w') && Stage(w', r, true)
    ensures w' == w.(db := w'.db)
  {
    forall o | o in w.db.operations ensures |w.db.operations[o].key| == o && w.db.operations[o].desiredRevision == o {
      assert OfRevision(w.db.operations[o], o);
    }
    assert |Key(r)| == r;
    w' := w.(db := Enqueue(w.db, r, r, 1, 1, Key(r), 0, r));
    assert Next(c.maxAttempts, w.db, FollowUpEvent(r, r, 1, Key(r), 0), w'.db);
  }

  /** A call that is under way lands. */
  lemma Arrives(c: Config, p: Policy, ws: seq<World>, hs: seq<Happening>, r: nat, create: bool)
    returns (ys: seq<World>, fs: seq<Happening>)
    requires History(c, p, ws, hs) && UnderWay(ws[|hs|], r, create) && SlotAt(ws[|hs|].accounts, ADDRESS).Vacant? == create
    ensures |fs| == |hs| + 1 && |ys| == |fs| + 1 && |ws| == |hs| + 1
    ensures History(c, p, ys, fs) && fs[|hs|] == Arrival(r) && ys[..|ws|] == ws && fs[..|hs|] == hs
    ensures ys[|fs|].db == ws[|hs|].db && ys[|fs|].jobs == ws[|hs|].jobs && Effective(ws[|hs|], r)
    ensures SlotAt(ys[|fs|].accounts, ADDRESS) == Managed(ws[|hs|].calls[r].meta)
    ensures ys[|fs|].calls.Keys == ws[|hs|].calls.Keys
    ensures forall k :: k in ws[|hs|].calls && k != r ==> ys[|fs|].calls[k] == ws[|hs|].calls[k]
  {
    var last := ws[|hs|];
    var w := Arrived(last, r);
    hide History;
    assert Happens(c, p, last, Arrival(r), w);
    Extend(c, p, ws, hs, Arrival(r), w);
    ys, fs := ws + [w], hs + [Arrival(r)];
  }

  /** Revisions 1 and then 2 and 3 of a mailbox, the latter revised while the call for 2 was under way: the call for 3
      lands first, and then the one for 2. */
  lemma RevisionGoesBack(c: Config, p: Policy) returns (ws: seq<World>, hs: seq<Happening>)
    requires ValidConfig(c)
    ensures |hs| >= 2 && History(c, p, ws, hs) && Overtaken(ws, hs, |hs| - 2, |hs| - 1)
    ensures RevisionAt(ws[|hs| - 1], ADDRESS) == 3 && RevisionAt(ws[|hs|], ADDRESS) == 2
  {
    hide Happens, Stage, History;
    ws, hs := FirstRevision(c, p);
    ws, hs := Round(c, p, ws, hs, 2);
    ws, hs := Bumped(c, p, ws, hs, 2);
    ws, hs := Round(c, p, ws, hs, 3);
    var xs, gs := Arrives(c, p, ws, hs, 3, false);
    var n := |hs|;
    ws, hs := Arrives(c, p, xs, gs, 2, false);
    assert ws[n] == ws[..n + 2][n] == xs[n] && ws[n + 1] == ws[..n + 2][n + 1] == xs[n + 1];
    assert hs[n] == hs[..n + 1][n] == gs[n];
  }

  /** Revision 1 is in force, and an operation for revision 2 waits. */
  lemma FirstRevision(c: Config, p: Policy) returns (ws: seq<World>, hs: seq<Happening>)
    requires ValidConfig(c)
    ensures History(c, p, ws, hs) && |ws| == |hs| + 1 && Stage(ws[|hs|], 2, true) && ws[|hs|].jobs.Keys == {1} && ws[|hs|].calls.Keys == {1}
    ensures var slot := SlotAt(ws[|hs|].accounts, ADDRESS);
            slot.Managed? && slot.meta.mailbox == 1 && slot.meta.domain == 1 && slot.meta.revision == 1
  {
    var w1, h := Requested(c, p, map[]);
    ws, hs := [Empty(map[]), w1], [h];
    hide Happens, Stage, History;
    ws, hs := Round(c, p, ws, hs, 1);
    var before := ws[|hs|];
    ws, hs := Arrives(c, p, ws, hs, 1, true);
    SameStage(before, ws[|hs|], 1, false);
    ws, hs := Bumped(c, p, ws, hs, 1);
  }
}
