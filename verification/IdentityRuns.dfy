/** What every run of logins, resolves, touches and revocations keeps. */
module IdentityRuns {
  import opened Types
  import opened Identity

  ghost predicate Run(c: Settings, ps: seq<Portal>, es: seq<Event>) {
    && ValidSettings(c) && |ps| == |es| + 1 && Opening(ps[0])
    && forall i :: 0 <= i < |es| ==> Next(c, ps[i], es[i], ps[i + 1])
  }

  lemma {:induction false} RunInv(c: Settings, ps: seq<Portal>, es: seq<Event>, k: nat)
    requires Run(c, ps, es) && k < |ps|
    ensures PortalInv(ps[k])
  {
    hide PortalInv, Next;
    if k == 0 {
      OpeningInv(ps[0]);
    } else {
      RunInv(c, ps, es, k - 1);
      NextKeepsInv(c, ps[k - 1], es[k - 1], ps[k]);
    }
  }

  // ----------------------------------------------------------------- sessions over time

  /** Identity and absolute expiry are fixed at creation, and the first revocation stands. */
  predicate Outlives(s: Session, s': Session) {
    && s'.digest == s.digest && s'.principal == s.principal && s'.issuer == s.issuer && s'.subject == s.subject
    && s'.sid == s.sid && s'.createdAt == s.createdAt && s'.absoluteExpiresAt == s.absoluteExpiresAt
    && (s.revoked.Some? ==> s'.revoked == s.revoked)
  }

  lemma StepOutlives(c: Settings, p: Portal, e: Event, p': Portal, id: Uuid)
    requires Next(c, p, e, p') && id in p.sessions
    ensures id in p'.sessions && Outlives(p.sessions[id], p'.sessions[id])
  {
    NextMovesSessions(c, p, e, p');
    hide Next;
  }

  lemma {:induction false} SessionOutlives(c: Settings, ps: seq<Portal>, es: seq<Event>, i: nat, j: nat, id: Uuid)
    requires Run(c, ps, es) && i <= j < |ps| && id in ps[i].sessions
    ensures id in ps[j].sessions && Outlives(ps[i].sessions[id], ps[j].sessions[id])
  {
    hide Next;
    if i < j {
      SessionOutlives(c, ps, es, i, j - 1, id);
      StepOutlives(c, ps[j - 1], es[j - 1], ps[j], id);
    }
  }

  /** A revoked session keeps its first revocation and is never active again. */
  lemma RevokedForGood(c: Settings, ps: seq<Portal>, es: seq<Event>, i: nat, j: nat, id: Uuid, at: Time)
    requires Run(c, ps, es) && i <= j < |ps| && id in ps[i].sessions && ps[i].sessions[id].revoked.Some?
    ensures id in ps[j].sessions && ps[j].sessions[id].revoked == ps[i].sessions[id].revoked
    ensures !Active(ps[j], id, at)
  {
    SessionOutlives(c, ps, es, i, j, id);
  }

  /**
   A logout ends the session with that cookie, a back-channel logout the provider session it names or every session of
   the subject it names, and nobody else's: those sessions never resolve again, with the first revocation on record,
   and every other one is left as it was.
   */
  lemma LogoutEnds(c: Settings, ps: seq<Portal>, es: seq<Event>, k: nat, j: nat, id: Uuid, at: Time)
    requires Run(c, ps, es) && k < j < |ps| && es[k].Revoke? && id in ps[k].sessions
    ensures id in ps[k + 1].sessions && id in ps[j].sessions
    ensures var s, q := ps[k].sessions[id], es[k].selector;
            if (q.ByDigest? && s.digest == q.digest)
               || (q.BySid? && s.issuer == q.issuer && s.sid == Some(q.sid))
               || (q.BySubject? && s.issuer == q.issuer && s.subject == q.subject)
            then && !Active(ps[j], id, at)
                 && ps[j].sessions[id].revoked == if s.revoked.Some? then s.revoked else Some(es[k].revocation)
            else ps[k + 1].sessions[id] == s
  {
    assert Next(c, ps[k], es[k], ps[k + 1]);
    NextMovesSessions(c, ps[k], es[k], ps[k + 1]);
    hide Next;
    SessionOutlives(c, ps, es, k + 1, j, id);
  }

  /** No resolve succeeds eight hours after creation, thirty minutes after the last recorded visit, after a revocation,
      or for a principal without access. */
  lemma ActiveIsYoung(c: Settings, ps: seq<Portal>, es: seq<Event>, k: nat, id: Uuid, at: Time)
    requires Run(c, ps, es) && k < |ps| && Active(ps[k], id, at)
    ensures var s := ps[k].sessions[id];
            && at < s.createdAt + 28_800_000_000_000 && at < s.lastSeenAt + 1_800_000_000_000
            && s.revoked.None? && s.principal in ps[k].authorised
  {
    RunInv(c, ps, es, k);
    assert Lifetime(ps[k].now, ps[k].sessions[id]);
  }

  /** What recording a visit does: it takes effect exactly on a session that is unrevoked and unexpired at the time of the
      visit, and then the idle timeout, in whole microseconds, runs from there, up to the absolute expiry. */
  lemma TouchWrites(c: Settings, ps: seq<Portal>, es: seq<Event>, k: nat)
    requires Run(c, ps, es) && k < |es| && es[k].Touch?
    ensures es[k].lookup in ps[k].lookups && ps[k].lookups[es[k].lookup].session in ps[k].sessions
    ensures var id, at := ps[k].lookups[es[k].lookup].session, ps[k].lookups[es[k].lookup].at;
            var s, end := ps[k].sessions[id], at + c.idleTimeout - c.idleTimeout % 1000;
            && ps[k + 1].sessions.Keys == ps[k].sessions.Keys
            && (forall other :: other in ps[k].sessions && other != id ==> ps[k + 1].sessions[other] == ps[k].sessions[other])
            && ps[k + 1].sessions[id] ==
                 if s.revoked.None? && at < s.idleExpiresAt && at < s.absoluteExpiresAt
                 then s.(lastSeenAt := at, idleExpiresAt := if end < s.absoluteExpiresAt then end else s.absoluteExpiresAt)
                 else s
  {
    assert Next(c, ps[k], es[k], ps[k + 1]);
    NextMovesSessions(c, ps[k], es[k], ps[k + 1]);
    hide Next;
  }

  predicate SharesDigest(sessions: map<Uuid, Session>, i: Uuid, j: Uuid) {
    i in sessions && j in sessions && i != j && sessions[i].digest == sessions[j].digest
  }

  lemma StepDigests(c: Settings, p: Portal, e: Event, p': Portal, i: Uuid, j: Uuid)
    requires Next(c, p, e, p') && (forall i, j :: !SharesDigest(p.sessions, i, j))
    ensures !SharesDigest(p'.sessions, i, j)
  {
    if e.Finish? {
      assert !SharesDigest(p.sessions, i, j);
    } else {
      NextMovesSessions(c, p, e, p');
      hide Next;
      assert !SharesDigest(p.sessions, i, j);
    }
  }

  /** A cookie stands for at most one session. */
  lemma {:induction false} DigestsDistinct(c: Settings, ps: seq<Portal>, es: seq<Event>, k: nat)
    requires Run(c, ps, es) && k < |ps|
    ensures forall i, j :: !SharesDigest(ps[k].sessions, i, j)
  {
    hide Next;
    if k > 0 {
      DigestsDistinct(c, ps, es, k - 1);
      forall i, j ensures !SharesDigest(ps[k].sessions, i, j) {
        StepDigests(c, ps[k - 1], es[k - 1], ps[k], i, j);
      }
    }
  }

  // ----------------------------------------------------------------- one-time flows

  lemma FlowStays(c: Settings, p: Portal, e: Event, p': Portal, f: Uuid)
    requires Next(c, p, e, p') && f in p.flows
    ensures f in p'.flows
    ensures p'.flows[f] == p.flows[f] || (e.Consume? && e.flow == f && p.flows[f].consumedAt.None?)
  {
    NextMovesFlows(c, p, e, p');
    hide Next;
  }

  lemma {:induction false} ConsumedForGood(c: Settings, ps: seq<Portal>, es: seq<Event>, i: nat, j: nat, f: Uuid)
    requires Run(c, ps, es) && i <= j < |ps| && f in ps[i].flows && ps[i].flows[f].consumedAt.Some?
    ensures f in ps[j].flows && ps[j].flows[f] == ps[i].flows[f]
  {
    hide Next;
    if i < j {
      ConsumedForGood(c, ps, es, i, j - 1, f);
      FlowStays(c, ps[j - 1], es[j - 1], ps[j], f);
    }
  }

  lemma ConsumeMarks(c: Settings, p: Portal, e: Event, p': Portal)
    requires Next(c, p, e, p') && e.Consume?
    ensures e.flow in p.flows && p.flows[e.flow].consumedAt.None? && e.at < p.flows[e.flow].expiresAt
    ensures e.flow in p'.flows && p'.flows[e.flow].consumedAt == Some(e.at)
  {
    NextMovesFlows(c, p, e, p');
    hide Next;
  }

  /** A flow is consumed by the browser that started it, unused, between its creation and its expiry, which is at most
      ten minutes later. */
  lemma ConsumedInTime(c: Settings, ps: seq<Portal>, es: seq<Event>, i: nat)
    requires Run(c, ps, es) && i < |es| && es[i].Consume?
    ensures es[i].flow in ps[i].flows
    ensures var f := ps[i].flows[es[i].flow];
            && f.state == es[i].state && f.cookie == es[i].cookie && f.consumedAt.None?
            && f.createdAt <= es[i].at < f.expiresAt <= f.createdAt + 600_000_000_000
  {
    RunInv(c, ps, es, i);
    NextMovesFlows(c, ps[i], es[i], ps[i + 1]);
    assert FlowFits(ps[i].flows[es[i].flow]);
  }

  /** Over any interleaving of completed and rejected callbacks, a flow is consumed at most once, and
      within ten minutes of its creation. */
  lemma ConsumedOnce(c: Settings, ps: seq<Portal>, es: seq<Event>, i: nat, j: nat)
    requires Run(c, ps, es) && i < j < |es| && es[i].Consume? && es[j].Consume?
    ensures es[i].flow != es[j].flow
    ensures es[i].flow in ps[i].flows && es[i].at < ps[i].flows[es[i].flow].createdAt + FLOW_LIFETIME
  {
    RunInv(c, ps, es, i);
    hide Next;
    ConsumeMarks(c, ps[i], es[i], ps[i + 1]);
    ConsumeMarks(c, ps[j], es[j], ps[j + 1]);
    assert FlowFits(ps[i].flows[es[i].flow]);
    hide PortalInv;
    if es[i].flow == es[j].flow {
      ConsumedForGood(c, ps, es, i + 1, j, es[i].flow);
    }
  }

  /** In every reachable state sessions map injectively to consumed flows and one to one to login
      success audits, each at the session's creation time and for its principal. */
  lemma OneFlowPerSession(c: Settings, ps: seq<Portal>, es: seq<Event>, k: nat)
    requires Run(c, ps, es) && k < |ps|
    ensures ps[k].origins.Keys == ps[k].sessions.Keys
    ensures forall id :: id in ps[k].sessions ==> OriginFits(ps[k], id)
    ensures forall i, j | i in ps[k].sessions && j in ps[k].sessions && i != j ::
              ps[k].origins[i].flow != ps[k].origins[j].flow && ps[k].origins[i].audit != ps[k].origins[j].audit
    ensures forall a :: LoginAudit(ps[k], a) ==> exists id :: id in ps[k].sessions && ps[k].origins[id].audit == a
  {
    RunInv(c, ps, es, k);
    var p := ps[k];
    hide RowsFit, OriginFits, LoginAudit, Run;
    forall i, j | i in p.sessions && j in p.sessions && i != j
      ensures p.origins[i].flow != p.origins[j].flow && p.origins[i].audit != p.origins[j].audit
    {
      assert !SharesOrigin(p, i, j);
    }
    forall a | LoginAudit(p, a) ensures exists id :: id in p.sessions && p.origins[id].audit == a {
      assert Owned(p, a);
      var id :| id in p.origins && p.origins[id].audit == a;
      assert id in p.sessions;
    }
  }

  // ----------------------------------------------------------------- idle expiry

  /** A touch of session `id` lands. */
  predicate Lands(p: Portal, e: Event, id: Uuid) {
    && e.Touch? && e.lookup in p.lookups && p.lookups[e.lookup].session == id
    && id in p.sessions && Touchable(p.sessions[id], p.lookups[e.lookup].at)
  }

  /** Idle expiry as creation and touches leave it: a touched session has been seen after its creation. */
  predicate Formed(c: Settings, s: Session) {
    && s.absoluteExpiresAt == s.createdAt + ABSOLUTE_TIMEOUT && s.createdAt <= s.lastSeenAt
    && s.idleExpiresAt == if s.lastSeenAt == s.createdAt then s.createdAt + IDLE_TIMEOUT
                          else MinTime(s.lastSeenAt + IdleStep(c), s.absoluteExpiresAt)
  }

  lemma StepFormed(c: Settings, p: Portal, e: Event, p': Portal)
    requires RowsFit(p) && Next(c, p, e, p') && forall id :: id in p.sessions ==> Formed(c, p.sessions[id])
    ensures forall id :: id in p'.sessions ==> Formed(c, p'.sessions[id])
  {
    NextMovesSessions(c, p, e, p');
    hide Next, IdleStep, FlowFits, Lifetime;
    if e.Touch? {
      assert LookupFits(p, p.lookups[e.lookup]);
    }
    forall id | id in p'.sessions ensures Formed(c, p'.sessions[id]) {
      assert id in p.sessions ==> Formed(c, p.sessions[id]);
    }
  }

  lemma {:induction false} RunFormed(c: Settings, ps: seq<Portal>, es: seq<Event>, k: nat)
    requires Run(c, ps, es) && k < |ps|
    ensures forall id :: id in ps[k].sessions ==> Formed(c, ps[k].sessions[id])
  {
    hide Next, Formed, RowsFit, OriginsFit;
    if k > 0 {
      RunFormed(c, ps, es, k - 1);
      RunInv(c, ps, es, k - 1);
      StepFormed(c, ps[k - 1], es[k - 1], ps[k]);
    }
  }

  /** The touch that lands moves idle expiry back: it comes too early after creation for the configured timeout to reach
      as far as the half hour the session was given, or it is older than the last recorded visit. */
  predicate Shortens(c: Settings, p: Portal, e: Event, id: Uuid) {
    Lands(p, e, id) &&
    var at, s := p.lookups[e.lookup].at, p.sessions[id];
    && at + IdleStep(c) < s.absoluteExpiresAt
    && if s.lastSeenAt == s.createdAt then at + IdleStep(c) < s.createdAt + IDLE_TIMEOUT else at < s.lastSeenAt
  }

  /** One step moves idle expiry back exactly when such a touch lands. */
  lemma StepShortens(c: Settings, p: Portal, e: Event, p': Portal, id: Uuid)
    requires Next(c, p, e, p') && id in p.sessions && Formed(c, p.sessions[id])
    ensures id in p'.sessions
    ensures p'.sessions[id].idleExpiresAt < p.sessions[id].idleExpiresAt <==> Shortens(c, p, e, id)
  {
    NextMovesSessions(c, p, e, p');
    hide IdleStep, Next;
  }

  ghost predicate NeverBack(ps: seq<Portal>, id: Uuid) {
    forall i, j | 0 <= i <= j < |ps| && id in ps[i].sessions && id in ps[j].sessions ::
      ps[i].sessions[id].idleExpiresAt <= ps[j].sessions[id].idleExpiresAt
  }

  lemma {:induction false} IdleGrows(c: Settings, ps: seq<Portal>, es: seq<Event>, id: Uuid, i: nat, j: nat)
    requires Run(c, ps, es) && i <= j < |ps| && id in ps[i].sessions
    requires forall k :: i <= k < j ==> !Shortens(c, ps[k], es[k], id)
    ensures id in ps[j].sessions && ps[i].sessions[id].idleExpiresAt <= ps[j].sessions[id].idleExpiresAt
  {
    hide Next, Formed, Shortens;
    if i < j {
      IdleGrows(c, ps, es, id, i, j - 1);
      RunFormed(c, ps, es, j - 1);
      StepShortens(c, ps[j - 1], es[j - 1], ps[j], id);
    }
  }

  /** Under any settings the repository accepts, a session's idle expiry never moves back if and only if no touch that
      lands on it shortens it. */
  lemma IdleNeverBackIff(c: Settings, ps: seq<Portal>, es: seq<Event>, id: Uuid)
    requires Run(c, ps, es)
    ensures NeverBack(ps, id) <==> forall k :: 0 <= k < |es| ==> !Shortens(c, ps[k], es[k], id)
  {
    hide Next, Formed;
    if k :| 0 <= k < |es| && Shortens(c, ps[k], es[k], id) {
      RunFormed(c, ps, es, k);
      StepShortens(c, ps[k], es[k], ps[k + 1], id);
    } else {
      forall i, j | 0 <= i <= j < |ps| && id in ps[i].sessions && id in ps[j].sessions
        ensures ps[i].sessions[id].idleExpiresAt <= ps[j].sessions[id].idleExpiresAt
      {
        IdleGrows(c, ps, es, id, i, j);
      }
    }
  }

  /** The touch that lands belongs to an older request than the last recorded visit, and the session is
      not yet in its last half hour. */
  predicate Stale(p: Portal, e: Event, id: Uuid) {
    Lands(p, e, id) &&
    var at, s := p.lookups[e.lookup].at, p.sessions[id];
    at < s.lastSeenAt && at + IDLE_TIMEOUT < s.absoluteExpiresAt
  }

  /** Idle expiry is half an hour after the last recorded visit, or the absolute expiry if that is sooner. */
  predicate Tied(s: Session) { s.idleExpiresAt == MinTime(s.lastSeenAt + IDLE_TIMEOUT, s.absoluteExpiresAt) }

  lemma StepTied(c: Settings, p: Portal, e: Event, p': Portal)
    requires c.idleTimeout == IDLE_TIMEOUT && Next(c, p, e, p')
    requires forall id :: id in p.sessions ==> Tied(p.sessions[id])
    ensures forall id :: id in p'.sessions ==> Tied(p'.sessions[id])
  {
    assert IdleStep(c) == IDLE_TIMEOUT;
    NextMovesSessions(c, p, e, p');
    hide IdleStep, Next;
    forall id | id in p'.sessions ensures Tied(p'.sessions[id]) {
      assert id in p.sessions ==> Tied(p.sessions[id]);
    }
  }

  lemma {:induction false} RunTied(c: Settings, ps: seq<Portal>, es: seq<Event>, k: nat)
    requires Run(c, ps, es) && c.idleTimeout == IDLE_TIMEOUT && k < |ps|
    ensures forall id :: id in ps[k].sessions ==> Tied(ps[k].sessions[id])
  {
    hide Next, Tied;
    if k > 0 {
      RunTied(c, ps, es, k - 1);
      StepTied(c, ps[k - 1], es[k - 1], ps[k]);
    }
  }

  /** With the default timeout only a stale touch shortens a session. */
  lemma DefaultShortens(c: Settings, p: Portal, e: Event, id: Uuid)
    requires c.idleTimeout == IDLE_TIMEOUT && RowsFit(p)
    ensures Shortens(c, p, e, id) <==> Stale(p, e, id)
  {
    assert IdleStep(c) == IDLE_TIMEOUT;
    hide IdleStep, FlowFits;
    if Lands(p, e, id) {
      assert LookupFits(p, p.lookups[e.lookup]);
      assert Lifetime(p.now, p.sessions[id]);
    }
  }

  lemma NotShortened(c: Settings, ps: seq<Portal>, es: seq<Event>, id: Uuid, k: nat)
    requires Run(c, ps, es) && c.idleTimeout == IDLE_TIMEOUT && k < |es|
    ensures Shortens(c, ps[k], es[k], id) <==> Stale(ps[k], es[k], id)
  {
    hide Next, RowsFit, OriginsFit, Shortens, Stale;
    RunInv(c, ps, es, k);
    DefaultShortens(c, ps[k], es[k], id);
  }

  /** With the default timeout, idle expiry never moves back exactly when no stale touch lands. */
  lemma IdleNeverBackDefault(c: Settings, ps: seq<Portal>, es: seq<Event>, id: Uuid)
    requires Run(c, ps, es) && c.idleTimeout == IDLE_TIMEOUT
    ensures NeverBack(ps, id) <==> forall k :: 0 <= k < |es| ==> !Stale(ps[k], es[k], id)
  {
    hide Next, Shortens, Stale, NeverBack;
    IdleNeverBackIff(c, ps, es, id);
    forall k | 0 <= k < |es| ensures Shortens(c, ps[k], es[k], id) <==> Stale(ps[k], es[k], id) {
      NotShortened(c, ps, es, id, k);
    }
  }

  const USUAL: Settings := Settings(IDLE_TIMEOUT, 5 * MINUTE)

  /** A portal at time `now` with one session, made at time 0, and these resolves under way. */
  function OneSession(now: Time, session: Session, lookups: map<nat, Lookup>): Portal {
    Portal(now, map[1 := Flow(0, 0, 0, FLOW_LIFETIME, Some(0))], map[1 := session],
           map[1 := Audit(Some(1), LoginAction, true, 0)], {1}, map[], lookups, map[1 := Origin(1, 1)])
  }

  lemma SignIn(c: Settings) returns (ps: seq<Portal>, es: seq<Event>)
    requires ValidSettings(c)
    ensures |es| == 3 && Run(c, ps, es)
    ensures ps[3] == OneSession(0, NewSession(0, 1, "i", "s", None, 0), map[])
  {
    var p0 := Portal(0, map[], map[], map[], {1}, map[], map[], map[]);
    var p1 := p0.(flows := map[1 := Flow(0, 0, 0, FLOW_LIFETIME, None)]);
    var p2 := p1.(flows := map[1 := Flow(0, 0, 0, FLOW_LIFETIME, Some(0))], callbacks := map[0 := Callback(1, 0)]);
    var p3 := OneSession(0, NewSession(0, 1, "i", "s", None, 0), map[]);
    ps := [p0, p1, p2, p3];
    es := [StartLogin(1, 0, 0, FLOW_LIFETIME), Consume(1, 0, 0, 0, Some(0)), Finish(0, 1, 1, 0, 1, "i", "s", None)];
    assert p2.callbacks - {0} == map[];
    assert Next(c, p0, es[0], p1) && Next(c, p1, es[1], p2) && Next(c, p2, es[2], p3);
  }

  lemma Append(c: Settings, ps: seq<Portal>, es: seq<Event>, e: Event, p: Portal)
    requires Run(c, ps, es) && Next(c, ps[|es|], e, p)
    ensures Run(c, ps + [p], es + [e])
  {
    hide Next;
  }

  /** A shorter configured timeout: a sign-in and one resolve five minutes later, with no other request around, move idle
      expiry from minute 30 back to 25. */
  lemma ShortTimeoutShortens() returns (c: Settings, ps: seq<Portal>, es: seq<Event>)
    ensures c == Settings(20 * MINUTE, 5 * MINUTE) && |es| == 6 && Run(c, ps, es) && Shortens(c, ps[5], es[5], 1)
    ensures !Stale(ps[5], es[5], 1) && 1 in ps[5].sessions && 1 in ps[6].sessions
    ensures ps[5].sessions[1].idleExpiresAt == 30 * MINUTE && ps[6].sessions[1].idleExpiresAt == 25 * MINUTE
  {
    c := Settings(20 * MINUTE, 5 * MINUTE);
    var s := NewSession(0, 1, "i", "s", None, 0);
    ps, es := SignIn(c);
    var p4 := OneSession(5 * MINUTE, s, map[]);
    Append(c, ps, es, Tick(5 * MINUTE), p4);
    ps, es := ps + [p4], es + [Tick(5 * MINUTE)];
    hide Run;
    var p5 := OneSession(5 * MINUTE, s, map[0 := Lookup(1, 5 * MINUTE)]);
    Append(c, ps, es, Fetch(0, 1, 5 * MINUTE), p5);
    ps, es := ps + [p5], es + [Fetch(0, 1, 5 * MINUTE)];
    var p6 := OneSession(5 * MINUTE, Touched(c, s, 5 * MINUTE), map[]);
    assert p5.lookups - {0} == map[];
    Append(c, ps, es, Touch(0), p6);
    ps, es := ps + [p6], es + [Touch(0)];
  }

  /** A later and an earlier request both find the session due for a touch. */
  lemma TwoFetches(s: Session) returns (ps: seq<Portal>, es: seq<Event>)
    requires s == NewSession(0, 1, "i", "s", None, 0)
    ensures |es| == 7 && Run(USUAL, ps, es)
    ensures ps[7] == OneSession(15 * MINUTE, s, map[0 := Lookup(1, 5 * MINUTE), 1 := Lookup(1, 15 * MINUTE)])
  {
    ps, es := SignIn(USUAL);
    var p4 := OneSession(5 * MINUTE, s, map[]);
    Append(USUAL, ps, es, Tick(5 * MINUTE), p4);
    ps, es := ps + [p4], es + [Tick(5 * MINUTE)];
    var p5 := OneSession(5 * MINUTE, s, map[0 := Lookup(1, 5 * MINUTE)]);
    Append(USUAL, ps, es, Fetch(0, 1, 5 * MINUTE), p5);
    ps, es := ps + [p5], es + [Fetch(0, 1, 5 * MINUTE)];
    var p6 := OneSession(15 * MINUTE, s, map[0 := Lookup(1, 5 * MINUTE)]);
    Append(USUAL, ps, es, Tick(10 * MINUTE), p6);
    ps, es := ps + [p6], es + [Tick(10 * MINUTE)];
    var p7 := OneSession(15 * MINUTE, s, map[0 := Lookup(1, 5 * MINUTE), 1 := Lookup(1, 15 * MINUTE)]);
    Append(USUAL, ps, es, Fetch(1, 1, 15 * MINUTE), p7);
    ps, es := ps + [p7], es + [Fetch(1, 1, 15 * MINUTE)];
  }

  /** The later request records its visit first, and then the earlier one does. */
  lemma TwoTouches(s: Session) returns (ps: seq<Portal>, es: seq<Event>)
    requires s == NewSession(0, 1, "i", "s", None, 0)
    ensures |es| == 9 && Run(USUAL, ps, es) && es[7] == Touch(1) && es[8] == Touch(0)
    ensures ps[7] == OneSession(15 * MINUTE, s, map[0 := Lookup(1, 5 * MINUTE), 1 := Lookup(1, 15 * MINUTE)])
    ensures ps[8] == OneSession(15 * MINUTE, Touched(USUAL, s, 15 * MINUTE), map[0 := Lookup(1, 5 * MINUTE)])
    ensures ps[9] == OneSession(15 * MINUTE, Touched(USUAL, Touched(USUAL, s, 15 * MINUTE), 5 * MINUTE), map[])
  {
    ps, es := TwoFetches(s);
    hide Run;
    var later := Touched(USUAL, s, 15 * MINUTE);
    var p8 := OneSession(15 * MINUTE, later, map[0 := Lookup(1, 5 * MINUTE)]);
    assert ps[7].lookups - {1} == p8.lookups;
    Append(USUAL, ps, es, Touch(1), p8);
    ps, es := ps + [p8], es + [Touch(1)];
    var p9 := OneSession(15 * MINUTE, Touched(USUAL, later, 5 * MINUTE), map[]);
    assert p8.lookups - {0} == map[];
    Append(USUAL, ps, es, Touch(0), p9);
    ps, es := ps + [p9], es + [Touch(0)];
  }

  /** Two overlapping requests: the older one records its visit last and takes ten minutes off the session.  The
      younger one succeeded at minute 15, which should keep the session until minute 40; at minute 36 it is gone. */
  lemma OverlapShortens() returns (ps: seq<Portal>, es: seq<Event>)
    ensures |es| == 10 && Run(USUAL, ps, es) && Stale(ps[8], es[8], 1)
    ensures 1 in ps[8].sessions && 1 in ps[9].sessions
    ensures ps[8].sessions[1].idleExpiresAt == 45 * MINUTE && ps[9].sessions[1].idleExpiresAt == 35 * MINUTE
    ensures Succeeds(ps[7], es[7], 1, 15 * MINUTE) && Promised(USUAL, ps[10], 1, 15 * MINUTE, 36 * MINUTE)
    ensures ps[10].now == 36 * MINUTE && !Active(ps[10], 1, 36 * MINUTE)
  {
    var s := NewSession(0, 1, "i", "s", None, 0);
    ps, es := TwoTouches(s);
    hide Run;
    var p9 := ps[9];
    var p10 := p9.(now := 36 * MINUTE);
    Append(USUAL, ps, es, Tick(21 * MINUTE), p10);
    ps, es := ps + [p10], es + [Tick(21 * MINUTE)];
  }

  // ----------------------------------------------------------------- staying signed in

  /** A resolve of session `id`, checked at `t`, succeeds in this step. */
  predicate Succeeds(p: Portal, e: Event, id: Uuid, t: Time) {
    e == Glance(id, t) || (Lands(p, e, id) && p.lookups[e.lookup].at == t)
  }

  lemma SuccessExtends(c: Settings, p: Portal, e: Event, p': Portal, id: Uuid, t: Time)
    requires c.idleTimeout == IDLE_TIMEOUT && Next(c, p, e, p') && Succeeds(p, e, id, t)
    requires forall i :: i in p.sessions ==> Tied(p.sessions[i])
    ensures id in p'.sessions
    ensures p'.sessions[id].idleExpiresAt + c.touchInterval > t + IDLE_TIMEOUT
            || p'.sessions[id].idleExpiresAt == p'.sessions[id].absoluteExpiresAt
            || p'.sessions[id].idleExpiresAt >= t + IDLE_TIMEOUT
  {
    assert IdleStep(c) == IDLE_TIMEOUT;
    NextMovesSessions(c, p, e, p');
    hide IdleStep, Next;
  }

  /** After a success at `t`, the session stays usable until `t` plus the idle timeout less the touch
      interval, or its absolute expiry, unless it is revoked or its principal loses access. */
  lemma StaysSignedIn(c: Settings, ps: seq<Portal>, es: seq<Event>, i: nat, j: nat, id: Uuid, t: Time, later: Time)
    requires Run(c, ps, es) && c.idleTimeout == IDLE_TIMEOUT && i < j < |ps|
    requires Succeeds(ps[i], es[i], id, t)
    requires forall k :: i < k < j ==> !Stale(ps[k], es[k], id)
    ensures id in ps[j].sessions
    ensures var s := ps[j].sessions[id];
            later + c.touchInterval < t + IDLE_TIMEOUT && later < s.absoluteExpiresAt
            && s.revoked.None? && s.principal in ps[j].authorised ==>
              Active(ps[j], id, later)
  {
    hide Next, Tied, Stale;
    RunTied(c, ps, es, i);
    SuccessExtends(c, ps[i], es[i], ps[i + 1], id, t);
    forall k | i < k < j ensures !Shortens(c, ps[k], es[k], id) {
      NotShortened(c, ps, es, id, k);
    }
    IdleGrows(c, ps, es, id, i + 1, j);
    SessionOutlives(c, ps, es, i + 1, j, id);
  }

  /** A success at `t` promises that the session, while it is neither revoked nor deauthorised, is usable at `later`. */
  predicate Promised(c: Settings, p: Portal, id: Uuid, t: Time, later: Time) {
    && id in p.sessions && p.sessions[id].revoked.None? && p.sessions[id].principal in p.authorised
    && later + c.touchInterval < t + IdleStep(c) && later < p.sessions[id].absoluteExpiresAt
  }

  /** The touch of `id` that lands at step `k` is the last one before state `j`. */
  ghost predicate LastLanding(ps: seq<Portal>, es: seq<Event>, id: Uuid, k: nat, j: nat)
    requires |ps| == |es| + 1 && k < j <= |es|
  {
    Lands(ps[k], es[k], id) && forall m :: k < m < j ==> !Lands(ps[m], es[m], id)
  }

  /** The last touch that landed since step `i`, if any, is not older than the success by more than the touch
      interval, or reaches as far as the session's absolute expiry anyway. */
  ghost predicate LastTouchRecent(c: Settings, ps: seq<Portal>, es: seq<Event>, id: Uuid, i: nat, j: nat, t: Time)
    requires |ps| == |es| + 1 && i < j <= |es| && id in ps[j].sessions
  {
    forall k | i < k < j :: LastLanding(ps, es, id, k, j) ==>
      var at := ps[k].lookups[es[k].lookup].at;
      at + c.touchInterval >= t || at + IdleStep(c) >= ps[j].sessions[id].absoluteExpiresAt
  }

  /** Only a landing touch moves the last recorded visit, and it moves it to its own time. */
  lemma VisitMoves(c: Settings, p: Portal, e: Event, p': Portal, id: Uuid)
    requires Next(c, p, e, p') && id in p.sessions
    ensures id in p'.sessions
    ensures p'.sessions[id].lastSeenAt ==
              if Lands(p, e, id) then p.lookups[e.lookup].at else p.sessions[id].lastSeenAt
  {
    NextMovesSessions(c, p, e, p');
    hide Next;
  }

  lemma {:induction false} VisitStays(c: Settings, ps: seq<Portal>, es: seq<Event>, id: Uuid, i: nat, j: nat)
    requires Run(c, ps, es) && i <= j < |ps| && id in ps[i].sessions
    requires forall k :: i <= k < j ==> !Lands(ps[k], es[k], id)
    ensures id in ps[j].sessions && ps[j].sessions[id].lastSeenAt == ps[i].sessions[id].lastSeenAt
  {
    hide Next, Lands;
    if i < j {
      VisitStays(c, ps, es, id, i, j - 1);
      VisitMoves(c, ps[j - 1], es[j - 1], ps[j], id);
    }
  }

  /** After the last landing touch, the last recorded visit is that touch's. */
  lemma VisitOfLast(c: Settings, ps: seq<Portal>, es: seq<Event>, id: Uuid, k: nat, j: nat)
    requires Run(c, ps, es) && k < j <= |es| && LastLanding(ps, es, id, k, j)
    ensures id in ps[j].sessions && ps[j].sessions[id].lastSeenAt == ps[k].lookups[es[k].lookup].at
  {
    assert id in ps[k].sessions;
    assert Next(c, ps[k], es[k], ps[k + 1]);
    VisitMoves(c, ps[k], es[k], ps[k + 1], id);
    VisitStays(c, ps, es, id, k + 1, j);
  }

  lemma {:induction false} FindLast(ps: seq<Portal>, es: seq<Event>, id: Uuid, i: nat, j: nat) returns (k: nat)
    requires |ps| == |es| + 1 && i < j <= |es|
    ensures i <= k < j
    ensures (k > i && LastLanding(ps, es, id, k, j)) || (k == i && forall m :: i < m < j ==> !Lands(ps[m], es[m], id))
  {
    hide Lands;
    if j == i + 1 {
      k := i;
    } else if Lands(ps[j - 1], es[j - 1], id) {
      k := j - 1;
    } else {
      k := FindLast(ps, es, id, i, j - 1);
    }
  }

  lemma IdleStepBound(c: Settings)
    requires ValidSettings(c)
    ensures IdleStep(c) <= IDLE_TIMEOUT
  {
  }

  /** The expiry left by the last visit covers every promised time exactly if that visit is recent enough. */
  lemma CoversIff(c: Settings, p: Portal, id: Uuid, t: Time)
    requires ValidSettings(c) && id in p.sessions && Formed(c, p.sessions[id])
    requires p.sessions[id].revoked.None? && p.sessions[id].principal in p.authorised
    requires p.sessions[id].lastSeenAt == p.sessions[id].createdAt ==> p.sessions[id].lastSeenAt + c.touchInterval >= t
    ensures var s := p.sessions[id];
            (forall later :: Promised(c, p, id, t, later) ==> Active(p, id, later)) <==>
              s.lastSeenAt + c.touchInterval >= t || s.lastSeenAt + IdleStep(c) >= s.absoluteExpiresAt
  {
    IdleStepBound(c);
    hide IdleStep;
    var s := p.sessions[id];
    if !(s.lastSeenAt + c.touchInterval >= t || s.lastSeenAt + IdleStep(c) >= s.absoluteExpiresAt) {
      assert Promised(c, p, id, t, s.idleExpiresAt) && !Active(p, id, s.idleExpiresAt);
    }
  }

  lemma SuccessIsRecent(c: Settings, p: Portal, e: Event, p': Portal, id: Uuid, t: Time)
    requires Next(c, p, e, p') && Succeeds(p, e, id, t)
    ensures id in p'.sessions && p'.sessions[id].lastSeenAt + c.touchInterval >= t
  {
    assert id in p.sessions;
    VisitMoves(c, p, e, p', id);
  }

  /** A session that a touch has landed on has been seen after its creation. */
  lemma TouchedIsSeen(c: Settings, ps: seq<Portal>, es: seq<Event>, id: Uuid, k: nat, j: nat)
    requires Run(c, ps, es) && k < j <= |es| && LastLanding(ps, es, id, k, j)
    ensures id in ps[j].sessions && ps[j].sessions[id].lastSeenAt > ps[j].sessions[id].createdAt
  {
    hide Next, OriginsFit, FlowFits, Lifetime;
    RunInv(c, ps, es, k);
    assert LookupFits(ps[k], ps[k].lookups[es[k].lookup]);
    SessionOutlives(c, ps, es, k, j, id);
    VisitOfLast(c, ps, es, id, k, j);
  }

  /**
   After a success at `t`, an unrevoked, authorised session is usable at every time before `t` plus the idle
   timeout less the touch interval and before its absolute expiry, if and only if no touch has landed since, or
   the last one that landed is recent enough.
   */
  lemma StaysSignedInIff(c: Settings, ps: seq<Portal>, es: seq<Event>, i: nat, j: nat, id: Uuid, t: Time)
    requires Run(c, ps, es) && i < j < |ps| && Succeeds(ps[i], es[i], id, t)
    ensures id in ps[j].sessions
    ensures ps[j].sessions[id].revoked.None? && ps[j].sessions[id].principal in ps[j].authorised ==>
              ((forall later :: Promised(c, ps[j], id, t, later) ==> Active(ps[j], id, later)) <==>
               LastTouchRecent(c, ps, es, id, i, j, t))
  {
    hide Next, Formed, Succeeds, Promised, Active, Lands, IdleStep;
    SuccessIsRecent(c, ps[i], es[i], ps[i + 1], id, t);
    SessionOutlives(c, ps, es, i + 1, j, id);
    RunFormed(c, ps, es, j);
    var k := FindLast(ps, es, id, i, j);
    if k > i {
      VisitOfLast(c, ps, es, id, k, j);
      TouchedIsSeen(c, ps, es, id, k, j);
    } else {
      VisitStays(c, ps, es, id, i + 1, j);
    }
    if ps[j].sessions[id].revoked.None? && ps[j].sessions[id].principal in ps[j].authorised {
      CoversIff(c, ps[j], id, t);
    }
  }
}
