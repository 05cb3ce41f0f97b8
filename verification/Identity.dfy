/**
 Browser login and sessions: one-time flows, opaque sessions with idle and absolute expiry, and
 revocation.  Each SQL statement is one step; a request that needs two statements takes two steps, and
 any other request may run in between.
 */
module Identity {
  import opened Types

  const MINUTE: nat := 60_000_000_000
  const FLOW_LIFETIME: nat := 10 * MINUTE
  const IDLE_TIMEOUT: nat := 30 * MINUTE
  const ABSOLUTE_TIMEOUT: nat := 480 * MINUTE

  // ----------------------------------------------------------------- rows

  datatype Flow = Flow(state: Hash, cookie: Hash, createdAt: Time, expiresAt: Time, consumedAt: Option<Time>)

  datatype Reason = LoggedOut | BackchannelSession | BackchannelSubject | Suspended

  datatype Revocation = Revocation(at: Time, reason: Reason)

  datatype Session = Session(
    digest: Hash,
    principal: Uuid,
    issuer: string,
    subject: string,
    sid: Option<string>,
    createdAt: Time,
    lastSeenAt: Time,
    idleExpiresAt: Time,
    absoluteExpiresAt: Time,
    revoked: Option<Revocation>)

  datatype Action = LoginAction | LogoutAction

  datatype Audit = Audit(principal: Option<Uuid>, action: Action, succeeded: bool, at: Time)

  /** A callback that has consumed its flow and not yet created a session. */
  datatype Callback = Callback(flow: Uuid, at: Time)

  /** A resolve that has read an active session and is about to record the visit. */
  datatype Lookup = Lookup(session: Uuid, at: Time)

  /** History: the flow and the audit event behind a session.  The tables do not store it. */
  datatype Origin = Origin(flow: Uuid, audit: Uuid)

  datatype Portal = Portal(
    now: Time,
    flows: map<Uuid, Flow>,
    sessions: map<Uuid, Session>,
    audits: map<Uuid, Audit>,
    authorised: set<Uuid>,
    callbacks: map<nat, Callback>,
    lookups: map<nat, Lookup>,
    origins: map<Uuid, Origin>)

  datatype Settings = Settings(idleTimeout: nat, touchInterval: nat)

  predicate ValidSettings(s: Settings) {
    0 < s.idleTimeout <= IDLE_TIMEOUT && 0 < s.touchInterval <= s.idleTimeout
  }

  /** The idle timeout in whole microseconds, as it is sent to the database. */
  function IdleStep(s: Settings): nat { s.idleTimeout / MICROSECOND * MICROSECOND }

  // ----------------------------------------------------------------- statements

  /** The WHERE clause of consumeAuthFlow. */
  predicate Consumable(f: Flow, state: Hash, cookie: Hash, at: Time) {
    f.state == state && f.cookie == cookie && f.consumedAt.None? && f.expiresAt > at
  }

  /** The WHERE clause of getActiveSessionByDigest, with the principal's rights as one set. */
  predicate Active(p: Portal, id: Uuid, at: Time) {
    && id in p.sessions
    && var s := p.sessions[id];
       s.revoked.None? && s.idleExpiresAt > at && s.absoluteExpiresAt > at && s.principal in p.authorised
  }

  /** The WHERE clause of touchActiveSession. */
  predicate Touchable(s: Session, at: Time) {
    s.revoked.None? && s.idleExpiresAt > at && s.absoluteExpiresAt > at
  }

  function MinTime(a: Time, b: Time): Time { if a <= b then a else b }

  function Touched(c: Settings, s: Session, at: Time): Session {
    s.(lastSeenAt := at, idleExpiresAt := MinTime(at + IdleStep(c), s.absoluteExpiresAt))
  }

  datatype Selector = ByDigest(digest: Hash) | BySid(issuer: string, sid: string) | BySubject(issuer: string, subject: string)

  predicate Selects(q: Selector, s: Session) {
    match q
    case ByDigest(d) => s.digest == d
    case BySid(issuer, sid) => s.issuer == issuer && s.sid == Some(sid)
    case BySubject(issuer, subject) => s.issuer == issuer && s.subject == subject
  }

  /** The revoke statements: every selected session that is not revoked yet. */
  function Revoked(sessions: map<Uuid, Session>, q: Selector, r: Revocation): map<Uuid, Session> {
    map id | id in sessions ::
      if Selects(q, sessions[id]) && sessions[id].revoked.None? then sessions[id].(revoked := Some(r)) else sessions[id]
  }

  /** The session CompleteLogin asks for. */
  function NewSession(digest: Hash, principal: Uuid, issuer: string, subject: string, sid: Option<string>, at: Time): Session {
    Session(digest, principal, issuer, subject, sid, at, at, at + IDLE_TIMEOUT, at + ABSOLUTE_TIMEOUT, None)
  }

  // ----------------------------------------------------------------- steps

  datatype Event =
    | Tick(elapsed: nat)
    | Authorise(principals: set<Uuid>)
    | StartLogin(flow: Uuid, state: Hash, cookie: Hash, expiresAt: Time)
    | Consume(flow: Uuid, state: Hash, cookie: Hash, at: Time, login: Option<nat>)
    | Finish(callback: nat, session: Uuid, audit: Uuid, digest: Hash, principal: Uuid,
             issuer: string, subject: string, sid: Option<string>)
    | GiveUp(callback: nat)
    | Glance(session: Uuid, at: Time)
    | Fetch(lookup: nat, session: Uuid, at: Time)
    | Touch(lookup: nat)
    | Drop(lookup: nat)
    | Revoke(selector: Selector, revocation: Revocation)
    | Record(audit: Uuid, event: Audit)

  predicate Next(c: Settings, p: Portal, e: Event, p': Portal) {
    match e
    case Tick(elapsed) => p' == p.(now := p.now + elapsed)
    case Authorise(principals) => p' == p.(authorised := principals)
    case StartLogin(id, state, cookie, expiresAt) =>
      && id !in p.flows && p.now < expiresAt <= p.now + FLOW_LIFETIME
      && (forall f :: f in p.flows ==> p.flows[f].state != state)
      && p' == p.(flows := p.flows[id := Flow(state, cookie, p.now, expiresAt, None)])
    case Consume(id, state, cookie, at, login) =>
      && id in p.flows && p.flows[id].createdAt <= at <= p.now
      && Consumable(p.flows[id], state, cookie, at)
      && (login.Some? ==> login.value !in p.callbacks)
      && p' == p.(flows := p.flows[id := p.flows[id].(consumedAt := Some(at))],
                  callbacks := if login.Some? then p.callbacks[login.value := Callback(id, at)] else p.callbacks)
    case Finish(cb, id, audit, digest, principal, issuer, subject, sid) =>
      && cb in p.callbacks && id !in p.sessions && audit !in p.audits
      && (forall s :: s in p.sessions ==> p.sessions[s].digest != digest)
      && p' == p.(sessions := p.sessions[id := NewSession(digest, principal, issuer, subject, sid, p.callbacks[cb].at)],
                  audits := p.audits[audit := Audit(Some(principal), LoginAction, true, p.callbacks[cb].at)],
                  callbacks := p.callbacks - {cb},
                  origins := p.origins[id := Origin(p.callbacks[cb].flow, audit)])
    case GiveUp(cb) => cb in p.callbacks && p' == p.(callbacks := p.callbacks - {cb})
    case Glance(id, at) =>
      at <= p.now && Active(p, id, at) && at < p.sessions[id].lastSeenAt + c.touchInterval && p' == p
    case Fetch(l, id, at) =>
      && at <= p.now && Active(p, id, at) && at >= p.sessions[id].lastSeenAt + c.touchInterval
      && l !in p.lookups && p' == p.(lookups := p.lookups[l := Lookup(id, at)])
    case Touch(l) =>
      && l in p.lookups && p.lookups[l].session in p.sessions
      && var id, at := p.lookups[l].session, p.lookups[l].at;
         p' == p.(lookups := p.lookups - {l},
                  sessions := if Touchable(p.sessions[id], at)
                              then p.sessions[id := Touched(c, p.sessions[id], at)] else p.sessions)
    case Drop(l) => l in p.lookups && p' == p.(lookups := p.lookups - {l})
    case Revoke(q, r) => p' == p.(sessions := Revoked(p.sessions, q, r))
    case Record(id, audit) =>
      && id !in p.audits && !(audit.action.LoginAction? && audit.succeeded)
      && p' == p.(audits := p.audits[id := audit])
  }

  // ----------------------------------------------------------------- the invariant

  predicate Lifetime(now: Time, s: Session) {
    && s.createdAt < s.absoluteExpiresAt <= s.createdAt + ABSOLUTE_TIMEOUT
    && s.idleExpiresAt <= s.absoluteExpiresAt
    && s.createdAt <= s.lastSeenAt <= now
    && s.idleExpiresAt <= s.lastSeenAt + IDLE_TIMEOUT
  }

  predicate FlowFits(f: Flow) {
    && f.createdAt < f.expiresAt <= f.createdAt + FLOW_LIFETIME
    && (f.consumedAt.Some? ==> f.createdAt <= f.consumedAt.value < f.expiresAt)
  }

  predicate ConsumedAt(p: Portal, flow: Uuid, at: Time) {
    flow in p.flows && p.flows[flow].consumedAt == Some(at)
  }

  /** A session goes back to a flow consumed at its creation time, and to its success audit. */
  predicate OriginFits(p: Portal, id: Uuid)
    requires id in p.sessions && id in p.origins
  {
    && ConsumedAt(p, p.origins[id].flow, p.sessions[id].createdAt)
    && p.origins[id].audit in p.audits
    && p.audits[p.origins[id].audit] ==
         Audit(Some(p.sessions[id].principal), LoginAction, true, p.sessions[id].createdAt)
  }

  predicate SharesOrigin(p: Portal, i: Uuid, j: Uuid) {
    && i in p.origins && j in p.origins && i != j
    && (p.origins[i].flow == p.origins[j].flow || p.origins[i].audit == p.origins[j].audit)
  }

  predicate SharesFlow(p: Portal, cb: nat, other: nat) {
    cb in p.callbacks && other in p.callbacks && cb != other && p.callbacks[cb].flow == p.callbacks[other].flow
  }

  predicate Spent(p: Portal, cb: nat, id: Uuid) {
    cb in p.callbacks && id in p.origins && p.origins[id].flow == p.callbacks[cb].flow
  }

  predicate LoginAudit(p: Portal, a: Uuid) {
    a in p.audits && p.audits[a].action.LoginAction? && p.audits[a].succeeded
  }

  ghost predicate Owned(p: Portal, a: Uuid) { exists id :: id in p.origins && p.origins[id].audit == a }

  predicate LookupFits(p: Portal, l: Lookup) {
    l.at <= p.now && l.session in p.sessions && p.sessions[l.session].createdAt < l.at
  }

  ghost predicate RowsFit(p: Portal) {
    && (forall f :: f in p.flows ==> FlowFits(p.flows[f]))
    && (forall id :: id in p.sessions ==> Lifetime(p.now, p.sessions[id]))
    && (forall l :: l in p.lookups ==> LookupFits(p, p.lookups[l]))
    && (forall cb :: cb in p.callbacks ==> p.callbacks[cb].at <= p.now)
  }

  ghost predicate Traced(p: Portal) {
    && p.origins.Keys == p.sessions.Keys
    && (forall id :: id in p.origins ==> OriginFits(p, id))
    && (forall cb :: cb in p.callbacks ==> ConsumedAt(p, p.callbacks[cb].flow, p.callbacks[cb].at))
  }

  ghost predicate Unshared(p: Portal) {
    && (forall i, j :: !SharesOrigin(p, i, j))
    && (forall i, j :: !SharesFlow(p, i, j))
    && (forall cb, id :: !Spent(p, cb, id))
  }

  /** Sessions, consumed flows and success audits match up one to one. */
  ghost predicate OriginsFit(p: Portal) {
    Traced(p) && Unshared(p) && forall a :: LoginAudit(p, a) ==> Owned(p, a)
  }

  ghost predicate PortalInv(p: Portal) { RowsFit(p) && OriginsFit(p) }

  predicate Opening(p: Portal) {
    p.flows == map[] && p.sessions == map[] && p.audits == map[] && p.callbacks == map[] && p.lookups == map[]
    && p.origins == map[]
  }

  lemma OpeningInv(p: Portal)
    requires Opening(p)
    ensures PortalInv(p)
  {
  }

  /** What a step does to the session table. */
  predicate SessionsMove(c: Settings, p: Portal, e: Event, p': Portal) {
    match e
    case Finish(cb, id, _, digest, principal, issuer, subject, sid) =>
      && id !in p.sessions && cb in p.callbacks
      && p'.sessions == p.sessions[id := NewSession(digest, principal, issuer, subject, sid, p.callbacks[cb].at)]
    case Touch(l) =>
      && l in p.lookups && p.lookups[l].session in p.sessions
      && var id, at := p.lookups[l].session, p.lookups[l].at;
         p'.sessions == if Touchable(p.sessions[id], at)
                        then p.sessions[id := Touched(c, p.sessions[id], at)] else p.sessions
    case Revoke(q, r) => p'.sessions == Revoked(p.sessions, q, r)
    case _ => p'.sessions == p.sessions
  }

  /** What a step does to the flows and to the callbacks under way. */
  predicate FlowsMove(p: Portal, e: Event, p': Portal) {
    match e
    case StartLogin(id, state, cookie, expiresAt) =>
      && id !in p.flows && p.now < expiresAt <= p.now + FLOW_LIFETIME && p'.callbacks == p.callbacks
      && p'.flows == p.flows[id := Flow(state, cookie, p.now, expiresAt, None)]
    case Consume(id, state, cookie, at, login) =>
      && id in p.flows && p.flows[id].createdAt <= at <= p.now
      && p.flows[id].state == state && p.flows[id].cookie == cookie
      && p.flows[id].consumedAt.None? && at < p.flows[id].expiresAt
      && p'.flows == p.flows[id := p.flows[id].(consumedAt := Some(at))]
      && p'.callbacks == if login.Some? then p.callbacks[login.value := Callback(id, at)] else p.callbacks
    case Finish(cb, _, _, _, _, _, _, _) => p'.flows == p.flows && p'.callbacks == p.callbacks - {cb}
    case GiveUp(cb) => p'.flows == p.flows && p'.callbacks == p.callbacks - {cb}
    case _ => p'.flows == p.flows && p'.callbacks == p.callbacks
  }

  /** What a step does to the resolves under way. */
  predicate LookupsMove(p: Portal, e: Event, p': Portal) {
    match e
    case Fetch(l, id, at) =>
      && at <= p.now && id in p.sessions && p.sessions[id].lastSeenAt < at
      && p'.lookups == p.lookups[l := Lookup(id, at)]
    case Touch(l) => p'.lookups == p.lookups - {l}
    case Drop(l) => p'.lookups == p.lookups - {l}
    case _ => p'.lookups == p.lookups
  }

  /** What a step does to the audit table and to the history. */
  predicate AuditsMove(p: Portal, e: Event, p': Portal) {
    match e
    case Finish(cb, id, audit, _, principal, _, _, _) =>
      && audit !in p.audits && cb in p.callbacks
      && p'.audits == p.audits[audit := Audit(Some(principal), LoginAction, true, p.callbacks[cb].at)]
      && p'.origins == p.origins[id := Origin(p.callbacks[cb].flow, audit)]
    case Record(id, audit) =>
      && id !in p.audits && !(audit.action.LoginAction? && audit.succeeded)
      && p'.audits == p.audits[id := audit] && p'.origins == p.origins
    case _ => p'.audits == p.audits && p'.origins == p.origins
  }

  lemma NextMovesSessions(c: Settings, p: Portal, e: Event, p': Portal)
    requires Next(c, p, e, p')
    ensures SessionsMove(c, p, e, p') && p.now <= p'.now
  {
    hide Touched, Touchable, Revoked, Active, Consumable, NewSession;
    match e { case Tick(_) => case Finish(_, _, _, _, _, _, _, _) => case Touch(_) => case Revoke(_, _) => case _ => }
  }

  lemma NextMovesFlows(c: Settings, p: Portal, e: Event, p': Portal)
    requires Next(c, p, e, p')
    ensures FlowsMove(p, e, p') && p.now <= p'.now
  {
    hide Touched, Touchable, Revoked, Active, NewSession;
    match e { case StartLogin(_, _, _, _) => case Consume(_, _, _, _, _) => case GiveUp(_) => case _ => }
  }

  lemma NextMovesLookups(c: Settings, p: Portal, e: Event, p': Portal)
    requires ValidSettings(c) && Next(c, p, e, p')
    ensures LookupsMove(p, e, p')
  {
    hide Touched, Touchable, Revoked, Consumable, NewSession;
    match e { case Fetch(_, _, _) => case Touch(_) => case Drop(_) => case _ => }
  }

  lemma NextMovesAudits(c: Settings, p: Portal, e: Event, p': Portal)
    requires Next(c, p, e, p')
    ensures AuditsMove(p, e, p')
  {
    hide Touched, Touchable, Revoked, Active, Consumable, NewSession;
    match e { case Finish(_, _, _, _, _, _, _, _) => case Record(_, _) => case _ => }
  }

  lemma TouchKeepsLifetime(c: Settings, now: Time, s: Session, at: Time)
    requires ValidSettings(c) && Lifetime(now, s) && s.createdAt <= at <= now
    ensures Lifetime(now, Touched(c, s, at))
  {
  }

  lemma NextKeepsLifetimes(c: Settings, p: Portal, e: Event, p': Portal)
    requires ValidSettings(c) && RowsFit(p) && Next(c, p, e, p')
    ensures forall id :: id in p'.sessions ==> Lifetime(p'.now, p'.sessions[id])
  {
    NextMovesSessions(c, p, e, p');
    hide Next, FlowFits, Touched, Touchable;
    if e.Touch? {
      var l := p.lookups[e.lookup];
      assert LookupFits(p, l);
      TouchKeepsLifetime(c, p.now, p.sessions[l.session], l.at);
    }
    hide LookupFits;
    forall id | id in p'.sessions && id in p.sessions ensures Lifetime(p'.now, p'.sessions[id]) {
      assert Lifetime(p.now, p.sessions[id]);
    }
  }

  lemma NextKeepsFlows(c: Settings, p: Portal, e: Event, p': Portal)
    requires RowsFit(p) && Next(c, p, e, p')
    ensures forall f :: f in p'.flows ==> FlowFits(p'.flows[f])
    ensures forall cb :: cb in p'.callbacks ==> p'.callbacks[cb].at <= p'.now
  {
    hide Next, Lifetime, LookupFits;
    NextMovesFlows(c, p, e, p');
  }

  lemma NextKeepsLookups(c: Settings, p: Portal, e: Event, p': Portal)
    requires ValidSettings(c) && RowsFit(p) && Next(c, p, e, p')
    ensures forall l :: l in p'.lookups ==> LookupFits(p', p'.lookups[l])
  {
    hide Next, FlowFits;
    NextMovesLookups(c, p, e, p');
    forall l | l in p'.lookups ensures LookupFits(p', p'.lookups[l]) {
      if l in p.lookups && p'.lookups[l] == p.lookups[l] {
        assert LookupFits(p, p.lookups[l]);
      } else {
        assert Lifetime(p.now, p.sessions[e.session]);
      }
      StaysCreated(c, p, e, p', p'.lookups[l].session);
    }
  }

  lemma StaysCreated(c: Settings, p: Portal, e: Event, p': Portal, id: Uuid)
    requires Next(c, p, e, p') && id in p.sessions
    ensures id in p'.sessions && p'.sessions[id].createdAt == p.sessions[id].createdAt && p.now <= p'.now
    ensures p'.sessions[id].principal == p.sessions[id].principal
  {
    NextMovesSessions(c, p, e, p');
    hide Next;
  }

  lemma NextKeepsRows(c: Settings, p: Portal, e: Event, p': Portal)
    requires ValidSettings(c) && RowsFit(p) && Next(c, p, e, p')
    ensures RowsFit(p')
  {
    NextKeepsLifetimes(c, p, e, p');
    NextKeepsFlows(c, p, e, p');
    NextKeepsLookups(c, p, e, p');
    hide Next, Lifetime, FlowFits, LookupFits;
  }

  /** Neither a flow is consumed nor a session created. */
  ghost predicate Calm(p: Portal, p': Portal) {
    && p'.origins == p.origins && p'.sessions.Keys == p.sessions.Keys
    && (forall id :: id in p.sessions ==>
          p'.sessions[id].principal == p.sessions[id].principal && p'.sessions[id].createdAt == p.sessions[id].createdAt)
    && (forall f :: f in p.flows ==> f in p'.flows && p'.flows[f] == p.flows[f])
    && (forall cb :: cb in p'.callbacks ==> cb in p.callbacks && p'.callbacks[cb] == p.callbacks[cb])
    && (forall a :: a in p.audits ==> a in p'.audits && p'.audits[a] == p.audits[a])
    && (forall a :: LoginAudit(p', a) ==> LoginAudit(p, a))
  }

  lemma OthersAreCalm(c: Settings, p: Portal, e: Event, p': Portal)
    requires Next(c, p, e, p') && !e.Consume? && !e.Finish?
    ensures Calm(p, p')
  {
    hide Next;
    forall id | id in p.sessions
      ensures id in p'.sessions && p'.sessions[id].principal == p.sessions[id].principal
              && p'.sessions[id].createdAt == p.sessions[id].createdAt
    {
      StaysCreated(c, p, e, p', id);
    }
    assert p'.sessions.Keys == p.sessions.Keys by { NoNewSession(c, p, e, p'); }
    NextMovesFlows(c, p, e, p');
    NextMovesAudits(c, p, e, p');
  }

  lemma NoNewSession(c: Settings, p: Portal, e: Event, p': Portal)
    requires Next(c, p, e, p') && !e.Finish?
    ensures p'.sessions.Keys == p.sessions.Keys
  {
    NextMovesSessions(c, p, e, p');
    hide Next;
  }

  lemma CalmKeepsOrigins(p: Portal, p': Portal)
    requires OriginsFit(p) && Calm(p, p')
    ensures OriginsFit(p')
  {
    assert Traced(p') by {
      forall id | id in p'.origins ensures OriginFits(p', id) { assert OriginFits(p, id); }
    }
    hide OriginFits, Traced;
    assert Unshared(p') by { FewerUnshared(p, p'); }
    hide Unshared;
    forall a | LoginAudit(p', a) ensures Owned(p', a) { OwnedStays(p, p', a); }
  }

  lemma FewerUnshared(p: Portal, p': Portal)
    requires Unshared(p) && p'.origins == p.origins
    requires forall cb :: cb in p'.callbacks ==> cb in p.callbacks && p'.callbacks[cb] == p.callbacks[cb]
    ensures Unshared(p')
  {
    forall i, j ensures !SharesOrigin(p', i, j) { assert !SharesOrigin(p, i, j); }
    forall i, j ensures !SharesFlow(p', i, j) { assert !SharesFlow(p, i, j); }
    forall cb, id ensures !Spent(p', cb, id) { assert !Spent(p, cb, id); }
  }

  lemma OwnedStays(p: Portal, p': Portal, a: Uuid)
    requires (forall x :: LoginAudit(p, x) ==> Owned(p, x)) && LoginAudit(p, a)
    requires forall id :: id in p.origins ==> id in p'.origins && p'.origins[id] == p.origins[id]
    ensures Owned(p', a)
  {
    var id :| id in p.origins && p.origins[id].audit == a;
    assert id in p'.origins && p'.origins[id].audit == a;
  }

  /** A consumed flow belongs to nobody yet. */
  lemma ConsumeKeepsOrigins(c: Settings, p: Portal, e: Event, p': Portal)
    requires OriginsFit(p) && Next(c, p, e, p') && e.Consume?
    ensures OriginsFit(p')
  {
    NextMovesFlows(c, p, e, p');
    NextMovesAudits(c, p, e, p');
    NextMovesSessions(c, p, e, p');
    hide Next;
    forall id | id in p.origins ensures p.origins[id].flow != e.flow { assert OriginFits(p, id); }
    assert Traced(p') by {
      forall id | id in p'.origins ensures OriginFits(p', id) { OriginStays(p, p', id); }
    }
    assert Unshared(p') by {
      forall i, j ensures !SharesOrigin(p', i, j) { assert !SharesOrigin(p, i, j); }
      forall i, j ensures !SharesFlow(p', i, j) { assert !SharesFlow(p, i, j); }
      forall cb, id ensures !Spent(p', cb, id) { assert !Spent(p, cb, id); }
    }
    hide Traced, Unshared;
    forall a | LoginAudit(p', a) ensures Owned(p', a) {
      assert LoginAudit(p, a);
      OwnedStays(p, p', a);
    }
  }

  lemma FinishTraced(c: Settings, p: Portal, e: Event, p': Portal)
    requires Traced(p) && Next(c, p, e, p') && e.Finish?
    ensures Traced(p')
    ensures forall id :: id in p.origins ==> p.origins[id].audit != e.audit
  {
    NextMovesFlows(c, p, e, p');
    NextMovesAudits(c, p, e, p');
    NextMovesSessions(c, p, e, p');
    hide Next;
    forall id | id in p.origins ensures p.origins[id].audit != e.audit { assert OriginFits(p, id); }
    forall id | id in p'.origins ensures OriginFits(p', id) {
      if id != e.session {
        OriginStays(p, p', id);
      }
    }
  }

  lemma OriginStays(p: Portal, p': Portal, id: Uuid)
    requires id in p.sessions && id in p.origins && OriginFits(p, id) && id in p'.sessions && id in p'.origins
    requires p'.origins[id] == p.origins[id] && p'.sessions[id].principal == p.sessions[id].principal
    requires p'.sessions[id].createdAt == p.sessions[id].createdAt
    requires p.origins[id].flow in p'.flows && p'.flows[p.origins[id].flow] == p.flows[p.origins[id].flow]
    requires p.origins[id].audit in p'.audits && p'.audits[p.origins[id].audit] == p.audits[p.origins[id].audit]
    ensures OriginFits(p', id)
  {
  }

  lemma FinishUnshared(c: Settings, p: Portal, e: Event, p': Portal)
    requires Unshared(p) && e.Finish? && Next(c, p, e, p') && e.session !in p.origins
    requires forall id :: id in p.origins ==> p.origins[id].audit != e.audit
    ensures Unshared(p')
  {
    NextMovesFlows(c, p, e, p');
    NextMovesAudits(c, p, e, p');
    hide Next;
    forall i, j ensures !SharesOrigin(p', i, j) {
      assert !SharesOrigin(p, i, j) && !Spent(p, e.callback, i) && !Spent(p, e.callback, j);
    }
    forall i, j ensures !SharesFlow(p', i, j) { assert !SharesFlow(p, i, j); }
    forall cb, id ensures !Spent(p', cb, id) {
      assert !Spent(p, cb, id) && !SharesFlow(p, cb, e.callback);
    }
  }

  /** A session takes over the flow of the callback that creates it. */
  lemma FinishKeepsOrigins(c: Settings, p: Portal, e: Event, p': Portal)
    requires OriginsFit(p) && Next(c, p, e, p') && e.Finish?
    ensures OriginsFit(p')
  {
    NextMovesAudits(c, p, e, p');
    NextMovesSessions(c, p, e, p');
    hide Next;
    FinishTraced(c, p, e, p');
    FinishUnshared(c, p, e, p');
    hide Traced, Unshared;
    forall a | LoginAudit(p', a) ensures Owned(p', a) {
      if a == e.audit {
        assert p'.origins[e.session].audit == a;
      } else {
        assert LoginAudit(p, a);
        assert e.session !in p.sessions;
        OwnedGrows(p, p', a, e.session);
      }
    }
  }

  lemma OwnedGrows(p: Portal, p': Portal, a: Uuid, added: Uuid)
    requires Owned(p, a) && added !in p.origins && added in p'.origins
    requires p'.origins == p.origins[added := p'.origins[added]]
    ensures Owned(p', a)
  {
    var id :| id in p.origins && p.origins[id].audit == a;
    assert id in p'.origins && p'.origins[id].audit == a;
  }

  lemma NextKeepsInv(c: Settings, p: Portal, e: Event, p': Portal)
    requires ValidSettings(c) && PortalInv(p) && Next(c, p, e, p')
    ensures PortalInv(p')
  {
    hide RowsFit, OriginsFit, Next;
    NextKeepsRows(c, p, e, p');
    if e.Consume? {
      ConsumeKeepsOrigins(c, p, e, p');
    } else if e.Finish? {
      FinishKeepsOrigins(c, p, e, p');
    } else {
      OthersAreCalm(c, p, e, p');
      CalmKeepsOrigins(p, p');
    }
  }

}
