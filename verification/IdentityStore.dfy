/** The identity repository and the login service over it, changing their tables in place. */
module IdentityStore {
  import opened Types
  import opened Identity

  /** What the provider made of the code, and what the repository knows about the subject it named. */
  datatype Exchange =
    | ExchangeFailed
    | Exchanged(nonceMatches: bool, issuer: string, subject: string, sid: Option<string>, principal: Option<Uuid>,
                administrator: bool, mfaSatisfied: bool)

  datatype LoginReply = SignedIn(session: Uuid, expiresAt: Time) | FlowInvalid | Forbidden | Unavailable

  /** The provider and the repository vouch for a known principal. */
  predicate Vouched(x: Exchange) {
    && x.Exchanged? && x.nonceMatches && x.issuer != "" && x.subject != ""
    && x.principal.Some? && (x.administrator ==> x.mfaSatisfied)
  }

  /** The ids and the digest a new session draws are not taken. */
  predicate Unused(sessions: map<Uuid, Session>, audits: map<Uuid, Audit>, id: Uuid, digest: Hash, audit: Uuid) {
    && id !in sessions && audit !in audits
    && forall s :: s in sessions ==> sessions[s].digest != digest
  }

  /** The first statement of a resolve finds this session. */
  predicate Readable(sessions: map<Uuid, Session>, authorised: set<Uuid>, digest: Hash, at: Time, id: Uuid) {
    && id in sessions && sessions[id].digest == digest && Touchable(sessions[id], at)
    && sessions[id].principal in authorised
  }

  /** The rows a statement has changed. */
  function Changed(before: map<Uuid, Session>, after: map<Uuid, Session>): set<Uuid> {
    set id | id in before && id in after && after[id] != before[id]
  }

  /** The history with one more session in it. */
  function Noted(p: Portal, id: Uuid, flow: Uuid, audit: Uuid): Portal {
    p.(origins := p.origins[id := Origin(flow, audit)])
  }

  /** The login is two steps of the machine: one consumes the flow, the other creates the session and its audit. */
  ghost predicate LogsIn(c: Settings, p: Portal, consume: Event, finish: Event, p': Portal) {
    && consume.Consume? && consume.login.Some? && consume.flow in p.flows
    && var mid := p.(flows := p.flows[consume.flow := p.flows[consume.flow].(consumedAt := Some(consume.at))],
                     callbacks := p.callbacks[consume.login.value := Callback(consume.flow, consume.at)]);
       Next(c, p, consume, mid) && finish.Finish? && Next(c, mid, finish, p')
  }

  lemma LoginIsTwoSteps(c: Settings, p: Portal, flow: Uuid, state: Hash, cookie: Hash, callback: nat, id: Uuid,
                        audit: Uuid, digest: Hash, principal: Uuid, issuer: string, subject: string, sid: Option<string>)
    requires flow in p.flows && p.flows[flow].createdAt <= p.now && Consumable(p.flows[flow], state, cookie, p.now)
    requires callback !in p.callbacks && Unused(p.sessions, p.audits, id, digest, audit)
    ensures LogsIn(c, p, Consume(flow, state, cookie, p.now, Some(callback)),
                   Finish(callback, id, audit, digest, principal, issuer, subject, sid),
                   p.(flows := p.flows[flow := p.flows[flow].(consumedAt := Some(p.now))],
                      sessions := p.sessions[id := NewSession(digest, principal, issuer, subject, sid, p.now)],
                      audits := p.audits[audit := Audit(Some(principal), LoginAction, true, p.now)],
                      origins := p.origins[id := Origin(flow, audit)]))
  {
    assert p.callbacks[callback := Callback(flow, p.now)] - {callback} == p.callbacks;
  }

  class Directory {
    var now: Time
    var flows: map<Uuid, Flow>
    var sessions: map<Uuid, Session>
    var audits: map<Uuid, Audit>
    var authorised: set<Uuid>

    constructor (p: Portal)
      ensures Over(p) == p
    {
      now, flows, sessions, audits, authorised := p.now, p.flows, p.sessions, p.audits, p.authorised;
    }

    /** The portal these tables belong to; `rest` holds the requests under way. */
    ghost function Over(rest: Portal): Portal
      reads this
    {
      rest.(now := now, flows := flows, sessions := sessions, audits := audits, authorised := authorised)
    }

    /** Consumes the flow with this state and cookie, if it is unused and not expired. */
    method ConsumeAuthFlow(state: Hash, cookie: Hash, at: Time) returns (found: Option<Uuid>)
      requires at <= now
      modifies this`flows
      ensures found.None? <==>
                forall f :: f in old(flows) && old(flows)[f].createdAt <= at ==> !Consumable(old(flows)[f], state, cookie, at)
      ensures found.None? ==> flows == old(flows)
      ensures found.Some? ==>
                forall c, rest: Portal :: Next(c, old(Over(rest)), Consume(found.value, state, cookie, at, None), Over(rest))
    {
      if f :| f in flows && flows[f].createdAt <= at && Consumable(flows[f], state, cookie, at) {
        flows := flows[f := flows[f].(consumedAt := Some(at))];
        return Some(f);
      }
      return None;
    }

    /** Writes a session and its success audit in one transaction; neither row appears without the other.  A commit
        whose reply is lost has written both and answers with an error. */
    method CreateSessionWithAudit(id: Uuid, session: Session, audit: Uuid, commit: Commit) returns (ok: bool)
      modifies this`sessions, this`audits
      ensures ok <==> commit.Committed? && Unused(old(sessions), old(audits), id, session.digest, audit)
      ensures if Unused(old(sessions), old(audits), id, session.digest, audit) && !commit.RolledBack?
              then && sessions == old(sessions)[id := session]
                   && audits == old(audits)[audit := Audit(Some(session.principal), LoginAction, true, session.createdAt)]
              else sessions == old(sessions) && audits == old(audits)
    {
      if id in sessions || exists s :: s in sessions && sessions[s].digest == session.digest {
        return false;
      }
      var before := sessions;
      sessions := sessions[id := session];
      if audit in audits {
        sessions := before;
        return false;
      }
      var audited := audits;
      audits := audits[audit := Audit(Some(session.principal), LoginAction, true, session.createdAt)];
      if commit.RolledBack? {
        sessions, audits := before, audited;
      }
      return commit.Committed?;
    }

    /** A failed attempt is recorded too, without a principal. */
    method LoginFailure(audit: Uuid)
      modifies this`audits
      ensures audits == if audit in old(audits) then old(audits)
                        else old(audits)[audit := Audit(None, LoginAction, false, now)]
    {
      if audit !in audits {
        audits := audits[audit := Audit(None, LoginAction, false, now)];
      }
    }

    /**
     The callback.  A session appears exactly if this call consumed a flow, everything behind it checks out and the
     commit goes through, heard or not, and then exactly one, together with its success audit; the flow is spent either
     way.
     */
    method CompleteLogin(state: Hash, cookie: Hash, x: Exchange, id: Uuid, audit: Uuid, digest: Hash, commit: Commit)
      returns (reply: LoginReply, flow: Option<Uuid>)
      modifies this
      ensures now == old(now) && authorised == old(authorised)
      ensures flow.None? <==>
                forall f :: f in old(flows) && old(flows)[f].createdAt <= now ==> !Consumable(old(flows)[f], state, cookie, now)
      ensures flows == if flow.None? then old(flows)
                       else if flow.value in old(flows)
                       then old(flows)[flow.value := old(flows)[flow.value].(consumedAt := Some(now))] else old(flows)
      ensures flow.Some? ==> flow.value in old(flows) && Consumable(old(flows)[flow.value], state, cookie, now)
      ensures flow.None? ==> reply == FlowInvalid
      ensures flow.Some? && x.ExchangeFailed? ==> reply == Unavailable
      ensures flow.Some? && x.Exchanged? && (!x.nonceMatches || x.issuer == "" || x.subject == "") ==> reply == FlowInvalid
      ensures (flow.Some? && x.Exchanged? && x.nonceMatches && x.issuer != "" && x.subject != ""
               && (x.principal.None? || (x.administrator && !x.mfaSatisfied))) ==> reply == Forbidden
      ensures var granted := flow.Some? && Vouched(x) && Unused(old(sessions), old(audits), id, digest, audit);
              && (reply.SignedIn? <==> granted && commit.Committed?)
              && (reply.SignedIn? ==> reply == SignedIn(id, now + ABSOLUTE_TIMEOUT))
              && (if granted && !commit.RolledBack?
                  then && sessions == old(sessions)[id := NewSession(digest, x.principal.value, x.issuer, x.subject, x.sid, now)]
                       && audits == old(audits)[audit := Audit(x.principal, LoginAction, true, now)]
                  else && sessions == old(sessions)
                       && forall a :: a in audits && a !in old(audits) ==> !audits[a].succeeded)
      ensures flow.Some? && Vouched(x) && Unused(old(sessions), old(audits), id, digest, audit) && !commit.RolledBack? ==>
                forall c, rest: Portal, callback | callback !in rest.callbacks ::
                  LogsIn(c, old(Over(rest)), Consume(flow.value, state, cookie, now, Some(callback)),
                         Finish(callback, id, audit, digest, x.principal.value, x.issuer, x.subject, x.sid),
                         Over(Noted(rest, id, flow.value, audit)))
    {
      flow := ConsumeAuthFlow(state, cookie, now);
      ghost var none: Portal := Portal(0, map[], map[], map[], {}, map[], map[], map[]);
      if flow.None? {
        LoginFailure(audit);
        return FlowInvalid, flow;
      }
      assert Next(Settings(0, 0), old(Over(none)), Consume(flow.value, state, cookie, now, None), Over(none));
      if x.ExchangeFailed? {
        LoginFailure(audit);
        return Unavailable, flow;
      }
      if !x.nonceMatches || x.issuer == "" || x.subject == "" {
        LoginFailure(audit);
        return FlowInvalid, flow;
      }
      if x.principal.None? || (x.administrator && !x.mfaSatisfied) {
        LoginFailure(audit);
        return Forbidden, flow;
      }
      var session := NewSession(digest, x.principal.value, x.issuer, x.subject, x.sid, now);
      var ok := CreateSessionWithAudit(id, session, audit, commit);
      if Unused(old(sessions), old(audits), id, digest, audit) && !commit.RolledBack? {
        forall c, rest: Portal, callback | callback !in rest.callbacks
          ensures LogsIn(c, old(Over(rest)), Consume(flow.value, state, cookie, now, Some(callback)),
                         Finish(callback, id, audit, digest, x.principal.value, x.issuer, x.subject, x.sid),
                         Over(Noted(rest, id, flow.value, audit)))
        {
          LoginIsTwoSteps(c, old(Over(rest)), flow.value, state, cookie, callback, id, audit, digest,
                          x.principal.value, x.issuer, x.subject, x.sid);
        }
      }
      if !ok {
        return Unavailable, flow;
      }
      return SignedIn(id, session.absoluteExpiresAt), flow;
    }

    /**
     Reads the session and, when the touch interval has passed, records the visit with a second statement.  `meanwhile`
     is the session table as other requests have left it when that statement runs.
     */
    method ResolveSession(c: Settings, digest: Hash, at: Time, meanwhile: map<Uuid, Session>) returns (found: Option<Uuid>)
      requires ValidSettings(c)
      requires forall i, j :: i in sessions && j in sessions && sessions[i].digest == sessions[j].digest ==> i == j
      modifies this`sessions
      ensures forall id | Readable(old(sessions), authorised, digest, at, id) ::
                && (found == Some(id) <==> at < old(sessions)[id].lastSeenAt + c.touchInterval || (id in meanwhile && Touchable(meanwhile[id], at)))
                && (found.Some? ==> found == Some(id))
                && sessions == if at < old(sessions)[id].lastSeenAt + c.touchInterval then old(sessions)
                               else if id in meanwhile && Touchable(meanwhile[id], at)
                               then meanwhile[id := Touched(c, meanwhile[id], at)] else meanwhile
      ensures (forall id :: !Readable(old(sessions), authorised, digest, at, id)) ==> found.None? && sessions == old(sessions)
    {
      if id :| id in sessions && Readable(sessions, authorised, digest, at, id) {
        if at < sessions[id].lastSeenAt + c.touchInterval {
          return Some(id);
        }
        sessions := meanwhile;
        if id !in sessions || !Touchable(sessions[id], at) {
          return None;
        }
        sessions := sessions[id := Touched(c, sessions[id], at)];
        return Some(id);
      }
      return None;
    }

    /** The three revoke statements: they answer with the number of sessions they ended. */
    method RevokeSessions(q: Selector, r: Revocation) returns (count: nat)
      modifies this`sessions
      ensures sessions == Revoked(old(sessions), q, r)
      ensures count == |Changed(old(sessions), sessions)|
    {
      var ended := set id | id in sessions && Selects(q, sessions[id]) && sessions[id].revoked.None?;
      ghost var before := sessions;
      sessions := Revoked(sessions, q, r);
      assert ended == Changed(before, sessions);
      return |ended|;
    }
  }
}
