/**
 The provisioning repository over its tables: the claim, finalize and resolve statements and the
 transactions around them, updating the tables in place.
 */
module Store {
  import opened Types
  import opened Ledger
  import opened LedgerEffects
  import opened Intake

  // ----------------------------------------------------------------- ORDER BY ... LIMIT 1

  predicate Before(rank: map<Uuid, Time>, created: map<Uuid, Time>, i: Uuid, j: Uuid)
    requires i in rank && j in rank && i in created && j in created
  {
    TimesBefore(rank[i], rank[j], created[i], created[j], i, j)
  }

  predicate First(rank: map<Uuid, Time>, created: map<Uuid, Time>, ids: set<Uuid>, i: Uuid)
    requires ids <= rank.Keys && ids <= created.Keys
  {
    i in ids && forall j :: j in ids && j != i ==> Before(rank, created, i, j)
  }

  /** The statements' orders are total, so a non-empty selection has exactly one first row. */
  lemma {:induction false} FirstExists(rank: map<Uuid, Time>, created: map<Uuid, Time>, ids: set<Uuid>) returns (i: Uuid)
    requires ids != {} && ids <= rank.Keys && ids <= created.Keys
    ensures First(rank, created, ids, i)
  {
    var x :| x in ids;
    if ids == {x} {
      i := x;
    } else {
      var y := FirstExists(rank, created, ids - {x});
      i := if Before(rank, created, x, y) then x else y;
      forall j | j in ids && j != i ensures Before(rank, created, i, j) {
        assert j != x && j != y ==> j in ids - {x} && Before(rank, created, y, j);
      }
    }
  }

  lemma ClaimCandidateExists(db: Db, maxAttempts: nat, locked: set<Uuid>, id: Uuid)
    requires id !in locked && Claimable(db, maxAttempts, id)
    ensures exists i :: i in db.operations && ClaimCandidate(db, maxAttempts, locked, i)
  {
    var ids := set i | i in db.operations && i !in locked && Claimable(db, maxAttempts, i);
    var rank := map i | i in db.operations :: DueAt(db.operations[i]);
    var created := map i | i in db.operations :: db.operations[i].createdAt;
    assert id in ids;
    var first := FirstExists(rank, created, ids);
    hide Claimable;
    assert ClaimCandidate(db, maxAttempts, locked, first) by {
      forall j | j in db.operations && j != first && j !in locked && Claimable(db, maxAttempts, j)
        ensures ClaimBefore(db, first, j)
      {
        assert j in ids;
        assert Before(rank, created, first, j);
      }
    }
  }

  lemma FinalizeCandidateExists(db: Db, maxAttempts: nat, locked: set<Uuid>, id: Uuid)
    requires id !in locked && Finalizable(db, maxAttempts, id)
    ensures exists i :: i in db.operations && FinalizeCandidate(db, maxAttempts, locked, i)
  {
    var ids := set i | i in db.operations && i !in locked && Finalizable(db, maxAttempts, i);
    var rank := map i | i in ids :: if Outdated(db, db.operations[i]) then 0 else 1;
    var created := map i | i in ids :: db.operations[i].createdAt;
    assert id in ids;
    var first := FirstExists(rank, created, ids);
    assert FinalizeCandidate(db, maxAttempts, locked, first) by {
      forall j | j in db.operations && j != first && j !in locked && Finalizable(db, maxAttempts, j)
        ensures FinalizeBefore(db, first, j)
      {
        assert j in ids;
        assert Before(rank, created, first, j);
      }
    }
  }

  // ----------------------------------------------------------------- the repository

  datatype ClaimReply = InvalidConfiguration | NothingDue | ClaimOf(claimed: Claimed)

  datatype ResolveReply = ResolutionStored | InvalidClaim | LeaseLost | Unavailable

  /** The rows of an accepted request are one intake step of the ledger. */
  lemma IntentEnters(db: Db, p: Command, hash: Hash, chance: Chance)
    requires Provisionable(db, p) && KeyFree(db, p.tenant, p.key) && AddressFree(db, p.domain, p.localPart)
    requires FreshIds(db, chance) && chance.mailbox != NIL && chance.operation != NIL && p.tenant != NIL && p.domain != NIL
    ensures var withMailbox :=
              db.(mailboxes := db.mailboxes[chance.mailbox := NewMailbox(p.tenant, p.domain, p.localPart, p.displayName)]);
            Next(0, db, Intent(p, hash, chance),
                 Enqueue(withMailbox, chance.operation, chance.event, p.tenant, chance.mailbox, p.key, hash, 1))
  {
    hide KeyFree, AddressFree;
  }

  class Repository {
    var now: Time
    var tenants: map<Uuid, bool>
    var domains: map<Uuid, Domain>
    var mailboxes: map<Uuid, Mailbox>
    var operations: map<Uuid, Operation>
    var attempts: map<Uuid, seq<Attempt>>
    var outbox: map<Uuid, OutboxEvent>

    constructor (db: Db)
      ensures Tables() == db
    {
      now := db.now;
      tenants := db.tenants;
      domains := db.domains;
      mailboxes := db.mailboxes;
      operations := db.operations;
      attempts := db.attempts;
      outbox := db.outbox;
    }

    function Tables(): Db
      reads this
    {
      Db(now, tenants, domains, mailboxes, operations, attempts, outbox)
    }

    /** Restores the tables a transaction has written. */
    method Rollback(db: Db)
      modifies this
      ensures Tables() == db
    {
      now := db.now;
      tenants := db.tenants;
      domains := db.domains;
      mailboxes := db.mailboxes;
      operations := db.operations;
      attempts := db.attempts;
      outbox := db.outbox;
    }

    /** The three updates of the finalize statement. */
    method Close(id: Uuid)
      requires id in operations && Joined(Tables(), operations[id])
      modifies this
      ensures Tables() == Finalize(old(Tables()), id)
      ensures now == old(now)
    {
      hide FinalizedOperation, FinalizedRows, DeliveredEvent;
      var op, rows := operations[id], Rows(Tables(), id);
      var outdated := mailboxes[op.mailbox].revision > op.desiredRevision;
      attempts := attempts[id := FinalizedRows(now, op, rows, outdated)];
      operations := operations[id := FinalizedOperation(now, op, outdated)];
      if id in outbox {
        outbox := outbox[id := DeliveredEvent(now, op.tenant, outbox[id])];
      }
    }

    /** The updates and the insert of the claim statement. */
    method Lease(id: Uuid, owner: Uuid, leaseMicros: nat)
      requires id in operations
      modifies this
      ensures Tables() == Claim(old(Tables()), id, owner, leaseMicros)
      ensures now == old(now)
    {
      hide ClaimedOperation, ClaimedRows, DeliveredEvent;
      var op, rows := operations[id], Rows(Tables(), id);
      attempts := attempts[id := ClaimedRows(now, op, rows, owner)];
      operations := operations[id := ClaimedOperation(now, op, owner, leaseMicros)];
      if id in outbox {
        outbox := outbox[id := DeliveredEvent(now, op.tenant, outbox[id])];
      }
    }

    /** Closes the first operation that can never be claimed again, if there is one. */
    method FinalizeBeforeClaim(maxAttempts: nat, locked: set<Uuid>) returns (closed: Option<Uuid>)
      modifies this
      ensures closed.None? <==> forall id :: id !in locked ==> !Finalizable(old(Tables()), maxAttempts, id)
      ensures closed.None? ==> Tables() == old(Tables())
      ensures closed.Some? ==> Next(maxAttempts, old(Tables()), FinalizeEvent(closed.value, locked), Tables())
      ensures closed.Some? ==>
                && closed.value in old(operations) && closed.value in operations
                && Joined(old(Tables()), old(operations)[closed.value])
                && GivenUp(maxAttempts, old(mailboxes)[old(operations)[closed.value].mailbox].revision, now,
                           old(operations)[closed.value], operations[closed.value])
                && forall o :: o in old(operations) && o != closed.value && o !in locked
                               && Finalizable(old(Tables()), maxAttempts, o) ==>
                     Joined(old(Tables()), old(operations)[o]) && GivenUpBefore(old(Tables()), closed.value, o)
    {
      hide Finalize, FinalizeBefore, GivenUp, GivenUpBefore;
      var db := Tables();
      if !exists id :: id in operations && id !in locked && Finalizable(db, maxAttempts, id) {
        return None;
      }
      ghost var some :| some in operations && some !in locked && Finalizable(db, maxAttempts, some);
      FinalizeCandidateExists(db, maxAttempts, locked, some);
      var id :| id in operations && FinalizeCandidate(db, maxAttempts, locked, id);
      Close(id);
      FinalizeTakesFirst(maxAttempts, db, FinalizeEvent(id, locked), Tables());
      return Some(id);
    }

    /** Leases the first due operation, if there is one. */
    method ClaimStatement(owner: Uuid, leaseMicros: nat, maxAttempts: nat, locked: set<Uuid>)
      returns (row: Option<Claimed>)
      requires owner != NIL && leaseMicros > 0
      modifies this
      ensures row.None? <==> forall id :: id !in locked ==> !Claimable(old(Tables()), maxAttempts, id)
      ensures row.None? ==> Tables() == old(Tables())
      ensures row.Some? ==>
                && Next(maxAttempts, old(Tables()), ClaimEvent(row.value.operation, owner, leaseMicros, locked), Tables())
                && row.value == ClaimedRow(old(Tables()), row.value.operation, owner, leaseMicros)
      ensures row.Some? ==>
                && var id := row.value.operation;
                && id in old(operations) && id in operations && id in attempts && |attempts[id]| > 0
                && var last := attempts[id][|attempts[id]| - 1];
                && Leased(now, old(operations)[id], operations[id], owner, leaseMicros)
                && Opens(now, old(operations)[id], operations[id], owner, last) && Describes(Tables(), row.value, owner, last)
                && forall o :: o in old(operations) && o != id && o !in locked && Claimable(old(Tables()), maxAttempts, o) ==>
                     ServedBefore(old(Tables()), id, o)
    {
      hide Claim, ClaimBefore, Due, Leased, LedgerEffects.Opens, Describes, ServedBefore, OthersSame;
      var db := Tables();
      if !exists id :: id in operations && id !in locked && Claimable(db, maxAttempts, id) {
        return None;
      }
      ghost var some :| some in operations && some !in locked && Claimable(db, maxAttempts, some);
      ClaimCandidateExists(db, maxAttempts, locked, some);
      var id :| id in operations && ClaimCandidate(db, maxAttempts, locked, id);
      Lease(id, owner, leaseMicros);
      ClaimWrites(maxAttempts, db, ClaimEvent(id, owner, leaseMicros, locked), Tables());
      ClaimServesFirst(maxAttempts, db, ClaimEvent(id, owner, leaseMicros, locked), Tables());
      return Some(ClaimedRow(db, id, owner, leaseMicros));
    }

    /** Finalizes, then claims.  A refused request touches nothing; a lease is never shorter than asked. */
    method ClaimMailboxOperation(owner: Uuid, leaseDuration: int64, maxAttempts: int, locked: set<Uuid>)
      returns (reply: ClaimReply, ghost between: Db)
      modifies this
      ensures reply.InvalidConfiguration? <==>
                owner == NIL || leaseDuration <= 0 || !(0 < maxAttempts <= MAX_INT32)
      ensures reply.InvalidConfiguration? ==> Tables() == old(Tables())
      ensures !reply.InvalidConfiguration? ==>
                if forall id :: id !in locked ==> !Finalizable(old(Tables()), maxAttempts, id)
                then between == old(Tables())
                else exists id :: Next(maxAttempts, old(Tables()), FinalizeEvent(id, locked), between)
      ensures reply.NothingDue? ==>
                Tables() == between && forall id :: id !in locked ==> !Claimable(between, maxAttempts, id)
      ensures reply.ClaimOf? ==>
                && Next(maxAttempts, between,
                        ClaimEvent(reply.claimed.operation, owner, Microseconds(leaseDuration as int), locked), Tables())
                && reply.claimed.leaseExpiresAt >= old(now) + leaseDuration as int
    {
      between := Tables();
      if owner == NIL || leaseDuration <= 0 || maxAttempts <= 0 || maxAttempts > MAX_INT32 {
        return InvalidConfiguration, between;
      }
      var closed := FinalizeBeforeClaim(maxAttempts, locked);
      between := Tables();
      var row := ClaimStatement(owner, Microseconds(leaseDuration as int), maxAttempts, locked);
      if row.None? {
        return NothingDue, between;
      }
      return ClaimOf(row.value), between;
    }

    /** Stores a report if its token still holds the lease and its commit goes through; a commit whose reply is
        lost has stored it too, and in every other case every table stays as it was. */
    method ResolveMailboxOperation(r: Resolution, commit: Commit) returns (reply: ResolveReply)
      modifies this
      ensures reply.InvalidClaim? <==> !ValidResolution(r)
      ensures reply.LeaseLost? <==> ValidResolution(r) && !Accepted(old(Tables()), r)
      ensures reply.ResolutionStored? <==> Accepted(old(Tables()), r) && commit.Committed?
      ensures if Accepted(old(Tables()), r) && !commit.RolledBack?
              then Tables() == Resolve(old(Tables()), r)
              else Tables() == old(Tables())
      ensures !commit.RolledBack? ==> Next(0, old(Tables()), ResolveEvent(r), Tables())
      ensures Accepted(old(Tables()), r) && !commit.RolledBack? ==>
                && r.operation in old(operations) && r.operation in operations
                && Reported(now, old(operations)[r.operation], operations[r.operation], r)
    {
      hide ValidResolution, ResolvedOperation, ResolvedRows, Reported;
      if !ValidResolution(r) {
        return InvalidClaim;
      }
      var before := Tables();
      var applied := false;
      if Resolvable(before, r) {
        var op := operations[r.operation];
        var rows := Rows(before, r.operation);
        applied := exists i :: 0 <= i < |rows| && OwnRow(rows[i], r);
        operations := operations[r.operation := ResolvedOperation(now, op, r)];
        attempts := attempts[r.operation := ResolvedRows(now, rows, r)];
        if r.status.Succeeded? {
          var mb := mailboxes[op.mailbox];
          mailboxes := mailboxes[op.mailbox := mb.(observedStatus := ObservedActive, observed := SeenEvidence(r))];
        }
      }
      if !applied {
        Rollback(before);
        return LeaseLost;
      }
      if commit.RolledBack? {
        Rollback(before);
        return Unavailable;
      }
      ReportedRow(now, before.operations[r.operation], r);
      if commit.ReplyLost? {
        return Unavailable;
      }
      return ResolutionStored;
    }

    /**
     RequestMailbox of the service and of the repository below it: normalise, look the key up, check the
     domain, then insert operation, mailbox and event in one transaction.
     */
    method RequestMailbox(c: Command, digest: Fingerprint -> Hash, chance: Chance) returns (reply: Reply)
      requires UniqueOperations(operations) && chance.mailbox != NIL && chance.operation != NIL
      modifies this
      ensures Serves(old(Tables()), c, digest, chance, reply, Tables())
    {
      hide Meets, UniqueOperations, Next, Prepare, Book;
      var prepared := Prepare(c);
      if prepared.None? {
        return Refused(InvalidArgument);
      }
      var p := prepared.value;
      PreparedIsNamed(c);
      reply := Enter(p, digest(FingerprintOf(p)), chance);
    }

    /** One intake transaction for a normalised request. */
    method Enter(p: Command, hash: Hash, chance: Chance) returns (reply: Reply)
      requires UniqueOperations(operations) && chance.mailbox != NIL && chance.operation != NIL
      requires p.tenant != NIL && p.domain != NIL
      modifies this
      ensures Meets(old(Tables()), p, hash, chance, reply, Tables())
    {
      hide UniqueOperations, Book, Provisionable, AddressFree, KeyFree, Next;
      var before := Tables();
      NotBooked(before, (p.tenant, p.key));
      var found := Lookup(p.tenant, p.key);
      if found.Some? && !chance.missed {
        var op := operations[found.value];
        return Verdict(Entry(op.requestHash, op.mailbox, found.value), hash);
      }
      if !Provisionable(before, p) {
        return Refused(DomainUnavailable);
      }
      if found.Some? {
        var op := operations[found.value];
        return Verdict(Entry(op.requestHash, op.mailbox, found.value), hash);
      }
      if chance.operation in operations {
        return Refused(PersistenceUnavailable);
      }
      operations := operations[chance.operation :=
        Operation(p.tenant, chance.mailbox, p.key, hash, 1, hash, now, Pending, 0, now, None, 0, None, None, None)];
      if chance.mailbox in mailboxes {
        Rollback(before);
        return Refused(PersistenceUnavailable);
      }
      if !AddressFree(before, p.domain, p.localPart) {
        Rollback(before);
        return Refused(MailboxAlreadyExists);
      }
      mailboxes := mailboxes[chance.mailbox := NewMailbox(p.tenant, p.domain, p.localPart, p.displayName)];
      outbox := outbox[chance.operation := OutboxEvent(chance.event, p.tenant, EventPending, 0, None)];
      IntentEnters(before, p, hash, chance);
      if chance.commit.RolledBack? {
        Rollback(before);
        return Refused(PersistenceUnavailable);
      }
      if chance.commit.ReplyLost? {
        return Refused(PersistenceUnavailable);
      }
      return Granted(chance.mailbox, chance.operation, false);
    }

    /** GetOperationByIdempotencyKey */
    method Lookup(tenant: Uuid, key: string) returns (found: Option<Uuid>)
      requires UniqueOperations(operations)
      ensures found.Some? <==> (tenant, key) in Book(Tables())
      ensures found.Some? ==>
                && found.value in operations
                && Book(Tables())[(tenant, key)] ==
                     Entry(operations[found.value].requestHash, operations[found.value].mailbox, found.value)
    {
      NotBooked(Tables(), (tenant, key));
      if id :| id in operations && operations[id].tenant == tenant && operations[id].key == key {
        BookAt(Tables(), id);
        return Some(id);
      }
      return None;
    }
  }
}
