/**
 The Stalwart adapter: how a mailbox command is judged against the account at its address, what a
 set call does when it lands, and the adapter's two operations against a server.
 */
module MailCore {
  import opened Types
  import opened Ledger
  import opened Worker
  import opened Marker
  import Intake

  const RESOURCE_CONFLICT := "MAIL_CORE_RESOURCE_CONFLICT"
  const DOMAIN_MISSING := "MAIL_CORE_DOMAIN_MISSING"
  const CONFIGURATION_INVALID := "MAIL_CORE_CONFIGURATION_INVALID"

  /** What mail-core holds at an address: nothing, an account without our marker, or a managed one. */
  datatype Slot = Vacant | Foreign | Managed(meta: Metadata)

  predicate Owns(slot: Slot, m: Metadata) {
    slot.Managed? && slot.meta.mailbox == m.mailbox && slot.meta.domain == m.domain
  }

  function RevisionOf(slot: Slot): int { if slot.Managed? then slot.meta.revision else 0 }

  datatype Verdict = MustCreate | MustAdvance | InForce | Newer | Conflict

  /** EnsureMailbox's decision on the account it has just read. */
  function Judge(slot: Slot, m: Metadata): Verdict {
    if slot.Vacant? then MustCreate
    else if !Owns(slot, m) then Conflict
    else if slot.meta.revision > m.revision then Newer
    else if slot.meta.revision == m.revision then (if slot.meta.hash == m.hash then InForce else Conflict)
    else MustAdvance
  }

  /** The account after a create or update call lands; a create never replaces an account. */
  function Land(slot: Slot, create: bool, m: Metadata): Slot {
    if create == slot.Vacant? then Managed(m) else slot
  }

  function SlotAt(accounts: map<string, Slot>, address: string): Slot {
    if address in accounts then accounts[address] else Vacant
  }

  // ----------------------------------------------------------------- the server and the adapter

  datatype Command = Command(meta: Metadata, address: string, payloadVersion: nat, deadline: Time)

  predicate ValidAddress(address: string) {
    && |address| <= 320
    && (forall i :: 0 <= i < |address| ==> '!' <= address[i] <= '~' && !('A' <= address[i] <= 'Z'))
    && exists at :: 0 < at < |address| - 1 && address[at] == '@'
                    && forall i :: 0 <= i < |address| && i != at ==> address[i] != '@'
  }

  /** A normalised domain name: 1 to 253 printable characters, no capital and no `@`. */
  predicate DomainName(d: string) {
    1 <= |d| <= 253 && forall i :: 0 <= i < |d| ==> '!' <= d[i] <= '~' && !('A' <= d[i] <= 'Z') && d[i] != '@'
  }

  /** What intake accepts, the adapter accepts: the address of a prepared request in a named domain is valid. */
  lemma IntakeAddressIsValid(c: Intake.Command, d: string)
    requires Intake.Prepare(c).Some? && DomainName(d)
    ensures ValidAddress(Intake.Prepare(c).value.localPart + "@" + d)
  {
    var l := Intake.Prepare(c).value.localPart;
    assert forall i :: 0 <= i < |l| ==> Intake.LocalChar(l[i]);
    assert |l| <= 64;
    hide Intake.Prepare;
    assert forall i :: 0 <= i < |l| ==> '!' <= l[i] <= '~' && !('A' <= l[i] <= 'Z') && l[i] != '@';
    hide Intake.LocalChar;
    JoinedAddress(l, d);
  }

  lemma JoinedAddress(l: string, d: string)
    requires 1 <= |l| <= 64 && DomainName(d)
    requires forall i :: 0 <= i < |l| ==> '!' <= l[i] <= '~' && !('A' <= l[i] <= 'Z') && l[i] != '@'
    ensures ValidAddress(l + "@" + d)
  {
    var address := l + "@" + d;
    assert address[|l|] == '@';
  }

  predicate ValidCommand(c: Command) {
    && c.meta.operation != NIL && c.meta.mailbox != NIL && c.meta.domain != NIL
    && 0 < c.meta.revision <= MAX_INT64 && c.payloadVersion == 1 && c.deadline != 0
    && ValidAddress(c.address)
  }

  predicate ValidQuery(mailbox: Uuid, domain: Uuid, revision: int, address: string, deadline: Time) {
    mailbox != NIL && domain != NIL && revision > 0 && deadline != 0 && ValidAddress(address)
  }

  /** What the network and the server do to one adapter operation. */
  datatype Fault =
    | Clean
    | ReadFault(error: AdapterError)
    | SetLost(error: AdapterError)
    | SetRejected(error: AdapterError)
    | RereadFault(error: AdapterError)
    | ReplyLost(error: AdapterError)

  /** A description as the adapter reads it. */
  function View(descriptions: map<string, string>): map<string, Slot> {
    map a | a in descriptions ::
      var m := Parse(descriptions[a]); if m.Some? then Managed(m.value) else Foreign
  }

  /** Another client creates the account, described as `raced`, after the lookup and before the create call. */
  predicate RaceHits(d: map<string, string>, c: Command, domainFound: bool, raced: Option<string>, fault: Fault) {
    raced.Some? && ValidCommand(c) && !fault.ReadFault? && domainFound && c.address !in d
  }

  /** The accounts as the set call of an ensure operation meets them. */
  function Met(d: map<string, string>, c: Command, domainFound: bool, raced: Option<string>, fault: Fault): map<string, string> {
    if RaceHits(d, c, domainFound, raced, fault) then d[c.address := raced.value] else d
  }

  /** Undisturbed, an ensure operation does what its verdict on the account says. */
  predicate EnsureExact(before: Slot, c: Command, after: Slot, reply: EnsureReply) {
    match Judge(before, c.meta)
    case MustCreate => after == Managed(c.meta) && reply.Ensured?
    case MustAdvance => after == Managed(c.meta) && reply.Ensured?
    case InForce => after == before && reply.Ensured?
    case Newer => after == before && reply.Ensured?
    case Conflict => after == before && reply == EnsureFailed(AdapterError(Permanent, RESOURCE_CONFLICT))
  }

  /** An ensure operation takes the account from vacant or an older revision of the same mailbox to exactly the
      command, or leaves it; it reports success only if the account then carries the command or something newer. */
  predicate EnsureSound(before: Slot, c: Command, after: Slot, reply: EnsureReply) {
    && (after == before || (after == Managed(c.meta) && RevisionOf(before) < RevisionOf(after)
                            && (before.Vacant? || Owns(before, c.meta))))
    && (reply.Ensured? ==> Owns(after, c.meta) && RevisionOf(after) >= c.meta.revision
                           && (RevisionOf(after) == c.meta.revision ==> after.meta.hash == c.meta.hash))
  }

  class Server {
    /** The description of the account at each address. */
    var descriptions: map<string, string>

    constructor (descriptions: map<string, string>)
      ensures this.descriptions == descriptions
    {
      this.descriptions := descriptions;
    }

    /** ensureExistingAccount: checks ownership and moves the revision forward only. */
    method EnsureExistingAccount(c: Command, fault: Fault) returns (reply: EnsureReply)
      requires ValidCommand(c) && c.address in descriptions
      modifies this
      ensures forall a :: a != c.address ==> SlotAt(View(descriptions), a) == SlotAt(View(old(descriptions)), a)
      ensures var before, after := SlotAt(View(old(descriptions)), c.address), SlotAt(View(descriptions), c.address);
              && EnsureSound(before, c, after, reply)
              && (fault.Clean? ==> EnsureExact(before, c, after, reply))
              && (fault.ReplyLost? && reply.Ensured? ==> after == before)
    {
      RoundTrip(c.meta);
      var found := Parse(descriptions[c.address]);
      if found.None? || found.value.mailbox != c.meta.mailbox || found.value.domain != c.meta.domain {
        return EnsureFailed(AdapterError(Permanent, RESOURCE_CONFLICT));
      }
      if found.value.revision > c.meta.revision {
        return Ensured;
      }
      if found.value.revision == c.meta.revision && found.value.hash != c.meta.hash {
        return EnsureFailed(AdapterError(Permanent, RESOURCE_CONFLICT));
      }
      if found.value.revision == c.meta.revision {
        return Ensured;
      }
      if fault.SetLost? || fault.SetRejected? {
        return EnsureFailed(fault.error);
      }
      descriptions := descriptions[c.address := Format(c.meta)];
      if fault.ReplyLost? {
        return EnsureFailed(fault.error);
      }
      return Ensured;
    }

    /** createAccount: a create that finds the address taken looks again and treats the account as existing. */
    method CreateAccount(c: Command, raced: Option<string>, fault: Fault) returns (reply: EnsureReply)
      requires ValidCommand(c) && c.address !in descriptions && !fault.ReadFault?
      modifies this
      ensures forall a :: a != c.address ==> SlotAt(View(descriptions), a) == SlotAt(View(old(descriptions)), a)
      ensures var before := SlotAt(View(Met(old(descriptions), c, true, raced, fault)), c.address);
              var after := SlotAt(View(descriptions), c.address);
              && EnsureSound(before, c, after, reply)
              && (fault.Clean? ==> EnsureExact(before, c, after, reply))
              && (fault.ReplyLost? && reply.Ensured? ==> after == before)
    {
      RoundTrip(c.meta);
      if raced.Some? {
        descriptions := descriptions[c.address := raced.value];
      }
      if fault.SetLost? {
        return EnsureFailed(fault.error);
      }
      if c.address in descriptions {
        if fault.ReplyLost? || fault.RereadFault? {
          return EnsureFailed(fault.error);
        }
        reply := EnsureExistingAccount(c, fault);
        return;
      }
      if fault.SetRejected? {
        return EnsureFailed(fault.error);
      }
      descriptions := descriptions[c.address := Format(c.meta)];
      if fault.ReplyLost? {
        return EnsureFailed(fault.error);
      }
      return Ensured;
    }

    /**
     Creates or advances the account of a command, also when another client creates it in between.  Only its own
     address can change, and only from vacant or an older revision of the same mailbox to exactly the command; it
     reports success only if the account then carries the command or a newer revision of the mailbox.
     */
    method EnsureMailbox(c: Command, domainFound: bool, raced: Option<string>, fault: Fault) returns (reply: EnsureReply)
      requires !domainFound ==> c.address !in descriptions
      modifies this
      ensures forall a :: a != c.address ==> SlotAt(View(descriptions), a) == SlotAt(View(old(descriptions)), a)
      ensures var before := SlotAt(View(Met(old(descriptions), c, domainFound, raced, fault)), c.address);
              var after := SlotAt(View(descriptions), c.address);
              && EnsureSound(before, c, after, reply)
              && (ValidCommand(c) && domainFound && fault.Clean? ==> EnsureExact(before, c, after, reply))
              && (ValidCommand(c) && domainFound && fault.Clean? ==>
                    if before.Foreign? || (before.Managed? && (before.meta.mailbox != c.meta.mailbox
                                                               || before.meta.domain != c.meta.domain
                                                               || (before.meta.revision == c.meta.revision
                                                                   && before.meta.hash != c.meta.hash)))
                    then reply == EnsureFailed(AdapterError(Permanent, "MAIL_CORE_RESOURCE_CONFLICT"))
                    else reply.Ensured?)
              && (fault.ReplyLost? && reply.Ensured? ==> after == before)
      ensures !ValidCommand(c) ==> reply == EnsureFailed(AdapterError(Permanent, "MAIL_CORE_CONFIGURATION_INVALID"))
      ensures ValidCommand(c) && fault.ReadFault? ==> reply == EnsureFailed(fault.error)
      ensures ValidCommand(c) && !fault.ReadFault? && !domainFound ==>
                reply == EnsureFailed(AdapterError(Permanent, "MAIL_CORE_DOMAIN_MISSING"))
    {
      hide EnsureSound;
      if !ValidCommand(c) {
        NothingDone(SlotAt(View(descriptions), c.address), c, AdapterError(Permanent, CONFIGURATION_INVALID));
        return EnsureFailed(AdapterError(Permanent, CONFIGURATION_INVALID));
      }
      if fault.ReadFault? {
        NothingDone(SlotAt(View(descriptions), c.address), c, fault.error);
        return EnsureFailed(fault.error);
      }
      if !domainFound {
        NothingDone(SlotAt(View(descriptions), c.address), c, AdapterError(Permanent, DOMAIN_MISSING));
        return EnsureFailed(AdapterError(Permanent, DOMAIN_MISSING));
      }
      if c.address in descriptions {
        reply := EnsureExistingAccount(c, fault);
      } else {
        reply := CreateAccount(c, raced, fault);
      }
    }

    /** Reads the account: its marker, a definite absence, or a conflict with another owner. */
    method InspectMailbox(mailbox: Uuid, domain: Uuid, revision: int, address: string, deadline: Time, now: Time, fault: Fault)
      returns (reply: Inspection)
      ensures !ValidQuery(mailbox, domain, revision, address, deadline) ==>
                reply == InspectFailed(AdapterError(Permanent, CONFIGURATION_INVALID))
      ensures ValidQuery(mailbox, domain, revision, address, deadline) ==>
                if fault.Clean? then reply == Truth(SlotAt(View(descriptions), address), mailbox, domain, now)
                else reply == InspectFailed(fault.error)
      ensures ValidQuery(mailbox, domain, revision, address, deadline) && fault.Clean? ==>
                match SlotAt(View(descriptions), address)
                case Vacant => reply == Observed(ObservedMailbox(mailbox, Absent, 0, 0, now))
                case Foreign => reply == InspectFailed(AdapterError(Permanent, "MAIL_CORE_RESOURCE_CONFLICT"))
                case Managed(m) =>
                  if m.mailbox != mailbox || m.domain != domain
                  then reply == InspectFailed(AdapterError(Permanent, "MAIL_CORE_RESOURCE_CONFLICT"))
                  else reply == Observed(ObservedMailbox(mailbox, Active, m.revision, m.hash, now))
    {
      if !ValidQuery(mailbox, domain, revision, address, deadline) {
        return InspectFailed(AdapterError(Permanent, CONFIGURATION_INVALID));
      }
      if !fault.Clean? {
        return InspectFailed(fault.error);
      }
      if address !in descriptions {
        return Observed(ObservedMailbox(mailbox, Absent, 0, 0, now));
      }
      var found := Parse(descriptions[address]);
      if found.None? || found.value.mailbox != mailbox || found.value.domain != domain {
        return InspectFailed(AdapterError(Permanent, RESOURCE_CONFLICT));
      }
      return Observed(ObservedMailbox(mailbox, Active, found.value.revision, found.value.hash, now));
    }
  }

  lemma NothingDone(slot: Slot, c: Command, error: AdapterError)
    ensures EnsureSound(slot, c, slot, EnsureFailed(error))
  {
  }

  /** What an inspect that reaches the server answers. */
  function Truth(slot: Slot, mailbox: Uuid, domain: Uuid, now: Time): Inspection {
    match slot
    case Vacant => Observed(ObservedMailbox(mailbox, Absent, 0, 0, now))
    case Foreign => InspectFailed(AdapterError(Permanent, RESOURCE_CONFLICT))
    case Managed(m) =>
      if m.mailbox == mailbox && m.domain == domain
      then Observed(ObservedMailbox(mailbox, Active, m.revision, m.hash, now))
      else InspectFailed(AdapterError(Permanent, RESOURCE_CONFLICT))
  }

  // ----------------------------------------------------------------- racing ensure calls

  /** Ensure calls on one existing account, cut at the points where another call can run in between:
      `Send` reads the account and, if it is older, puts an update in flight; `Arrive(i)` lands the
      update sent by step `i`. */
  datatype RaceMove = Send(meta: Metadata) | Arrive(sentAt: nat)

  datatype Race = Race(slot: Slot, flights: map<nat, Metadata>)

  predicate Step(at: nat, s: Race, move: RaceMove, s': Race) {
    match move
    case Send(m) =>
      s' == if Judge(s.slot, m).MustAdvance? then s.(flights := s.flights[at := m]) else s
    case Arrive(i) =>
      i in s.flights && s' == Race(Land(s.slot, false, s.flights[i]), s.flights - {i})
  }

  ghost predicate Schedule(ss: seq<Race>, ms: seq<RaceMove>) {
    && |ss| == |ms| + 1 && ss[0].slot.Managed? && ss[0].flights == map[]
    && forall i :: 0 <= i < |ms| ==> Step(i, ss[i], ms[i], ss[i + 1])
  }

  ghost predicate NeverGoesDown(ss: seq<Race>) {
    forall i, j :: 0 <= i <= j < |ss| ==> RevisionOf(ss[i].slot) <= RevisionOf(ss[j].slot)
  }

  predicate ArrivalOf(ms: seq<RaceMove>, j: nat) {
    j < |ms| && ms[j].Arrive? && ms[j].sentAt < j && ms[ms[j].sentAt].Send?
  }

  /** A newer update landed between the read of the update landing at `j` and its landing. */
  predicate OvertakenBy(ms: seq<RaceMove>, k: nat, j: nat) {
    && ArrivalOf(ms, k) && ArrivalOf(ms, j)
    && ms[j].sentAt < k < j
    && ms[ms[k].sentAt].meta.revision > ms[ms[j].sentAt].meta.revision
  }

  /** Every update in flight was sent by an earlier step that found the account older. */
  lemma {:induction false} FlightsWereSent(ss: seq<Race>, ms: seq<RaceMove>, k: nat)
    requires Schedule(ss, ms) && k <= |ms|
    ensures ss[k].slot.Managed?
    ensures forall i :: i in ss[k].flights ==> i < k && ms[i] == Send(ss[k].flights[i])
                                               && Judge(ss[i].slot, ms[i].meta).MustAdvance?
  {
    if k > 0 {
      FlightsWereSent(ss, ms, k - 1);
      assert Step(k - 1, ss[k - 1], ms[k - 1], ss[k]);
    }
  }

  lemma ArrivalWrites(ss: seq<Race>, ms: seq<RaceMove>, j: nat)
    requires Schedule(ss, ms) && j < |ms| && ms[j].Arrive?
    ensures ArrivalOf(ms, j) && ss[j + 1].slot == Managed(ms[ms[j].sentAt].meta)
    ensures RevisionOf(ss[ms[j].sentAt].slot) < ms[ms[j].sentAt].meta.revision
  {
    FlightsWereSent(ss, ms, j);
    assert Step(j, ss[j], ms[j], ss[j + 1]);
  }

  /** Nothing newer landed since the read, so the account is still no newer than the update. */
  lemma {:induction false} StillOlder(ss: seq<Race>, ms: seq<RaceMove>, j: nat, k: nat)
    requires Schedule(ss, ms) && ArrivalOf(ms, j) && ms[j].sentAt <= k <= j
    requires forall h :: !OvertakenBy(ms, h, j)
    ensures RevisionOf(ss[k].slot) <= ms[ms[j].sentAt].meta.revision
  {
    if k == ms[j].sentAt {
      ArrivalWrites(ss, ms, j);
    } else {
      StillOlder(ss, ms, j, k - 1);
      assert Step(k - 1, ss[k - 1], ms[k - 1], ss[k]);
      if ms[k - 1].Arrive? {
        ArrivalWrites(ss, ms, k - 1);
        assert !OvertakenBy(ms, k - 1, j);
      }
    }
  }

  lemma {:induction false} GoesUp(ss: seq<Race>, ms: seq<RaceMove>, i: nat, j: nat)
    requires Schedule(ss, ms) && i <= j < |ss|
    requires forall h, k :: !OvertakenBy(ms, h, k)
    ensures RevisionOf(ss[i].slot) <= RevisionOf(ss[j].slot)
  {
    if i < j {
      GoesUp(ss, ms, i, j - 1);
      assert Step(j - 1, ss[j - 1], ms[j - 1], ss[j]);
      if ms[j - 1].Arrive? {
        ArrivalWrites(ss, ms, j - 1);
        StillOlder(ss, ms, j - 1, j - 1);
      }
    }
  }

  /** An account's revision never goes down exactly when no update is overtaken by a newer one. */
  lemma MonotoneIffNotOvertaken(ss: seq<Race>, ms: seq<RaceMove>)
    requires Schedule(ss, ms)
    ensures NeverGoesDown(ss) <==> forall k, j :: !OvertakenBy(ms, k, j)
  {
    if k, j :| OvertakenBy(ms, k, j) {
      ArrivalWrites(ss, ms, k);
      ArrivalWrites(ss, ms, j);
      assert RevisionOf(ss[k + 1].slot) > RevisionOf(ss[j + 1].slot);
    } else {
      forall i, j | 0 <= i <= j < |ss| ensures RevisionOf(ss[i].slot) <= RevisionOf(ss[j].slot) {
        GoesUp(ss, ms, i, j);
      }
    }
  }

  /** With one operation per revision and nothing overtaken, an operation's second landing changes nothing. */
  lemma LandsOnce(ss: seq<Race>, ms: seq<RaceMove>, i: nat, j: nat)
    requires Schedule(ss, ms) && i < j < |ms| && ms[i].Arrive? && ms[j].Arrive?
    requires forall h, k :: !OvertakenBy(ms, h, k)
    requires forall a, b | 0 <= a < |ms| && 0 <= b < |ms| && ms[a].Send? && ms[b].Send? ::
               ms[a].meta.revision == ms[b].meta.revision ==> ms[a].meta == ms[b].meta
    requires ArrivalOf(ms, i) && ArrivalOf(ms, j) && ms[ms[i].sentAt].meta == ms[ms[j].sentAt].meta
    ensures ss[j + 1].slot == ss[j].slot
  {
    ArrivalWrites(ss, ms, i);
    ArrivalWrites(ss, ms, j);
    GoesUp(ss, ms, i + 1, j);
    StillOlder(ss, ms, j, j);
    SlotWasSent(ss, ms, i, j);
  }

  /** After a landing, the account always carries a marker some step sent. */
  lemma {:induction false} SlotWasSent(ss: seq<Race>, ms: seq<RaceMove>, i: nat, j: nat)
    requires Schedule(ss, ms) && i < j <= |ms| && ms[i].Arrive?
    ensures exists a :: 0 <= a < |ms| && ms[a].Send? && ss[j].slot == Managed(ms[a].meta)
  {
    assert Step(j - 1, ss[j - 1], ms[j - 1], ss[j]);
    if ms[j - 1].Arrive? {
      ArrivalWrites(ss, ms, j - 1);
    } else {
      SlotWasSent(ss, ms, i, j - 1);
    }
  }

  /** Overlapping calls for revisions 2 and 3 can take the account from 3 back to 2. */
  lemma OverlapRegresses(mailbox: Uuid, domain: Uuid, a: Uuid, hash: Hash) returns (ss: seq<Race>, ms: seq<RaceMove>)
    ensures |ms| == 4 && Schedule(ss, ms) && RevisionOf(ss[3].slot) == 3 && RevisionOf(ss[4].slot) == 2
    ensures OvertakenBy(ms, 2, 3)
  {
    var one := Metadata(mailbox, domain, a, 1, hash);
    var two, three := one.(revision := 2), one.(revision := 3);
    ms := [Send(two), Send(three), Arrive(1), Arrive(0)];
    var s0 := Race(Managed(one), map[]);
    var s1 := Race(Managed(one), map[0 := two]);
    var s2 := Race(Managed(one), map[0 := two, 1 := three]);
    var s3 := Race(Managed(three), map[0 := two]);
    var s4 := Race(Managed(two), map[]);
    ss := [s0, s1, s2, s3, s4];
    assert s2.flights - {1} == s3.flights && s3.flights - {0} == s4.flights;
    assert Step(0, s0, ms[0], s1) && Step(1, s1, ms[1], s2) && Step(2, s2, ms[2], s3) && Step(3, s3, ms[3], s4);
  }
}
