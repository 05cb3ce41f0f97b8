/**
 Mailbox intake: how a request is normalised, and what the repository answers.  Over any run the
 intake behaves like one table from (tenant, idempotency key) to the first accepted request.
 */
module Intake {
  import opened Types
  import opened Ledger
  import opened LedgerSafety
  import opened LedgerRuns

  // ----------------------------------------------------------------- normalisation

  /** unicode.IsSpace */
  predicate IsSpace(c: char) {
    || '\t' <= c <= '\r' || c == ' ' || c == '\U{85}' || c == '\U{A0}' || c == '\U{1680}'
    || '\U{2000}' <= c <= '\U{200A}' || c == '\U{2028}' || c == '\U{2029}' || c == '\U{202F}'
    || c == '\U{205F}' || c == '\U{3000}'
  }

  /** unicode.IsControl */
  predicate IsControl(c: char) { c <= '\U{1F}' || '\U{7F}' <= c <= '\U{9F}' }

  predicate Blank(s: string) { forall i :: 0 <= i < |s| ==> IsSpace(s[i]) }

  function TrimLeft(s: string): string {
    if s != "" && IsSpace(s[0]) then TrimLeft(s[1..]) else s
  }

  function TrimRight(s: string): string {
    if s != "" && IsSpace(s[|s| - 1]) then TrimRight(s[..|s| - 1]) else s
  }

  /** strings.TrimSpace */
  function TrimSpace(s: string): string { TrimRight(TrimLeft(s)) }

  /** unicode.ToLower where it lands in ASCII: the Latin capitals, the Kelvin sign and the dotted
      capital I.  Every other letter stays outside ASCII, which the local-part pattern refuses. */
  function LowerChar(c: char): char {
    if 'A' <= c <= 'Z' then c - 'A' + 'a'
    else if c == '\U{212A}' then 'k'
    else if c == '\U{130}' then 'i'
    else c
  }

  function ToLower(s: string): string { seq(|s|, i requires 0 <= i < |s| => LowerChar(s[i])) }

  predicate LocalChar(c: char) {
    || 'a' <= c <= 'z' || '0' <= c <= '9'
    || c in {'.', '!', '#', '$', '%', '&', '\'', '*', '+', '/', '=', '?', '^', '_', '`', '{', '|', '}', '~', '-'}
  }

  predicate KeyChar(c: char) {
    'A' <= c <= 'Z' || 'a' <= c <= 'z' || '0' <= c <= '9' || c in {'.', '_', ':', '-'}
  }

  predicate ValidLocalPart(s: string) {
    && 0 < |s| <= 64 && s == TrimSpace(s)
    && s[0] != '.' && s[|s| - 1] != '.'
    && (forall i :: 0 <= i < |s| - 1 ==> !(s[i] == '.' && s[i + 1] == '.'))
    && forall i :: 0 <= i < |s| ==> LocalChar(s[i])
  }

  predicate ValidDisplayName(s: string) {
    |s| <= 128 && forall i :: 0 <= i < |s| ==> !IsControl(s[i])
  }

  predicate ValidKey(s: string) {
    16 <= |s| <= 128 && forall i :: 0 <= i < |s| ==> KeyChar(s[i])
  }

  datatype Command = Command(tenant: Uuid, domain: Uuid, localPart: string, displayName: string, key: string)

  /** The fields that decide whether two requests with one key are the same request. */
  datatype Fingerprint = Fingerprint(domain: Uuid, localPart: string, displayName: string)

  function FingerprintOf(c: Command): Fingerprint { Fingerprint(c.domain, c.localPart, c.displayName) }

  /** The normalised command, or nothing for an invalid one. */
  function Prepare(c: Command): Option<Command> {
    var p := Command(c.tenant, c.domain, ToLower(c.localPart), TrimSpace(c.displayName), TrimSpace(c.key));
    if c.tenant == NIL || c.domain == NIL || !ValidLocalPart(p.localPart) || !ValidDisplayName(p.displayName)
       || !ValidKey(p.key)
    then None
    else Some(p)
  }

  lemma PreparedIsNamed(c: Command)
    requires Prepare(c).Some?
    ensures Prepare(c).value.tenant == c.tenant != NIL && Prepare(c).value.domain == c.domain != NIL
  {
  }

  lemma {:induction false} TrimLeftSplits(s: string)
    ensures |TrimLeft(s)| <= |s|
    ensures TrimLeft(s) == s[|s| - |TrimLeft(s)|..] && Blank(s[..|s| - |TrimLeft(s)|])
    ensures TrimLeft(s) != "" ==> !IsSpace(TrimLeft(s)[0])
  {
    if s != "" && IsSpace(s[0]) {
      TrimLeftSplits(s[1..]);
      assert s == [s[0]] + s[1..];
    }
  }

  lemma {:induction false} TrimRightSplits(s: string)
    ensures |TrimRight(s)| <= |s|
    ensures TrimRight(s) == s[..|TrimRight(s)|] && Blank(s[|TrimRight(s)|..])
    ensures TrimRight(s) != "" ==> !IsSpace(TrimRight(s)[|TrimRight(s)| - 1])
  {
    if s != "" && IsSpace(s[|s| - 1]) {
      TrimRightSplits(s[..|s| - 1]);
      assert s == s[..|s| - 1] + [s[|s| - 1]];
    }
  }

  predicate Tight(s: string) { s == "" || (!IsSpace(s[0]) && !IsSpace(s[|s| - 1])) }

  /** `middle` is what is left of `s` once the blanks around it are gone. */
  predicate Framed(s: string, before: string, middle: string, after: string) {
    s == before + middle + after && Blank(before) && Blank(after) && Tight(middle)
  }

  /** TrimSpace takes off blanks on both ends, and only those. */
  lemma TrimFrames(s: string) returns (before: string, after: string)
    ensures Framed(s, before, TrimSpace(s), after)
  {
    var left := TrimLeft(s);
    TrimLeftSplits(s);
    TrimRightSplits(left);
    before, after := s[..|s| - |left|], left[|TrimRight(left)|..];
    assert s == before + left && left == TrimRight(left) + after;
    assert TrimRight(left) != "" ==> TrimRight(left)[0] == left[0];
  }

  lemma {:induction false} TrimLeftDrops(before: string, s: string)
    requires Blank(before) && (s == "" || !IsSpace(s[0]))
    ensures TrimLeft(before + s) == s
  {
    if before == "" {
      assert before + s == s;
    } else {
      TrimLeftDrops(before[1..], s);
      assert (before + s)[1..] == before[1..] + s;
    }
  }

  lemma {:induction false} TrimLeftEmpties(s: string)
    requires Blank(s)
    ensures TrimLeft(s) == ""
  {
    if s != "" {
      TrimLeftEmpties(s[1..]);
    }
  }

  lemma {:induction false} TrimRightDrops(s: string, after: string)
    requires Blank(after) && (s == "" || !IsSpace(s[|s| - 1]))
    ensures TrimRight(s + after) == s
  {
    if after == "" {
      assert s + after == s;
    } else {
      var n := |after| - 1;
      TrimRightDrops(s, after[..n]);
      assert (s + after)[..|s| + n] == s + after[..n];
    }
  }

  /** TrimSpace is determined by that: it is the only tight middle between blanks. */
  lemma TrimIsUnique(s: string, before: string, middle: string, after: string)
    requires Framed(s, before, middle, after)
    ensures TrimSpace(s) == middle
  {
    if middle == "" {
      assert s == before + after;
      TrimLeftEmpties(s);
    } else {
      assert s == before + (middle + after);
      TrimLeftDrops(before, middle + after);
      TrimRightDrops(middle, after);
    }
  }

  lemma TrimTwice(s: string)
    ensures TrimSpace(TrimSpace(s)) == TrimSpace(s)
  {
    var before, after := TrimFrames(s);
    var t := TrimSpace(s);
    assert t == "" + t + "";
    TrimIsUnique(t, "", t, "");
  }

  /** The blanks and control characters by their code points. */
  lemma CharacterClasses(c: char)
    ensures IsSpace(c) <==> c as int in {9, 10, 11, 12, 13, 32, 133, 160, 5760, 8192, 8193, 8194, 8195, 8196, 8197, 8198,
                                         8199, 8200, 8201, 8202, 8232, 8233, 8239, 8287, 12288}
    ensures IsControl(c) <==> c as int < 32 || 127 <= c as int < 160
  {
  }

  /** Capital letters are lowered one by one. */
  lemma LowerLetters(i: nat)
    requires i < 26
    ensures LowerChar("ABCDEFGHIJKLMNOPQRSTUVWXYZ"[i]) == "abcdefghijklmnopqrstuvwxyz"[i]
    ensures LowerChar('\U{212A}') == 'k' && LowerChar('\U{130}') == 'i'
  {
  }

  /** What a prepared request carries: the same tenant and domain, the local part in lower case, and the display name
      and key without the blanks around them. */
  lemma PreparedFrom(c: Command) returns (a: string, b: string, x: string, y: string)
    requires Prepare(c).Some?
    ensures var p := Prepare(c).value;
            && p.tenant == c.tenant && p.domain == c.domain
            && |p.localPart| == |c.localPart| && (forall i :: 0 <= i < |c.localPart| ==> p.localPart[i] == LowerChar(c.localPart[i]))
            && Framed(c.displayName, a, p.displayName, b) && Framed(c.key, x, p.key, y)
  {
    a, b := TrimFrames(c.displayName);
    x, y := TrimFrames(c.key);
  }

  lemma LocalCharsAreTight(s: string)
    requires forall i :: 0 <= i < |s| ==> LocalChar(s[i])
    ensures TrimSpace(s) == s
  {
    assert s == "" + s + "";
    TrimIsUnique(s, "", s, "");
  }

  /** Dots stay dots. */
  lemma DotsStay(l: string)
    ensures |ToLower(l)| == |l| && forall i :: 0 <= i < |l| ==> (ToLower(l)[i] == '.' <==> l[i] == '.')
  {
  }

  lemma LocalPartIff(l: string)
    ensures ValidLocalPart(ToLower(l)) <==>
              && 1 <= |l| <= 64 && l[0] != '.' && l[|l| - 1] != '.'
              && (forall i :: 0 <= i < |l| ==> LocalChar(LowerChar(l[i])))
              && (forall i :: 0 < i < |l| && l[i] == '.' ==> l[i - 1] != '.')
  {
    DotsStay(l);
    var s := ToLower(l);
    assert forall i :: 0 <= i < |l| ==> s[i] == LowerChar(l[i]);
    hide TrimSpace, LowerChar, LocalChar, ToLower;
    if forall i :: 0 <= i < |s| ==> LocalChar(s[i]) {
      LocalCharsAreTight(s);
    }
    if ValidLocalPart(s) {
      forall i | 0 < i < |l| && l[i] == '.' ensures l[i - 1] != '.' {
        var before := s[i - 1];
      }
    }
  }

  /** Which requests are accepted: blanks inside or around the local part are never forgiven, those around the display
      name and the key always. */
  lemma PreparedIff(c: Command)
    ensures var l, d, k := c.localPart, TrimSpace(c.displayName), TrimSpace(c.key);
            Prepare(c).Some? <==>
              && c.tenant != NIL && c.domain != NIL
              && 1 <= |l| <= 64 && l[0] != '.' && l[|l| - 1] != '.'
              && (forall i :: 0 <= i < |l| ==> LocalChar(LowerChar(l[i])))
              && (forall i :: 0 < i < |l| && l[i] == '.' ==> l[i - 1] != '.')
              && |d| <= 128 && (forall i :: 0 <= i < |d| ==> !IsControl(d[i]))
              && 16 <= |k| <= 128 && (forall i :: 0 <= i < |k| ==> KeyChar(k[i]))
  {
    hide TrimSpace, LowerChar, LocalChar, KeyChar, IsControl, ValidLocalPart, ToLower;
    LocalPartIff(c.localPart);
  }

  lemma LowerTwice(s: string)
    ensures ToLower(ToLower(s)) == ToLower(s)
  {
  }

  /** Normalising is a projection: a normalised request is valid and normalises to itself. */
  lemma PrepareTwice(c: Command)
    requires Prepare(c).Some?
    ensures Prepare(Prepare(c).value) == Prepare(c)
  {
    LowerTwice(c.localPart);
    TrimTwice(c.displayName);
    TrimTwice(c.key);
  }

  /** Letter case of the local part and blanks around display name and key do not matter. */
  lemma PrepareAbsorbs(c: Command, localPart: string, a: string, b: string, x: string, y: string)
    requires ToLower(localPart) == ToLower(c.localPart) && Blank(a) && Blank(b) && Blank(x) && Blank(y)
    ensures Prepare(c.(localPart := localPart, displayName := a + c.displayName + b, key := x + c.key + y))
            == Prepare(c)
  {
    TrimAbsorbs(a, c.displayName, b);
    TrimAbsorbs(x, c.key, y);
  }

  lemma TrimAbsorbs(a: string, s: string, b: string)
    requires Blank(a) && Blank(b)
    ensures TrimSpace(a + s + b) == TrimSpace(s)
  {
    var before, after := TrimFrames(s);
    var t := TrimSpace(s);
    assert a + s + b == (a + before) + t + (after + b);
    TrimIsUnique(a + s + b, a + before, t, after + b);
  }

  // ----------------------------------------------------------------- the book of accepted requests

  type Key = (Uuid, string)

  datatype Entry = Entry(hash: Hash, mailbox: Uuid, operation: Uuid)

  function KeyOf(op: Operation): Key { (op.tenant, op.key) }

  ghost predicate Booked(db: Db, k: Key) { exists id :: id in db.operations && KeyOf(db.operations[id]) == k }

  ghost function Holder(db: Db, k: Key): (id: Uuid)
    requires Booked(db, k)
    ensures id in db.operations && KeyOf(db.operations[id]) == k
  {
    var id :| id in db.operations && KeyOf(db.operations[id]) == k; id
  }

  /** The simple table the intake refines. */
  ghost function Book(db: Db): map<Key, Entry> {
    map k | k in (set id | id in db.operations :: KeyOf(db.operations[id])) ::
      var id := Holder(db, k); Entry(db.operations[id].requestHash, db.operations[id].mailbox, id)
  }

  lemma BookAt(db: Db, id: Uuid)
    requires UniqueOperations(db.operations) && id in db.operations
    ensures var op := db.operations[id];
            KeyOf(op) in Book(db) && Book(db)[KeyOf(op)] == Entry(op.requestHash, op.mailbox, id)
  {
    var k := KeyOf(db.operations[id]);
    assert Booked(db, k);
    assert !Clash(db.operations, id, Holder(db, k));
  }

  lemma NotBooked(db: Db, k: Key)
    ensures k in Book(db) <==> Booked(db, k)
    ensures k !in Book(db) <==> KeyFree(db, k.0, k.1)
  {
    if k in Book(db) {
      var id := Holder(db, k);
      assert KeyOf(db.operations[id]) == k;
    }
  }

  // ----------------------------------------------------------------- what the repository answers

  datatype ErrorCode =
    InvalidArgument | DomainUnavailable | MailboxAlreadyExists | IdempotencyConflict | PersistenceUnavailable

  datatype Reply = Granted(mailbox: Uuid, operation: Uuid, replayed: bool) | Refused(code: ErrorCode)

  /** What a request meets: the ids it draws, whether its first lookup ran before a concurrent request
      with the same key committed, and how its commit ends. */
  datatype Chance = Chance(mailbox: Uuid, operation: Uuid, event: Uuid, missed: bool, commit: Commit)

  predicate Provisionable(db: Db, c: Command) {
    && c.domain in db.domains && db.domains[c.domain].tenant == c.tenant && db.domains[c.domain].active
    && c.tenant in db.tenants && db.tenants[c.tenant]
  }

  predicate FreshIds(db: Db, chance: Chance) {
    chance.mailbox !in db.mailboxes && chance.operation !in db.operations
  }

  function Intent(c: Command, hash: Hash, chance: Chance): Event {
    RequestEvent(chance.mailbox, chance.operation, chance.event, c.tenant, c.domain, c.localPart, c.displayName,
                 c.key, hash)
  }

  /** idempotentResult: the original ids for an equal request, a conflict for another one. */
  function Verdict(entry: Entry, hash: Hash): Reply {
    if entry.hash == hash then Granted(entry.mailbox, entry.operation, true) else Refused(IdempotencyConflict)
  }

  /** The repository's answer to a normalised request: the book decides, and a request that is not in
      the book is entered as a whole or not at all. */
  ghost predicate Meets(db: Db, c: Command, hash: Hash, chance: Chance, reply: Reply, db': Db) {
    var k := (c.tenant, c.key);
    if k in Book(db) then
      && db' == db
      && reply == if chance.missed && !Provisionable(db, c) then Refused(DomainUnavailable)
                  else Verdict(Book(db)[k], hash)
    else
      && (reply == Refused(DomainUnavailable) <==> !Provisionable(db, c))
      && (reply == Refused(MailboxAlreadyExists) <==>
            Provisionable(db, c) && FreshIds(db, chance) && !AddressFree(db, c.domain, c.localPart))
      && (reply.Granted? <==>
            Provisionable(db, c) && FreshIds(db, chance) && AddressFree(db, c.domain, c.localPart)
            && chance.commit.Committed?)
      && (reply.Granted? ==> reply == Granted(chance.mailbox, chance.operation, false))
      && (reply.Refused? ==> !reply.code.InvalidArgument? && !reply.code.IdempotencyConflict?)
      && (if reply.Granted? || (reply.code.PersistenceUnavailable? && chance.commit.ReplyLost? && FreshIds(db, chance))
          then Next(0, db, Intent(c, hash, chance), db')
          else db' == db)
  }

  /** The service's answer to a raw command. */
  ghost predicate Serves(db: Db, c: Command, digest: Fingerprint -> Hash, chance: Chance, reply: Reply, db': Db) {
    var p := Prepare(c);
    if p.None? then reply == Refused(InvalidArgument) && db' == db
    else Meets(db, p.value, digest(FingerprintOf(p.value)), chance, reply, db')
  }

  // ----------------------------------------------------------------- runs

  /** A run of requests between any other ledger steps. */
  datatype Turn = Request(command: Command, chance: Chance, reply: Reply) | Elsewhere(event: Event)

  ghost predicate Turns(maxAttempts: nat, digest: Fingerprint -> Hash, db: Db, turn: Turn, db': Db) {
    match turn
    case Request(c, chance, reply) => Serves(db, c, digest, chance, reply, db')
    case Elsewhere(e) => Next(maxAttempts, db, e, db')
  }

  ghost predicate Session(maxAttempts: nat, digest: Fingerprint -> Hash, ss: seq<Db>, ts: seq<Turn>) {
    && |ss| == |ts| + 1 && Initial(ss[0])
    && forall i :: 0 <= i < |ts| ==> Turns(maxAttempts, digest, ss[i], ts[i], ss[i + 1])
  }

  /** A request either leaves the ledger alone or is one ledger step. */
  lemma TurnMoves(maxAttempts: nat, digest: Fingerprint -> Hash, db: Db, turn: Turn, db': Db)
    requires Turns(maxAttempts, digest, db, turn, db')
    ensures db' == db || exists e :: Next(maxAttempts, db, e, db') && (turn.Request? ==> e.RequestEvent?)
                                     && (turn.Elsewhere? ==> e == turn.event)
  {
    hide Book, Provisionable, FreshIds, Prepare;
    if turn.Request? && db' != db {
      var p := Prepare(turn.command).value;
      var e := Intent(p, digest(FingerprintOf(p)), turn.chance);
      assert Next(0, db, e, db');
      assert Next(maxAttempts, db, e, db');
    } else if turn.Elsewhere? {
      assert Next(maxAttempts, db, turn.event, db');
    }
  }

  lemma {:induction false} SessionInv(maxAttempts: nat, digest: Fingerprint -> Hash, ss: seq<Db>, ts: seq<Turn>, k: nat)
    requires Session(maxAttempts, digest, ss, ts) && k < |ss|
    ensures Inv(ss[k], maxAttempts)
  {
    hide Inv, Next, Turns;
    if k == 0 {
      InitialInv(ss[0], maxAttempts);
    } else {
      SessionInv(maxAttempts, digest, ss, ts, k - 1);
      var db, db' := ss[k - 1], ss[k];
      TurnMoves(maxAttempts, digest, db, ts[k - 1], db');
      if e :| Next(maxAttempts, db, e, db') {
        NextKeepsInv(maxAttempts, db, e, db');
      }
    }
  }

  lemma Unique(db: Db, maxAttempts: nat)
    requires Inv(db, maxAttempts)
    ensures UniqueOperations(db.operations) && UniqueMailboxes(db.mailboxes)
    ensures db.outbox.Keys == db.operations.Keys
  {
  }

  /** No ledger step changes an entry of the book. */
  lemma NextKeepsEntry(maxAttempts: nat, db: Db, e: Event, db': Db, k: Key)
    requires Inv(db, maxAttempts) && Next(maxAttempts, db, e, db') && k in Book(db)
    ensures k in Book(db') && Book(db')[k] == Book(db)[k]
  {
    hide Inv, Next, Book;
    NextKeepsInv(maxAttempts, db, e, db');
    Unique(db, maxAttempts);
    Unique(db', maxAttempts);
    NotBooked(db, k);
    var id := Holder(db, k);
    OperationGrows(maxAttempts, db, e, db', id);
    BookAt(db, id);
    BookAt(db', id);
  }

  /** What is entered stays as it is, for good. */
  lemma {:induction false} EntriesStay(maxAttempts: nat, digest: Fingerprint -> Hash, ss: seq<Db>, ts: seq<Turn>,
                                       i: nat, j: nat, k: Key)
    requires Session(maxAttempts, digest, ss, ts) && i <= j < |ss| && k in Book(ss[i])
    ensures k in Book(ss[j]) && Book(ss[j])[k] == Book(ss[i])[k]
  {
    hide Inv, Next, Turns, Book;
    if i < j {
      EntriesStay(maxAttempts, digest, ss, ts, i, j - 1, k);
      SessionInv(maxAttempts, digest, ss, ts, j - 1);
      var db, db' := ss[j - 1], ss[j];
      TurnMoves(maxAttempts, digest, db, ts[j - 1], db');
      if e :| Next(maxAttempts, db, e, db') {
        NextKeepsEntry(maxAttempts, db, e, db', k);
      }
    }
  }

  /** The request's key and fingerprint digest. */
  function KeyOfCommand(p: Command): Key { (p.tenant, p.key) }

  lemma GrantEnters(db: Db, p: Command, hash: Hash, chance: Chance, reply: Reply, db': Db)
    requires Meets(db, p, hash, chance, reply, db') && reply.Granted? && UniqueOperations(db'.operations)
    ensures KeyOfCommand(p) in Book(db')
    ensures Book(db')[KeyOfCommand(p)] == Entry(hash, reply.mailbox, reply.operation)
  {
    hide Book, Provisionable, AddressFree, KeyFree, UniqueOperations, FreshIds;
    if KeyOfCommand(p) !in Book(db) {
      BookAt(db', reply.operation);
    }
  }

  /** A granted request is in the book, with the ids it was granted. */
  lemma GrantIsBooked(maxAttempts: nat, digest: Fingerprint -> Hash, ss: seq<Db>, ts: seq<Turn>, i: nat)
    requires Session(maxAttempts, digest, ss, ts) && i < |ts| && ts[i].Request? && ts[i].reply.Granted?
    ensures Prepare(ts[i].command).Some?
    ensures var p := Prepare(ts[i].command).value;
            && KeyOfCommand(p) in Book(ss[i + 1])
            && Book(ss[i + 1])[KeyOfCommand(p)] ==
                 Entry(digest(FingerprintOf(p)), ts[i].reply.mailbox, ts[i].reply.operation)
  {
    hide Inv, Book, Prepare, Meets;
    assert Turns(maxAttempts, digest, ss[i], ts[i], ss[i + 1]);
    SessionInv(maxAttempts, digest, ss, ts, i + 1);
    Unique(ss[i + 1], maxAttempts);
    var p := Prepare(ts[i].command).value;
    GrantEnters(ss[i], p, digest(FingerprintOf(p)), ts[i].chance, ts[i].reply, ss[i + 1]);
  }

  /**
   One request per key: after a grant, a request for the same domain, local part and display name gets the same
   mailbox and operation back and any other one is refused, whatever happened in between; neither writes anything.
   */
  lemma FirstRequestWins(maxAttempts: nat, digest: Fingerprint -> Hash, ss: seq<Db>, ts: seq<Turn>, i: nat, j: nat)
    requires Session(maxAttempts, digest, ss, ts) && i < j < |ts|
    requires ts[i].Request? && ts[i].reply.Granted? && ts[j].Request? && Prepare(ts[j].command).Some?
    requires Prepare(ts[i].command).Some? ==>
               var p, q := Prepare(ts[i].command).value, Prepare(ts[j].command).value;
               && KeyOfCommand(p) == KeyOfCommand(q)
               && (digest(FingerprintOf(p)) == digest(FingerprintOf(q)) ==> FingerprintOf(p) == FingerprintOf(q))
    ensures ss[j + 1] == ss[j] && Prepare(ts[i].command).Some?
    ensures var p, q := Prepare(ts[i].command).value, Prepare(ts[j].command).value;
            ts[j].reply ==
              if ts[j].chance.missed && !Provisionable(ss[j], q) then Refused(DomainUnavailable)
              else if p.domain == q.domain && p.localPart == q.localPart && p.displayName == q.displayName
              then Granted(ts[i].reply.mailbox, ts[i].reply.operation, true)
              else Refused(IdempotencyConflict)
  {
    hide Book, Prepare, Provisionable, Next, Initial;
    GrantIsBooked(maxAttempts, digest, ss, ts, i);
    EntriesStay(maxAttempts, digest, ss, ts, i + 1, j, KeyOfCommand(Prepare(ts[i].command).value));
    assert Turns(maxAttempts, digest, ss[j], ts[j], ss[j + 1]);
  }

  /** A granted request leaves one mailbox, one operation for its first revision and one pending event, as requested. */
  lemma GrantWrites(db: Db, p: Command, hash: Hash, chance: Chance, reply: Reply, db': Db)
    requires Meets(db, p, hash, chance, reply, db') && reply.Granted? && !reply.replayed && (p.tenant, p.key) !in Book(db)
    ensures reply.mailbox !in db.mailboxes && reply.mailbox in db'.mailboxes
    ensures reply.operation !in db.operations && reply.operation in db'.operations && reply.operation in db'.outbox
    ensures db'.mailboxes == db.mailboxes[reply.mailbox := db'.mailboxes[reply.mailbox]]
    ensures db'.operations == db.operations[reply.operation := db'.operations[reply.operation]]
    ensures db'.outbox == db.outbox[reply.operation := db'.outbox[reply.operation]]
    ensures db'.attempts == db.attempts && db'.domains == db.domains && db'.tenants == db.tenants && db'.now == db.now
    ensures var mb := db'.mailboxes[reply.mailbox];
            && mb.tenant == p.tenant && mb.domain == p.domain && mb.localPart == p.localPart
            && mb.displayName == (if p.displayName == "" then None else Some(p.displayName))
            && mb.desiredStatus.DesiredActive? && mb.revision == 1 && mb.observedStatus.ObservedUnknown? && mb.observed.None?
    ensures var op := db'.operations[reply.operation];
            && op.tenant == p.tenant && op.mailbox == reply.mailbox && op.key == p.key
            && op.requestHash == hash && op.configurationHash == hash && op.desiredRevision == 1
            && op.createdAt == db.now && op.nextAttemptAt == db.now && op.status.Pending?
            && op.attemptCount == 0 && op.leaseEpoch == 0 && op.leaseOwner.None? && op.leaseExpiresAt.None?
            && op.lastError.None? && op.observed.None?
    ensures var event := db'.outbox[reply.operation];
            event.id == chance.event && event.tenant == p.tenant && event.status.EventPending? && event.attempts == 0
  {
    hide Book, KeyFree, AddressFree, Provisionable;
  }

  /** Why a new request is refused: its domain or its tenant is unknown, foreign or switched off, or somebody has the
      address; with neither, it can only fail to be stored. */
  lemma RefusalExplained(db: Db, p: Command, hash: Hash, chance: Chance, reply: Reply, db': Db)
    requires Meets(db, p, hash, chance, reply, db') && (p.tenant, p.key) !in Book(db)
    ensures reply == Refused(DomainUnavailable) <==>
              (|| p.domain !in db.domains || db.domains[p.domain].tenant != p.tenant || !db.domains[p.domain].active
               || p.tenant !in db.tenants || !db.tenants[p.tenant])
    ensures reply == Refused(MailboxAlreadyExists) ==>
              exists m :: m in db.mailboxes && db.mailboxes[m].domain == p.domain && db.mailboxes[m].localPart == p.localPart
    ensures reply.Granted? ==>
              forall m :: m in db.mailboxes ==> !(db.mailboxes[m].domain == p.domain && db.mailboxes[m].localPart == p.localPart)
    ensures reply.Refused? ==>
              reply.code.DomainUnavailable? || reply.code.MailboxAlreadyExists? || reply.code.PersistenceUnavailable?
    ensures reply.Refused? && db' != db ==> reply.code.PersistenceUnavailable? && chance.commit.ReplyLost?
  {
    hide Book, Next;
  }

  // ----------------------------------------------------------------- one to one

  /** Mailboxes, operations and wake-up events correspond one to one, and addresses are unique. */
  ghost predicate OneToOne(db: Db) {
    && (forall i, j | i in db.operations && j in db.operations ::
          db.operations[i].mailbox == db.operations[j].mailbox ==> i == j)
    && (forall m :: m in db.mailboxes <==> exists id :: id in db.operations && db.operations[id].mailbox == m)
    && db.outbox.Keys == db.operations.Keys
    && UniqueMailboxes(db.mailboxes)
  }

  /** Every mailbox has an operation, and every operation is for revision 1. */
  ghost predicate Paired(db: Db) {
    && (forall id :: id in db.operations ==> db.operations[id].desiredRevision == 1)
    && (forall m :: m in db.mailboxes ==> exists id :: id in db.operations && db.operations[id].mailbox == m)
  }

  /** An operation or mailbox that is new came with an accepted request. */
  lemma NewRows(maxAttempts: nat, db: Db, e: Event, db': Db)
    requires Next(maxAttempts, db, e, db') && !e.FollowUpEvent?
    ensures forall id :: id in db'.operations && id !in db.operations ==> db'.operations[id].desiredRevision == 1
    ensures forall m :: m in db'.mailboxes && m !in db.mailboxes ==>
              e.RequestEvent? && e.id in db'.operations && db'.operations[e.id].mailbox == m
  {
  }

  lemma NextKeepsPaired(maxAttempts: nat, db: Db, e: Event, db': Db)
    requires Next(maxAttempts, db, e, db') && Paired(db) && !e.FollowUpEvent?
    ensures Paired(db')
  {
    hide Next;
    NewRows(maxAttempts, db, e, db');
    forall id | id in db'.operations ensures db'.operations[id].desiredRevision == 1 {
      if id in db.operations {
        OperationGrows(maxAttempts, db, e, db', id);
      }
    }
    forall m | m in db'.mailboxes ensures exists id :: id in db'.operations && db'.operations[id].mailbox == m {
      if m in db.mailboxes {
        var id :| id in db.operations && db.operations[id].mailbox == m;
        OperationGrows(maxAttempts, db, e, db', id);
        assert id in db'.operations && db'.operations[id].mailbox == m;
      }
    }
  }

  lemma {:induction false} StaysPaired(maxAttempts: nat, digest: Fingerprint -> Hash, ss: seq<Db>, ts: seq<Turn>, k: nat)
    requires Session(maxAttempts, digest, ss, ts) && k < |ss|
    requires forall i :: 0 <= i < |ts| ==> !(ts[i].Elsewhere? && ts[i].event.FollowUpEvent?)
    ensures Paired(ss[k])
  {
    if k > 0 {
      hide Inv, Next, Turns, Paired;
      StaysPaired(maxAttempts, digest, ss, ts, k - 1);
      SessionInv(maxAttempts, digest, ss, ts, k - 1);
      var db, turn, db' := ss[k - 1], ts[k - 1], ss[k];
      TurnMoves(maxAttempts, digest, db, turn, db');
      if db' != db {
        var e :| Next(maxAttempts, db, e, db') && (turn.Request? ==> e.RequestEvent?)
                 && (turn.Elsewhere? ==> e == turn.event);
        NextKeepsPaired(maxAttempts, db, e, db');
      }
    }
  }

  /** With intake as the only source of work, the three tables stay in one-to-one correspondence. */
  lemma TablesCorrespond(maxAttempts: nat, digest: Fingerprint -> Hash, ss: seq<Db>, ts: seq<Turn>, k: nat)
    requires Session(maxAttempts, digest, ss, ts) && k < |ss|
    requires forall i :: 0 <= i < |ts| ==> !(ts[i].Elsewhere? && ts[i].event.FollowUpEvent?)
    ensures OneToOne(ss[k])
  {
    hide Inv, Session;
    var db := ss[k];
    StaysPaired(maxAttempts, digest, ss, ts, k);
    SessionInv(maxAttempts, digest, ss, ts, k);
    Unique(db, maxAttempts);
    forall i, j | i in db.operations && j in db.operations && db.operations[i].mailbox == db.operations[j].mailbox
      ensures i == j
    {
      assert !Clash(db.operations, i, j);
    }
    forall id | id in db.operations ensures db.operations[id].mailbox in db.mailboxes {
      Fits(db, maxAttempts, id);
    }
  }
}
