/**
 The test identity fixture: Apply inserts the missing rows of a manifest and verifies them, Remove
 deletes exactly the rows the manifest owns.
 */
module Bootstrap {
  import opened Types
  import opened Ledger

  const ADMIN_ACCESS := "portal.admin.access"

  // ----------------------------------------------------------------- manifest and tables

  datatype Account = Account(principal: Uuid, subject: string, mailbox: Uuid, localPart: string, displayName: string)
  datatype Person = Person(principal: Uuid, subject: string, displayName: string)

  /** `operation`, `event`, `key` and `hash` are derived from the active mailbox's identity. */
  datatype Manifest = Manifest(
    issuer: string,
    tenant: Uuid,
    tenantName: string,
    domain: Uuid,
    domainName: string,
    active: Account,
    administrator: Person,
    suspended: Account,
    weak: Person,
    unmapped: string,
    operation: Uuid,
    event: Uuid,
    key: string,
    hash: Hash)

  function PrincipalIds(m: Manifest): set<Uuid> {
    {m.active.principal, m.administrator.principal, m.suspended.principal, m.weak.principal}
  }

  function Subjects(m: Manifest): set<string> {
    {m.active.subject, m.administrator.subject, m.suspended.subject, m.weak.subject, m.unmapped}
  }

  function MailboxIds(m: Manifest): set<Uuid> { {m.active.mailbox, m.suspended.mailbox} }

  predicate DistinctPrincipals(m: Manifest) {
    && m.active.principal !in {m.administrator.principal, m.suspended.principal, m.weak.principal}
    && m.administrator.principal !in {m.suspended.principal, m.weak.principal}
    && m.suspended.principal != m.weak.principal
  }

  predicate DistinctSubjects(m: Manifest) {
    && m.active.subject !in {m.administrator.subject, m.suspended.subject, m.weak.subject, m.unmapped}
    && m.administrator.subject !in {m.suspended.subject, m.weak.subject, m.unmapped}
    && m.suspended.subject !in {m.weak.subject, m.unmapped} && m.weak.subject != m.unmapped
  }

  /** The part of Validate that keeps the fixture's rows apart. */
  predicate ValidManifest(m: Manifest) {
    && DistinctPrincipals(m) && DistinctSubjects(m) && m.active.mailbox != m.suspended.mailbox
    && m.active.localPart != m.suspended.localPart
    && m.active.displayName != "" && m.suspended.displayName != ""
  }

  datatype PrincipalStatus = PrincipalActive | PrincipalSuspended

  datatype Principal = Principal(
    tenant: Uuid,
    issuer: string,
    subject: string,
    mailbox: Option<Uuid>,
    status: PrincipalStatus,
    displayName: string)

  /** `sessions` and `audits` keep only the principal column; a principal without a mailbox is an administrator. */
  datatype Site = Site(
    db: Db,
    names: map<Uuid, string>,
    principals: map<Uuid, Principal>,
    permissions: set<(Uuid, string)>,
    sessions: map<Uuid, Uuid>,
    audits: map<Uuid, Option<Uuid>>)

  /** The foreign keys among the control-plane tables, and the event ids' primary key. */
  predicate DbFits(db: Db) {
    && (forall d :: d in db.domains ==> db.domains[d].tenant in db.tenants)
    && (forall m :: m in db.mailboxes ==> DomainJoined(db, db.mailboxes[m]))
    && (forall o :: o in db.operations ==> db.operations[o].tenant in db.tenants)
    && db.attempts.Keys <= db.operations.Keys
    && EventsFit(db)
  }

  predicate EventsFit(db: Db) {
    && (forall o :: o in db.outbox ==> o in db.operations && db.outbox[o].tenant == db.operations[o].tenant)
    && (forall i, j :: i in db.outbox && j in db.outbox && db.outbox[i].id == db.outbox[j].id ==> i == j)
  }

  predicate PrincipalFits(db: Db, p: Principal) {
    && p.tenant in db.tenants
    && (p.mailbox.Some? ==> p.mailbox.value in db.mailboxes && db.mailboxes[p.mailbox.value].tenant == p.tenant)
  }

  /** The foreign keys of the identity tables. */
  predicate PeopleFit(s: Site) {
    && s.names.Keys == s.db.tenants.Keys
    && (forall p :: p in s.principals ==> PrincipalFits(s.db, s.principals[p]))
    && (forall x :: x in s.sessions ==> s.sessions[x] in s.principals)
    && (forall x :: x in s.audits && s.audits[x].Some? ==> s.audits[x].value in s.principals)
  }

  predicate SiteFits(s: Site) { DbFits(s.db) && PeopleFit(s) }

  // ----------------------------------------------------------------- Apply

  /** INSERT ... ON CONFLICT DO NOTHING; `clash` is a conflict on another unique key. */
  function Put<V>(table: map<Uuid, V>, id: Uuid, row: V, clash: bool): (r: map<Uuid, V>)
    ensures r == table <==> id in table || clash
  {
    if id in table || clash then table
    else assert id in table[id := row]; table[id := row]
  }

  predicate NameTaken(domains: map<Uuid, Domain>, name: string) {
    exists d :: d in domains && domains[d].name == name
  }

  predicate PlaceTaken(mailboxes: map<Uuid, Mailbox>, domain: Uuid, localPart: string) {
    exists m :: m in mailboxes && mailboxes[m].domain == domain && mailboxes[m].localPart == localPart
  }

  predicate KeyTaken(operations: map<Uuid, Operation>, tenant: Uuid, key: string) {
    exists o :: o in operations && operations[o].tenant == tenant && operations[o].key == key
  }

  predicate EventTaken(outbox: map<Uuid, OutboxEvent>, id: Uuid) {
    exists o :: o in outbox && outbox[o].id == id
  }

  predicate SubjectTaken(principals: map<Uuid, Principal>, issuer: string, subject: string) {
    exists p :: p in principals && principals[p].issuer == issuer && principals[p].subject == subject
  }

  function PutMailbox(t: map<Uuid, Mailbox>, m: Manifest, a: Account): map<Uuid, Mailbox> {
    Put(t, a.mailbox, NewMailbox(m.tenant, m.domain, a.localPart, a.displayName), PlaceTaken(t, m.domain, a.localPart))
  }

  function PutPrincipal(t: map<Uuid, Principal>, id: Uuid, row: Principal): map<Uuid, Principal> {
    Put(t, id, row, SubjectTaken(t, row.issuer, row.subject))
  }

  function ActiveRow(m: Manifest): Principal {
    Principal(m.tenant, m.issuer, m.active.subject, Some(m.active.mailbox), PrincipalActive, m.active.displayName)
  }

  function SuspendedRow(m: Manifest): Principal {
    Principal(m.tenant, m.issuer, m.suspended.subject, Some(m.suspended.mailbox), PrincipalSuspended,
              m.suspended.displayName)
  }

  function PersonRow(m: Manifest, p: Person): Principal {
    Principal(m.tenant, m.issuer, p.subject, None, PrincipalActive, p.displayName)
  }

  function InsertedPrincipals(t: map<Uuid, Principal>, m: Manifest): map<Uuid, Principal> {
    var a := PutPrincipal(t, m.active.principal, ActiveRow(m));
    var b := PutPrincipal(a, m.administrator.principal, PersonRow(m, m.administrator));
    var d := PutPrincipal(b, m.suspended.principal, SuspendedRow(m));
    PutPrincipal(d, m.weak.principal, PersonRow(m, m.weak))
  }

  function FixtureOperation(m: Manifest, now: Time): Operation {
    Operation(m.tenant, m.active.mailbox, m.key, m.hash, 1, m.hash, now, Pending, 0, now, None, 0, None, None, None)
  }

  function InsertedDb(db: Db, m: Manifest): Db {
    db.(tenants := Put(db.tenants, m.tenant, true, false),
        domains := Put(db.domains, m.domain, Domain(m.tenant, m.domainName, true), NameTaken(db.domains, m.domainName)),
        mailboxes := PutMailbox(PutMailbox(db.mailboxes, m, m.active), m, m.suspended),
        operations := Put(db.operations, m.operation, FixtureOperation(m, db.now), KeyTaken(db.operations, m.tenant, m.key)),
        outbox := Put(db.outbox, m.operation, OutboxEvent(m.event, m.tenant, EventPending, 0, None),
                      EventTaken(db.outbox, m.event)))
  }

  function Grants(m: Manifest): set<(Uuid, string)> {
    {(m.administrator.principal, ADMIN_ACCESS), (m.weak.principal, ADMIN_ACCESS)}
  }

  /** Every missing row inserted, every existing one left as it is. */
  function Inserted(s: Site, m: Manifest): Site {
    s.(db := InsertedDb(s.db, m), names := Put(s.names, m.tenant, m.tenantName, false),
       principals := InsertedPrincipals(s.principals, m), permissions := s.permissions + Grants(m))
  }

  predicate MailboxVerified(db: Db, m: Manifest, a: Account) {
    && a.mailbox in db.mailboxes
    && var mb := db.mailboxes[a.mailbox];
       && mb.tenant == m.tenant && mb.domain == m.domain && mb.localPart == a.localPart
       && mb.displayName == Some(a.displayName) && mb.desiredStatus.DesiredActive? && mb.revision == 1
  }

  /** The stable fields of the control-plane rows; status and observations may move on. */
  predicate DbVerified(db: Db, m: Manifest) {
    && m.tenant in db.tenants && db.tenants[m.tenant]
    && m.domain in db.domains && db.domains[m.domain] == Domain(m.tenant, m.domainName, true)
    && MailboxVerified(db, m, m.active) && MailboxVerified(db, m, m.suspended)
    && m.operation in db.operations && SameIntent(db.operations[m.operation],
                                                  FixtureOperation(m, db.operations[m.operation].createdAt))
    && m.operation in db.outbox && db.outbox[m.operation].id == m.event && db.outbox[m.operation].tenant == m.tenant
  }

  predicate PrincipalsVerified(t: map<Uuid, Principal>, m: Manifest) {
    && m.active.principal in t && t[m.active.principal] == ActiveRow(m)
    && m.administrator.principal in t && t[m.administrator.principal] == PersonRow(m, m.administrator)
    && m.suspended.principal in t && t[m.suspended.principal] == SuspendedRow(m)
    && m.weak.principal in t && t[m.weak.principal] == PersonRow(m, m.weak)
    && !SubjectTaken(t, m.issuer, m.unmapped)
  }

  predicate GrantsVerified(t: set<(Uuid, string)>, m: Manifest) {
    (forall g :: g in t && g.0 in PrincipalIds(m) ==> g in Grants(m)) && Grants(m) <= t
  }

  predicate Verified(s: Site, m: Manifest) {
    m.tenant in s.names && s.names[m.tenant] == m.tenantName && DbVerified(s.db, m)
    && PrincipalsVerified(s.principals, m) && GrantsVerified(s.permissions, m)
  }

  // ----------------------------------------------------------------- Remove

  predicate DbFree(db: Db, m: Manifest) {
    && m.tenant !in db.tenants
    && m.domain !in db.domains && !NameTaken(db.domains, m.domainName)
    && (forall x :: x in db.mailboxes ==> x !in MailboxIds(m))
    && !PlaceTaken(db.mailboxes, m.domain, m.active.localPart)
    && !PlaceTaken(db.mailboxes, m.domain, m.suspended.localPart)
    && m.operation !in db.operations && !KeyTaken(db.operations, m.tenant, m.key)
    && m.operation !in db.outbox && !EventTaken(db.outbox, m.event)
  }

  predicate PeopleFree(s: Site, m: Manifest) {
    && (forall p :: p in s.principals ==> p !in PrincipalIds(m))
    && (forall p :: p in s.principals ==> !(s.principals[p].issuer == m.issuer && s.principals[p].subject in Subjects(m)))
    && (forall g :: g in s.permissions ==> g.0 !in PrincipalIds(m))
  }

  /** Nothing occupies any of the fixture's ids or natural keys. */
  predicate NoFootprint(s: Site, m: Manifest) { DbFree(s.db, m) && PeopleFree(s, m) }

  /** The fixture tenant holds only what the manifest owns. */
  predicate InScope(s: Site, m: Manifest) {
    && (forall d :: d in s.db.domains && s.db.domains[d].tenant == m.tenant ==> d == m.domain)
    && (forall x :: x in s.db.mailboxes && s.db.mailboxes[x].tenant == m.tenant ==> x in MailboxIds(m))
    && (forall p :: p in s.principals && s.principals[p].tenant == m.tenant ==> p in PrincipalIds(m))
    && (forall o :: o in s.db.operations && s.db.operations[o].tenant == m.tenant ==> o == m.operation)
    && (forall o :: o in s.db.outbox && s.db.outbox[o].tenant == m.tenant ==> s.db.outbox[o].id == m.event)
  }

  function OtherEvents(t: map<Uuid, OutboxEvent>, event: Uuid): map<Uuid, OutboxEvent> {
    map o | o in t && t[o].id != event :: t[o]
  }

  function OtherGrants(t: set<(Uuid, string)>, ids: set<Uuid>): set<(Uuid, string)> {
    set g | g in t && g.0 !in ids
  }

  function OtherSessions(t: map<Uuid, Uuid>, ids: set<Uuid>): map<Uuid, Uuid> {
    map x | x in t && t[x] !in ids :: t[x]
  }

  function OtherAudits(t: map<Uuid, Option<Uuid>>, ids: set<Uuid>): map<Uuid, Option<Uuid>> {
    map x | x in t && !(t[x].Some? && t[x].value in ids) :: t[x]
  }

  function ErasedDb(db: Db, m: Manifest): Db {
    db.(tenants := db.tenants - {m.tenant},
        domains := db.domains - {m.domain},
        mailboxes := db.mailboxes - MailboxIds(m),
        operations := db.operations - {m.operation},
        attempts := db.attempts - {m.operation},
        outbox := OtherEvents(db.outbox, m.event))
  }

  /** The tables without the rows Remove deletes. */
  function Erased(s: Site, m: Manifest): Site {
    Site(ErasedDb(s.db, m), s.names - {m.tenant}, s.principals - PrincipalIds(m),
         OtherGrants(s.permissions, PrincipalIds(m)), OtherSessions(s.sessions, PrincipalIds(m)),
         OtherAudits(s.audits, PrincipalIds(m)))
  }

  // ----------------------------------------------------------------- the round trip

  /** The tables with all the fixture's rows, where none was there before. */
  function FreshMailboxes(t: map<Uuid, Mailbox>, m: Manifest): map<Uuid, Mailbox> {
    t[m.active.mailbox := NewMailbox(m.tenant, m.domain, m.active.localPart, m.active.displayName)]
     [m.suspended.mailbox := NewMailbox(m.tenant, m.domain, m.suspended.localPart, m.suspended.displayName)]
  }

  function FreshPrincipals(t: map<Uuid, Principal>, m: Manifest): map<Uuid, Principal> {
    t[m.active.principal := ActiveRow(m)][m.administrator.principal := PersonRow(m, m.administrator)]
     [m.suspended.principal := SuspendedRow(m)][m.weak.principal := PersonRow(m, m.weak)]
  }

  function FreshDb(db: Db, m: Manifest): Db {
    db.(tenants := db.tenants[m.tenant := true],
        domains := db.domains[m.domain := Domain(m.tenant, m.domainName, true)],
        mailboxes := FreshMailboxes(db.mailboxes, m),
        operations := db.operations[m.operation := FixtureOperation(m, db.now)],
        outbox := db.outbox[m.operation := OutboxEvent(m.event, m.tenant, EventPending, 0, None)])
  }

  function FreshSite(s: Site, m: Manifest): Site {
    s.(db := FreshDb(s.db, m), names := s.names[m.tenant := m.tenantName],
       principals := FreshPrincipals(s.principals, m), permissions := s.permissions + Grants(m))
  }

  lemma MailboxesAreFresh(t: map<Uuid, Mailbox>, m: Manifest)
    requires ValidManifest(m) && (forall x :: x in t ==> x !in MailboxIds(m))
    requires !PlaceTaken(t, m.domain, m.active.localPart) && !PlaceTaken(t, m.domain, m.suspended.localPart)
    ensures PutMailbox(PutMailbox(t, m, m.active), m, m.suspended) == FreshMailboxes(t, m)
  {
  }

  lemma PrincipalIsFresh(t: map<Uuid, Principal>, m: Manifest, id: Uuid, row: Principal)
    requires id !in t && row.issuer == m.issuer
    requires forall p :: p in t ==> !(t[p].issuer == m.issuer && t[p].subject == row.subject)
    ensures PutPrincipal(t, id, row) == t[id := row]
  {
  }

  lemma PrincipalsAreFresh(t: map<Uuid, Principal>, m: Manifest)
    requires ValidManifest(m) && (forall p :: p in t ==> p !in PrincipalIds(m))
    requires forall p :: p in t ==> !(t[p].issuer == m.issuer && t[p].subject in Subjects(m))
    ensures InsertedPrincipals(t, m) == FreshPrincipals(t, m)
  {
    hide PutPrincipal;
    PrincipalIsFresh(t, m, m.active.principal, ActiveRow(m));
    var a := t[m.active.principal := ActiveRow(m)];
    PrincipalIsFresh(a, m, m.administrator.principal, PersonRow(m, m.administrator));
    var b := a[m.administrator.principal := PersonRow(m, m.administrator)];
    PrincipalIsFresh(b, m, m.suspended.principal, SuspendedRow(m));
    var d := b[m.suspended.principal := SuspendedRow(m)];
    PrincipalIsFresh(d, m, m.weak.principal, PersonRow(m, m.weak));
  }

  lemma InsertedIsFresh(s: Site, m: Manifest)
    requires ValidManifest(m) && SiteFits(s) && NoFootprint(s, m)
    ensures Inserted(s, m) == FreshSite(s, m)
  {
    MailboxesAreFresh(s.db.mailboxes, m);
    PrincipalsAreFresh(s.principals, m);
    hide PutMailbox, FreshMailboxes, InsertedPrincipals, FreshPrincipals, ValidManifest;
    assert m.tenant !in s.names;
  }

  /** Dropping exactly the added keys gives the table back. */
  lemma DropAdded<V>(t: map<Uuid, V>, t': map<Uuid, V>, ids: set<Uuid>)
    requires t.Keys !! ids && t'.Keys == t.Keys + ids && forall k :: k in t ==> t'[k] == t[k]
    ensures t' - ids == t
  {
  }

  lemma FreshDbErases(db: Db, m: Manifest)
    requires ValidManifest(m) && DbFits(db) && DbFree(db, m)
    ensures ErasedDb(FreshDb(db, m), m) == db
  {
    var f := FreshDb(db, m);
    assert db.attempts - {m.operation} == db.attempts;
    hide DbFits, ValidManifest, NameTaken, PlaceTaken, KeyTaken;
    assert OtherEvents(f.outbox, m.event) == db.outbox;
    hide EventTaken, OtherEvents;
    DropAdded(db.tenants, f.tenants, {m.tenant});
    DropAdded(db.domains, f.domains, {m.domain});
    DropAdded(db.operations, f.operations, {m.operation});
    DropAdded(db.mailboxes, f.mailboxes, MailboxIds(m));
  }

  lemma FreshPeopleErase(s: Site, m: Manifest)
    requires PeopleFit(s) && PeopleFree(s, m)
    ensures FreshPrincipals(s.principals, m) - PrincipalIds(m) == s.principals
    ensures OtherGrants(s.permissions + Grants(m), PrincipalIds(m)) == s.permissions
    ensures OtherSessions(s.sessions, PrincipalIds(m)) == s.sessions
    ensures OtherAudits(s.audits, PrincipalIds(m)) == s.audits
  {
    DropAdded(s.principals, FreshPrincipals(s.principals, m), PrincipalIds(m));
    hide PrincipalFits;
    forall x | x in s.sessions ensures s.sessions[x] !in PrincipalIds(m) {}
    forall x | x in s.audits && s.audits[x].Some? ensures s.audits[x].value !in PrincipalIds(m) {}
  }

  lemma FreshErases(s: Site, m: Manifest)
    requires ValidManifest(m) && SiteFits(s) && NoFootprint(s, m)
    ensures Erased(FreshSite(s, m), m) == s
  {
    assert m.tenant !in s.names;
    hide ErasedDb, FreshDb, DbFits, DbFree, ValidManifest, FreshPrincipals, PeopleFit, PeopleFree, Grants,
      OtherGrants, OtherSessions, OtherAudits, PrincipalIds;
    FreshDbErases(s.db, m);
    FreshPeopleErase(s, m);
    DropAdded(s.names, s.names[m.tenant := m.tenantName], {m.tenant});
  }

  lemma FreshVerifies(s: Site, m: Manifest)
    requires ValidManifest(m) && NoFootprint(s, m)
    ensures Verified(FreshSite(s, m), m)
  {
  }

  lemma FreshInScope(s: Site, m: Manifest)
    requires ValidManifest(m) && SiteFits(s) && NoFootprint(s, m)
    ensures InScope(FreshSite(s, m), m)
  {
  }

  lemma FreshDbFits(db: Db, m: Manifest)
    requires DbFits(db) && DbFree(db, m)
    ensures DbFits(FreshDb(db, m))
  {
    hide NameTaken, PlaceTaken, KeyTaken;
    FreshEventsFit(db, m);
    hide EventsFit;
    var f := FreshDb(db, m);
    forall x | x in f.mailboxes ensures DomainJoined(f, f.mailboxes[x]) {
      assert x in db.mailboxes ==> DomainJoined(db, db.mailboxes[x]);
    }
  }

  lemma FreshEventsFit(db: Db, m: Manifest)
    requires EventsFit(db) && m.operation !in db.operations && !EventTaken(db.outbox, m.event)
    ensures EventsFit(FreshDb(db, m))
  {
  }

  lemma FreshPeopleFit(s: Site, m: Manifest)
    requires PeopleFit(s) && PeopleFree(s, m) && ValidManifest(m)
    requires m.tenant !in s.db.tenants && forall x :: x in s.db.mailboxes ==> x !in MailboxIds(m)
    ensures PeopleFit(FreshSite(s, m))
  {
    var f := FreshSite(s, m);
    forall p | p in f.principals ensures PrincipalFits(f.db, f.principals[p]) {
      assert p in s.principals ==> PrincipalFits(s.db, s.principals[p]);
    }
    hide PrincipalFits;
  }

  lemma FreshFits(s: Site, m: Manifest)
    requires ValidManifest(m) && SiteFits(s) && NoFootprint(s, m)
    ensures SiteFits(FreshSite(s, m))
  {
    hide DbFits, PeopleFit, PeopleFree, FreshPrincipals;
    FreshDbFits(s.db, m);
    FreshPeopleFit(s, m);
  }

  // ----------------------------------------------------------------- what workers and visitors do meanwhile

  predicate SameMailbox(a: Mailbox, b: Mailbox) {
    b == a.(observedStatus := b.observedStatus, observed := b.observed)
  }

  /** Worker steps move statuses, leases, attempts and observations, and nothing else. */
  predicate Worked(db: Db, db': Db) {
    && db'.tenants == db.tenants && db'.domains == db.domains
    && db'.mailboxes.Keys == db.mailboxes.Keys
    && (forall x :: x in db.mailboxes ==> SameMailbox(db.mailboxes[x], db'.mailboxes[x]))
    && db'.operations.Keys == db.operations.Keys
    && (forall o :: o in db.operations ==> SameIntent(db.operations[o], db'.operations[o]))
    && db'.outbox.Keys == db.outbox.Keys
    && (forall o :: o in db.outbox ==>
          db'.outbox[o].id == db.outbox[o].id && db'.outbox[o].tenant == db.outbox[o].tenant)
    && (db.attempts.Keys <= db.operations.Keys ==> db'.attempts.Keys <= db'.operations.Keys)
  }

  predicate ByWorker(e: Event) { e.Tick? || e.ClaimEvent? || e.FinalizeEvent? || e.ResolveEvent? }

  lemma ClaimWorks(db: Db, id: Uuid, owner: Uuid, leaseMicros: nat)
    requires id in db.operations
    ensures Worked(db, Claim(db, id, owner, leaseMicros))
  {
    hide ClaimedRows;
  }

  lemma FinalizeWorks(db: Db, id: Uuid)
    requires id in db.operations && Joined(db, db.operations[id])
    ensures Worked(db, Finalize(db, id))
  {
    hide FinalizedRows;
  }

  lemma ResolveWorks(db: Db, r: Resolution)
    requires Resolvable(db, r)
    ensures Worked(db, Resolve(db, r))
  {
    hide ResolvedRows;
  }

  lemma WorkersWork(maxAttempts: nat, db: Db, e: Event, db': Db)
    requires Next(maxAttempts, db, e, db') && ByWorker(e)
    ensures Worked(db, db')
  {
    hide Worked, ValidResolution, Claim, Finalize, Resolve;
    match e
    case Tick(elapsed) => NothingWorks(db, elapsed);
    case ClaimEvent(id, owner, leaseMicros, _) => ClaimWorks(db, id, owner, leaseMicros);
    case FinalizeEvent(id, _) => FinalizeWorks(db, id);
    case ResolveEvent(r) =>
      if Accepted(db, r) {
        ResolveWorks(db, r);
      } else {
        NothingWorks(db, 0);
      }
  }

  lemma NothingWorks(db: Db, elapsed: nat)
    ensures Worked(db, db.(now := db.now + elapsed))
  {
  }

  lemma WorkedKeepsVerified(db: Db, db': Db, m: Manifest)
    requires DbVerified(db, m) && Worked(db, db')
    ensures DbVerified(db', m)
  {
    assert SameMailbox(db.mailboxes[m.active.mailbox], db'.mailboxes[m.active.mailbox]);
    assert SameMailbox(db.mailboxes[m.suspended.mailbox], db'.mailboxes[m.suspended.mailbox]);
    assert SameIntent(db.operations[m.operation], db'.operations[m.operation]);
  }

  lemma WorkedKeepsFit(db: Db, db': Db)
    requires DbFits(db) && Worked(db, db')
    ensures DbFits(db')
  {
    forall x | x in db'.mailboxes ensures DomainJoined(db', db'.mailboxes[x]) {
      assert DomainJoined(db, db.mailboxes[x]);
    }
    forall o | o in db'.operations ensures db'.operations[o].tenant in db'.tenants {
      assert SameIntent(db.operations[o], db'.operations[o]);
    }
    assert EventsFit(db') by {
      forall o | o in db'.outbox ensures db'.outbox[o].tenant == db'.operations[o].tenant {
        assert SameIntent(db.operations[o], db'.operations[o]);
      }
    }
  }

  /** What happens between Apply and Remove: worker steps on any operation, sign-ins of the fixture's principals,
      and refused sign-ins, which are audited without a principal. */
  datatype Activity = Work(event: Event) | SignIn(session: Uuid, principal: Uuid, audit: Uuid) | Refusal(audit: Uuid)

  predicate Goes(maxAttempts: nat, m: Manifest, s: Site, a: Activity, s': Site) {
    match a
    case Work(e) => ByWorker(e) && Next(maxAttempts, s.db, e, s'.db) && s' == s.(db := s'.db)
    case SignIn(session, principal, audit) =>
      && principal in PrincipalIds(m) && session !in s.sessions && audit !in s.audits
      && s' == s.(sessions := s.sessions[session := principal], audits := s.audits[audit := Some(principal)])
    case Refusal(audit) => audit !in s.audits && s' == s.(audits := s.audits[audit := None])
  }

  /** The activity concerns the fixture only. */
  predicate OnFixture(m: Manifest, a: Activity) {
    !a.Refusal? && (a.Work? ==>
      || a.event.Tick?
      || ((a.event.ClaimEvent? || a.event.FinalizeEvent?) && a.event.id == m.operation)
      || (a.event.ResolveEvent? && a.event.resolution.operation == m.operation))
  }

  /** The fixture is in place and alone in its tenant. */
  predicate InPlace(s: Site, m: Manifest) { SiteFits(s) && Verified(s, m) && InScope(s, m) }

  lemma WorkKeepsScope(s: Site, s': Site, m: Manifest)
    requires InScope(s, m) && s' == s.(db := s'.db) && Worked(s.db, s'.db)
    ensures InScope(s', m)
  {
    forall o | o in s'.db.operations && s'.db.operations[o].tenant == m.tenant ensures o == m.operation {
      assert SameIntent(s.db.operations[o], s'.db.operations[o]);
    }
  }

  lemma WorkKeepsPeople(s: Site, s': Site)
    requires PeopleFit(s) && s' == s.(db := s'.db) && Worked(s.db, s'.db)
    ensures PeopleFit(s')
  {
    forall p | p in s'.principals ensures PrincipalFits(s'.db, s'.principals[p]) {
      assert PrincipalFits(s.db, s.principals[p]);
    }
  }

  lemma WorkKeepsInPlace(s: Site, s': Site, m: Manifest)
    requires InPlace(s, m) && s' == s.(db := s'.db) && Worked(s.db, s'.db)
    ensures InPlace(s', m)
  {
    hide DbFits, DbVerified, InScope, Worked, PeopleFit, PrincipalsVerified, GrantsVerified;
    WorkedKeepsVerified(s.db, s'.db, m);
    WorkedKeepsFit(s.db, s'.db);
    WorkKeepsScope(s, s', m);
    WorkKeepsPeople(s, s');
  }

  lemma SignInKeepsInPlace(m: Manifest, s: Site, a: Activity, s': Site)
    requires InPlace(s, m) && a.SignIn? && Goes(0, m, s, a, s')
    ensures InPlace(s', m)
  {
    hide DbFits, DbVerified, GrantsVerified, PrincipalsVerified, InScope, PeopleFit, PrincipalIds;
    FixturePrincipalExists(s.principals, m, a.principal);
    SignInKeepsScope(s, s', m);
    SignInKeepsPeople(s, s', a);
  }

  lemma RefusalKeepsInPlace(m: Manifest, s: Site, a: Activity, s': Site)
    requires InPlace(s, m) && a.Refusal? && Goes(0, m, s, a, s')
    ensures InPlace(s', m)
  {
    hide DbFits, DbVerified, GrantsVerified, PrincipalsVerified, InScope, PrincipalFits;
    SignInKeepsScope(s, s', m);
  }

  lemma FixturePrincipalExists(t: map<Uuid, Principal>, m: Manifest, id: Uuid)
    requires PrincipalsVerified(t, m) && id in PrincipalIds(m)
    ensures id in t
  {
  }

  lemma SignInKeepsScope(s: Site, s': Site, m: Manifest)
    requires InScope(s, m) && s'.db == s.db && s'.principals == s.principals
    ensures InScope(s', m)
  {
  }

  lemma SignInKeepsPeople(s: Site, s': Site, a: Activity)
    requires PeopleFit(s) && a.SignIn? && a.principal in s.principals
    requires s' == s.(sessions := s.sessions[a.session := a.principal], audits := s.audits[a.audit := Some(a.principal)])
    ensures PeopleFit(s')
  {
    hide PrincipalFits;
  }

  /** Worker steps and sign-ins keep the fixture verifiable and removable. */
  lemma ActivityKeepsInPlace(maxAttempts: nat, m: Manifest, s: Site, a: Activity, s': Site)
    requires InPlace(s, m) && Goes(maxAttempts, m, s, a, s')
    ensures InPlace(s', m)
  {
    hide Next, InPlace, Worked;
    if a.Work? {
      WorkersWork(maxAttempts, s.db, a.event, s'.db);
      WorkKeepsInPlace(s, s', m);
    } else if a.SignIn? {
      SignInKeepsInPlace(m, s, a, s');
    } else {
      RefusalKeepsInPlace(m, s, a, s');
    }
  }

  /** The tables differ only in rows the fixture owns. */
  predicate Confined(db: Db, db': Db, m: Manifest) {
    && db'.tenants == db.tenants && db'.domains == db.domains
    && db'.mailboxes - MailboxIds(m) == db.mailboxes - MailboxIds(m)
    && db'.operations - {m.operation} == db.operations - {m.operation}
    && db'.attempts - {m.operation} == db.attempts - {m.operation}
    && db'.outbox - {m.operation} == db.outbox - {m.operation}
    && m.operation in db.outbox && m.operation in db'.outbox
    && db'.outbox[m.operation].id == db.outbox[m.operation].id
  }

  lemma ClaimConfined(db: Db, m: Manifest, owner: Uuid, leaseMicros: nat)
    requires DbVerified(db, m)
    ensures Confined(db, Claim(db, m.operation, owner, leaseMicros), m)
  {
    hide ClaimedRows, ClaimedOperation;
  }

  lemma FinalizeConfined(db: Db, m: Manifest)
    requires DbVerified(db, m) && Joined(db, db.operations[m.operation])
    ensures Confined(db, Finalize(db, m.operation), m)
  {
    hide FinalizedRows, FinalizedOperation;
  }

  lemma ResolveConfined(db: Db, m: Manifest, r: Resolution)
    requires DbVerified(db, m) && r.operation == m.operation && Resolvable(db, r)
    ensures Confined(db, Resolve(db, r), m)
  {
    assert db.operations[m.operation].mailbox == m.active.mailbox;
    hide ResolvedRows, ResolvedOperation, SameIntent, MailboxVerified;
  }

  lemma TickConfined(db: Db, m: Manifest, elapsed: nat)
    requires DbVerified(db, m)
    ensures Confined(db, db.(now := db.now + elapsed), m)
  {
  }

  lemma WorkIsConfined(maxAttempts: nat, m: Manifest, db: Db, a: Activity, db': Db)
    requires DbVerified(db, m) && a.Work? && ByWorker(a.event) && OnFixture(m, a)
    requires Next(maxAttempts, db, a.event, db')
    ensures Confined(db, db', m)
  {
    hide Confined, ValidResolution, Claim, Finalize, Resolve, DbVerified;
    match a.event
    case Tick(elapsed) => TickConfined(db, m, elapsed);
    case ClaimEvent(_, owner, leaseMicros, _) => ClaimConfined(db, m, owner, leaseMicros);
    case FinalizeEvent(_, _) => FinalizeConfined(db, m);
    case ResolveEvent(r) =>
      if Accepted(db, r) {
        ResolveConfined(db, m, r);
      } else {
        TickConfined(db, m, 0);
      }
  }

  lemma EventsErase(t: map<Uuid, OutboxEvent>, t': map<Uuid, OutboxEvent>, operation: Uuid, event: Uuid)
    requires operation in t && operation in t' && t[operation].id == event == t'[operation].id
    requires t' - {operation} == t - {operation}
    ensures OtherEvents(t', event) == OtherEvents(t, event)
  {
    forall o ensures o in t && o != operation <==> o in t' && o != operation {
      assert o in t - {operation} <==> o in t' - {operation};
    }
    forall o | o in t && o != operation ensures t'[o] == t[o] {
      assert (t - {operation})[o] == (t' - {operation})[o];
    }
  }

  /** Work on the fixture's operation stays within the rows Remove deletes. */
  lemma FixtureWorkErases(maxAttempts: nat, m: Manifest, db: Db, a: Activity, db': Db)
    requires DbVerified(db, m) && a.Work? && ByWorker(a.event) && OnFixture(m, a)
    requires Next(maxAttempts, db, a.event, db')
    ensures ErasedDb(db', m) == ErasedDb(db, m).(now := db'.now)
  {
    hide Next;
    WorkIsConfined(maxAttempts, m, db, a, db');
    EventsErase(db.outbox, db'.outbox, m.operation, m.event);
    hide OtherEvents;
  }

  lemma SignInErases(m: Manifest, s: Site, a: Activity, s': Site)
    requires a.SignIn? && Goes(0, m, s, a, s')
    ensures Erased(s', m) == Erased(s, m)
  {
    hide PrincipalIds, ErasedDb;
    assert OtherSessions(s'.sessions, PrincipalIds(m)) == OtherSessions(s.sessions, PrincipalIds(m));
    assert OtherAudits(s'.audits, PrincipalIds(m)) == OtherAudits(s.audits, PrincipalIds(m));
  }

  // ----------------------------------------------------------------- main results

  /** A fixture that verifies has nothing left to insert. */
  lemma ApplyAgain(s: Site, m: Manifest)
    requires Verified(s, m)
    ensures Inserted(s, m) == s
  {
  }

  /** On a clean database Apply puts the whole fixture in place, and erasing it gives the database back. */
  lemma ApplyFresh(s: Site, m: Manifest)
    requires ValidManifest(m) && SiteFits(s) && NoFootprint(s, m)
    ensures InPlace(Inserted(s, m), m) && Erased(Inserted(s, m), m) == s && Inserted(s, m) != s
  {
    InsertedIsFresh(s, m);
    FreshErases(s, m);
    FreshFits(s, m);
    FreshVerifies(s, m);
    FreshInScope(s, m);
    assert m.tenant in FreshSite(s, m).db.tenants;
    hide SiteFits, Verified, InScope, Erased, Inserted;
  }

  /** What Apply has written on a clean database, row by row. */
  lemma ApplyWrites(s: Site, m: Manifest)
    requires ValidManifest(m) && SiteFits(s) && NoFootprint(s, m)
    ensures var t := Inserted(s, m);
            && t.db.tenants == s.db.tenants[m.tenant := true] && t.names == s.names[m.tenant := m.tenantName]
            && t.db.domains == s.db.domains[m.domain := Domain(m.tenant, m.domainName, true)]
            && t.db.operations == s.db.operations[m.operation :=
                 Operation(m.tenant, m.active.mailbox, m.key, m.hash, 1, m.hash, s.db.now, Pending, 0, s.db.now,
                           None, 0, None, None, None)]
            && t.db.outbox == s.db.outbox[m.operation := OutboxEvent(m.event, m.tenant, EventPending, 0, None)]
            && t.db.attempts == s.db.attempts && t.db.now == s.db.now
    ensures MailboxesWritten(s.db.mailboxes, Inserted(s, m).db.mailboxes, m)
    ensures PeopleWritten(s, Inserted(s, m), m)
  {
    InsertedIsFresh(s, m);
    hide Inserted, SiteFits;
    FreshPeople(s, m);
    FreshMailboxRows(s.db.mailboxes, m);
    hide DbFree, FreshMailboxes, MailboxesWritten, FreshPrincipals, Grants, PeopleFree, PeopleWritten, ValidManifest;
  }

  /** Both mailboxes are wanted active at revision 1 and nothing is known of them yet. */
  predicate MailboxesWritten(s: map<Uuid, Mailbox>, t: map<Uuid, Mailbox>, m: Manifest) {
    && t.Keys == s.Keys + {m.active.mailbox, m.suspended.mailbox}
    && t[m.active.mailbox] == Mailbox(m.tenant, m.domain, m.active.localPart, Some(m.active.displayName),
                                      DesiredActive, 1, ObservedUnknown, None)
    && t[m.suspended.mailbox] == Mailbox(m.tenant, m.domain, m.suspended.localPart, Some(m.suspended.displayName),
                                         DesiredActive, 1, ObservedUnknown, None)
    && forall id :: id in s ==> t[id] == s[id]
  }

  lemma FreshMailboxRows(t: map<Uuid, Mailbox>, m: Manifest)
    requires ValidManifest(m) && (forall x :: x in t ==> x !in MailboxIds(m))
    ensures MailboxesWritten(t, FreshMailboxes(t, m), m)
  {
  }

  /** Two users with a mailbox, one of them suspended, and two administrators, who hold the one permission; the
      unmapped subject gets no row. */
  predicate PeopleWritten(s: Site, t: Site, m: Manifest) {
    && t.principals.Keys == s.principals.Keys + PrincipalIds(m)
    && t.principals[m.active.principal] ==
         Principal(m.tenant, m.issuer, m.active.subject, Some(m.active.mailbox), PrincipalActive, m.active.displayName)
    && t.principals[m.suspended.principal] ==
         Principal(m.tenant, m.issuer, m.suspended.subject, Some(m.suspended.mailbox), PrincipalSuspended,
                   m.suspended.displayName)
    && t.principals[m.administrator.principal] ==
         Principal(m.tenant, m.issuer, m.administrator.subject, None, PrincipalActive, m.administrator.displayName)
    && t.principals[m.weak.principal] ==
         Principal(m.tenant, m.issuer, m.weak.subject, None, PrincipalActive, m.weak.displayName)
    && (forall id :: id in s.principals ==> t.principals[id] == s.principals[id])
    && (forall id :: id in t.principals && t.principals[id].issuer == m.issuer ==> t.principals[id].subject != m.unmapped)
    && t.permissions == s.permissions + {(m.administrator.principal, "portal.admin.access"),
                                         (m.weak.principal, "portal.admin.access")}
    && t.sessions == s.sessions && t.audits == s.audits
  }

  lemma FreshPeople(s: Site, m: Manifest)
    requires ValidManifest(m) && PeopleFree(s, m)
    ensures PeopleWritten(s, FreshSite(s, m), m)
  {
    hide FreshDb;
  }

  /** The database before anything is in it. */
  function Bare(now: Time): Site {
    Site(Db(now, map[], map[], map[], map[], map[], map[]), map[], map[], {}, map[], map[])
  }

  predicate SameStable(s: map<Uuid, Mailbox>, t: map<Uuid, Mailbox>, id: Uuid) {
    id in s && id in t && SameMailbox(t[id], s[id])
  }

  predicate SameRow<V(==)>(s: map<Uuid, V>, t: map<Uuid, V>, id: Uuid) { id in s && id in t && s[id] == t[id] }

  /** The stable columns of the fixture's rows agree in both databases. */
  ghost predicate SameFixture(s: Site, t: Site, m: Manifest) {
    && SameRow(s.names, t.names, m.tenant) && SameRow(s.db.tenants, t.db.tenants, m.tenant)
    && SameRow(s.db.domains, t.db.domains, m.domain)
    && SameStable(s.db.mailboxes, t.db.mailboxes, m.active.mailbox)
    && SameStable(s.db.mailboxes, t.db.mailboxes, m.suspended.mailbox)
    && m.operation in s.db.operations && m.operation in t.db.operations
    && SameIntent(s.db.operations[m.operation],
                  t.db.operations[m.operation].(createdAt := s.db.operations[m.operation].createdAt))
    && m.operation in s.db.outbox && m.operation in t.db.outbox
    && s.db.outbox[m.operation].id == t.db.outbox[m.operation].id
    && s.db.outbox[m.operation].tenant == t.db.outbox[m.operation].tenant
    && (forall p :: p in PrincipalIds(m) ==> SameRow(s.principals, t.principals, p))
    && (forall g: (Uuid, string) :: g.0 in PrincipalIds(m) ==> (g in s.permissions <==> g in t.permissions))
  }

  /** The fixture verifies exactly if its rows agree, in their stable columns, with what Apply writes into a bare database,
      its principals hold the same permissions, and nobody has the unmapped subject. */
  lemma VerifiedIff(s: Site, m: Manifest, now: Time)
    requires ValidManifest(m)
    ensures Verified(s, m) <==>
              && SameFixture(s, Inserted(Bare(now), m), m)
              && forall p :: p in s.principals && s.principals[p].issuer == m.issuer ==> s.principals[p].subject != m.unmapped
  {
    var t := FreshSite(Bare(now), m);
    BareIsClean(now, m);
    hide SiteFits, NoFootprint;
    InsertedIsFresh(Bare(now), m);
    DbVerifiedIff(s, t, m, now);
    PeopleVerifiedIff(s, t, m, now);
    hide Inserted, FreshSite, DbVerified, PrincipalsVerified, GrantsVerified, SameIntent, SameStable, SameRow, ValidManifest;
  }

  lemma BareIsClean(now: Time, m: Manifest)
    ensures SiteFits(Bare(now)) && NoFootprint(Bare(now), m)
  {
  }

  lemma DbVerifiedIff(s: Site, t: Site, m: Manifest, now: Time)
    requires ValidManifest(m) && t == FreshSite(Bare(now), m)
    ensures m.tenant in s.names && s.names[m.tenant] == m.tenantName <==> SameRow(s.names, t.names, m.tenant)
    ensures DbVerified(s.db, m) <==>
              && SameRow(s.db.tenants, t.db.tenants, m.tenant) && SameRow(s.db.domains, t.db.domains, m.domain)
              && SameStable(s.db.mailboxes, t.db.mailboxes, m.active.mailbox)
              && SameStable(s.db.mailboxes, t.db.mailboxes, m.suspended.mailbox)
              && m.operation in s.db.operations && m.operation in t.db.operations
              && SameIntent(s.db.operations[m.operation],
                            t.db.operations[m.operation].(createdAt := s.db.operations[m.operation].createdAt))
              && m.operation in s.db.outbox && m.operation in t.db.outbox
              && s.db.outbox[m.operation].id == t.db.outbox[m.operation].id
              && s.db.outbox[m.operation].tenant == t.db.outbox[m.operation].tenant
  {
    hide FreshPrincipals, Grants;
  }

  lemma PeopleVerifiedIff(s: Site, t: Site, m: Manifest, now: Time)
    requires ValidManifest(m) && t == FreshSite(Bare(now), m)
    ensures PrincipalsVerified(s.principals, m) <==>
              && (forall p :: p in PrincipalIds(m) ==> SameRow(s.principals, t.principals, p))
              && forall p :: p in s.principals && s.principals[p].issuer == m.issuer ==> s.principals[p].subject != m.unmapped
    ensures GrantsVerified(s.permissions, m) <==>
              forall g: (Uuid, string) :: g.0 in PrincipalIds(m) ==> (g in s.permissions <==> g in t.permissions)
  {
    hide FreshDb;
    assert (forall p :: p in PrincipalIds(m) ==> SameRow(s.principals, t.principals, p)) <==>
             && SameRow(s.principals, t.principals, m.active.principal)
             && SameRow(s.principals, t.principals, m.administrator.principal)
             && SameRow(s.principals, t.principals, m.suspended.principal)
             && SameRow(s.principals, t.principals, m.weak.principal);
  }

  /** The fixture is applied to a clean database, and then used. */
  ghost predicate Use(maxAttempts: nat, m: Manifest, clean: Site, ss: seq<Site>, acts: seq<Activity>) {
    && ValidManifest(m) && SiteFits(clean) && NoFootprint(clean, m)
    && |ss| == |acts| + 1 && ss[0] == Inserted(clean, m)
    && forall i :: 0 <= i < |acts| ==> OnFixture(m, acts[i]) && Goes(maxAttempts, m, ss[i], acts[i], ss[i + 1])
  }

  lemma ActivityErases(maxAttempts: nat, m: Manifest, s: Site, a: Activity, s': Site)
    requires InPlace(s, m) && OnFixture(m, a) && Goes(maxAttempts, m, s, a, s')
    ensures Erased(s', m) == Erased(s, m).(db := Erased(s, m).db.(now := s'.db.now))
  {
    hide Next, DbFits, PeopleFit, InScope, PrincipalsVerified, GrantsVerified, DbVerified;
    if a.Work? {
      FixtureWorkErases(maxAttempts, m, s.db, a, s'.db);
    } else {
      SignInErases(m, s, a, s');
    }
  }

  /**
   The round trip: whatever workers and visitors did with the fixture, it still verifies and may be
   removed, and removing it leaves the tables as they were before Apply, up to the clock.
   */
  lemma {:induction false} RoundTrip(maxAttempts: nat, m: Manifest, clean: Site, ss: seq<Site>, acts: seq<Activity>, k: nat)
    requires Use(maxAttempts, m, clean, ss, acts) && k < |ss|
    ensures InPlace(ss[k], m) && Inserted(ss[k], m) == ss[k]
    ensures Erased(ss[k], m) == clean.(db := clean.db.(now := ss[k].db.now))
  {
    hide InPlace, Goes, Erased, Inserted, NoFootprint, SiteFits, ValidManifest;
    if k == 0 {
      ApplyFresh(clean, m);
      SameClock(clean, m);
    } else {
      RoundTrip(maxAttempts, m, clean, ss, acts, k - 1);
      ActivityKeepsInPlace(maxAttempts, m, ss[k - 1], acts[k - 1], ss[k]);
      ActivityErases(maxAttempts, m, ss[k - 1], acts[k - 1], ss[k]);
    }
    PlacedVerifies(ss[k], m);
    ApplyAgain(ss[k], m);
  }

  lemma SameClock(s: Site, m: Manifest)
    ensures Inserted(s, m).db.now == s.db.now
  {
  }

  lemma PlacedVerifies(s: Site, m: Manifest)
    requires InPlace(s, m)
    ensures SiteFits(s) && Verified(s, m) && InScope(s, m)
  {
  }

  // ----------------------------------------------------------------- other work goes on

  /** The worker step is on the fixture's own operation. */
  predicate Concerns(m: Manifest, e: Event) {
    || ((e.ClaimEvent? || e.FinalizeEvent?) && e.id == m.operation)
    || (e.ResolveEvent? && e.resolution.operation == m.operation)
  }

  /** The fixture's database rows are in place, and no other operation is in its tenant. */
  predicate Apart(db: Db, m: Manifest) {
    && DbVerified(db, m) && EventsFit(db)
    && forall o :: o in db.operations && db.operations[o].tenant == m.tenant ==> o == m.operation
  }

  /** Another operation sees the same mailbox and domain with or without the fixture. */
  lemma JoinsSame(db: Db, m: Manifest, o: Uuid)
    requires Apart(db, m) && o in db.operations && o != m.operation
    ensures var op, e := db.operations[o], ErasedDb(db, m);
            && o in e.operations && e.operations[o] == op
            && (Joined(e, op) <==> Joined(db, op))
            && (Joined(db, op) ==>
                  && op.mailbox !in MailboxIds(m) && e.mailboxes[op.mailbox] == db.mailboxes[op.mailbox]
                  && (DomainJoined(e, e.mailboxes[op.mailbox]) <==> DomainJoined(db, db.mailboxes[op.mailbox])))
  {
    hide EventsFit, OtherEvents, SameIntent;
  }

  lemma CandidatesSame(db: Db, m: Manifest, maxAttempts: nat, o: Uuid)
    requires Apart(db, m) && o in db.operations && o != m.operation
    ensures Claimable(ErasedDb(db, m), maxAttempts, o) <==> Claimable(db, maxAttempts, o)
    ensures Finalizable(ErasedDb(db, m), maxAttempts, o) <==> Finalizable(db, maxAttempts, o)
  {
    JoinsSame(db, m, o);
    hide Apart, OtherEvents;
  }

  /** With fewer rows to choose from, the first one stays the first. */
  lemma ClaimCandidateStays(db: Db, m: Manifest, maxAttempts: nat, locked: set<Uuid>, id: Uuid)
    requires Apart(db, m) && id != m.operation && ClaimCandidate(db, maxAttempts, locked, id)
    ensures ClaimCandidate(ErasedDb(db, m), maxAttempts, locked, id)
  {
    var e := ErasedDb(db, m);
    CandidatesSame(db, m, maxAttempts, id);
    assert id in e.operations;
    forall other | other in e.operations && other != id && other !in locked && Claimable(e, maxAttempts, other)
      ensures ClaimBefore(e, id, other)
    {
      CandidatesSame(db, m, maxAttempts, other);
      assert ClaimBefore(db, id, other);
    }
    hide Apart, Claimable;
  }

  lemma FinalizeCandidateStays(db: Db, m: Manifest, maxAttempts: nat, locked: set<Uuid>, id: Uuid)
    requires Apart(db, m) && id != m.operation && FinalizeCandidate(db, maxAttempts, locked, id)
    ensures FinalizeCandidate(ErasedDb(db, m), maxAttempts, locked, id)
  {
    var e := ErasedDb(db, m);
    CandidatesSame(db, m, maxAttempts, id);
    JoinsSame(db, m, id);
    forall other | other in e.operations && other != id && other !in locked && Finalizable(e, maxAttempts, other)
      ensures FinalizeBefore(e, id, other)
    {
      CandidatesSame(db, m, maxAttempts, other);
      JoinsSame(db, m, other);
      assert FinalizeBefore(db, id, other);
    }
    hide Apart;
  }

  /** Writing an event of another operation and leaving out the fixture's commute. */
  lemma DeliveryCommutes(db: Db, m: Manifest, id: Uuid, tenant: Uuid)
    requires Apart(db, m) && id != m.operation
    ensures OtherEvents(Delivered(db, id, tenant), m.event) == Delivered(ErasedDb(db, m), id, tenant)
  {
    assert id in db.outbox ==> db.outbox[id].id != m.event;
    hide Apart;
  }

  lemma PutDrop<V>(t: map<Uuid, V>, id: Uuid, row: V, gone: Uuid)
    requires id != gone
    ensures t[id := row] - {gone} == (t - {gone})[id := row]
  {
  }

  lemma RowsSame(db: Db, m: Manifest, id: Uuid)
    requires id != m.operation
    ensures Rows(ErasedDb(db, m), id) == Rows(db, id)
  {
  }

  lemma ClaimCommutes(db: Db, m: Manifest, id: Uuid, owner: Uuid, leaseMicros: nat)
    requires Apart(db, m) && id != m.operation && id in db.operations
    ensures ErasedDb(Claim(db, id, owner, leaseMicros), m) == Claim(ErasedDb(db, m), id, owner, leaseMicros)
  {
    var op := db.operations[id];
    DeliveryCommutes(db, m, id, op.tenant);
    RowsSame(db, m, id);
    hide Apart, Delivered, OtherEvents, ClaimedRows, ClaimedOperation, Rows;
    PutDrop(db.operations, id, ClaimedOperation(db.now, op, owner, leaseMicros), m.operation);
    PutDrop(db.attempts, id, ClaimedRows(db.now, op, Rows(db, id), owner), m.operation);
  }

  lemma FinalizeCommutes(db: Db, m: Manifest, id: Uuid)
    requires Apart(db, m) && id != m.operation && id in db.operations && Joined(db, db.operations[id])
    ensures Joined(ErasedDb(db, m), db.operations[id]) && id in ErasedDb(db, m).operations
    ensures ErasedDb(Finalize(db, id), m) == Finalize(ErasedDb(db, m), id)
  {
    var op := db.operations[id];
    JoinsSame(db, m, id);
    DeliveryCommutes(db, m, id, op.tenant);
    RowsSame(db, m, id);
    hide Apart, Delivered, OtherEvents, FinalizedRows, FinalizedOperation, Rows;
    var outdated := Outdated(db, op);
    PutDrop(db.operations, id, FinalizedOperation(db.now, op, outdated), m.operation);
    PutDrop(db.attempts, id, FinalizedRows(db.now, op, Rows(db, id), outdated), m.operation);
  }

  lemma AcceptedSame(db: Db, m: Manifest, r: Resolution)
    requires Apart(db, m) && r.operation != m.operation
    ensures Resolvable(ErasedDb(db, m), r) <==> Resolvable(db, r)
    ensures Accepted(ErasedDb(db, m), r) <==> Accepted(db, r)
  {
    RowsSame(db, m, r.operation);
    hide ValidResolution, OtherEvents, Rows;
    if r.operation in db.operations {
      JoinsSame(db, m, r.operation);
    }
    hide Apart;
  }

  lemma ResolveCommutes(db: Db, m: Manifest, r: Resolution)
    requires Apart(db, m) && r.operation != m.operation && Resolvable(db, r)
    ensures Resolvable(ErasedDb(db, m), r) && ErasedDb(Resolve(db, r), m) == Resolve(ErasedDb(db, m), r)
  {
    var op := db.operations[r.operation];
    AcceptedSame(db, m, r);
    JoinsSame(db, m, r.operation);
    RowsSame(db, m, r.operation);
    hide Apart, OtherEvents, ResolvedRows, ResolvedOperation, Rows, Accepted;
    PutDrop(db.operations, r.operation, ResolvedOperation(db.now, op, r), m.operation);
    PutDrop(db.attempts, r.operation, ResolvedRows(db.now, Rows(db, r.operation), r), m.operation);
  }

  /** Work on another operation is the same work on the database without the fixture. */
  lemma OtherWorkCommutes(maxAttempts: nat, m: Manifest, db: Db, e: Event, db': Db)
    requires Apart(db, m) && ByWorker(e) && !Concerns(m, e) && Next(maxAttempts, db, e, db')
    ensures Next(maxAttempts, ErasedDb(db, m), e, ErasedDb(db', m))
  {
    hide Apart, ErasedDb, Claim, Finalize, Resolve, ClaimBefore, FinalizeBefore, ValidResolution, Resolvable;
    match e
    case Tick(elapsed) => TickCommutes(db, m, elapsed);
    case ClaimEvent(id, owner, leaseMicros, locked) =>
      ClaimCandidateStays(db, m, maxAttempts, locked, id);
      ClaimCommutes(db, m, id, owner, leaseMicros);
    case FinalizeEvent(id, locked) =>
      FinalizeCandidateStays(db, m, maxAttempts, locked, id);
      FinalizeCommutes(db, m, id);
    case ResolveEvent(r) =>
      AcceptedSame(db, m, r);
      if Accepted(db, r) {
        ResolveCommutes(db, m, r);
      }
  }

  lemma TickCommutes(db: Db, m: Manifest, elapsed: nat)
    ensures ErasedDb(db.(now := db.now + elapsed), m) == ErasedDb(db, m).(now := db.now + elapsed)
    ensures ErasedDb(db, m).now == db.now
  {
  }

  /** The same activity as it looks without the fixture: sign-ins and work on the fixture's operation leave no
      trace, everything else happens as it would have. */
  predicate Mirrors(maxAttempts: nat, m: Manifest, t: Site, a: Activity, t': Site) {
    match a
    case Work(e) =>
      if Concerns(m, e) then t' == t else Next(maxAttempts, t.db, e, t'.db) && t' == t.(db := t'.db)
    case SignIn(_, _, _) => t' == t
    case Refusal(audit) => t' == t.(audits := t.audits[audit := None])
  }

  lemma PlacedIsApart(s: Site, m: Manifest)
    requires InPlace(s, m)
    ensures Apart(s.db, m)
  {
  }

  lemma RefusalErases(m: Manifest, s: Site, a: Activity, s': Site)
    requires a.Refusal? && Goes(0, m, s, a, s')
    ensures Erased(s', m) == Erased(s, m).(audits := Erased(s, m).audits[a.audit := None])
  {
    hide PrincipalIds, ErasedDb, OtherGrants, OtherSessions;
    assert OtherAudits(s'.audits, PrincipalIds(m)) == OtherAudits(s.audits, PrincipalIds(m))[a.audit := None];
  }

  lemma ConcernErases(maxAttempts: nat, m: Manifest, s: Site, a: Activity, s': Site)
    requires InPlace(s, m) && a.Work? && Concerns(m, a.event) && Goes(maxAttempts, m, s, a, s')
    ensures Erased(s', m) == Erased(s, m)
  {
    hide InPlace, Erased;
    ActivityErases(maxAttempts, m, s, a, s');
    ClockStays(maxAttempts, s.db, a.event, s'.db);
    ErasedClock(s, m);
  }

  lemma ClockStays(maxAttempts: nat, db: Db, e: Event, db': Db)
    requires Next(maxAttempts, db, e, db') && !e.Tick?
    ensures db'.now == db.now
  {
  }

  lemma ErasedClock(s: Site, m: Manifest)
    ensures Erased(s, m).db.now == s.db.now
  {
  }

  lemma ActivityMirrors(maxAttempts: nat, m: Manifest, s: Site, a: Activity, s': Site)
    requires InPlace(s, m) && Goes(maxAttempts, m, s, a, s')
    ensures Mirrors(maxAttempts, m, Erased(s, m), a, Erased(s', m))
  {
    hide InPlace, Next, ErasedDb, OtherGrants, OtherSessions, OtherAudits, PrincipalIds;
    match a
    case Work(e) =>
      if Concerns(m, e) {
        ConcernErases(maxAttempts, m, s, a, s');
      } else {
        PlacedIsApart(s, m);
        OtherWorkCommutes(maxAttempts, m, s.db, e, s'.db);
      }
    case SignIn(_, _, _) => SignInErases(m, s, a, s');
    case Refusal(_) => RefusalErases(m, s, a, s');
  }

  /** The fixture is applied to a clean database whose other work goes on. */
  ghost predicate UseAmong(maxAttempts: nat, m: Manifest, clean: Site, ss: seq<Site>, acts: seq<Activity>) {
    && ValidManifest(m) && SiteFits(clean) && NoFootprint(clean, m)
    && |ss| == |acts| + 1 && ss[0] == Inserted(clean, m)
    && forall i :: 0 <= i < |acts| ==> Goes(maxAttempts, m, ss[i], acts[i], ss[i + 1])
  }

  /**
   The round trip among other work: the fixture always verifies and may be removed, and what removal leaves is
   the clean database moved by the same activities, step for step, as if the fixture had never been there.
   */
  lemma {:induction false} RoundTripAmong(maxAttempts: nat, m: Manifest, clean: Site, ss: seq<Site>,
                                          acts: seq<Activity>, k: nat)
    requires UseAmong(maxAttempts, m, clean, ss, acts) && k < |ss|
    ensures InPlace(ss[k], m) && Inserted(ss[k], m) == ss[k]
    ensures Erased(ss[0], m) == clean
    ensures forall i :: 0 <= i < k ==> Mirrors(maxAttempts, m, Erased(ss[i], m), acts[i], Erased(ss[i + 1], m))
  {
    hide InPlace, Goes, Erased, Inserted, NoFootprint, SiteFits, ValidManifest, Mirrors;
    ApplyFresh(clean, m);
    if k > 0 {
      RoundTripAmong(maxAttempts, m, clean, ss, acts, k - 1);
      ActivityKeepsInPlace(maxAttempts, m, ss[k - 1], acts[k - 1], ss[k]);
      ActivityMirrors(maxAttempts, m, ss[k - 1], acts[k - 1], ss[k]);
    }
    PlacedVerifies(ss[k], m);
    ApplyAgain(ss[k], m);
  }

  lemma ErasedDbFits(db: Db, m: Manifest)
    requires DbFits(db) && DbVerified(db, m)
    requires forall d :: d in db.domains && db.domains[d].tenant == m.tenant ==> d == m.domain
    requires forall x :: x in db.mailboxes && db.mailboxes[x].tenant == m.tenant ==> x in MailboxIds(m)
    requires forall o :: o in db.operations && db.operations[o].tenant == m.tenant ==> o == m.operation
    ensures DbFits(ErasedDb(db, m))
  {
    var e := ErasedDb(db, m);
    forall x | x in e.mailboxes ensures DomainJoined(e, e.mailboxes[x]) {
      assert DomainJoined(db, db.mailboxes[x]);
    }
    assert EventsFit(e);
  }

  /** Removing the fixture breaks no foreign key. */
  lemma ErasedFits(s: Site, m: Manifest)
    requires InPlace(s, m)
    ensures SiteFits(Erased(s, m))
  {
    ErasedDbFits(s.db, m);
    hide DbFits, DbVerified, GrantsVerified, PrincipalsVerified;
    ErasedPeopleFit(s, m);
  }

  lemma ErasedPeopleFit(s: Site, m: Manifest)
    requires PeopleFit(s) && InScope(s, m) && (forall x :: x in MailboxIds(m) ==> x in s.db.mailboxes)
    requires forall x :: x in MailboxIds(m) ==> s.db.mailboxes[x].tenant == m.tenant
    ensures PeopleFit(Erased(s, m))
  {
    var e := Erased(s, m);
    forall p | p in e.principals ensures PrincipalFits(e.db, e.principals[p]) {
      assert PrincipalFits(s.db, s.principals[p]);
    }
    hide PrincipalFits, ErasedDb;
  }

  // ----------------------------------------------------------------- the two transactions

  datatype Outcome = Done(changed: bool) | Refused | Unavailable

  function Answered(commit: Commit, changed: bool): Outcome { if commit.Committed? then Done(changed) else Unavailable }

  class ControlPlane {
    var site: Site

    constructor (site: Site)
      ensures this.site == site
    {
      this.site := site;
    }

    /** Inserts what is missing and commits if the whole fixture then verifies; otherwise, and if the commit fails,
        nothing changes.  A commit whose reply is lost has inserted it and answers with an error. */
    method Apply(m: Manifest, commit: Commit) returns (r: Outcome)
      modifies this
      ensures if ValidManifest(m) && Verified(Inserted(old(site), m), m)
              then && site == (if commit.RolledBack? then old(site) else Inserted(old(site), m))
                   && r == Answered(commit, Inserted(old(site), m) != old(site))
              else site == old(site) && r == Refused
    {
      hide Verified, ValidManifest;
      if !ValidManifest(m) {
        return Refused;
      }
      var s := site;
      var changed := m.tenant !in s.db.tenants || m.tenant !in s.names;
      s := s.(db := s.db.(tenants := Put(s.db.tenants, m.tenant, true, false)),
              names := Put(s.names, m.tenant, m.tenantName, false));
      var domains := Put(s.db.domains, m.domain, Domain(m.tenant, m.domainName, true),
                         NameTaken(s.db.domains, m.domainName));
      changed := changed || domains != s.db.domains;
      var mailboxes := PutMailbox(s.db.mailboxes, m, m.active);
      mailboxes := PutMailbox(mailboxes, m, m.suspended);
      changed := changed || mailboxes != s.db.mailboxes;
      var operations := Put(s.db.operations, m.operation, FixtureOperation(m, s.db.now),
                            KeyTaken(s.db.operations, m.tenant, m.key));
      changed := changed || operations != s.db.operations;
      var outbox := Put(s.db.outbox, m.operation, OutboxEvent(m.event, m.tenant, EventPending, 0, None),
                        EventTaken(s.db.outbox, m.event));
      changed := changed || outbox != s.db.outbox;
      var principals := InsertedPrincipals(s.principals, m);
      changed := changed || principals != s.principals;
      var permissions := s.permissions + Grants(m);
      changed := changed || permissions != s.permissions;
      s := s.(db := s.db.(domains := domains, mailboxes := mailboxes, operations := operations, outbox := outbox),
              principals := principals, permissions := permissions);
      if !Verified(s, m) {
        return Refused;
      }
      if !commit.RolledBack? {
        site := s;
      }
      return Answered(commit, changed);
    }

    /** Deletes the fixture if it is whole and alone in its tenant; a clean database is left alone. */
    method Remove(m: Manifest, commit: Commit) returns (r: Outcome)
      requires SiteFits(site)
      modifies this
      ensures if ValidManifest(m) && NoFootprint(old(site), m) then site == old(site) && r == Answered(commit, false)
              else if ValidManifest(m) && Verified(old(site), m) && InScope(old(site), m)
              then && site == (if commit.RolledBack? then old(site) else Erased(old(site), m))
                   && r == Answered(commit, true)
              else site == old(site) && r == Refused
    {
      if !ValidManifest(m) {
        return Refused;
      }
      if NoFootprint(site, m) {
        return Answered(commit, false);
      }
      if !Verified(site, m) || !InScope(site, m) {
        return Refused;
      }
      var s := Erased(site, m);
      RowCounts(site, m);
      if |site.permissions| - |s.permissions| != 2 || |site.principals| - |s.principals| != 4
         || |site.db.outbox| - |s.db.outbox| != 1 || |site.db.operations| - |s.db.operations| != 1
         || |site.db.mailboxes| - |s.db.mailboxes| != 2 || |site.db.domains| - |s.db.domains| != 1
         || |site.db.tenants| - |s.db.tenants| != 1 {
        return Refused;
      }
      if !commit.RolledBack? {
        site := s;
      }
      return Answered(commit, true);
    }
  }

  lemma DropCount<V>(t: map<Uuid, V>, ids: set<Uuid>)
    requires ids <= t.Keys
    ensures |t| - |t - ids| == |ids|
  {
    assert t.Keys == (t - ids).Keys + ids;
    assert |t.Keys| == |t| && |(t - ids).Keys| == |t - ids|;
  }

  /** Every DELETE of a whole fixture affects exactly the rows it expects. */
  lemma RowCounts(s: Site, m: Manifest)
    requires ValidManifest(m) && SiteFits(s) && Verified(s, m)
    ensures var e := Erased(s, m);
            && |s.permissions| - |e.permissions| == 2 && |s.principals| - |e.principals| == 4
            && |s.db.outbox| - |e.db.outbox| == 1 && |s.db.operations| - |e.db.operations| == 1
            && |s.db.mailboxes| - |e.db.mailboxes| == 2 && |s.db.domains| - |e.db.domains| == 1
            && |s.db.tenants| - |e.db.tenants| == 1
  {
    PeopleCounts(s, m);
    EventCount(s.db, m);
    DbCounts(s.db, m);
    hide DbFits, PeopleFit, PrincipalsVerified, GrantsVerified, DbVerified, OtherEvents, OtherGrants, ValidManifest,
      PrincipalIds, MailboxIds;
  }

  lemma DbCounts(db: Db, m: Manifest)
    requires ValidManifest(m) && DbVerified(db, m)
    ensures |db.operations| - |db.operations - {m.operation}| == 1 && |db.tenants| - |db.tenants - {m.tenant}| == 1
    ensures |db.domains| - |db.domains - {m.domain}| == 1 && |db.mailboxes| - |db.mailboxes - MailboxIds(m)| == 2
  {
    hide SameIntent;
    DropCount(db.tenants, {m.tenant});
    DropCount(db.domains, {m.domain});
    DropCount(db.operations, {m.operation});
    DropCount(db.mailboxes, MailboxIds(m));
  }

  lemma PeopleCounts(s: Site, m: Manifest)
    requires ValidManifest(m) && PrincipalsVerified(s.principals, m) && GrantsVerified(s.permissions, m)
    ensures |s.principals| - |s.principals - PrincipalIds(m)| == 4
    ensures |s.permissions| - |OtherGrants(s.permissions, PrincipalIds(m))| == 2
  {
    DropCount(s.principals, PrincipalIds(m));
    assert |PrincipalIds(m)| == 4;
    assert s.permissions == OtherGrants(s.permissions, PrincipalIds(m)) + Grants(m);
    assert OtherGrants(s.permissions, PrincipalIds(m)) !! Grants(m);
    assert |Grants(m)| == 2;
  }

  lemma EventCount(db: Db, m: Manifest)
    requires EventsFit(db) && m.operation in db.outbox && db.outbox[m.operation].id == m.event
    ensures |db.outbox| - |OtherEvents(db.outbox, m.event)| == 1
  {
    assert OtherEvents(db.outbox, m.event) == db.outbox - {m.operation};
    DropCount(db.outbox, {m.operation});
  }
}
