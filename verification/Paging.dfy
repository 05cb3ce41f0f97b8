/** Reading a mailbox page by page: read tokens, one page, and what following the cursors yields. */
module Paging {
  import opened Types
  import opened MailCore

  const MAXIMUM_PAGE_SIZE := 50
  const MAXIMUM_PAGE_POSITION := 10000
  const SECOND := 1_000_000_000
  const CURSOR_LIFETIME := 600
  const REFERENCE_LIFETIME := 900

  // ----------------------------------------------------------------- tokens

  datatype Scope = Scope(mailbox: Uuid, domain: Uuid, address: string, revision: int, hash: Hash, deadline: Time)

  datatype Purpose = CursorPurpose | MessagePurpose | AttachmentPurpose

  datatype ReadToken = ReadToken(
    purpose: Purpose,
    mailbox: Uuid,
    domain: Uuid,
    revision: int,
    hash: Hash,
    expiresAt: nat,
    messageId: string,
    queryState: string,
    position: int)

  /** What a caller presents: nothing, a token this service sealed, or any other text.  Authenticated
      encryption is taken to be unforgeable, so a sealed token stands for its content. */
  datatype Opaque = Blank | Sealed(token: ReadToken) | Forged

  function UnixSeconds(now: Time): nat { now / SECOND }

  function NewToken(scope: Scope, purpose: Purpose, lifetime: nat, now: Time): ReadToken {
    ReadToken(purpose, scope.mailbox, scope.domain, scope.revision, scope.hash, UnixSeconds(now) + lifetime, "", "", 0)
  }

  /** The token was sealed for this purpose and this exact mailbox configuration, and has not expired. */
  predicate Opens(raw: Opaque, scope: Scope, purpose: Purpose, now: Time) {
    && raw.Sealed? && raw.token.purpose == purpose
    && raw.token.mailbox == scope.mailbox && raw.token.domain == scope.domain
    && raw.token.revision == scope.revision && raw.token.hash == scope.hash
    && UnixSeconds(now) < raw.token.expiresAt
  }

  predicate ValidScope(scope: Scope) {
    && scope.mailbox != NIL && scope.domain != NIL && scope.revision > 0 && scope.deadline != 0
    && ValidAddress(scope.address)
  }

  // ----------------------------------------------------------------- one page

  /** `content` stands for the fields that are passed through. */
  datatype Email = Email(id: string, dated: bool, size: int, content: string)

  datatype Summary = Summary(reference: ReadToken, email: Email)

  datatype QueryReply = QueryReply(ids: seq<string>, queryState: string, position: int)
  datatype GetReply = GetReply(list: seq<Email>, notFound: seq<string>)

  datatype Failure = ConfigurationInvalid | CursorInvalid | ProtocolInvalid | Unreachable

  datatype ListReply = Page(messages: seq<Summary>, next: Opaque) | Failed(failure: Failure)

  predicate ValidCursor(scope: Scope, cursor: Opaque, now: Time) {
    Opens(cursor, scope, CursorPurpose, now)
    && 0 < cursor.token.position <= MAXIMUM_PAGE_POSITION && cursor.token.queryState != ""
  }

  function PositionOf(cursor: Opaque): int { if cursor.Sealed? then cursor.token.position else 0 }

  /** The request may be sent. */
  predicate Askable(scope: Scope, limit: int, cursor: Opaque, now: Time) {
    && ValidScope(scope) && 1 <= limit <= MAXIMUM_PAGE_SIZE
    && (cursor.Blank? || ValidCursor(scope, cursor, now))
    && PositionOf(cursor) + limit <= MAXIMUM_PAGE_POSITION
  }

  /** The server's query reply fits the request and the version the cursor was made for. */
  predicate Fitting(limit: int, cursor: Opaque, q: QueryReply) {
    && q.queryState != "" && q.position == PositionOf(cursor) && |q.ids| <= limit + 1
    && (cursor.Sealed? ==> cursor.token.queryState == q.queryState)
  }

  function Shown(limit: nat, ids: seq<string>): seq<string> { if |ids| > limit then ids[..limit] else ids }

  predicate Distinct(list: seq<Email>) {
    && (forall i :: 0 <= i < |list| ==> list[i].id != "")
    && (forall i, j :: 0 <= i < j < |list| ==> list[i].id != list[j].id)
  }

  predicate ValidEmail(email: Email) { email.id != "" && email.dated && email.size >= 0 }

  predicate Delivers(list: seq<Email>, id: string) {
    exists i :: 0 <= i < |list| && list[i].id == id && ValidEmail(list[i])
  }

  /** Email/get answered for exactly the ids asked for. */
  predicate Complete(ids: seq<string>, g: GetReply) {
    && |g.list| + |g.notFound| == |ids|
    && (|g.notFound| > 0 ==> |ids| == 1 && g.notFound[0] == ids[0])
    && Distinct(g.list)
    && forall k :: 0 <= k < |ids| ==> Delivers(g.list, ids[k])
  }

  function Reference(scope: Scope, id: string, now: Time): ReadToken {
    NewToken(scope, MessagePurpose, REFERENCE_LIFETIME, now).(messageId := id)
  }

  /** The page lists the shown ids in order, each with the email fetched for it. */
  predicate Lists(scope: Scope, now: Time, ids: seq<string>, list: seq<Email>, messages: seq<Summary>) {
    && |messages| == |ids|
    && forall k :: 0 <= k < |ids| ==>
         messages[k].reference == Reference(scope, ids[k], now)
         && messages[k].email.id == ids[k] && messages[k].email in list && ValidEmail(messages[k].email)
  }

  function CursorTo(scope: Scope, now: Time, state: string, position: int): Opaque {
    Sealed(NewToken(scope, CursorPurpose, CURSOR_LIFETIME, now).(queryState := state, position := position))
  }

  /**
   One page, against any server.  A page is returned exactly when the request, the query reply and the
   fetched emails all check out; it then shows the queried ids in order, and a cursor exactly when the
   server reported more.  A cursor made for another version of the mailbox is refused.
   */
  predicate Answered(scope: Scope, limit: int, cursor: Opaque, now: Time, query: Option<QueryReply>,
                     fetched: Option<GetReply>, seals: bool, reply: ListReply)
  {
    && (reply.Page? <==>
          && Askable(scope, limit, cursor, now)
          && query.Some? && Fitting(limit, cursor, query.value)
          && (query.value.ids != [] ==>
                seals && fetched.Some? && Complete(Shown(limit, query.value.ids), fetched.value)))
    && (reply.Page? && query.value.ids != [] ==>
          Lists(scope, now, Shown(limit, query.value.ids), fetched.value.list, reply.messages))
    && (reply.Page? && query.value.ids == [] ==> reply.messages == [])
    && (reply.Page? ==>
          reply.next ==
            if |query.value.ids| > limit
            then CursorTo(scope, now, query.value.queryState, PositionOf(cursor) + limit)
            else Blank)
    && (!Askable(scope, limit, cursor, now) ==> reply == Failed(Refusal(scope, limit)))
    && (Askable(scope, limit, cursor, now) && query.Some? && Stale(limit, cursor, query.value) ==>
          reply == Failed(CursorInvalid))
  }

  function Refusal(scope: Scope, limit: int): Failure {
    if !ValidScope(scope) || !(1 <= limit <= MAXIMUM_PAGE_SIZE) then ConfigurationInvalid else CursorInvalid
  }

  /** The reply is sound in itself but the mailbox has changed since the cursor was made. */
  predicate Stale(limit: int, cursor: Opaque, q: QueryReply) {
    && q.queryState != "" && q.position == PositionOf(cursor) && |q.ids| <= limit + 1
    && cursor.Sealed? && cursor.token.queryState != q.queryState
  }

  method ListMessages(scope: Scope, limit: int, cursor: Opaque, now: Time,
                      query: Option<QueryReply>, fetched: Option<GetReply>, seals: bool)
    returns (reply: ListReply)
    ensures Answered(scope, limit, cursor, now, query, fetched, seals, reply)
  {
    hide ValidAddress;
    if !ValidScope(scope) || limit < 1 || limit > MAXIMUM_PAGE_SIZE {
      return Failed(ConfigurationInvalid);
    }
    var position, previousState := 0, "";
    if !cursor.Blank? {
      if !ValidCursor(scope, cursor, now) {
        return Failed(CursorInvalid);
      }
      position, previousState := cursor.token.position, cursor.token.queryState;
    }
    if position + limit > MAXIMUM_PAGE_POSITION {
      return Failed(CursorInvalid);
    }
    if query.None? {
      return Failed(Unreachable);
    }
    var q := query.value;
    if q.queryState == "" || q.position != position || |q.ids| > limit + 1 {
      return Failed(ProtocolInvalid);
    }
    if previousState != "" && previousState != q.queryState {
      return Failed(CursorInvalid);
    }
    var ids := Shown(limit, q.ids);
    var messages := [];
    if |ids| > 0 {
      if fetched.None? {
        return Failed(Unreachable);
      }
      var failure;
      messages, failure := Gather(scope, now, ids, fetched.value, seals);
      if failure.Some? {
        return Failed(failure.value);
      }
    }
    var next := Blank;
    if |q.ids| > limit {
      next := CursorTo(scope, now, q.queryState, position + |ids|);
    }
    return Page(messages, next);
  }

  /**
   Every message of a page carries a reference that names it and opens, for message reads only, under the same mailbox
   configuration for 900 seconds; the cursor opens for list requests only, for 600 seconds, and continues after the
   messages shown in the version that was listed.
   */
  lemma ListedOpens(scope: Scope, limit: int, cursor: Opaque, now: Time, query: Option<QueryReply>,
                    fetched: Option<GetReply>, seals: bool, reply: ListReply, other: Scope, purpose: Purpose, later: Time)
    requires Answered(scope, limit, cursor, now, query, fetched, seals, reply) && reply.Page?
    ensures forall k | 0 <= k < |reply.messages| ::
              && reply.messages[k].reference.messageId == reply.messages[k].email.id
              && (Opens(Sealed(reply.messages[k].reference), other, purpose, later) <==>
                    purpose == MessagePurpose && SameMailbox(scope, other)
                    && later / 1_000_000_000 < now / 1_000_000_000 + 900)
    ensures !reply.next.Forged?
    ensures reply.next.Sealed? ==>
              && query.Some? && reply.next.token.queryState == query.value.queryState
              && reply.next.token.position ==
                   (if cursor.Sealed? then cursor.token.position else 0) + |reply.messages|
              && (Opens(reply.next, other, purpose, later) <==>
                    purpose == CursorPurpose && SameMailbox(scope, other)
                    && later / 1_000_000_000 < now / 1_000_000_000 + 600)
  {
    hide ValidScope, ValidCursor, Fitting, Complete;
  }

  /** What a page rests on: a complete request within the limits, and an email fetched for every id shown. */
  lemma PageIsSound(scope: Scope, limit: int, cursor: Opaque, now: Time, query: Option<QueryReply>,
                    fetched: Option<GetReply>, seals: bool, reply: ListReply)
    requires Answered(scope, limit, cursor, now, query, fetched, seals, reply) && reply.Page?
    ensures scope.mailbox != NIL && scope.domain != NIL && scope.revision > 0 && scope.deadline != 0
    ensures 1 <= limit <= 50 && |reply.messages| <= limit && query.Some?
    ensures |reply.messages| == if |query.value.ids| < limit then |query.value.ids| else limit
    ensures forall k | 0 <= k < |reply.messages| ::
              && reply.messages[k].email.id == query.value.ids[k] != ""
              && reply.messages[k].email.dated && reply.messages[k].email.size >= 0
    ensures reply.messages != [] ==>
              && fetched.Some? && fetched.value.notFound == [] && |fetched.value.list| == |reply.messages|
              && forall k | 0 <= k < |reply.messages| :: reply.messages[k].email in fetched.value.list
  {
    hide ValidAddress, ValidCursor, Distinct;
  }

  predicate SameMailbox(a: Scope, b: Scope) {
    a.mailbox == b.mailbox && a.domain == b.domain && a.revision == b.revision && a.hash == b.hash
  }

  /** The emails by id, if their ids are present and distinct. */
  method Index(list: seq<Email>) returns (byId: map<string, Email>, ok: bool)
    ensures ok <==> Distinct(list)
    ensures ok ==> forall k :: 0 <= k < |list| ==> list[k].id in byId && byId[list[k].id] == list[k]
    ensures ok ==> forall id :: id in byId ==> byId[id] in list && byId[id].id == id
  {
    byId := map[];
    for i := 0 to |list|
      invariant Distinct(list[..i])
      invariant forall k :: 0 <= k < i ==> list[k].id in byId && byId[list[k].id] == list[k]
      invariant forall id :: id in byId ==> byId[id].id == id && exists k :: 0 <= k < i && list[k] == byId[id]
    {
      var email := list[i];
      if email.id == "" || email.id in byId {
        return byId, false;
      }
      byId := byId[email.id := email];
    }
    assert list[..|list|] == list;
    return byId, true;
  }

  /** getEmails, the index by id, and the summaries in query order. */
  method Gather(scope: Scope, now: Time, ids: seq<string>, g: GetReply, seals: bool)
    returns (messages: seq<Summary>, failure: Option<Failure>)
    requires ids != []
    ensures failure.None? <==> seals && Complete(ids, g)
    ensures failure.None? ==> Lists(scope, now, ids, g.list, messages)
  {
    messages := [];
    if |g.list| + |g.notFound| != |ids| || (|g.notFound| > 0 && (|ids| != 1 || g.notFound[0] != ids[0])) {
      return messages, Some(ProtocolInvalid);
    }
    var byId, ok := Index(g.list);
    if !ok {
      return messages, Some(ProtocolInvalid);
    }
    hide Distinct;
    for k := 0 to |ids|
      invariant Lists(scope, now, ids[..k], g.list, messages)
      invariant k > 0 ==> seals
      invariant forall m :: 0 <= m < k ==> Delivers(g.list, ids[m])
    {
      if ids[k] !in byId {
        return messages, Some(CursorInvalid);
      }
      var email := byId[ids[k]];
      if !ValidEmail(email) || !seals {
        return messages, Some(ProtocolInvalid);
      }
      messages := messages + [Summary(Reference(scope, ids[k], now), email)];
    }
    assert ids[..|ids|] == ids;
    return messages, None;
  }

  // ----------------------------------------------------------------- an honest server

  /** A mailbox as a plain list, newest first, under one query state. */
  datatype Box = Box(emails: seq<Email>, state: string)

  predicate ValidBox(box: Box) {
    && Distinct(box.emails) && box.state != ""
    && forall i :: 0 <= i < |box.emails| ==> ValidEmail(box.emails[i])
  }

  function Slice(list: seq<Email>, position: nat, count: nat): seq<Email> {
    if position >= |list| then []
    else if position + count >= |list| then list[position..]
    else list[position..position + count]
  }

  function Ids(list: seq<Email>): seq<string> { seq(|list|, i requires 0 <= i < |list| => list[i].id) }

  /** The server returns the requested slice of the list, and the emails behind it in any order. */
  predicate Honest(box: Box, position: nat, limit: nat, q: QueryReply, g: GetReply) {
    && q == QueryReply(Ids(Slice(box.emails, position, limit + 1)), box.state, position)
    && g.notFound == [] && multiset(g.list) == multiset(Slice(box.emails, position, limit))
  }

  function Summaries(scope: Scope, now: Time, emails: seq<Email>): seq<Summary> {
    seq(|emails|, i requires 0 <= i < |emails| => Summary(Reference(scope, emails[i].id, now), emails[i]))
  }

  /** The page of the plain list. */
  function PageOf(box: Box, scope: Scope, limit: int, cursor: Opaque, now: Time): ListReply {
    if !Askable(scope, limit, cursor, now) then Failed(Refusal(scope, limit))
    else if cursor.Sealed? && cursor.token.queryState != box.state then Failed(CursorInvalid)
    else
      var position := PositionOf(cursor);
      Page(Summaries(scope, now, Slice(box.emails, position, limit)),
           if position + limit < |box.emails| then CursorTo(scope, now, box.state, position + limit) else Blank)
  }

  lemma SameElements(a: seq<Email>, b: seq<Email>)
    requires multiset(a) == multiset(b)
    ensures |a| == |b| && forall x :: x in a <==> x in b
  {
    assert |a| == |multiset(a)| == |multiset(b)| == |b|;
    forall x ensures x in a <==> x in b {
      assert x in multiset(a) <==> x in multiset(b);
    }
  }

  lemma DistinctHasNoRepeats(list: seq<Email>, i: nat, j: nat)
    requires Distinct(list) && i < |list| && j < |list| && list[i].id == list[j].id
    ensures i == j
  {
  }

  /** A reordering of distinct emails is distinct. */
  lemma {:induction false} ReorderedDistinct(a: seq<Email>, b: seq<Email>)
    requires multiset(a) == multiset(b) && Distinct(b)
    ensures Distinct(a)
  {
    SameElements(a, b);
    forall i | 0 <= i < |a| ensures a[i].id != "" { assert a[i] in b; }
    forall i, j | 0 <= i < j < |a| ensures a[i].id != a[j].id {
      if a[i].id == a[j].id {
        assert a[i] in b && a[j] in b;
        assert a[i] == a[j];
        assert a == a[..j] + [a[j]] + a[j + 1..];
        assert multiset(a)[a[i]] >= 2;
        SingleInDistinct(b, a[i]);
      }
    }
  }

  lemma {:induction false} SingleInDistinct(b: seq<Email>, x: Email)
    requires Distinct(b)
    ensures multiset(b)[x] <= 1
  {
    if b != [] {
      var n := |b| - 1;
      SingleInDistinct(b[..n], x);
      assert b == b[..n] + [b[n]];
      if b[n] == x {
        assert x !in b[..n];
      }
    }
  }

  lemma SliceDistinct(box: Box, position: nat, count: nat)
    requires ValidBox(box)
    ensures var part := Slice(box.emails, position, count);
            Distinct(part) && forall i :: 0 <= i < |part| ==> ValidEmail(part[i])
  {
  }

  /** The shown ids are those of the slice, and the emails fetched for them are the slice itself. */
  lemma ListsTheSlice(scope: Scope, now: Time, part: seq<Email>, list: seq<Email>, messages: seq<Summary>)
    requires Distinct(part) && multiset(list) == multiset(part) && Lists(scope, now, Ids(part), list, messages)
    ensures messages == Summaries(scope, now, part)
  {
    SameElements(list, part);
    forall k | 0 <= k < |part| ensures messages[k] == Summaries(scope, now, part)[k] {
      assert messages[k].email in part;
      var j :| 0 <= j < |part| && part[j] == messages[k].email;
      DistinctHasNoRepeats(part, j, k);
    }
  }

  lemma ShownIds(emails: seq<Email>, position: nat, limit: nat)
    requires limit > 0
    ensures Shown(limit, Ids(Slice(emails, position, limit + 1))) == Ids(Slice(emails, position, limit))
    ensures |Slice(emails, position, limit + 1)| > limit <==> position + limit < |emails|
    ensures Ids(Slice(emails, position, limit + 1)) == [] <==> Slice(emails, position, limit) == []
  {
  }

  lemma SliceIsComplete(part: seq<Email>, g: GetReply)
    requires Distinct(part) && (forall i :: 0 <= i < |part| ==> ValidEmail(part[i]))
    requires g.notFound == [] && multiset(g.list) == multiset(part)
    ensures Complete(Ids(part), g)
  {
    SameElements(g.list, part);
    ReorderedDistinct(g.list, part);
    forall k | 0 <= k < |part| ensures Delivers(g.list, Ids(part)[k]) {
      assert part[k] in g.list;
    }
  }

  /** Against an honest server the adapter returns the page of the plain list. */
  lemma HonestPage(box: Box, scope: Scope, limit: int, cursor: Opaque, now: Time,
                   q: QueryReply, g: GetReply, reply: ListReply)
    requires ValidBox(box) && Answered(scope, limit, cursor, now, Some(q), Some(g), true, reply)
    requires Askable(scope, limit, cursor, now) ==> Honest(box, PositionOf(cursor), limit, q, g)
    ensures reply == PageOf(box, scope, limit, cursor, now)
  {
    hide Askable, Distinct, Complete, Lists, CursorTo;
    if Askable(scope, limit, cursor, now) {
      var position := AskedPosition(scope, limit, cursor, now);
      var part := Slice(box.emails, position, limit);
      SliceDistinct(box, position, limit);
      ShownIds(box.emails, position, limit);
      SliceIsComplete(part, g);
      if reply.Page? && part != [] {
        ListsTheSlice(scope, now, part, g.list, reply.messages);
      }
    }
  }

  lemma AskedPosition(scope: Scope, limit: int, cursor: Opaque, now: Time) returns (position: nat)
    requires Askable(scope, limit, cursor, now)
    ensures position == PositionOf(cursor) && 0 < limit && position + limit <= MAXIMUM_PAGE_POSITION
  {
    position := PositionOf(cursor);
  }

  // ----------------------------------------------------------------- following the cursors

  datatype Visit = Visit(limit: int, now: Time)

  function CursorFor(rs: seq<ListReply>, k: nat): Opaque
    requires k <= |rs|
  {
    if k == 0 then Blank else if rs[k - 1].Page? then rs[k - 1].next else Forged
  }

  /** A reader asks for the first page and then follows each cursor, with any limits. */
  ghost predicate Walk(box: Box, scope: Scope, vs: seq<Visit>, rs: seq<ListReply>) {
    && ValidBox(box) && ValidScope(scope) && |vs| == |rs|
    && (forall k :: 0 < k < |rs| ==> CursorFor(rs, k).Sealed?)
    && (forall k :: 0 <= k < |rs| ==> rs[k] == PageOf(box, scope, vs[k].limit, CursorFor(rs, k), vs[k].now))
  }

  function EmailsOf(messages: seq<Summary>): seq<Email> {
    seq(|messages|, i requires 0 <= i < |messages| => messages[i].email)
  }

  /** Everything the first `k` pages showed. */
  function Read(rs: seq<ListReply>, k: nat): seq<Email>
    requires k <= |rs|
  {
    if k == 0 then [] else Read(rs, k - 1) + (if rs[k - 1].Page? then EmailsOf(rs[k - 1].messages) else [])
  }

  /** After `k` pages the reader has a prefix of the list, and the next cursor points at its end. */
  ghost predicate Reached(box: Box, scope: Scope, vs: seq<Visit>, rs: seq<ListReply>, k: nat)
    requires k <= |rs| == |vs|
  {
    && |Read(rs, k)| <= |box.emails| && Read(rs, k) == box.emails[..|Read(rs, k)|]
    && (k > 0 && CursorFor(rs, k).Blank? ==> Read(rs, k) == box.emails)
    && (k > 0 && CursorFor(rs, k).Sealed? ==>
          0 < |Read(rs, k)| < |box.emails|
          && CursorFor(rs, k) == CursorTo(scope, vs[k - 1].now, box.state, |Read(rs, k)|))
  }

  lemma PageExtends(box: Box, scope: Scope, limit: int, cursor: Opaque, now: Time, before: seq<Email>)
    requires ValidBox(box) && Askable(scope, limit, cursor, now) && PageOf(box, scope, limit, cursor, now).Page?
    requires |before| == PositionOf(cursor) <= |box.emails| && before == box.emails[..|before|]
    ensures var page := PageOf(box, scope, limit, cursor, now);
            var after := before + EmailsOf(page.messages);
            && |after| <= |box.emails| && after == box.emails[..|after|]
            && (if |before| + limit < |box.emails|
                then |after| == |before| + limit && page.next == CursorTo(scope, now, box.state, |after|)
                else after == box.emails && page.next.Blank?)
  {
    hide Askable, CursorTo;
    var position := AskedPosition(scope, limit, cursor, now);
    var part := Slice(box.emails, position, limit);
    assert EmailsOf(Summaries(scope, now, part)) == part;
    assert before + part == box.emails[..position + |part|];
  }

  /**
   Paging refines the plain list: following the cursors over an unchanged mailbox yields the list in
   order with no gap and no repeat, and stops exactly at its end.
   */
  lemma {:induction false} PagesAreThePrefix(box: Box, scope: Scope, vs: seq<Visit>, rs: seq<ListReply>, k: nat)
    requires Walk(box, scope, vs, rs) && k <= |rs|
    requires k > 0 ==> rs[k - 1].Page?
    ensures Reached(box, scope, vs, rs, k)
    ensures k > 0 ==> |rs[k - 1].messages| <= vs[k - 1].limit
    ensures k > 0 && CursorFor(rs, k).Sealed? ==> |Read(rs, k)| == |Read(rs, k - 1)| + vs[k - 1].limit
    ensures k > 0 ==> |Read(rs, k)| <= MAXIMUM_PAGE_POSITION
  {
    if k > 0 {
      assert k - 1 > 0 ==> CursorFor(rs, k - 1).Sealed?;
      PagesAreThePrefix(box, scope, vs, rs, k - 1);
      var visit, cursor, before := vs[k - 1], CursorFor(rs, k - 1), Read(rs, k - 1);
      assert rs[k - 1] == PageOf(box, scope, visit.limit, cursor, visit.now);
      PageExtends(box, scope, visit.limit, cursor, visit.now, before);
      hide Walk, PageOf, ValidBox, ValidScope, ValidCursor;
      assert Read(rs, k) == before + EmailsOf(rs[k - 1].messages);
      assert visit.limit >= 1 && |before| + visit.limit <= MAXIMUM_PAGE_POSITION;
    }
  }

  /** The next page is granted exactly when the cursor is fresh, the limit allowed, and the page lies
      within the first 10000 messages. */
  lemma FollowedIff(box: Box, scope: Scope, vs: seq<Visit>, rs: seq<ListReply>, k: nat)
    requires Walk(box, scope, vs, rs) && k < |rs|
    ensures rs[k].Page? <==>
              && 1 <= vs[k].limit <= 50
              && |Read(rs, k)| + vs[k].limit <= 10000
              && (k > 0 ==> vs[k].now / 1_000_000_000 < vs[k - 1].now / 1_000_000_000 + 600)
  {
    assert k > 0 ==> CursorFor(rs, k).Sealed?;
    PagesAreThePrefix(box, scope, vs, rs, k);
  }

  /** The replies the adapter gave along the walk, each to the query and get replies `qs` and `gs` of an honest server. */
  ghost predicate Served(box: Box, scope: Scope, vs: seq<Visit>, rs: seq<ListReply>, qs: seq<QueryReply>, gs: seq<GetReply>) {
    && ValidBox(box) && ValidScope(scope) && |vs| == |rs| == |qs| == |gs|
    && (forall k :: 0 < k < |rs| ==> CursorFor(rs, k).Sealed?)
    && (forall k :: 0 <= k < |rs| ==> ServedAt(box, scope, vs[k], CursorFor(rs, k), qs[k], gs[k], rs[k]))
  }

  ghost predicate ServedAt(box: Box, scope: Scope, visit: Visit, cursor: Opaque, q: QueryReply, g: GetReply, r: ListReply) {
    && Answered(scope, visit.limit, cursor, visit.now, Some(q), Some(g), true, r)
    && (Askable(scope, visit.limit, cursor, visit.now) ==> Honest(box, PositionOf(cursor), visit.limit, q, g))
  }

  /** What ListMessages answers along the cursors of an unchanged mailbox is the list in order, with no gap and no
      repeat; its last page offers no cursor exactly when everything was shown. */
  lemma ServedPagesAreThePrefix(box: Box, scope: Scope, vs: seq<Visit>, rs: seq<ListReply>,
                                qs: seq<QueryReply>, gs: seq<GetReply>, k: nat)
    requires Served(box, scope, vs, rs, qs, gs) && 0 < k <= |rs| && rs[k - 1].Page?
    ensures Walk(box, scope, vs, rs)
    ensures |Read(rs, k)| <= |box.emails| && Read(rs, k) == box.emails[..|Read(rs, k)|]
    ensures |rs[k - 1].messages| <= vs[k - 1].limit
    ensures CursorFor(rs, k).Blank? <==> Read(rs, k) == box.emails
    ensures CursorFor(rs, k).Sealed? ==> |Read(rs, k)| == |Read(rs, k - 1)| + vs[k - 1].limit
  {
    hide Answered, Askable, Honest, ValidBox, ValidScope, PageOf;
    forall i | 0 <= i < |rs| ensures rs[i] == PageOf(box, scope, vs[i].limit, CursorFor(rs, i), vs[i].now) {
      assert ServedAt(box, scope, vs[i], CursorFor(rs, i), qs[i], gs[i], rs[i]);
      HonestPage(box, scope, vs[i].limit, CursorFor(rs, i), vs[i].now, qs[i], gs[i], rs[i]);
    }
    PagesAreThePrefix(box, scope, vs, rs, k);
    NoForgedCursor(box, scope, vs, rs, k);
  }

  lemma NoForgedCursor(box: Box, scope: Scope, vs: seq<Visit>, rs: seq<ListReply>, k: nat)
    requires Walk(box, scope, vs, rs) && 0 < k <= |rs| && rs[k - 1].Page?
    ensures !CursorFor(rs, k).Forged?
  {
  }

  // ----------------------------------------------------------------- how far a reader can get

  /** The walk ends with a page that offers no further cursor. */
  ghost predicate Finishes(box: Box, scope: Scope, vs: seq<Visit>, rs: seq<ListReply>) {
    Walk(box, scope, vs, rs) && rs != [] && rs[|rs| - 1].Page? && rs[|rs| - 1].next.Blank?
  }

  function CursorBefore(box: Box, scope: Scope, now: Time, k: nat): Opaque {
    if k == 0 then Blank else CursorTo(scope, now, box.state, k)
  }

  /** The page that shows message `k` alone. */
  function Single(box: Box, scope: Scope, now: Time, k: nat): ListReply {
    Page(Summaries(scope, now, Slice(box.emails, k, 1)),
         if k + 1 < |box.emails| then CursorBefore(box, scope, now, k + 1) else Blank)
  }

  lemma SingleIsServed(box: Box, scope: Scope, now: Time, k: nat)
    requires ValidBox(box) && ValidScope(scope) && k < MAXIMUM_PAGE_POSITION
    ensures PageOf(box, scope, 1, CursorBefore(box, scope, now, k), now) == Single(box, scope, now, k)
  {
    hide Summaries, Slice, ValidScope;
  }

  function Singles(box: Box, scope: Scope, now: Time, n: nat): seq<ListReply> {
    seq(n, k requires 0 <= k < n => Single(box, scope, now, k))
  }

  lemma SingleCursor(box: Box, scope: Scope, now: Time, n: nat, k: nat)
    requires 0 < k < n <= |box.emails|
    ensures CursorFor(Singles(box, scope, now, n), k) == CursorBefore(box, scope, now, k)
  {
    hide Summaries, Slice, CursorBefore;
    assert Singles(box, scope, now, n)[k - 1] == Single(box, scope, now, k - 1);
  }

  lemma SinglePage(box: Box, scope: Scope, now: Time, n: nat, k: nat)
    requires ValidBox(box) && ValidScope(scope) && k < n <= MAXIMUM_PAGE_POSITION && (n == 1 || n <= |box.emails|)
    ensures var rs := Singles(box, scope, now, n);
            rs[k] == PageOf(box, scope, 1, CursorFor(rs, k), now) && (k > 0 ==> CursorFor(rs, k).Sealed?)
  {
    hide PageOf, ValidBox, ValidScope, Single;
    var rs := Singles(box, scope, now, n);
    SingleIsServed(box, scope, now, k);
    if k > 0 {
      SingleCursor(box, scope, now, n, k);
    } else {
      assert CursorFor(rs, 0) == CursorBefore(box, scope, now, 0);
    }
  }

  /** Reading one message at a time gets to the end of any mailbox of at most 10000 messages. */
  lemma OneByOne(box: Box, scope: Scope, now: Time) returns (vs: seq<Visit>, rs: seq<ListReply>)
    requires ValidBox(box) && ValidScope(scope) && |box.emails| <= MAXIMUM_PAGE_POSITION
    ensures Finishes(box, scope, vs, rs)
  {
    var n := if |box.emails| == 0 then 1 else |box.emails|;
    vs := seq(n, k => Visit(1, now));
    rs := Singles(box, scope, now, n);
    assert rs[n - 1].Page? && rs[n - 1].next.Blank?;
    hide PageOf, ValidBox, ValidScope, Singles, CursorFor;
    assert |rs| == n;
    assert Walk(box, scope, vs, rs) by {
      forall k | 0 <= k < n
        ensures rs[k] == PageOf(box, scope, vs[k].limit, CursorFor(rs, k), vs[k].now)
                && (k > 0 ==> CursorFor(rs, k).Sealed?)
      {
        SinglePage(box, scope, now, n, k);
      }
    }
    hide Walk;
  }

  /** A mailbox can be read to its end exactly when it holds at most 10000 messages. */
  lemma WholeMailboxIff(box: Box, scope: Scope, now: Time)
    requires ValidBox(box) && ValidScope(scope)
    ensures (exists vs, rs :: Finishes(box, scope, vs, rs)) <==> |box.emails| <= 10000
  {
    hide Walk, PageOf;
    if vs, rs :| Finishes(box, scope, vs, rs) {
      PagesAreThePrefix(box, scope, vs, rs, |rs|);
    }
    if |box.emails| <= MAXIMUM_PAGE_POSITION {
      var vs, rs := OneByOne(box, scope, now);
    }
  }
}
