/**
 The worker: how one claimed attempt is executed and what it reports.  Adapter replies and
 clock readings are inputs; every decision between them is the worker's own.
 */
module Worker {
  import opened Types
  import opened Ledger

  const OUTCOME_UNKNOWN := "MAIL_CORE_OUTCOME_UNKNOWN"
  const NOT_CONVERGED := "MAIL_CORE_NOT_CONVERGED"
  const NEWER_REVISION := "MAIL_CORE_NEWER_REVISION"

  // ----------------------------------------------------------------- adapter replies

  /** OtherClass stands for any class string outside the contract. */
  datatype ErrorClass = Retryable | Permanent | UnknownClass | OtherClass

  /** An error from the adapter: one of its own, or any other Go error. */
  datatype AdapterError = AdapterError(kind: ErrorClass, code: string) | ForeignError

  datatype Inspection = Observed(mailbox: ObservedMailbox) | InspectFailed(error: AdapterError)
  datatype EnsureReply = Ensured | EnsureFailed(error: AdapterError)

  predicate WellFormed(e: AdapterError) {
    e.AdapterError? && !e.kind.OtherClass? && ValidErrorCode(e.code)
  }

  /** Normalises any adapter error to a class and code the ledger can store. */
  function Classify(e: AdapterError): (r: AdapterError)
    ensures WellFormed(r)
    ensures WellFormed(e) ==> r == e
  {
    if WellFormed(e) then e else AdapterError(UnknownClass, OUTCOME_UNKNOWN)
  }

  /** What the adapter promises about an observation. */
  predicate KeepsContract(reply: Inspection) {
    reply.Observed? ==> reply.mailbox.mailbox != NIL && reply.mailbox.revision >= 0 && reply.mailbox.inspectedAt != 0
  }

  // ----------------------------------------------------------------- configuration and backoff

  datatype Config = Config(
    owner: Uuid,
    leaseDuration: int64,
    attemptTimeout: int64,
    leaseSafetyMargin: int64,
    baseRetryDelay: int64,
    maxRetryDelay: int64,
    maxAttempts: nat)

  predicate ValidConfig(c: Config) {
    && c.owner != NIL && c.leaseDuration > 0 && c.attemptTimeout > 0 && c.leaseSafetyMargin > 0
    && c.leaseDuration > c.leaseSafetyMargin
    && c.attemptTimeout <= c.leaseDuration - c.leaseSafetyMargin
    && 0 < c.baseRetryDelay <= c.maxRetryDelay
    && 0 < c.maxAttempts <= MAX_INT32
  }

  function Pow2(e: nat): nat {
    if e == 0 then 1 else 2 * Pow2(e - 1)
  }

  /** base * 2^e */
  function Doubled(base: nat, e: nat): (d: nat)
    ensures d == base * Pow2(e) && d >= base
  {
    if e == 0 then base else 2 * Doubled(base, e - 1)
  }

  function Capped(c: Config, delay: int): int {
    if delay > c.maxRetryDelay as int then c.maxRetryDelay as int else delay
  }

  /** min(MaxRetryDelay, BaseRetryDelay * 2^(attempt - 1)), on unbounded integers. */
  function Backoff(c: Config, attempt: nat): int
    requires ValidConfig(c)
  {
    Capped(c, Doubled(c.baseRetryDelay as nat, if attempt > 0 then attempt - 1 else 0))
  }

  /** The 64-bit loop computes the unbounded formula, with no overflow on the way. */
  method RetryDelay(c: Config, attempt: nat) returns (delay: int64)
    requires ValidConfig(c)
    ensures delay as int == Backoff(c, attempt)
  {
    delay := c.baseRetryDelay;
    var current: nat := 1;
    while current < attempt && delay < c.maxRetryDelay
      invariant 1 <= current && (current <= attempt || current == 1)
      invariant delay as int == Doubled(c.baseRetryDelay as nat, current - 1)
      invariant 0 < delay <= c.maxRetryDelay
    {
      if delay > c.maxRetryDelay / 2 {
        DoubledGrows(c.baseRetryDelay as nat, current, attempt - 1);
        return c.maxRetryDelay;
      }
      delay := delay * 2;
      current := current + 1;
    }
    if current < attempt {
      DoubledGrows(c.baseRetryDelay as nat, current - 1, attempt - 1);
    }
    if delay > c.maxRetryDelay {
      return c.maxRetryDelay;
    }
  }

  lemma {:induction false} DoubledGrows(base: nat, a: nat, b: nat)
    requires a <= b
    ensures Doubled(base, a) <= Doubled(base, b)
  {
    if a < b {
      DoubledGrows(base, a, b - 1);
    }
  }

  /** Delays start at the base, are positive, never above the cap, never shrink, and double until they hit the cap. */
  lemma BackoffShape(c: Config, a: nat, b: nat)
    requires ValidConfig(c) && 1 <= a <= b
    ensures 0 < Backoff(c, a) <= Backoff(c, b) <= c.maxRetryDelay as int
    ensures Backoff(c, a + 1) == Capped(c, 2 * Backoff(c, a))
    ensures Backoff(c, 0) == Backoff(c, 1) == c.baseRetryDelay as int
  {
    DoubledGrows(c.baseRetryDelay as nat, a - 1, b - 1);
  }

  // ----------------------------------------------------------------- deadlines

  function MinTime(a: int, b: int): int { if a <= b then a else b }

  /** When the attempt must be over: its own time limit, the lease, and the caller's context. */
  function AttemptDeadline(c: Config, claimed: Claimed, now: Time, context: Option<Time>): int {
    var own := MinTime(now + c.attemptTimeout as int + c.leaseSafetyMargin as int, claimed.leaseExpiresAt);
    if context.Some? then MinTime(own, context.value) else own
  }

  /** When adapter calls must be over: the margin before that is kept for the fenced report. */
  function AdapterDeadline(c: Config, claimed: Claimed, now: Time, context: Option<Time>): int {
    AttemptDeadline(c, claimed, now, context) - c.leaseSafetyMargin as int
  }

  /** Adapter calls always end a safety margin before the lease, and an attempt that starts as soon
      as it is claimed gets its whole timeout. */
  lemma AdapterWindow(c: Config, claimed: Claimed, now: Time, context: Option<Time>)
    requires ValidConfig(c)
    ensures AdapterDeadline(c, claimed, now, context) + c.leaseSafetyMargin as int <= claimed.leaseExpiresAt
    ensures AdapterDeadline(c, claimed, now, context) <= now + c.attemptTimeout as int
    ensures context.Some? ==> AdapterDeadline(c, claimed, now, context) + c.leaseSafetyMargin as int <= context.value
    ensures var end := AdapterDeadline(c, claimed, now, context) + c.leaseSafetyMargin as int;
            || end == claimed.leaseExpiresAt || end == now + c.attemptTimeout as int + c.leaseSafetyMargin as int
            || (context.Some? && end == context.value)
    ensures context.None? && claimed.leaseExpiresAt >= now + Microseconds(c.leaseDuration as int) * MICROSECOND ==>
              AdapterDeadline(c, claimed, now, context) == now + c.attemptTimeout as int > now
  {
    var micros := Microseconds(c.leaseDuration as int);
    assert c.leaseDuration as int <= micros * MICROSECOND;
  }

  // ----------------------------------------------------------------- decisions

  predicate ValidClaim(c: Config, claimed: Claimed) {
    && claimed.operation != NIL && claimed.tenant != NIL && claimed.mailbox != NIL && claimed.domain != NIL
    && claimed.address != "" && claimed.desiredRevision > 0
    && 0 < claimed.attemptNumber <= c.maxAttempts
    && claimed.leaseOwner == c.owner && claimed.leaseEpoch > 0 && claimed.leaseExpiresAt != 0
    && !claimed.priorStatus.Terminal()
  }

  predicate MatchesDesired(claimed: Claimed, o: ObservedMailbox) {
    && o.mailbox == claimed.mailbox && o.status.Active?
    && o.revision == claimed.desiredRevision && o.hash == claimed.configurationHash
    && o.inspectedAt != 0
  }

  /** The report: it copies the claim's token and waits only when the work will be retried. */
  function Answer(c: Config, claimed: Claimed, status: Status, code: string,
                  observation: Option<ObservedMailbox>): Resolution
    requires ValidConfig(c)
  {
    var delay := if status.RetryWait? || status.Unknown? then Backoff(c, claimed.attemptNumber) else 0;
    Resolution(claimed.operation, claimed.attemptNumber, claimed.leaseOwner, claimed.leaseEpoch,
               claimed.desiredRevision, status, delay, code, observation)
  }

  predicate LastAttempt(c: Config, claimed: Claimed) { claimed.attemptNumber >= c.maxAttempts }

  function Uncertain(c: Config, claimed: Claimed, code: string, observation: Option<ObservedMailbox>): Resolution
    requires ValidConfig(c)
  {
    Answer(c, claimed, if LastAttempt(c, claimed) then Dead else Unknown, code, observation)
  }

  function AdapterFailure(c: Config, claimed: Claimed, kind: ErrorClass, error: AdapterError): Resolution
    requires ValidConfig(c)
  {
    var code := Classify(error).code;
    match kind
    case Permanent => Answer(c, claimed, Failed, code, None)
    case Retryable => Answer(c, claimed, if LastAttempt(c, claimed) then Dead else RetryWait, code, None)
    case _ => Answer(c, claimed, if LastAttempt(c, claimed) then Dead else Unknown, code, None)
  }

  /** What the worker does next. */
  datatype Move = InspectFirst | CallEnsure | InspectAfter | Submit(resolution: Resolution)

  /** The earlier outcome is unknown, so mail-core must be read before anything is sent again. */
  predicate MustInspect(claimed: Claimed) { claimed.priorStatus.Unknown? || claimed.priorStatus.Running? }

  function Begin(c: Config, claimed: Claimed, adapterDeadline: int, now: Time): Move
    requires ValidConfig(c)
  {
    if adapterDeadline <= now then Submit(Uncertain(c, claimed, OUTCOME_UNKNOWN, None))
    else if MustInspect(claimed) then InspectFirst
    else CallEnsure
  }

  function AfterFirstInspect(c: Config, claimed: Claimed, reply: Inspection): Move
    requires ValidConfig(c)
  {
    match reply
    case InspectFailed(error) => Submit(AdapterFailure(c, claimed, UnknownClass, error))
    case Observed(o) =>
      if MatchesDesired(claimed, o) then Submit(Answer(c, claimed, Succeeded, "", Some(o)))
      else if o.revision > claimed.desiredRevision then Submit(Uncertain(c, claimed, NEWER_REVISION, Some(o)))
      else CallEnsure
  }

  function AfterEnsure(c: Config, claimed: Claimed, reply: EnsureReply): Move
    requires ValidConfig(c)
  {
    match reply
    case EnsureFailed(error) => Submit(AdapterFailure(c, claimed, Classify(error).kind, error))
    case Ensured => InspectAfter
  }

  function AfterLastInspect(c: Config, claimed: Claimed, reply: Inspection): Move
    requires ValidConfig(c)
  {
    match reply
    case InspectFailed(error) => Submit(AdapterFailure(c, claimed, UnknownClass, error))
    case Observed(o) =>
      if MatchesDesired(claimed, o) then Submit(Answer(c, claimed, Succeeded, "", Some(o)))
      else Submit(Uncertain(c, claimed, if o.revision > claimed.desiredRevision then NEWER_REVISION else NOT_CONVERGED,
                            Some(o)))
  }

  lemma ValidClaimSays(c: Config, claimed: Claimed)
    requires ValidClaim(c, claimed)
    ensures claimed.leaseOwner == c.owner && 0 < claimed.attemptNumber <= c.maxAttempts && claimed.leaseEpoch > 0
    ensures claimed.priorStatus.Waiting() || claimed.priorStatus.Running?
  {
  }

  lemma CodesAreValid()
    ensures ValidErrorCode(OUTCOME_UNKNOWN) && ValidErrorCode(NOT_CONVERGED) && ValidErrorCode(NEWER_REVISION)
  {
  }

  // ----------------------------------------------------------------- one attempt from start to report

  /** A call the attempt makes to the adapter, with its deadline. */
  datatype Call = InspectCall(deadline: int, answer: Inspection) | EnsureCall(deadline: int, result: EnsureReply)

  /** The last call was an inspect that showed what the claim desires. */
  predicate Matched(claimed: Claimed, calls: seq<Call>) {
    && |calls| > 0 && calls[|calls| - 1].InspectCall? && calls[|calls| - 1].answer.Observed?
    && var seen := calls[|calls| - 1].answer.mailbox;
       && seen.status == Active && seen.mailbox == claimed.mailbox && seen.revision == claimed.desiredRevision
       && seen.hash == claimed.configurationHash && seen.inspectedAt != 0
  }

  /** The last call was an ensure that failed with an error of this class. */
  predicate EnsureFailedAs(calls: seq<Call>, kind: ErrorClass) {
    && |calls| > 0 && calls[|calls| - 1].EnsureCall? && calls[|calls| - 1].result.EnsureFailed?
    && Classify(calls[|calls| - 1].result.error).kind == kind
  }

  /** The code a failed call leaves: its own if it is well formed, otherwise that the outcome is unknown. */
  predicate CodeOf(error: AdapterError, code: string) {
    if error.AdapterError? && (error.kind.Retryable? || error.kind.Permanent? || error.kind.UnknownClass?)
       && ValidErrorCode(error.code)
    then code == error.code
    else code == "MAIL_CORE_OUTCOME_UNKNOWN"
  }

  /** The calls alone decide the report: its status, its error code and the observation it carries. */
  predicate Explains(c: Config, claimed: Claimed, calls: seq<Call>, r: Resolution) {
    var last := claimed.attemptNumber >= c.maxAttempts;
    var permanent, retryable := EnsureFailedAs(calls, Permanent), EnsureFailedAs(calls, Retryable);
    && (r.status.Succeeded? <==> Matched(claimed, calls))
    && (r.status.Failed? <==> permanent)
    && (r.status.RetryWait? <==> retryable && !last)
    && (r.status.Dead? <==> last && !Matched(claimed, calls) && !permanent)
    && (r.status.Unknown? <==> !last && !Matched(claimed, calls) && !permanent && !retryable)
    && if calls == [] then r.errorCode == "MAIL_CORE_OUTCOME_UNKNOWN" && r.observation.None?
       else match calls[|calls| - 1] {
         case EnsureCall(_, Ensured) => false
         case EnsureCall(_, EnsureFailed(e)) => CodeOf(e, r.errorCode) && r.observation.None?
         case InspectCall(_, InspectFailed(e)) => CodeOf(e, r.errorCode) && r.observation.None?
         case InspectCall(_, Observed(o)) =>
           && r.observation == Some(o)
           && r.errorCode == if Matched(claimed, calls) then ""
                             else if o.revision > claimed.desiredRevision then "MAIL_CORE_NEWER_REVISION"
                             else "MAIL_CORE_NOT_CONVERGED"
       }
  }

  /** The report copies the token of the claim it answers. */
  predicate Carries(claimed: Claimed, r: Resolution) {
    && r.operation == claimed.operation && r.attemptNumber == claimed.attemptNumber
    && r.leaseOwner == claimed.leaseOwner && r.leaseEpoch == claimed.leaseEpoch
    && r.desiredRevision == claimed.desiredRevision
  }

  /** The report's status fits what it carries. */
  predicate Coherent(status: Status, code: string, observation: Option<ObservedMailbox>) {
    && !status.Pending? && !status.Running? && !status.Superseded?
    && (if status.Succeeded? then code == "" && observation.Some? else ValidErrorCode(code))
    && (observation.Some? ==> KeepsContract(Observed(observation.value)))
  }

  lemma AnswerIsValid(c: Config, claimed: Claimed, status: Status, code: string, observation: Option<ObservedMailbox>)
    requires ValidConfig(c) && ValidClaim(c, claimed) && Coherent(status, code, observation)
    ensures var r := Answer(c, claimed, status, code, observation);
            && ValidResolution(r) && Carries(claimed, r)
            && r.nextAttemptDelay == if status.Terminal() then 0 else Backoff(c, claimed.attemptNumber)
  {
    hide ValidErrorCode;
    BackoffShape(c, claimed.attemptNumber, claimed.attemptNumber);
  }

  /** `resolve`: builds the report, with the delay the loop computes. */
  method Resolve(c: Config, claimed: Claimed, status: Status, code: string, observation: Option<ObservedMailbox>)
    returns (r: Resolution)
    requires ValidConfig(c) && ValidClaim(c, claimed) && Coherent(status, code, observation)
    ensures r == Answer(c, claimed, status, code, observation)
    ensures ValidResolution(r) && Carries(claimed, r)
    ensures r.status == status && r.errorCode == code && r.observation == observation
    ensures r.nextAttemptDelay == if status.Terminal() then 0 else Backoff(c, claimed.attemptNumber)
  {
    var delay: int64 := 0;
    if status.RetryWait? || status.Unknown? {
      delay := RetryDelay(c, claimed.attemptNumber);
    }
    AnswerIsValid(c, claimed, status, code, observation);
    r := Resolution(claimed.operation, claimed.attemptNumber, claimed.leaseOwner, claimed.leaseEpoch,
                    claimed.desiredRevision, status, delay as int, code, observation);
  }

  /** `resolveUncertain`: unknown while attempts remain, dead on the last one. */
  method ResolveUncertain(c: Config, claimed: Claimed, code: string, observation: Option<ObservedMailbox>)
    returns (r: Resolution)
    requires ValidConfig(c) && ValidClaim(c, claimed) && Coherent(Unknown, code, observation)
    ensures r == Uncertain(c, claimed, code, observation) && ValidResolution(r) && Carries(claimed, r)
    ensures r.status == (if claimed.attemptNumber >= c.maxAttempts then Dead else Unknown)
    ensures r.errorCode == code && r.observation == observation
    ensures r.nextAttemptDelay == if r.status.Terminal() then 0 else Backoff(c, claimed.attemptNumber)
  {
    var status := Unknown;
    if claimed.attemptNumber >= c.maxAttempts {
      status := Dead;
    }
    r := Resolve(c, claimed, status, code, observation);
  }

  /** `resolveAdapterFailure`: the error class decides between failed, retry and unknown. */
  method ResolveAdapterFailure(c: Config, claimed: Claimed, kind: ErrorClass, error: AdapterError)
    returns (r: Resolution)
    requires ValidConfig(c) && ValidClaim(c, claimed)
    ensures r == AdapterFailure(c, claimed, kind, error) && ValidResolution(r) && Carries(claimed, r)
    ensures r.status == if kind.Permanent? then Failed
                        else if claimed.attemptNumber >= c.maxAttempts then Dead
                        else if kind.Retryable? then RetryWait
                        else Unknown
    ensures CodeOf(error, r.errorCode) && r.observation.None?
    ensures r.nextAttemptDelay == if r.status.Terminal() then 0 else Backoff(c, claimed.attemptNumber)
  {
    hide ValidErrorCode;
    var code := Classify(error).code;
    match kind {
      case Permanent => r := Resolve(c, claimed, Failed, code, None);
      case Retryable =>
        if claimed.attemptNumber >= c.maxAttempts {
          r := Resolve(c, claimed, Dead, code, None);
        } else {
          r := Resolve(c, claimed, RetryWait, code, None);
        }
      case _ =>
        if claimed.attemptNumber >= c.maxAttempts {
          r := Resolve(c, claimed, Dead, code, None);
        } else {
          r := Resolve(c, claimed, Unknown, code, None);
        }
    }
  }

  /** The report as the decision functions chain it. */
  function Plan(c: Config, claimed: Claimed, adapterDeadline: int, later: Time,
                first: Inspection, ensured: EnsureReply, second: Inspection): Resolution
    requires ValidConfig(c)
  {
    var a := Begin(c, claimed, adapterDeadline, later);
    var b := if a.InspectFirst? then AfterFirstInspect(c, claimed, first) else a;
    var d := if b.CallEnsure? then AfterEnsure(c, claimed, ensured) else b;
    var e := if d.InspectAfter? then AfterLastInspect(c, claimed, second) else d;
    e.resolution
  }

  lemma ExplainsUncertain(c: Config, claimed: Claimed, calls: seq<Call>, r: Resolution)
    requires r.status == (if claimed.attemptNumber >= c.maxAttempts then Dead else Unknown)
    requires if calls == [] then r.errorCode == OUTCOME_UNKNOWN && r.observation.None?
             else && calls[|calls| - 1].InspectCall? && calls[|calls| - 1].answer.Observed?
                  && var o := calls[|calls| - 1].answer.mailbox;
                     && !MatchesDesired(claimed, o) && r.observation == Some(o)
                     && r.errorCode == if o.revision > claimed.desiredRevision then NEWER_REVISION else NOT_CONVERGED
    ensures Explains(c, claimed, calls, r)
  {
  }

  lemma ExplainsFailure(c: Config, claimed: Claimed, calls: seq<Call>, kind: ErrorClass, error: AdapterError, r: Resolution)
    requires r.status == if kind.Permanent? then Failed
                         else if claimed.attemptNumber >= c.maxAttempts then Dead
                         else if kind.Retryable? then RetryWait
                         else Unknown
    requires CodeOf(error, r.errorCode) && r.observation.None? && calls != []
    requires match calls[|calls| - 1]
             case EnsureCall(_, reply) => reply == EnsureFailed(error) && kind == Classify(error).kind
             case InspectCall(_, reply) => reply == InspectFailed(error) && kind == UnknownClass
    ensures Explains(c, claimed, calls, r)
  {
    hide CodeOf, Classify;
  }

  lemma ExplainsSuccess(c: Config, claimed: Claimed, calls: seq<Call>, r: Resolution)
    requires Matched(claimed, calls) && r.status.Succeeded? && r.errorCode == ""
    requires r.observation == Some(calls[|calls| - 1].answer.mailbox)
    ensures Explains(c, claimed, calls, r)
  {
  }

  /**
   One attempt, in program order.  Whatever the adapter answers within its contract, the report
   passes the repository's check and carries the claim's token; the calls alone explain its status, error
   code and observation, so success needs a last inspect that matched and only the last attempt is given
   up; after an unknown outcome nothing is sent before an inspect
   showed the work is neither done nor overtaken; and no call outlasts the lease minus the margin.
   */
  method Execute(c: Config, claimed: Claimed, now: Time, later: Time, context: Option<Time>,
                 first: Inspection, ensured: EnsureReply, second: Inspection)
    returns (report: Option<Resolution>, calls: seq<Call>)
    requires ValidConfig(c) && now <= later && KeepsContract(first) && KeepsContract(second)
    ensures report.Some? <==> ValidClaim(c, claimed)
    ensures report.Some? ==>
              && claimed.leaseOwner == c.owner && 0 < claimed.attemptNumber <= c.maxAttempts && claimed.leaseEpoch > 0
              && (claimed.priorStatus.Waiting() || claimed.priorStatus.Running?)
    ensures report.None? ==> calls == []
    ensures report.Some? ==>
              report.value == Plan(c, claimed, AdapterDeadline(c, claimed, now, context), later, first, ensured, second)
    ensures report.Some? ==> Sound(c, claimed, report.value)
    ensures report.Some? ==> Explains(c, claimed, calls, report.value)
    ensures MustInspect(claimed) ==> forall k :: 0 <= k < |calls| && calls[k].EnsureCall? ==>
              k == 1 && calls[0].InspectCall? && calls[0].answer.Observed?
              && !MatchesDesired(claimed, calls[0].answer.mailbox)
              && calls[0].answer.mailbox.revision <= claimed.desiredRevision
    ensures forall i, j :: 0 <= i < j < |calls| && calls[i].EnsureCall? ==> calls[j].InspectCall?
    ensures forall k :: 0 <= k < |calls| ==>
              later < calls[k].deadline <= claimed.leaseExpiresAt - c.leaseSafetyMargin as int
  {
    hide ValidErrorCode, ValidResolution, Carries, Backoff, AdapterDeadline, Explains, CodeOf, Answer, Uncertain,
      AdapterFailure, Classify, ValidClaim;
    calls := [];
    if !ValidClaim(c, claimed) {
      return None, calls;
    }
    ValidClaimSays(c, claimed);
    CodesAreValid();
    var adapterDeadline := AdapterDeadline(c, claimed, now, context);
    AdapterWindow(c, claimed, now, context);
    if adapterDeadline <= later {
      var r := ResolveUncertain(c, claimed, OUTCOME_UNKNOWN, None);
      ExplainsUncertain(c, claimed, calls, r);
      return Some(r), calls;
    }
    if MustInspect(claimed) {
      calls := [InspectCall(adapterDeadline, first)];
      if first.InspectFailed? {
        var r := ResolveAdapterFailure(c, claimed, UnknownClass, first.error);
        ExplainsFailure(c, claimed, calls, UnknownClass, first.error, r);
        return Some(r), calls;
      }
      if MatchesDesired(claimed, first.mailbox) {
        var r := Resolve(c, claimed, Succeeded, "", Some(first.mailbox));
        ExplainsSuccess(c, claimed, calls, r);
        return Some(r), calls;
      }
      if first.mailbox.revision > claimed.desiredRevision {
        var r := ResolveUncertain(c, claimed, NEWER_REVISION, Some(first.mailbox));
        ExplainsUncertain(c, claimed, calls, r);
        return Some(r), calls;
      }
    }
    var r;
    r, calls := EnsureAndConfirm(c, claimed, adapterDeadline, calls, ensured, second);
    return Some(r), calls;
  }

  /** What a report owes besides its explanation. */
  predicate Sound(c: Config, claimed: Claimed, r: Resolution)
    requires ValidConfig(c)
  {
    && ValidResolution(r) && Carries(claimed, r)
    && r.nextAttemptDelay == (if r.status.Terminal() then 0 else Backoff(c, claimed.attemptNumber))
    && (LastAttempt(c, claimed) ==> r.status.Terminal())
  }

  /** The second half of an attempt: ensure, then inspect again. */
  method EnsureAndConfirm(c: Config, claimed: Claimed, deadline: int, before: seq<Call>, ensured: EnsureReply, second: Inspection)
    returns (r: Resolution, calls: seq<Call>)
    requires ValidConfig(c) && ValidClaim(c, claimed) && KeepsContract(second)
    ensures calls == before + [EnsureCall(deadline, ensured)] +
                     (if ensured.Ensured? then [InspectCall(deadline, second)] else [])
    ensures Sound(c, claimed, r) && Explains(c, claimed, calls, r)
    ensures var move := AfterEnsure(c, claimed, ensured);
            r == if move.Submit? then move.resolution else AfterLastInspect(c, claimed, second).resolution
  {
    hide ValidErrorCode, ValidResolution, Carries, Backoff, Explains, CodeOf, Answer, Classify, ValidClaim;
    CodesAreValid();
    calls := before + [EnsureCall(deadline, ensured)];
    if ensured.EnsureFailed? {
      r := ResolveAdapterFailure(c, claimed, Classify(ensured.error).kind, ensured.error);
      ExplainsFailure(c, claimed, calls, Classify(ensured.error).kind, ensured.error, r);
      return;
    }
    calls := calls + [InspectCall(deadline, second)];
    if second.InspectFailed? {
      r := ResolveAdapterFailure(c, claimed, UnknownClass, second.error);
      ExplainsFailure(c, claimed, calls, UnknownClass, second.error, r);
      return;
    }
    if !MatchesDesired(claimed, second.mailbox) {
      var code := if second.mailbox.revision > claimed.desiredRevision then NEWER_REVISION else NOT_CONVERGED;
      r := ResolveUncertain(c, claimed, code, Some(second.mailbox));
      ExplainsUncertain(c, claimed, calls, r);
      return;
    }
    r := Resolve(c, claimed, Succeeded, "", Some(second.mailbox));
    ExplainsSuccess(c, claimed, calls, r);
  }
}
