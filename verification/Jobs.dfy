/** The Job entity shared by the gateway and the recovery engine. */
module Jobs {
  import opened Basics
  import opened Validation

  datatype JobStatus = Pending | RecoveryPending | Recovering | Success | Failed | NeedsHumanReview

  datatype Job = Job(
    id: string, url: string, domain: string, requiredFields: seq<string>,
    status: JobStatus, result: Option<Data>, failureReason: Option<FailureReason>)
  {
    static function Create(id: string, url: string, domain: string, requiredFields: seq<string>): Job {
      Job(id, url, domain, requiredFields, Pending, None, None)
    }

    function MarkSucceeded(result: Data): Job {
      this.(status := Success, result := Some(result))
    }

    function MarkRecoveryPending(): Job {
      this.(status := RecoveryPending)
    }

    function MarkFailed(reason: FailureReason): Job {
      this.(status := Failed, failureReason := Some(reason))
    }
  }

  /** The part of a job that no transition may change. */
  predicate SameIdentity(a: Job, b: Job) {
    a.id == b.id && a.url == b.url && a.domain == b.domain && a.requiredFields == b.requiredFields
  }

  /** The two statuses a recovery ends in. */
  predicate Terminal(status: JobStatus) {
    status.Success? || status.NeedsHumanReview?
  }

  /** What the fields of a stored job say for its status. */
  ghost predicate Consistent(job: Job) {
    match job.status
    case Success => job.result.Some? && Covers(job.requiredFields, job.result.value) && job.failureReason.None?
    case Failed => job.result.None? && job.failureReason == Some(HttpError)
    case Recovering => false
    case _ => job.result.None? && job.failureReason.None?
  }
}

/** The boundary between the gateway and the extraction worker, and the decision the
    gateway takes on what comes back. */
module GatewayDecision {
  import opened Basics
  import opened Validation
  import opened Jobs

  /** The JSON body the worker answers with. */
  datatype WorkerBody = WorkerBody(success: bool, data: Data, failureReason: Option<string>)

  /** What the HTTP client sees: a transport or status error, a body, or a reply that is not
      such a body. */
  datatype Wire = TransportError | Body(body: WorkerBody) | Unreadable

  datatype ExtractionResult = ExtractionResult(success: bool, data: Data, failureReason: Option<FailureReason>)

  function ReasonValue(reason: FailureReason): string {
    match reason
    case MissingRequiredField => "missing_required_field"
    case EmptyRequiredField => "empty_required_field"
    case NavigationError => "navigation_error"
    case HttpError => "http_error"
  }

  /** `FailureReason(raw)`: `None` stands for the ValueError of an unknown value. */
  function ReasonOf(raw: string): Option<FailureReason> {
    if raw == "missing_required_field" then Some(MissingRequiredField)
    else if raw == "empty_required_field" then Some(EmptyRequiredField)
    else if raw == "navigation_error" then Some(NavigationError)
    else if raw == "http_error" then Some(HttpError)
    else None
  }

  function FromAttempt(outcome: ExtractionOutcome, data: Data): WorkerBody {
    WorkerBody(
      outcome.isSuccess, data,
      if outcome.failureReason.Some? then Some(ReasonValue(outcome.failureReason.value)) else None)
  }

  function ParseResponse(body: WorkerBody): ExtractionResult {
    if body.failureReason.None? || body.failureReason.value == "" then
      ExtractionResult(body.success, body.data, None)
    else
      match ReasonOf(body.failureReason.value)
      case None => ExtractionResult(false, map[], Some(HttpError))
      case Some(reason) => ExtractionResult(body.success, body.data, Some(reason))
  }

  function Extract(wire: Wire): ExtractionResult
    requires !wire.Unreadable?
  {
    match wire
    case TransportError => ExtractionResult(false, map[], Some(HttpError))
    case Body(body) => ParseResponse(body)
  }

  const RECOVERABLE_FAILURE_REASONS: set<FailureReason> := {MissingRequiredField, EmptyRequiredField}

  predicate ShouldTriggerRecovery(reason: Option<FailureReason>) {
    reason.Some? && reason.value in RECOVERABLE_FAILURE_REASONS
  }

  /** `Raised` is the assertion that the failure reason is present. */
  function ApplyExtractionResult(job: Job, result: ExtractionResult): Answer<Job> {
    if result.success then Returned(job.MarkSucceeded(result.data))
    else if ShouldTriggerRecovery(result.failureReason) then Returned(job.MarkRecoveryPending())
    else if result.failureReason.None? then Raised
    else Returned(job.MarkFailed(result.failureReason.value))
  }

  /** The job after the worker's answer; an unreadable reply raises in the parser. */
  function Decide(job: Job, wire: Wire): Answer<Job> {
    if wire.Unreadable? then Raised else ApplyExtractionResult(job, Extract(wire))
  }

  /** One call to a worker that applies the shared rule: it cannot be reached (or breaks),
      or it validates whatever data the page gave. */
  datatype WorkerCall = Unreachable | Extracted(data: Data)

  function WireOf(required: seq<string>, call: WorkerCall): (wire: Wire)
    ensures !wire.Unreadable?
  {
    match call
    case Unreachable => TransportError
    case Extracted(data) => Body(FromAttempt(Validate(required, data), data))
  }

  /** Reasons survive the trip through the wire format, and different reasons stay
      different. */
  lemma ReasonRoundTrip(reason: FailureReason, raw: string)
    ensures ReasonOf(ReasonValue(reason)) == Some(reason)
    ensures ReasonValue(reason) != ""
    ensures ReasonOf(raw) == Some(reason) ==> raw == ReasonValue(reason)
  {
  }

  /** The gateway receives exactly the verdict, data and reason the worker produced. */
  lemma WireRoundTrip(required: seq<string>, data: Data)
    ensures Extract(WireOf(required, Extracted(data))) ==
            ExtractionResult(Validate(required, data).isSuccess, data, Validate(required, data).failureReason)
  {
    var outcome := Validate(required, data);
    if outcome.failureReason.Some? { ReasonRoundTrip(outcome.failureReason.value, ""); }
  }

  /** For an arbitrary reply the policy alone does not protect the assertion: it fires
      exactly for a failure without a reason; and the parser raises exactly for a reply it
      cannot read. */
  lemma AssertFiresExactlyWithoutReason(job: Job, wire: Wire)
    ensures wire.Body? ==>
              (ApplyExtractionResult(job, Extract(wire)).Raised? <==>
               !wire.body.success && (wire.body.failureReason.None? || wire.body.failureReason.value == ""))
    ensures Decide(job, wire).Raised? <==>
              || wire.Unreadable?
              || (wire.Body? && ApplyExtractionResult(job, Extract(wire)).Raised?)
  {
  }

  /** Any other reply decides the job: an unknown reason counts as a failure of the call, success
      stores the data, a reason that recovery can repair queues the job, and any other fails it. */
  lemma ReplyDecidesJob(job: Job, body: WorkerBody)
    requires body.success || (body.failureReason.Some? && body.failureReason.value != "")
    ensures
      var raw := if body.failureReason.Some? then body.failureReason.value else "";
      var r := Decide(job, Body(body));
      if raw != "" && forall reason :: raw != ReasonValue(reason) then
        r == Returned(job.(status := Failed, failureReason := Some(HttpError)))
      else if body.success then r == Returned(job.(status := Success, result := Some(body.data)))
      else if raw == ReasonValue(MissingRequiredField) || raw == ReasonValue(EmptyRequiredField) then
        r == Returned(job.(status := RecoveryPending))
      else
        r.Returned? && r.value.status.Failed? && r.value.result == job.result
        && r.value.failureReason.Some? && raw == ReasonValue(r.value.failureReason.value)
  {
    var raw := if body.failureReason.Some? then body.failureReason.value else "";
    if ReasonOf(raw).Some? { ReasonRoundTrip(ReasonOf(raw).value, raw); }
    if raw != "" && !(forall reason :: raw != ReasonValue(reason)) {
      var reason :| raw == ReasonValue(reason);
      ReasonRoundTrip(reason, raw);
    }
  }

  /** Composed with a worker that applies the shared rule, a pending job always moves on,
      keeps its identity, and its new status says exactly what happened on the page. */
  lemma WorkerReplyDecidesJob(job: Job, call: WorkerCall)
    requires job.status.Pending? && Consistent(job)
    ensures ApplyExtractionResult(job, Extract(WireOf(job.requiredFields, call))).Returned?
    ensures
      var next := ApplyExtractionResult(job, Extract(WireOf(job.requiredFields, call))).value;
      && SameIdentity(job, next)
      && Consistent(next)
      && (next.status.Failed? <==> call.Unreachable?)
      && (next.status.Success? <==> call.Extracted? && Covers(job.requiredFields, call.data))
      && (next.status.RecoveryPending? <==> call.Extracted? && !Covers(job.requiredFields, call.data))
      && (next.status.Success? ==> next.result == Some(call.data))
  {
    if call.Extracted? {
      WireRoundTrip(job.requiredFields, call.data);
      ValidateMeaning(job.requiredFields, call.data);
    }
  }
}
