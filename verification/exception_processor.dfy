/**
 * The Cosmos DB fault classifier (`ExceptionProcessor.ProcessException`).
 *
 * A failed backend call's cost is first recorded through the telemetry
 * accumulator; then the failure is either replaced by a domain error (rate
 * limiting, or a malformed continuation token) or left to propagate. Thrown
 * exceptions are modelled as a `Classification` value.
 */
module ExceptionProcessor {
  import opened Wrappers
  import OrdinalText
  import opened MetricProcessor

  /** The message fragment that marks an invalid continuation token, matched ordinally and ignoring case. */
  const InvalidContinuationTokenMarker: string := "Invalid Continuation Token"

  /** The exception handed to `ProcessException`. */
  datatype RaisedException =
    | NullException
      /** `DocumentClientException`: the backend client's failure, carrying its charge, status, retry hint and message. */
    | DocumentClientException(requestCharge: real, statusCode: Option<int>, retryAfter: int, message: string)
      /** Any other exception type. */
    | OtherException

  /**
   * What `ProcessException` does with the failure: let the original propagate,
   * throw `RequestRateExceededException(retryAfter)`, throw
   * `RequestNotValidException(message)`, or fail its own argument check.
   */
  datatype Classification =
    | PassThrough
    | RateLimited(retryAfter: int)
    | InvalidInput(message: string)
    | ArgumentNull

  /** The scope after the call and the classification it made. */
  datatype Processed = Processed(scope: Scope, outcome: Classification)

  /**
   * The decision over a backend-client exception's status and message; the
   * status test comes first, so rate limiting wins over a bad token.
   */
  function Classify(statusCode: Option<int>, retryAfter: int, message: string, invalidTokenText: string): (c: Classification)
    ensures statusCode == Some(TooManyRequests) ==> c == RateLimited(retryAfter)
    ensures statusCode != Some(TooManyRequests) && OrdinalText.Occurs(message, InvalidContinuationTokenMarker) ==>
      c == InvalidInput(invalidTokenText)
    ensures statusCode != Some(TooManyRequests) && !OrdinalText.Occurs(message, InvalidContinuationTokenMarker) ==>
      c == PassThrough
  {
    OrdinalText.ContainsIgnoreCaseIsOccurs(message, InvalidContinuationTokenMarker);
    if statusCode == Some(TooManyRequests) then RateLimited(retryAfter)
    else if OrdinalText.ContainsIgnoreCase(message, InvalidContinuationTokenMarker) then InvalidInput(invalidTokenText)
    else PassThrough
  }

  /**
   * `ProcessException`. `invalidTokenText` is the localised
   * `Resources.InvalidContinuationToken` text.
   */
  function ProcessException(env: Collaborators, invalidTokenText: string, s: Scope, ex: RaisedException): (r: Processed)
    ensures s.context.None? ==> r == Processed(s, PassThrough)
    ensures s.context.Some? && !ex.DocumentClientException? ==> r.scope == s
    ensures s.context.Some? && ex.NullException? ==> r.outcome == ArgumentNull
    ensures s.context.Some? && ex.OtherException? ==> r.outcome == PassThrough
    ensures s.context.Some? && ex.DocumentClientException? ==>
      && r.scope == UpdateFhirRequestContext(env, s, None, ex.requestCharge, None, ex.statusCode)
      && (ex.statusCode == Some(TooManyRequests) ==> r.outcome == RateLimited(ex.retryAfter))
      && (ex.statusCode != Some(TooManyRequests) && OrdinalText.Occurs(ex.message, InvalidContinuationTokenMarker) ==>
            r.outcome == InvalidInput(invalidTokenText))
      && (ex.statusCode != Some(TooManyRequests) && !OrdinalText.Occurs(ex.message, InvalidContinuationTokenMarker) ==>
            r.outcome == PassThrough)
  {
    if s.context.None? then Processed(s, PassThrough)
    else
      match ex
      case NullException => Processed(s, ArgumentNull)
      case OtherException => Processed(s, PassThrough)
      case DocumentClientException(charge, status, retryAfter, message) =>
        var s' := UpdateFhirRequestContext(env, s, None, charge, None, status);
        Processed(s', Classify(status, retryAfter, message, invalidTokenText))
  }

  /**
   * Classification never touches the session-token header or any header other
   * than the request charge, and keeps the request's subject.
   */
  lemma ClassificationKeepsSessionHeader(env: Collaborators, invalidTokenText: string, s: Scope, ex: RaisedException)
    ensures
      var r := ProcessException(env, invalidTokenText, s, ex);
      && r.scope.context.Some? == s.context.Some?
      && EqualOnKey(HeadersOf(s), HeadersOf(r.scope), SessionTokenHeader)
      && OtherHeadersUnchanged(HeadersOf(s), HeadersOf(r.scope))
  {
  }

  /**
   * A backend-client failure under an active context is recorded exactly once:
   * the log grows by at most one notification, which carries the failure's own
   * charge, no size, and a throttle mark exactly when the outcome is `RateLimited`.
   */
  lemma BackendFailureRecordedOnce(env: Collaborators, invalidTokenText: string, s: Scope, charge: real,
                                   status: Option<int>, retryAfter: int, message: string)
    requires s.context.Some?
    ensures
      var r := ProcessException(env, invalidTokenText, s, DocumentClientException(charge, status, retryAfter, message));
      var n := NewNotification(s.context.value.auditEventType, s.context.value.resourceType, charge, None, status);
      && r.scope.published == (if env.publish(n) == Delivered then s.published + [n] else s.published)
      && n.totalRequestCharge == charge
      && n.collectionSizeUsageKilobytes.None?
      && n.requestCount == Some(1)
      && (n.throttledCount == Some(1) <==> r.outcome.RateLimited?)
      && ChargeHeaderRule(HeadersOf(s), HeadersOf(r.scope), env.formatCharge(charge))
  {
  }

  /** Rate limiting takes precedence: a 429 is `RateLimited` whatever its message says. */
  lemma RateLimitTakesPrecedence(env: Collaborators, invalidTokenText: string, s: Scope, charge: real,
                                 retryAfter: int, prefix: string, suffix: string)
    requires s.context.Some?
    ensures
      var message := prefix + InvalidContinuationTokenMarker + suffix;
      var ex := DocumentClientException(charge, Some(TooManyRequests), retryAfter, message);
      && OrdinalText.Occurs(message, InvalidContinuationTokenMarker)
      && ProcessException(env, invalidTokenText, s, ex).outcome == RateLimited(retryAfter)
  {
    OrdinalText.OccursVerbatim(prefix, InvalidContinuationTokenMarker, suffix);
  }

  /**
   * The continuation-token test ignores letter case: two messages that differ
   * only in case are classified alike, e.g. a message and its upper-cased form.
   */
  lemma ClassificationIgnoresMessageCase(env: Collaborators, invalidTokenText: string, s: Scope, charge: real,
                                         status: Option<int>, retryAfter: int, message: string, other: string)
    requires |message| == |other|
    requires forall k :: 0 <= k < |message| ==> OrdinalText.SameIgnoringCase(message[k], other[k])
    ensures ProcessException(env, invalidTokenText, s, DocumentClientException(charge, status, retryAfter, message))
         == ProcessException(env, invalidTokenText, s, DocumentClientException(charge, status, retryAfter, other))
  {
    OrdinalText.OccursIgnoresCaseOfText(message, other, InvalidContinuationTokenMarker);
  }

  /** An upper-cased marker in any message still yields `InvalidInput` when the status is not 429. */
  lemma UpperCaseMarkerIsInvalidInput(env: Collaborators, invalidTokenText: string, s: Scope, charge: real,
                                      status: Option<int>, retryAfter: int, prefix: string, suffix: string)
    requires s.context.Some? && status != Some(TooManyRequests)
    ensures
      var message := OrdinalText.UpperAll(prefix + InvalidContinuationTokenMarker + suffix);
      ProcessException(env, invalidTokenText, s, DocumentClientException(charge, status, retryAfter, message)).outcome
        == InvalidInput(invalidTokenText)
  {
    var verbatim := prefix + InvalidContinuationTokenMarker + suffix;
    OrdinalText.OccursVerbatim(prefix, InvalidContinuationTokenMarker, suffix);
    OrdinalText.OccursIgnoresCaseOfText(verbatim, OrdinalText.UpperAll(verbatim), InvalidContinuationTokenMarker);
  }
}
