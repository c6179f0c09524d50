/**
 * The Cosmos DB telemetry accumulator (`MetricProcessor`).
 *
 * One backend call's session token, request charge, optional collection size
 * and optional status are folded into the active FHIR request context's
 * response headers, and one metrics notification is built and handed to the
 * publisher. The request context accessor, the charge formatter and the
 * publisher are collaborators: the context is an explicit `Option` inside a
 * `Scope`, and the other two are functions in `Collaborators`.
 */
module MetricProcessor {
  import opened Wrappers

  /** Response header that carries the backend session token. */
  const SessionTokenHeader: string := "x-ms-session-token"

  /** Response header that carries the backend request charge. */
  const RequestChargeHeader: string := "x-ms-request-charge"

  /** `HttpStatusCode.TooManyRequests`. */
  const TooManyRequests: int := 429

  /** Response headers of the FHIR request: header name to header value. */
  type Headers = map<string, string>

  /** The per-request context: response headers plus the request's audit-event and resource types. */
  datatype FhirRequestContext = FhirRequestContext(
    responseHeaders: Headers,
    auditEventType: string,
    resourceType: string)

  /** `CosmosStorageRequestMetricsNotification`; the nullable counters are `Option`s that start as `None`. */
  datatype Notification = Notification(
    auditEventType: string,
    resourceType: string,
    totalRequestCharge: real,
    collectionSizeUsageKilobytes: Option<int>,
    throttledCount: Option<int>,
    requestCount: Option<int>)

  /** Whether a `Publish` call returned normally or threw synchronously. */
  datatype PublishOutcome = Delivered | PublishThrew

  /**
   * The injected collaborators: `double.ToString(CultureInfo.InvariantCulture)`
   * for the charge, and the mediator's `Publish` for a notification.
   */
  datatype Collaborators = Collaborators(
    formatCharge: real -> string,
    publish: Notification -> PublishOutcome)

  /** What the accumulator can observe and change: the active context, if any, and the notifications delivered so far. */
  datatype Scope = Scope(context: Option<FhirRequestContext>, published: seq<Notification>)

  /** The raw signals of one backend call, as the core `UpdateFhirRequestContext` overload receives them. */
  datatype CallMetrics = CallMetrics(
    sessionToken: Option<string>,
    requestCharge: real,
    collectionSizeUsageKilobytes: Option<int>,
    statusCode: Option<int>)

  /** The three backend response shapes the adapter overloads accept, each with only the fields it has. */
  datatype BackendResponse =
    | ResourceResponse(sessionToken: Option<string>, requestCharge: real, collectionSizeUsage: int, statusCode: int)
    | FeedResponse(sessionToken: Option<string>, requestCharge: real, collectionSizeUsage: int)
    | StoredProcedureResponse(sessionToken: Option<string>, requestCharge: real, statusCode: int)

  /** `string.IsNullOrEmpty`. */
  predicate IsNullOrEmpty(s: Option<string>)
  {
    s.None? || s.value == ""
  }

  /** `k` is absent from both maps or maps to the same value in both. */
  predicate EqualOnKey(before: Headers, after: Headers, k: string)
  {
    (k !in before && k !in after) || (k in before && k in after && before[k] == after[k])
  }

  /** Every header other than the session-token and request-charge headers is untouched. */
  ghost predicate OtherHeadersUnchanged(before: Headers, after: Headers)
  {
    forall k :: k != SessionTokenHeader && k != RequestChargeHeader ==> EqualOnKey(before, after, k)
  }

  /** A usable token replaces the session-token header; a null or empty one leaves it as it was. */
  predicate SessionHeaderRule(before: Headers, after: Headers, token: Option<string>)
  {
    if IsNullOrEmpty(token) then EqualOnKey(before, after, SessionTokenHeader)
    else SessionTokenHeader in after && after[SessionTokenHeader] == token.value
  }

  /**
   * The request-charge header is present afterwards; it holds `formatted` if it
   * was absent before, and its earlier value otherwise.
   */
  predicate ChargeHeaderRule(before: Headers, after: Headers, formatted: string)
  {
    && RequestChargeHeader in after
    && after[RequestChargeHeader] == (if RequestChargeHeader in before then before[RequestChargeHeader] else formatted)
  }

  /** The request's audit-event and resource types are kept. */
  predicate SameSubject(before: FhirRequestContext, after: FhirRequestContext)
  {
    before.auditEventType == after.auditEventType && before.resourceType == after.resourceType
  }

  /** Headers of the active context (empty when there is none). */
  function HeadersOf(s: Scope): Headers
  {
    if s.context.Some? then s.context.value.responseHeaders else map[]
  }

  /** The session-token step of the core overload. */
  function SetSessionToken(headers: Headers, token: Option<string>): (h: Headers)
    ensures SessionHeaderRule(headers, h, token)
    ensures OtherHeadersUnchanged(headers, h)
    ensures EqualOnKey(headers, h, RequestChargeHeader)
  {
    if !IsNullOrEmpty(token) then headers[SessionTokenHeader := token.value] else headers
  }

  /**
   * The header step of `AddRequestChargeToFhirRequestContext`. When the header
   * is already present `MetricProcessor.cs` calls LINQ `Append` on the stored value and
   * discards the returned sequence, so the stored value is not reassigned.
   */
  function MergeRequestCharge(headers: Headers, formatted: string): (h: Headers)
    ensures ChargeHeaderRule(headers, h, formatted)
    ensures EqualOnKey(headers, h, SessionTokenHeader)
    ensures OtherHeadersUnchanged(headers, h)
  {
    if RequestChargeHeader in headers then headers
    else headers[RequestChargeHeader := formatted]
  }

  /** The notification built for one call, field by field as `MetricProcessor.cs` sets them. */
  function NewNotification(
    auditEventType: string,
    resourceType: string,
    charge: real,
    collectionSizeUsage: Option<int>,
    statusCode: Option<int>): (n: Notification)
    ensures n.auditEventType == auditEventType && n.resourceType == resourceType
    ensures n.totalRequestCharge == charge
    ensures n.requestCount == Some(1)
    ensures n.collectionSizeUsageKilobytes == collectionSizeUsage
    ensures n.throttledCount.Some? <==> statusCode == Some(TooManyRequests)
    ensures n.throttledCount.Some? ==> n.throttledCount.value == 1
  {
    var initial := Notification(auditEventType, resourceType, charge, None, None, None);
    var sized := if collectionSizeUsage.Some? then initial.(collectionSizeUsageKilobytes := collectionSizeUsage) else initial;
    var throttled :=
      if statusCode.Some? && statusCode.value == TooManyRequests then sized.(throttledCount := Some(1)) else sized;
    throttled.(requestCount := Some(1))
  }

  /** `after` is `before` plus `n` when the publisher delivered `n`, and `before` when it threw. */
  predicate PublishedOnce(env: Collaborators, before: seq<Notification>, after: seq<Notification>, n: Notification)
  {
    if env.publish(n) == Delivered then after == before + [n] else after == before
  }

  /**
   * `AddRequestChargeToFhirRequestContext`: merge the charge header, build one
   * notification and publish it; a throwing publisher is caught and ignored.
   */
  function AddRequestChargeToFhirRequestContext(
    env: Collaborators,
    context: FhirRequestContext,
    published: seq<Notification>,
    charge: real,
    collectionSizeUsage: Option<int>,
    statusCode: Option<int>): (s': Scope)
    ensures s'.context.Some? && SameSubject(context, s'.context.value)
    ensures ChargeHeaderRule(context.responseHeaders, HeadersOf(s'), env.formatCharge(charge))
    ensures EqualOnKey(context.responseHeaders, HeadersOf(s'), SessionTokenHeader)
    ensures OtherHeadersUnchanged(context.responseHeaders, HeadersOf(s'))
    ensures PublishedOnce(env, published, s'.published,
                          NewNotification(context.auditEventType, context.resourceType, charge, collectionSizeUsage, statusCode))
  {
    var context' := context.(responseHeaders := MergeRequestCharge(context.responseHeaders, env.formatCharge(charge)));
    var metrics := NewNotification(context'.auditEventType, context'.resourceType, charge, collectionSizeUsage, statusCode);
    match env.publish(metrics)
    case Delivered => Scope(Some(context'), published + [metrics])
    case PublishThrew => Scope(Some(context'), published)
  }

  /**
   * The core `UpdateFhirRequestContext(sessionToken, charge, size, status)`:
   * a no-op without an active context; otherwise the session-token step
   * followed by `AddRequestChargeToFhirRequestContext`.
   */
  function UpdateFhirRequestContext(
    env: Collaborators,
    s: Scope,
    sessionToken: Option<string>,
    charge: real,
    collectionSizeUsage: Option<int>,
    statusCode: Option<int>): (s': Scope)
    ensures s.context.None? ==> s' == s
    ensures s.context.Some? ==> s'.context.Some? && SameSubject(s.context.value, s'.context.value)
    ensures s.context.Some? ==> SessionHeaderRule(HeadersOf(s), HeadersOf(s'), sessionToken)
    ensures s.context.Some? ==> ChargeHeaderRule(HeadersOf(s), HeadersOf(s'), env.formatCharge(charge))
    ensures s.context.Some? ==> OtherHeadersUnchanged(HeadersOf(s), HeadersOf(s'))
    ensures s.context.Some? ==>
      PublishedOnce(env, s.published, s'.published,
                    NewNotification(s.context.value.auditEventType, s.context.value.resourceType,
                                    charge, collectionSizeUsage, statusCode))
  {
    match s.context
    case None => s
    case Some(context) =>
      var context' := context.(responseHeaders := SetSessionToken(context.responseHeaders, sessionToken));
      AddRequestChargeToFhirRequestContext(env, context', s.published, charge, collectionSizeUsage, statusCode)
  }

  /** The fields each adapter overload passes on to the core overload. */
  function ToCallMetrics(response: BackendResponse): (m: CallMetrics)
    ensures m.sessionToken == response.sessionToken && m.requestCharge == response.requestCharge
    ensures m.collectionSizeUsageKilobytes.Some? <==> !response.StoredProcedureResponse?
    ensures !response.StoredProcedureResponse? ==> m.collectionSizeUsageKilobytes.value == response.collectionSizeUsage
    ensures m.statusCode.Some? <==> !response.FeedResponse?
    ensures !response.FeedResponse? ==> m.statusCode.value == response.statusCode
  {
    match response
    case ResourceResponse(token, charge, size, status) => CallMetrics(token, charge, Some(size), Some(status))
    case FeedResponse(token, charge, size) => CallMetrics(token, charge, Some(size), None)
    case StoredProcedureResponse(token, charge, status) => CallMetrics(token, charge, None, Some(status))
  }

  /** The core overload applied to one call's metrics. */
  function Record(env: Collaborators, s: Scope, call: CallMetrics): Scope
  {
    UpdateFhirRequestContext(env, s, call.sessionToken, call.requestCharge, call.collectionSizeUsageKilobytes, call.statusCode)
  }

  /**
   * The three generic `UpdateFhirRequestContext` adapters. A feed response
   * never yields a throttled notification, and a stored-procedure response
   * never yields one with a collection size.
   */
  function UpdateFhirRequestContextFrom(env: Collaborators, s: Scope, response: BackendResponse): (s': Scope)
    ensures s.context.None? ==> s' == s
    ensures s.context.Some? ==> SessionHeaderRule(HeadersOf(s), HeadersOf(s'), response.sessionToken)
    ensures s.context.Some? ==> ChargeHeaderRule(HeadersOf(s), HeadersOf(s'), env.formatCharge(response.requestCharge))
    ensures s.context.Some? ==> s'.context.Some? && SameSubject(s.context.value, s'.context.value)
    ensures s.context.Some? ==> OtherHeadersUnchanged(HeadersOf(s), HeadersOf(s'))
    ensures s.context.Some? ==>
      PublishedOnce(env, s.published, s'.published,
                    NewNotification(s.context.value.auditEventType, s.context.value.resourceType, response.requestCharge,
                                    ToCallMetrics(response).collectionSizeUsageKilobytes, ToCallMetrics(response).statusCode))
    ensures |s.published| <= |s'.published| <= |s.published| + 1
    ensures s'.published[..|s.published|] == s.published
    ensures forall k :: |s.published| <= k < |s'.published| ==>
      && s'.published[k].requestCount == Some(1)
      && s'.published[k].totalRequestCharge == response.requestCharge
      && (response.FeedResponse? ==>
            s'.published[k].collectionSizeUsageKilobytes == Some(response.collectionSizeUsage)
            && s'.published[k].throttledCount.None?)
      && (response.StoredProcedureResponse? ==>
            s'.published[k].collectionSizeUsageKilobytes.None?
            && (s'.published[k].throttledCount.Some? <==> response.statusCode == TooManyRequests))
      && (response.ResourceResponse? ==>
            s'.published[k].collectionSizeUsageKilobytes == Some(response.collectionSizeUsage)
            && (s'.published[k].throttledCount.Some? <==> response.statusCode == TooManyRequests))
  {
    Record(env, s, ToCallMetrics(response))
  }

  /** The calls of one request, folded in order through the core overload. */
  function RecordAll(env: Collaborators, s: Scope, calls: seq<CallMetrics>): (s': Scope)
    ensures s.context.None? ==> s' == s
    ensures s.context.Some? ==> s'.context.Some? && SameSubject(s.context.value, s'.context.value)
    ensures s.context.Some? ==> OtherHeadersUnchanged(HeadersOf(s), HeadersOf(s'))
    decreases |calls|
  {
    if |calls| == 0 then s
    else RecordAll(env, Record(env, s, calls[0]), calls[1..])
  }

  /**
   * A throwing publisher changes nothing but the notification log: over a whole
   * run of calls, the context ends the same as with any other publisher, and
   * the log stays as it was.
   */
  lemma {:induction false} PublishFailureKeepsHeaderUpdates(env: Collaborators, s: Scope, calls: seq<CallMetrics>)
    ensures
      var failing := Collaborators(env.formatCharge, n => PublishThrew);
      && RecordAll(failing, s, calls).context == RecordAll(env, s, calls).context
      && RecordAll(failing, s, calls).published == s.published
    decreases |calls|
  {
    var failing := Collaborators(env.formatCharge, n => PublishThrew);
    if |calls| > 0 {
      var s1 := Record(env, s, calls[0]);
      var f1 := Record(failing, s, calls[0]);
      assert f1 == Scope(s1.context, s.published);
      PublishFailureKeepsHeaderUpdates(env, f1, calls[1..]);
      SameContextSameHeaders(env, f1, s1, calls[1..]);
    }
  }

  /** A run's effect on the context depends only on the context it starts from, not on the log. */
  lemma {:induction false} SameContextSameHeaders(env: Collaborators, s: Scope, t: Scope, calls: seq<CallMetrics>)
    requires s.context == t.context
    ensures RecordAll(env, s, calls).context == RecordAll(env, t, calls).context
    decreases |calls|
  {
    if |calls| > 0 {
      SameContextSameHeaders(env, Record(env, s, calls[0]), Record(env, t, calls[0]), calls[1..]);
    }
  }

  /** Reference definition: the token of the last call whose session token is neither null nor empty. */
  function LastSessionToken(calls: seq<CallMetrics>): Option<string>
    decreases |calls|
  {
    if |calls| == 0 then None
    else match LastSessionToken(calls[1..])
      case Some(t) => Some(t)
      case None => if IsNullOrEmpty(calls[0].sessionToken) then None else calls[0].sessionToken
  }

  /** Reference definition: the notifications a run of calls delivers, in call order. */
  function DeliveredNotifications(
    env: Collaborators,
    auditEventType: string,
    resourceType: string,
    calls: seq<CallMetrics>): seq<Notification>
    decreases |calls|
  {
    if |calls| == 0 then []
    else
      var c := calls[0];
      var n := NewNotification(auditEventType, resourceType, c.requestCharge, c.collectionSizeUsageKilobytes, c.statusCode);
      (if env.publish(n) == Delivered then [n] else []) + DeliveredNotifications(env, auditEventType, resourceType, calls[1..])
  }

  /**
   * After a run of calls the session-token header holds the last usable token,
   * or is as it was when no call carried one.
   */
  lemma {:induction false} SessionHeaderIsLastToken(env: Collaborators, s: Scope, calls: seq<CallMetrics>)
    requires s.context.Some?
    ensures
      var h := HeadersOf(RecordAll(env, s, calls));
      match LastSessionToken(calls)
      case Some(t) => SessionTokenHeader in h && h[SessionTokenHeader] == t
      case None => EqualOnKey(HeadersOf(s), h, SessionTokenHeader)
    decreases |calls|
  {
    if |calls| > 0 {
      SessionHeaderIsLastToken(env, Record(env, s, calls[0]), calls[1..]);
    }
  }

  /**
   * The request-charge header is settled by the first call that finds it
   * absent: later calls neither sum nor concatenate their charges into it.
   */
  lemma {:induction false} ChargeHeaderKeepsFirstCharge(env: Collaborators, s: Scope, calls: seq<CallMetrics>)
    requires s.context.Some? && |calls| > 0
    ensures
      var h := HeadersOf(RecordAll(env, s, calls));
      && RequestChargeHeader in h
      && h[RequestChargeHeader] ==
           if RequestChargeHeader in HeadersOf(s) then HeadersOf(s)[RequestChargeHeader]
           else env.formatCharge(calls[0].requestCharge)
    decreases |calls|
  {
    var s1 := Record(env, s, calls[0]);
    if |calls| > 1 {
      ChargeHeaderKeepsFirstCharge(env, s1, calls[1..]);
    }
  }

  /**
   * Every call of a run with an active context builds exactly one notification,
   * and the log grows by exactly the ones the publisher delivered, in order.
   */
  lemma {:induction false} PublishedLogIsDeliveredNotifications(env: Collaborators, s: Scope, calls: seq<CallMetrics>)
    requires s.context.Some?
    ensures RecordAll(env, s, calls).published ==
            s.published + DeliveredNotifications(env, s.context.value.auditEventType, s.context.value.resourceType, calls)
    decreases |calls|
  {
    if |calls| > 0 {
      var s1 := Record(env, s, calls[0]);
      PublishedLogIsDeliveredNotifications(env, s1, calls[1..]);
    }
  }

  /** Each delivered notification reports one request and its own call's charge, never a running total. */
  lemma {:induction false} DeliveredNotificationsArePerCall(
    env: Collaborators,
    auditEventType: string,
    resourceType: string,
    calls: seq<CallMetrics>)
    ensures |DeliveredNotifications(env, auditEventType, resourceType, calls)| <= |calls|
    ensures forall n :: n in DeliveredNotifications(env, auditEventType, resourceType, calls) ==>
      && n.requestCount == Some(1)
      && n.auditEventType == auditEventType && n.resourceType == resourceType
      && exists c :: c in calls && n.totalRequestCharge == c.requestCharge
    decreases |calls|
  {
    if |calls| > 0 {
      DeliveredNotificationsArePerCall(env, auditEventType, resourceType, calls[1..]);
      assert forall c :: c in calls[1..] ==> c in calls;
    }
  }
}
