# Cosmos DB request telemetry and fault classification

A Dafny model of two pieces of the FHIR server's Cosmos DB storage layer.

- **`MetricProcessor`** is the telemetry accumulator. It folds one backend call's session token, request charge, optional collection size and optional status into the active FHIR request context's response headers. It then builds one `CosmosStorageRequestMetricsNotification` and publishes it. A publisher that throws is caught and ignored.
- **`ExceptionProcessor.ProcessException`** is the fault classifier. It first records a failed backend call's cost through the accumulator. It then either substitutes a domain error or lets the original failure propagate. Rate limiting (status 429) gives `RequestRateExceededException`. Otherwise a message containing "Invalid Continuation Token" gives `RequestNotValidException`. The message test is ordinal and ignores case.

Files:

- `wrappers.dfy`: `Option`, which stands in for C# `null` and `Nullable<T>`.
- `ordinal_text.dfy`: the ordinal case-insensitive substring test. It has a reference definition (`Occurs`) and the recursive executable test `ContainsIgnoreCase` that the classifier uses. `IndexOfIgnoreCase` is a search loop standing for the library's ordinal `IndexOf`, on which `string.Contains` is built; the classifier does not call it, and it is tied to the executable test through `Occurs`.
- `metric_processor.dfy`: the request context, the notification, the three response shapes, the header steps, and the core and adapter overloads. It also folds a run of calls through one request.
- `exception_processor.dfy`: the exception shapes, the classification outcome, `ProcessException` and its properties.

Design:

- The ambient `IFhirRequestContextAccessor` becomes an explicit `Scope`. A `Scope` holds an `Option` of the request context and the log of notifications delivered so far.
- The charge formatter and the mediator's `Publish` are passed in as `Collaborators`. The formatter is `double.ToString(CultureInfo.InvariantCulture)`. `Publish` either delivers or throws synchronously.
- Thrown exceptions become values of the `Classification` datatype: `PassThrough`, `RateLimited(retryAfter)`, `InvalidInput(message)` or `ArgumentNull`.

**The request-charge header keeps its first value.** When the header is already present, line 88 of `MetricProcessor.cs` calls LINQ `Append` on the stored `StringValues` and discards the result. The stored value is never reassigned. So after a run of calls the header holds the charge of the first call that found it absent (`ChargeHeaderKeepsFirstCharge`). The code comment at lines 77-78 speaks of a new total, but charges are neither summed nor concatenated.

## Model

| member | source | states |
|---|---|---|
| `MetricProcessor.UpdateFhirRequestContext` | src/Microsoft.Health.Fhir.CosmosDb/Features/Metrics/MetricProcessor.cs:60-73 | Without an active context nothing changes and nothing is published. With one: a non-empty token overwrites the session header and a null or empty one leaves it as it was; the charge header is set to the formatted charge only when absent; every other header and the audit/resource types are kept; exactly one notification is built and is appended to the log iff the publisher delivers it. |
| `MetricProcessor.AddRequestChargeToFhirRequestContext` | src/Microsoft.Health.Fhir.CosmosDb/Features/Metrics/MetricProcessor.cs:75-120 | Charge header set iff it was absent and otherwise left unreassigned; session and other headers untouched; one notification built from the context's types and the call's values; a throwing publisher leaves the log unchanged and the header update in place. |
| `MetricProcessor.SetSessionToken` | src/Microsoft.Health.Fhir.CosmosDb/Features/Metrics/MetricProcessor.cs:67-70 | A non-null non-empty token becomes the session header's value; a null or empty token changes no header; no other header (charge included) changes. |
| `MetricProcessor.MergeRequestCharge` | src/Microsoft.Health.Fhir.CosmosDb/Features/Metrics/MetricProcessor.cs:86-93 | An absent charge header afterwards equals the formatted charge; a present one keeps its prior value (the `Append` result is discarded); no other header changes. |
| `MetricProcessor.NewNotification` | src/Microsoft.Health.Fhir.CosmosDb/Features/Metrics/MetricProcessor.cs:95-110 | Audit-event and resource types copied; `TotalRequestCharge` is this call's charge; `RequestCount` is 1; the size is set iff one was supplied, and to it; `ThrottledCount` is set iff the status is present and 429, and then it is 1. |
| `MetricProcessor.ToCallMetrics` | src/Microsoft.Health.Fhir.CosmosDb/Features/Metrics/MetricProcessor.cs:37-51 | Every adapter passes its token and charge; the size is passed iff the response is not a stored-procedure response; the status iff it is not a feed response. |
| `MetricProcessor.UpdateFhirRequestContextFrom` | src/Microsoft.Health.Fhir.CosmosDb/Features/Metrics/MetricProcessor.cs:37-51 | Through any adapter: no-op without a context; otherwise the context stays active with its audit/resource types, the session and charge header rules hold, no other header changes, and the log grows by exactly the call's notification iff the publisher delivers it. That notification has `RequestCount` 1 and this call's charge; a feed response's carries its size and is never throttled; a stored-procedure response's has no size and is throttled iff its status is 429; a point response's carries its size and is throttled iff its status is 429. |
| `MetricProcessor.PublishFailureKeepsHeaderUpdates` | src/Microsoft.Health.Fhir.CosmosDb/Features/Metrics/MetricProcessor.cs:112-119 | Over any run of calls, a publisher that always throws leaves the context exactly as a delivering publisher would, headers included, and leaves the notification log unchanged. |
| `MetricProcessor.RecordAll` | src/Microsoft.Health.Fhir.CosmosDb/Features/Metrics/MetricProcessor.cs:60-93 | Over a run of calls: no-op without a context; otherwise the context stays active, the audit/resource types are kept and no header other than session token and charge changes. |
| `MetricProcessor.SessionHeaderIsLastToken` | src/Microsoft.Health.Fhir.CosmosDb/Features/Metrics/MetricProcessor.cs:67-70 | After a run of calls the session header holds the token of the last call whose token is non-empty, or is as before when there is none. |
| `MetricProcessor.ChargeHeaderKeepsFirstCharge` | src/Microsoft.Health.Fhir.CosmosDb/Features/Metrics/MetricProcessor.cs:77-93 | After a non-empty run of calls the charge header holds its prior value if it was present, else the formatted charge of the first call: charges are neither summed nor concatenated. |
| `MetricProcessor.PublishedLogIsDeliveredNotifications` | src/Microsoft.Health.Fhir.CosmosDb/Features/Metrics/MetricProcessor.cs:95-119 | After a run of calls the log is the old log followed by exactly the per-call notifications the publisher delivered, in call order. |
| `MetricProcessor.DeliveredNotificationsArePerCall` | src/Microsoft.Health.Fhir.CosmosDb/Features/Metrics/MetricProcessor.cs:95-110 | At most one notification per call; each has `RequestCount` 1, the context's types, and a charge that is one call's own charge, not a running total. |
| `ExceptionProcessor.Classify` | src/Microsoft.Health.Fhir.CosmosDb/Features/Storage/ExceptionProcessor.cs:48-55 | Status 429 gives `RateLimited` with the retry hint; otherwise a message containing the marker (ignoring case) gives `InvalidInput` with the resource text; otherwise `PassThrough`. |
| `ExceptionProcessor.ProcessException` | src/Microsoft.Health.Fhir.CosmosDb/Features/Storage/ExceptionProcessor.cs:35-57 | Without a context: no change, pass-through, even for a null exception. With one: null gives `ArgumentNull` and other exception types pass through, both recording nothing; a backend-client exception is recorded with no token, no size and its own charge and status, then classified by the decision table. |
| `ExceptionProcessor.ClassificationKeepsSessionHeader` | src/Microsoft.Health.Fhir.CosmosDb/Features/Storage/ExceptionProcessor.cs:46 | Classification never changes the session header nor any header besides the charge, and never activates or drops the context. |
| `ExceptionProcessor.BackendFailureRecordedOnce` | src/Microsoft.Health.Fhir.CosmosDb/Features/Storage/ExceptionProcessor.cs:44-51 | A backend-client failure adds at most one notification (iff delivered), with the failure's charge, no size, `RequestCount` 1, and `ThrottledCount` 1 exactly when the outcome is `RateLimited`; the charge header rule holds. |
| `ExceptionProcessor.RateLimitTakesPrecedence` | src/Microsoft.Health.Fhir.CosmosDb/Features/Storage/ExceptionProcessor.cs:48-55 | A 429 whose message contains the continuation-token marker is still `RateLimited` with its retry hint. |
| `ExceptionProcessor.ClassificationIgnoresMessageCase` | src/Microsoft.Health.Fhir.CosmosDb/Features/Storage/ExceptionProcessor.cs:52 | Two messages that differ only in letter case give identical results. |
| `ExceptionProcessor.UpperCaseMarkerIsInvalidInput` | src/Microsoft.Health.Fhir.CosmosDb/Features/Storage/ExceptionProcessor.cs:52-55 | With a non-429 status, an upper-cased message holding the marker anywhere yields `InvalidInput`. |
| `OrdinalText.ContainsIgnoreCaseIsOccurs` | src/Microsoft.Health.Fhir.CosmosDb/Features/Storage/ExceptionProcessor.cs:52 | The recursive executable test is true iff some offset starts a case-insensitive occurrence of the needle. |
| `OrdinalText.IndexOfIgnoreCase` | src/Microsoft.Health.Fhir.CosmosDb/Features/Storage/ExceptionProcessor.cs:52 | Returns -1 iff there is no occurrence; otherwise the first offset at which the needle occurs ignoring case. |
| `OrdinalText.OccursIgnoresCaseOfText` | src/Microsoft.Health.Fhir.CosmosDb/Features/Storage/ExceptionProcessor.cs:52 | Whether the needle occurs does not change when the text's letters change case. |

## Left out

- Charge formatting: `double.ToString(CultureInfo.InvariantCulture)` is a parameter (`Collaborators.formatCharge`); charges are `real`, so NaN, infinities and rounding of `double` are not modelled.
- Publishing: MediatR `Publish` returns a task that is never awaited, so only a synchronous throw reaches the `catch`. The publisher is a deliver-or-throw function; asynchronous faults are not modelled. The log holds delivered notifications only.
- Logging (`LogCritical` in the `catch`) and the constructors' `EnsureArg` null checks on injected collaborators: dependency-injection plumbing with no effect on headers, notifications or outcomes.
- Exceptions are not thrown: `ProcessException` returns a `Classification`; `PassThrough` means the caller's original exception continues unchanged.
- The text of `Resources.InvalidContinuationToken` lives in a localised resource file that is not part of this model; it is a parameter of `ProcessException`.
- The `CosmosDbHeaders` constants are not part of this model; the header names used are Cosmos DB's `x-ms-session-token` and `x-ms-request-charge`, and only their distinctness matters to the properties.
- Response headers are a map with exact-match keys and single string values; header order, case-insensitive header-name lookup and multi-valued `StringValues` are not modelled.
- `OrdinalText`: only ASCII letters are case-folded; `OrdinalIgnoreCase` also folds non-ASCII letters, which the all-ASCII marker can match only through characters whose upper-case form is ASCII.
- `RetryAfter` (a `TimeSpan`) is an `int` count of ticks; the status code is an `int` compared against 429.
- Concurrency: calls against one context are taken to be sequential, as the source assumes.
