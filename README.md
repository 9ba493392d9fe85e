# MetricPusher push dispatcher, modelled in Dafny

This project models `MetricPusher.PushAsync` from Prometheus.Client.MetricPusher. A batch process calls it to push a snapshot of its metrics to one or more Prometheus push gateways. The call does the following, in order:

- it resolves the content type handed to the exposition encoder;
- it rejects an empty job;
- it collects and encodes the registry once;
- it walks the endpoints in input order, validating each one, building its target URL `{endpoint without trailing '/'}/job/{job}[/instance/{instance}]` and starting one POST for it;
- it waits for every POST, then raises the first faulted delivery's exception; failing that, a cancellation; failing that, the first non-success response, all in registration order.

Everything is in `metric_pusher.dfy`, module `MetricPusher`:

- `ResolveContentType`, `TrimEndSlashes` and `BuildUrl` are the expression-level parts of the code.
- `PushSpec` is a declarative specification of one call. It returns a `PushReport`: the exception raised, whether the registry was collected, and the POSTs started, in order.
- `Push` is the array overload. It is written step by step, like the source: a loop over the endpoints that appends to a `posted`/`tasks` accumulator and can return part-way through, then `AwaitAll`, whose loop over the outcomes stops at the first failure. It is proved equal to `PushSpec`.
- `PushOne` is the single-endpoint overload.
- The lemmas state what a caller can rely on.

How the parts the code does not define are represented:

- A C# `null` string is represented by `""`. Every string argument is only ever inspected through `string.IsNullOrEmpty` before it is used, so null and empty take the same path. Only the `endpoints` array itself may be null, which is modelled as `Option`.
- `Uri.TryCreate(url, UriKind.Absolute, …)` is the parameter `isAbsolute`.
- `CollectorRegistry.Instance.CollectAll()` followed by `ScrapeHandler.ProcessScrapeRequest` is the parameter `scrape`. It is applied once, to the resolved content type, and its result is the body shared by every delivery.
- The terminal state of the i-th POST is the parameter `respond(i)`. It is a `Response(status)`, `Faulted` (a transport error) or `Canceled` (the client timeout elapsed). `IsSuccess` defines `IsSuccessStatusCode`, the test `EnsureSuccessStatusCode` applies: a response with a status in 200–299. Faults and cancellations are never successes.

Behaviours of the code that the model keeps:

- An empty `endpoints` array is not rejected. The call posts nothing and succeeds (`NoEndpointsSucceeds`).
- An invalid endpoint at position k raises only after POSTs for endpoints 0..k-1 have been started (`RejectedEndpointStopsDispatch`). There is no up-front validation.
- A non-empty `contentType` leaves the encoder's content type null, so the caller's value is never used (`ResolveContentType`). The request itself carries no Content-Type header set by this code.
- `await Task.WhenAll(tasks)` rethrows the first *faulted* delivery in registration order before the status loop runs. So a transport fault at a later index is reported ahead of a non-success status or a timeout at an earlier index (`FaultOutranksEarlierStatus`, `FaultOutranksEarlierCancellation`).
- When no delivery faulted but some delivery was canceled, awaiting the joined task raises a TaskCanceledException that identifies no delivery (`AggregateReportsCancellation`).
- When every delivery got a response, the lowest-index non-success response is reported.

## Model

| member | source | states |
|---|---|---|
| MetricPusher.ResolveContentType | src/Prometheus.Client.MetricPusher/MetricPusher.cs:41-43 | the encoder gets the default `text/plain; version=0.0.4` exactly when the caller's content type is null or empty, and null otherwise; the caller's value is never passed on |
| MetricPusher.TrimEndSlashes | src/Prometheus.Client.MetricPusher/MetricPusher.cs:62 | `TrimEnd('/')` yields a prefix of the endpoint that does not end in `/`, followed in the endpoint only by `/` characters |
| MetricPusher.TrimEndSlashesUnique | src/Prometheus.Client.MetricPusher/MetricPusher.cs:62 | any prefix with those three properties is the trimmed endpoint, so the characterisation is exact |
| MetricPusher.TrimEndSlashesIdempotent | src/Prometheus.Client.MetricPusher/MetricPusher.cs:62 | trimming twice equals trimming once |
| MetricPusher.TrimEndSlashesIgnoresTrailing | src/Prometheus.Client.MetricPusher/MetricPusher.cs:62 | appending any run of `/` to an endpoint does not change its trimmed form |
| MetricPusher.BuildUrl | src/Prometheus.Client.MetricPusher/MetricPusher.cs:62-64 | the URL is the endpoint with its trailing `/`s removed, then `/job/{job}`, then `/instance/{instance}` only when the instance is non-empty |
| MetricPusher.UrlShape | src/Prometheus.Client.MetricPusher/MetricPusher.cs:62-64 | the URL is exactly the trimmed endpoint followed by `/job/{job}` if and only if the instance is empty |
| MetricPusher.UrlIgnoresTrailingSlashes | src/Prometheus.Client.MetricPusher/MetricPusher.cs:62-64 | for any endpoint and any run of `/` characters appended to it, the endpoint with the run builds the same target URL as the endpoint without it |
| MetricPusher.EndpointError | src/Prometheus.Client.MetricPusher/MetricPusher.cs:59-67 | an endpoint passes if and only if it is non-empty and its built URL is absolute; an empty one raises the null-argument error, and every rejection names `endpoint` |
| MetricPusher.Aggregate | src/Prometheus.Client.MetricPusher/MetricPusher.cs:72-78 | the outcome check raises either a cancellation, and only when some delivery was canceled, or the failure of a delivery that really did not succeed, carrying that delivery's own outcome |
| MetricPusher.PushSpec | src/Prometheus.Client.MetricPusher/MetricPusher.cs:39-79 | the registry is collected exactly when the job is non-empty; every POST carries the same body, encoded once with the resolved content type; POST j goes to the URL built from endpoint j, so there is at most one POST per endpoint, and exactly one per endpoint when the call succeeds |
| MetricPusher.Push | src/Prometheus.Client.MetricPusher/MetricPusher.cs:39-79 | the two loops (dispatch with validation interleaved, then the ordered result check) raise the same exception and start the same POSTs, in the same order, as `PushSpec` |
| MetricPusher.AwaitAll | src/Prometheus.Client.MetricPusher/MetricPusher.cs:72-78 | awaiting all deliveries and then checking each status in registration order raises exactly what `Aggregate` describes |
| MetricPusher.PushOne | src/Prometheus.Client.MetricPusher/MetricPusher.cs:26-29 | the single-endpoint overload behaves exactly like the array overload given a one-element array |
| MetricPusher.EmptyJobRejected | src/Prometheus.Client.MetricPusher/MetricPusher.cs:45-48 | an empty or null job raises `ArgumentNullException("job")` before metrics are collected and before any POST |
| MetricPusher.NullEndpointsArray | src/Prometheus.Client.MetricPusher/MetricPusher.cs:48-55 | a null endpoints array fails with a null reference after collection, with nothing posted |
| MetricPusher.NoEndpointsSucceeds | src/Prometheus.Client.MetricPusher/MetricPusher.cs:55-79 | an empty endpoints array posts nothing and completes normally |
| MetricPusher.RejectedEndpointStopsDispatch | src/Prometheus.Client.MetricPusher/MetricPusher.cs:57-69 | if endpoint k is the first empty or non-absolute one, the call raises the argument error naming `endpoint` (null-argument when empty, invalid-argument otherwise) after exactly the POSTs for endpoints 0..k-1, to their built URLs, and none for k or later |
| MetricPusher.AcceptedEndpointsAllDispatched | src/Prometheus.Client.MetricPusher/MetricPusher.cs:55-72 | when every endpoint validates, POST i goes to the URL built from endpoint i, in input order and with duplicates kept, all with the same body, and the result is the aggregate of their outcomes |
| MetricPusher.PushSucceedsIff | src/Prometheus.Client.MetricPusher/MetricPusher.cs:41-79 | the call completes normally if and only if the job is non-empty, the array is not null, every endpoint validates and every delivery returns a success status |
| MetricPusher.AggregateSucceedsIff | src/Prometheus.Client.MetricPusher/MetricPusher.cs:72-78 | the outcome check raises nothing if and only if every delivery succeeded |
| MetricPusher.AggregateReportsFirstFault | src/Prometheus.Client.MetricPusher/MetricPusher.cs:72 | the lowest-index faulted delivery is the one reported, whatever statuses precede it |
| MetricPusher.AggregateReportsCancellation | src/Prometheus.Client.MetricPusher/MetricPusher.cs:72 | when no delivery faulted but one was canceled, a cancellation is raised, whatever the responses were |
| MetricPusher.AggregateReportsLowestFailure | src/Prometheus.Client.MetricPusher/MetricPusher.cs:74-78 | when every delivery got a response, the lowest-index non-success response is the one reported |
| MetricPusher.FaultOutranksEarlierStatus | src/Prometheus.Client.MetricPusher/MetricPusher.cs:72-78 | with outcomes `[500, fault]` the fault at index 1 is reported, not the status at index 0 |
| MetricPusher.FaultOutranksEarlierCancellation | src/Prometheus.Client.MetricPusher/MetricPusher.cs:72 | with outcomes `[timeout, fault]` the fault at index 1 is reported, not the timeout at index 0 |
| MetricPusher.SingleEndpointPush | src/Prometheus.Client.MetricPusher/MetricPusher.cs:26-29 | a single valid endpoint gets exactly one POST to its built URL, and the call fails exactly when that delivery does, with that delivery's failure or a cancellation |
| MetricPusher.TwoGatewaysExample | src/Prometheus.Client.MetricPusher/MetricPusher.cs:57-70 | pushing job `batch1` to `http://a:9091` and `http://b:9091` posts to `http://a:9091/job/batch1` and `http://b:9091/job/batch1`, with identical default-encoded bodies, and succeeds if and only if both succeed |

## Left out

- The HTTP transport: `HttpClient`, `PostAsync` and `StreamContent`. Each delivery is reduced to its target URL, its body and the outcome supplied by `respond`.
- Concurrency and scheduling: when deliveries run and the order in which they complete. Completion order cannot affect the result, because `Task.WhenAll` and the status loop inspect outcomes in registration order. Outcomes are therefore inputs indexed by delivery. The exception ordering of `Task.WhenAll` (faults, then cancellation) is modelled in `Aggregate`; `ConfigureAwait` has no effect on the result.
- The POSTs started before an argument error at endpoint k keep running after the call has thrown. Their outcomes are never observed, and the model records only that they were started.
- The metrics registry and the exposition encoder (`CollectAll`, `ProcessScrapeRequest`). These are the opaque `scrape` parameter. The `MemoryStream` positioning, and the reuse of one `StreamContent` across several requests, are runtime stream behaviour and are not modelled.
- The parsing and normalisation that `Uri.TryCreate` performs. These are the uninterpreted `isAbsolute` parameter, and a delivery's target is the URL string before any `Uri` normalisation.
- The message text and the `HttpRequestException` or other exception type of a failed delivery. A failure is reported as `DeliveryFailed(index, outcome)`, or `RequestCanceled` for a cancellation, which identifies no delivery.
- A cancellation caused by anything other than the client timeout is not distinguished from a timeout; both are `Canceled`.
