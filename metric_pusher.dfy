/** A model of the push dispatcher of Prometheus.Client.MetricPusher: the static
    MetricPusher.PushAsync overloads, which encode one metrics snapshot, POST it
    to every listed push-gateway endpoint under /job/{job}[/instance/{instance}],
    wait for every delivery, and then raise the first faulted delivery's
    exception; failing that, a cancellation; failing that, the first
    non-success response, all in registration order.

    Strings are `seq<char>`. A C# null string is represented by "": every string
    argument of PushAsync is only ever inspected through string.IsNullOrEmpty
    before it is used, so null and "" take the same path. Only the endpoints
    ARRAY may be null on its own (an `Option`).

    What the code hands to collaborators it does not define is a parameter:
    `isAbsolute` stands for Uri.TryCreate(url, UriKind.Absolute, ...), `scrape`
    for collecting the registry and encoding it with a content type, and
    `respond` for the outcome of the i-th POST once every delivery is terminal. */
module MetricPusher {

  datatype Option<+T> = None | Some(value: T)

  /** The encoded metrics snapshot, produced once per push and shared by every delivery. */
  type Payload = seq<bv8>

  /** The default exposition content type. */
  const DefaultContentType: string := "text/plain; version=0.0.4"

  /** The terminal state of one POST: a response with its status code, a task
      that faulted (connection refused, DNS, TLS), or a task that was canceled
      (the HttpClient timeout elapsed). */
  datatype Outcome = Response(status: int) | Faulted | Canceled

  /** HttpResponseMessage.IsSuccessStatusCode, which EnsureSuccessStatusCode checks. */
  predicate IsSuccess(o: Outcome) {
    o.Response? && 200 <= o.status <= 299
  }

  /** The exceptions PushAsync can raise. */
  datatype PushError =
    | ArgumentNull(paramName: string)             // ArgumentNullException(nameof(...))
    | ArgumentInvalid(paramName: string)          // ArgumentException("Endpoint must be a valid url", ...)
    | NullReference                               // endpoints.Length on a null array
    | DeliveryFailed(index: nat, outcome: Outcome) // the exception of the index-th delivery
    | RequestCanceled                             // a TaskCanceledException that identifies no delivery

  /** One POST that was started: its target URL and the body it carries. */
  datatype Delivery = Delivery(target: string, body: Payload)

  /** Everything observable about one push call: the exception raised (None when
      the call completes normally), whether the registry was collected and
      encoded, and the POSTs that were started, in the order they were started. */
  datatype PushReport = PushReport(error: Option<PushError>, collected: bool, posted: seq<Delivery>)

  // ---------------------------------------------------------------------------
  // Content type
  // ---------------------------------------------------------------------------

  /** The content type handed to the encoder: the default when the caller gives
      none, and null otherwise, so the caller's own value is never used. */
  function ResolveContentType(contentType: string): (r: Option<string>)
    ensures r.Some? <==> contentType == ""
    ensures r.Some? ==> r.value == DefaultContentType
    ensures r != Some(contentType)
  {
    if contentType == "" then Some(DefaultContentType) else None
  }

  // ---------------------------------------------------------------------------
  // Target URL
  // ---------------------------------------------------------------------------

  /** string.TrimEnd('/'): the longest prefix of `s` that does not end in '/'
      and is followed only by '/' characters. */
  function TrimEndSlashes(s: string): (r: string)
    ensures r <= s
    ensures r == [] || r[|r| - 1] != '/'
    ensures forall i :: |r| <= i < |s| ==> s[i] == '/'
    decreases |s|
  {
    if s != [] && s[|s| - 1] == '/' then TrimEndSlashes(s[..|s| - 1]) else s
  }

  /** The characterisation in TrimEndSlashes' contract determines its result. */
  lemma TrimEndSlashesUnique(s: string, p: string)
    requires p <= s
    requires p == [] || p[|p| - 1] != '/'
    requires forall i :: |p| <= i < |s| ==> s[i] == '/'
    ensures p == TrimEndSlashes(s)
  {
  }

  /** Trimming twice is trimming once. */
  lemma TrimEndSlashesIdempotent(s: string)
    ensures TrimEndSlashes(TrimEndSlashes(s)) == TrimEndSlashes(s)
  {
    var r := TrimEndSlashes(s);
    TrimEndSlashesUnique(r, r);
  }

  /** Appending any run of '/' to a string leaves its trimmed form unchanged. */
  lemma {:induction false} TrimEndSlashesIgnoresTrailing(s: string, t: string)
    requires forall i :: 0 <= i < |t| ==> t[i] == '/'
    ensures TrimEndSlashes(s + t) == TrimEndSlashes(s)
    decreases |t|
  {
    if t != [] {
      var t' := t[..|t| - 1];
      assert (s + t)[..|s + t| - 1] == s + t';
      TrimEndSlashesIgnoresTrailing(s, t');
    } else {
      assert s + t == s;
    }
  }

  /** The URL PushAsync posts to for one endpoint: the endpoint without its
      trailing '/'s, the job segment, and the instance segment when an instance
      is given. */
  function BuildUrl(endpoint: string, job: string, instance: string): (u: string)
    ensures instance == "" ==> u == TrimEndSlashes(endpoint) + "/job/" + job
    ensures instance != "" ==> u == TrimEndSlashes(endpoint) + "/job/" + job + "/instance/" + instance
  {
    var url := TrimEndSlashes(endpoint) + "/job/" + job;
    if instance == "" then url else url + "/instance/" + instance
  }

  /** The URL is exactly the trimmed endpoint and the job segment when, and
      only when, no instance is given. */
  lemma UrlShape(endpoint: string, job: string, instance: string)
    ensures var p := TrimEndSlashes(endpoint);
      instance == "" <==> BuildUrl(endpoint, job, instance) == p + "/job/" + job
  {
    var p, u := TrimEndSlashes(endpoint), BuildUrl(endpoint, job, instance);
    if instance != "" {
      assert |u| > |p + "/job/" + job|;
    }
  }

  /** An endpoint written with trailing '/'s builds the same URL as without them. */
  lemma UrlIgnoresTrailingSlashes(endpoint: string, t: string, job: string, instance: string)
    requires forall i :: 0 <= i < |t| ==> t[i] == '/'
    ensures BuildUrl(endpoint + t, job, instance) == BuildUrl(endpoint, job, instance)
  {
    TrimEndSlashesIgnoresTrailing(endpoint, t);
  }

  // ---------------------------------------------------------------------------
  // Specification of one push call
  // ---------------------------------------------------------------------------

  /** The index of the first true entry, or |bs| when there is none. */
  function FirstTrue(bs: seq<bool>): (k: nat)
    ensures k <= |bs|
    ensures forall i :: 0 <= i < k ==> !bs[i]
    ensures k < |bs| ==> bs[k]
  {
    if bs == [] || bs[0] then 0 else 1 + FirstTrue(bs[1..])
  }

  lemma FirstTrueAt(bs: seq<bool>, k: nat)
    requires k <= |bs|
    requires forall i :: 0 <= i < k ==> !bs[i]
    requires k < |bs| ==> bs[k]
    ensures FirstTrue(bs) == k
  {
  }

  /** The exception the endpoint loop raises for one endpoint, if any: empty,
      or not an absolute URI once the job and instance segments are appended. */
  function EndpointError(endpoint: string, job: string, instance: string, isAbsolute: string -> bool): (r: Option<PushError>)
    ensures r.None? <==> endpoint != "" && isAbsolute(BuildUrl(endpoint, job, instance))
    ensures r == Some(ArgumentNull("endpoint")) <==> endpoint == ""
    ensures r.Some? ==> (r.value.ArgumentNull? || r.value.ArgumentInvalid?) && r.value.paramName == "endpoint"
  {
    if endpoint == "" then Some(ArgumentNull("endpoint"))
    else if !isAbsolute(BuildUrl(endpoint, job, instance)) then Some(ArgumentInvalid("endpoint"))
    else None
  }

  function Rejections(es: seq<string>, job: string, instance: string, isAbsolute: string -> bool): (bs: seq<bool>)
    ensures |bs| == |es|
  {
    seq(|es|, i requires 0 <= i < |es| => EndpointError(es[i], job, instance, isAbsolute).Some?)
  }

  /** The deliveries for the first k endpoints, in input order. */
  function Dispatched(es: seq<string>, job: string, instance: string, body: Payload, k: nat): (ds: seq<Delivery>)
    requires k <= |es|
    ensures |ds| == k
  {
    seq(k, i requires 0 <= i < k => Delivery(BuildUrl(es[i], job, instance), body))
  }

  lemma DispatchedNext(es: seq<string>, job: string, instance: string, body: Payload, k: nat)
    requires k < |es|
    ensures Dispatched(es, job, instance, body, k + 1)
         == Dispatched(es, job, instance, body, k) + [Delivery(BuildUrl(es[k], job, instance), body)]
  {
  }

  /** The terminal states of the first n deliveries. */
  function Outcomes(respond: nat -> Outcome, n: nat): (os: seq<Outcome>)
    ensures |os| == n
  {
    seq(n, i requires 0 <= i < n => respond(i))
  }

  lemma OutcomesNext(respond: nat -> Outcome, n: nat)
    ensures Outcomes(respond, n + 1) == Outcomes(respond, n) + [respond(n)]
  {
  }

  function Faults(os: seq<Outcome>): (bs: seq<bool>)
    ensures |bs| == |os|
  {
    seq(|os|, i requires 0 <= i < |os| => os[i].Faulted?)
  }

  function Cancellations(os: seq<Outcome>): (bs: seq<bool>)
    ensures |bs| == |os|
  {
    seq(|os|, i requires 0 <= i < |os| => os[i].Canceled?)
  }

  function Failures(os: seq<Outcome>): (bs: seq<bool>)
    ensures |bs| == |os|
  {
    seq(|os|, i requires 0 <= i < |os| => !IsSuccess(os[i]))
  }

  /** The exception raised once every delivery is terminal. Awaiting
      Task.WhenAll rethrows the first faulted delivery's exception in
      registration order; with no fault but some canceled delivery, awaiting
      the joined task raises a TaskCanceledException that identifies no
      delivery; failing both, the status loop raises on the first
      non-success response. */
  function Aggregate(os: seq<Outcome>): (r: Option<PushError>)
    ensures r.Some? ==> r.value.DeliveryFailed? || r.value.RequestCanceled?
    ensures r.Some? && r.value.DeliveryFailed? ==>
      r.value.index < |os| && r.value.outcome == os[r.value.index] && !IsSuccess(os[r.value.index])
    ensures r == Some(RequestCanceled) ==> exists i :: 0 <= i < |os| && os[i].Canceled?
  {
    var f := FirstTrue(Faults(os));
    if f < |os| then Some(DeliveryFailed(f, os[f]))
    else if FirstTrue(Cancellations(os)) < |os| then Some(RequestCanceled)
    else
      var u := FirstTrue(Failures(os));
      if u < |os| then Some(DeliveryFailed(u, os[u])) else None
  }

  /** What one call of PushAsync(endpoints, job, instance, contentType) does. */
  function PushSpec(endpoints: Option<seq<string>>, job: string, instance: string, contentType: string,
                    isAbsolute: string -> bool, scrape: Option<string> -> Payload, respond: nat -> Outcome): (r: PushReport)
    ensures r.collected <==> job != ""
    ensures forall d :: d in r.posted ==> d.body == scrape(ResolveContentType(contentType))
    ensures endpoints.Some? ==> |r.posted| <= |endpoints.value|
    ensures endpoints.Some? ==>
      forall j :: 0 <= j < |r.posted| ==> r.posted[j].target == BuildUrl(endpoints.value[j], job, instance)
    ensures r.error.None? ==> endpoints.Some? && |r.posted| == |endpoints.value|
  {
    if job == "" then PushReport(Some(ArgumentNull("job")), false, [])
    else if endpoints.None? then PushReport(Some(NullReference), true, [])
    else
      var es := endpoints.value;
      var body := scrape(ResolveContentType(contentType));
      var k := FirstTrue(Rejections(es, job, instance, isAbsolute));
      var posted := Dispatched(es, job, instance, body, k);
      if k < |es| then PushReport(EndpointError(es[k], job, instance, isAbsolute), true, posted)
      else PushReport(Aggregate(Outcomes(respond, |es|)), true, posted)
  }

  // ---------------------------------------------------------------------------
  // The two PushAsync overloads
  // ---------------------------------------------------------------------------

  /** PushAsync(string[] endpoints, job, instance, contentType). */
  method Push(endpoints: Option<seq<string>>, job: string, instance: string, contentType: string,
              isAbsolute: string -> bool, scrape: Option<string> -> Payload, respond: nat -> Outcome)
    returns (error: Option<PushError>, collected: bool, posted: seq<Delivery>)
    ensures PushReport(error, collected, posted) == PushSpec(endpoints, job, instance, contentType, isAbsolute, scrape, respond)
  {
    var cntType: Option<string> := None;
    if contentType == "" {
      cntType := Some(DefaultContentType);
    }
    if job == "" {
      return Some(ArgumentNull("job")), false, [];
    }
    var body := scrape(cntType);
    collected := true;
    posted := [];
    if endpoints.None? {
      return Some(NullReference), collected, posted;
    }
    var es := endpoints.value;
    var tasks: seq<Outcome> := [];
    ghost var rejected := Rejections(es, job, instance, isAbsolute);
    for i := 0 to |es|
      invariant forall j :: 0 <= j < i ==> !rejected[j]
      invariant posted == Dispatched(es, job, instance, body, i)
      invariant tasks == Outcomes(respond, i)
    {
      var endpoint := es[i];
      if endpoint == "" {
        FirstTrueAt(rejected, i);
        return Some(ArgumentNull("endpoint")), collected, posted;
      }
      var url := BuildUrl(endpoint, job, instance);
      if !isAbsolute(url) {
        FirstTrueAt(rejected, i);
        return Some(ArgumentInvalid("endpoint")), collected, posted;
      }
      DispatchedNext(es, job, instance, body, i);
      OutcomesNext(respond, i);
      posted := posted + [Delivery(url, body)];
      tasks := tasks + [respond(i)];
    }
    FirstTrueAt(rejected, |es|);
    error := AwaitAll(tasks);
  }

  /** The tail of PushAsync once every delivery is started: await Task.WhenAll,
      then check each response's status in registration order. */
  method AwaitAll(tasks: seq<Outcome>) returns (error: Option<PushError>)
    ensures error == Aggregate(tasks)
  {
    // awaiting Task.WhenAll(tasks) rethrows the first faulted delivery, or
    // raises a cancellation when some delivery was canceled and none faulted
    var faulted := FirstTrue(Faults(tasks));
    if faulted < |tasks| {
      return Some(DeliveryFailed(faulted, tasks[faulted]));
    }
    if FirstTrue(Cancellations(tasks)) < |tasks| {
      return Some(RequestCanceled);
    }
    for i := 0 to |tasks|
      invariant forall j :: 0 <= j < i ==> IsSuccess(tasks[j])
    {
      if !IsSuccess(tasks[i]) {
        FirstTrueAt(Failures(tasks), i);
        return Some(DeliveryFailed(i, tasks[i]));
      }
    }
    FirstTrueAt(Failures(tasks), |tasks|);
    error := None;
  }

  /** PushAsync(string endpoint, job, instance, contentType): the array overload
      called with a one-element array. */
  method PushOne(endpoint: string, job: string, instance: string, contentType: string,
                 isAbsolute: string -> bool, scrape: Option<string> -> Payload, respond: nat -> Outcome)
    returns (error: Option<PushError>, collected: bool, posted: seq<Delivery>)
    ensures PushReport(error, collected, posted) == PushSpec(Some([endpoint]), job, instance, contentType, isAbsolute, scrape, respond)
  {
    error, collected, posted := Push(Some([endpoint]), job, instance, contentType, isAbsolute, scrape, respond);
  }

  // ---------------------------------------------------------------------------
  // Properties of a push call
  // ---------------------------------------------------------------------------

  /** An empty job is rejected before the registry is collected and before any POST. */
  lemma EmptyJobRejected(endpoints: Option<seq<string>>, instance: string, contentType: string,
                         isAbsolute: string -> bool, scrape: Option<string> -> Payload, respond: nat -> Outcome)
    ensures PushSpec(endpoints, "", instance, contentType, isAbsolute, scrape, respond)
         == PushReport(Some(ArgumentNull("job")), false, [])
  {
  }

  /** A null endpoints array fails after collection, with nothing posted. */
  lemma NullEndpointsArray(job: string, instance: string, contentType: string,
                           isAbsolute: string -> bool, scrape: Option<string> -> Payload, respond: nat -> Outcome)
    requires job != ""
    ensures PushSpec(None, job, instance, contentType, isAbsolute, scrape, respond)
         == PushReport(Some(NullReference), true, [])
  {
  }

  /** An empty endpoints array is not rejected: nothing is posted and the call succeeds. */
  lemma NoEndpointsSucceeds(job: string, instance: string, contentType: string,
                            isAbsolute: string -> bool, scrape: Option<string> -> Payload, respond: nat -> Outcome)
    requires job != ""
    ensures PushSpec(Some([]), job, instance, contentType, isAbsolute, scrape, respond)
         == PushReport(None, true, [])
  {
    assert Aggregate([]) == None;
  }

  /** When endpoint k is the first one that is empty or not an absolute URI, the
      call raises the argument error naming "endpoint", after exactly the POSTs
      for endpoints 0..k-1 and none for k or later. */
  lemma RejectedEndpointStopsDispatch(es: seq<string>, job: string, instance: string, contentType: string,
                                      isAbsolute: string -> bool, scrape: Option<string> -> Payload,
                                      respond: nat -> Outcome, k: nat)
    requires job != ""
    requires k < |es|
    requires forall j :: 0 <= j < k ==> EndpointError(es[j], job, instance, isAbsolute).None?
    requires EndpointError(es[k], job, instance, isAbsolute).Some?
    ensures var r := PushSpec(Some(es), job, instance, contentType, isAbsolute, scrape, respond);
      && r.error == Some(if es[k] == "" then ArgumentNull("endpoint") else ArgumentInvalid("endpoint"))
      && r.collected
      && |r.posted| == k
      && forall j :: 0 <= j < k ==> r.posted[j].target == BuildUrl(es[j], job, instance)
  {
    FirstTrueAt(Rejections(es, job, instance, isAbsolute), k);
  }

  /** When every endpoint is accepted, one POST per endpoint is started, in input
      order and with duplicates kept, each carrying the same body; the result is
      the aggregate of their outcomes. */
  lemma AcceptedEndpointsAllDispatched(es: seq<string>, job: string, instance: string, contentType: string,
                                       isAbsolute: string -> bool, scrape: Option<string> -> Payload,
                                       respond: nat -> Outcome)
    requires job != ""
    requires forall j :: 0 <= j < |es| ==> EndpointError(es[j], job, instance, isAbsolute).None?
    ensures var r := PushSpec(Some(es), job, instance, contentType, isAbsolute, scrape, respond);
      && |r.posted| == |es|
      && (forall j :: 0 <= j < |es| ==>
            r.posted[j] == Delivery(BuildUrl(es[j], job, instance), scrape(ResolveContentType(contentType))))
      && r.error == Aggregate(Outcomes(respond, |es|))
  {
    FirstTrueAt(Rejections(es, job, instance, isAbsolute), |es|);
  }

  /** The call completes normally exactly when the job is given, the array is not
      null, every endpoint is accepted and every delivery gets a success status. */
  lemma PushSucceedsIff(endpoints: Option<seq<string>>, job: string, instance: string, contentType: string,
                        isAbsolute: string -> bool, scrape: Option<string> -> Payload, respond: nat -> Outcome)
    ensures PushSpec(endpoints, job, instance, contentType, isAbsolute, scrape, respond).error.None?
        <==> && job != ""
             && endpoints.Some?
             && (forall j :: 0 <= j < |endpoints.value| ==>
                   EndpointError(endpoints.value[j], job, instance, isAbsolute).None?)
             && (forall j :: 0 <= j < |endpoints.value| ==> IsSuccess(respond(j)))
  {
    if job != "" && endpoints.Some? {
      var es := endpoints.value;
      var os := Outcomes(respond, |es|);
      var k := FirstTrue(Rejections(es, job, instance, isAbsolute));
      AggregateSucceedsIff(os);
      if k < |es| {
        assert EndpointError(es[k], job, instance, isAbsolute).Some?;
      } else {
        forall j | 0 <= j < |es| ensures EndpointError(es[j], job, instance, isAbsolute).None? {
          assert !Rejections(es, job, instance, isAbsolute)[j];
        }
        AcceptedEndpointsAllDispatched(es, job, instance, contentType, isAbsolute, scrape, respond);
        assert forall j :: 0 <= j < |es| ==> (IsSuccess(respond(j)) <==> IsSuccess(os[j]));
      }
    }
  }

  // ---------------------------------------------------------------------------
  // Properties of the outcome aggregation
  // ---------------------------------------------------------------------------

  /** The aggregation raises nothing exactly when every delivery succeeded. */
  lemma AggregateSucceedsIff(os: seq<Outcome>)
    ensures Aggregate(os).None? <==> forall i :: 0 <= i < |os| ==> IsSuccess(os[i])
  {
    var f := FirstTrue(Faults(os));
    var u := FirstTrue(Failures(os));
    if forall i :: 0 <= i < |os| ==> IsSuccess(os[i]) {
      FirstTrueAt(Faults(os), |os|);
      FirstTrueAt(Failures(os), |os|);
    } else if f < |os| {
      assert Aggregate(os).Some?;
    } else {
      var i :| 0 <= i < |os| && !IsSuccess(os[i]);
      assert Failures(os)[i];
    }
  }

  /** The first faulted delivery is reported, whatever came before it. */
  lemma AggregateReportsFirstFault(os: seq<Outcome>, j: nat)
    requires j < |os|
    requires os[j].Faulted?
    requires forall i :: 0 <= i < j ==> !os[i].Faulted?
    ensures Aggregate(os) == Some(DeliveryFailed(j, Faulted))
  {
    FirstTrueAt(Faults(os), j);
  }

  /** When no delivery faulted but one was canceled, the call raises a
      cancellation that names no delivery, whatever the responses were. */
  lemma AggregateReportsCancellation(os: seq<Outcome>, j: nat)
    requires forall i :: 0 <= i < |os| ==> !os[i].Faulted?
    requires j < |os|
    requires os[j].Canceled?
    ensures Aggregate(os) == Some(RequestCanceled)
  {
    FirstTrueAt(Faults(os), |os|);
    assert Cancellations(os)[j];
  }

  /** When every delivery got a response, the lowest-index non-success one is reported. */
  lemma AggregateReportsLowestFailure(os: seq<Outcome>, j: nat)
    requires forall i :: 0 <= i < |os| ==> os[i].Response?
    requires j < |os|
    requires !IsSuccess(os[j])
    requires forall i :: 0 <= i < j ==> IsSuccess(os[i])
    ensures Aggregate(os) == Some(DeliveryFailed(j, os[j]))
  {
    FirstTrueAt(Faults(os), |os|);
    FirstTrueAt(Cancellations(os), |os|);
    FirstTrueAt(Failures(os), j);
  }

  /** A fault at a later index outranks a non-success status at an earlier one,
      because Task.WhenAll is awaited before the status loop runs. */
  lemma FaultOutranksEarlierStatus()
    ensures Aggregate([Response(500), Faulted]) == Some(DeliveryFailed(1, Faulted))
  {
    AggregateReportsFirstFault([Response(500), Faulted], 1);
  }

  /** A fault at a later index also outranks a timed-out delivery at an earlier one. */
  lemma FaultOutranksEarlierCancellation()
    ensures Aggregate([Canceled, Faulted]) == Some(DeliveryFailed(1, Faulted))
  {
    AggregateReportsFirstFault([Canceled, Faulted], 1);
  }

  // ---------------------------------------------------------------------------
  // The single-endpoint overload and a worked example
  // ---------------------------------------------------------------------------

  /** A single accepted endpoint gets exactly one POST, and the call fails
      exactly when that delivery does. */
  lemma SingleEndpointPush(endpoint: string, job: string, instance: string, contentType: string,
                           isAbsolute: string -> bool, scrape: Option<string> -> Payload, respond: nat -> Outcome)
    requires job != ""
    requires EndpointError(endpoint, job, instance, isAbsolute).None?
    ensures var r := PushSpec(Some([endpoint]), job, instance, contentType, isAbsolute, scrape, respond);
      && r.posted == [Delivery(BuildUrl(endpoint, job, instance), scrape(ResolveContentType(contentType)))]
      && r.error == (if IsSuccess(respond(0)) then None
                     else if respond(0).Canceled? then Some(RequestCanceled)
                     else Some(DeliveryFailed(0, respond(0))))
  {
    AcceptedEndpointsAllDispatched([endpoint], job, instance, contentType, isAbsolute, scrape, respond);
    var os := Outcomes(respond, 1);
    assert os == [respond(0)];
    if IsSuccess(respond(0)) {
      AggregateSucceedsIff(os);
    } else if respond(0).Faulted? {
      AggregateReportsFirstFault(os, 0);
    } else if respond(0).Canceled? {
      AggregateReportsCancellation(os, 0);
    } else {
      AggregateReportsLowestFailure(os, 0);
    }
  }

  /** Two gateways, job "batch1", no instance and no content type: one POST to
      each gateway's /job/batch1, both with the default-encoded body. */
  lemma TwoGatewaysExample(isAbsolute: string -> bool, scrape: Option<string> -> Payload, respond: nat -> Outcome)
    requires isAbsolute("http://a:9091/job/batch1") && isAbsolute("http://b:9091/job/batch1")
    ensures var r := PushSpec(Some(["http://a:9091", "http://b:9091"]), "batch1", "", "", isAbsolute, scrape, respond);
      && r.posted == [Delivery("http://a:9091/job/batch1", scrape(Some(DefaultContentType))),
                      Delivery("http://b:9091/job/batch1", scrape(Some(DefaultContentType)))]
      && (r.error.None? <==> IsSuccess(respond(0)) && IsSuccess(respond(1)))
  {
    var es := ["http://a:9091", "http://b:9091"];
    assert TrimEndSlashes(es[0]) == es[0];
    assert TrimEndSlashes(es[1]) == es[1];
    assert BuildUrl(es[0], "batch1", "") == "http://a:9091/job/batch1";
    assert BuildUrl(es[1], "batch1", "") == "http://b:9091/job/batch1";
    AcceptedEndpointsAllDispatched(es, "batch1", "", "", isAbsolute, scrape, respond);
    PushSucceedsIff(Some(es), "batch1", "", "", isAbsolute, scrape, respond);
  }
}
