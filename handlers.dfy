/**
 * The response shaping of the three authenticated endpoints of backend/app.py:
 * metrics (lines 87-110), logs (lines 113-138) and docs (lines 141-151). The
 * cloud SDK calls are oracles; what is modelled is what the handlers do with
 * their answers and which HTTP error each failure becomes.
 */
module Handlers {
  import opened Common

  /** Errors the SDK raises, by the exception class the handlers tell apart. */
  datatype AwsError =
    | ResourceNotFound(message: string)  // logs.exceptions.ResourceNotFoundException
    | NoSuchKey(message: string)         // s3.exceptions.NoSuchKey
    | ServiceError(message: string)      // any other exception, with its str()

  // ---------------------------------------------------------------------------
  // Metrics (backend/app.py:87-110)
  // ---------------------------------------------------------------------------

  /** One CloudWatch datapoint; Timestamp as seconds since the epoch. */
  datatype Datapoint = Datapoint(timestamp: int, average: real)

  /** The arguments of cw.get_metric_statistics. */
  datatype StatisticsRequest = StatisticsRequest(
    namespace: string, metricName: string, dimensions: seq<(string, string)>,
    startTime: int, endTime: int, period: int, statistics: seq<string>)

  /** Its answer; datapoints is None when the response has no "Datapoints" member. */
  datatype StatisticsResponse = StatisticsResponse(datapoints: Option<seq<Datapoint>>)

  const MetricNames: seq<string> := ["CPUUtilization", "MemoryUtilization"]
  const WindowSeconds := 60 * 60
  const PeriodSeconds := 60

  predicate Ascending(s: seq<Datapoint>)
  {
    forall i, j :: 0 <= i < j < |s| ==> s[i].timestamp <= s[j].timestamp
  }

  /** The datapoints of s with timestamp t, in their order in s. */
  function WithTimestamp(s: seq<Datapoint>, t: int): (r: seq<Datapoint>)
    decreases |s|
  {
    if s == [] then []
    else (if s[0].timestamp == t then [s[0]] else []) + WithTimestamp(s[1..], t)
  }

  /** d placed in the ascending s after every datapoint with a smaller timestamp. */
  function Insert(d: Datapoint, s: seq<Datapoint>): (r: seq<Datapoint>)
    decreases |s|
  {
    if s == [] || d.timestamp <= s[0].timestamp then [d] + s
    else [s[0]] + Insert(d, s[1..])
  }

  /** Insert adds d and nothing else. */
  lemma {:induction false} InsertIsPermutation(d: Datapoint, s: seq<Datapoint>)
    ensures multiset(Insert(d, s)) == multiset(s) + multiset{d}
    decreases |s|
  {
    if s != [] && s[0].timestamp < d.timestamp {
      InsertIsPermutation(d, s[1..]);
      assert s == [s[0]] + s[1..];
    }
  }

  /** A datapoint no later than any in an ascending sequence can go in front of it. */
  lemma AscendingCons(x: Datapoint, s: seq<Datapoint>)
    requires Ascending(s)
    requires forall j :: 0 <= j < |s| ==> x.timestamp <= s[j].timestamp
    ensures Ascending([x] + s)
  {
    var r := [x] + s;
    forall i, j | 0 <= i < j < |r|
      ensures r[i].timestamp <= r[j].timestamp
    {
      assert r[j] == s[j - 1];
      if i > 0 {
        assert r[i] == s[i - 1];
      }
    }
  }

  /** Insert keeps an ascending sequence ascending. */
  lemma {:induction false} InsertKeepsAscending(d: Datapoint, s: seq<Datapoint>)
    requires Ascending(s)
    ensures Ascending(Insert(d, s))
    decreases |s|
  {
    if s == [] || d.timestamp <= s[0].timestamp {
      AscendingCons(d, s);
    } else {
      var tail := Insert(d, s[1..]);
      assert Ascending(s[1..]);
      InsertKeepsAscending(d, s[1..]);
      InsertIsPermutation(d, s[1..]);
      forall j | 0 <= j < |tail|
        ensures s[0].timestamp <= tail[j].timestamp
      {
        assert tail[j] in multiset(tail);
        if tail[j] != d {
          assert tail[j] in multiset(s[1..]);
          var k :| 0 <= k < |s[1..]| && s[1..][k] == tail[j];
          assert s[k + 1] == tail[j];
        }
      }
      AscendingCons(s[0], tail);
    }
  }

  /** WithTimestamp looks at one datapoint at a time. */
  lemma WithTimestampCons(x: Datapoint, s: seq<Datapoint>, t: int)
    ensures WithTimestamp([x] + s, t) == (if x.timestamp == t then [x] else []) + WithTimestamp(s, t)
  {
    assert ([x] + s)[0] == x && ([x] + s)[1..] == s;
  }

  /** Among the datapoints with timestamp t, Insert puts d first. */
  lemma {:induction false} InsertWithTimestamp(d: Datapoint, s: seq<Datapoint>, t: int)
    ensures WithTimestamp(Insert(d, s), t) == (if d.timestamp == t then [d] else []) + WithTimestamp(s, t)
    decreases |s|
  {
    if s == [] || d.timestamp <= s[0].timestamp {
      WithTimestampCons(d, s, t);
    } else {
      var tail := Insert(d, s[1..]);
      assert Insert(d, s) == [s[0]] + tail;
      WithTimestampCons(s[0], tail, t);
      InsertWithTimestamp(d, s[1..], t);
      assert s == [s[0]] + s[1..];
      WithTimestampCons(s[0], s[1..], t);
      if s[0].timestamp == t {
        assert d.timestamp != t;
      }
    }
  }

  /** Inserting the head of s into a sorted permutation of its tail sorts s. */
  lemma InsertSortsHead(s: seq<Datapoint>, rest: seq<Datapoint>)
    requires s != [] && Ascending(rest) && multiset(rest) == multiset(s[1..])
    ensures Ascending(Insert(s[0], rest))
    ensures multiset(Insert(s[0], rest)) == multiset(s)
  {
    InsertKeepsAscending(s[0], rest);
    InsertIsPermutation(s[0], rest);
    assert s == [s[0]] + s[1..];
  }

  /**
   * `sorted(datapoints, key=lambda x: x["Timestamp"])`: ascending by timestamp
   * and a permutation of the input; SortIsStable adds the third property that
   * determines Python's sort.
   */
  function SortByTimestamp(s: seq<Datapoint>): (r: seq<Datapoint>)
    ensures Ascending(r)
    ensures multiset(r) == multiset(s)
    decreases |s|
  {
    if s == [] then []
    else
      var rest := SortByTimestamp(s[1..]);
      InsertSortsHead(s, rest);
      Insert(s[0], rest)
  }

  /** The sort is stable: datapoints with equal timestamps keep their relative order. */
  lemma {:induction false} SortIsStable(s: seq<Datapoint>, t: int)
    ensures WithTimestamp(SortByTimestamp(s), t) == WithTimestamp(s, t)
    decreases |s|
  {
    if s != [] {
      SortIsStable(s[1..], t);
      InsertWithTimestamp(s[0], SortByTimestamp(s[1..]), t);
    }
  }

  /**
   * The series for one metric: `[round(d["Average"], 2) for d in datapoints]`
   * over the sorted datapoints, one value per datapoint; `round2` stands for the
   * floating-point rounding.
   */
  function Series(resp: StatisticsResponse, round2: real -> real): (values: seq<real>)
    ensures var sorted := SortByTimestamp(if resp.datapoints.Some? then resp.datapoints.value else []);
      |values| == |sorted| && forall i :: 0 <= i < |values| ==> values[i] == round2(sorted[i].average)
  {
    var points := if resp.datapoints.Some? then resp.datapoints.value else [];
    var sorted := SortByTimestamp(points);
    seq(|sorted|, i requires 0 <= i < |sorted| => round2(sorted[i].average))
  }

  /** The query the handler sends for one metric of a service, for the hour before now. */
  function MetricQuery(cluster: string, service: string, now: int, metricName: string): (q: StatisticsRequest)
    ensures q.metricName == metricName && q.dimensions == [("ClusterName", cluster), ("ServiceName", service)]
    ensures q.endTime == now && q.endTime - q.startTime == 60 * q.period
    ensures q.statistics == ["Average"]
    ensures q.namespace == "AWS/ECS" && q.period == 60 && q.startTime == now - 60 * 60
  {
    StatisticsRequest("AWS/ECS", metricName, [("ClusterName", cluster), ("ServiceName", service)],
                      now - WindowSeconds, now, PeriodSeconds, ["Average"])
  }

  /** CloudWatch's answer to the query for the k-th metric name. */
  function Answer(cw: StatisticsRequest -> Result<StatisticsResponse, string>,
                  cluster: string, service: string, now: int, k: nat): Result<StatisticsResponse, string>
    requires k < |MetricNames|
  {
    cw(MetricQuery(cluster, service, now, MetricNames[k]))
  }

  /** The map the handler has built once the first k metric names were answered. */
  function Collected(cw: StatisticsRequest -> Result<StatisticsResponse, string>,
                     cluster: string, service: string, now: int, round2: real -> real, k: nat): map<string, seq<real>>
    requires k <= |MetricNames|
    requires forall j :: 0 <= j < k ==> Answer(cw, cluster, service, now, j).Ok?
  {
    if k == 0 then map[]
    else Collected(cw, cluster, service, now, round2, k - 1)[MetricNames[k - 1] := Series(Answer(cw, cluster, service, now, k - 1).value, round2)]
  }

  /** The two metric names differ, so each gets its own entry. */
  lemma MetricNamesDistinct()
    ensures forall i, j :: 0 <= i < j < |MetricNames| ==> MetricNames[i] != MetricNames[j]
  {
    assert |MetricNames[0]| != |MetricNames[1]|;
  }

  /** After k names the map holds exactly those names. */
  lemma {:induction false} CollectedKeys(cw: StatisticsRequest -> Result<StatisticsResponse, string>,
                                         cluster: string, service: string, now: int, round2: real -> real, k: nat)
    requires k <= |MetricNames|
    requires forall j :: 0 <= j < k ==> Answer(cw, cluster, service, now, j).Ok?
    ensures Collected(cw, cluster, service, now, round2, k).Keys == set j | 0 <= j < k :: MetricNames[j]
  {
    if k > 0 {
      CollectedKeys(cw, cluster, service, now, round2, k - 1);
      assert (set j | 0 <= j < k :: MetricNames[j]) == (set j | 0 <= j < k - 1 :: MetricNames[j]) + {MetricNames[k - 1]};
    }
  }

  /** After k names each of them maps to its own series. */
  lemma {:induction false} CollectedValues(cw: StatisticsRequest -> Result<StatisticsResponse, string>,
                                           cluster: string, service: string, now: int, round2: real -> real, k: nat)
    requires k <= |MetricNames|
    requires forall j :: 0 <= j < k ==> Answer(cw, cluster, service, now, j).Ok?
    ensures forall j :: 0 <= j < k ==> MetricNames[j] in Collected(cw, cluster, service, now, round2, k)
    ensures forall j :: 0 <= j < k ==>
      Collected(cw, cluster, service, now, round2, k)[MetricNames[j]] == Series(Answer(cw, cluster, service, now, j).value, round2)
  {
    if k > 0 {
      CollectedValues(cw, cluster, service, now, round2, k - 1);
      var last := Collected(cw, cluster, service, now, round2, k);
      var prev := Collected(cw, cluster, service, now, round2, k - 1);
      assert last == prev[MetricNames[k - 1] := Series(Answer(cw, cluster, service, now, k - 1).value, round2)];
      forall j | 0 <= j < k - 1
        ensures MetricNames[j] in last && last[MetricNames[j]] == prev[MetricNames[j]]
      {
        MetricNamesDistinct();
      }
    }
  }

  /**
   * The metrics endpoint: for each metric name in turn query CloudWatch and store
   * its series under the name; the first failure ends the request with a 500.
   */
  method Metrics(cluster: string, service: string, now: int,
                 cw: StatisticsRequest -> Result<StatisticsResponse, string>, round2: real -> real)
    returns (r: Result<map<string, seq<real>>, HttpError>)
    ensures r.Ok? <==> forall k :: 0 <= k < |MetricNames| ==> Answer(cw, cluster, service, now, k).Ok?
    ensures r.Ok? ==> r.value.Keys == set k | 0 <= k < |MetricNames| :: MetricNames[k]
    ensures r.Ok? ==> forall k :: 0 <= k < |MetricNames| ==>
      r.value[MetricNames[k]] == Series(Answer(cw, cluster, service, now, k).value, round2)
    ensures r.Err? ==>
      exists k ::
        && 0 <= k < |MetricNames|
        && (forall j :: 0 <= j < k ==> Answer(cw, cluster, service, now, j).Ok?)
        && Answer(cw, cluster, service, now, k).Err?
        && r.error == HttpError(500, "Metrics fetch failed: " + Answer(cw, cluster, service, now, k).error)
  {
    var metrics: map<string, seq<real>> := map[];
    var k := 0;
    while k < |MetricNames|
      invariant 0 <= k <= |MetricNames|
      invariant forall j :: 0 <= j < k ==> Answer(cw, cluster, service, now, j).Ok?
      invariant metrics == Collected(cw, cluster, service, now, round2, k)
    {
      var name := MetricNames[k];
      match Answer(cw, cluster, service, now, k)
      case Err(e) =>
        r := Err(HttpError(500, "Metrics fetch failed: " + e));
        assert Answer(cw, cluster, service, now, k).Err? && r.error.detail == "Metrics fetch failed: " + Answer(cw, cluster, service, now, k).error;
        return;
      case Ok(resp) =>
        metrics := metrics[name := Series(resp, round2)];
      k := k + 1;
    }
    CollectedKeys(cw, cluster, service, now, round2, k);
    CollectedValues(cw, cluster, service, now, round2, k);
    r := Ok(metrics);
  }

  // ---------------------------------------------------------------------------
  // Logs (backend/app.py:113-138)
  // ---------------------------------------------------------------------------

  datatype LogStream = LogStream(logStreamName: string)
  datatype LogEvent = LogEvent(message: string)

  /** The arguments of logs.describe_log_streams and its answer ("logStreams" may be missing). */
  datatype DescribeRequest = DescribeRequest(logGroupName: string, orderBy: string, descending: bool, limit: int)
  datatype DescribeResponse = DescribeResponse(logStreams: Option<seq<LogStream>>)

  /** The arguments of logs.get_log_events and its answer ("events" may be missing). */
  datatype EventsRequest = EventsRequest(logGroupName: string, logStreamName: string, limit: int, startFromHead: bool)
  datatype EventsResponse = EventsResponse(events: Option<seq<LogEvent>>)

  const LogLimit := 50

  /** The log group of a service. */
  function LogGroup(service: string): (g: string)
    ensures |g| == |service| + 5 && g[..5] == "/ecs/" && g[5..] == service
  {
    "/ecs/" + service
  }

  function Messages(events: seq<LogEvent>): (lines: seq<string>)
    ensures |lines| == |events| && forall i :: 0 <= i < |lines| ==> lines[i] == events[i].message
  {
    seq(|events|, i requires 0 <= i < |events| => events[i].message)
  }

  /** The request for the events of a stream of the service, newest last, at most 50. */
  function TailRequest(service: string, stream: LogStream): (r: EventsRequest)
    ensures r.logGroupName == LogGroup(service) && r.logStreamName == stream.logStreamName
    ensures r.limit == LogLimit && !r.startFromHead
  {
    EventsRequest(LogGroup(service), stream.logStreamName, LogLimit, false)
  }

  /**
   * The logs endpoint: the most recent lines of the most recently written stream
   * of the service's log group. A group that does not exist, a group without
   * streams and a stream that vanished meanwhile all give no lines, not an error.
   */
  function GetLogs(service: string,
                   describe: DescribeRequest -> Result<DescribeResponse, AwsError>,
                   getEvents: EventsRequest -> Result<EventsResponse, AwsError>): (r: Result<seq<string>, HttpError>)
    ensures var d := describe(DescribeRequest(LogGroup(service), "LastEventTime", true, 1));
      && (d.Err? && d.error.ResourceNotFound? ==> r == Ok([]))
      && (d.Err? && !d.error.ResourceNotFound? ==> r == Err(HttpError(500, "Logs fetch failed: " + d.error.message)))
      && (d.Ok? && (d.value.logStreams.None? || d.value.logStreams.value == []) ==> r == Ok([]))
      && (d.Ok? && d.value.logStreams.Some? && d.value.logStreams.value != [] ==>
            var e := getEvents(TailRequest(service, d.value.logStreams.value[0]));
            && (e.Err? && e.error.ResourceNotFound? ==> r == Ok([]))
            && (e.Err? && !e.error.ResourceNotFound? ==> r == Err(HttpError(500, "Logs fetch failed: " + e.error.message)))
            && (e.Ok? ==> r == Ok(Messages(if e.value.events.Some? then e.value.events.value else []))))
    ensures r.Err? ==> r.error.status == 500 && "Logs fetch failed: " <= r.error.detail
  {
    match describe(DescribeRequest(LogGroup(service), "LastEventTime", true, 1))
    case Err(e) => LogsFailure(e)
    case Ok(streams) =>
      if streams.logStreams.None? || streams.logStreams.value == [] then Ok([])
      else
        match getEvents(TailRequest(service, streams.logStreams.value[0]))
        case Err(e) => LogsFailure(e)
        case Ok(events) => Ok(Messages(if events.events.Some? then events.events.value else []))
  }

  /** The two except clauses of get_logs. */
  function LogsFailure(e: AwsError): (r: Result<seq<string>, HttpError>)
    ensures e.ResourceNotFound? ==> r == Ok([])
    ensures !e.ResourceNotFound? ==> r == Err(HttpError(500, "Logs fetch failed: " + e.message))
  {
    if e.ResourceNotFound? then Ok([]) else Err(HttpError(500, "Logs fetch failed: " + e.message))
  }

  // ---------------------------------------------------------------------------
  // Docs (backend/app.py:141-151)
  // ---------------------------------------------------------------------------

  datatype GetObjectRequest = GetObjectRequest(bucket: string, key: string)

  /** The object key the docs endpoint reads: the path, or DOCS_KEY when the path is empty. */
  function DocKey(path: string, defaultKey: string): (key: string)
    ensures path != "" ==> key == path
    ensures path == "" ==> key == defaultKey
  {
    if path != "" then path else defaultKey
  }

  /**
   * The docs endpoint: the object's body decoded as UTF-8. A missing key is a 404
   * that names key and bucket; every other failure (an empty bucket name, the
   * decoding) is a 500. `utf8` stands for bytes.decode("utf-8").
   */
  function GetDocs(path: string, bucket: string, defaultKey: string,
                   s3: GetObjectRequest -> Result<seq<byte>, AwsError>,
                   utf8: seq<byte> -> Result<string, string>): (r: Result<string, HttpError>)
    ensures var resp := s3(GetObjectRequest(bucket, DocKey(path, defaultKey)));
      && (r.Ok? <==> resp.Ok? && utf8(resp.value).Ok?)
      && (r.Ok? ==> r.value == utf8(resp.value).value)
      && (r.Err? && r.error.status == 404 <==> resp.Err? && resp.error.NoSuchKey?)
      && (resp.Err? && resp.error.NoSuchKey? ==>
            r.error.detail == "Document " + DocKey(path, defaultKey) + " not found in " + bucket)
      && (resp.Err? && !resp.error.NoSuchKey? ==>
            r == Err(HttpError(500, "Docs fetch failed: " + resp.error.message)))
      && (resp.Ok? && utf8(resp.value).Err? ==>
            r == Err(HttpError(500, "Docs fetch failed: " + utf8(resp.value).error)))
    ensures r.Err? ==> r.error.status == 404 || r.error.status == 500
  {
    var key := DocKey(path, defaultKey);
    match s3(GetObjectRequest(bucket, key))
    case Err(NoSuchKey(_)) => Err(HttpError(404, "Document " + key + " not found in " + bucket))
    case Err(e) => Err(HttpError(500, "Docs fetch failed: " + e.message))
    case Ok(body) =>
      match utf8(body)
      case Ok(content) => Ok(content)
      case Err(m) => Err(HttpError(500, "Docs fetch failed: " + m))
  }
}
