/**
 * The logic of the `prometheus_query` module: key sanitisation, the
 * extraction of the latest sample from a decoded instant-query response,
 * one query against the server, and the loop of `main` that gathers the
 * results of a batch of queries into `metrics_data`.
 *
 * The HTTP server and Python's `float()` are parameters (a `Backend`), the
 * wall-clock time is the parameter `now`, and the loop of `main` is stated
 * for any per-query fetch, `FetchFrom` being the plugin's own.
 */
module Query {
  import opened Wrappers
  import opened PyJson

  /** The path of the instant-query endpoint, appended to the base URL. */
  const PrometheusQueryApi: string := "/api/v1/query"

  /** The placeholder stored for a query whose result list is empty. */
  const NoDataMessage: string := "No data available for the specified time range."

  // ---------------------------------------------------------------------
  // Key sanitisation
  // ---------------------------------------------------------------------

  /** Python's `s.replace(target, replacement)` for one-character arguments. */
  function Replace(s: string, target: char, replacement: char): string
  {
    if s == [] then []
    else [if s[0] == target then replacement else s[0]] + Replace(s[1..], target, replacement)
  }

  /** `replace` keeps the length and substitutes at exactly the matching positions. */
  lemma {:induction false} ReplaceAt(s: string, target: char, replacement: char)
    ensures |Replace(s, target, replacement)| == |s|
    ensures forall i :: 0 <= i < |s| ==>
              Replace(s, target, replacement)[i] == (if s[i] == target then replacement else s[i])
  {
    if s != [] {
      ReplaceAt(s[1..], target, replacement);
    }
  }

  /** `sanitize_query`: every `:` and every `.` becomes `_`. */
  function Sanitize(query: string): string
  {
    Replace(Replace(query, ':', '_'), '.', '_')
  }

  /** Sanitising keeps the length and rewrites exactly the `:` and `.` characters. */
  lemma SanitizeAt(query: string)
    ensures |Sanitize(query)| == |query|
    ensures forall i :: 0 <= i < |query| ==>
              Sanitize(query)[i] == (if query[i] == ':' || query[i] == '.' then '_' else query[i])
  {
    ReplaceAt(query, ':', '_');
    ReplaceAt(Replace(query, ':', '_'), '.', '_');
  }

  /** A sanitised key contains no `:` and no `.`. */
  lemma SanitizeRemovesSeparators(query: string)
    ensures ':' !in Sanitize(query) && '.' !in Sanitize(query)
  {
    SanitizeAt(query);
  }

  /** A string without `:` and `.` is left as it is. */
  lemma SanitizeKeepsClean(query: string)
    requires ':' !in query && '.' !in query
    ensures Sanitize(query) == query
  {
    var r := Sanitize(query);
    SanitizeAt(query);
    forall i | 0 <= i < |query| ensures r[i] == query[i] {
      assert query[i] in query;
    }
  }

  /** Sanitising twice is sanitising once. */
  lemma SanitizeIdempotent(query: string)
    ensures Sanitize(Sanitize(query)) == Sanitize(query)
  {
    SanitizeRemovesSeparators(query);
    SanitizeKeepsClean(Sanitize(query));
  }

  /** Sanitisation is not injective: distinct queries can share a key. */
  lemma SanitizeNotInjective()
    ensures Sanitize("a:b") == Sanitize("a.b") == Sanitize("a_b") == "a_b"
  {
    SanitizeAt("a:b");
    SanitizeAt("a.b");
    SanitizeAt("a_b");
    assert Sanitize("a:b")[1] == '_';
    assert Sanitize("a.b")[1] == '_';
    assert Sanitize("a_b")[1] == '_';
  }

  // ---------------------------------------------------------------------
  // Extraction of the latest sample from a decoded response
  // ---------------------------------------------------------------------

  /**
   * The response carries no series: it is a dict whose `data` is missing,
   * or is a dict whose `result` is missing or is a falsy value (an empty
   * list above all).
   */
  ghost predicate NoSeries(body: Json)
  {
    && body.JObject?
    && ("data" in body.fields ==>
          var data := body.fields["data"];
          data.JObject? && ("result" in data.fields ==> !Truthy(data.fields["result"])))
  }

  /**
   * Lines 52-55 of `fetch_latest_metric_value`: `None` when there is no
   * series, otherwise `result[0]['value'][1]`, or the exception Python
   * raises on the way.
   */
  function ExtractLatest(body: Json): (r: Result<Option<Json>, Exception>)
    ensures r == Ok(None) <==> NoSeries(body)
    ensures !body.JObject? ==> r == Err(AttributeError)
  {
    var data :- Get(body, "data", JObject(map[]));
    var metricData :- Get(data, "result", JArray([]));
    if !Truthy(metricData) then Ok(None)
    else
      var first :- Subscript(metricData, Position(0));
      var pair :- Subscript(first, Name("value"));
      var sample :- Subscript(pair, Position(1));
      Ok(Some(sample))
  }

  /**
   * A well-formed instant vector yields the second component of the first
   * series' `value` pair, whatever that sample is (a falsy one such as
   * `"0"` included) and whatever the other fields and series are.
   */
  lemma FirstSeriesSample(top: map<string, Json>, data: map<string, Json>,
                          series: map<string, Json>, stamp: Json, sample: Json,
                          others: seq<Json>)
    ensures ExtractLatest(JObject(top["data" := JObject(data["result" :=
              JArray([JObject(series["value" := JArray([stamp, sample])])] + others)])]))
            == Ok(Some(sample))
  {
  }

  /** Only the first entry of `result` is consulted. */
  lemma OnlyFirstSeriesConsulted(top: map<string, Json>, data: map<string, Json>,
                                 first: Json, others: seq<Json>, others': seq<Json>)
    ensures ExtractLatest(JObject(top["data" := JObject(data["result" := JArray([first] + others)])]))
         == ExtractLatest(JObject(top["data" := JObject(data["result" := JArray([first] + others')])]))
  {
  }

  // ---------------------------------------------------------------------
  // One query against the server
  // ---------------------------------------------------------------------

  /** An instant-query GET: the URL and its `query` and `time` parameters. */
  datatype Request = Request(url: string, query: string, time: int)

  /**
   * What the plugin calls but does not implement: the HTTP round trip
   * (an `Err` carries the message of the client library's exception, be it
   * a transport failure, an error status or a body that is not JSON) and
   * the `float()` conversion of the sample.
   */
  datatype Backend<V> = Backend(server: Request -> Result<Json, string>,
                                toFloat: Json -> Result<V, Exception>)

  /** The request issued for `query` at `endTime`. */
  function QueryRequest(prometheusUrl: string, query: string, endTime: int): Request
  {
    Request(prometheusUrl + PrometheusQueryApi, query, endTime)
  }

  /** `fetch_latest_metric_value`: the latest sample as a number, or `None`. */
  function FetchLatestMetricValue<V>(backend: Backend<V>, query: string, endTime: int,
                                     prometheusUrl: string): Result<Option<V>, Exception>
  {
    match backend.server(QueryRequest(prometheusUrl, query, endTime))
    case Err(msg) => Err(RequestException(msg))
    case Ok(body) =>
      var latest :- ExtractLatest(body);
      match latest
      case None => Ok(None)
      case Some(sample) =>
        var value :- backend.toFloat(sample);
        Ok(Some(value))
  }

  /**
   * A failed request is reported with the client library's message; `None`
   * means exactly that the server answered with no series; a number is the
   * conversion of the extracted sample, and an extracted sample is always
   * converted; an exception while extracting or converting is passed on.
   */
  lemma FetchOutcomes<V>(backend: Backend<V>, query: string, endTime: int, prometheusUrl: string)
    ensures var reply := backend.server(QueryRequest(prometheusUrl, query, endTime));
            var r := FetchLatestMetricValue(backend, query, endTime, prometheusUrl);
            && (reply.Err? ==> r == Err(RequestException(reply.error)))
            && (r == Ok(None) <==> reply.Ok? && NoSeries(reply.value))
            && (r.Ok? && r.value.Some? ==>
                  && reply.Ok?
                  && ExtractLatest(reply.value).Ok? && ExtractLatest(reply.value).value.Some?
                  && backend.toFloat(ExtractLatest(reply.value).value.value) == Ok(r.value.value))
            && (reply.Ok? && ExtractLatest(reply.value).Err? ==>
                  r == Err(ExtractLatest(reply.value).error))
            && (reply.Ok? && ExtractLatest(reply.value).Ok? && ExtractLatest(reply.value).value.Some? ==>
                  var f := backend.toFloat(ExtractLatest(reply.value).value.value);
                  r == (if f.Ok? then Ok(Some(f.value)) else Err(f.error)))
  {
  }

  // ---------------------------------------------------------------------
  // The batch: the loop of `main`
  // ---------------------------------------------------------------------

  /**
   * `fetch_latest_metric_value` with the server URL fixed: the result of
   * one query at one evaluation time. `FetchFrom` is the plugin's own.
   */
  type Fetcher<V> = (string, int) -> Result<Option<V>, Exception>

  function FetchFrom<V>(backend: Backend<V>, prometheusUrl: string): Fetcher<V>
  {
    (query, endTime) => FetchLatestMetricValue(backend, query, endTime, prometheusUrl)
  }

  /** A value of `metrics_data`: a sample, or the no-data placeholder text. */
  datatype Entry<V> = Value(v: V) | Text(text: string)

  /** What `main` reports: `exit_json(metrics_data=...)` or `fail_json(msg=...)`. */
  datatype Outcome<V> = Success(metricsData: map<string, Entry<V>>) | Failure(error: Exception)

  /** The key a query's result is stored under: sanitised if found, raw if not. */
  function KeyOf<V>(query: string, latest: Option<V>): string
  {
    if latest.Some? then Sanitize(query) else query
  }

  /** The value a query's result is stored as. */
  function EntryOf<V>(latest: Option<V>): Entry<V>
  {
    if latest.Some? then Value(latest.value) else Text(NoDataMessage)
  }

  /**
   * The outcome of the batch `queries`, all evaluated at `endTime`: the
   * outcome of all but the last query, then the last one stored over it;
   * the first exception aborts.
   */
  function Aggregate<V>(fetch: Fetcher<V>, endTime: int, queries: seq<string>): (r: Outcome<V>)
    ensures r.Success? ==> |r.metricsData| <= |queries|
    decreases |queries|
  {
    if queries == [] then Success(map[])
    else
      var query := queries[|queries| - 1];
      match Aggregate(fetch, endTime, queries[..|queries| - 1])
      case Failure(e) => Failure(e)
      case Success(metrics) =>
        match fetch(query, endTime)
        case Err(e) => Failure(e)
        case Ok(latest) => Success(metrics[KeyOf(query, latest) := EntryOf(latest)])
  }

  /** The batch succeeds exactly when every query succeeds. */
  lemma {:induction false} SucceedsIffEveryFetchSucceeds<V>(fetch: Fetcher<V>, endTime: int,
                                                           queries: seq<string>)
    ensures Aggregate(fetch, endTime, queries).Success?
        <==> forall i :: 0 <= i < |queries| ==> fetch(queries[i], endTime).Ok?
  {
    if queries != [] {
      var n := |queries| - 1;
      var prefix := queries[..n];
      SucceedsIffEveryFetchSucceeds(fetch, endTime, prefix);
      assert forall i :: 0 <= i < n ==> prefix[i] == queries[i];
    }
  }

  /** The batch fails with the exception of its first failing query. */
  lemma {:induction false} FailsWithFirstError<V>(fetch: Fetcher<V>, endTime: int,
                                                 queries: seq<string>, i: nat)
    requires i < |queries|
    requires fetch(queries[i], endTime).Err?
    requires forall j :: 0 <= j < i ==> fetch(queries[j], endTime).Ok?
    ensures Aggregate(fetch, endTime, queries) == Failure(fetch(queries[i], endTime).error)
  {
    var n := |queries| - 1;
    var prefix := queries[..n];
    if i == n {
      SucceedsIffEveryFetchSucceeds(fetch, endTime, prefix);
    } else {
      FailsWithFirstError(fetch, endTime, prefix, i);
    }
  }

  /** `latest` lists what each query of the batch returned, none of them raising. */
  ghost predicate Fetched<V>(fetch: Fetcher<V>, endTime: int, queries: seq<string>,
                             latest: seq<Option<V>>)
  {
    && |latest| == |queries|
    && forall i :: 0 <= i < |queries| ==> fetch(queries[i], endTime) == Ok(latest[i])
  }

  /** No query after the `i`-th is stored under the same key. */
  ghost predicate LastWithKey<V>(queries: seq<string>, latest: seq<Option<V>>, i: nat)
    requires |latest| == |queries| && i < |queries|
  {
    forall j :: i < j < |queries| ==> KeyOf(queries[j], latest[j]) != KeyOf(queries[i], latest[i])
  }

  /**
   * The map the loop builds when the queries return `latest`: each result
   * stored in turn over the results before it.
   */
  function Collect<V>(queries: seq<string>, latest: seq<Option<V>>): map<string, Entry<V>>
    requires |latest| == |queries|
    decreases |queries|
  {
    if queries == [] then map[]
    else
      var n := |queries| - 1;
      Collect(queries[..n], latest[..n])[KeyOf(queries[n], latest[n]) := EntryOf(latest[n])]
  }

  /** Collecting one more query's result stores it over the map so far. */
  lemma CollectOneMore<V>(queries: seq<string>, latest: seq<Option<V>>, i: nat, next: Option<V>)
    requires i < |queries| && |latest| == i
    ensures Collect(queries[..i + 1], latest + [next])
         == Collect(queries[..i], latest)[KeyOf(queries[i], next) := EntryOf(next)]
  {
    assert queries[..i + 1][..i] == queries[..i];
    assert (latest + [next])[..i] == latest;
  }

  /** When no query raises, the batch succeeds with the collected map. */
  lemma {:induction false} SucceedsWithCollected<V>(fetch: Fetcher<V>, endTime: int, queries: seq<string>,
                                                   latest: seq<Option<V>>)
    requires Fetched(fetch, endTime, queries, latest)
    ensures Aggregate(fetch, endTime, queries) == Success(Collect(queries, latest))
  {
    if queries != [] {
      var n := |queries| - 1;
      var prefix, prefixLatest := queries[..n], latest[..n];
      assert Fetched(fetch, endTime, prefix, prefixLatest) by {
        forall i | 0 <= i < n
          ensures fetch(prefix[i], endTime) == Ok(prefixLatest[i])
        {
          assert prefix[i] == queries[i] && prefixLatest[i] == latest[i];
        }
      }
      SucceedsWithCollected(fetch, endTime, prefix, prefixLatest);
    }
  }

  /** The keys of the collected map are exactly the keys of the queries. */
  lemma {:induction false} CollectedKeys<V>(queries: seq<string>, latest: seq<Option<V>>)
    requires |latest| == |queries|
    ensures forall k :: k in Collect(queries, latest) <==>
              exists i :: 0 <= i < |queries| && KeyOf(queries[i], latest[i]) == k
  {
    if queries != [] {
      var n := |queries| - 1;
      var prefix, prefixLatest := queries[..n], latest[..n];
      CollectedKeys(prefix, prefixLatest);
      var before := Collect(prefix, prefixLatest);
      forall i | 0 <= i < n ensures KeyOf(queries[i], latest[i]) in before {
        assert prefix[i] == queries[i] && prefixLatest[i] == latest[i];
      }
      forall k | k in before
        ensures exists i :: 0 <= i < |queries| && KeyOf(queries[i], latest[i]) == k
      {
        var i :| 0 <= i < n && KeyOf(prefix[i], prefixLatest[i]) == k;
        assert prefix[i] == queries[i] && prefixLatest[i] == latest[i];
      }
    }
  }

  /** Each key of the collected map holds the entry of the last query stored under it. */
  lemma {:induction false} CollectedLastWins<V>(queries: seq<string>, latest: seq<Option<V>>, i: nat)
    requires |latest| == |queries| && i < |queries| && LastWithKey(queries, latest, i)
    ensures KeyOf(queries[i], latest[i]) in Collect(queries, latest)
    ensures Collect(queries, latest)[KeyOf(queries[i], latest[i])] == EntryOf(latest[i])
  {
    var n := |queries| - 1;
    if i < n {
      var prefix, prefixLatest := queries[..n], latest[..n];
      assert prefix[i] == queries[i] && prefixLatest[i] == latest[i];
      assert LastWithKey(prefix, prefixLatest, i) by {
        forall j | i < j < n ensures KeyOf(prefix[j], prefixLatest[j]) != KeyOf(prefix[i], prefixLatest[i]) {
          assert prefix[j] == queries[j] && prefixLatest[j] == latest[j];
        }
      }
      CollectedLastWins(prefix, prefixLatest, i);
    }
  }

  /**
   * When no query raises, the batch succeeds; `metrics_data` holds exactly
   * the keys of the queries, and each key holds the entry of the last
   * query stored under it.
   */
  lemma SuccessContents<V>(fetch: Fetcher<V>, endTime: int,
                           queries: seq<string>, latest: seq<Option<V>>)
    requires Fetched(fetch, endTime, queries, latest)
    ensures Aggregate(fetch, endTime, queries).Success?
    ensures var m := Aggregate(fetch, endTime, queries).metricsData;
            && (forall k :: k in m <==> exists i :: 0 <= i < |queries| && KeyOf(queries[i], latest[i]) == k)
            && (forall i :: 0 <= i < |queries| && LastWithKey(queries, latest, i) ==>
                  m[KeyOf(queries[i], latest[i])] == EntryOf(latest[i]))
  {
    SucceedsWithCollected(fetch, endTime, queries, latest);
    CollectedKeys(queries, latest);
    forall i | 0 <= i < |queries| && LastWithKey(queries, latest, i)
      ensures KeyOf(queries[i], latest[i]) in Collect(queries, latest)
      ensures Collect(queries, latest)[KeyOf(queries[i], latest[i])] == EntryOf(latest[i])
    {
      CollectedLastWins(queries, latest, i);
    }
  }

  /** A found sample is stored, as itself, under the sanitised query. */
  lemma FoundUnderSanitizedKey<V>(fetch: Fetcher<V>, endTime: int,
                                  queries: seq<string>, latest: seq<Option<V>>, i: nat)
    requires Fetched(fetch, endTime, queries, latest)
    requires i < |queries| && latest[i].Some? && LastWithKey(queries, latest, i)
    ensures Aggregate(fetch, endTime, queries).Success?
    ensures var m := Aggregate(fetch, endTime, queries).metricsData;
            Sanitize(queries[i]) in m && m[Sanitize(queries[i])] == Value(latest[i].value)
  {
    SuccessContents(fetch, endTime, queries, latest);
  }

  /** An absent sample is stored as the placeholder under the raw query. */
  lemma AbsentUnderRawKey<V>(fetch: Fetcher<V>, endTime: int,
                             queries: seq<string>, latest: seq<Option<V>>, i: nat)
    requires Fetched(fetch, endTime, queries, latest)
    requires i < |queries| && latest[i].None? && LastWithKey(queries, latest, i)
    ensures Aggregate(fetch, endTime, queries).Success?
    ensures var m := Aggregate(fetch, endTime, queries).metricsData;
            queries[i] in m && m[queries[i]] == Text(NoDataMessage)
  {
    SuccessContents(fetch, endTime, queries, latest);
  }

  /** Every key of a successful batch is a query of the batch, raw or sanitised. */
  lemma KeysComeFromQueries<V>(fetch: Fetcher<V>, endTime: int,
                               queries: seq<string>)
    requires Aggregate(fetch, endTime, queries).Success?
    ensures forall k :: k in Aggregate(fetch, endTime, queries).metricsData ==>
              exists i :: 0 <= i < |queries| && (k == queries[i] || k == Sanitize(queries[i]))
  {
    SucceedsIffEveryFetchSucceeds(fetch, endTime, queries);
    var latest := seq(|queries|, i requires 0 <= i < |queries| =>
                      fetch(queries[i], endTime).value);
    SuccessContents(fetch, endTime, queries, latest);
  }

  /** Collecting queries whose keys are pairwise distinct gives one entry per query. */
  lemma {:induction false} CollectedSizeDistinct<V>(queries: seq<string>, latest: seq<Option<V>>)
    requires |latest| == |queries|
    requires forall i, j :: 0 <= i < j < |queries| ==>
               KeyOf(queries[i], latest[i]) != KeyOf(queries[j], latest[j])
    ensures |Collect(queries, latest)| == |queries|
  {
    if queries != [] {
      var n := |queries| - 1;
      var prefix, prefixLatest := queries[..n], latest[..n];
      forall i, j | 0 <= i < j < n
        ensures KeyOf(prefix[i], prefixLatest[i]) != KeyOf(prefix[j], prefixLatest[j])
      {
        assert prefix[i] == queries[i] && prefixLatest[i] == latest[i];
        assert prefix[j] == queries[j] && prefixLatest[j] == latest[j];
      }
      CollectedSizeDistinct(prefix, prefixLatest);
      CollectedKeys(prefix, prefixLatest);
      forall i | 0 <= i < n ensures KeyOf(prefix[i], prefixLatest[i]) != KeyOf(queries[n], latest[n]) {
        assert prefix[i] == queries[i] && prefixLatest[i] == latest[i];
      }
    }
  }

  /** Without key collisions, a successful batch has exactly one entry per query. */
  lemma DistinctKeysOneEntryEach<V>(fetch: Fetcher<V>, endTime: int,
                                    queries: seq<string>, latest: seq<Option<V>>)
    requires Fetched(fetch, endTime, queries, latest)
    requires forall i, j :: 0 <= i < j < |queries| ==>
               KeyOf(queries[i], latest[i]) != KeyOf(queries[j], latest[j])
    ensures Aggregate(fetch, endTime, queries).Success?
    ensures |Aggregate(fetch, endTime, queries).metricsData| == |queries|
  {
    SucceedsWithCollected(fetch, endTime, queries, latest);
    CollectedSizeDistinct(queries, latest);
  }

  /**
   * The loop of `main`: one timestamp for the whole batch, one call of
   * `fetch` per query in order, `metrics_data` updated in place, and the
   * first exception ending the run. `calls` lists the `(query, time)` pair
   * of each call made.
   */
  method Run<V>(fetch: Fetcher<V>, queries: seq<string>, now: int)
    returns (outcome: Outcome<V>, calls: seq<(string, int)>)
    ensures outcome == Aggregate(fetch, now, queries)
    ensures |calls| <= |queries|
    ensures forall k :: 0 <= k < |calls| ==> calls[k] == (queries[k], now)
    ensures outcome.Success? ==> |calls| == |queries|
    ensures outcome.Failure? ==> 0 < |calls| && fetch(queries[|calls| - 1], now) == Err(outcome.error)
    ensures forall k :: 0 <= k < |calls| - 1 ==> fetch(queries[k], now).Ok?
  {
    var endTime := now;
    var metricsData: map<string, Entry<V>> := map[];
    calls := [];
    ghost var latest: seq<Option<V>> := [];
    var i := 0;
    while i < |queries|
      invariant 0 <= i <= |queries| && |calls| == i && |latest| == i
      invariant forall k :: 0 <= k < i ==> calls[k] == (queries[k], endTime)
      invariant forall k :: 0 <= k < i ==> fetch(queries[k], endTime) == Ok(latest[k])
      invariant metricsData == Collect(queries[..i], latest)
    {
      var query := queries[i];
      calls := calls + [(query, endTime)];
      var latestValue := fetch(query, endTime);
      if latestValue.Err? {
        FailsWithFirstError(fetch, endTime, queries, i);
        return Failure(latestValue.error), calls;
      }
      var key := if latestValue.value.Some? then Sanitize(query) else query;
      metricsData := metricsData[key := if latestValue.value.Some? then Value(latestValue.value.value)
                                        else Text(NoDataMessage)];
      CollectOneMore(queries, latest, i, latestValue.value);
      latest := latest + [latestValue.value];
      i := i + 1;
    }
    assert queries[..i] == queries;
    SucceedsWithCollected(fetch, endTime, queries, latest);
    outcome := Success(metricsData);
  }
}
