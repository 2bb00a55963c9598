# Prometheus query module — a Dafny model

The Ansible module `plugins/modules/query.py` reads the latest value of
each of a list of PromQL queries from a Prometheus server. It sends each
query to the instant-query endpoint `/api/v1/query`, with every query
evaluated at the same timestamp. The results are collected in one
dictionary, `metrics_data`, which the module returns.

- A query that has data is stored as its number, under the query text with
  every `:` and `.` replaced by `_`.
- A query that has no data is stored as the text
  "No data available for the specified time range.", under the raw query
  text.
- The first exception aborts the whole run, and the module reports only the
  exception's message.

The model has three modules:

- `Wrappers` (`wrappers.dfy`): `Option` and `Result`.
- `PyJson` (`pyjson.dfy`): decoded JSON values, and the Python operations the
  module applies to them. These are truthiness, `dict.get` with a default,
  and subscripting by key or position. Each failure raises the same
  exception Python raises (`AttributeError`, `TypeError`, `KeyError`,
  `IndexError`).
- `Query` (`query.dfy`): the module itself, in four parts.
  - Key sanitisation.
  - Extraction of the latest sample from a response body.
  - One query against an abstract server.
  - The batch loop of `main`. It is a method, `Run`, proved against a
    recursive specification function, `Aggregate`, whose properties the
    lemmas state.

The code tests `if metric_data:`, which is Python truthiness. So a missing
`result`, an empty list, and any other falsy value (`null`, `0`, `""`, an
empty dict) all mean "no data". A `data` field that is present but is not
a dict raises `AttributeError` at `.get`. The model follows the code on
both points, not a reading in which only a missing or empty list counts as
"no data".

## Model

| member | source | states |
|---|---|---|
| `Query.Replace` | plugins/modules/query.py:60 | `str.replace` of one character by another. It has no contract of its own; `ReplaceAt` states its behaviour. |
| `Query.Sanitize` | plugins/modules/query.py:59-60 | `sanitize_query`: the two chained replaces. It has no contract of its own; `SanitizeAt`, `SanitizeRemovesSeparators`, `SanitizeKeepsClean` and `SanitizeIdempotent` state its behaviour. |
| `Query.ReplaceAt` | plugins/modules/query.py:60 | `str.replace` of one character keeps the length. Each position becomes the replacement if it held the target, and is otherwise unchanged. |
| `Query.SanitizeAt` | plugins/modules/query.py:59-60 | The sanitised key has the query's length. Each `:` or `.` becomes `_`, and every other character is kept in place. |
| `Query.SanitizeRemovesSeparators` | plugins/modules/query.py:59-60 | No `:` and no `.` remains in a sanitised key. |
| `Query.SanitizeKeepsClean` | plugins/modules/query.py:59-60 | A query with no `:` and no `.` is its own key. |
| `Query.SanitizeIdempotent` | plugins/modules/query.py:59-60 | Sanitising twice is the same as sanitising once. |
| `Query.SanitizeNotInjective` | plugins/modules/query.py:59-60 | `a:b`, `a.b` and `a_b` share the key `a_b`, so distinct queries can collide. |
| `Query.ExtractLatest` | plugins/modules/query.py:52-55 | The result is `None` exactly when the body is a dict and has no series: `data` is missing, or `data` is a dict whose `result` is missing or falsy. A body that is not a dict raises `AttributeError`. |
| `Query.FirstSeriesSample` | plugins/modules/query.py:52-54 | A well-formed vector yields `result[0]['value'][1]`. This holds for any sample, falsy ones included, and whatever the other fields and series are. |
| `Query.OnlyFirstSeriesConsulted` | plugins/modules/query.py:53-54 | Series after the first do not change the result. |
| `Query.QueryRequest` | plugins/modules/query.py:47-49 | The GET sent for one query: the URL `prometheus_url + "/api/v1/query"` with the `query` and `time` parameters. It has no contract of its own; `FetchLatestMetricValue` uses it. |
| `Query.FetchLatestMetricValue` | plugins/modules/query.py:46-57 | `fetch_latest_metric_value`. It has no contract of its own; `FetchOutcomes` states its behaviour. |
| `Query.FetchOutcomes` | plugins/modules/query.py:46-57 | A request failure is re-raised with the client's message. `None` means exactly that the server answered with no series. A found sample is always converted: a number that comes back is the `float()` of the extracted sample, and a conversion that succeeds is returned. An exception raised while extracting or converting is passed on unchanged. |
| `Query.KeyOf` | plugins/modules/query.py:80 | The key expression: the sanitised query when a value was found, the raw query otherwise. It has no contract of its own; `FoundUnderSanitizedKey`, `AbsentUnderRawKey` and `KeysComeFromQueries` state it for the batch. |
| `Query.EntryOf` | plugins/modules/query.py:81 | The value expression: the found value, or the no-data text. It has no contract of its own; `FoundUnderSanitizedKey` and `AbsentUnderRawKey` state it for the batch. |
| `Query.Aggregate` | plugins/modules/query.py:75-85 | A successful batch has at most one entry per query. |
| `Query.SucceedsIffEveryFetchSucceeds` | plugins/modules/query.py:77-85 | The batch succeeds if and only if no query raises. |
| `Query.FailsWithFirstError` | plugins/modules/query.py:77-83 | When every earlier query succeeds and query `i` raises, the batch fails with exactly that exception. No partial `metrics_data` is reported. |
| `Query.CollectOneMore` | plugins/modules/query.py:80-81 | Storing one more result puts its entry under its key and leaves all other keys as they were. |
| `Query.SucceedsWithCollected` | plugins/modules/query.py:75-81 | When every query returns, the batch succeeds with the map built by storing the results in order. |
| `Query.CollectedKeys` | plugins/modules/query.py:80-81 | The stored keys are exactly the keys of the queries' results. |
| `Query.CollectedLastWins` | plugins/modules/query.py:80-81 | The entry under a key is the one from the last query that produced that key. |
| `Query.SuccessContents` | plugins/modules/query.py:75-85 | A batch with no exception returns exactly the queries' keys. Each key holds the entry of its last query. |
| `Query.FoundUnderSanitizedKey` | plugins/modules/query.py:80-81 | A found sample (zero included) is stored as itself under the sanitised query, unless a later query produced the same key. |
| `Query.AbsentUnderRawKey` | plugins/modules/query.py:80-81 | A missing sample is stored as "No data available for the specified time range." under the raw query, unless a later query produced the same key. |
| `Query.KeysComeFromQueries` | plugins/modules/query.py:77-81 | Every returned key is one of the queries, raw or sanitised. |
| `Query.CollectedSizeDistinct` | plugins/modules/query.py:80-81 | When the keys are pairwise distinct, storing gives one entry per query. |
| `Query.DistinctKeysOneEntryEach` | plugins/modules/query.py:75-85 | Without key collisions, a successful batch has exactly `len(queries)` entries. |
| `Query.Run` | plugins/modules/query.py:72-85 | The loop computes `Aggregate`: every query is fetched at the one time `now`, in order, and the first exception ends the run. It records one `(query, now)` pair per query it fetches. On success that record covers every query. On failure the last recorded query raised the reported exception, and every earlier one returned. |

## Left out

- The HTTP round trip is not modelled. This covers `requests.get`,
  `raise_for_status`, `response.json()` and the URL encoding of the
  parameters. It is the `server` function of `Backend`, which receives the
  URL `prometheus_url + "/api/v1/query"`, the query and the time, and
  returns a decoded body or the message of the client's exception.
- `float()` is not modelled. It is the `toFloat` parameter of `Backend`, and
  the sample type `V` is left abstract. So floating-point parsing and
  rounding are not modelled, and JSON numbers are exact reals. The
  non-standard `NaN` and `Infinity` that Python's `json` decoder accepts
  have no `Json` value.
- `time.time()` is not modelled. The truncated timestamp is the `now`
  parameter of `Run`.
- `Run` takes the per-query fetch as a parameter. The module's own fetch is
  `FetchFrom(backend, prometheus_url)`.
- `AnsibleModule` is not modelled: argument parsing, check mode, and
  `exit_json`/`fail_json`. The two exits are the `Outcome` datatype. The
  constant `changed=False` is not represented.
- The text `str(e)` of a failure is not modelled. The exception value stands
  for it.
- Dictionary insertion order is not modelled, because `metrics_data` is a
  `map`.
- Query list elements that are not strings are not modelled, because
  queries are `string`s.
- The server is a function of the request, so a query repeated within one
  batch always gets the same answer. Runs in which the two requests for a
  repeated query get different answers are not modelled: in the module each
  is an independent HTTP request, and the second could time out or see a
  newer sample. No stated property depends on this.
- The `DOCUMENTATION` block is not modelled.
