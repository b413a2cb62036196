# FinSec threat detection: the per-row assessment loop

FinSec takes an uploaded CSV of financial transactions and rates each row's
risk. One strategy is chosen per run, by a sidebar checkbox. With the remote
strategy, each row is posted as JSON to a scoring service and the reply is
merged onto the row. With the local strategy, a heuristic adds up the
magnitudes of the row's numeric fields and maps the sum to a severity with
thresholds at 100 and 200. The results are collected in input order, and a
progress bar advances after every row.

This project models that loop in `app.py` (lines 26-69) in four modules:

- `Records` (`records.dfy`): cell values, rows, the `row.to_dict()` copy
  (`ToDict`) and the `dict.update` merge (`Update`, a map override).
- `LocalScorer` (`local_scorer.dfy`): the score, the severity bands, the
  rounding of `risk_score`, and the status and recommendation that follow from
  the severity.
- `RemoteAdapter` (`remote_adapter.dfy`): how the outcome of one service call
  becomes row fields. The call is an input `Reply`. It is either
  `Responded(code, body)`, where the body is a JSON object or unusable, or
  `Raised(message)`. Only code 200 with an object body is merged. Any other
  code gives the "API Error" sentinel. Any exception inside the `try` gives the
  "Connection Failed" sentinel with the exception's message.
- `Batch` (`batch.dfy`): the strategy as a datatype (`Remote` or `Local`),
  the specification of a run (`Assessed`), and the loop itself (`Analyze`).
  `Analyze` appends one record per row to a sequence and records each progress
  value it reports. The network is a parameter `service: nat -> Reply`, the
  reply to the call made for row `i`.

Points where the code behaves otherwise than one might expect, followed as the code has them:

- One might expect every processed record to carry a `status` and a
  `severity`. The code merges a 200 reply verbatim and backfills nothing, so a
  reply without `severity` leaves the row without one, or with the upload's own
  `severity` value when the file has such a column
  (`RemoteAdapter.AcceptedReplyMayOmitSeverity`).
- The local status values are written with their markers, "🟢 Normal" and
  "🔴 Suspicious", and the model uses those exact strings.

One exception: the local branch as written cannot run (see Findings). Its
as-written behaviour is modelled beside the evidently intended computation,
and the model's main definitions use the intended one.

## Model

| member | source | states |
|---|---|---|
| `Records.ToDict` | app.py:29 | the copied dictionary has exactly one key per column of the row, with none added or dropped |
| `Records.ToDictKeepsValues` | app.py:29 | when column names are distinct, every column's value is carried into the dictionary unchanged |
| `Records.Update` | app.py:43 | `dict.update`: the keys of the result are the old keys plus the new ones, new keys win, every other key keeps its value, and nothing is removed |
| `LocalScorer.Score` | app.py:59 | the sum of absolute values of numeric fields is never negative |
| `LocalScorer.ScoreAppend` | app.py:59 | the score of the columns of two row parts together is the sum of their scores |
| `LocalScorer.FieldWithinScore` | app.py:59 | each numeric field's absolute value is at most the row's score |
| `LocalScorer.LargeFieldIsHigh` | app.py:59-60 | one numeric field of magnitude 200 or more makes the row High |
| `LocalScorer.NoNumericFieldsIsLow` | app.py:59-60 | a row with no numeric field scores 0 and is Low |
| `LocalScorer.Classify` | app.py:60 | the three severity bands as if-and-only-if statements: Low below 100, Medium from 100 below 200, High from 200 on (edges in `SeverityBoundaries`, ordering in `ClassifyMonotone`) |
| `LocalScorer.SeverityBoundaries` | app.py:60 | Low if and only if score < 100, Medium if and only if 100 <= score < 200, High if and only if score >= 200; 100 is Medium, 200 is High, 99.999 is Low |
| `LocalScorer.ClassifyMonotone` | app.py:60 | a higher score never gets a lower severity |
| `LocalScorer.Round2` | app.py:62 | the rounded score is a whole number of hundredths, within 0.005 of the score, and not negative when the score is not |
| `LocalScorer.LocalFields` | app.py:61-66 | the local branch writes exactly the four keys status, risk_score, severity and recommendation |
| `LocalScorer.LocalFieldsFollowSeverity` | app.py:60-66 | status is "🟢 Normal" if and only if severity is Low, otherwise "🔴 Suspicious"; recommendation is "Review" if and only if severity is High, otherwise "Monitor"; risk_score is non-negative and within 0.005 of the score |
| `LocalScorer.RoundedScoreCanShowThreshold` | app.py:60-62 | severity is decided on the unrounded score, so a score of 99.999 shows risk_score 100.0 with severity Low |
| `RemoteAdapter.RemoteFields` | app.py:41-57 | an accepted reply (code exactly 200, object body) gives its own object; any other reply gives four keys with a null risk_score and severity "Unknown", the API Error sentinel exactly when the service answered with another code, otherwise the Connection Failed sentinel with the exception's message (cases spelled out in `OnlyExact200Succeeds` and `RaisedGivesConnectionFailed`) |
| `RemoteAdapter.OnlyExact200Succeeds` | app.py:41-50 | any status other than exactly 200 (204 included) gives exactly the API Error sentinel whatever the body; 200 with an object body gives that object |
| `RemoteAdapter.RaisedGivesConnectionFailed` | app.py:51-57 | a raised request, or a 200 whose body cannot be read or merged, gives the Connection Failed sentinel carrying the exception's message |
| `RemoteAdapter.RejectedReplyCarriesAllKeys` | app.py:44-57 | every reply that is not accepted yields all four keys, a null risk_score and severity "Unknown"; the status is "API Error" if and only if the service answered with a code other than 200 |
| `RemoteAdapter.AcceptedReplyIsVerbatim` | app.py:41-43 | an accepted reply's object is merged as it is, with nothing added |
| `RemoteAdapter.AcceptedReplyMayOmitSeverity` | app.py:41-43 | a 200 reply without severity or risk_score leaves the row without them, or with the upload's own values when the file has such columns (no backfill) |
| `RemoteAdapter.SuccessExampleMergedVerbatim` | app.py:41-43 | the reply {risk_score 42.5, severity "Low", status "ok", recommendation "none"} lands on the row as given, and other columns keep their values |
| `RemoteAdapter.ServerErrorExample` | app.py:44-50 | an HTTP 500 puts status "API Error", a null risk_score, severity "Unknown" and recommendation "Check API" on the row |
| `Batch.AssessRow` | app.py:29-66 | every column of the row survives; a local row gets all four keys with the severity and status of its score; a rejected remote reply gives all four keys with severity "Unknown", a null risk_score and one of the two sentinel statuses (an accepted reply's fields landing on the row as sent is stated by `ResultsExtendRows`) |
| `Batch.Assessed` | app.py:28-68 | a run yields one record per input row, and the record at position i comes from row i and the reply to the i-th call |
| `Batch.Analyze` | app.py:26-69 | the loop produces exactly the specified run in input order, and after row i reports progress (i+1)/n, one report per row |
| `Batch.Progress` | app.py:69 | every reported progress value, for any number of rows including one, is above 0 and at most 1, and the report after the last row is exactly 1 |
| `Batch.ProgressIncreases` | app.py:69 | each progress report is strictly larger than every earlier one |
| `Batch.ResultsExtendRows` | app.py:29-66 | each result has the row's columns plus the scorer's keys; scorer keys take the scorer's values, and every other column keeps the row's value |
| `Batch.EveryScoredRowCarriesResultKeys` | app.py:30-66 | in a local run, and for every rejected remote reply, the result has all four keys with a textual status and severity |
| `Batch.LocalRunIgnoresService` | app.py:58-66 | a local run makes no use of the service: its results do not depend on the replies |
| `Batch.ThreeRowScenario` | app.py:58-68 | rows whose numeric columns sum to 50, 150 and 250 come out Low, Medium and High, in that order |
| `Batch.AssessRowAsWritten` | app.py:30-66 | as written, a row fails exactly when the run is local; a remote row succeeds with the same record the corrected model gives |
| `Batch.AnalyzeAsWritten` | app.py:26-69 | as written, a run that finishes has one record per row, and a run can only fail when it is local and has at least one row |
| `Batch.AsWrittenLocalRunAborts` | app.py:58-59 | as written, a local run over at least one row ends in the first row's exception and produces no results; the exception is the select_dtypes AttributeError unless that row has a column named `select_dtypes`, whose cell is then called and raises TypeError |
| `Batch.AsWrittenRemoteRunAgrees` | app.py:28-57 | as written, a remote run gives exactly the modelled run: no exception escapes the loop |
| `Batch.LocalRunScoresEveryRow` | app.py:58-66 | corrected: a local run gives one result per row, each with all four keys, the severity of its score and the rounded score |

## Findings

| source | as written | input that shows it | evidently intended | confidence | as-written member | corrected member |
|---|---|---|---|---|---|---|
| app.py:59 | the local branch calls `select_dtypes` on the row, which is a pandas Series; only DataFrame has that method, so it raises AttributeError (or TypeError when a column is itself named `select_dtypes`, since the row then yields that cell and calling it fails), and the call is outside the `try`, so the exception ends the run | any upload of one or more rows with the service checkbox off | score = sum of absolute values of the row's numeric fields, for every row | high; not executed | `Batch.AsWrittenLocalRunAborts` | `Batch.LocalRunScoresEveryRow` |

## Left out

- The Streamlit interface is not modelled: page setup, title, checkbox, file uploader, button, tables, the initial `st.progress(0)` shown before the first row, and the download button (app.py:7-25, 27, 72-75). The checkbox becomes the `Strategy` parameter.
- The HTTP request is not modelled: its URL, bearer header, JSON body and 10-second timeout (app.py:32-40). Its outcome is the `service` parameter.
- Reading the endpoint URL and key from the environment is not modelled (app.py:17-18). These are ambient configuration; `Strategy.Remote` carries them unused.
- CSV parsing and building and exporting the result table are not modelled (app.py:22, 71, 75). These are library calls.
- A 200 body that is a JSON array of key-value pairs is not modelled as the source handles it; the model treats every non-object body as unusable and writes the Connection Failed sentinel. In the source, `dict.update` accepts more than objects, with no exception and no sentinel: a well-formed array of pairs is merged in full; an array of two-character strings such as `["ab"]` is merged as pairs (here `a` to `b`); and the JSON empty string `""` or an empty array `[]` merges nothing, leaving the row unchanged.
- A 200 body that is a JSON array whose good pairs come before a bad element is partly merged by the source: the earlier pairs are written, then `dict.update` raises and the Connection Failed sentinel is written on top, so those earlier pairs stay on the row under keys the sentinel does not cover. The model writes only the sentinel.
- Nested JSON values (objects and arrays inside a reply) are not modelled.
- Field order within a record and the column order of the exported table are not modelled. Records are maps.
- `LocalScorer.Round2`: `round(score, 2)` is modelled as exact round-half-to-even on reals. Binary floating point, where 2.675 rounds to 2.67, is not modelled, and neither is the floating-point sum.
- `LocalScorer.Score`: "numeric" is a property of each cell (`Number`) rather than of a pandas column dtype. A missing value is `Null` and adds nothing, as NaN does under pandas' skipping sum. Booleans are not numeric.
- Batch.Analyze: progress uses the row's position. The source divides the `iterrows` index label, which equals the position for the default index `read_csv` gives.
- An empty upload gives no results, and no progress report beyond the initial 0 at app.py:27, which is not in `Batch.Analyze`'s reports.
