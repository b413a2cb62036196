/** The row-by-row assessment loop: each row is copied to a dictionary, scored
    by the strategy chosen for the whole run, merged, appended to the results
    in input order, and followed by a progress report. */
module Batch {
  import opened Records
  import opened LocalScorer
  import opened RemoteAdapter

  /** The strategy chosen once per run (the sidebar checkbox). */
  datatype Strategy = Remote(endpoint: string, credential: string) | Local

  /** What the run produces for one row, given the reply its remote call got:
      the row's columns all survive, and a local run or a rejected reply adds
      all four result fields with a textual status and severity. */
  function AssessRow(row: Row, strategy: Strategy, reply: Reply): (r: Record)
    ensures Columns(row) <= r.Keys
    ensures strategy.Local? ==>
      (&& ResultKeys <= r.Keys
       && r[SeverityKey] == Text(Classify(Score(row)).Label())
       && r[StatusKey] == Text(StatusFor(Classify(Score(row)))))
    ensures strategy.Remote? && !Accepted(reply) ==>
      (&& ResultKeys <= r.Keys
       && r[SeverityKey] == Text(UnknownSeverity) && r[RiskScoreKey] == Null
       && (r[StatusKey] == Text(ApiErrorStatus) || r[StatusKey] == Text(ConnectionFailedStatus)))
  {
    var rowData := ToDict(row);
    match strategy
    case Remote(_, _) => Update(rowData, RemoteFields(reply))
    case Local => Update(rowData, LocalFields(row))
  }

  /** The results of a whole run; `service(i)` is the reply to the call made for row i. */
  function Assessed(rows: seq<Row>, strategy: Strategy, service: nat -> Reply): (results: seq<Record>)
    ensures |results| == |rows|
    ensures forall i :: 0 <= i < |rows| ==> results[i] == AssessRow(rows[i], strategy, service(i))
  {
    seq(|rows|, i requires 0 <= i < |rows| => AssessRow(rows[i], strategy, service(i)))
  }

  /** The progress reported after row i of n: `(i + 1) / n`. It lies in
      (0, 1] for every n, one included, and is exactly 1 after the last row. */
  function Progress(i: nat, n: nat): (p: real)
    requires i < n
    ensures 0.0 < p <= 1.0
    ensures i == n - 1 ==> p == 1.0
  {
    var N := n as real;
    DivideAtMostOne((i + 1) as real, N);
    (i + 1) as real / N
  }

  /** The progress reports after the first k of n rows. */
  function Reports(k: nat, n: nat): (ps: seq<real>)
    requires k <= n
    ensures |ps| == k
    ensures forall j :: 0 <= j < k ==> ps[j] == Progress(j, n)
  {
    if k == 0 then [] else Reports(k - 1, n) + [Progress(k - 1, n)]
  }

  /** The loop of the run. `reports` are the values handed to the progress bar, in order. */
  method Analyze(rows: seq<Row>, strategy: Strategy, service: nat -> Reply)
    returns (results: seq<Record>, reports: seq<real>)
    ensures results == Assessed(rows, strategy, service)
    ensures |reports| == |rows|
    ensures forall i :: 0 <= i < |rows| ==> reports[i] == Progress(i, |rows|)
  {
    results := [];
    reports := [];
    var i := 0;
    while i < |rows|
      invariant 0 <= i <= |rows|
      invariant |results| == i && |reports| == i
      invariant results == Assessed(rows[..i], strategy, service)
      invariant reports == Reports(i, |rows|)
    {
      var rowData := ToDict(rows[i]);
      match strategy {
        case Remote(_, _) =>
          rowData := Update(rowData, RemoteFields(service(i)));
        case Local =>
          rowData := Update(rowData, LocalFields(rows[i]));
      }
      AssessedAppend(rows, strategy, service, i);
      results := results + [rowData];
      reports := reports + [Progress(i, |rows|)];
      assert reports == Reports(i + 1, |rows|);
      i := i + 1;
    }
    assert rows[..|rows|] == rows;
  }

  /** A run over one more row adds that row's record at the end. */
  lemma AssessedAppend(rows: seq<Row>, strategy: Strategy, service: nat -> Reply, i: nat)
    requires i < |rows|
    ensures Assessed(rows[..i + 1], strategy, service)
         == Assessed(rows[..i], strategy, service) + [AssessRow(rows[i], strategy, service(i))]
  {
    var longer := Assessed(rows[..i + 1], strategy, service);
    var shorter := Assessed(rows[..i], strategy, service);
    forall j | 0 <= j < i
      ensures longer[j] == shorter[j]
    {
      assert rows[..i + 1][j] == rows[..i][j];
    }
    assert longer == shorter + [longer[i]];
  }

  /** Each report is strictly larger than every earlier one. */
  lemma ProgressIncreases(n: nat, i: nat, j: nat)
    requires i < j < n
    ensures Progress(i, n) < Progress(j, n)
  {
    DivideStrictlyMonotone((i + 1) as real, (j + 1) as real, n as real);
  }

  lemma DivideAtMostOne(a: real, n: real)
    requires 0.0 < a <= n
    ensures 0.0 < a / n <= 1.0
    ensures a == n ==> a / n == 1.0
  {
    if a < n {
      DivideStrictlyMonotone(a, n, n);
    }
    assert n / n == 1.0;
  }

  lemma DivideStrictlyMonotone(a: real, b: real, n: real)
    requires 0.0 < a < b && n > 0.0
    ensures 0.0 < a / n < b / n
  {
    assert b / n - a / n == (b - a) / n;
  }

  /** Each result is the input row's dictionary with the strategy's fields
      merged in: every original column is kept, and keeps its value unless the
      scorer wrote a field of the same name. */
  lemma {:induction false} ResultsExtendRows(rows: seq<Row>, strategy: Strategy, service: nat -> Reply, i: nat)
    requires i < |rows|
    ensures var r := Assessed(rows, strategy, service)[i];
      var fields := if strategy.Local? then LocalFields(rows[i]) else RemoteFields(service(i));
      && r.Keys == Columns(rows[i]) + fields.Keys
      && (forall k :: k in fields ==> r[k] == fields[k])
      && (forall k :: k in ToDict(rows[i]) && k !in fields ==> r[k] == ToDict(rows[i])[k])
  {
  }

  /** A local run and every row whose remote reply was not accepted carry all four result fields. */
  lemma EveryScoredRowCarriesResultKeys(rows: seq<Row>, strategy: Strategy, service: nat -> Reply, i: nat)
    requires i < |rows|
    requires strategy.Local? || !Accepted(service(i))
    ensures ResultKeys <= Assessed(rows, strategy, service)[i].Keys
    ensures Assessed(rows, strategy, service)[i][SeverityKey].Text?
    ensures Assessed(rows, strategy, service)[i][StatusKey].Text?
  {
    if strategy.Remote? {
      RejectedReplyCarriesAllKeys(service(i));
    }
  }

  /** A local run never consults the service: its results are the same whatever the replies. */
  lemma LocalRunIgnoresService(rows: seq<Row>, s1: nat -> Reply, s2: nat -> Reply)
    ensures Assessed(rows, Local, s1) == Assessed(rows, Local, s2)
  {
  }

  /** Three rows whose numeric columns sum to 50, 150 and 250 are rated Low,
      Medium and High, in that order, by a local run. */
  lemma ThreeRowScenario(service: nat -> Reply)
    ensures var rows := [[Cell("id", Text("a")), Cell("amount", Number(-20.0)), Cell("fee", Number(30.0))],
                         [Cell("id", Text("b")), Cell("amount", Number(150.0))],
                         [Cell("id", Text("c")), Cell("amount", Number(250.0)), Cell("flagged", Boolean(true))]];
      var results := Assessed(rows, Local, service);
      && results[0][SeverityKey] == Text("Low")
      && results[1][SeverityKey] == Text("Medium")
      && results[2][SeverityKey] == Text("High")
  {
    var r0 := [Cell("id", Text("a")), Cell("amount", Number(-20.0)), Cell("fee", Number(30.0))];
    var r1 := [Cell("id", Text("b")), Cell("amount", Number(150.0))];
    var r2 := [Cell("id", Text("c")), Cell("amount", Number(250.0)), Cell("flagged", Boolean(true))];
    ScoreOfThree(r0);
    ScoreOfThree(r1);
    ScoreOfThree(r2);
    LocalSeverity(r0, service(0));
    LocalSeverity(r1, service(1));
    LocalSeverity(r2, service(2));
  }

  lemma LocalSeverity(row: Row, reply: Reply)
    ensures AssessRow(row, Local, reply)[SeverityKey] == Text(Classify(Score(row)).Label())
  {
  }

  lemma ScoreOfThree(row: Row)
    requires 0 < |row| <= 3
    ensures Score(row) == Magnitude(row[0].value)
                        + (if |row| > 1 then Magnitude(row[1].value) else 0.0)
                        + (if |row| > 2 then Magnitude(row[2].value) else 0.0)
  {
    var t := row[1..];
    if |t| > 0 {
      var u := t[1..];
      if |u| > 0 {
        assert u[1..] == [];
      } else {
        assert u == [];
      }
    } else {
      assert t == [];
    }
  }

  // ---------------------------------------------------------------------
  // The local branch as the source writes it

  datatype Result<T> = Success(value: T) | Failure(error: string)

  /** `row.select_dtypes(...)` is called on a Series, which has no such method. */
  const SelectDtypesError: string := "'Series' object has no attribute 'select_dtypes'"

  /** When the upload has a column named `select_dtypes`, attribute access on
      the row yields that cell instead, and calling the cell raises TypeError.
      Python's message names the cell's type ("'float' object is not
      callable"); this constant stands in for every such message. */
  const CellNotCallableError: string := "object is not callable"

  /** One row as written: the local branch raises before any field is merged,
      and it does so outside the try, so the exception leaves the loop. */
  function AssessRowAsWritten(row: Row, strategy: Strategy, reply: Reply): (r: Result<Record>)
    ensures r.Failure? <==> strategy.Local?
    ensures r.Success? ==> r.value == AssessRow(row, strategy, reply)
  {
    match strategy
    case Remote(_, _) => Success(AssessRow(row, strategy, reply))
    case Local =>
      if "select_dtypes" in Columns(row) then Failure(CellNotCallableError)
      else Failure(SelectDtypesError)
  }

  /** The run as written: the first exception from a row aborts the whole run. */
  function AnalyzeAsWritten(rows: seq<Row>, strategy: Strategy, service: nat -> Reply): (r: Result<seq<Record>>)
    ensures r.Success? ==> |r.value| == |rows|
    ensures r.Failure? ==> strategy.Local? && |rows| > 0
  {
    if rows == [] then Success([])
    else
      match AnalyzeAsWritten(rows[..|rows| - 1], strategy, service)
      case Failure(e) => Failure(e)
      case Success(done) =>
        match AssessRowAsWritten(rows[|rows| - 1], strategy, service(|rows| - 1))
        case Failure(e) => Failure(e)
        case Success(r) => Success(done + [r])
  }

  /** As written, a local run over any non-empty upload produces no results:
      it ends in the first row's exception, the AttributeError unless that row
      has a column named `select_dtypes`. */
  lemma {:induction false} AsWrittenLocalRunAborts(rows: seq<Row>, service: nat -> Reply)
    requires |rows| > 0
    ensures AnalyzeAsWritten(rows, Local, service).Failure?
    ensures AnalyzeAsWritten(rows, Local, service).error == AssessRowAsWritten(rows[0], Local, service(0)).error
    ensures "select_dtypes" !in Columns(rows[0])
      ==> AnalyzeAsWritten(rows, Local, service) == Failure(SelectDtypesError)
  {
    if |rows| > 1 {
      var init := rows[..|rows| - 1];
      AsWrittenLocalRunAborts(init, service);
      assert init[0] == rows[0];
    }
  }

  /** As written, a remote run already gives what the corrected model gives. */
  lemma {:induction false} AsWrittenRemoteRunAgrees(rows: seq<Row>, strategy: Strategy, service: nat -> Reply)
    requires strategy.Remote?
    ensures AnalyzeAsWritten(rows, strategy, service) == Success(Assessed(rows, strategy, service))
  {
    if rows != [] {
      var init := rows[..|rows| - 1];
      AsWrittenRemoteRunAgrees(init, strategy, service);
      assert Assessed(rows, strategy, service)
          == Assessed(init, strategy, service) + [AssessRow(rows[|rows| - 1], strategy, service(|rows| - 1))];
    }
  }

  /** Corrected: a local run scores every row, one result per row in input
      order, each rated from the sum of its numeric magnitudes. */
  lemma LocalRunScoresEveryRow(rows: seq<Row>, service: nat -> Reply, i: nat)
    requires i < |rows|
    ensures |Assessed(rows, Local, service)| == |rows|
    ensures var r := Assessed(rows, Local, service)[i];
      && ResultKeys <= r.Keys
      && r[SeverityKey] == Text(Classify(Score(rows[i])).Label())
      && r[RiskScoreKey] == Number(Round2(Score(rows[i])))
  {
  }
}
