/** Rows of the uploaded transaction table, the dictionaries they are copied
    into, and the `dict.update` merge that writes a score result onto them. */
module Records {

  /** A scalar cell value as pandas and JSON hand it over. */
  datatype Value = Number(n: real) | Text(s: string) | Boolean(b: bool) | Null

  /** One column of a row: its header name and its value. */
  datatype Cell = Cell(column: string, value: Value)

  /** A table row in column order, as `iterrows` yields it. */
  type Row = seq<Cell>

  /** A row copied into a dictionary (`row.to_dict()`), possibly with score fields merged in. */
  type Record = map<string, Value>

  /** The four keys every scorer of the batch writes. */
  const StatusKey: string := "status"
  const RiskScoreKey: string := "risk_score"
  const SeverityKey: string := "severity"
  const RecommendationKey: string := "recommendation"
  const ResultKeys: set<string> := {StatusKey, RiskScoreKey, SeverityKey, RecommendationKey}

  function Columns(row: Row): set<string>
  {
    set i | 0 <= i < |row| :: row[i].column
  }

  predicate DistinctColumns(row: Row)
  {
    forall i, j :: 0 <= i < j < |row| ==> row[i].column != row[j].column
  }

  /** `row.to_dict()`: one key per column, no key added or dropped; when a
      column name repeats, the later column wins, as in a dict display. */
  function ToDict(row: Row): (d: Record)
    ensures d.Keys == Columns(row)
  {
    if row == [] then map[]
    else
      var init := row[..|row| - 1];
      var last := row[|row| - 1];
      assert Columns(row) == Columns(init) + {last.column} by {
        forall c | c in Columns(row) ensures c in Columns(init) + {last.column} {
          var i :| 0 <= i < |row| && row[i].column == c;
          if i < |row| - 1 { assert init[i] == row[i]; }
        }
        forall c | c in Columns(init) ensures c in Columns(row) {
          var i :| 0 <= i < |init| && init[i].column == c;
          assert row[i] == init[i];
        }
      }
      ToDict(init)[last.column := last.value]
  }

  /** With distinct column names (as `read_csv` guarantees by renaming
      duplicates), every column's value is carried over unchanged. */
  lemma {:induction false} ToDictKeepsValues(row: Row, i: nat)
    requires DistinctColumns(row)
    requires i < |row|
    ensures row[i].column in ToDict(row)
    ensures ToDict(row)[row[i].column] == row[i].value
  {
    var init := row[..|row| - 1];
    if i < |row| - 1 {
      assert DistinctColumns(init) by {
        forall p, q | 0 <= p < q < |init| ensures init[p].column != init[q].column {
          assert init[p] == row[p] && init[q] == row[q];
        }
      }
      ToDictKeepsValues(init, i);
      assert init[i] == row[i];
    }
  }

  /** `d.update(u)`: every key of `u` is written with its value from `u`,
      every other key of `d` keeps its value, and no key is removed. */
  function Update(d: Record, u: Record): (r: Record)
    ensures r.Keys == d.Keys + u.Keys
    ensures forall k :: k in u ==> r[k] == u[k]
    ensures forall k :: k in d && k !in u ==> r[k] == d[k]
  {
    d + u
  }
}
