/** The local fallback heuristic: a risk score from the magnitudes of a
    row's numeric fields, a severity from two thresholds, and the status and
    recommendation that follow from the severity. Pure and deterministic. */
module LocalScorer {
  import opened Records

  datatype Severity = Low | Medium | High {
    /** The severity as written into the result row. */
    function Label(): string {
      match this
      case Low => "Low"
      case Medium => "Medium"
      case High => "High"
    }

    /** Position in the order Low < Medium < High. */
    function Rank(): nat {
      match this
      case Low => 0
      case Medium => 1
      case High => 2
    }
  }

  const MediumThreshold: real := 100.0
  const HighThreshold: real := 200.0

  const NormalStatus: string := "🟢 Normal"
  const SuspiciousStatus: string := "🔴 Suspicious"
  const MonitorAdvice: string := "Monitor"
  const ReviewAdvice: string := "Review"

  function Abs(x: real): real
  {
    if x < 0.0 then -x else x
  }

  /** What one field adds to the score: its magnitude when it is numeric, nothing otherwise. */
  function Magnitude(v: Value): real
  {
    if v.Number? then Abs(v.n) else 0.0
  }

  /** Sum of the absolute values of the row's numeric fields; never negative. */
  function Score(row: Row): (s: real)
    ensures s >= 0.0
  {
    if row == [] then 0.0 else Magnitude(row[0].value) + Score(row[1..])
  }

  /** The severity bands: below 100, from 100 below 200, from 200 on. */
  function Classify(score: real): (severity: Severity)
    ensures severity == Low <==> score < MediumThreshold
    ensures severity == Medium <==> MediumThreshold <= score < HighThreshold
    ensures severity == High <==> score >= HighThreshold
  {
    if score < MediumThreshold then Low
    else if score < HighThreshold then Medium
    else High
  }

  /** `round(x, 2)` on exact reals: the nearest multiple of 0.01, ties to the even one. */
  function Round2(x: real): (r: real)
    ensures -0.005 <= r - x <= 0.005
    ensures (r * 100.0).Floor as real == r * 100.0
    ensures x >= 0.0 ==> r >= 0.0
  {
    var scaled := x * 100.0;
    var k := scaled.Floor;
    var frac := scaled - k as real;
    var n := if frac > 0.5 || (frac == 0.5 && k % 2 != 0) then k + 1 else k;
    assert (n as real / 100.0) * 100.0 == n as real;
    n as real / 100.0
  }

  function StatusFor(severity: Severity): string
  {
    if severity == Low then NormalStatus else SuspiciousStatus
  }

  function RecommendationFor(severity: Severity): string
  {
    if severity != High then MonitorAdvice else ReviewAdvice
  }

  /** The dictionary the local branch merges onto a row. */
  function LocalFields(row: Row): (fields: Record)
    ensures fields.Keys == ResultKeys
  {
    var score := Score(row);
    var severity := Classify(score);
    map[RiskScoreKey := Number(Round2(score)),
        StatusKey := Text(StatusFor(severity)),
        SeverityKey := Text(severity.Label()),
        RecommendationKey := Text(RecommendationFor(severity))]
  }

  /** The thresholds are exact: 100 is already Medium and 200 already High. */
  lemma SeverityBoundaries(score: real)
    ensures Classify(score) == Low <==> score < 100.0
    ensures Classify(score) == Medium <==> 100.0 <= score < 200.0
    ensures Classify(score) == High <==> score >= 200.0
    ensures Classify(100.0) == Medium && Classify(200.0) == High && Classify(99.999) == Low
  {
  }

  /** A larger score never gets a lower severity. */
  lemma ClassifyMonotone(s: real, t: real)
    requires s <= t
    ensures Classify(s).Rank() <= Classify(t).Rank()
  {
  }

  /** Score distributes over concatenation of columns. */
  lemma {:induction false} ScoreAppend(a: Row, b: Row)
    ensures Score(a + b) == Score(a) + Score(b)
  {
    if a != [] {
      assert (a + b)[1..] == a[1..] + b;
      ScoreAppend(a[1..], b);
    } else {
      assert a + b == b;
    }
  }

  /** Every numeric field's magnitude is part of the score. */
  lemma {:induction false} FieldWithinScore(row: Row, i: nat)
    requires i < |row|
    ensures Magnitude(row[i].value) <= Score(row)
  {
    if i > 0 {
      FieldWithinScore(row[1..], i - 1);
    }
  }

  /** A single numeric field of magnitude 200 or more makes the row High. */
  lemma LargeFieldIsHigh(row: Row, i: nat)
    requires i < |row| && row[i].value.Number?
    requires Abs(row[i].value.n) >= HighThreshold
    ensures Classify(Score(row)) == High
  {
    FieldWithinScore(row, i);
  }

  /** A row without numeric fields scores 0 and is Low. */
  lemma {:induction false} NoNumericFieldsIsLow(row: Row)
    requires forall i :: 0 <= i < |row| ==> !row[i].value.Number?
    ensures Score(row) == 0.0
    ensures Classify(Score(row)) == Low
  {
    if row != [] {
      NoNumericFieldsIsLow(row[1..]);
    }
  }

  /** Status and recommendation follow from the severity alone; all four keys
      are written, and risk_score is the rounded, non-negative score. */
  lemma LocalFieldsFollowSeverity(row: Row)
    ensures var f := LocalFields(row);
      var severity := Classify(Score(row));
      && f[SeverityKey] == Text(severity.Label())
      && (f[StatusKey] == Text(NormalStatus) <==> severity == Low)
      && (f[StatusKey] == Text(SuspiciousStatus) <==> severity != Low)
      && (f[RecommendationKey] == Text(ReviewAdvice) <==> severity == High)
      && (f[RecommendationKey] == Text(MonitorAdvice) <==> severity != High)
      && f[RiskScoreKey].Number? && f[RiskScoreKey].n >= 0.0
      && -0.005 <= f[RiskScoreKey].n - Score(row) <= 0.005
  {
  }

  /** Severity is decided on the unrounded score, so a score just under 100
      shows a risk_score of 100.0 next to severity Low. */
  lemma RoundedScoreCanShowThreshold()
    ensures var f := LocalFields([Cell("amount", Number(99.999))]);
      f[RiskScoreKey] == Number(100.0) && f[SeverityKey] == Text("Low")
  {
    var row := [Cell("amount", Number(99.999))];
    assert Score(row[1..]) == 0.0;
    assert Score(row) == 99.999;
    assert (99.999 * 100.0).Floor == 9999;
  }
}
