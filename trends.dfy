/** Anomaly-based trend analysis: select the flagged rows with a numeric value, group them by
    school and metric, and label each large enough group from its forecast. */
module Trends {
  import opened Wrappers
  import opened Entries
  import opened Seqs

  /** Groups with fewer points than this are not forecast. */
  const MinPoints: nat := 5
  /** The last forecast value must exceed the first by this factor to read as increasing. */
  const UpFactor: real := 1.2
  /** The last forecast value must fall below the first by this factor to read as decreasing. */
  const DownFactor: real := 0.8

  datatype GroupKey = GroupKey(school: string, metric: string)

  function KeyOf(r: Record): GroupKey {
    GroupKey(r.school, r.metric)
  }

  predicate IsFlagged(r: Record) {
    r.isAnomaly
  }

  /** Whether a row's value survives numeric coercion under `parse`. */
  function Parses(parse: string -> Option<real>): Record -> bool {
    (r: Record) => parse(r.value).Some?
  }

  /** Whether a row belongs to the group with key `k`. */
  function HasKey(k: GroupKey): Record -> bool {
    (r: Record) => KeyOf(r) == k
  }

  /** The rows flagged as anomalies. */
  function Anomalies(rows: seq<Record>): (out: seq<Record>)
    ensures out == [] <==> forall r :: r in rows ==> !r.isAnomaly
  {
    var out := Select(rows, IsFlagged);
    assert out != [] ==> out[0] in out;
    out
  }

  /** The input of trend analysis: the anomaly rows whose value reads as a number under
      `parse`, each kept as often as it occurs and in the order of `rows`. */
  function TrendRows(rows: seq<Record>, parse: string -> Option<real>): (out: seq<Record>)
    ensures forall r :: r in out ==> r in rows && r.isAnomaly && parse(r.value).Some?
    ensures IsSubsequence(out, rows)
    ensures forall r :: multiset(out)[r] ==
                        if r.isAnomaly && parse(r.value).Some? then multiset(rows)[r] else 0
  {
    var flagged := Anomalies(rows);
    SelectIsSubsequence(rows, IsFlagged);
    SelectIsSubsequence(flagged, Parses(parse));
    SubsequenceTransitive(Select(flagged, Parses(parse)), flagged, rows);
    SelectMultiplicity(rows, IsFlagged);
    SelectMultiplicity(flagged, Parses(parse));
    Select(flagged, Parses(parse))
  }

  /** The (school, metric) pairs that occur in `rows`. */
  function KeysOf(rows: seq<Record>): set<GroupKey> {
    set r | r in rows :: KeyOf(r)
  }

  /** The rows partitioned by (school, metric); each group keeps the order of `rows`. */
  function Group(rows: seq<Record>): (groups: map<GroupKey, seq<Record>>)
    ensures forall k, r :: k in groups && r in groups[k] ==> r in rows && KeyOf(r) == k
  {
    map k | k in KeysOf(rows) :: Select(rows, HasKey(k))
  }

  /** The groups partition the rows: a group exists exactly for each pair that occurs, it is
      a non-empty subsequence of `rows`, and every row lies, with all its occurrences, in the
      group of its own pair. */
  lemma GroupIsPartition(rows: seq<Record>)
    ensures forall k :: k in Group(rows) <==> exists r :: r in rows && KeyOf(r) == k
    ensures forall k :: k in Group(rows) ==>
      Group(rows)[k] != [] && IsSubsequence(Group(rows)[k], rows)
    ensures forall r :: r in rows ==>
      KeyOf(r) in Group(rows) && multiset(Group(rows)[KeyOf(r)])[r] == multiset(rows)[r]
  {
    var groups := Group(rows);
    forall k | k in groups
      ensures groups[k] != [] && IsSubsequence(groups[k], rows)
    {
      SelectIsSubsequence(rows, HasKey(k));
      var r :| r in rows && KeyOf(r) == k;
      assert HasKey(k)(r);
      assert r in groups[k];
    }
    forall r | r in rows
      ensures KeyOf(r) in groups && multiset(groups[KeyOf(r)])[r] == multiset(rows)[r]
    {
      SelectMultiplicity(rows, HasKey(KeyOf(r)));
      assert HasKey(KeyOf(r))(r);
    }
  }

  /** Distinct groups share no row. */
  lemma GroupsDisjoint(rows: seq<Record>, k1: GroupKey, k2: GroupKey)
    requires k1 in Group(rows) && k2 in Group(rows) && k1 != k2
    ensures multiset(Group(rows)[k1]) !! multiset(Group(rows)[k2])
  {
  }

  /** One point of the series handed to the forecaster: a date and a numeric value. */
  datatype Observation = Observation(ds: Day, y: real)

  /** A group's rows as the forecaster's (date, value) series. */
  function Series(g: seq<Record>, parse: string -> Option<real>): (s: seq<Observation>)
    requires forall r :: r in g ==> parse(r.value).Some?
    ensures |s| == |g|
    ensures forall i :: 0 <= i < |g| ==> s[i].ds == g[i].timestamp && Some(s[i].y) == parse(g[i].value)
  {
    seq(|g|, i requires 0 <= i < |g| => Observation(g[i].timestamp, parse(g[i].value).value))
  }

  /** One forecast value: a number or NaN. */
  datatype Yhat = NaN | Finite(v: real)

  /** What the forecaster gives back: an exception, or a sequence of predicted values. */
  datatype Forecast = Raised | Predicted(yhat: seq<Yhat>)

  predicate HasNaN(yhat: seq<Yhat>) {
    exists i :: 0 <= i < |yhat| && yhat[i].NaN?
  }

  datatype Direction = Increasing | Decreasing | Stable

  /** What the analysis reports for one group. */
  datatype Outcome =
    | NotEnoughData              // fewer than MinPoints points; not forecast
    | Unreliable                 // the forecast holds a NaN; no label
    | Classified(direction: Direction)
    | Failed                     // the forecasting step raised

  /** The label from the first and last forecast values: a chain of if/else. */
  function Classify(first: real, last: real): (d: Direction)
    ensures d == Increasing <==> last > first * UpFactor
    ensures d == Decreasing <==> !(last > first * UpFactor) && last < first * DownFactor
    ensures d == Stable <==> !(last > first * UpFactor) && !(last < first * DownFactor)
  {
    if last > first * UpFactor then Increasing
    else if last < first * DownFactor then Decreasing
    else Stable
  }

  /** For a positive first value the label reads the relative change: more than +20% is
      increasing, less than -20% is decreasing, anything in between is stable. */
  lemma ClassifyRelativeChange(first: real, last: real)
    requires first > 0.0
    ensures Classify(first, last) == Increasing <==> last / first > 1.2
    ensures Classify(first, last) == Decreasing <==> last / first < 0.8
    ensures Classify(first, last) == Stable <==> 0.8 <= last / first <= 1.2
  {
    var q := last / first;
    assert last == q * first;
    assert last > first * UpFactor <==> q > 1.2 by {
      assert last - first * UpFactor == (q - 1.2) * first;
    }
    assert last < first * DownFactor <==> q < 0.8 by {
      assert last - first * DownFactor == (q - 0.8) * first;
    }
  }

  /** Scaling both values by the same positive factor does not change the label. */
  lemma ClassifyScaleInvariant(first: real, last: real, c: real)
    requires c > 0.0
    ensures Classify(c * first, c * last) == Classify(first, last)
  {
  }

  /** A flat forecast is stable when it is non-negative; negative values reverse the bands,
      so a flat negative forecast is labelled increasing. */
  lemma ClassifyFlat(c: real)
    ensures Classify(c, c) == if c < 0.0 then Increasing else Stable
  {
  }

  /** The NaN guard, then the label from the first and last values. On an empty forecast
      looking up its first or last value raises, which the per-group handler reports. */
  function Interpret(f: Forecast): (o: Outcome)
    ensures o != NotEnoughData
    ensures o == Failed <==> f.Raised? || (!HasNaN(f.yhat) && f.yhat == [])
    ensures o == Unreliable <==> f.Predicted? && HasNaN(f.yhat)
    ensures o.Classified? <==> f.Predicted? && !HasNaN(f.yhat) && f.yhat != []
    ensures o.Classified? ==>
      f.yhat[0].Finite? && f.yhat[|f.yhat| - 1].Finite? &&
      o.direction == Classify(f.yhat[0].v, f.yhat[|f.yhat| - 1].v)
  {
    match f
    case Raised => Failed
    case Predicted(yhat) =>
      if HasNaN(yhat) then Unreliable
      else if yhat == [] then Failed
      else
        assert !yhat[0].NaN? && !yhat[|yhat| - 1].NaN?;
        Classified(Classify(yhat[0].v, yhat[|yhat| - 1].v))
  }

  /** The report for one group: too small groups are never forecast, the others are
      forecast from their series and interpreted. */
  function GroupOutcome(g: seq<Record>, parse: string -> Option<real>,
                        forecast: seq<Observation> -> Forecast): (o: Outcome)
    requires forall r :: r in g ==> parse(r.value).Some?
    ensures o == NotEnoughData <==> |g| < MinPoints
    ensures |g| >= MinPoints ==> o == Interpret(forecast(Series(g, parse)))
  {
    if |g| < MinPoints then NotEnoughData else Interpret(forecast(Series(g, parse)))
  }

  /** A group below the minimum gets the same report whatever the forecaster would say. */
  lemma SmallGroupIgnoresForecast(g: seq<Record>, parse: string -> Option<real>,
                                  f1: seq<Observation> -> Forecast, f2: seq<Observation> -> Forecast)
    requires forall r :: r in g ==> parse(r.value).Some?
    requires |g| < MinPoints
    ensures GroupOutcome(g, parse, f1) == GroupOutcome(g, parse, f2) == NotEnoughData
  {
  }

  /** The result of pressing "Analyze Trends". */
  datatype Analysis =
    | NoAnomalies                                 // no flagged row in the filtered data
    | Analysed(outcomes: map<GroupKey, Outcome>)  // one report per (school, metric) group

  /** The loop over the groups: one report per group, each computed from that group alone. */
  method ReportGroups(groups: map<GroupKey, seq<Record>>, parse: string -> Option<real>,
                      forecast: seq<Observation> -> Forecast)
    returns (outcomes: map<GroupKey, Outcome>)
    requires forall k, r :: k in groups && r in groups[k] ==> parse(r.value).Some?
    ensures outcomes.Keys == groups.Keys
    ensures forall k :: k in outcomes ==> outcomes[k] == GroupOutcome(groups[k], parse, forecast)
  {
    var remaining := groups.Keys;
    outcomes := map[];
    while remaining != {}
      invariant remaining <= groups.Keys
      invariant outcomes.Keys == groups.Keys - remaining
      invariant forall k :: k in outcomes ==> outcomes[k] == GroupOutcome(groups[k], parse, forecast)
      decreases remaining
    {
      var k :| k in remaining;
      var g := groups[k];
      remaining := remaining - {k};
      if |g| < MinPoints {
        outcomes := outcomes[k := NotEnoughData];
        continue;
      }
      outcomes := outcomes[k := Interpret(forecast(Series(g, parse)))];
    }
  }

  /** Trend analysis over the filtered rows: when some row is flagged, one report per group
      of numeric anomaly rows. */
  method AnalyzeTrends(filtered: seq<Record>, parse: string -> Option<real>,
                       forecast: seq<Observation> -> Forecast) returns (a: Analysis)
    ensures a == NoAnomalies <==> forall r :: r in filtered ==> !r.isAnomaly
    ensures a.Analysed? ==>
      a.outcomes.Keys == Group(TrendRows(filtered, parse)).Keys &&
      forall k :: k in a.outcomes ==>
        a.outcomes[k] == GroupOutcome(Group(TrendRows(filtered, parse))[k], parse, forecast)
  {
    if Anomalies(filtered) == [] {
      return NoAnomalies;
    }
    var outcomes := ReportGroups(Group(TrendRows(filtered, parse)), parse, forecast);
    return Analysed(outcomes);
  }
}
