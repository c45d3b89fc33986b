/**
 * The record-list operations of the analyzer in the second demo script
 * (`demo/script_2.py`, class `DataAnalyzer`): `group_by_category`,
 * `calculate_moving_average`, `detect_anomalies` and `calculate_statistics`.
 *
 * A record is a map from field names to values. Python's arithmetic treats `True` and
 * `False` as 1 and 0 and refuses text; a missing field or a text value raises, and every
 * raised exception is `None` here. Numbers are exact reals, so the two-decimal rounding of
 * the stored averages and z-scores is not modelled, and the square root is a parameter.
 */
module DataAnalyzer {
  import opened Wrappers
  import opened Seqs
  import opened Reals

  datatype Field = Num(x: real) | Str(s: string) | Flag(b: bool)

  type Row = map<string, Field>

  const ValueKey := "value"
  const MovingAvgKey := "moving_avg"
  const ZScoreKey := "z_score"
  const AnomalyKey := "anomaly"

  /** The number arithmetic sees in a field; text has none. */
  function AsNumber(f: Field): Option<real> {
    match f
    case Num(x) => Some(x)
    case Flag(b) => Some(if b then 1.0 else 0.0)
    case Str(_) => None
  }

  /** `row[key]` used as a number: `None` when the key is missing or the value is text. */
  function NumberAt(row: Row, key: string): Option<real> {
    if key in row then AsNumber(row[key]) else None
  }

  predicate AllNumeric(rows: seq<Row>, key: string) {
    forall i :: 0 <= i < |rows| ==> NumberAt(rows[i], key).Some?
  }

  // ----- group_by_category -----

  /** `row[key] == k`, false for a row without the key. */
  function InGroup(key: string, k: Field): Row -> bool {
    (row: Row) => key in row && row[key] == k
  }

  /** The column of `key`, in row order. */
  function KeyColumn(data: seq<Row>, key: string): (r: seq<Field>)
    requires forall i :: 0 <= i < |data| ==> key in data[i]
    ensures |r| == |data| && forall i :: 0 <= i < |data| ==> r[i] == data[i][key]
  {
    seq(|data|, i requires 0 <= i < |data| && key in data[i] => data[i][key])
  }

  /** `dict(groups)`: the keys in first-seen order and the rows of each. */
  datatype Groups = Groups(order: seq<Field>, members: map<Field, seq<Row>>)

  /** One pass of the grouping loop: the new row joins exactly the group of its key. */
  lemma GroupStep(data: seq<Row>, i: nat, key: string, order: seq<Field>, members: map<Field, seq<Row>>,
                  order2: seq<Field>, members2: map<Field, seq<Row>>)
    requires i < |data| && forall j :: 0 <= j <= i ==> key in data[j]
    requires order == Distinct(KeyColumn(data[..i], key))
    requires forall k :: k in members <==> k in order
    requires forall k :: k in members ==> members[k] == Filter(data[..i], InGroup(key, k))
    requires order2 == if data[i][key] in members then order else order + [data[i][key]]
    requires members2 == members[data[i][key] :=
               (if data[i][key] in members then members[data[i][key]] else []) + [data[i]]]
    ensures order2 == Distinct(KeyColumn(data[..i + 1], key))
    ensures forall k :: k in members2 <==> k in order2
    ensures forall k :: k in members2 ==> members2[k] == Filter(data[..i + 1], InGroup(key, k))
  {
    var k0 := data[i][key];
    assert data[..i + 1] == data[..i] + [data[i]];
    assert KeyColumn(data[..i + 1], key) == KeyColumn(data[..i], key) + [k0];
    DistinctSnoc(KeyColumn(data[..i], key), k0);
    forall k | k in members2 ensures members2[k] == Filter(data[..i + 1], InGroup(key, k)) {
      FilterSnoc(data[..i], data[i], InGroup(key, k));
      if k == k0 && k0 !in members {
        NoRowNoGroup(data[..i], key, k);
      }
    }
  }

  /** A key that does not occur in the column has no rows. */
  lemma NoRowNoGroup(data: seq<Row>, key: string, k: Field)
    requires forall i :: 0 <= i < |data| ==> key in data[i]
    requires k !in KeyColumn(data, key)
    ensures Filter(data, InGroup(key, k)) == []
  {
  }

  /**
   * `group_by_category`: a row without the key raises `KeyError`; otherwise each key, in
   * first-seen order, maps to its rows in their original order.
   */
  method GroupByCategory(data: seq<Row>, key: string) returns (r: Option<Groups>)
    ensures r.None? <==> exists i :: 0 <= i < |data| && key !in data[i]
    ensures r.Some? ==> r.value.order == Distinct(KeyColumn(data, key))
    ensures r.Some? ==> forall k :: k in r.value.members <==> k in r.value.order
    ensures r.Some? ==> forall k :: k in r.value.members ==> r.value.members[k] == Filter(data, InGroup(key, k))
  {
    var order: seq<Field> := [];
    var members: map<Field, seq<Row>> := map[];
    var i := 0;
    while i < |data|
      invariant 0 <= i <= |data|
      invariant forall j :: 0 <= j < i ==> key in data[j]
      invariant order == Distinct(KeyColumn(data[..i], key))
      invariant forall k :: k in members <==> k in order
      invariant forall k :: k in members ==> members[k] == Filter(data[..i], InGroup(key, k))
    {
      if key !in data[i] {
        return None;
      }
      var k := data[i][key];
      ghost var order0, members0 := order, members;
      if k !in members {
        order := order + [k];
        members := members[k := []];
      }
      members := members[k := members[k] + [data[i]]];
      GroupStep(data, i, key, order0, members0, order, members);
      i := i + 1;
    }
    assert data[..i] == data;
    return Some(Groups(order, members));
  }

  /** A group holds as many rows as its key occurs in the column. */
  lemma {:induction false} GroupSize(data: seq<Row>, key: string, k: Field)
    requires forall i :: 0 <= i < |data| ==> key in data[i]
    ensures |Filter(data, InGroup(key, k))| == multiset(KeyColumn(data, key))[k]
  {
    if data != [] {
      var init := data[..|data| - 1];
      GroupSize(init, key, k);
      FilterSnoc(init, data[|data| - 1], InGroup(key, k));
      assert data == init + [data[|data| - 1]];
      assert KeyColumn(data, key) == KeyColumn(init, key) + [data[|data| - 1][key]];
    }
  }

  /** The total size of the listed groups. */
  function SizeSum(order: seq<Field>, members: map<Field, seq<Row>>): nat
    requires forall k :: k in order ==> k in members
  {
    if order == [] then 0 else SizeSum(order[..|order| - 1], members) + |members[order[|order| - 1]]|
  }

  lemma {:induction false} SizeSumIsSumCounts(order: seq<Field>, members: map<Field, seq<Row>>, m: multiset<Field>)
    requires forall k :: k in order ==> k in members && |members[k]| == m[k]
    ensures SizeSum(order, members) == SumCounts(order, m)
  {
    if order != [] {
      var init := order[..|order| - 1];
      assert forall k :: k in init ==> k in order;
      SizeSumIsSumCounts(init, members, m);
    }
  }

  /** Every row lands in exactly the group of its key. */
  lemma GroupsMembership(data: seq<Row>, key: string, g: Groups)
    requires forall i :: 0 <= i < |data| ==> key in data[i]
    requires g.order == Distinct(KeyColumn(data, key))
    requires forall k :: k in g.members <==> k in g.order
    requires forall k :: k in g.members ==> g.members[k] == Filter(data, InGroup(key, k))
    ensures forall i :: 0 <= i < |data| ==> data[i][key] in g.members && data[i] in g.members[data[i][key]]
    ensures forall i, k :: 0 <= i < |data| && k in g.members && data[i] in g.members[k] ==> data[i][key] == k
  {
    forall i | 0 <= i < |data| ensures data[i][key] in g.members && data[i] in g.members[data[i][key]] {
      assert KeyColumn(data, key)[i] == data[i][key];
      assert InGroup(key, data[i][key])(data[i]);
    }
    forall i, k | 0 <= i < |data| && k in g.members && data[i] in g.members[k] ensures data[i][key] == k {
      assert InGroup(key, k)(data[i]);
    }
  }

  /** The group sizes add up to the number of rows. */
  lemma GroupsCoverAll(data: seq<Row>, key: string, g: Groups)
    requires forall i :: 0 <= i < |data| ==> key in data[i]
    requires g.order == Distinct(KeyColumn(data, key))
    requires forall k :: k in g.members <==> k in g.order
    requires forall k :: k in g.members ==> g.members[k] == Filter(data, InGroup(key, k))
    ensures forall k :: k in g.order ==> k in g.members
    ensures SizeSum(g.order, g.members) == |data|
  {
    forall k | k in g.order ensures |g.members[k]| == multiset(KeyColumn(data, key))[k] {
      GroupSize(data, key, k);
    }
    SizeSumIsSumCounts(g.order, g.members, multiset(KeyColumn(data, key)));
    CountsSumToLength(KeyColumn(data, key));
  }

  // ----- calculate_moving_average -----

  /** `sum(item["value"] for item in rows)`, or `None` where that raises. */
  function ValueSum(rows: seq<Row>): (r: Option<real>)
    ensures r.Some? <==> AllNumeric(rows, ValueKey)
  {
    if rows == [] then Some(0.0)
    else
      var init := rows[..|rows| - 1];
      assert forall i :: 0 <= i < |init| ==> init[i] == rows[i];
      match (ValueSum(init), NumberAt(rows[|rows| - 1], ValueKey))
      case (Some(s), Some(v)) => Some(s + v)
      case _ => None
  }

  /** `data[max(0, i - window + 1):i + 1]`, empty when the start passes the end. */
  function WindowOf(data: seq<Row>, i: nat, window: int): (r: seq<Row>)
    requires i < |data|
    ensures window >= 1 ==> |r| == (if i + 1 < window then i + 1 else window) && r[|r| - 1] == data[i]
    ensures window <= 0 ==> r == []
  {
    var start := if i - window + 1 > 0 then i - window + 1 else 0;
    if start <= i + 1 then data[start..i + 1] else []
  }

  /** The rows of a window are rows of the data. */
  lemma WindowOfNumeric(data: seq<Row>, i: nat, window: int)
    requires i < |data|
    ensures AllNumeric(data, ValueKey) ==> AllNumeric(WindowOf(data, i, window), ValueKey)
  {
    var w := WindowOf(data, i, window);
    var start := if i - window + 1 > 0 then i - window + 1 else 0;
    assert forall j :: 0 <= j < |w| ==> w[j] == data[start + j];
  }

  /** The average of one window, or `None` where the division or the sum raises. */
  function WindowAverage(data: seq<Row>, i: nat, window: int): Option<real>
    requires i < |data|
  {
    var w := WindowOf(data, i, window);
    match ValueSum(w)
    case None => None
    case Some(total) => if |w| == 0 then None else Some(total / |w| as real)
  }

  /** `rows` are the first `|rows|` rows of `data`, each with its window's average added. */
  ghost predicate Averaged(data: seq<Row>, window: int, rows: seq<Row>) {
    |rows| <= |data| &&
    forall j :: 0 <= j < |rows| ==>
      WindowAverage(data, j, window).Some? &&
      rows[j] == data[j][MovingAvgKey := Num(WindowAverage(data, j, window).value)]
  }

  /** One more averaged row keeps `Averaged`. */
  lemma AveragedStep(data: seq<Row>, window: int, rows: seq<Row>)
    requires Averaged(data, window, rows) && |rows| < |data|
    requires WindowAverage(data, |rows|, window).Some?
    ensures Averaged(data, window, rows + [data[|rows|][MovingAvgKey := Num(WindowAverage(data, |rows|, window).value)]])
  {
  }

  /**
   * `calculate_moving_average`: fewer rows than the window returns the data itself;
   * otherwise every row gains `moving_avg`, the average of the values of the last `window`
   * rows up to it. A non-numeric value raises, and so does a window below 1 on non-empty
   * data (every slice is empty and the division is by zero).
   */
  method MovingAverage(data: seq<Row>, window: int) returns (r: Option<seq<Row>>)
    ensures |data| < window ==> r == Some(data)
    ensures |data| >= window ==>
              (r.Some? <==> data == [] || (window >= 1 && AllNumeric(data, ValueKey)))
    ensures |data| >= window && r.Some? ==>
              |r.value| == |data| &&
              forall i :: 0 <= i < |data| ==>
                WindowAverage(data, i, window).Some? &&
                r.value[i] == data[i][MovingAvgKey := Num(WindowAverage(data, i, window).value)]
  {
    if |data| < window {
      return Some(data);
    }
    var result: seq<Row> := [];
    var i := 0;
    while i < |data|
      invariant 0 <= i <= |data|
      invariant |result| == i
      invariant i == 0 || (window >= 1 && AllNumeric(data[..i], ValueKey))
      invariant Averaged(data, window, result)
    {
      var windowData := WindowOf(data, i, window);
      var total := ValueSum(windowData);
      if total.None? {
        WindowOfNumeric(data, i, window);
        return None;
      }
      if |windowData| == 0 {
        return None;
      }
      AveragedStep(data, window, result);
      result := result + [data[i][MovingAvgKey := Num(total.value / |windowData| as real)]];
      i := i + 1;
    }
    assert data[..i] == data;
    return Some(result);
  }

  /** Over values that are all `c`, every window averages to `c`. */
  lemma {:induction false} ConstantSum(rows: seq<Row>, c: real)
    requires forall i :: 0 <= i < |rows| ==> NumberAt(rows[i], ValueKey) == Some(c)
    ensures ValueSum(rows) == Some(|rows| as real * c)
  {
    if rows != [] {
      var init := rows[..|rows| - 1];
      ConstantSum(init, c);
      assert (|init| as real) * c + c == (|rows| as real) * c;
    }
  }

  lemma ConstantAverage(data: seq<Row>, i: nat, window: int, c: real)
    requires i < |data| && window >= 1
    requires forall j :: 0 <= j < |data| ==> NumberAt(data[j], ValueKey) == Some(c)
    ensures WindowAverage(data, i, window) == Some(c)
  {
    var w := WindowOf(data, i, window);
    var start := if i - window + 1 > 0 then i - window + 1 else 0;
    assert forall j :: 0 <= j < |w| ==> w[j] == data[start + j];
    ConstantSum(w, c);
    assert |w| as real * c / |w| as real == c;
  }

  // ----- detect_anomalies -----

  /** The values of rows that all have one. */
  function Values(rows: seq<Row>): (r: seq<real>)
    requires AllNumeric(rows, ValueKey)
    ensures |r| == |rows| && forall i :: 0 <= i < |rows| ==> Some(r[i]) == NumberAt(rows[i], ValueKey)
  {
    seq(|rows|, i requires 0 <= i < |rows| && NumberAt(rows[i], ValueKey).Some? => NumberAt(rows[i], ValueKey).value)
  }

  function SquaredDeviations(xs: seq<real>, mean: real): real {
    if xs == [] then 0.0 else SquaredDeviations(xs[..|xs| - 1], mean) + (xs[|xs| - 1] - mean) * (xs[|xs| - 1] - mean)
  }

  function Abs(x: real): real {
    if x < 0.0 then -x else x
  }

  /** The z-score of one value, 0 when the spread is 0. */
  function ZScore(v: real, mean: real, std: real): real {
    if std == 0.0 then 0.0 else Abs(v - mean) / std
  }

  /** The rows whose z-score exceeds the threshold, each annotated with it. */
  function Flagged(data: seq<Row>, mean: real, std: real, threshold: real): seq<Row>
    requires AllNumeric(data, ValueKey)
  {
    if data == [] then []
    else
      var init, item := data[..|data| - 1], data[|data| - 1];
      assert forall i :: 0 <= i < |init| ==> init[i] == data[i];
      var z := ZScore(NumberAt(item, ValueKey).value, mean, std);
      Flagged(init, mean, std, threshold) +
        (if z > threshold then [item[ZScoreKey := Num(z)][AnomalyKey := Flag(true)]] else [])
  }

  /**
   * `detect_anomalies`: fewer than 3 rows give no anomaly; otherwise a non-numeric value
   * raises, and the result is the rows whose z-score against the mean and the population
   * standard deviation exceeds the threshold, annotated and in order.
   */
  method DetectAnomalies(data: seq<Row>, threshold: real, sqrt: real -> real) returns (r: Option<seq<Row>>)
    ensures |data| < 3 ==> r == Some([])
    ensures |data| >= 3 ==> (r.Some? <==> AllNumeric(data, ValueKey))
    ensures |data| >= 3 && r.Some? ==>
              var values := Values(data);
              var mean := Sum(values) / |values| as real;
              r.value == Flagged(data, mean, sqrt(SquaredDeviations(values, mean) / |values| as real), threshold)
  {
    if |data| < 3 {
      return Some([]);
    }
    if !AllNumeric(data, ValueKey) {
      return None;
    }
    var values := Values(data);
    var meanVal := Sum(values) / |values| as real;
    var stdVal := sqrt(SquaredDeviations(values, meanVal) / |values| as real);
    var anomalies: seq<Row> := [];
    var i := 0;
    while i < |data|
      invariant 0 <= i <= |data|
      invariant anomalies == Flagged(data[..i], meanVal, stdVal, threshold)
    {
      var item := data[i];
      var z := if stdVal == 0.0 then 0.0 else Abs(values[i] - meanVal) / stdVal;
      assert data[..i + 1][..i] == data[..i];
      if z > threshold {
        anomalies := anomalies + [item[ZScoreKey := Num(z)][AnomalyKey := Flag(true)]];
      }
      i := i + 1;
    }
    assert data[..i] == data;
    return Some(anomalies);
  }

  /**
   * Every flagged row is an input row plus its z-score, which exceeds the threshold, and
   * the `anomaly` mark; there are never more than the input rows.
   */
  lemma {:induction false} FlaggedRows(data: seq<Row>, mean: real, std: real, threshold: real)
    requires AllNumeric(data, ValueKey)
    ensures |Flagged(data, mean, std, threshold)| <= |data|
    ensures forall a :: a in Flagged(data, mean, std, threshold) ==>
              exists i :: 0 <= i < |data| &&
                var z := ZScore(NumberAt(data[i], ValueKey).value, mean, std);
                z > threshold && a == data[i][ZScoreKey := Num(z)][AnomalyKey := Flag(true)]
  {
    if data != [] {
      var init := data[..|data| - 1];
      assert forall i :: 0 <= i < |init| ==> init[i] == data[i];
      FlaggedRows(init, mean, std, threshold);
    }
  }

  /** With no spread and a non-negative threshold nothing is flagged. */
  lemma {:induction false} NoSpreadNoAnomaly(data: seq<Row>, mean: real, threshold: real)
    requires AllNumeric(data, ValueKey) && threshold >= 0.0
    ensures Flagged(data, mean, 0.0, threshold) == []
  {
    if data != [] {
      var init := data[..|data| - 1];
      assert forall i :: 0 <= i < |init| ==> init[i] == data[i];
      NoSpreadNoAnomaly(init, mean, threshold);
    }
  }

  // ----- calculate_statistics -----

  /** What `calculate_statistics` returns, without the median. */
  datatype Statistics =
    | StatsError(error: string)
    | Summary(count: nat, mean: real, min: real, max: real, sum: real, range: real)

  /** The values of `key` in every row, as numbers, or `None` where reading one raises. */
  function Column(data: seq<Row>, key: string): (r: Option<seq<real>>)
    ensures r.Some? <==> AllNumeric(data, key)
    ensures r.Some? ==> (|r.value| == |data| &&
                         forall i :: 0 <= i < |data| ==> NumberAt(data[i], key) == Some(r.value[i]))
  {
    if AllNumeric(data, key) then
      Some(seq(|data|, i requires 0 <= i < |data| => NumberAt(data[i], key).value))
    else None
  }

  /**
   * `calculate_statistics`: the error record on empty data; otherwise the count, sum,
   * mean, smallest and largest value and their difference, or `None` where reading or
   * adding a value raises.
   */
  function CalculateStatistics(data: seq<Row>, key: string): (r: Option<Statistics>)
    ensures data == [] ==> r == Some(StatsError("No data available"))
    ensures data != [] ==> (r.Some? <==> AllNumeric(data, key))
  {
    if data == [] then Some(StatsError("No data available"))
    else
      match Column(data, key)
      case None => None
      case Some(values) =>
        var lo, hi, total := MinOf(values), MaxOf(values), Sum(values);
        Some(Summary(|values|, Mean(values), lo, hi, total, hi - lo))
  }

  /** The summary of numeric data is built from its column of values. */
  lemma SummaryOfColumn(data: seq<Row>, key: string)
    requires data != [] && AllNumeric(data, key)
    ensures var values := Column(data, key).value;
              values != [] &&
              CalculateStatistics(data, key) ==
                Some(Summary(|values|, Mean(values), MinOf(values), MaxOf(values), Sum(values),
                             MaxOf(values) - MinOf(values)))
  {
  }

  /** The summary of numeric data counts the rows, and its mean times the count is its sum. */
  lemma SummaryMean(data: seq<Row>, key: string)
    requires data != [] && AllNumeric(data, key)
    ensures CalculateStatistics(data, key).Some? && CalculateStatistics(data, key).value.Summary?
    ensures var s := CalculateStatistics(data, key).value;
              s.count == |data| && s.mean * s.count as real == s.sum
  {
    var values := Column(data, key).value;
    SummaryOfColumn(data, key);
    MeanTimesCount(values);
  }

  /** The mean of the summary lies between its extremes, whose difference is the range. */
  lemma SummaryMeanBetween(data: seq<Row>, key: string)
    requires data != [] && AllNumeric(data, key)
    ensures CalculateStatistics(data, key).Some? && CalculateStatistics(data, key).value.Summary?
    ensures var s := CalculateStatistics(data, key).value;
              s.min <= s.mean <= s.max && s.range == s.max - s.min
  {
    var values := Column(data, key).value;
    SummaryOfColumn(data, key);
    MeanBetween(values);
  }

  /** The extremes of the summary bound every row's value and are taken by some row. */
  lemma SummaryExtremes(data: seq<Row>, key: string)
    requires data != [] && AllNumeric(data, key)
    ensures CalculateStatistics(data, key).Some? && CalculateStatistics(data, key).value.Summary?
    ensures var s := CalculateStatistics(data, key).value;
              (forall i :: 0 <= i < |data| ==> s.min <= NumberAt(data[i], key).value <= s.max) &&
              (exists i :: 0 <= i < |data| && NumberAt(data[i], key) == Some(s.min)) &&
              (exists i :: 0 <= i < |data| && NumberAt(data[i], key) == Some(s.max))
  {
    var values := Column(data, key).value;
    SummaryOfColumn(data, key);
    assert forall i :: 0 <= i < |data| ==> values[i] in values;
    var j :| 0 <= j < |values| && values[j] == MinOf(values);
    var k :| 0 <= k < |values| && values[k] == MaxOf(values);
  }
}
