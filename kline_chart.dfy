/** The data preparation of the life K-line chart: the candle body of each
    year, the years where a new luck period (大运) begins, the highest point
    and which points carry the peak label. Chart values are modelled as
    exact reals; `NaN` is not among them. */
module KLineChart {
  import opened Wrappers

  /** One year of the chart as the chart receives it. */
  datatype KLinePoint = KLinePoint(
    age: real, year: real, ganZhi: string, daYun: Option<string>,
    open: real, close: real, high: real, low: real,
    score: real, reason: string)

  /** A point as drawn: the point itself, the candle body `bodyRange` as
      its two ends, and `labelPoint`. */
  datatype ChartRow = ChartRow(point: KLinePoint, bodyLow: real, bodyHigh: real, labelPoint: real)

  function Min(a: real, b: real): real { if a <= b then a else b }

  function Max(a: real, b: real): real { if a >= b then a else b }

  /** A year "goes up" (green candle, 吉 in the tooltip) when it closes at
      or above its opening. */
  predicate IsUp(p: KLinePoint) {
    p.close >= p.open
  }

  /** The `transformedData` entry of one point. */
  function Transform(d: KLinePoint): (r: ChartRow)
    ensures r.point == d && r.labelPoint == d.high
    ensures r.bodyLow <= r.bodyHigh
    ensures multiset{r.bodyLow, r.bodyHigh} == multiset{d.open, d.close}
  {
    ChartRow(d, Min(d.open, d.close), Max(d.open, d.close), d.high)
  }

  /** An up year's body runs from its opening to its close, a down year's
      from its close to its opening. */
  lemma BodyFollowsTrend(d: KLinePoint)
    ensures IsUp(d) <==> (Transform(d).bodyLow == d.open && Transform(d).bodyHigh == d.close)
    ensures !IsUp(d) ==> Transform(d).bodyLow == d.close && Transform(d).bodyHigh == d.open
  {
  }

  /** `transformedData`: one row per point, in order. */
  function TransformedData(data: seq<KLinePoint>): (r: seq<ChartRow>)
    ensures |r| == |data|
    ensures forall i :: 0 <= i < |data| ==> r[i].point == data[i] && r[i].bodyLow <= r[i].bodyHigh
  {
    seq(|data|, i requires 0 <= i < |data| => Transform(data[i]))
  }

  /** The filter's test at index `i`: the first point, or one whose luck
      period differs from the previous point's. */
  predicate IsChange(data: seq<KLinePoint>, i: nat)
    requires i < |data|
  {
    i == 0 || data[i].daYun != data[i - 1].daYun
  }

  /** The points from index `from` on that pass the filter, in order. */
  function ChangesFrom(data: seq<KLinePoint>, from: nat): (r: seq<KLinePoint>)
    requires from <= |data|
    ensures |r| <= |data| - from
    decreases |data| - from
  {
    if from == |data| then []
    else (if IsChange(data, from) then [data[from]] else []) + ChangesFrom(data, from + 1)
  }

  /** `daYunChanges`. */
  function DaYunChanges(data: seq<KLinePoint>): (r: seq<KLinePoint>)
    ensures |r| <= |data|
    ensures |data| > 0 ==> |r| > 0 && r[0] == data[0]
  {
    ChangesFrom(data, 0)
  }

  /** The indices from `from` on that pass the filter, in order: the
      positions of the points `ChangesFrom` keeps. */
  function ChangeIndices(data: seq<KLinePoint>, from: nat): (r: seq<nat>)
    requires from <= |data|
    decreases |data| - from
  {
    if from == |data| then []
    else (if IsChange(data, from) then [from] else []) + ChangeIndices(data, from + 1)
  }

  /** The kept points are exactly the points at the change indices; the
      indices ascend, each is a change, and every change from `from` on is
      among them. */
  lemma {:induction false} ChangesAreChangeIndices(data: seq<KLinePoint>, from: nat)
    requires from <= |data|
    ensures |ChangeIndices(data, from)| == |ChangesFrom(data, from)|
    ensures forall k :: 0 <= k < |ChangeIndices(data, from)| ==>
              from <= ChangeIndices(data, from)[k] < |data| &&
              IsChange(data, ChangeIndices(data, from)[k]) &&
              ChangesFrom(data, from)[k] == data[ChangeIndices(data, from)[k]]
    ensures forall k, l :: 0 <= k < l < |ChangeIndices(data, from)| ==>
              ChangeIndices(data, from)[k] < ChangeIndices(data, from)[l]
    ensures forall i :: from <= i < |data| && IsChange(data, i) ==> i in ChangeIndices(data, from)
    decreases |data| - from
  {
    if from < |data| {
      ChangesAreChangeIndices(data, from + 1);
    }
  }

  /** After a point with no change the next kept point still differs from
      the point before: the luck period stays the same up to the next
      change. */
  lemma {:induction false} FirstChangeDiffers(data: seq<KLinePoint>, from: nat)
    requires 0 < from <= |data| && ChangesFrom(data, from) != []
    ensures ChangesFrom(data, from)[0].daYun != data[from - 1].daYun
    decreases |data| - from
  {
    if !IsChange(data, from) {
      FirstChangeDiffers(data, from + 1);
    }
  }

  /** Consecutive kept points belong to different luck periods. */
  lemma {:induction false} ChangesFromAlternate(data: seq<KLinePoint>, from: nat)
    requires from <= |data|
    ensures forall k :: 0 <= k < |ChangesFrom(data, from)| - 1 ==>
              ChangesFrom(data, from)[k].daYun != ChangesFrom(data, from)[k + 1].daYun
    decreases |data| - from
  {
    if from < |data| {
      ChangesFromAlternate(data, from + 1);
      var rest := ChangesFrom(data, from + 1);
      if IsChange(data, from) && rest != [] {
        FirstChangeDiffers(data, from + 1);
        assert ChangesFrom(data, from) == [data[from]] + rest;
      }
    }
  }

  /** `daYunChanges` holds the first point and each point whose luck
      period differs from the previous one, in order, and any two adjacent
      entries name different luck periods. */
  lemma DaYunChangesMeaning(data: seq<KLinePoint>)
    ensures |ChangeIndices(data, 0)| == |DaYunChanges(data)|
    ensures forall k :: 0 <= k < |DaYunChanges(data)| ==>
              ChangeIndices(data, 0)[k] < |data| && DaYunChanges(data)[k] == data[ChangeIndices(data, 0)[k]]
    ensures forall k, l :: 0 <= k < l < |ChangeIndices(data, 0)| ==> ChangeIndices(data, 0)[k] < ChangeIndices(data, 0)[l]
    ensures forall i :: 0 <= i < |data| ==> (i in ChangeIndices(data, 0) <==> IsChange(data, i))
    ensures forall k :: 0 <= k < |DaYunChanges(data)| - 1 ==> DaYunChanges(data)[k].daYun != DaYunChanges(data)[k + 1].daYun
  {
    ChangesAreChangeIndices(data, 0);
    ChangesFromAlternate(data, 0);
  }

  /** The highest `high` of a non-empty chart. */
  function HighestOf(data: seq<KLinePoint>): (m: real)
    requires |data| > 0
    ensures forall i :: 0 <= i < |data| ==> data[i].high <= m
    ensures exists i :: 0 <= i < |data| && data[i].high == m
  {
    if |data| == 1 then data[0].high
    else
      var rest := HighestOf(data[1..]);
      assert forall i :: 1 <= i < |data| ==> data[i] == data[1..][i - 1];
      Max(data[0].high, rest)
  }

  /** The chart's scale when there is no data. */
  const EMPTY_MAX_HIGH: real := 100.0

  /** `maxHigh`. */
  function MaxHigh(data: seq<KLinePoint>): (m: real)
    ensures |data| == 0 ==> m == EMPTY_MAX_HIGH
    ensures forall i :: 0 <= i < |data| ==> data[i].high <= m
    ensures |data| > 0 ==> exists i :: 0 <= i < |data| && data[i].high == m
  {
    if |data| > 0 then HighestOf(data) else EMPTY_MAX_HIGH
  }

  /** `PeakLabel` draws its mark only when the labelled `high` equals
      `maxHigh`. */
  predicate ShowsPeak(value: real, maxHigh: real) {
    value == maxHigh
  }

  /** The peak mark appears on some point of every non-empty chart, and
      only on points no other point is higher than. */
  lemma PeakLabelPlacement(data: seq<KLinePoint>)
    requires |data| > 0
    ensures exists i :: 0 <= i < |data| && ShowsPeak(data[i].high, MaxHigh(data))
    ensures forall i, j :: 0 <= i < |data| && 0 <= j < |data| && ShowsPeak(data[i].high, MaxHigh(data)) ==>
              data[j].high <= data[i].high
  {
    var m := MaxHigh(data);
    var i :| 0 <= i < |data| && data[i].high == m;
    assert ShowsPeak(data[i].high, m);
  }
}
