/** The immutable Metric of the models layer (src/domain/models/Metric.ts).
    It is separate from the entities-layer Metric and follows its own
    change and trend rules. */
module MetricModel {
  import opened Basics

  datatype MetricType = Count | Percentage | Duration | Monetary | Rate | Custom
  datatype MetricTrend = Up | Down | Neutral

  datatype MetricAggregate = MetricAggregate(current: real, previous: real, change: real, trend: MetricTrend)

  datatype TimeSeriesPoint = TimeSeriesPoint(timestamp: Time, value: real)

  /** Dimensions and metadata (`Record<string, …>`) as string maps. */
  type Record = map<string, string>

  datatype Metric = Metric(
    id: string,
    name: string,
    description: string,
    metricType: MetricType,
    value: MetricAggregate,
    unit: string,
    timeSeries: seq<TimeSeriesPoint>,
    dimensions: Option<Record>,
    metadata: Option<Record>)

  /** `deriveTrend`: the sign of the change, with no dead zone. */
  function DeriveTrend(change: real): (t: MetricTrend)
    ensures t == Up <==> change > 0.0
    ensures t == Down <==> change < 0.0
    ensures t == Neutral <==> change == 0.0
  {
    if change > 0.0 then Up else if change < 0.0 then Down else Neutral
  }

  /** The `changePercentage` getter: the stored change over the signed
      previous value, in percent; from a previous value of 0 it is 100 for a
      positive current value and 0 otherwise. */
  function ChangePercentage(m: Metric): (c: real)
    ensures m.value.previous == 0.0 && m.value.current > 0.0 ==> c == 100.0
    ensures m.value.previous == 0.0 && m.value.current <= 0.0 ==> c == 0.0
    ensures m.value.previous != 0.0 ==> c * m.value.previous == m.value.change * 100.0
  {
    if m.value.previous == 0.0 then (if m.value.current > 0.0 then 100.0 else 0.0)
    else m.value.change / m.value.previous * 100.0
  }

  /** The stored change and trend agree with the stored values. */
  predicate Consistent(a: MetricAggregate)
  {
    a.change == a.current - a.previous && a.trend == DeriveTrend(a.change)
  }

  /** `withUpdatedValues`: a new metric whose previous value is the old
      current one; everything but the aggregate and the series is kept, and
      the receiver is a value, so it cannot change. */
  function WithUpdatedValues(m: Metric, newValue: real, newTimeSeries: seq<TimeSeriesPoint>): (r: Metric)
    ensures r.value.previous == m.value.current && r.value.current == newValue
    ensures Consistent(r.value)
    ensures r == m.(value := r.value, timeSeries := newTimeSeries)
  {
    var previous := m.value.current;
    var change := newValue - previous;
    m.(value := MetricAggregate(newValue, previous, change, DeriveTrend(change)),
       timeSeries := newTimeSeries)
  }

  /** After an update from a positive value, the percentage has the sign of
      the trend. */
  lemma UpdatedPercentageFollowsTrend(m: Metric, newValue: real, ts: seq<TimeSeriesPoint>)
    requires m.value.current > 0.0
    ensures var r := WithUpdatedValues(m, newValue, ts);
            (r.value.trend == Up <==> ChangePercentage(r) > 0.0) &&
            (r.value.trend == Down <==> ChangePercentage(r) < 0.0)
  {
    var r := WithUpdatedValues(m, newValue, ts);
    var c := ChangePercentage(r);
    assert c * m.value.current == (newValue - m.value.current) * 100.0;
    if c > 0.0 {
      assert newValue - m.value.current > 0.0;
    } else if c < 0.0 {
      assert newValue - m.value.current < 0.0;
    } else {
      assert newValue - m.value.current == 0.0;
    }
  }

  /** After an update from a negative value, the percentage has the sign
      opposite to the trend: the percentage divides by the negative previous
      value as it stands, not by its magnitude. */
  lemma UpdatedPercentageOpposesTrend(m: Metric, newValue: real, ts: seq<TimeSeriesPoint>)
    requires m.value.current < 0.0
    ensures var r := WithUpdatedValues(m, newValue, ts);
            (r.value.trend == Up <==> ChangePercentage(r) < 0.0) &&
            (r.value.trend == Down <==> ChangePercentage(r) > 0.0)
  {
    var r := WithUpdatedValues(m, newValue, ts);
    var c := ChangePercentage(r);
    assert c * m.value.current == (newValue - m.value.current) * 100.0;
    if c > 0.0 {
      assert newValue - m.value.current < 0.0;
    } else if c < 0.0 {
      assert newValue - m.value.current > 0.0;
    } else {
      assert newValue - m.value.current == 0.0;
    }
  }

  /** From -10 to -5 the trend is UP and the percentage is -50. */
  lemma NegativePreviousScenario(m: Metric)
    requires m.value.current == -10.0
    ensures var r := WithUpdatedValues(m, -5.0, m.timeSeries);
            r.value.trend == Up && ChangePercentage(r) == -50.0
  {
  }

  /** The aggregate of raw input; `None` is a missing property. */
  datatype RawAggregate = RawAggregate(
    current: Option<real>,
    previous: Option<real>,
    change: Option<real>,
    trend: Option<MetricTrend>)

  /** Raw metric input, as `fromRawData` reads it. */
  datatype RawMetric = RawMetric(
    id: string,
    name: string,
    description: Option<string>,
    metricType: Option<MetricType>,
    value: Option<RawAggregate>,
    unit: Option<string>,
    timeSeries: Option<seq<TimeSeriesPoint>>,
    dimensions: Option<Record>,
    metadata: Option<Record>)

  /** `x || fallback` on an optional number: missing and 0 both fall back. */
  function OrNumber(x: Option<real>, fallback: real): (r: real)
    ensures x.Some? && x.value != 0.0 ==> r == x.value
    ensures x.None? || x.value == 0.0 ==> r == fallback
  {
    if x.Some? && x.value != 0.0 then x.value else fallback
  }

  /** `s || fallback` on an optional string: missing and empty both fall back. */
  function OrString(s: Option<string>, fallback: string): (r: string)
    ensures s.Some? && s.value != "" ==> r == s.value
    ensures s.None? || s.value == "" ==> r == fallback
  {
    if s.Some? && s.value != "" then s.value else fallback
  }

  /** `fromRawData`: missing numbers are 0, a missing or zero change is
      `current - previous`, a missing trend is the sign of the change, and
      description, type and unit default to `''`, COUNT and `''`. */
  function FromRawData(data: RawMetric): (m: Metric)
    ensures m.id == data.id && m.name == data.name
    ensures m.description == OrString(data.description, "")
    ensures m.unit == OrString(data.unit, "")
    ensures data.metricType.None? ==> m.metricType == Count
    ensures data.metricType.Some? ==> m.metricType == data.metricType.value
    ensures data.timeSeries.None? ==> m.timeSeries == []
    ensures data.timeSeries.Some? ==> m.timeSeries == data.timeSeries.value
    ensures data.value.None? ==> m.value == MetricAggregate(0.0, 0.0, 0.0, Neutral)
    ensures data.value.Some? ==>
              m.value.current == OrNumber(data.value.value.current, 0.0) &&
              m.value.previous == OrNumber(data.value.value.previous, 0.0)
    ensures data.value.Some? && data.value.value.change.Some? && data.value.value.change.value != 0.0 ==>
              m.value.change == data.value.value.change.value
    ensures data.value.Some? && data.value.value.trend.Some? ==> m.value.trend == data.value.value.trend.value
    ensures data.value.Some? && (data.value.value.change.None? || data.value.value.change == Some(0.0)) ==>
              m.value.change == m.value.current - m.value.previous
    ensures data.value.Some? && data.value.value.trend.None? ==> m.value.trend == DeriveTrend(m.value.change)
    ensures m.dimensions == data.dimensions && m.metadata == data.metadata
  {
    var raw := if data.value.Some? then data.value.value else RawAggregate(None, None, None, None);
    var current := OrNumber(raw.current, 0.0);
    var previous := OrNumber(raw.previous, 0.0);
    var change := OrNumber(raw.change, current - previous);
    var trend := if raw.trend.Some? then raw.trend.value else DeriveTrend(change);
    Metric(data.id, data.name, OrString(data.description, ""),
           if data.metricType.Some? then data.metricType.value else Count,
           MetricAggregate(current, previous, change, trend),
           OrString(data.unit, ""),
           if data.timeSeries.Some? then data.timeSeries.value else [],
           data.dimensions, data.metadata)
  }

  /** Raw input carrying every property of `m`. */
  function ToRaw(m: Metric): RawMetric
  {
    RawMetric(m.id, m.name, Some(m.description), Some(m.metricType),
              Some(RawAggregate(Some(m.value.current), Some(m.value.previous),
                                Some(m.value.change), Some(m.value.trend))),
              Some(m.unit), Some(m.timeSeries), m.dimensions, m.metadata)
  }

  /** A metric read back from its own raw form is unchanged, unless it
      stores a change of 0 beside different values: `fromRawData` cannot
      tell a zero change from a missing one. */
  lemma RawRoundTrip(m: Metric)
    requires m.value.change != 0.0 || m.value.current == m.value.previous
    ensures FromRawData(ToRaw(m)) == m
  {
  }

  /** Every consistent metric survives the round trip. */
  lemma ConsistentRoundTrip(m: Metric)
    requires Consistent(m.value)
    ensures FromRawData(ToRaw(m)) == m
  {
    RawRoundTrip(m);
  }

  /** The exception: a stored change of 0 is replaced by the difference. */
  lemma ZeroChangeIsRecomputed()
    ensures var m := Metric("m", "m", "", Count, MetricAggregate(5.0, 3.0, 0.0, Neutral), "", [], None, None);
            FromRawData(ToRaw(m)).value.change == 2.0
  {
  }
}
