/** The Metric record of the entities layer and its factory
    (src/domain/entities/Metric.ts). */
module MetricEntity {
  import opened Basics

  datatype MetricType = Count | Percentage | Duration | Monetary
  datatype MetricPeriod = Hourly | Daily | Weekly | Monthly | Quarterly | Yearly
  datatype TrendDirection = Up | Down | Stable

  /** One entry of a metric's history. */
  datatype MetricValue = MetricValue(value: real, timestamp: Time)

  datatype MetricThreshold = MetricThreshold(warning: real, critical: real)

  datatype MetricMetadata = MetricMetadata(
    name: string,
    description: string,
    unit: Option<string>,
    owner: Option<string>,
    dataSource: Option<string>,
    lastUpdated: Option<Time>)

  datatype Metric = Metric(
    id: string,
    key: string,
    metricType: MetricType,
    period: MetricPeriod,
    currentValue: real,
    previousValue: Option<real>,
    trend: Option<TrendDirection>,
    changePercentage: Option<real>,
    history: seq<MetricValue>,
    thresholds: Option<MetricThreshold>,
    metadata: MetricMetadata,
    targetValue: Option<real>)

  /** The history is never empty and its last entry records the current value. */
  predicate HistorySeeded(m: Metric)
  {
    |m.history| > 0 && m.history[|m.history| - 1].value == m.currentValue
  }

  /** `createMetric`. The fresh `crypto.randomUUID()` is `id` and the clock
      reading `new Date()` (taken twice in the source) is `now`. */
  function CreateMetric(id: string, now: Time, key: string, name: string,
                        metricType: MetricType, period: MetricPeriod,
                        currentValue: real): (m: Metric)
    ensures m.id == id && m.key == key && m.metricType == metricType
    ensures m.period == period && m.currentValue == currentValue
    ensures m.history == [MetricValue(currentValue, now)] && HistorySeeded(m)
    ensures m.metadata.name == name && m.metadata.description == ""
    ensures m.metadata.lastUpdated == Some(now)
    ensures m.metadata.unit.None? && m.metadata.owner.None? && m.metadata.dataSource.None?
    ensures m.previousValue.None? && m.trend.None? && m.changePercentage.None?
    ensures m.thresholds.None? && m.targetValue.None?
  {
    Metric(id, key, metricType, period, currentValue, None, None, None,
           [MetricValue(currentValue, now)], None,
           MetricMetadata(name, "", None, None, None, Some(now)), None)
  }
}
