/** Metric business logic over the metric store
    (src/application/services/MetricService.ts). */
module MetricService {
  import opened Basics
  import opened Seqs
  import opened OrderedKeys
  import opened MetricEntity
  import opened MetricRepository

  /** The two flags `checkMetricThresholds` returns. */
  datatype ThresholdStatus = ThresholdStatus(hasCrossedWarning: bool, hasCrossedCritical: bool)

  /** The threshold check: no flag for a missing metric or one without
      thresholds, otherwise a flag per limit that the current value has
      reached. */
  function ThresholdsCrossed(m: Option<Metric>): (s: ThresholdStatus)
    ensures m.None? || m.value.thresholds.None? ==> s == ThresholdStatus(false, false)
    ensures m.Some? && m.value.thresholds.Some? ==>
              (s.hasCrossedWarning <==> m.value.currentValue >= m.value.thresholds.value.warning) &&
              (s.hasCrossedCritical <==> m.value.currentValue >= m.value.thresholds.value.critical)
  {
    if m.None? || m.value.thresholds.None? then ThresholdStatus(false, false)
    else
      var t := m.value.thresholds.value;
      ThresholdStatus(m.value.currentValue >= t.warning, m.value.currentValue >= t.critical)
  }

  /** With the warning limit at or below the critical one, reaching the
      critical limit means the warning limit is reached as well. */
  lemma CriticalImpliesWarning(m: Metric)
    requires m.thresholds.Some? && m.thresholds.value.warning <= m.thresholds.value.critical
    ensures ThresholdsCrossed(Some(m)).hasCrossedCritical ==> ThresholdsCrossed(Some(m)).hasCrossedWarning
  {
  }

  /** The optional extras of `createMetric`: a description only when it is a
      non-empty string, thresholds only when given. */
  function WithExtras(m: Metric, description: Option<string>,
                      thresholds: Option<MetricThreshold>): (r: Metric)
    ensures description.Some? && description.value != "" ==>
              r.metadata == m.metadata.(description := description.value)
    ensures description.None? || description.value == "" ==> r.metadata == m.metadata
    ensures thresholds.Some? ==> r.thresholds == thresholds
    ensures thresholds.None? ==> r.thresholds == m.thresholds
    ensures r == m.(metadata := r.metadata, thresholds := r.thresholds)
  {
    var withDescription :=
      if description.Some? && description.value != ""
      then m.(metadata := m.metadata.(description := description.value)) else m;
    if thresholds.Some? then withDescription.(thresholds := thresholds) else withDescription
  }

  /** A freshly created metric carries exactly one history entry, the
      initial value, and is never flagged when created without thresholds. */
  lemma CreatedMetricShape(id: string, now: Time, key: string, name: string,
                           metricType: MetricType, period: MetricPeriod, initialValue: real,
                           description: Option<string>, thresholds: Option<MetricThreshold>)
    ensures var m := WithExtras(CreateMetric(id, now, key, name, metricType, period, initialValue),
                                description, thresholds);
            m.history == [MetricValue(initialValue, now)] && HistorySeeded(m) &&
            m.previousValue.None? && m.trend.None? &&
            (thresholds.None? ==> ThresholdsCrossed(Some(m)) == ThresholdStatus(false, false))
  {
  }

  class MetricService {
    const repo: InMemoryMetricRepository

    constructor (repo: InMemoryMetricRepository)
      ensures this.repo == repo
    {
      this.repo := repo;
    }

    method GetMetricById(id: string) returns (r: Option<Metric>)
      requires repo.Valid()
      ensures r == Lookup(repo.metrics, id)
    {
      r := repo.GetById(id);
    }

    method GetAllMetrics(filter: Option<MetricFilter>) returns (r: seq<Metric>)
      requires repo.Valid()
      ensures r == Filter(repo.Stored(), Matching(filter))
    {
      r := repo.GetAll(filter);
    }

    /** `createMetric`: builds the metric with the entity factory, attaches
        the extras and saves it; `id` and `now` stand for the fresh UUID and
        the clock reading. */
    method CreateMetric(id: string, now: Time, key: string, name: string,
                        metricType: MetricType, period: MetricPeriod, initialValue: real,
                        description: Option<string>, thresholds: Option<MetricThreshold>)
      returns (r: Metric)
      requires repo.Valid()
      modifies repo
      ensures repo.Valid()
      ensures r == WithExtras(MetricEntity.CreateMetric(id, now, key, name, metricType, period, initialValue),
                              description, thresholds)
      ensures repo.metrics == old(repo.metrics)[id := r]
      ensures repo.order == InsertKey(old(repo.order), id)
    {
      var metric := MetricEntity.CreateMetric(id, now, key, name, metricType, period, initialValue);
      if description.Some? && description.value != "" {
        metric := metric.(metadata := metric.metadata.(description := description.value));
      }
      if thresholds.Some? {
        metric := metric.(thresholds := thresholds);
      }
      r := repo.Save(metric);
    }

    /** `updateMetricValue`: the service computes the change and trend
        itself, by the same rule as the store, and saves the result. */
    method UpdateMetricValue(id: string, newValue: real, now: Time) returns (r: Result<Metric>)
      requires repo.Valid()
      modifies repo
      ensures repo.Valid() && repo.order == old(repo.order)
      ensures id !in old(repo.metrics) ==>
                r == Err(MetricNotFound(id)) && repo.metrics == old(repo.metrics)
      ensures id in old(repo.metrics) ==>
                r == Ok(RecordValue(old(repo.metrics)[id], newValue, now)) &&
                repo.metrics == old(repo.metrics)[id := r.value]
    {
      var found := repo.GetById(id);
      if found.None? {
        return Err(MetricNotFound(id));
      }
      var metric := found.value;
      var previousValue := metric.currentValue;
      var changePercentage := if previousValue != 0.0
        then (newValue - previousValue) / Abs(previousValue) * 100.0 else 0.0;
      var trend := Stable;
      if changePercentage > 1.0 {
        trend := Up;
      } else if changePercentage < -1.0 {
        trend := Down;
      }
      metric := metric.(previousValue := Some(previousValue),
                        currentValue := newValue,
                        trend := Some(trend),
                        changePercentage := Some(changePercentage),
                        history := metric.history + [MetricValue(newValue, now)],
                        metadata := metric.metadata.(lastUpdated := Some(now)));
      var saved := repo.Save(metric);
      r := Ok(saved);
    }

    method DeleteMetric(id: string) returns (existed: bool)
      requires repo.Valid()
      modifies repo
      ensures repo.Valid()
      ensures existed == (id in old(repo.metrics))
      ensures repo.metrics == old(repo.metrics) - {id}
      ensures repo.order == RemoveKey(old(repo.order), id)
    {
      existed := repo.Delete(id);
    }

    /** `getMetricHistoryForTimeRange`: both bounds are given. */
    method GetMetricHistoryForTimeRange(id: string, fromDate: Time, toDate: Time)
      returns (r: seq<MetricValue>)
      ensures id !in repo.metrics ==> r == []
      ensures id in repo.metrics ==>
                r == Filter(repo.metrics[id].history, EntryWithin(Some(fromDate), Some(toDate)))
    {
      r := repo.GetMetricHistory(id, Some(fromDate), Some(toDate));
    }

    method CheckMetricThresholds(id: string) returns (r: ThresholdStatus)
      requires repo.Valid()
      ensures r == ThresholdsCrossed(Lookup(repo.metrics, id))
    {
      var metric := repo.GetById(id);
      if metric.None? || metric.value.thresholds.None? {
        return ThresholdStatus(false, false);
      }
      var t := metric.value.thresholds.value;
      r := ThresholdStatus(metric.value.currentValue >= t.warning,
                           metric.value.currentValue >= t.critical);
    }
  }
}
