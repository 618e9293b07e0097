/** The in-memory metric store
    (src/infrastructure/repositories/InMemoryMetricRepository.ts). */
module MetricRepository {
  import opened Basics
  import opened Seqs
  import opened OrderedKeys
  import opened MetricEntity

  /** The optional criteria of `getAll`; `tags` is accepted but never applied. */
  datatype MetricFilter = MetricFilter(
    types: Option<seq<MetricType>>,
    periods: Option<seq<MetricPeriod>>,
    search: Option<string>,
    tags: Option<seq<string>>,
    fromDate: Option<Time>,
    toDate: Option<Time>)

  /** An absent or empty type list places no restriction. */
  predicate TypeAllowed(f: MetricFilter, m: Metric)
  {
    f.types.None? || |f.types.value| == 0 || m.metricType in f.types.value
  }

  predicate PeriodAllowed(f: MetricFilter, m: Metric)
  {
    f.periods.None? || |f.periods.value| == 0 || m.period in f.periods.value
  }

  /** The search text occurs, ignoring case, in the key, name or description. */
  predicate SearchMatches(f: MetricFilter, m: Metric)
  {
    f.search.None? || f.search.value == "" ||
    IncludesIgnoringCase(m.key, f.search.value) ||
    IncludesIgnoringCase(m.metadata.name, f.search.value) ||
    IncludesIgnoringCase(m.metadata.description, f.search.value)
  }

  /** `from <= t <= to`, each bound checked only when present. */
  predicate InWindow(t: Time, from: Option<Time>, to: Option<Time>)
  {
    (from.None? || from.value <= t) && (to.None? || t <= to.value)
  }

  /** A metric without `lastUpdated` always passes the date criteria. */
  predicate UpdatedWithin(f: MetricFilter, m: Metric)
  {
    m.metadata.lastUpdated.None? || InWindow(m.metadata.lastUpdated.value, f.fromDate, f.toDate)
  }

  /** What `getAll(filter)` keeps: everything without a filter, otherwise the
      metrics meeting all four criteria. */
  predicate Matches(filter: Option<MetricFilter>, m: Metric)
  {
    filter.Some? ==>
      TypeAllowed(filter.value, m) && PeriodAllowed(filter.value, m) &&
      SearchMatches(filter.value, m) && UpdatedWithin(filter.value, m)
  }

  function Matching(filter: Option<MetricFilter>): Metric -> bool
  {
    m => Matches(filter, m)
  }

  function ByType(f: MetricFilter): Metric -> bool { m => TypeAllowed(f, m) }
  function ByPeriod(f: MetricFilter): Metric -> bool { m => PeriodAllowed(f, m) }
  function BySearch(f: MetricFilter): Metric -> bool { m => SearchMatches(f, m) }
  function ByDate(f: MetricFilter): Metric -> bool { m => UpdatedWithin(f, m) }

  /** History entries inside the inclusive window. */
  function EntryWithin(from: Option<Time>, to: Option<Time>): MetricValue -> bool
  {
    (e: MetricValue) => InWindow(e.timestamp, from, to)
  }

  /** The ids that have a stored metric. */
  function StoredIn(store: map<string, Metric>): string -> bool
  {
    (k: string) => k in store
  }

  /** A stored id before a positional lookup extends it by its metric. */
  lemma LookupCons(k: string, known: seq<string>, found: seq<Metric>, store: map<string, Metric>)
    requires k in store
    requires |found| == |known| && forall i :: 0 <= i < |found| ==> known[i] in store && found[i] == store[known[i]]
    ensures var r, ks := [store[k]] + found, [k] + known;
            |r| == |ks| && forall i :: 0 <= i < |r| ==> ks[i] in store && r[i] == store[ks[i]]
  {
    var r, ks := [store[k]] + found, [k] + known;
    forall i | 0 < i < |r|
      ensures ks[i] in store && r[i] == store[ks[i]]
    {
      assert r[i] == found[i - 1] && ks[i] == known[i - 1];
    }
  }

  /** `getByIds`: the stored metrics for `ids`, in the order of `ids`,
      unknown ids being skipped. */
  function LookupAll(ids: seq<string>, store: map<string, Metric>): (r: seq<Metric>)
    ensures var known := Filter(ids, StoredIn(store));
            |r| == |known| && forall i :: 0 <= i < |r| ==> known[i] in store && r[i] == store[known[i]]
    ensures |r| <= |ids|
  {
    if ids == [] then []
    else
      var rest := LookupAll(ids[1..], store);
      FilterCons(ids[0], ids[1..], StoredIn(store));
      assert [ids[0]] + ids[1..] == ids;
      if ids[0] in store then
        LookupCons(ids[0], Filter(ids[1..], StoredIn(store)), rest, store);
        [store[ids[0]]] + rest
      else
        rest
  }

  /** Only stored metrics are returned. */
  lemma LookupAllStored(ids: seq<string>, store: map<string, Metric>)
    ensures forall x :: x in LookupAll(ids, store) ==> x in store.Values
  {
    var r := LookupAll(ids, store);
    var known := Filter(ids, StoredIn(store));
    forall x | x in r
      ensures x in store.Values
    {
      var i :| 0 <= i < |r| && r[i] == x;
      assert known[i] in store && x == store[known[i]];
    }
  }

  /** Every known id is represented. */
  lemma LookupAllFound(ids: seq<string>, store: map<string, Metric>)
    ensures forall k :: k in ids && k in store ==> store[k] in LookupAll(ids, store)
  {
    var r := LookupAll(ids, store);
    var known := Filter(ids, StoredIn(store));
    FilterMembers(ids, StoredIn(store));
    forall k | k in ids && k in store
      ensures store[k] in r
    {
      assert k in known;
      var i :| 0 <= i < |known| && known[i] == k;
      assert r[i] == store[k];
    }
  }

  /** Only stored metrics are returned and every known id is represented;
      with every id known the result follows `ids` position by position, and
      with none known it is empty. */
  lemma LookupAllMembers(ids: seq<string>, store: map<string, Metric>)
    ensures var r := LookupAll(ids, store);
            (forall x :: x in r ==> x in store.Values) &&
            (forall k :: k in ids && k in store ==> store[k] in r) &&
            ((forall i :: 0 <= i < |ids| ==> ids[i] in store) ==>
               |r| == |ids| && forall i :: 0 <= i < |ids| ==> r[i] == store[ids[i]]) &&
            ((forall i :: 0 <= i < |ids| ==> ids[i] !in store) ==> r == [])
  {
    LookupAllStored(ids, store);
    LookupAllFound(ids, store);
    var known := Filter(ids, StoredIn(store));
    if forall i :: 0 <= i < |ids| ==> ids[i] in store {
      FilterAll(ids, StoredIn(store));
      assert known == ids;
    } else if forall i :: 0 <= i < |ids| ==> ids[i] !in store {
      forall k | k in ids
        ensures !StoredIn(store)(k)
      {
        var i :| 0 <= i < |ids| && ids[i] == k;
      }
      FilterNone(ids, StoredIn(store));
    }
  }

  /** Known and unknown ids mixed: the found metrics in the order of `ids`. */
  lemma MixedIdsScenario(a: Metric, b: Metric)
    ensures LookupAll(["a", "x", "b"], map["a" := a, "b" := b]) == [a, b]
  {
    var store := map["a" := a, "b" := b];
    var ids := ["a", "x", "b"];
    assert ids[1..] == ["x", "b"] && ids[1..][1..] == ["b"];
    assert Filter(ids, StoredIn(store)) == ["a", "b"];
  }

  /** The change rule of `updateMetricValue`: relative to the magnitude of the
      old value, in percent, and 0 when the old value is 0. */
  function ChangePercentage(previous: real, newValue: real): (c: real)
    ensures previous == 0.0 ==> c == 0.0
    ensures previous != 0.0 ==> c * Abs(previous) == (newValue - previous) * 100.0
    ensures c > 0.0 <==> previous != 0.0 && newValue > previous
    ensures c < 0.0 <==> previous != 0.0 && newValue < previous
  {
    if previous != 0.0 then (newValue - previous) / Abs(previous) * 100.0 else 0.0
  }

  /** Changes within one percent either way count as stable. */
  function TrendOf(c: real): (t: TrendDirection)
    ensures t == Stable <==> -1.0 <= c <= 1.0
    ensures t == Up <==> c > 1.0
    ensures t == Down <==> c < -1.0
  {
    if Abs(c) > 1.0 then (if c > 0.0 then Up else Down) else Stable
  }

  /** The previous value, change and trend were computed together from the
      previous and current values. */
  predicate TrendDerived(m: Metric)
  {
    m.previousValue.Some? &&
    m.changePercentage == Some(ChangePercentage(m.previousValue.value, m.currentValue)) &&
    m.trend == Some(TrendOf(m.changePercentage.value))
  }

  /** The metric `updateMetricValue` stores. */
  function RecordValue(m: Metric, newValue: real, now: Time): (r: Metric)
    ensures r.id == m.id && r.key == m.key && r.metricType == m.metricType
    ensures r.period == m.period && r.thresholds == m.thresholds && r.targetValue == m.targetValue
    ensures r.previousValue == Some(m.currentValue) && r.currentValue == newValue
    ensures |r.history| == |m.history| + 1 && r.history[..|m.history|] == m.history
    ensures r.history[|m.history|] == MetricValue(newValue, now)
    ensures r.metadata == m.metadata.(lastUpdated := Some(now))
    ensures TrendDerived(r) && HistorySeeded(r)
    ensures m.currentValue == 0.0 ==> r.changePercentage == Some(0.0) && r.trend == Some(Stable)
  {
    var c := ChangePercentage(m.currentValue, newValue);
    m.(previousValue := Some(m.currentValue),
       currentValue := newValue,
       history := m.history + [MetricValue(newValue, now)],
       metadata := m.metadata.(lastUpdated := Some(now)),
       trend := Some(TrendOf(c)),
       changePercentage := Some(c))
  }

  /** A metric going from 0.05 to 0.11 has risen by 120 percent. */
  lemma ErrorRateScenario()
    ensures ChangePercentage(0.05, 0.11) == 120.0
    ensures TrendOf(ChangePercentage(0.05, 0.11)) == Up
  {
  }

  /** The `tags` criterion is ignored. */
  lemma TagsIgnored(f: MetricFilter, tags: Option<seq<string>>, m: Metric)
    ensures Matches(Some(f), m) == Matches(Some(f.(tags := tags)), m)
  {
  }

  class InMemoryMetricRepository {
    /** The keys of the `Map` in insertion order. */
    var order: seq<string>
    var metrics: map<string, Metric>

    ghost predicate Valid()
      reads this
    {
      KeysInOrder(order, metrics) && forall k :: k in metrics ==> metrics[k].id == k
    }

    constructor ()
      ensures Valid() && order == [] && metrics == map[]
    {
      order := [];
      metrics := map[];
    }

    /** `Array.from(this.metrics.values())`. */
    function Stored(): (r: seq<Metric>)
      reads this
      requires Valid()
      ensures |r| == |order|
    {
      ValuesInOrder(order, metrics)
    }

    /** `getById`: the stored metric, whose own id is the one asked for. */
    method GetById(id: string) returns (r: Option<Metric>)
      requires Valid()
      ensures r.Some? <==> id in metrics
      ensures r.Some? ==> r.value == metrics[id] && r.value.id == id
    {
      r := Lookup(metrics, id);
    }

    method GetByIds(ids: seq<string>) returns (r: seq<Metric>)
      ensures r == LookupAll(ids, metrics)
    {
      r := LookupAll(ids, metrics);
    }

    /** `getAll`: the filter steps are applied one after another. */
    method GetAll(filter: Option<MetricFilter>) returns (r: seq<Metric>)
      requires Valid()
      ensures r == Filter(Stored(), Matching(filter))
    {
      var all := ValuesInOrder(order, metrics);
      var ms := all;
      if filter.Some? {
        var f := filter.value;
        if f.types.Some? && |f.types.value| > 0 {
          ms := Filter(ms, ByType(f));
        } else {
          FilterAll(all, ByType(f));
        }
        assert ms == Filter(all, ByType(f));
        ghost var s1 := ms;
        if f.periods.Some? && |f.periods.value| > 0 {
          ms := Filter(ms, ByPeriod(f));
        } else {
          FilterAll(s1, ByPeriod(f));
        }
        assert ms == Filter(s1, ByPeriod(f));
        ghost var s2 := ms;
        if f.search.Some? && f.search.value != "" {
          ms := Filter(ms, BySearch(f));
        } else {
          FilterAll(s2, BySearch(f));
        }
        assert ms == Filter(s2, BySearch(f));
        ghost var s3 := ms;
        if f.fromDate.Some? || f.toDate.Some? {
          ms := Filter(ms, ByDate(f));
        } else {
          FilterAll(s3, ByDate(f));
        }
        assert ms == Filter(s3, ByDate(f));
        ghost var tp := (m: Metric) => TypeAllowed(f, m) && PeriodAllowed(f, m);
        ghost var tps := (m: Metric) => tp(m) && SearchMatches(f, m);
        FilterCompose(all, ByType(f), ByPeriod(f), tp);
        FilterCompose(all, tp, BySearch(f), tps);
        FilterCompose(all, tps, ByDate(f), Matching(filter));
      } else {
        FilterAll(all, Matching(filter));
      }
      r := ms;
    }

    /** `save`: the metric is stored under its own id. */
    method Save(m: Metric) returns (r: Metric)
      requires Valid()
      modifies this
      ensures Valid()
      ensures metrics == old(metrics)[m.id := m]
      ensures order == InsertKey(old(order), m.id)
      ensures r == m
    {
      metrics := metrics[m.id := m];
      order := InsertKey(order, m.id);
      r := m;
    }

    /** `delete`: reports whether a metric was removed. */
    method Delete(id: string) returns (existed: bool)
      requires Valid()
      modifies this
      ensures Valid()
      ensures existed == (id in old(metrics))
      ensures metrics == old(metrics) - {id}
      ensures order == RemoveKey(old(order), id)
    {
      existed := id in metrics;
      metrics := metrics - {id};
      order := RemoveKey(order, id);
    }

    /** `getMetricHistory`: `[]` for an unknown id, otherwise the history
        entries inside the inclusive window, in their order. */
    method GetMetricHistory(id: string, fromDate: Option<Time>, toDate: Option<Time>)
      returns (r: seq<MetricValue>)
      ensures id !in metrics ==> r == []
      ensures id in metrics ==> r == Filter(metrics[id].history, EntryWithin(fromDate, toDate))
    {
      if id !in metrics {
        return [];
      }
      var history := metrics[id].history;
      if fromDate.Some? || toDate.Some? {
        history := Filter(history, EntryWithin(fromDate, toDate));
      } else {
        FilterAll(history, EntryWithin(fromDate, toDate));
      }
      r := history;
    }

    /** `updateMetricValue`: fails on an unknown id; otherwise records the new
        value and replaces that one metric. */
    method UpdateMetricValue(id: string, newValue: real, now: Time) returns (r: Result<Metric>)
      requires Valid()
      modifies this
      ensures Valid() && order == old(order)
      ensures id !in old(metrics) ==> r == Err(MetricNotFound(id)) && metrics == old(metrics)
      ensures id in old(metrics) ==>
                r == Ok(RecordValue(old(metrics)[id], newValue, now)) &&
                metrics == old(metrics)[id := r.value]
    {
      if id !in metrics {
        return Err(MetricNotFound(id));
      }
      var updated := RecordValue(metrics[id], newValue, now);
      metrics := metrics[id := updated];
      r := Ok(updated);
    }
  }
}
