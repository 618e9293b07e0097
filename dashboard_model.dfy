/** The immutable Dashboard of the models layer (src/domain/models/Dashboard.ts),
    holding models-layer metrics. */
module DashboardModel {
  import opened Basics
  import opened Seqs
  import opened OrderedKeys
  import MM = MetricModel

  datatype SectionType = Overview | Metrics | Charts | Custom

  /** Layout position of a section (JavaScript numbers). */
  datatype Position = Position(x: real, y: real, width: real, height: real)

  datatype DashboardSection = DashboardSection(
    id: string,
    name: string,
    sectionType: SectionType,
    metrics: seq<string>,   // ids of the metrics shown in the section
    position: Position,
    metadata: Option<MM.Record>)

  datatype Dashboard = Dashboard(
    id: string,
    title: string,
    description: string,
    sections: seq<DashboardSection>,
    metrics: seq<MM.Metric>,
    owner: string,
    lastUpdated: Time,
    metadata: Option<MM.Record>)

  /** `sections.find(s => s.id === id)`: the first section with that id. */
  function FindSection(sections: seq<DashboardSection>, id: string): (r: Option<DashboardSection>)
    ensures r.None? <==> forall i :: 0 <= i < |sections| ==> sections[i].id != id
    ensures r.Some? ==> exists i :: 0 <= i < |sections| && sections[i] == r.value && r.value.id == id &&
                                    forall j :: 0 <= j < i ==> sections[j].id != id
  {
    if sections == [] then None
    else if sections[0].id == id then Some(sections[0])
    else
      var r := FindSection(sections[1..], id);
      assert forall i :: 1 <= i < |sections| ==> sections[i] == sections[1..][i - 1];
      r
  }

  function InSection(s: DashboardSection): MM.Metric -> bool
  {
    (m: MM.Metric) => m.id in s.metrics
  }

  /** `getMetricsBySection`: `[]` for an unknown section, otherwise the
      dashboard's metrics listed by the first section with that id, in the
      dashboard's own order. */
  function GetMetricsBySection(d: Dashboard, sectionId: string): (r: seq<MM.Metric>)
    ensures FindSection(d.sections, sectionId).None? ==> r == []
    ensures forall m :: m in r <==>
              FindSection(d.sections, sectionId).Some? && m in d.metrics &&
              m.id in FindSection(d.sections, sectionId).value.metrics
    ensures IsSubsequence(r, d.metrics)
    ensures forall m :: multiset(r)[m] ==
              if FindSection(d.sections, sectionId).Some? && m.id in FindSection(d.sections, sectionId).value.metrics
              then multiset(d.metrics)[m] else 0
    ensures FindSection(d.sections, sectionId).Some? ==>
              r == Filter(d.metrics, InSection(FindSection(d.sections, sectionId).value))
  {
    var section := FindSection(d.sections, sectionId);
    if section.None? then []
    else
      FilterMembers(d.metrics, InSection(section.value));
      FilterIsSubsequence(d.metrics, InSection(section.value));
      FilterCount(d.metrics, InSection(section.value));
      Filter(d.metrics, InSection(section.value))
  }

  /** The ids of a metric list, position by position. */
  function Ids(ms: seq<MM.Metric>): (r: seq<string>)
    ensures |r| == |ms| && forall i :: 0 <= i < |ms| ==> r[i] == ms[i].id
  {
    seq(|ms|, i requires 0 <= i < |ms| => ms[i].id)
  }

  /** The ids of `ids` that are not in `known`, each once, in the order of
      their first occurrence. */
  function FreshIds(known: seq<string>, ids: seq<string>): seq<string>
    decreases |ids|
  {
    if ids == [] then []
    else
      var f := FreshIds(known, ids[..|ids| - 1]);
      var x := ids[|ids| - 1];
      if x in known || x in f then f else f + [x]
  }

  lemma {:induction false} FreshIdsMembers(known: seq<string>, ids: seq<string>)
    ensures forall x :: x in FreshIds(known, ids) <==> x in ids && x !in known
    ensures Distinct(FreshIds(known, ids))
    decreases |ids|
  {
    if ids != [] {
      var init := ids[..|ids| - 1];
      FreshIdsMembers(known, init);
      assert ids == init + [ids[|ids| - 1]];
    }
  }

  function NotIn(known: seq<string>): string -> bool
  {
    (x: string) => x !in known
  }

  /** Without repeated ids, the fresh ids are those not known, in order. */
  lemma {:induction false} FreshIdsOfDistinct(known: seq<string>, ids: seq<string>)
    requires Distinct(ids)
    ensures FreshIds(known, ids) == Filter(ids, NotIn(known))
    decreases |ids|
  {
    if ids != [] {
      var init := ids[..|ids| - 1];
      var x := ids[|ids| - 1];
      assert ids == init + [x];
      assert Distinct(init);
      assert x !in init by {
        assert forall j :: 0 <= j < |init| ==> init[j] == ids[j];
      }
      FreshIdsOfDistinct(known, init);
      FilterAppend(init, [x], NotIn(known));
      FilterCons(x, [], NotIn(known));
      assert [x] + [] == [x];
      FilterMembership(init, NotIn(known), x);
    }
  }

  /** The last metric of `ms` with id `k`. */
  function LastWithId(ms: seq<MM.Metric>, k: string): (m: MM.Metric)
    requires k in Ids(ms)
    ensures m in ms && m.id == k
    decreases |ms|
  {
    var last := ms[|ms| - 1];
    if last.id == k then last
    else
      var init := ms[..|ms| - 1];
      assert Ids(ms) == Ids(init) + [last.id];
      LastWithId(init, k)
  }

  /** No later metric carries the id of the one `LastWithId` picks. */
  lemma {:induction false} LastWithIdIsLast(ms: seq<MM.Metric>, k: string) returns (i: nat)
    requires k in Ids(ms)
    ensures i < |ms| && ms[i] == LastWithId(ms, k)
    ensures forall j :: i < j < |ms| ==> ms[j].id != k
    decreases |ms|
  {
    var last := ms[|ms| - 1];
    if last.id == k {
      i := |ms| - 1;
    } else {
      var init := ms[..|ms| - 1];
      assert Ids(ms) == Ids(init) + [last.id];
      i := LastWithIdIsLast(init, k);
      assert ms[i] == init[i];
    }
  }

  /** With distinct ids, the last metric with an id is the only one. */
  lemma LastWithIdDistinct(ms: seq<MM.Metric>, i: nat)
    requires i < |ms| && Distinct(Ids(ms))
    ensures LastWithId(ms, ms[i].id) == ms[i]
  {
    var k := ms[i].id;
    var j := LastWithIdIsLast(ms, k);
    assert !(j < i);
    assert Ids(ms)[i] == k && Ids(ms)[j] == k;
    assert !(i < j);
  }

  /** The state of a `Map<string, Metric>`: its keys in insertion order and
      its entries. */
  datatype IdMap = IdMap(keys: seq<string>, entries: map<string, MM.Metric>)

  const EmptyIdMap := IdMap([], map[])

  /** Keys and entries agree, and each metric is stored under its own id. */
  predicate WellFormed(st: IdMap)
  {
    KeysInOrder(st.keys, st.entries) && forall k :: k in st.entries ==> st.entries[k].id == k
  }

  /** `map.set(m.id, m)`. */
  function Put(st: IdMap, m: MM.Metric): (r: IdMap)
    ensures WellFormed(st) ==> WellFormed(r)
  {
    IdMap(InsertKey(st.keys, m.id), st.entries[m.id := m])
  }

  /** The map after setting each metric of `ms` in turn. */
  function PutAll(st: IdMap, ms: seq<MM.Metric>): IdMap
    decreases |ms|
  {
    if ms == [] then st else Put(PutAll(st, ms[..|ms| - 1]), ms[|ms| - 1])
  }

  /** Setting metrics in turn adds their new ids in order of first
      occurrence and leaves each id with the last metric that carries it. */
  lemma {:induction false} PutAllFacts(st: IdMap, ms: seq<MM.Metric>)
    ensures var r := PutAll(st, ms);
            (WellFormed(st) ==> WellFormed(r)) &&
            r.keys == st.keys + FreshIds(st.keys, Ids(ms)) &&
            (forall k :: k in r.entries <==> k in st.entries || k in Ids(ms)) &&
            (forall k :: k in r.entries && k !in Ids(ms) ==> r.entries[k] == st.entries[k]) &&
            (forall k :: k in Ids(ms) ==> k in r.entries && r.entries[k] == LastWithId(ms, k))
    decreases |ms|
  {
    if ms != [] {
      var init := ms[..|ms| - 1];
      var m := ms[|ms| - 1];
      assert Ids(ms) == Ids(init) + [m.id];
      assert Ids(ms)[..|ms| - 1] == Ids(init);
      PutAllFacts(st, init);
      FreshIdsMembers(st.keys, Ids(init));
    }
  }

  /** The stored metrics of a map, in key order. */
  function Values(st: IdMap): (r: seq<MM.Metric>)
    requires WellFormed(st)
    ensures Ids(r) == st.keys
    ensures forall i :: 0 <= i < |r| ==> r[i] == st.entries[st.keys[i]]
  {
    var r := ValuesInOrder(st.keys, st.entries);
    assert forall i :: 0 <= i < |r| ==> r[i].id == st.keys[i];
    r
  }

  /** The map after setting the existing metrics, then the updates. */
  function Merged(existing: seq<MM.Metric>, updates: seq<MM.Metric>): IdMap
  {
    PutAll(PutAll(EmptyIdMap, existing), updates)
  }

  /** The merged map holds the fresh existing ids, then the fresh update ids;
      an id takes its last update, or else its last existing metric. */
  lemma MergedFacts(existing: seq<MM.Metric>, updates: seq<MM.Metric>)
    ensures var st := Merged(existing, updates);
            WellFormed(st) &&
            st.keys == FreshIds([], Ids(existing)) + FreshIds(FreshIds([], Ids(existing)), Ids(updates)) &&
            (forall k :: k in st.entries <==> k in Ids(existing) || k in Ids(updates)) &&
            (forall k :: k in Ids(updates) ==> k in st.entries && st.entries[k] == LastWithId(updates, k)) &&
            (forall k :: k in Ids(existing) && k !in Ids(updates) ==>
               k in st.entries && st.entries[k] == LastWithId(existing, k))
  {
    assert WellFormed(EmptyIdMap);
    var first := PutAll(EmptyIdMap, existing);
    PutAllFacts(EmptyIdMap, existing);
    PutAllFacts(first, updates);
    var known := FreshIds([], Ids(existing));
    assert first.keys == [] + known;
    assert [] + known == known;
  }

  /** Every key of the merged map has an entry. */
  lemma MergedKeysStored(existing: seq<MM.Metric>, updates: seq<MM.Metric>)
    ensures var st := Merged(existing, updates);
            forall k :: k in st.keys ==> k in st.entries
  {
    MergedFacts(existing, updates);
  }

  /** Each value of a well-formed map sits under its own id. */
  lemma ValuesById(st: IdMap)
    requires WellFormed(st)
    ensures var r := Values(st);
            Distinct(Ids(r)) &&
            forall i :: 0 <= i < |r| ==> r[i].id in st.entries && r[i] == st.entries[r[i].id]
  {
    var r := Values(st);
    forall i | 0 <= i < |r|
      ensures r[i].id == st.keys[i]
    {
      assert Ids(r)[i] == r[i].id;
    }
  }

  /** The merged map's values: each id once, in key order, each with the
      last metric carrying it. */
  lemma MergedValues(existing: seq<MM.Metric>, updates: seq<MM.Metric>)
    ensures WellFormed(Merged(existing, updates))
    ensures var r := Values(Merged(existing, updates));
            Distinct(Ids(r)) &&
            Ids(r) == FreshIds([], Ids(existing)) + FreshIds(FreshIds([], Ids(existing)), Ids(updates)) &&
            (forall i :: 0 <= i < |r| && r[i].id in Ids(updates) ==> r[i] == LastWithId(updates, r[i].id)) &&
            (forall i :: 0 <= i < |r| && r[i].id !in Ids(updates) ==>
               r[i].id in Ids(existing) && r[i] == LastWithId(existing, r[i].id))
  {
    MergedFacts(existing, updates);
    ValuesById(Merged(existing, updates));
  }

  /** Every merged metric is an existing one or an update. */
  lemma MergedValuesFrom(existing: seq<MM.Metric>, updates: seq<MM.Metric>)
    ensures WellFormed(Merged(existing, updates))
    ensures forall x :: x in Values(Merged(existing, updates)) ==> x in existing || x in updates
  {
    MergedValues(existing, updates);
    var r := Values(Merged(existing, updates));
    forall x | x in r
      ensures x in existing || x in updates
    {
      var i :| 0 <= i < |r| && r[i] == x;
      if x.id !in Ids(updates) {
        assert x == LastWithId(existing, x.id);
      }
    }
  }

  /** `withUpdatedMetrics`' metric list: the existing metrics keyed by id,
      then every update set over them. Each id appears once: first the ids
      of `existing`, then the new ids of `updates` in argument order; each
      metric is the last update with its id, or else the last existing one. */
  function MergeById(existing: seq<MM.Metric>, updates: seq<MM.Metric>): (r: seq<MM.Metric>)
    ensures Distinct(Ids(r))
    ensures Ids(r) == FreshIds([], Ids(existing)) + FreshIds(FreshIds([], Ids(existing)), Ids(updates))
    ensures forall i :: 0 <= i < |r| && r[i].id in Ids(updates) ==> r[i] == LastWithId(updates, r[i].id)
    ensures forall i :: 0 <= i < |r| && r[i].id !in Ids(updates) ==>
              r[i].id in Ids(existing) && r[i] == LastWithId(existing, r[i].id)
    ensures forall x :: x in r ==> x in existing || x in updates
  {
    MergedValues(existing, updates);
    MergedValuesFrom(existing, updates);
    Values(Merged(existing, updates))
  }

  /** With distinct existing ids, each existing metric keeps its position:
      replaced by the last update with its id, or else unchanged. */
  lemma MergeKeepsPositions(existing: seq<MM.Metric>, updates: seq<MM.Metric>, i: nat)
    requires Distinct(Ids(existing)) && i < |existing|
    ensures var r := MergeById(existing, updates);
            i < |r| && r[i].id == existing[i].id &&
            (existing[i].id in Ids(updates) ==> r[i] == LastWithId(updates, existing[i].id)) &&
            (existing[i].id !in Ids(updates) ==> r[i] == existing[i])
  {
    var r := MergeById(existing, updates);
    FreshIdsOfDistinct([], Ids(existing));
    FilterAll(Ids(existing), NotIn([]));
    assert Ids(r)[i] == Ids(existing)[i];
    LastWithIdDistinct(existing, i);
  }

  /** With distinct ids on both sides, the merged ids are the existing ids
      followed by the update ids not already present, in argument order. */
  lemma MergeAppendsInOrder(existing: seq<MM.Metric>, updates: seq<MM.Metric>)
    requires Distinct(Ids(existing)) && Distinct(Ids(updates))
    ensures Ids(MergeById(existing, updates)) == Ids(existing) + Filter(Ids(updates), NotIn(Ids(existing)))
  {
    FreshIdsOfDistinct([], Ids(existing));
    FilterAll(Ids(existing), NotIn([]));
    FreshIdsOfDistinct(Ids(existing), Ids(updates));
  }

  /** Every update ends up in the merged list, unless a later update carries
      the same id. */
  lemma MergeContainsUpdates(existing: seq<MM.Metric>, updates: seq<MM.Metric>, j: nat)
    requires j < |updates| && forall l :: j < l < |updates| ==> updates[l].id != updates[j].id
    ensures updates[j] in MergeById(existing, updates)
  {
    var r := MergeById(existing, updates);
    var k := updates[j].id;
    assert Ids(updates)[j] == k;
    FreshIdsMembers([], Ids(existing));
    FreshIdsMembers(FreshIds([], Ids(existing)), Ids(updates));
    assert k in Ids(r);
    var i :| 0 <= i < |r| && Ids(r)[i] == k;
    var p := LastWithIdIsLast(updates, k);
    assert p == j;
  }

  /** Setting one more metric is one more `Put`. */
  lemma PutAllSnoc(st: IdMap, ms: seq<MM.Metric>, m: MM.Metric)
    ensures PutAll(st, ms + [m]) == Put(PutAll(st, ms), m)
  {
    assert (ms + [m])[..|ms|] == ms;
  }

  /** `map.set(m.id, m)` for each metric of `ms` in turn, on a map given by
      its key order and entries. */
  method SetEach(keys0: seq<string>, entries0: map<string, MM.Metric>, ms: seq<MM.Metric>)
    returns (keys: seq<string>, entries: map<string, MM.Metric>)
    ensures IdMap(keys, entries) == PutAll(IdMap(keys0, entries0), ms)
  {
    keys, entries := keys0, entries0;
    for i := 0 to |ms|
      invariant IdMap(keys, entries) == PutAll(IdMap(keys0, entries0), ms[..i])
    {
      assert ms[..i + 1] == ms[..i] + [ms[i]];
      PutAllSnoc(IdMap(keys0, entries0), ms[..i], ms[i]);
      keys := InsertKey(keys, ms[i].id);
      entries := entries[ms[i].id := ms[i]];
    }
    assert ms[..|ms|] == ms;
  }

  /** `withUpdatedMetrics`: the map is filled from the existing metrics, then
      each update is set in turn; `now` is the fresh `lastUpdated`. */
  method WithUpdatedMetrics(d: Dashboard, updatedMetrics: seq<MM.Metric>, now: Time) returns (r: Dashboard)
    ensures r == d.(metrics := MergeById(d.metrics, updatedMetrics), lastUpdated := now)
  {
    var keys, entries := SetEach([], map[], d.metrics);
    keys, entries := SetEach(keys, entries, updatedMetrics);
    assert IdMap(keys, entries) == Merged(d.metrics, updatedMetrics);
    MergedKeysStored(d.metrics, updatedMetrics);
    var newMetrics := ValuesInOrder(keys, entries);
    r := Dashboard(d.id, d.title, d.description, d.sections, newMetrics, d.owner, now, d.metadata);
  }

  /** Updating with no metrics keeps a list without repeated ids as it is. */
  lemma MergeNothing(existing: seq<MM.Metric>)
    requires Distinct(Ids(existing))
    ensures MergeById(existing, []) == existing
  {
    var r := MergeById(existing, []);
    FreshIdsOfDistinct([], Ids(existing));
    FilterAll(Ids(existing), NotIn([]));
    assert Ids(r) == Ids(existing) + [];
    assert |r| == |existing|;
    forall i | 0 <= i < |existing| ensures r[i] == existing[i] {
      MergeKeepsPositions(existing, [], i);
    }
  }

  /** `withUpdatedSections`: the sections are replaced wholesale and
      `lastUpdated` refreshed; the metric list is shared unchanged. */
  function WithUpdatedSections(d: Dashboard, sections: seq<DashboardSection>, now: Time): (r: Dashboard)
    ensures r.sections == sections && r.metrics == d.metrics && r.lastUpdated == now
    ensures r == d.(sections := r.sections, lastUpdated := now)
  {
    d.(sections := sections, lastUpdated := now)
  }

  /** Raw dashboard input, as `fromRawData` reads it. */
  datatype RawDashboard = RawDashboard(
    id: string,
    title: string,
    description: Option<string>,
    sections: Option<seq<DashboardSection>>,
    owner: Option<string>,
    lastUpdated: Option<Time>,
    metadata: Option<MM.Record>)

  /** `fromRawData`: description `''`, sections `[]` and owner `'Unknown'`
      when missing or empty; a missing or zero `lastUpdated` is the current
      time `now`. */
  function FromRawData(data: RawDashboard, metrics: seq<MM.Metric>, now: Time): (d: Dashboard)
    ensures d.id == data.id && d.title == data.title && d.metrics == metrics
    ensures d.description == MM.OrString(data.description, "")
    ensures data.sections.None? ==> d.sections == []
    ensures data.sections.Some? ==> d.sections == data.sections.value
    ensures d.owner == MM.OrString(data.owner, "Unknown") && d.owner != ""
    ensures data.lastUpdated.Some? && data.lastUpdated.value != 0 ==> d.lastUpdated == data.lastUpdated.value
    ensures data.lastUpdated.None? || data.lastUpdated.value == 0 ==> d.lastUpdated == now
    ensures d.metadata == data.metadata
  {
    Dashboard(data.id, data.title, MM.OrString(data.description, ""),
              if data.sections.Some? then data.sections.value else [],
              metrics, MM.OrString(data.owner, "Unknown"),
              if data.lastUpdated.Some? && data.lastUpdated.value != 0 then data.lastUpdated.value else now,
              data.metadata)
  }

  /** Raw input carrying every property of `d`. */
  function ToRaw(d: Dashboard): RawDashboard
  {
    RawDashboard(d.id, d.title, Some(d.description), Some(d.sections), Some(d.owner),
                 Some(d.lastUpdated), d.metadata)
  }

  /** A dashboard read back from its own raw form is unchanged, unless its
      owner is empty (it becomes `'Unknown'`) or its time is 0 (it becomes
      the current time). */
  lemma RawRoundTrip(d: Dashboard, now: Time)
    ensures d.owner != "" && d.lastUpdated != 0 ==> FromRawData(ToRaw(d), d.metrics, now) == d
    ensures d.owner == "" ==> FromRawData(ToRaw(d), d.metrics, now).owner == "Unknown"
    ensures d.lastUpdated == 0 ==> FromRawData(ToRaw(d), d.metrics, now).lastUpdated == now
  {
  }
}
