/** Dashboard business logic over the dashboard store, with metric ids
    checked against the metric service
    (src/application/services/DashboardService.ts). */
module DashboardService {
  import opened Basics
  import opened Seqs
  import opened OrderedKeys
  import opened DashboardEntity
  import opened DashboardRepository
  import MetricEntity
  import MS = MetricService

  /** `Partial<Dashboard>`: `None` leaves a field as it is. `updatedAt` is
      left out, being overwritten by the update anyway. */
  datatype DashboardUpdates = DashboardUpdates(
    id: Option<string>,
    name: Option<string>,
    description: Option<string>,
    widgets: Option<seq<Widget>>,
    owner: Option<string>,
    isDefault: Option<bool>,
    tags: Option<seq<string>>,
    createdAt: Option<Time>)

  /** `Partial<Widget>`. */
  datatype WidgetUpdates = WidgetUpdates(
    id: Option<string>,
    title: Option<string>,
    widgetType: Option<WidgetType>,
    size: Option<WidgetSize>,
    metricIds: Option<seq<string>>,
    position: Option<Position>,
    config: Option<Config>)

  function Pick<T>(update: Option<T>, current: T): T
  {
    if update.Some? then update.value else current
  }

  /** `{ ...dashboard, ...updates }`: a given field overrides, every other
      field is kept. */
  function ApplyDashboardUpdates(d: Dashboard, u: DashboardUpdates): (r: Dashboard)
    ensures u.id.Some? ==> r.id == u.id.value
    ensures u.id.None? ==> r.id == d.id
    ensures u.name.Some? ==> r.name == u.name.value
    ensures u.name.None? ==> r.name == d.name
    ensures u.description.Some? ==> r.description == u.description.value
    ensures u.description.None? ==> r.description == d.description
    ensures u.widgets.Some? ==> r.widgets == u.widgets.value
    ensures u.widgets.None? ==> r.widgets == d.widgets
    ensures u.owner.Some? ==> r.owner == u.owner.value
    ensures u.owner.None? ==> r.owner == d.owner
    ensures u.isDefault.Some? ==> r.isDefault == u.isDefault
    ensures u.isDefault.None? ==> r.isDefault == d.isDefault
    ensures u.tags.Some? ==> r.tags == u.tags
    ensures u.tags.None? ==> r.tags == d.tags
    ensures u.createdAt.Some? ==> r.createdAt == u.createdAt.value
    ensures u.createdAt.None? ==> r.createdAt == d.createdAt
    ensures r.updatedAt == d.updatedAt
  {
    Dashboard(Pick(u.id, d.id), Pick(u.name, d.name), Pick(u.description, d.description),
              Pick(u.widgets, d.widgets), Pick(u.owner, d.owner),
              if u.isDefault.Some? then u.isDefault else d.isDefault,
              if u.tags.Some? then u.tags else d.tags,
              Pick(u.createdAt, d.createdAt), d.updatedAt)
  }

  const NoDashboardUpdates := DashboardUpdates(None, None, None, None, None, None, None, None)

  /** An empty update changes nothing, and applying an update twice is
      applying it once. */
  lemma DashboardUpdatesLaws(d: Dashboard, u: DashboardUpdates)
    ensures ApplyDashboardUpdates(d, NoDashboardUpdates) == d
    ensures ApplyDashboardUpdates(ApplyDashboardUpdates(d, u), u) == ApplyDashboardUpdates(d, u)
  {
  }

  /** `{ ...widget, ...updates }`. */
  function MergeWidget(w: Widget, u: WidgetUpdates): (r: Widget)
    ensures u.id.Some? ==> r.id == u.id.value
    ensures u.id.None? ==> r.id == w.id
    ensures u.title.Some? ==> r.title == u.title.value
    ensures u.title.None? ==> r.title == w.title
    ensures u.widgetType.Some? ==> r.widgetType == u.widgetType.value
    ensures u.widgetType.None? ==> r.widgetType == w.widgetType
    ensures u.size.Some? ==> r.size == u.size.value
    ensures u.size.None? ==> r.size == w.size
    ensures u.metricIds.Some? ==> r.metricIds == u.metricIds.value
    ensures u.metricIds.None? ==> r.metricIds == w.metricIds
    ensures u.position.Some? ==> r.position == u.position.value
    ensures u.position.None? ==> r.position == w.position
    ensures u.config.Some? ==> r.config == u.config
    ensures u.config.None? ==> r.config == w.config
  {
    Widget(Pick(u.id, w.id), Pick(u.title, w.title), Pick(u.widgetType, w.widgetType),
           Pick(u.size, w.size), Pick(u.metricIds, w.metricIds), Pick(u.position, w.position),
           if u.config.Some? then u.config else w.config)
  }

  const NoWidgetUpdates := WidgetUpdates(None, None, None, None, None, None, None)

  lemma WidgetUpdatesLaws(w: Widget, u: WidgetUpdates)
    ensures MergeWidget(w, NoWidgetUpdates) == w
    ensures MergeWidget(MergeWidget(w, u), u) == MergeWidget(w, u)
  {
  }

  /** An update that leaves the widget id alone is written back to the
      position it was read from. */
  lemma {:induction false} MergedWidgetKeepsPlace(ws: seq<Widget>, widgetId: string, u: WidgetUpdates)
    requires FindWidgetIndex(ws, widgetId) >= 0 && u.id.None?
    ensures FindWidgetIndex(ws, MergeWidget(ws[FindWidgetIndex(ws, widgetId)], u).id) ==
            FindWidgetIndex(ws, widgetId)
  {
    var idx := FindWidgetIndex(ws, widgetId);
    assert MergeWidget(ws[idx], u).id == ws[idx].id == widgetId;
  }

  /** Of `ids`, checked in order, the first one that is not a known metric. */
  function FirstUnknown(ids: seq<string>, known: map<string, MetricEntity.Metric>): (r: Option<string>)
    ensures r.None? <==> forall i :: 0 <= i < |ids| ==> ids[i] in known
    ensures r.Some? ==> r.value in ids && r.value !in known
  {
    if ids == [] then None
    else if ids[0] !in known then Some(ids[0])
    else
      assert forall i :: 1 <= i < |ids| ==> ids[i] == ids[1..][i - 1];
      FirstUnknown(ids[1..], known)
  }

  /** The first unknown id is the one at the first position whose id is
      unknown. */
  lemma {:induction false} FirstUnknownAt(ids: seq<string>, known: map<string, MetricEntity.Metric>, i: nat)
    requires i < |ids| && ids[i] !in known
    requires forall j :: 0 <= j < i ==> ids[j] in known
    ensures FirstUnknown(ids, known) == Some(ids[i])
    decreases i
  {
    if i > 0 {
      FirstUnknownAt(ids[1..], known, i - 1);
    }
  }

  class DashboardService {
    const repo: InMemoryDashboardRepository
    const metricService: MS.MetricService

    constructor (repo: InMemoryDashboardRepository, metricService: MS.MetricService)
      ensures this.repo == repo && this.metricService == metricService
    {
      this.repo := repo;
      this.metricService := metricService;
    }

    method GetDashboardById(id: string) returns (r: Option<Dashboard>)
      requires repo.Valid()
      ensures r == Lookup(repo.dashboards, id)
    {
      r := repo.GetById(id);
    }

    method GetAllDashboards(filter: Option<DashboardFilter>) returns (r: seq<Dashboard>)
      requires repo.Valid()
      ensures r == Filter(repo.Stored(), Selecting(filter))
    {
      r := repo.GetAll(filter);
    }

    /** `createDashboard`: stores and returns a dashboard without widgets. */
    method CreateDashboard(id: string, now: Time, name: string, description: string, owner: string)
      returns (r: Dashboard)
      requires repo.Valid()
      modifies repo
      ensures repo.Valid() && repo.userDefaults == old(repo.userDefaults)
      ensures r == DashboardEntity.CreateDashboard(id, now, name, description, owner)
      ensures repo.dashboards == old(repo.dashboards)[id := r]
      ensures repo.order == InsertKey(old(repo.order), id)
    {
      var d := DashboardEntity.CreateDashboard(id, now, name, description, owner);
      r := repo.Save(d, now);
    }

    /** `updateDashboard`: fails on an unknown id; otherwise saves the merged
        dashboard, under the id the merge yields. */
    method UpdateDashboard(id: string, updates: DashboardUpdates, now: Time) returns (r: Result<Dashboard>)
      requires repo.Valid()
      modifies repo
      ensures repo.Valid() && repo.userDefaults == old(repo.userDefaults)
      ensures id !in old(repo.dashboards) ==>
                r == Err(DashboardNotFound(id)) && repo.dashboards == old(repo.dashboards) &&
                repo.order == old(repo.order)
      ensures id in old(repo.dashboards) ==>
                r == Ok(ApplyDashboardUpdates(old(repo.dashboards)[id], updates).(updatedAt := now)) &&
                repo.dashboards == old(repo.dashboards)[r.value.id := r.value] &&
                repo.order == InsertKey(old(repo.order), r.value.id)
    {
      var found := repo.GetById(id);
      if found.None? {
        return Err(DashboardNotFound(id));
      }
      var merged := ApplyDashboardUpdates(found.value, updates).(updatedAt := now);
      var saved := repo.Save(merged, now);
      r := Ok(saved);
    }

    method DeleteDashboard(id: string) returns (existed: bool)
      requires repo.Valid()
      modifies repo
      ensures repo.Valid()
      ensures existed == (id in old(repo.dashboards))
      ensures repo.dashboards == old(repo.dashboards) - {id}
      ensures repo.order == RemoveKey(old(repo.order), id)
      ensures repo.userDefaults == DefaultsWithout(old(repo.userDefaults), id)
    {
      existed := repo.Delete(id);
    }

    /** `addWidget`: the dashboard must exist and every metric id must be
        known, checked in order; only then is the new widget appended, so a
        failure leaves the store as it was. `widgetId` is the fresh UUID. */
    method AddWidget(dashboardId: string, widgetId: string, now: Time, title: string,
                     widgetType: WidgetType, size: WidgetSize, metricIds: seq<string>,
                     position: Position)
      returns (r: Result<Dashboard>)
      requires repo.Valid() && metricService.repo.Valid()
      modifies repo
      ensures repo.Valid() && repo.order == old(repo.order) && repo.userDefaults == old(repo.userDefaults)
      ensures dashboardId !in old(repo.dashboards) ==>
                r == Err(DashboardNotFound(dashboardId)) && repo.dashboards == old(repo.dashboards)
      ensures dashboardId in old(repo.dashboards) &&
              FirstUnknown(metricIds, metricService.repo.metrics).Some? ==>
                r == Err(MetricNotFound(FirstUnknown(metricIds, metricService.repo.metrics).value)) &&
                repo.dashboards == old(repo.dashboards)
      ensures dashboardId in old(repo.dashboards) &&
              FirstUnknown(metricIds, metricService.repo.metrics).None? ==>
                r == Ok(WithWidgetAppended(old(repo.dashboards)[dashboardId],
                                           CreateWidget(widgetId, title, widgetType, size, metricIds, position),
                                           now)) &&
                repo.dashboards == old(repo.dashboards)[dashboardId := r.value]
    {
      var dashboard := repo.GetById(dashboardId);
      if dashboard.None? {
        return Err(DashboardNotFound(dashboardId));
      }
      for i := 0 to |metricIds|
        invariant unchanged(repo)
        invariant forall j :: 0 <= j < i ==> metricIds[j] in metricService.repo.metrics
      {
        var metric := metricService.GetMetricById(metricIds[i]);
        if metric.None? {
          FirstUnknownAt(metricIds, metricService.repo.metrics, i);
          return Err(MetricNotFound(metricIds[i]));
        }
      }
      var widget := CreateWidget(widgetId, title, widgetType, size, metricIds, position);
      r := repo.AddWidget(dashboardId, widget, now);
    }

    /** `updateWidget`: fails on an unknown dashboard or widget id; otherwise
        merges the updates into the first widget with that id and hands the
        result to the store, which places it by the merged widget's id. */
    method UpdateWidget(dashboardId: string, widgetId: string, updates: WidgetUpdates, now: Time)
      returns (r: Result<Dashboard>)
      requires repo.Valid()
      modifies repo
      ensures repo.Valid() && repo.order == old(repo.order) && repo.userDefaults == old(repo.userDefaults)
      ensures dashboardId !in old(repo.dashboards) ==>
                r == Err(DashboardNotFound(dashboardId)) && repo.dashboards == old(repo.dashboards)
      ensures dashboardId in old(repo.dashboards) &&
              FindWidgetIndex(old(repo.dashboards)[dashboardId].widgets, widgetId) == -1 ==>
                r == Err(WidgetNotFound(widgetId)) && repo.dashboards == old(repo.dashboards)
      ensures dashboardId in old(repo.dashboards) &&
              FindWidgetIndex(old(repo.dashboards)[dashboardId].widgets, widgetId) >= 0 ==>
                var d := old(repo.dashboards)[dashboardId];
                var merged := MergeWidget(d.widgets[FindWidgetIndex(d.widgets, widgetId)], updates);
                var target := FindWidgetIndex(d.widgets, merged.id);
                (target == -1 ==>
                   r == Err(WidgetNotFound(merged.id)) && repo.dashboards == old(repo.dashboards)) &&
                (target >= 0 ==>
                   r == Ok(WithWidgetAt(d, target, merged, now)) &&
                   repo.dashboards == old(repo.dashboards)[dashboardId := r.value])
      ensures dashboardId in old(repo.dashboards) && updates.id.None? &&
              FindWidgetIndex(old(repo.dashboards)[dashboardId].widgets, widgetId) >= 0 ==>
                var d := old(repo.dashboards)[dashboardId];
                var idx := FindWidgetIndex(d.widgets, widgetId);
                r == Ok(WithWidgetAt(d, idx, MergeWidget(d.widgets[idx], updates), now)) &&
                repo.dashboards == old(repo.dashboards)[dashboardId := r.value]
    {
      var dashboard := repo.GetById(dashboardId);
      if dashboard.None? {
        return Err(DashboardNotFound(dashboardId));
      }
      var widgetIndex := FindWidgetIndex(dashboard.value.widgets, widgetId);
      if widgetIndex == -1 {
        return Err(WidgetNotFound(widgetId));
      }
      var updatedWidget := MergeWidget(dashboard.value.widgets[widgetIndex], updates);
      if updates.id.None? {
        MergedWidgetKeepsPlace(dashboard.value.widgets, widgetId, updates);
      }
      r := repo.UpdateWidget(dashboardId, updatedWidget, now);
    }

    method RemoveWidget(dashboardId: string, widgetId: string, now: Time) returns (r: Result<Dashboard>)
      requires repo.Valid()
      modifies repo
      ensures repo.Valid() && repo.order == old(repo.order) && repo.userDefaults == old(repo.userDefaults)
      ensures dashboardId !in old(repo.dashboards) ==>
                r == Err(DashboardNotFound(dashboardId)) && repo.dashboards == old(repo.dashboards)
      ensures dashboardId in old(repo.dashboards) ==>
                r == Ok(WithoutWidget(old(repo.dashboards)[dashboardId], widgetId, now)) &&
                repo.dashboards == old(repo.dashboards)[dashboardId := r.value]
    {
      r := repo.RemoveWidget(dashboardId, widgetId, now);
    }

    method SetAsDefault(id: string, userId: string) returns (ok: bool)
      requires repo.Valid()
      modifies repo
      ensures repo.Valid() && repo.order == old(repo.order) && repo.dashboards == old(repo.dashboards)
      ensures ok == (id in old(repo.dashboards))
      ensures ok ==> repo.userDefaults == old(repo.userDefaults)[userId := id]
      ensures !ok ==> repo.userDefaults == old(repo.userDefaults)
    {
      ok := repo.SetDefault(id, userId);
    }
  }
}
