/** The in-memory dashboard store
    (src/infrastructure/repositories/InMemoryDashboardRepository.ts). */
module DashboardRepository {
  import opened Basics
  import opened Seqs
  import opened OrderedKeys
  import opened DashboardEntity

  /** The optional criteria of `getAll`. */
  datatype DashboardFilter = DashboardFilter(
    owner: Option<string>,
    search: Option<string>,
    tags: Option<seq<string>>,
    isDefault: Option<bool>)

  /** An absent or empty owner places no restriction. */
  predicate OwnerAllowed(f: DashboardFilter, d: Dashboard)
  {
    f.owner.None? || f.owner.value == "" || d.owner == f.owner.value
  }

  /** A dashboard whose `isDefault` is unset never equals a given flag. */
  predicate DefaultAllowed(f: DashboardFilter, d: Dashboard)
  {
    f.isDefault.None? || d.isDefault == f.isDefault
  }

  /** The search text occurs, ignoring case, in the name or description. */
  predicate TextMatches(f: DashboardFilter, d: Dashboard)
  {
    f.search.None? || f.search.value == "" ||
    IncludesIgnoringCase(d.name, f.search.value) ||
    IncludesIgnoringCase(d.description, f.search.value)
  }

  /** Some tag of the dashboard is among the filter's tags; a dashboard
      without tags has none in common. */
  predicate TagsOverlap(f: DashboardFilter, d: Dashboard)
  {
    f.tags.None? || |f.tags.value| == 0 ||
    (d.tags.Some? && exists t :: t in d.tags.value && t in f.tags.value)
  }

  /** What `getAll(filter)` keeps. */
  predicate Selects(filter: Option<DashboardFilter>, d: Dashboard)
  {
    filter.Some? ==>
      OwnerAllowed(filter.value, d) && DefaultAllowed(filter.value, d) &&
      TextMatches(filter.value, d) && TagsOverlap(filter.value, d)
  }

  function Selecting(filter: Option<DashboardFilter>): Dashboard -> bool
  {
    d => Selects(filter, d)
  }

  function ByOwner(f: DashboardFilter): Dashboard -> bool { d => OwnerAllowed(f, d) }
  function ByDefault(f: DashboardFilter): Dashboard -> bool { d => DefaultAllowed(f, d) }
  function ByText(f: DashboardFilter): Dashboard -> bool { d => TextMatches(f, d) }
  function ByTags(f: DashboardFilter): Dashboard -> bool { d => TagsOverlap(f, d) }

  /** `findIndex` on the widget ids: the first position holding `id`, or -1. */
  function FindWidgetIndex(ws: seq<Widget>, id: string): (r: int)
    ensures -1 <= r < |ws|
    ensures r == -1 <==> forall i :: 0 <= i < |ws| ==> ws[i].id != id
    ensures r >= 0 ==> ws[r].id == id && forall j :: 0 <= j < r ==> ws[j].id != id
  {
    if ws == [] then -1
    else if ws[0].id == id then 0
    else
      var k := FindWidgetIndex(ws[1..], id);
      if k == -1 then -1 else k + 1
  }

  /** The widgets other than those with id `widgetId`. */
  function OtherThan(widgetId: string): Widget -> bool
  {
    (w: Widget) => w.id != widgetId
  }

  /** The dashboard `addWidget` stores. */
  function WithWidgetAppended(d: Dashboard, w: Widget, now: Time): (r: Dashboard)
    ensures r == d.(widgets := r.widgets, updatedAt := now)
    ensures |r.widgets| == |d.widgets| + 1 && r.widgets[..|d.widgets|] == d.widgets
    ensures r.widgets[|d.widgets|] == w
  {
    d.(widgets := d.widgets + [w], updatedAt := now)
  }

  /** The dashboard `updateWidget` stores: position `idx` holds `w`. */
  function WithWidgetAt(d: Dashboard, idx: nat, w: Widget, now: Time): (r: Dashboard)
    requires idx < |d.widgets|
    ensures r == d.(widgets := r.widgets, updatedAt := now)
    ensures |r.widgets| == |d.widgets| && r.widgets[idx] == w
    ensures forall i :: 0 <= i < |d.widgets| && i != idx ==> r.widgets[i] == d.widgets[i]
  {
    d.(widgets := d.widgets[idx := w], updatedAt := now)
  }

  /** The dashboard `removeWidget` stores. */
  function WithoutWidget(d: Dashboard, widgetId: string, now: Time): (r: Dashboard)
    ensures r == d.(widgets := r.widgets, updatedAt := now)
    ensures forall w :: w in r.widgets <==> w in d.widgets && w.id != widgetId
    ensures IsSubsequence(r.widgets, d.widgets)
    ensures forall w :: multiset(r.widgets)[w] == if w.id != widgetId then multiset(d.widgets)[w] else 0
    ensures r.widgets == Filter(d.widgets, OtherThan(widgetId))
  {
    FilterIsSubsequence(d.widgets, OtherThan(widgetId));
    FilterMembers(d.widgets, OtherThan(widgetId));
    FilterCount(d.widgets, OtherThan(widgetId));
    d.(widgets := Filter(d.widgets, OtherThan(widgetId)), updatedAt := now)
  }

  /** Removing a widget twice is removing it once. */
  lemma RemoveWidgetIdempotent(d: Dashboard, widgetId: string, now: Time, later: Time)
    ensures WithoutWidget(WithoutWidget(d, widgetId, now), widgetId, later) ==
            WithoutWidget(d, widgetId, later)
  {
    FilterIdempotent(d.widgets, OtherThan(widgetId));
  }

  /** Removing a widget whose id is on no widget touches only `updatedAt`. */
  lemma {:induction false} RemoveAbsentWidget(ws: seq<Widget>, widgetId: string)
    requires forall i :: 0 <= i < |ws| ==> ws[i].id != widgetId
    ensures Filter(ws, OtherThan(widgetId)) == ws
  {
    FilterAll(ws, OtherThan(widgetId));
  }

  /** Removing a freshly appended widget, whose id was not yet on the
      dashboard, restores the widget list. */
  lemma RemoveUndoesAppend(d: Dashboard, w: Widget, now: Time, later: Time)
    requires forall i :: 0 <= i < |d.widgets| ==> d.widgets[i].id != w.id
    ensures WithoutWidget(WithWidgetAppended(d, w, now), w.id, later).widgets == d.widgets
  {
    FilterAppend(d.widgets, [w], OtherThan(w.id));
    RemoveAbsentWidget(d.widgets, w.id);
    assert Filter([w], OtherThan(w.id)) == [];
  }

  /** Replacing the widget found for `w.id` by `w` leaves it findable at the
      same place, so a repeated update replaces the same position. */
  lemma UpdateKeepsIndex(d: Dashboard, w: Widget, now: Time)
    requires FindWidgetIndex(d.widgets, w.id) >= 0
    ensures FindWidgetIndex(WithWidgetAt(d, FindWidgetIndex(d.widgets, w.id), w, now).widgets, w.id)
            == FindWidgetIndex(d.widgets, w.id)
  {
  }

  /** `delete`'s clean-up: the user defaults that do not point to `id`. */
  function DefaultsWithout(defaults: map<string, string>, id: string): (r: map<string, string>)
    ensures forall u :: u in r <==> u in defaults && defaults[u] != id
    ensures forall u :: u in r ==> r[u] == defaults[u]
  {
    map u | u in defaults && defaults[u] != id :: defaults[u]
  }

  class InMemoryDashboardRepository {
    /** The keys of the dashboards `Map` in insertion order. */
    var order: seq<string>
    var dashboards: map<string, Dashboard>
    /** The default dashboard of each user. */
    var userDefaults: map<string, string>

    /** Each dashboard is stored under its own id, and every user default
        names a stored dashboard. */
    ghost predicate Valid()
      reads this
    {
      KeysInOrder(order, dashboards) &&
      (forall k :: k in dashboards ==> dashboards[k].id == k) &&
      (forall u :: u in userDefaults ==> userDefaults[u] in dashboards)
    }

    constructor ()
      ensures Valid() && order == [] && dashboards == map[] && userDefaults == map[]
    {
      order := [];
      dashboards := map[];
      userDefaults := map[];
    }

    /** `Array.from(this.dashboards.values())`. */
    function Stored(): (r: seq<Dashboard>)
      reads this
      requires Valid()
      ensures |r| == |order|
    {
      ValuesInOrder(order, dashboards)
    }

    method GetById(id: string) returns (r: Option<Dashboard>)
      requires Valid()
      ensures r.Some? <==> id in dashboards
      ensures r.Some? ==> r.value == dashboards[id] && r.value.id == id
    {
      r := Lookup(dashboards, id);
    }

    /** `getAll`: the filter steps are applied one after another. */
    method GetAll(filter: Option<DashboardFilter>) returns (r: seq<Dashboard>)
      requires Valid()
      ensures r == Filter(Stored(), Selecting(filter))
    {
      var all := ValuesInOrder(order, dashboards);
      var ds := all;
      if filter.Some? {
        var f := filter.value;
        if f.owner.Some? && f.owner.value != "" {
          ds := Filter(ds, ByOwner(f));
        } else {
          FilterAll(all, ByOwner(f));
        }
        ghost var s1 := ds;
        if f.isDefault.Some? {
          ds := Filter(ds, ByDefault(f));
        } else {
          FilterAll(s1, ByDefault(f));
        }
        ghost var s2 := ds;
        if f.search.Some? && f.search.value != "" {
          ds := Filter(ds, ByText(f));
        } else {
          FilterAll(s2, ByText(f));
        }
        ghost var s3 := ds;
        if f.tags.Some? && |f.tags.value| > 0 {
          ds := Filter(ds, ByTags(f));
        } else {
          FilterAll(s3, ByTags(f));
        }
        ghost var od := (d: Dashboard) => OwnerAllowed(f, d) && DefaultAllowed(f, d);
        ghost var odt := (d: Dashboard) => od(d) && TextMatches(f, d);
        FilterCompose(all, ByOwner(f), ByDefault(f), od);
        FilterCompose(all, od, ByText(f), odt);
        FilterCompose(all, odt, ByTags(f), Selecting(filter));
      } else {
        FilterAll(all, Selecting(filter));
      }
      r := ds;
    }

    /** `save`: the dashboard is stored under its own id with `updatedAt`
        refreshed. */
    method Save(d: Dashboard, now: Time) returns (r: Dashboard)
      requires Valid()
      modifies this
      ensures Valid()
      ensures r == d.(updatedAt := now)
      ensures dashboards == old(dashboards)[d.id := r]
      ensures order == InsertKey(old(order), d.id)
      ensures userDefaults == old(userDefaults)
    {
      r := d.(updatedAt := now);
      dashboards := dashboards[d.id := r];
      order := InsertKey(order, d.id);
    }

    /** `delete`: drops every user default that names `id`, then the
        dashboard itself, reporting whether it existed. */
    method Delete(id: string) returns (existed: bool)
      requires Valid()
      modifies this
      ensures Valid()
      ensures existed == (id in old(dashboards))
      ensures dashboards == old(dashboards) - {id}
      ensures order == RemoveKey(old(order), id)
      ensures userDefaults == DefaultsWithout(old(userDefaults), id)
    {
      var defaults := userDefaults;
      var users := defaults.Keys;
      while users != {}
        invariant users <= userDefaults.Keys
        invariant forall u :: u in defaults <==> u in userDefaults && (u in users || userDefaults[u] != id)
        invariant forall u :: u in defaults ==> defaults[u] == userDefaults[u]
        decreases users
      {
        var u :| u in users;
        if defaults[u] == id {
          defaults := defaults - {u};
        }
        users := users - {u};
      }
      assert defaults == DefaultsWithout(userDefaults, id);
      userDefaults := defaults;
      existed := id in dashboards;
      dashboards := dashboards - {id};
      order := RemoveKey(order, id);
    }

    /** `addWidget`: fails on an unknown dashboard; otherwise appends. */
    method AddWidget(dashboardId: string, widget: Widget, now: Time) returns (r: Result<Dashboard>)
      requires Valid()
      modifies this
      ensures Valid() && order == old(order) && userDefaults == old(userDefaults)
      ensures dashboardId !in old(dashboards) ==>
                r == Err(DashboardNotFound(dashboardId)) && dashboards == old(dashboards)
      ensures dashboardId in old(dashboards) ==>
                r == Ok(WithWidgetAppended(old(dashboards)[dashboardId], widget, now)) &&
                dashboards == old(dashboards)[dashboardId := r.value]
    {
      if dashboardId !in dashboards {
        return Err(DashboardNotFound(dashboardId));
      }
      var updated := WithWidgetAppended(dashboards[dashboardId], widget, now);
      dashboards := dashboards[dashboardId := updated];
      r := Ok(updated);
    }

    /** `updateWidget`: fails on an unknown dashboard or widget id; otherwise
        replaces the first widget carrying `widget.id`. */
    method UpdateWidget(dashboardId: string, widget: Widget, now: Time) returns (r: Result<Dashboard>)
      requires Valid()
      modifies this
      ensures Valid() && order == old(order) && userDefaults == old(userDefaults)
      ensures dashboardId !in old(dashboards) ==>
                r == Err(DashboardNotFound(dashboardId)) && dashboards == old(dashboards)
      ensures dashboardId in old(dashboards) &&
              FindWidgetIndex(old(dashboards)[dashboardId].widgets, widget.id) == -1 ==>
                r == Err(WidgetNotFound(widget.id)) && dashboards == old(dashboards)
      ensures dashboardId in old(dashboards) &&
              FindWidgetIndex(old(dashboards)[dashboardId].widgets, widget.id) >= 0 ==>
                r == Ok(WithWidgetAt(old(dashboards)[dashboardId],
                                     FindWidgetIndex(old(dashboards)[dashboardId].widgets, widget.id),
                                     widget, now)) &&
                dashboards == old(dashboards)[dashboardId := r.value]
    {
      if dashboardId !in dashboards {
        return Err(DashboardNotFound(dashboardId));
      }
      var d := dashboards[dashboardId];
      var idx := FindWidgetIndex(d.widgets, widget.id);
      if idx == -1 {
        return Err(WidgetNotFound(widget.id));
      }
      var updated := WithWidgetAt(d, idx, widget, now);
      dashboards := dashboards[dashboardId := updated];
      r := Ok(updated);
    }

    /** `removeWidget`: fails on an unknown dashboard; an unknown widget id
        is not an error. */
    method RemoveWidget(dashboardId: string, widgetId: string, now: Time) returns (r: Result<Dashboard>)
      requires Valid()
      modifies this
      ensures Valid() && order == old(order) && userDefaults == old(userDefaults)
      ensures dashboardId !in old(dashboards) ==>
                r == Err(DashboardNotFound(dashboardId)) && dashboards == old(dashboards)
      ensures dashboardId in old(dashboards) ==>
                r == Ok(WithoutWidget(old(dashboards)[dashboardId], widgetId, now)) &&
                dashboards == old(dashboards)[dashboardId := r.value]
    {
      if dashboardId !in dashboards {
        return Err(DashboardNotFound(dashboardId));
      }
      var updated := WithoutWidget(dashboards[dashboardId], widgetId, now);
      dashboards := dashboards[dashboardId := updated];
      r := Ok(updated);
    }

    /** `setDefault`: false and no change for an unknown dashboard. */
    method SetDefault(id: string, userId: string) returns (ok: bool)
      requires Valid()
      modifies this
      ensures Valid() && order == old(order) && dashboards == old(dashboards)
      ensures ok == (id in old(dashboards))
      ensures ok ==> userDefaults == old(userDefaults)[userId := id]
      ensures !ok ==> userDefaults == old(userDefaults)
    {
      if id !in dashboards {
        return false;
      }
      userDefaults := userDefaults[userId := id];
      ok := true;
    }
  }
}
