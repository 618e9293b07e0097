/** The Dashboard and Widget records of the entities layer and their
    factories (src/domain/entities/Dashboard.ts). */
module DashboardEntity {
  import opened Basics

  datatype WidgetSize = Small | Medium | Large
  datatype WidgetType = Counter | Gauge | LineChart | BarChart | Table | StatusCard

  /** Grid placement of a widget (JavaScript numbers). */
  datatype Position = Position(x: real, y: real, width: real, height: real)

  /** Free-form widget configuration (`Record<string, any>`). */
  type Config = map<string, string>

  datatype Widget = Widget(
    id: string,
    title: string,
    widgetType: WidgetType,
    size: WidgetSize,
    metricIds: seq<string>,
    position: Position,
    config: Option<Config>)

  datatype Dashboard = Dashboard(
    id: string,
    name: string,
    description: string,
    widgets: seq<Widget>,
    owner: string,
    isDefault: Option<bool>,
    tags: Option<seq<string>>,
    createdAt: Time,
    updatedAt: Time)

  /** `createDashboard`: `id` is the fresh UUID, `now` the clock reading. */
  function CreateDashboard(id: string, now: Time, name: string, description: string,
                           owner: string): (d: Dashboard)
    ensures d.id == id && d.name == name && d.description == description && d.owner == owner
    ensures d.widgets == []
    ensures d.isDefault.None? && d.tags.None?
    ensures d.createdAt == now && d.updatedAt == now
  {
    Dashboard(id, name, description, [], owner, None, None, now, now)
  }

  /** `createWidget`: `id` is the fresh UUID; the configuration starts empty. */
  function CreateWidget(id: string, title: string, widgetType: WidgetType, size: WidgetSize,
                        metricIds: seq<string>, position: Position): (w: Widget)
    ensures w.id == id && w.title == title && w.widgetType == widgetType && w.size == size
    ensures w.metricIds == metricIds && w.position == position
    ensures w.config == Some(map[])
  {
    Widget(id, title, widgetType, size, metricIds, position, Some(map[]))
  }
}
