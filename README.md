# Metrics dashboard domain core, modelled in Dafny

This project models the domain core of a metrics-dashboard application: the
TypeScript repository `copilot`. It also proves properties of that model. The
core covers:

- **The in-memory metric store.** Stored metrics can be filtered by type,
  period, case-insensitive text and an inclusive last-updated window. A value
  update appends to the metric's history and recomputes its change percentage
  and trend. The trend rule divides by the absolute previous value, treats a
  previous value of 0 as a change of 0, and has a "stable" band of ±1 %.
- **The in-memory dashboard store.** It keeps two maps: dashboards, and the
  default dashboard of each user. Deleting a dashboard clears every default
  that points at it. Widget add, update and remove all go through this store.
- **The metric and dashboard services.** They use the stores.
  `addWidget` validates every metric id before anything is written.
  `updateWidget` and `updateDashboard` merge partial updates.
- **The Copilot usage analytics.** These are rates guarded against zero, and
  top-5 rankings from stable sorts of copies.
- **The entity factories.** They fix the initial shape of metrics,
  dashboards, widgets and users.
- **The immutable "models" layer.** It has its own `Metric` and `Dashboard`
  classes, and its own change and trend rules (signed divisor, no dead zone).
  It is a separate module and is not merged with the entities layer.

Modelling conventions:

- Each store is a class. It has a key order `order: seq<string>` beside a
  `map`, because a JavaScript `Map` enumerates its values in first-insertion
  order; module `OrderedKeys` states that rule once.
- `getAll` is a chain of filter steps, proved equal to one filter by the
  conjunction (`Seqs.FilterCompose`).
- Thrown errors are `Result` values: `Err(MetricNotFound(id))`,
  `Err(DashboardNotFound(id))` and `Err(WidgetNotFound(id))`.
- The clock (`new Date()`) and `crypto.randomUUID()` are parameters `now`
  and `id`. When the source reads the clock twice in one call, the model
  uses one reading.
- Numbers are exact `real`s and counts are `int`s.
- Entities are immutable datatypes, so the shallow copies the stores hand
  out cannot alias the stored state.

In `DashboardService.updateWidget`, the merged widget is handed to the
store, and the store looks the widget up by the merged widget's own id. So
an update that changes `id` targets whichever widget carries the new id, or
fails when none does. `DashboardService.DashboardService.UpdateWidget`
states exactly this. A second postcondition gives the usual reading when the
update leaves `id` alone.

## Model

| member | source | states |
|---|---|---|
| MetricEntity.CreateMetric | src/domain/entities/Metric.ts:46-69 | key, type, period and current value come from the arguments. The history is exactly one entry holding the initial value at `now`. `metadata.name` is the name, the description is `''` and `lastUpdated` is `now`. Previous value, trend, change percentage, thresholds and target are unset. |
| DashboardEntity.CreateDashboard | src/domain/entities/Dashboard.ts:39-49 | name, description and owner are copied. The widget list is empty. `isDefault` and `tags` are unset. Created and updated times are both `now`. The id is the fresh parameter, not derived from the arguments. |
| DashboardEntity.CreateWidget | src/domain/entities/Dashboard.ts:54-70 | title, type, size, metric ids and position are copied. `config` is the empty map. The id is the fresh parameter. |
| UserEntity.CreateUser | src/domain/entities/User.ts:26-38 | email and name are copied. The role is `viewer` when none is given, otherwise the given one. Preferences are theme `system`, refresh interval 60 and notifications on. Teams, last login and default dashboard are unset. |
| MetricRepository.ByType | src/infrastructure/repositories/InMemoryMetricRepository.ts:27-29 | type step: no restriction for an absent or empty type list, otherwise the metric's type is listed |
| MetricRepository.ByPeriod | src/infrastructure/repositories/InMemoryMetricRepository.ts:31-33 | period step: no restriction for an absent or empty period list, otherwise the metric's period is listed |
| MetricRepository.BySearch | src/infrastructure/repositories/InMemoryMetricRepository.ts:35-43 | search step: no restriction for an absent or empty search, otherwise the lower-cased search is a substring of the lower-cased key, name or description |
| MetricRepository.ByDate | src/infrastructure/repositories/InMemoryMetricRepository.ts:45-54 | date step: a metric without `lastUpdated` passes, otherwise its time lies in the window |
| MetricRepository.InWindow | src/infrastructure/repositories/InMemoryMetricRepository.ts:50-52 | `from <= t <= to`, each bound checked only when present |
| MetricRepository.LookupAll | src/infrastructure/repositories/InMemoryMetricRepository.ts:15-20 | the result has one entry per known id of `ids`, in the order of `ids`: entry `i` is the stored metric of the `i`-th id that has one; unknown ids are skipped; it is at most as long as `ids` |
| MetricRepository.LookupAllMembers | src/infrastructure/repositories/InMemoryMetricRepository.ts:15-20 | only stored metrics are returned and every known id is represented; with all ids known the result follows `ids` position by position, with none known it is empty |
| MetricRepository.MixedIdsScenario | src/infrastructure/repositories/InMemoryMetricRepository.ts:15-20 | for ids `a, x, b` with only `a` and `b` stored the result is `[a, b]` |
| MetricRepository.ChangePercentage | src/infrastructure/repositories/InMemoryMetricRepository.ts:110-112 | 0 from a previous value of 0. Otherwise the change over the absolute previous value, times 100. It is positive iff the value rose from a non-zero previous value, and negative iff it fell. |
| MetricRepository.TrendOf | src/infrastructure/repositories/InMemoryMetricRepository.ts:114-118 | `stable` iff the percentage is within [-1, 1], `up` iff it is above 1, `down` iff it is below -1. |
| MetricRepository.RecordValue | src/infrastructure/repositories/InMemoryMetricRepository.ts:92-120 | previous becomes the old current value and current becomes the new value. The history grows by exactly one entry, `(newValue, now)`, at the end, with the old entries kept. `lastUpdated` is `now`. Trend and percentage follow the rules above; a previous value of 0 gives `0` and `stable`. Identity, key, type, period, thresholds and target are kept. |
| MetricRepository.ErrorRateScenario | src/application/services/MetricService.ts:59-69 | a move from 0.05 to 0.11 is a change of 120 % and trend `up`. |
| MetricRepository.TagsIgnored | src/infrastructure/repositories/InMemoryMetricRepository.ts:22-58 | the metric filter's `tags` has no effect on `getAll`. |
| MetricRepository.InMemoryMetricRepository.constructor | src/infrastructure/repositories/InMemoryMetricRepository.ts:7-8 | the store starts empty. |
| MetricRepository.InMemoryMetricRepository.Stored | src/infrastructure/repositories/InMemoryMetricRepository.ts:23 | the stored metrics are enumerated in key order, one per key. |
| MetricRepository.InMemoryMetricRepository.GetById | src/infrastructure/repositories/InMemoryMetricRepository.ts:10-13 | a metric is found iff its id is stored, and it is the stored one. |
| MetricRepository.InMemoryMetricRepository.GetByIds | src/infrastructure/repositories/InMemoryMetricRepository.ts:15-20 | the result is `LookupAll` of the ids over the store: found metrics in the order of `ids`, unknown ids skipped. |
| MetricRepository.InMemoryMetricRepository.GetAll | src/infrastructure/repositories/InMemoryMetricRepository.ts:22-58 | the successive filter steps give exactly the stored metrics, in store order, that pass the type/period membership, case-insensitive search and inclusive date window; an absent or empty criterion places no restriction. |
| MetricRepository.InMemoryMetricRepository.Save | src/infrastructure/repositories/InMemoryMetricRepository.ts:60-63 | the metric is stored under its id, a new id goes last in the order, and the metric is returned |
| MetricRepository.InMemoryMetricRepository.Delete | src/infrastructure/repositories/InMemoryMetricRepository.ts:65-67 | the id leaves the map and the order, other keys keep their order, and the result says whether it was stored |
| MetricRepository.InMemoryMetricRepository.GetMetricHistory | src/infrastructure/repositories/InMemoryMetricRepository.ts:69-84 | `[]` for an unknown id; otherwise the order-preserving sub-history within the inclusive bounds, each bound checked only when given |
| MetricRepository.InMemoryMetricRepository.UpdateMetricValue | src/infrastructure/repositories/InMemoryMetricRepository.ts:86-124 | unknown id: not-found error, store unchanged; otherwise the stored metric becomes `RecordValue` of the old one and no other entry or key position changes |
| MetricService.ThresholdsCrossed | src/application/services/MetricService.ts:104-114 | both flags false without a metric or thresholds; otherwise warning iff current >= warning and critical iff current >= critical |
| MetricService.CriticalImpliesWarning | src/application/services/MetricService.ts:104-114 | with warning <= critical, a crossed critical limit implies a crossed warning limit |
| MetricService.WithExtras | src/application/services/MetricService.ts:38-44 | the description is set only when non-empty and the thresholds only when given; nothing else changes |
| MetricService.CreatedMetricShape | src/application/services/MetricService.ts:27-47 | a created metric has exactly one history entry, the initial value, no previous value or trend, and no crossed flag without thresholds |
| MetricService.MetricService.GetMetricById | src/application/services/MetricService.ts:13-15 | the stored metric with that id, if any |
| MetricService.MetricService.GetAllMetrics | src/application/services/MetricService.ts:20-22 | the store's filtered listing |
| MetricService.MetricService.CreateMetric | src/application/services/MetricService.ts:27-47 | the factory's metric with the extras is stored under its id and returned |
| MetricService.MetricService.UpdateMetricValue | src/application/services/MetricService.ts:52-85 | unknown id: not-found error, store unchanged; otherwise the service's own percentage (absolute divisor, 0 from 0) and ±1 % trend, the appended history entry and `lastUpdated`, stored under the id — the same metric the store's own update produces |
| MetricService.MetricService.DeleteMetric | src/application/services/MetricService.ts:90-92 | the store's delete |
| MetricService.MetricService.GetMetricHistoryForTimeRange | src/application/services/MetricService.ts:97-99 | the history within both given bounds |
| MetricService.MetricService.CheckMetricThresholds | src/application/services/MetricService.ts:104-114 | the flags of `ThresholdsCrossed` for the stored metric |
| DashboardRepository.ByOwner | src/infrastructure/repositories/InMemoryDashboardRepository.ts:21-23 | owner step: no restriction for an absent or empty owner, otherwise owner equality |
| DashboardRepository.ByDefault | src/infrastructure/repositories/InMemoryDashboardRepository.ts:25-27 | `isDefault` step: no restriction when absent, otherwise equality (an unset flag differs from `false`) |
| DashboardRepository.ByText | src/infrastructure/repositories/InMemoryDashboardRepository.ts:29-36 | search step: the lower-cased search is a substring of the lower-cased name or description |
| DashboardRepository.ByTags | src/infrastructure/repositories/InMemoryDashboardRepository.ts:38-42 | tags step: no restriction for absent or empty tags, otherwise some tag of the dashboard is among them |
| DashboardRepository.FindWidgetIndex | src/infrastructure/repositories/InMemoryDashboardRepository.ts:91 | -1 iff no widget has the id, otherwise the first index that has it |
| DashboardRepository.WithWidgetAppended | src/infrastructure/repositories/InMemoryDashboardRepository.ts:75-79 | the widget list is the old list plus the new widget at the end, `updatedAt` is `now`, nothing else changes |
| DashboardRepository.WithWidgetAt | src/infrastructure/repositories/InMemoryDashboardRepository.ts:96-103 | the list keeps its length, the given position holds the new widget, every other position is untouched, `updatedAt` is `now` |
| DashboardRepository.WithoutWidget | src/infrastructure/repositories/InMemoryDashboardRepository.ts:115-119 | the widgets are the dashboard's widgets with another id, in their order; every such widget keeps its number of occurrences and none with the id remains; nothing but `widgets` and `updatedAt` (which becomes `now`) changes |
| DashboardRepository.RemoveWidgetIdempotent | src/infrastructure/repositories/InMemoryDashboardRepository.ts:109-123 | removing the same widget id twice leaves the widgets of removing it once |
| DashboardRepository.RemoveAbsentWidget | src/infrastructure/repositories/InMemoryDashboardRepository.ts:117 | removing an id no widget carries keeps the list as it is (not an error) |
| DashboardRepository.RemoveUndoesAppend | src/infrastructure/repositories/InMemoryDashboardRepository.ts:69-123 | removing a freshly added widget of a new id restores the widget list |
| DashboardRepository.UpdateKeepsIndex | src/infrastructure/repositories/InMemoryDashboardRepository.ts:85-107 | after an update the widget is found at the same index |
| DashboardRepository.DefaultsWithout | src/infrastructure/repositories/InMemoryDashboardRepository.ts:59-64 | exactly the user defaults that do not point at the id remain, with their values |
| DashboardRepository.InMemoryDashboardRepository.constructor | src/infrastructure/repositories/InMemoryDashboardRepository.ts:7-9 | both maps start empty |
| DashboardRepository.InMemoryDashboardRepository.Stored | src/infrastructure/repositories/InMemoryDashboardRepository.ts:17 | the stored dashboards in key order, one per key |
| DashboardRepository.InMemoryDashboardRepository.GetById | src/infrastructure/repositories/InMemoryDashboardRepository.ts:11-14 | found iff stored, and then the stored dashboard |
| DashboardRepository.InMemoryDashboardRepository.GetAll | src/infrastructure/repositories/InMemoryDashboardRepository.ts:16-46 | the four filter steps give exactly the stored dashboards, in store order, that pass owner, default flag, text and tag criteria |
| DashboardRepository.InMemoryDashboardRepository.Save | src/infrastructure/repositories/InMemoryDashboardRepository.ts:48-56 | the dashboard with `updatedAt := now` is stored under its id and returned; user defaults and other dashboards are unchanged |
| DashboardRepository.InMemoryDashboardRepository.Delete | src/infrastructure/repositories/InMemoryDashboardRepository.ts:58-67 | every user default pointing at the id is removed and the others kept; the dashboard leaves map and order; the result says whether it existed |
| DashboardRepository.InMemoryDashboardRepository.AddWidget | src/infrastructure/repositories/InMemoryDashboardRepository.ts:69-83 | missing dashboard: not-found error and nothing changes; otherwise the dashboard with the widget appended is stored and returned, other dashboards unchanged |
| DashboardRepository.InMemoryDashboardRepository.UpdateWidget | src/infrastructure/repositories/InMemoryDashboardRepository.ts:85-107 | missing dashboard or widget id: the matching error and nothing changes; otherwise the first widget with the id is replaced, the rest untouched |
| DashboardRepository.InMemoryDashboardRepository.RemoveWidget | src/infrastructure/repositories/InMemoryDashboardRepository.ts:109-123 | missing dashboard: error; otherwise the stored dashboard becomes `WithoutWidget` of the old one: every widget with the id is dropped, every other occurrence is kept, in order |
| DashboardRepository.InMemoryDashboardRepository.SetDefault | src/infrastructure/repositories/InMemoryDashboardRepository.ts:125-133 | false and no change for an absent dashboard; otherwise the user's default becomes the id and the result is true |
| DashboardService.ApplyDashboardUpdates | src/application/services/DashboardService.ts:50-53 | each field given in the update overrides, every other field is kept |
| DashboardService.DashboardUpdatesLaws | src/application/services/DashboardService.ts:50-53 | an empty update changes nothing; applying an update twice equals applying it once |
| DashboardService.MergeWidget | src/application/services/DashboardService.ts:108-111 | each widget field given in the update overrides, every other field is kept |
| DashboardService.WidgetUpdatesLaws | src/application/services/DashboardService.ts:108-111 | an empty widget update changes nothing; merging twice equals merging once |
| DashboardService.MergedWidgetKeepsPlace | src/application/services/DashboardService.ts:103-113 | an update that leaves the id alone is found by the store at the index the service found |
| DashboardService.FirstUnknown | src/application/services/DashboardService.ts:83-88 | none iff every id is a stored metric; otherwise an id of the list that is not stored |
| DashboardService.FirstUnknownAt | src/application/services/DashboardService.ts:83-88 | the reported id is the first unknown one in list order |
| DashboardService.DashboardService.GetDashboardById | src/application/services/DashboardService.ts:17-24 | the stored dashboard with that id, if any |
| DashboardService.DashboardService.GetAllDashboards | src/application/services/DashboardService.ts:29-31 | the store's filtered listing |
| DashboardService.DashboardService.CreateDashboard | src/application/services/DashboardService.ts:36-39 | the factory's dashboard (empty widget list) is stored under its id and returned |
| DashboardService.DashboardService.UpdateDashboard | src/application/services/DashboardService.ts:44-57 | missing dashboard: error and no change; otherwise the merged dashboard with `updatedAt := now` is stored under its resulting id and returned |
| DashboardService.DashboardService.DeleteDashboard | src/application/services/DashboardService.ts:62-64 | the store's delete, defaults cleared |
| DashboardService.DashboardService.AddWidget | src/application/services/DashboardService.ts:69-92 | missing dashboard: error; an unknown metric id: error naming the first unknown id, store unchanged; otherwise exactly one widget with the given title, type, size, metric ids and position is appended |
| DashboardService.DashboardService.UpdateWidget | src/application/services/DashboardService.ts:97-114 | missing dashboard or widget: error, no change; otherwise the merged widget replaces the first widget carrying the merged widget's id (the original widget's place when the update keeps the id) |
| DashboardService.DashboardService.RemoveWidget | src/application/services/DashboardService.ts:119-121 | the store's removal |
| DashboardService.DashboardService.SetAsDefault | src/application/services/DashboardService.ts:126-128 | the store's default assignment |
| CopilotService.Percentage | src/application/services/github/GitHubCopilotService.ts:34-41 | 0 for a zero whole, otherwise part over whole times 100, within [0, 100] when 0 <= part <= whole |
| CopilotService.PerActive | src/application/services/github/GitHubCopilotService.ts:44-51 | 0 without active users, otherwise the total per active user, never negative for a non-negative total |
| CopilotService.MostBy | src/application/services/github/GitHubCopilotService.ts:54-56 | length min(5, n), non-increasing in the key, a sub-multiset of the input, and wherever fewer copies of an entry are kept than the input holds, every kept entry's key is at least that entry's, so repeated entries are counted copy by copy |
| CopilotService.LeftOutCopiesCount | src/application/services/github/GitHubCopilotService.ts:54-56 | with six tens and a one, keeping four tens and the one is not a top-5 |
| CopilotService.MostByKeepsTieOrder | src/application/services/github/GitHubCopilotService.ts:54-56 | entries of equal key appear in their input order (stable sort) |
| CopilotService.MostEfficient | src/application/services/github/GitHubCopilotService.ts:59-66 | at most 5 entries, each from the input with `shown > 100`, the top-5 of the significant entries by acceptance ratio, counting repeated entries copy by copy |
| CopilotService.RatesOf | src/application/services/github/GitHubCopilotService.ts:34-51 | usage rate from the active-user list length over access count, acceptance rate, and per-active-user averages, each with its zero guard |
| CopilotService.RankingsOf | src/application/services/github/GitHubCopilotService.ts:54-81 | the four rankings are the top-5 of their inputs in the copy-counting sense of `MostBy`: most active by `shown`, most efficient by ratio over entries with `shown > 100` |
| CopilotService.CalculateOrganizationMetrics | src/application/services/github/GitHubCopilotService.ts:31-83 | every rate follows its zero guard and formula, and every ranking is the copy-counting top-5 of its input |
| CopilotService.CalculateTeamMetrics | src/application/services/github/GitHubCopilotService.ts:88-139 | the same rates over active members and members with access, and the same copy-counting top-5 rankings; equal to the organization computation on the team's fields |
| CopilotService.OrganizationScenario | src/application/services/github/GitHubCopilotService.ts:34-51 | 8 of 10 users active is 80 %, 650 of 1000 accepted is 65 %, 1000 suggestions over 8 users is 125 each |
| CopilotService.InsignificantNeverEfficient | src/application/services/github/GitHubCopilotService.ts:59-66 | a repository with at most 100 suggestions shown is never among the most efficient |
| Sorting.SortDescStable | src/application/services/github/GitHubCopilotService.ts:54-81 | sorting descending keeps equal keys in input order |
| Sorting.TakeSorted | src/application/services/github/GitHubCopilotService.ts:54-81 | a prefix of the descending sort is sorted, a sub-multiset of the input, and every copy it leaves out has a key no larger than any kept element |
| MetricModel.DeriveTrend | src/domain/models/Metric.ts:109-113 | UP iff change > 0, DOWN iff change < 0, NEUTRAL iff change = 0 |
| MetricModel.ChangePercentage | src/domain/models/Metric.ts:84-89 | 100 from a previous value of 0 to a positive current one, 0 from 0 otherwise, else change over the signed previous value times 100 |
| MetricModel.WithUpdatedValues | src/domain/models/Metric.ts:116-137 | previous is the old current, current the new value, change and trend consistent; only the aggregate and the time series differ from the receiver |
| MetricModel.UpdatedPercentageFollowsTrend | src/domain/models/Metric.ts:84-137 | after an update from a positive value the percentage is positive iff UP and negative iff DOWN |
| MetricModel.UpdatedPercentageOpposesTrend | src/domain/models/Metric.ts:84-137 | after an update from a negative value the percentage is negative iff UP and positive iff DOWN, because the percentage divides by the signed previous value |
| MetricModel.NegativePreviousScenario | src/domain/models/Metric.ts:84-137 | from -10 to -5 the trend is UP while the percentage is -50 |
| MetricModel.FromRawData | src/domain/models/Metric.ts:140-167 | a missing or zero current or previous value is 0 and any other is kept; a given non-zero change is kept, a missing or zero one is current - previous; a given trend is kept, a missing one is the sign of the change; a missing value object is all zeros and NEUTRAL; description/type/unit default to `''`/COUNT/`''`; series, dimensions and metadata are carried over |
| MetricModel.RawRoundTrip | src/domain/models/Metric.ts:140-167 | a metric read back from its full raw form is unchanged unless it stores a zero change beside different values |
| MetricModel.ConsistentRoundTrip | src/domain/models/Metric.ts:116-167 | every metric with a consistent aggregate survives the raw round trip |
| MetricModel.ZeroChangeIsRecomputed | src/domain/models/Metric.ts:148-149 | a stored change of 0 between 3 and 5 is read back as 2 |
| DashboardModel.FindSection | src/domain/models/Dashboard.ts:77 | none iff no section has the id, otherwise the first section with it |
| DashboardModel.GetMetricsBySection | src/domain/models/Dashboard.ts:76-81 | `[]` for an unknown section; otherwise the dashboard's metrics whose id the section lists, in dashboard order, each listed metric with as many occurrences as in the dashboard |
| DashboardModel.PutAllFacts | src/domain/models/Dashboard.ts:86-91 | setting metrics in turn adds their new ids in first-occurrence order and leaves each id with its last metric |
| DashboardModel.MergeById | src/domain/models/Dashboard.ts:84-94 | every id once: existing ids first, then new update ids in argument order; each metric is the last update with its id, else the last existing one |
| DashboardModel.MergeKeepsPositions | src/domain/models/Dashboard.ts:84-94 | with distinct existing ids, each existing metric keeps its position, replaced by its last update if any |
| DashboardModel.MergeAppendsInOrder | src/domain/models/Dashboard.ts:84-94 | with distinct ids on both sides, the ids are the existing ones followed by the new update ids in order |
| DashboardModel.MergeContainsUpdates | src/domain/models/Dashboard.ts:89-91 | every update not overridden by a later one with the same id is in the result |
| DashboardModel.MergeNothing | src/domain/models/Dashboard.ts:84-106 | with distinct ids, updating with no metrics keeps the metric list |
| DashboardModel.SetEach | src/domain/models/Dashboard.ts:86-91 | the loop setting each metric in turn yields the map state `PutAll` describes |
| DashboardModel.WithUpdatedMetrics | src/domain/models/Dashboard.ts:84-106 | the map filled from the existing metrics and then the updates enumerates to `MergeById`; every other field is kept and `lastUpdated` is `now` |
| DashboardModel.WithUpdatedSections | src/domain/models/Dashboard.ts:109-120 | the sections are replaced wholesale, the metrics and other fields kept, `lastUpdated` is `now` |
| DashboardModel.FromRawData | src/domain/models/Dashboard.ts:123-134 | description `''`, sections `[]`, owner `'Unknown'` when missing or empty; a missing or 0 `lastUpdated` is `now` |
| DashboardModel.RawRoundTrip | src/domain/models/Dashboard.ts:123-134 | a dashboard read back from its full raw form is unchanged unless its owner is empty or its time is 0 |
| OrderedKeys.InsertKey | src/infrastructure/repositories/InMemoryMetricRepository.ts:61 | `Map.set`: a new key goes last, an existing key keeps its place, keys stay distinct |
| OrderedKeys.RemoveKey | src/infrastructure/repositories/InMemoryMetricRepository.ts:66 | `Map.delete`: exactly the key leaves, the others keep their relative order |
| OrderedKeys.ValuesInOrderMembers | src/infrastructure/repositories/InMemoryDashboardRepository.ts:17 | enumerating the values yields every stored value and nothing else |
| Seqs.FilterCompose | src/infrastructure/repositories/InMemoryMetricRepository.ts:22-58 | successive filter steps equal one filter by the conjunction |

## Left out

- I/O and asynchrony: every store method and every metric and dashboard service method is `async` (the Copilot analytics, the models layer and the factories are synchronous). The model is synchronous throughout, because the in-memory bodies never await anything external.
- Repository interfaces (`DashboardRepository.ts`, `MetricRepository.ts` and the others): the services hold the concrete in-memory stores.
- Shallow copies and aliasing: stored entities are immutable values. So the copies the stores return, and the history array the metric service mutates, are not modelled separately. The stored state that results is the same.
- The copying getters (`timeSeries`, `sections`, `metrics`, `metadata`) of the models layer: datatype values cannot be mutated by a caller, so the copy is implicit.
- Clock and id generation: `new Date()` and `crypto.randomUUID()` are the parameters `now` and `id`. Where the source reads the clock twice in one call, both readings are `now`.
- IEEE-754 arithmetic: numbers are exact reals. `Infinity`, `NaN`, rounding and `-0` are not modelled.
- Case folding is ASCII-only lower-casing. Full Unicode `toLowerCase` is not modelled.
- `Record<string, any>` (metadata, dimensions, widget config) is modelled as `map<string, string>`.
- `Partial<…>` fields set explicitly to `undefined`: an update record holds `None` for "not given". A field present with the value `undefined` is not distinguished.
- `DashboardService.DashboardUpdates`: there is no `updatedAt` field, because the store overwrites it on save.
- `formatValue` in the models-layer metric is not modelled: it is number-to-string formatting.
- `getOrganizationCopilotUsage`, `getTeamCopilotUsage` and `getOrganizationTeams` are not modelled: they only delegate to the GitHub API repository.
- React pages, components, hooks, API repositories, route handlers, the mock GitHub data generator and the date-range filter types are not part of this model.
- DashboardModel.MergeKeepsPositions: the "original position" property is stated only for existing metrics with distinct ids. With repeated existing ids, the JavaScript `Map` collapses them to the first position; `MergeById` describes that case through `FreshIds`.
- DashboardModel.MergeAppendsInOrder: stated only for distinct ids on both sides. `MergeById` gives the general first-occurrence order.
- CopilotService.MostEfficient: dividing by `shown` is safe only because a significant entry has `shown > 100`.
- CopilotService.Ratio: it carries a zero guard that the source does not need, because it is only applied after the significance filter.
