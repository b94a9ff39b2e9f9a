# Campaign dashboard: verified model of the reorder engine and the list derivations

This project is a Dafny model of the UI-state logic of a marketing-campaign analytics
dashboard (a Next.js front end). It covers four parts:

- **Reorder engine.** The grid's top-level cards `metrics | trend | table | distribution`
  form a sortable region. A drop commits a single-element move of the lifted id to the
  index of the id under it, using `arrayMove` from `@dnd-kit/sortable`. The grid also
  tracks a transient drag session (`activeId`) and renders a floating overlay of the
  lifted card while it is set. The metric rows `cost | clicks | impressions | cpc` appear
  twice:
  - The grid's metrics card has a sortable context with the same handler, but its rows
    never register as draggables, so their order never changes (see Findings).
  - The overview's rows are sortable, with a handler of its own (see Findings).

  The model proves the following:
  - every order the card region can reach is a permutation of its fixed id set;
  - a drop is a move and not a swap;
  - a drop with no target, or onto the lifted card, and a cancelled drag leave the order alone;
  - the metric-row lookup `metrics[key]` never misses, for the grid's fixed order and for
    the overview's order under drops that land on a row.
- **Derivations over the campaign list.**
  - The status filter, in its two spellings: the table card's and the page's.
  - The integer click and impression totals, and the average-cost-per-click zero guard.
  - The top-five pie projection and its palette indexing.
  - The deterministic trend seeding of the grid's trend card. JavaScript's truncating
    `%` is modelled explicitly, and `Math.floor` of the real quotient is proved equal to
    integer division.
- **Create-submit transition.** It is a pure function of the list, the modal flag, the
  form and an abstract outcome of the HTTP call. It either appends the returned record
  and resets the form, or changes nothing.
- **Record type and initial store.**

Modules follow the source files:

| module | file | source |
|---|---|---|
| `Wrappers` | wrappers.dfy | the `Option` type |
| `Atoms` | atoms.dfy | `frontend/app/atoms.ts` |
| `Sortable` | sortable.dfy | `indexOf` and `arrayMove` |
| `Reorder` | reorder.dfy | the drop handler shared by both grid regions |
| `Derive` | derive.dfy | filter, totals, average guard, pie |
| `Metrics` | metrics.dfy | the metrics table and metric rows |
| `TrendCard` | trend.dfy | the trend card |
| `TableCard` | table.dfy | the table card |
| `DashboardGrid` | grid.dfy | the grid component: drag session, overlay, submit |
| `DashboardOverview` | overview.dfy | the overview component |
| `Page` | page.dfy | the stand-alone page |

Assumptions:

- `arrayMove` belongs to the library and its implementation is not part of this model.
  It is modelled by its documented meaning: remove the element at `from` and insert it
  at `to`, for `0 <= from, to < |s|`. This is a stated assumption.
- dnd-kit only reports ids registered in a region's sortable context. The drop handlers
  therefore require the lifted id, and the target when there is one, to be ids of the
  region (`Reorder.ValidDrop`).

Two facts about the code shape the model:

- `handleSubmit` does no validation of its own and posts whatever the form holds; only
  the browser's `required` attributes check the form.
- The overview's `onDragEnd` does not treat a drop with no target as a no-op (see Findings).

## Model

| member | source | states |
|---|---|---|
| `Sortable.IndexOf` | frontend/app/components/dashboardGrid.tsx:707-708 | `indexOf` is -1 exactly when the id is absent, otherwise a position holding the id with no earlier occurrence |
| `Sortable.ArrayMove` | frontend/app/components/dashboardGrid.tsx:705-709 | the moved sequence has the same length and the lifted element sits at the target index |
| `Sortable.ArrayMoveShift` | frontend/app/components/dashboardGrid.tsx:705-709 | position by position: the element at `from` goes to `to`, the elements strictly between shift one slot towards `from`, all others stay |
| `Sortable.ArrayMovePermutes` | frontend/app/components/dashboardGrid.tsx:704-710 | a move neither adds, drops nor duplicates an element (multiset equality) |
| `Sortable.ArrayMoveKeepsDistinct` | frontend/app/components/dashboardGrid.tsx:704-710 | a move of a duplicate-free order stays duplicate-free |
| `Sortable.ArrayMoveUndo` | frontend/app/components/dashboardGrid.tsx:705-709 | moving the element back from `to` to `from` restores the original order |
| `Sortable.ArrayMoveInPlace` | frontend/app/components/dashboardGrid.tsx:705-709 | a move onto the element's own index changes nothing |
| `Sortable.ArrayMoveKeepsOthersInOrder` | frontend/app/components/dashboardGrid.tsx:702-711 | not a swap: with the lifted id taken out, the other ids are in exactly their previous order |
| `Reorder.CommitDrop` | frontend/app/components/dashboardGrid.tsx:702-711 | the committed order is a permutation of the old one; with no target or the lifted card as target it is unchanged; otherwise the lifted id lands at the target's index |
| `Reorder.DropIsSingleMove` | frontend/app/components/dashboardGrid.tsx:144-153 | in a duplicate-free region a real drop keeps it duplicate-free, puts the lifted id at the target's former index and keeps every other id in relative order |
| `Reorder.DropWithoutTargetIsNoOp` | frontend/app/components/dashboardGrid.tsx:703 | a drop onto nothing and a drop onto the lifted card itself both leave the order unchanged |
| `Reorder.ApplyDrops` | frontend/app/components/dashboardGrid.tsx:146-152 | after any run of drops the order is a permutation of the initial one, holds only its ids, and stays duplicate-free |
| `Reorder.ApplyDropsKeepsIds` | frontend/app/components/dashboardGrid.tsx:146-152 | an id is in the dragged order exactly when it was in the initial order |
| `Reorder.MoveForwardExample` | frontend/app/components/dashboardGrid.tsx:702-711 | `[A,B,C,D]` with A dropped on C gives `[B,C,A,D]` |
| `Reorder.MoveBackwardExample` | frontend/app/components/dashboardGrid.tsx:702-711 | `[A,B,C,D]` with D dropped on A gives `[D,A,B,C]` |
| `Atoms.StatusName` | frontend/app/atoms.ts:6 | a status is stored as the string "Active" or "Paused", and `Active` is exactly the one stored as "Active" |
| `Atoms.ParseStatus` | frontend/app/atoms.ts:6 | exactly the strings "Active" and "Paused" name a status, and "Active" is exactly the string that reads as `Active` |
| `Atoms.StatusNameRoundTrip` | frontend/app/atoms.ts:6 | reading back a status's string gives the status |
| `Atoms.StatusNameInjective` | frontend/app/atoms.ts:6 | two statuses share a string only when they are equal, so string comparison is status comparison |
| `Atoms.InitialStore` | frontend/app/atoms.ts:13-16 | the store starts with no campaigns, dark mode off, the modal closed and loading on |
| `Derive.Filter` | frontend/app/page.tsx:33-35 | `Array.filter`: every kept element passes, and each element occurs as often as in the input if it passes, else not at all |
| `Derive.FilterConcat` | frontend/app/page.tsx:33-35 | filtering preserves order: the filter of a concatenation is the concatenation of the filters |
| `Derive.TableFilter` | frontend/app/components/dashboardGrid.tsx:387-388 | "All" returns the list unchanged; any other value keeps exactly the campaigns whose status string equals it |
| `Derive.PageFilter` | frontend/app/page.tsx:33-35 | every shown campaign passes the page's filter callback |
| `Derive.FiltersAgree` | frontend/app/page.tsx:33-35 | the page's filter and the table card's filter give the same list for every filter value |
| `Derive.StatusFilterExact` | frontend/app/components/dashboardGrid.tsx:387-388 | a status filter keeps exactly the campaigns of that status, with their multiplicities, and filters a concatenation part by part (order preserved) |
| `Derive.UnknownFilterKeepsNothing` | frontend/app/components/dashboardGrid.tsx:388 | a filter string that is neither "All" nor a status keeps nothing |
| `Derive.Sum` | frontend/app/components/dashboardGrid.tsx:87-91 | the `reduce` total from 0: an empty list totals 0 and a one-campaign list totals that campaign's field |
| `Derive.SumSnoc` | frontend/app/components/dashboardGrid.tsx:87-91 | the left-to-right `reduce` step: appending a campaign adds its field to the total |
| `Derive.TotalClicks` | frontend/app/page.tsx:55 | the click total of an empty list is 0, and it is never negative when no campaign has negative counts |
| `Derive.TotalImpressions` | frontend/app/page.tsx:56 | the impression total of an empty list is 0, and it is never negative when no campaign has negative counts |
| `Derive.TotalCost` | frontend/app/components/dashboardOverview.tsx:92 | the cost total of an empty list is 0, and it is never negative when no cost is negative |
| `Derive.SumConcat` | frontend/app/components/dashboardGrid.tsx:87-91 | the reduce total of a concatenation is the sum of the parts' totals |
| `Derive.SumNonNegative` | frontend/app/components/dashboardGrid.tsx:87-91 | over non-negative fields the total is non-negative and zero exactly when every field is zero |
| `Derive.TotalsSplitByStatus` | frontend/app/page.tsx:55-56 | the click and impression totals of the active plus the paused campaigns equal those of the whole list |
| `Derive.AvgCost` | frontend/app/components/dashboardGrid.tsx:92-93 | the average falls back to "0.00" exactly when the click total is not positive; otherwise it carries the cost and click totals |
| `Derive.AvgFallbackIffNoClicks` | frontend/app/components/dashboardOverview.tsx:93-95 | with non-negative clicks the fallback shows exactly when total clicks is 0, i.e. when no campaign has a click |
| `Derive.PieData` | frontend/app/components/dashboardOverview.tsx:126-131 | the pie data is the first `min(5, n)` campaigns, in order, projected to name, cost and clicks |
| `Derive.PieIgnoresLaterCampaigns` | frontend/app/components/dashboardOverview.tsx:126 | once five campaigns exist, appending more does not change the pie |
| `Derive.CellColor` | frontend/app/components/dashboardOverview.tsx:151 | `COLORS[(i + offset) % 5]` is always an entry of the five-colour palette |
| `Derive.PaletteDistinct` | frontend/app/components/dashboardOverview.tsx:125 | the five palette colours are pairwise different |
| `Derive.PieCellsDistinctColours` | frontend/app/components/dashboardOverview.tsx:150-152 | two cells of one pie never share a colour, for any offset |
| `Metrics.MetricTable` | frontend/app/components/dashboardGrid.tsx:85-120 | the metrics object has exactly the keys cost, clicks, impressions, cpc, each holding the reading of its own key |
| `Metrics.MetricTableTotals` | frontend/app/components/dashboardOverview.tsx:91-95 | the table shows the cost, click and impression totals of the list, and the "0.00" fallback exactly when clicks are not positive |
| `Metrics.MetricRows` | frontend/app/components/dashboardGrid.tsx:157-187 | one row per key in order, each showing `metrics[key]`: the "cost" row shows the cost total, the "clicks" row the click total, the "impressions" row the impression total and the "cpc" row the average guard, all over the given list; distinct keys give distinct rows |
| `Metrics.MetricKeysDistinct` | frontend/app/components/dashboardOverview.tsx:71 | the initial metric order `[cost, clicks, impressions, cpc]` has no duplicates |
| `Metrics.DraggedMetricOrder` | frontend/app/components/dashboardGrid.tsx:144-153 | any run of drops through the grid's metric handler leaves the four keys, each once; this is the order the grid's metrics card would keep were its rows registered |
| `Metrics.MetricLookupNeverMisses` | frontend/app/components/dashboardGrid.tsx:172 | after any run of drops through the grid's handler every key of the order is a key of the metrics table, and each metric is rendered exactly once |
| `Metrics.GridMetricOrder` | frontend/app/components/dashboardGrid.tsx:140-187 | no row of the grid's metrics card is registered as a draggable, so its context reports no drop and the rows stay in the order cost, clicks, impressions, cpc |
| `Metrics.GridRowDropExample` | frontend/app/components/dashboardGrid.tsx:140-187 | dragging "cost" onto "cpc" is not a drop the grid card's context can report; with registered rows it would give `[clicks, impressions, cpc, cost]` |
| `TrendCard.JsRem` | frontend/app/components/dashboardGrid.tsx:214 | JavaScript's `%`: the remainder has the dividend's sign, its magnitude is below the divisor, and dividend minus remainder is a multiple of the divisor |
| `TrendCard.Seed` | frontend/app/components/dashboardGrid.tsx:213 | `c.id * (day.charCodeAt(0) + c.clicks)` is non-negative for a non-negative id and click count, and 0 for id 0 |
| `TrendCard.Variance` | frontend/app/components/dashboardGrid.tsx:213-214 | `(seed % 50) - 25` always lies in [-74, 24] |
| `TrendCard.VarianceBounds` | frontend/app/components/dashboardGrid.tsx:213-214 | for non-negative id and clicks the variance lies in [-25, 24] |
| `TrendCard.FloorOfSeventh` | frontend/app/components/dashboardGrid.tsx:215 | `floor(n / 7 + v)` over the reals equals integer `n / 7 + v`, for integer `v` and any sign of `n` |
| `TrendCard.TrendValue` | frontend/app/components/dashboardGrid.tsx:213-215 | a trend value is `max(0, floor(clicks / 7 + variance))` with real division, and is never negative |
| `TrendCard.TrendValueUsesInitial` | frontend/app/components/dashboardGrid.tsx:213 | two days with the same first character give every campaign the same value |
| `TrendCard.DayPoint` | frontend/app/components/dashboardGrid.tsx:211-216 | a day point has the key "name" plus one key per campaign name; every count is non-negative; the label is the day unless a campaign is named "name" |
| `TrendCard.DayPointCounts` | frontend/app/components/dashboardGrid.tsx:212-216 | under each campaign name sits the value of the last campaign of that name (later writes win) |
| `TrendCard.TrendData` | frontend/app/components/dashboardGrid.tsx:202-218 | exactly seven points, each with the key "name" plus one key per campaign name; under each name the day's value of the last campaign with that name; all counts non-negative; labelled Mon..Sun in order when no campaign is named "name" |
| `TrendCard.SameInitialSamePoint` | frontend/app/components/dashboardGrid.tsx:210-217 | two days with the same initial give points with the same keys and the same counts |
| `TrendCard.RepeatedDays` | frontend/app/components/dashboardGrid.tsx:202-218 | Tue repeats Thu and Sat repeats Sun for every campaign list |
| `TableCard.RenderTable` | frontend/app/components/dashboardGrid.tsx:439-470 | the table renders one row per filtered campaign, and the "No campaigns found." notice exactly when there is none |
| `TableCard.AllShowsEverything` | frontend/app/components/dashboardGrid.tsx:385-388 | under the initial filter "All" every campaign has a row, and the notice shows only for an empty list |
| `TableCard.EmptyNoticeIffNoMatch` | frontend/app/components/dashboardGrid.tsx:466-470 | under a status filter the notice shows exactly when no campaign has that status |
| `DashboardGrid.CardsDistinct` | frontend/app/components/dashboardGrid.tsx:617-622 | the four top-level card ids are distinct |
| `DashboardGrid.InitialGrid` | frontend/app/components/dashboardGrid.tsx:617-623 | the grid mounts with the cards in the order metrics, trend, table, distribution and no drag session |
| `DashboardGrid.OnDrag` | frontend/app/components/dashboardGrid.tsx:701-714 | drag start sets `activeId` to the lifted id without touching the order; end and cancel reset it to null; end commits the grid's drop (`CommitDrop`) to the order; cancel never changes the order; the order stays a permutation |
| `DashboardGrid.Run` | frontend/app/components/dashboardGrid.tsx:698-715 | after any run of drag events the order is a permutation of the starting order, holds only its ids, stays duplicate-free, and any lifted id is one of them |
| `DashboardGrid.Layout` | frontend/app/components/dashboardGrid.tsx:718-761 | one slot per id in order, each rendering the component for its id |
| `DashboardGrid.RenderOverlay` | frontend/app/components/dashboardGrid.tsx:662-694 | no overlay exactly for a null or empty id; otherwise the lifted card's component, in the wide wrapper exactly for trend and table |
| `DashboardGrid.ReachableGrid` | frontend/app/components/dashboardGrid.tsx:698-766 | every reachable grid holds the four cards once each, renders each card component in exactly one slot, and shows an overlay exactly while `activeId` is set |
| `DashboardGrid.CancelRestoresOrder` | frontend/app/components/dashboardGrid.tsx:714 | starting and then cancelling a drag restores the pre-drag order exactly and clears the session |
| `DashboardGrid.DropOnNothingOrSelf` | frontend/app/components/dashboardGrid.tsx:703 | ending a drag with no target or on the lifted card leaves the order unchanged |
| `DashboardGrid.HandleSubmit` | frontend/app/components/dashboardGrid.tsx:637-656 | on success the old list is kept as a prefix, the returned record is appended last, the modal closes and the form resets to `{"", "Active", 0, 0, 0}`; on failure nothing changes |
| `DashboardGrid.SubmitAllAppends` | frontend/app/components/dashboardGrid.tsx:644 | after any run of submits the list is the old list followed by the created records in order; with no success everything is unchanged |
| `DashboardGrid.CreateAddsToTotals` | frontend/app/components/dashboardGrid.tsx:644 | a successful create raises the click and impression totals by exactly the record's counts |
| `DashboardOverview.OverviewDropAsWritten` | frontend/app/components/dashboardOverview.tsx:176-186 | a drop onto the lifted row itself does nothing; a drop onto another row is the grid's single-element move; a drop with no target calls `arrayMove` with target index -1 |
| `DashboardOverview.UntargetedDropReachesArrayMove` | frontend/app/components/dashboardOverview.tsx:177-182 | a drop with no target passes the guard and reaches `arrayMove` with index -1; it is not a no-op |
| `DashboardOverview.UntargetedDropExample` | frontend/app/components/dashboardOverview.tsx:176-186 | releasing "cost" over nothing calls `arrayMove(items, 0, -1)`, where the grid's guard would keep the order |
| `DashboardOverview.CorrectedDropAgrees` | frontend/app/components/dashboardOverview.tsx:176-186 | the grid's guard agrees with the overview's on every targeted drop and keeps the order on an untargeted one |
| `DashboardOverview.LegendMissesClicksPie` | frontend/app/components/dashboardOverview.tsx:272-281 | the single legend swatch `COLORS[i % 5]` is slice `i`'s colour in the "By Cost" pie and never its colour in the "By Clicks" pie |
| `DashboardOverview.OverviewRun` | frontend/app/components/dashboardOverview.tsx:176-186 | a run of overview drops that each land on a row commits exactly what the grid's handler commits over the same run |
| `DashboardOverview.OverviewTargetedRuns` | frontend/app/components/dashboardOverview.tsx:176-190 | after any run of overview drops that each land on a row, the order is the four keys, each once, and every key is found in the metrics table |
| `Page.Mount` | frontend/app/page.tsx:19-20 | the page mounts with no campaigns and the filter "All" |
| `Page.LoadMock` | frontend/app/page.tsx:22-30 | the mount effect replaces the list wholesale with the mock data and keeps the filter |
| `Page.RenderPage` | frontend/app/page.tsx:33-57 | the shown list equals the table card's filter result; totals are over the shown list; the fallback shows exactly when shown clicks are not positive; one row per shown campaign; the notice shows exactly when there is none |
| `Page.AllFilterShowsEverything` | frontend/app/page.tsx:33-35 | "All" shows every campaign and the totals of the whole list |
| `Page.StatusFilterShowsExactly` | frontend/app/page.tsx:33-35 | a status filter shows exactly the campaigns of that status with their multiplicities, in original order |
| `Page.FilteredTotalsSplit` | frontend/app/page.tsx:55-56 | the active view's totals plus the paused view's equal the "All" view's totals |
| `Page.AvgFallbackOverShown` | frontend/app/page.tsx:57 | with non-negative counts the average shows "0.00" exactly when the shown clicks sum to 0 |
| `Page.MockData` | frontend/app/page.tsx:24-29 | the mock set has four campaigns with ids 1..4 and non-negative counts |
| `Page.MockTotals` | frontend/app/page.tsx:24-29 | the mock totals are 2820 clicks and 12500 impressions |
| `Page.MockPausedView` | frontend/app/page.tsx:24-35 | filtering the mock data by "Paused" shows only "Black Friday" |

## Findings

| source | as written | input that shows it | evidently intended | confidence | as-written member | corrected member |
|---|---|---|---|---|---|---|
| frontend/app/components/dashboardOverview.tsx:177-182 | the guard `active.id !== over?.id` passes when `over` is null, so the handler calls `arrayMove(items, indexOf(active), indexOf(undefined))`, i.e. with target index -1 | releasing the "cost" row of `[cost, clicks, impressions, cpc]` while collision detection reports no row under it: `closestCenter` picks the nearest measured row wherever the pointer is, so `over` is null only when it returns nothing, for example before any row has been measured | a drop with no target leaves the order unchanged, as the grid's guard `over && active.id !== over.id` does | medium; not executed | `DashboardOverview.UntargetedDropExample` | `Reorder.CommitDrop` |
| frontend/app/components/dashboardGrid.tsx:157-187 | the grid metrics card's rows are plain `div`s that never call `useSortable`, so its sortable context registers no draggable and its `onDragEnd` (144-153) can never run; a drag started on a row lifts the whole metrics card through `SortableCard`'s listeners (53-67), despite the "Drag to reorder metrics" hint (137) | dragging the "cost" row of the grid's metrics card onto the "cpc" row | each row registers as a sortable item, as the overview's `SortableMetricCard` does, so the drop moves "cost" to the end: `[clicks, impressions, cpc, cost]` | high; not executed | `Metrics.GridRowDropExample` | `Metrics.DraggedMetricOrder` |

The overview's as-written handler is `DashboardOverview.OverviewDropAsWritten`. On drops
that land on a row it commits what the corrected `Reorder.CommitDrop` commits
(`DashboardOverview.OverviewRun`). The grid metrics card as written is
`Metrics.GridMetricOrder`. Its corrected, registered form runs the card's handler through
`Reorder.ApplyDrops`.

## Left out

- Pointer sensors and activation distances (dashboardGrid.tsx:124, 626): library
  internals over pixel geometry. A drag starts when a `DragStart` event arrives.
- `closestCenter` collision detection (dashboardGrid.tsx:143, 700; dashboardOverview.tsx:175):
  float geometry inside dnd-kit. The target `over` is an input of the drop.
- Ignoring a second pointer-down during a drag: done inside dnd-kit before any handler runs.
- `arrayMove` outside `0 <= from, to < |s|`: the library's implementation is not part of
  this model. The overview's untargeted drop is kept as the tagged outcome
  `MoveOutsideDomain`, with no resulting order.
- The randomised trend series (dashboardOverview.tsx:78-89, page.tsx:39-49): they use
  `Math.random()`.
- Floating-point cost arithmetic and all formatting:
  - `totalCost`, the average ratio, `toFixed` and `toLocaleString`;
  - `(totalImpressions / 1000).toFixed(1)`.
  Cost is an exact `real`, and the average is the tagged `ZeroFallback | PerClick`.
- The modal's per-field edits, with `parseFloat`/`parseInt` and NaN-to-zero coercion
  (dashboardGrid.tsx:535-595): string parsing. The form is an input of the submit.
- `axios.post` (dashboardGrid.tsx:640): replaced by the abstract `Outcome` parameter.
  The server's copying of the form into the record is backend behaviour.
- The `GET /campaigns` fetch: not in the files modelled. The page's wholesale replacement
  of the list is modelled by `Page.LoadMock`.
- campaignsSection.tsx: the same submit transition as `handleSubmit`, plus markup.
- navbar.tsx: theme and modal toggle buttons only.
- backend/main.py and backend/seed.py: persistence, CORS, random colours, fake data.
- Presentation: the JSX, class names, chart components, tooltips, the metric badge colour
  classes, and the modal's close button and `isOpen` render guard.
- TrendCard.TrendValue: takes `c.clicks / 7` as exact real division. JavaScript rounds
  the quotient to a double; that this does not change the floor is not proved.
- Derive.Sum and the totals built on it: unbounded integers. JavaScript numbers lose
  integer precision above 2^53.
- TrendCard.Seed: multiplies exactly. The JavaScript product is a double and loses
  integer precision above 2^53.
- Atoms.Status: two-valued, as the front end's type declares. The backend declares the
  field `status: str` (backend/main.py:38, 46), so a third string could arrive. The
  status splits `Derive.TotalsSplitByStatus` and `Page.FilteredTotalsSplit` hold only for
  the two values.
- TrendCard.DayPoint: the key-set ensures treats every campaign name as an ordinary key.
  In JavaScript, assigning to `dayData["__proto__"]` goes to the prototype setter and
  adds no key, so for a campaign named "__proto__" the source's point lacks that key.
