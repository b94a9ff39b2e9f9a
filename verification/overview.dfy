/**
  The `DashboardOverview` component: a second metric-row engine with its own drop
  handler, the same metrics table, and the top-five pie charts.
 */
module DashboardOverview {
  import opened Wrappers
  import opened Atoms
  import opened Sortable
  import opened Reorder
  import opened Metrics
  import opened Derive

  /**
    What the overview's `onDragEnd` leaves in the order state: a move within the
    documented domain of `arrayMove`, no call at all, or a call of `arrayMove` with an
    index outside `[0, |items|)`, whose result this model does not give.
   */
  datatype OverviewCommit =
    | Reordered(order: seq<Id>)
    | Unchanged
    | MoveOutsideDomain(from: int, to: int)

  /**
    The handler as written: `if (active.id !== over?.id)` then
    `arrayMove(items, items.indexOf(active.id), items.indexOf(over?.id))`. With no target
    `over?.id` is `undefined`, the guard passes, and `indexOf(undefined)` is -1.
   */
  function OverviewDropAsWritten(order: seq<Id>, e: DropEvent): (r: OverviewCommit)
    requires ValidDrop(order, e)
    ensures e.over == Some(e.active) ==> r == Unchanged
    ensures Moves(e) ==> r == Reordered(CommitDrop(order, e))
    ensures e.over.None? ==> r == MoveOutsideDomain(IndexOf(order, e.active), -1)
  {
    var overId := e.over;
    if Some(e.active) != overId then
      var from := IndexOf(order, e.active);
      var to := if overId.Some? then IndexOf(order, overId.value) else -1;
      if 0 <= to then Reordered(ArrayMove(order, from, to)) else MoveOutsideDomain(from, to)
    else
      Unchanged
  }

  /**
    A drop outside every metric row is not filtered out by the overview's guard: it
    reaches `arrayMove` with target index -1 instead of leaving the order alone.
   */
  lemma UntargetedDropReachesArrayMove(order: seq<Id>, active: Id)
    requires active in order
    ensures OverviewDropAsWritten(order, DropEvent(active, None)) != Unchanged
    ensures OverviewDropAsWritten(order, DropEvent(active, None)).MoveOutsideDomain?
    ensures OverviewDropAsWritten(order, DropEvent(active, None)).to == -1
  {
  }

  /** The concrete case: "cost" released over nothing in the initial metric order. */
  lemma UntargetedDropExample()
    ensures OverviewDropAsWritten(MetricKeys, DropEvent("cost", None)) == MoveOutsideDomain(0, -1)
    ensures CommitDrop(MetricKeys, DropEvent("cost", None)) == MetricKeys
  {
  }

  /**
    The grid's guard (`over && active.id !== over.id`, `Reorder.CommitDrop`) is the
    evidently intended handler: it agrees with the overview's on every drop that has a
    target and leaves the order unchanged on a drop that has none.
   */
  lemma CorrectedDropAgrees(order: seq<Id>, e: DropEvent)
    requires ValidDrop(order, e)
    ensures e.over.Some? && OverviewDropAsWritten(order, e).Reordered? ==> OverviewDropAsWritten(order, e).order == CommitDrop(order, e)
    ensures e.over.Some? && OverviewDropAsWritten(order, e).Unchanged? ==> CommitDrop(order, e) == order
    ensures e.over.Some? ==> !OverviewDropAsWritten(order, e).MoveOutsideDomain?
    ensures e.over.None? ==> CommitDrop(order, e) == order
  {
  }

  /**
    The single legend colours entry `i` with `COLORS[i % COLORS.length]`: that is the
    colour of slice `i` in the "By Cost" pie (offset 0), and differs from its colour in
    the "By Clicks" pie (offset 2).
   */
  lemma LegendMissesClicksPie(i: nat)
    ensures CellColor(i, 0) == Palette[i % 5]
    ensures CellColor(i, 2) != Palette[i % 5]
  {
    PaletteDistinct();
    assert (i + 2) % 5 != i % 5;
  }

  /** Every drop of the run has a row under it. */
  predicate AllTargeted(es: seq<DropEvent>) {
    forall i :: 0 <= i < |es| ==> es[i].over.Some?
  }

  /**
    The overview's metric order after a run of drops that each land on a row: the
    as-written handler never leaves `arrayMove`'s domain on such drops, and commits
    exactly what the grid's handler commits.
   */
  function OverviewRun(order: seq<Id>, es: seq<DropEvent>): (r: seq<Id>)
    requires AllValid(order, es) && AllTargeted(es)
    ensures r == ApplyDrops(order, es)
    decreases |es|
  {
    if |es| == 0 then order
    else
      var commit := OverviewDropAsWritten(order, es[0]);
      CorrectedDropAgrees(order, es[0]);
      var next := if commit.Reordered? then commit.order else order;
      assert next == CommitDrop(order, es[0]);
      assert forall x :: x in order <==> x in next by {
        assert forall x :: x in order <==> x in multiset(order);
        assert forall x :: x in next <==> x in multiset(next);
      }
      OverviewRun(next, es[1..])
  }

  /**
    However the overview's metric rows are dragged, as long as each drop lands on a row,
    the order is the four keys, each once, and every key is found in the metrics table.
   */
  lemma OverviewTargetedRuns(es: seq<DropEvent>, cs: seq<Campaign>)
    requires AllValid(MetricKeys, es) && AllTargeted(es)
    ensures multiset(OverviewRun(MetricKeys, es)) == multiset(MetricKeys)
    ensures Distinct(OverviewRun(MetricKeys, es))
    ensures forall i :: 0 <= i < |OverviewRun(MetricKeys, es)| ==> OverviewRun(MetricKeys, es)[i] in MetricTable(cs)
  {
    MetricLookupNeverMisses(es, cs);
  }
}
