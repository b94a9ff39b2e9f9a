/**
  The key-metrics table that the metrics card of the grid and the overview both build
  from the campaign list, and the rows rendered from a metric order by looking each
  key up in that table.
 */
module Metrics {
  import opened Wrappers
  import opened Atoms
  import opened Derive
  import opened Sortable
  import opened Reorder

  /** The initial order of the metric rows, which is also the key set of the table. */
  const MetricKeys: seq<Id> := ["cost", "clicks", "impressions", "cpc"]

  /** What a metric row shows; float formatting (`toFixed`, `toLocaleString`) is not modelled. */
  datatype Reading =
    | CostTotal(cost: real)
    | ClickTotal(clicks: int)
    | ImpressionTotal(impressions: int)
    | Cpc(avg: AvgCpc)

  datatype Metric = Metric(title: string, reading: Reading, trend: string)

  /** The table key a reading belongs under. */
  function KeyOf(r: Reading): Id {
    match r
    case CostTotal(_) => "cost"
    case ClickTotal(_) => "clicks"
    case ImpressionTotal(_) => "impressions"
    case Cpc(_) => "cpc"
  }

  /**
    The `metrics` object: one entry per key, each holding the reading of that key, with
    the click and impression totals and the average-cost guard over the whole list.
   */
  function MetricTable(cs: seq<Campaign>): (m: map<Id, Metric>)
    ensures forall k :: k in m <==> k in MetricKeys
    ensures forall k :: k in m ==> KeyOf(m[k].reading) == k
  {
    map[
      "cost" := Metric("Total Cost", CostTotal(TotalCost(cs)), "+2.5%"),
      "clicks" := Metric("Total Clicks", ClickTotal(TotalClicks(cs)), "↗ 12%"),
      "impressions" := Metric("Impressions", ImpressionTotal(TotalImpressions(cs)), "- 5%"),
      "cpc" := Metric("Avg CPC", Cpc(AvgCost(cs)), "~ 0%")
    ]
  }

  /** The totals the table shows are those of the list it was built from. */
  lemma MetricTableTotals(cs: seq<Campaign>)
    ensures MetricTable(cs)["cost"].reading.cost == TotalCost(cs)
    ensures MetricTable(cs)["clicks"].reading.clicks == TotalClicks(cs)
    ensures MetricTable(cs)["impressions"].reading.impressions == TotalImpressions(cs)
    ensures MetricTable(cs)["cpc"].reading.avg.ZeroFallback? <==> TotalClicks(cs) <= 0
  {
  }

  /** `order.map((key) => metrics[key])`: each row shows the metric of its key. */
  function MetricRows(order: seq<Id>, cs: seq<Campaign>): (rows: seq<Metric>)
    requires forall i :: 0 <= i < |order| ==> order[i] in MetricKeys
    ensures |rows| == |order|
    ensures forall i :: 0 <= i < |order| ==> KeyOf(rows[i].reading) == order[i]
    ensures Distinct(order) ==> Distinct(rows)
    ensures forall i :: 0 <= i < |order| && order[i] == "cost" ==> rows[i].reading == CostTotal(TotalCost(cs))
    ensures forall i :: 0 <= i < |order| && order[i] == "clicks" ==> rows[i].reading == ClickTotal(TotalClicks(cs))
    ensures forall i :: 0 <= i < |order| && order[i] == "impressions" ==> rows[i].reading == ImpressionTotal(TotalImpressions(cs))
    ensures forall i :: 0 <= i < |order| && order[i] == "cpc" ==> rows[i].reading == Cpc(AvgCost(cs))
  {
    var table := MetricTable(cs);
    var rows := seq(|order|, i requires 0 <= i < |order| => table[order[i]]);
    assert table["cost"].reading == CostTotal(TotalCost(cs));
    assert table["clicks"].reading == ClickTotal(TotalClicks(cs));
    assert table["impressions"].reading == ImpressionTotal(TotalImpressions(cs));
    assert table["cpc"].reading == Cpc(AvgCost(cs));
    assert forall i :: 0 <= i < |order| ==> rows[i] == table[order[i]];
    assert forall i, j :: 0 <= i < j < |rows| && rows[i] == rows[j] ==> order[i] == order[j] by {
      forall i, j | 0 <= i < j < |rows| && rows[i] == rows[j]
        ensures order[i] == order[j]
      {
        assert KeyOf(rows[i].reading) == order[i];
        assert KeyOf(rows[j].reading) == order[j];
      }
    }
    rows
  }

  lemma MetricKeysDistinct()
    ensures Distinct(MetricKeys)
  {
  }

  /**
    A metric order dragged through the grid's handler is still the four keys, each once.
    This is the order the grid's metrics card would keep were its rows registered, and
    the overview's order under drops that land on a row.
   */
  lemma DraggedMetricOrder(es: seq<DropEvent>)
    requires AllValid(MetricKeys, es)
    ensures |ApplyDrops(MetricKeys, es)| == 4
    ensures Distinct(ApplyDrops(MetricKeys, es))
    ensures forall i :: 0 <= i < |ApplyDrops(MetricKeys, es)| ==> ApplyDrops(MetricKeys, es)[i] in MetricKeys
  {
    MetricKeysDistinct();
    var order := ApplyDrops(MetricKeys, es);
    assert |order| == 4 by {
      assert |multiset(order)| == |multiset(MetricKeys)|;
    }
    forall i | 0 <= i < |order|
      ensures order[i] in MetricKeys
    {
      ApplyDropsKeepsIds(MetricKeys, es, order[i]);
    }
  }

  /**
    However a metric order has been dragged through the grid's handler, every key of it is
    a key of the table, so the lookup never misses, and each metric is shown exactly once.
   */
  lemma {:induction false} MetricLookupNeverMisses(es: seq<DropEvent>, cs: seq<Campaign>)
    requires AllValid(MetricKeys, es)
    ensures forall i :: 0 <= i < |ApplyDrops(MetricKeys, es)| ==> ApplyDrops(MetricKeys, es)[i] in MetricTable(cs)
    ensures |MetricRows(ApplyDrops(MetricKeys, es), cs)| == 4
    ensures Distinct(MetricRows(ApplyDrops(MetricKeys, es), cs))
  {
    DraggedMetricOrder(es);
    LookupCoversKeys(ApplyDrops(MetricKeys, es), cs);
  }

  lemma LookupCoversKeys(order: seq<Id>, cs: seq<Campaign>)
    requires forall i :: 0 <= i < |order| ==> order[i] in MetricKeys
    ensures forall i :: 0 <= i < |order| ==> order[i] in MetricTable(cs)
  {
  }

  /**
    The draggables registered in the sortable context of the grid's metrics card. Its rows
    are plain elements that never call `useSortable`, so there are none.
   */
  const GridMetricDraggables: seq<Id> := []

  /**
    The grid metrics card's order after the drops its context reports. dnd-kit reports a
    drop only for a registered draggable, so it reports none, the card's `onDragEnd` never
    runs, and the rows keep their initial order.
   */
  function GridMetricOrder(es: seq<DropEvent>): (r: seq<Id>)
    requires AllValid(GridMetricDraggables, es)
    ensures r == MetricKeys
    ensures |es| == 0
  {
    assert |es| > 0 ==> !ValidDrop(GridMetricDraggables, es[0]);
    ApplyDrops(MetricKeys, es)
  }

  /**
    Dragging the "cost" row onto the "cpc" row of the grid's metrics card: the context
    cannot report that drop, whereas rows registered in it would move "cost" to the end.
   */
  lemma GridRowDropExample()
    ensures !ValidDrop(GridMetricDraggables, DropEvent("cost", Some("cpc")))
    ensures ValidDrop(MetricKeys, DropEvent("cost", Some("cpc")))
    ensures CommitDrop(MetricKeys, DropEvent("cost", Some("cpc"))) == ["clicks", "impressions", "cpc", "cost"]
  {
    var s := MetricKeys;
    assert IndexOf(s, "cost") == 0;
    assert IndexOf(s, "cpc") == 3 by {
      assert s[0] != "cpc" && s[1] != "cpc" && s[2] != "cpc" && s[3] == "cpc";
    }
    assert ArrayMove(s, 0, 3) == ["clicks", "impressions", "cpc", "cost"] by {
      assert s[..0] + s[1..] == ["clicks", "impressions", "cpc"];
    }
  }
}
