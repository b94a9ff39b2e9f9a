/**
  Pure derivations over the campaign list that the dashboard views share: the
  status filter, the integer totals, the average-cost-per-click guard and the
  pie-chart projection with its palette indexing.
 */
module Derive {
  import opened Atoms

  /** `Array.prototype.filter`: the elements satisfying `p`, in their original order. */
  function Filter<T(!new)>(s: seq<T>, p: T -> bool): (r: seq<T>)
    ensures |r| <= |s|
    ensures forall i :: 0 <= i < |r| ==> p(r[i])
    ensures forall x :: multiset(r)[x] == (if p(x) then multiset(s)[x] else 0)
    decreases |s|
  {
    if |s| == 0 then []
    else
      var tail := Filter(s[1..], p);
      assert s == [s[0]] + s[1..];
      if p(s[0]) then [s[0]] + tail else tail
  }

  /** Filtering a concatenation filters each part: the kept elements stay in order. */
  lemma {:induction false} FilterConcat<T(!new)>(a: seq<T>, b: seq<T>, p: T -> bool)
    ensures Filter(a + b, p) == Filter(a, p) + Filter(b, p)
    decreases |a|
  {
    if |a| == 0 {
      assert a + b == b;
    } else {
      assert (a + b)[1..] == a[1..] + b;
      FilterConcat(a[1..], b, p);
    }
  }

  /** A filter that every element passes returns its input unchanged. */
  lemma {:induction false} FilterKeepsAll<T(!new)>(s: seq<T>, p: T -> bool)
    requires forall i :: 0 <= i < |s| ==> p(s[i])
    ensures Filter(s, p) == s
    decreases |s|
  {
    if |s| > 0 {
      FilterKeepsAll(s[1..], p);
      assert s == [s[0]] + s[1..];
    }
  }

  /** Two filters that agree on every element give the same result. */
  lemma {:induction false} FilterExtensional<T(!new)>(s: seq<T>, p: T -> bool, q: T -> bool)
    requires forall i :: 0 <= i < |s| ==> p(s[i]) == q(s[i])
    ensures Filter(s, p) == Filter(s, q)
    decreases |s|
  {
    if |s| > 0 {
      FilterExtensional(s[1..], p, q);
    }
  }

  /** Does the campaign have the status named by the filter string (`c.status === filter`)? */
  predicate HasStatus(filter: string, c: Campaign) {
    StatusName(c.status) == filter
  }

  /** `filter === "All" ? campaigns : campaigns.filter((c) => c.status === filter)` */
  function TableFilter(cs: seq<Campaign>, filter: string): (r: seq<Campaign>)
    ensures filter == "All" ==> r == cs
    ensures filter != "All" ==> forall c :: c in r <==> c in cs && HasStatus(filter, c)
  {
    if filter == "All" then cs
    else
      var r := Filter(cs, c => HasStatus(filter, c));
      assert forall c :: c in r <==> c in multiset(r);
      r
  }

  /** `campaigns.filter((c) => filter === "All" ? true : c.status === filter)` */
  function PageFilter(cs: seq<Campaign>, filter: string): (r: seq<Campaign>)
    ensures forall i :: 0 <= i < |r| ==> filter == "All" || HasStatus(filter, r[i])
  {
    Filter(cs, c => filter == "All" || HasStatus(filter, c))
  }

  /** The two spellings of the status filter select the same campaigns in the same order. */
  lemma FiltersAgree(cs: seq<Campaign>, filter: string)
    ensures PageFilter(cs, filter) == TableFilter(cs, filter)
  {
    if filter == "All" {
      FilterKeepsAll(cs, c => filter == "All" || HasStatus(filter, c));
    } else {
      FilterExtensional(cs, c => filter == "All" || HasStatus(filter, c), c => HasStatus(filter, c));
    }
  }

  /**
    The status filter keeps exactly the campaigns whose status the filter names, each as
    often as it occurs, and filtering a list made of two parts filters each part in turn.
   */
  lemma StatusFilterExact(cs: seq<Campaign>, more: seq<Campaign>, s: Status)
    ensures forall c :: multiset(TableFilter(cs, StatusName(s)))[c] == (if c.status == s then multiset(cs)[c] else 0)
    ensures TableFilter(cs + more, StatusName(s)) == TableFilter(cs, StatusName(s)) + TableFilter(more, StatusName(s))
  {
    FilterConcat(cs, more, c => HasStatus(StatusName(s), c));
    forall c
      ensures HasStatus(StatusName(s), c) <==> c.status == s
    {
      StatusNameInjective(c.status, s);
    }
  }

  /** A filter string that names no status keeps nothing. */
  lemma UnknownFilterKeepsNothing(cs: seq<Campaign>, filter: string)
    requires filter != "All" && ParseStatus(filter).None?
    ensures TableFilter(cs, filter) == []
  {
  }

  /** `reduce((acc, c) => acc + f(c), 0)` over integer fields. */
  function Sum(cs: seq<Campaign>, f: Campaign -> int): (s: int)
    ensures |cs| == 0 ==> s == 0
    ensures |cs| == 1 ==> s == f(cs[0])
    decreases |cs|
  {
    if |cs| == 0 then 0 else f(cs[0]) + Sum(cs[1..], f)
  }

  lemma {:induction false} SumConcat(a: seq<Campaign>, b: seq<Campaign>, f: Campaign -> int)
    ensures Sum(a + b, f) == Sum(a, f) + Sum(b, f)
    decreases |a|
  {
    if |a| == 0 {
      assert a + b == b;
    } else {
      assert (a + b)[1..] == a[1..] + b;
      SumConcat(a[1..], b, f);
    }
  }

  /**
    The step of the left-to-right `reduce`: the total of a list with one more campaign at
    the end is the old total plus that campaign's field.
   */
  lemma SumSnoc(cs: seq<Campaign>, c: Campaign, f: Campaign -> int)
    ensures Sum(cs + [c], f) == Sum(cs, f) + f(c)
  {
    SumConcat(cs, [c], f);
  }

  /** Reduce over non-negative fields: the total is non-negative and zero only when every field is. */
  lemma {:induction false} SumNonNegative(cs: seq<Campaign>, f: Campaign -> int)
    requires forall i :: 0 <= i < |cs| ==> f(cs[i]) >= 0
    ensures Sum(cs, f) >= 0
    ensures Sum(cs, f) == 0 <==> forall i :: 0 <= i < |cs| ==> f(cs[i]) == 0
    decreases |cs|
  {
    if |cs| > 0 {
      SumNonNegative(cs[1..], f);
      assert forall i :: 1 <= i < |cs| ==> cs[1..][i - 1] == cs[i];
    }
  }

  function Clicks(c: Campaign): int { c.clicks }

  function Impressions(c: Campaign): int { c.impressions }

  /** The click total; it is never negative when no campaign has a negative count. */
  function TotalClicks(cs: seq<Campaign>): (t: int)
    ensures |cs| == 0 ==> t == 0
    ensures NonNegativeCounts(cs) ==> t >= 0
  {
    CountTotalsNonNegative(cs);
    Sum(cs, Clicks)
  }

  /** The impression total; it is never negative when no campaign has a negative count. */
  function TotalImpressions(cs: seq<Campaign>): (t: int)
    ensures |cs| == 0 ==> t == 0
    ensures NonNegativeCounts(cs) ==> t >= 0
  {
    CountTotalsNonNegative(cs);
    Sum(cs, Impressions)
  }

  lemma CountTotalsNonNegative(cs: seq<Campaign>)
    ensures NonNegativeCounts(cs) ==> Sum(cs, Clicks) >= 0 && Sum(cs, Impressions) >= 0
  {
    if NonNegativeCounts(cs) {
      SumNonNegative(cs, Clicks);
      SumNonNegative(cs, Impressions);
    }
  }

  /**
    The sum of `cost` as an exact real. The source adds JavaScript doubles, so its total
    can differ from this one by rounding.
   */
  function TotalCost(cs: seq<Campaign>): (t: real)
    ensures |cs| == 0 ==> t == 0.0
    ensures (forall i :: 0 <= i < |cs| ==> cs[i].cost >= 0.0) ==> t >= 0.0
    decreases |cs|
  {
    if |cs| == 0 then 0.0 else cs[0].cost + TotalCost(cs[1..])
  }

  /**
    The totals of a list are the totals of its active campaigns plus those of its paused
    campaigns: the filtered totals split the unfiltered one.
   */
  lemma {:induction false} TotalsSplitByStatus(cs: seq<Campaign>)
    ensures TotalClicks(TableFilter(cs, "Active")) + TotalClicks(TableFilter(cs, "Paused")) == TotalClicks(cs)
    ensures TotalImpressions(TableFilter(cs, "Active")) + TotalImpressions(TableFilter(cs, "Paused")) == TotalImpressions(cs)
    decreases |cs|
  {
    if |cs| > 0 {
      var c, rest := cs[0], cs[1..];
      TotalsSplitByStatus(rest);
      var active, paused := TableFilter(cs, "Active"), TableFilter(cs, "Paused");
      var active', paused' := TableFilter(rest, "Active"), TableFilter(rest, "Paused");
      if c.status == Active {
        assert active == [c] + active';
        assert paused == paused';
        assert ([c] + active')[1..] == active';
      } else {
        assert active == active';
        assert paused == [c] + paused';
        assert ([c] + paused')[1..] == paused';
      }
    }
  }

  /**
    The average cost per click as the views show it: the fallback text "0.00" unless the
    click total is positive, else the ratio of the two totals (formatted with two
    decimals in floating point, which is not modelled).
   */
  datatype AvgCpc = ZeroFallback | PerClick(totalCost: real, totalClicks: int)

  /** `totalClicks > 0 ? (totalCost / totalClicks).toFixed(2) : "0.00"` */
  function AvgCost(cs: seq<Campaign>): (a: AvgCpc)
    ensures a.ZeroFallback? <==> TotalClicks(cs) <= 0
    ensures a.PerClick? ==> a.totalClicks > 0 && a.totalClicks == TotalClicks(cs) && a.totalCost == TotalCost(cs)
  {
    var clicks := TotalClicks(cs);
    if clicks > 0 then PerClick(TotalCost(cs), clicks) else ZeroFallback
  }

  predicate NonNegativeCounts(cs: seq<Campaign>) {
    forall i :: 0 <= i < |cs| ==> cs[i].clicks >= 0 && cs[i].impressions >= 0
  }

  /**
    With non-negative click counts the fallback shows exactly when the click total is
    zero, that is when no campaign has a click (in particular for an empty list).
   */
  lemma AvgFallbackIffNoClicks(cs: seq<Campaign>)
    requires NonNegativeCounts(cs)
    ensures AvgCost(cs).ZeroFallback? <==> TotalClicks(cs) == 0
    ensures AvgCost(cs).ZeroFallback? <==> forall i :: 0 <= i < |cs| ==> cs[i].clicks == 0
  {
    SumNonNegative(cs, Clicks);
  }

  /** One slice of the pie charts: `{ name, cost, clicks }`. */
  datatype PieSlice = PieSlice(name: string, cost: real, clicks: int)

  const PieLimit: nat := 5

  /** The five-colour palette `COLORS`. */
  const Palette: seq<string> := ["#3b82f6", "#10b981", "#f59e0b", "#ef4444", "#8b5cf6"]

  function Slice(c: Campaign): PieSlice {
    PieSlice(c.name, c.cost, c.clicks)
  }

  function MapSlices(cs: seq<Campaign>): (r: seq<PieSlice>)
    ensures |r| == |cs|
    ensures forall i :: 0 <= i < |cs| ==> r[i] == Slice(cs[i])
    decreases |cs|
  {
    if |cs| == 0 then [] else [Slice(cs[0])] + MapSlices(cs[1..])
  }

  /** `campaigns.slice(0, 5).map((c) => ({ name, cost, clicks }))` */
  function PieData(cs: seq<Campaign>): (r: seq<PieSlice>)
    ensures |r| == if |cs| < PieLimit then |cs| else PieLimit
    ensures forall i :: 0 <= i < |r| ==> r[i] == PieSlice(cs[i].name, cs[i].cost, cs[i].clicks)
  {
    MapSlices(if |cs| < PieLimit then cs else cs[..PieLimit])
  }

  /** Once five campaigns exist, appending more never changes the pie. */
  lemma PieIgnoresLaterCampaigns(cs: seq<Campaign>, more: seq<Campaign>)
    requires |cs| >= PieLimit
    ensures PieData(cs + more) == PieData(cs)
  {
  }

  /** `COLORS[(i + colorOffset) % COLORS.length]`, for a cell index and a non-negative offset. */
  function CellColor(i: nat, offset: nat): (color: string)
    ensures color in Palette
  {
    Palette[(i + offset) % |Palette|]
  }

  /** The palette's colours are pairwise different. */
  lemma PaletteDistinct()
    ensures forall i, j :: 0 <= i < j < |Palette| ==> Palette[i] != Palette[j]
  {
  }

  /**
    With at most five slices and five distinct colours, the cells of one pie never share
    a colour, whatever the offset.
   */
  lemma PieCellsDistinctColours(cs: seq<Campaign>, offset: nat, i: nat, j: nat)
    requires i < j < |PieData(cs)|
    ensures CellColor(i, offset) != CellColor(j, offset)
  {
    PaletteDistinct();
    var a := (i + offset) % 5;
    var b := (j + offset) % 5;
    assert 0 < j - i < 5;
  }
}
