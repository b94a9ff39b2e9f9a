/**
  The stand-alone `Dashboard` page: mock campaigns loaded on mount, a status filter, the
  totals over the filtered list, and the table with its empty-state notice.
 */
module Page {
  import opened Atoms
  import opened Derive
  import TableCard

  datatype PageState = PageState(campaigns: seq<Campaign>, filter: string)

  /** The four mock campaigns the mount effect loads. */
  const MockCampaigns: seq<Campaign> := [
    Campaign(1, "Summer Sale", Active, 1250, 450.0, 1000, "#2563eb"),
    Campaign(2, "Black Friday", Paused, 320, 89.5, 2500, "#94a3b8"),
    Campaign(3, "Influencer", Active, 800, 210.2, 5600, "#16a34a"),
    Campaign(4, "Retargeting", Active, 450, 125.0, 3400, "#d97706")
  ]

  /** The state before the mount effect: no campaigns, filter "All". */
  function Mount(): (st: PageState)
    ensures |st.campaigns| == 0 && st.filter == "All"
  {
    PageState([], "All")
  }

  /** The mount effect replaces the list wholesale with the mock data. */
  function LoadMock(st: PageState): (r: PageState)
    ensures r.campaigns == MockCampaigns && r.filter == st.filter
  {
    st.(campaigns := MockCampaigns)
  }

  /** What the page derives from its state. */
  datatype PageView = PageView(
    shown: seq<Campaign>,
    totalClicks: int,
    totalImpressions: int,
    totalCost: real,
    avg: AvgCpc,
    rows: seq<Campaign>,
    emptyNotice: bool)

  /**
    The filtered list is the same one the grid's table card computes; every figure is
    taken over it, not over the full list; the table has one row per shown campaign and
    the notice shows exactly when there is none.
   */
  function RenderPage(st: PageState): (v: PageView)
    ensures v.shown == TableCard.RenderTable(st.campaigns, st.filter).rows
    ensures v.totalClicks == TotalClicks(v.shown) && v.totalImpressions == TotalImpressions(v.shown)
    ensures v.avg.ZeroFallback? <==> v.totalClicks <= 0
    ensures v.rows == v.shown
    ensures v.emptyNotice <==> |v.rows| == 0
  {
    var shown := PageFilter(st.campaigns, st.filter);
    FiltersAgree(st.campaigns, st.filter);
    PageView(shown, TotalClicks(shown), TotalImpressions(shown), TotalCost(shown), AvgCost(shown), shown, |shown| == 0)
  }

  /** Under "All" the page shows every campaign and its totals are the list's totals. */
  lemma AllFilterShowsEverything(cs: seq<Campaign>)
    ensures RenderPage(PageState(cs, "All")).shown == cs
    ensures RenderPage(PageState(cs, "All")).totalClicks == TotalClicks(cs)
  {
  }

  /** Under a status filter the page shows exactly the campaigns of that status, in order. */
  lemma StatusFilterShowsExactly(cs: seq<Campaign>, more: seq<Campaign>, s: Status)
    ensures forall c :: multiset(RenderPage(PageState(cs, StatusName(s))).shown)[c] == (if c.status == s then multiset(cs)[c] else 0)
    ensures RenderPage(PageState(cs + more, StatusName(s))).shown
         == RenderPage(PageState(cs, StatusName(s))).shown + RenderPage(PageState(more, StatusName(s))).shown
  {
    StatusFilterExact(cs, more, s);
  }

  /** The active and the paused views split the clicks and impressions of the "All" view. */
  lemma FilteredTotalsSplit(cs: seq<Campaign>)
    ensures RenderPage(PageState(cs, "Active")).totalClicks + RenderPage(PageState(cs, "Paused")).totalClicks
         == RenderPage(PageState(cs, "All")).totalClicks
    ensures RenderPage(PageState(cs, "Active")).totalImpressions + RenderPage(PageState(cs, "Paused")).totalImpressions
         == RenderPage(PageState(cs, "All")).totalImpressions
  {
    TotalsSplitByStatus(cs);
  }

  /** With non-negative counts the average shows "0.00" exactly when the shown clicks sum to zero. */
  lemma AvgFallbackOverShown(st: PageState)
    requires NonNegativeCounts(st.campaigns)
    ensures RenderPage(st).avg.ZeroFallback? <==> RenderPage(st).totalClicks == 0
  {
    var shown := RenderPage(st).shown;
    forall i | 0 <= i < |shown|
      ensures shown[i].clicks >= 0 && shown[i].impressions >= 0
    {
      assert shown[i] in multiset(shown);
      assert shown[i] in multiset(st.campaigns);
    }
    AvgFallbackIffNoClicks(shown);
  }

  /** The mock data: four campaigns with ids 1 to 4 and non-negative counts. */
  lemma MockData()
    ensures |MockCampaigns| == 4
    ensures forall i :: 0 <= i < 4 ==> MockCampaigns[i].id == i + 1
    ensures NonNegativeCounts(MockCampaigns)
  {
  }

  /** Its totals over all four campaigns. */
  lemma MockTotals()
    ensures TotalClicks(MockCampaigns) == 2820 && TotalImpressions(MockCampaigns) == 12500
  {
  }

  /** The paused filter shows only "Black Friday". */
  lemma MockPausedView()
    ensures RenderPage(PageState(MockCampaigns, "Paused")).shown == [MockCampaigns[1]]
  {
    var m := MockCampaigns;
    assert m == [m[0]] + ([m[1]] + ([m[2]] + [m[3]]));
    StatusFilterExact([m[0]], [m[1]] + ([m[2]] + [m[3]]), Paused);
    StatusFilterExact([m[1]], [m[2]] + [m[3]], Paused);
    StatusFilterExact([m[2]], [m[3]], Paused);
  }
}
