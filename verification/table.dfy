/** The grid's table card: its own status filter and the empty-state notice. */
module TableCard {
  import opened Atoms
  import opened Derive

  /** What the card renders: one row per shown campaign, and the notice when there is none. */
  datatype RenderedTable = RenderedTable(rows: seq<Campaign>, emptyNotice: bool)

  /** The filter starts at "All". */
  const InitialFilter: string := "All"

  function RenderTable(cs: seq<Campaign>, filter: string): (v: RenderedTable)
    ensures v.rows == TableFilter(cs, filter)
    ensures v.emptyNotice <==> |v.rows| == 0
  {
    var shown := TableFilter(cs, filter);
    RenderedTable(shown, |shown| == 0)
  }

  /** Under "All" every campaign has a row, so the notice shows only for an empty list. */
  lemma AllShowsEverything(cs: seq<Campaign>)
    ensures RenderTable(cs, InitialFilter).rows == cs
    ensures RenderTable(cs, InitialFilter).emptyNotice <==> |cs| == 0
  {
  }

  /** Under a status filter the notice shows exactly when no campaign has that status. */
  lemma EmptyNoticeIffNoMatch(cs: seq<Campaign>, s: Status)
    ensures RenderTable(cs, StatusName(s)).emptyNotice <==> forall i :: 0 <= i < |cs| ==> cs[i].status != s
  {
    var rows := RenderTable(cs, StatusName(s)).rows;
    StatusFilterExact(cs, [], s);
    if exists i :: 0 <= i < |cs| && cs[i].status == s {
      var i :| 0 <= i < |cs| && cs[i].status == s;
      assert cs[i] in multiset(cs);
      assert cs[i] in multiset(rows);
    }
  }
}
