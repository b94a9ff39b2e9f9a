/**
  The `DashboardGrid` component: the order of the four top-level cards, the transient
  drag session (`activeId`) with its overlay, and the create-campaign submit handler.
 */
module DashboardGrid {
  import opened Wrappers
  import opened Atoms
  import opened Derive
  import opened Sortable
  import opened Reorder

  /** The initial top-level order, which is also the region's fixed id set. */
  const Cards: seq<Id> := ["metrics", "trend", "table", "distribution"]

  lemma CardsDistinct()
    ensures Distinct(Cards)
  {
  }

  /** The component's order state and its drag session. */
  datatype GridState = GridState(order: seq<Id>, activeId: Option<Id>)

  function InitialGrid(): (st: GridState)
    ensures st.order == ["metrics", "trend", "table", "distribution"]
    ensures st.activeId.None?
  {
    GridState(Cards, None)
  }

  /** The three handlers passed to the grid's `DndContext`. */
  datatype DragEvent = DragStart(id: Id) | DragEnd(drop: DropEvent) | DragCancel

  /** dnd-kit reports only ids registered in the region. */
  predicate InRegion(order: seq<Id>, ev: DragEvent) {
    match ev
    case DragStart(id) => id in order
    case DragEnd(drop) => ValidDrop(order, drop)
    case DragCancel => true
  }

  /**
    `onDragStart` records the lifted id; `onDragEnd` commits the drop and clears it;
    `onDragCancel` only clears it.
   */
  function OnDrag(st: GridState, ev: DragEvent): (r: GridState)
    requires InRegion(st.order, ev)
    ensures ev.DragStart? ==> r.activeId == Some(ev.id) && r.order == st.order
    ensures ev.DragEnd? || ev.DragCancel? ==> r.activeId.None?
    ensures ev.DragCancel? ==> r.order == st.order
    ensures ev.DragEnd? ==> r.order == CommitDrop(st.order, ev.drop)
    ensures multiset(r.order) == multiset(st.order)
  {
    match ev
    case DragStart(id) => st.(activeId := Some(id))
    case DragEnd(drop) => GridState(CommitDrop(st.order, drop), None)
    case DragCancel => st.(activeId := None)
  }

  lemma EventKeepsDistinct(st: GridState, ev: DragEvent)
    requires InRegion(st.order, ev)
    ensures Distinct(st.order) ==> Distinct(OnDrag(st, ev).order)
  {
    if ev.DragEnd? {
      DropKeepsDistinct(st.order, ev.drop);
    }
  }

  predicate AllInRegion(order: seq<Id>, evs: seq<DragEvent>) {
    forall i :: 0 <= i < |evs| ==> InRegion(order, evs[i])
  }

  /**
    The grid after a run of drag events: its order is a permutation of the one it started
    from, so from the initial order it is always the four cards, each exactly once, and
    any lifted id is one of them.
   */
  function Run(st: GridState, evs: seq<DragEvent>): (r: GridState)
    requires AllInRegion(st.order, evs)
    ensures multiset(r.order) == multiset(st.order)
    ensures forall i :: 0 <= i < |r.order| ==> r.order[i] in st.order
    ensures Distinct(st.order) ==> Distinct(r.order)
    ensures r.activeId.Some? ==> r.activeId.value in st.order || (|evs| == 0 && r.activeId == st.activeId)
    decreases |evs|
  {
    if |evs| == 0 then st
    else
      var next := OnDrag(st, evs[0]);
      assert forall x :: x in st.order <==> x in next.order by {
        assert forall x :: x in st.order <==> x in multiset(st.order);
        assert forall x :: x in next.order <==> x in multiset(next.order);
      }
      EventKeepsDistinct(st, evs[0]);
      Run(next, evs[1..])
  }

  /** The card component rendered for an id: the grid's `order.map` and the overlay agree on it. */
  datatype CardView = MetricsView | TrendView | TableView | DistributionView

  function ViewOf(id: Id): CardView {
    if id == "metrics" then MetricsView
    else if id == "trend" then TrendView
    else if id == "table" then TableView
    else DistributionView
  }

  /** The grid's rendered slots, in order. */
  function Layout(order: seq<Id>): (views: seq<CardView>)
    ensures |views| == |order|
    ensures forall i :: 0 <= i < |order| ==> views[i] == ViewOf(order[i])
  {
    seq(|order|, i requires 0 <= i < |order| => ViewOf(order[i]))
  }

  /** The floating copy of the lifted card, and whether it uses the wide wrapper. */
  datatype Overlay = Overlay(view: CardView, wide: bool)

  /** `renderOverlay(activeId)`: nothing for a null (or empty) id, else the lifted card. */
  function RenderOverlay(cardId: Option<Id>): (r: Option<Overlay>)
    ensures r.None? <==> cardId.None? || cardId.value == ""
    ensures r.Some? ==> r.value.view == ViewOf(cardId.value)
    ensures r.Some? ==> (r.value.wide <==> cardId.value == "trend" || cardId.value == "table")
  {
    if cardId.None? || cardId.value == "" then None
    else
      var id := cardId.value;
      Some(Overlay(ViewOf(id), id == "trend" || id == "table"))
  }

  /**
    Every state the grid reaches from mount keeps the four cards, each once, renders each
    card component in exactly one slot, and shows an overlay exactly while a drag is active.
   */
  lemma {:induction false} ReachableGrid(evs: seq<DragEvent>)
    requires AllInRegion(Cards, evs)
    ensures multiset(Run(InitialGrid(), evs).order) == multiset(Cards)
    ensures Distinct(Run(InitialGrid(), evs).order)
    ensures Distinct(Layout(Run(InitialGrid(), evs).order))
    ensures RenderOverlay(Run(InitialGrid(), evs).activeId).None? <==> Run(InitialGrid(), evs).activeId.None?
  {
    var init := InitialGrid();
    assert init.order == Cards;
    CardsDistinct();
    var st := Run(init, evs);
    assert Distinct(st.order);
    var views := Layout(st.order);
    forall i, j | 0 <= i < j < |views|
      ensures views[i] != views[j]
    {
      assert st.order[i] in Cards && st.order[j] in Cards;
      ViewOfSeparatesCards(st.order[i], st.order[j]);
    }
  }

  /** Two different cards render different components. */
  lemma ViewOfSeparatesCards(a: Id, b: Id)
    requires a in Cards && b in Cards && a != b
    ensures ViewOf(a) != ViewOf(b)
  {
  }

  /** A cancelled drag restores the order the drag started from, and ends the session. */
  lemma CancelRestoresOrder(st: GridState, id: Id)
    requires id in st.order
    ensures Run(st, [DragStart(id), DragCancel]) == st.(activeId := None)
  {
    var evs := [DragStart(id), DragCancel];
    var lifted := OnDrag(st, DragStart(id));
    assert evs[1..] == [DragCancel] && [DragCancel][1..] == [];
    assert Run(st, evs) == Run(lifted, [DragCancel]);
    assert Run(lifted, [DragCancel]) == Run(OnDrag(lifted, DragCancel), []);
  }

  /** A drag onto nothing or onto the lifted card itself leaves the order as it was. */
  lemma DropOnNothingOrSelf(st: GridState, id: Id, over: Option<Id>)
    requires id in st.order
    requires over.None? || over.value == id
    ensures OnDrag(st, DragEnd(DropEvent(id, over))).order == st.order
  {
  }

  /** The create form: `status` is the string the select holds. */
  datatype Form = Form(name: string, status: string, clicks: int, cost: real, impressions: int)

  /** The form's initial value, and the value it is reset to after a successful create. */
  const EmptyForm: Form := Form("", "Active", 0, 0.0, 0)

  /** The result of `axios.post` on the form: the stored record, or any thrown error. */
  datatype Outcome = Created(record: Campaign) | Failed

  /** The state `handleSubmit` reads and writes. */
  datatype ModalState = ModalState(campaigns: seq<Campaign>, isOpen: bool, form: Form)

  /**
    `handleSubmit`: on success the returned record is appended after every existing
    campaign, the modal closes and the form resets; on failure nothing changes.
   */
  function HandleSubmit(st: ModalState, outcome: Outcome): (r: ModalState)
    ensures outcome.Created? ==> |r.campaigns| == |st.campaigns| + 1
    ensures outcome.Created? ==> r.campaigns[..|st.campaigns|] == st.campaigns
    ensures outcome.Created? ==> r.campaigns[|st.campaigns|] == outcome.record
    ensures outcome.Created? ==> !r.isOpen && r.form == EmptyForm
    ensures outcome.Failed? ==> r == st
  {
    match outcome
    case Created(record) => ModalState(st.campaigns + [record], false, EmptyForm)
    case Failed => st
  }

  /** The records a run of submits stores, in the order they came back. */
  function CreatedRecords(outcomes: seq<Outcome>): (rs: seq<Campaign>)
    ensures |rs| <= |outcomes|
    decreases |outcomes|
  {
    if |outcomes| == 0 then []
    else (if outcomes[0].Created? then [outcomes[0].record] else []) + CreatedRecords(outcomes[1..])
  }

  function SubmitAll(st: ModalState, outcomes: seq<Outcome>): ModalState
    decreases |outcomes|
  {
    if |outcomes| == 0 then st else SubmitAll(HandleSubmit(st, outcomes[0]), outcomes[1..])
  }

  /**
    After any run of submits the list is the original list followed by the created
    records in order: nothing is reordered, edited or lost. A run with no success leaves
    the modal and form untouched.
   */
  lemma {:induction false} SubmitAllAppends(st: ModalState, outcomes: seq<Outcome>)
    ensures SubmitAll(st, outcomes).campaigns == st.campaigns + CreatedRecords(outcomes)
    ensures CreatedRecords(outcomes) == [] ==> SubmitAll(st, outcomes) == st
    decreases |outcomes|
  {
    if |outcomes| > 0 {
      var next := HandleSubmit(st, outcomes[0]);
      SubmitAllAppends(next, outcomes[1..]);
      if outcomes[0].Created? {
        assert st.campaigns + CreatedRecords(outcomes)
          == (st.campaigns + [outcomes[0].record]) + CreatedRecords(outcomes[1..]);
      } else {
        assert CreatedRecords(outcomes) == CreatedRecords(outcomes[1..]);
      }
    }
  }

  /** A successful create adds the record's clicks and impressions to the totals. */
  lemma CreateAddsToTotals(st: ModalState, record: Campaign)
    ensures TotalClicks(HandleSubmit(st, Created(record)).campaigns) == TotalClicks(st.campaigns) + record.clicks
    ensures TotalImpressions(HandleSubmit(st, Created(record)).campaigns) == TotalImpressions(st.campaigns) + record.impressions
  {
    SumConcat(st.campaigns, [record], Clicks);
    SumConcat(st.campaigns, [record], Impressions);
  }
}
