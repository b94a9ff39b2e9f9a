/**
  The drop handler of the dashboard grid's sortable regions: the top-level cards, and
  the metrics card, whose context carries the same handler but registers no row. A drop
  carries the id of the lifted card and the id of the card under it, if any; dnd-kit
  only reports ids registered in the region's sortable context, which is what
  `ValidDrop` states.
 */
module Reorder {
  import opened Wrappers
  import opened Sortable

  type Id = string

  /** The `{ active, over }` payload of `onDragEnd`. */
  datatype DropEvent = DropEvent(active: Id, over: Option<Id>)

  predicate ValidDrop(order: seq<Id>, e: DropEvent) {
    e.active in order && (e.over.Some? ==> e.over.value in order)
  }

  /** The drop is a real move: a target exists and it is not the lifted card. */
  predicate Moves(e: DropEvent) {
    e.over.Some? && e.over.value != e.active
  }

  /**
    The order committed by `onDragEnd`: when a target exists and differs from the
    lifted card, the lifted card is moved to the target's index; otherwise nothing changes.
   */
  function CommitDrop(order: seq<Id>, e: DropEvent): (r: seq<Id>)
    requires ValidDrop(order, e)
    ensures |r| == |order|
    ensures multiset(r) == multiset(order)
    ensures !Moves(e) ==> r == order
    ensures Moves(e) ==> r[IndexOf(order, e.over.value)] == e.active
  {
    if e.over.Some? && e.active != e.over.value then
      var from := IndexOf(order, e.active);
      var to := IndexOf(order, e.over.value);
      ArrayMovePermutes(order, from, to);
      ArrayMove(order, from, to)
    else
      order
  }

  /**
    In a region of distinct ids a committed drop is a single-element move: the lifted
    id lands at the target's former index and every other id keeps its relative order.
   */
  lemma DropIsSingleMove(order: seq<Id>, e: DropEvent)
    requires ValidDrop(order, e) && Distinct(order) && Moves(e)
    ensures Distinct(CommitDrop(order, e))
    ensures CommitDrop(order, e)[IndexOf(order, e.over.value)] == e.active
    ensures Without(CommitDrop(order, e), e.active) == Without(order, e.active)
  {
    var from := IndexOf(order, e.active);
    var to := IndexOf(order, e.over.value);
    ArrayMoveKeepsDistinct(order, from, to);
    ArrayMoveKeepsOthersInOrder(order, from, to);
  }

  lemma DropKeepsDistinct(order: seq<Id>, e: DropEvent)
    requires ValidDrop(order, e)
    ensures Distinct(order) ==> Distinct(CommitDrop(order, e))
  {
    if Moves(e) && Distinct(order) {
      DropIsSingleMove(order, e);
    }
  }

  /** Dropping a card back onto itself, or onto nothing, is a no-op. */
  lemma DropWithoutTargetIsNoOp(order: seq<Id>, active: Id)
    requires active in order
    ensures CommitDrop(order, DropEvent(active, None)) == order
    ensures CommitDrop(order, DropEvent(active, Some(active))) == order
  {
  }

  /** A run of drops applied one after the other. */
  predicate AllValid(order: seq<Id>, es: seq<DropEvent>) {
    forall i :: 0 <= i < |es| ==> ValidDrop(order, es[i])
  }

  /**
    Every reachable order of a region is a permutation of where it started, so a region
    started from a distinct set of ids keeps exactly that set, each id once.
   */
  function ApplyDrops(order: seq<Id>, es: seq<DropEvent>): (r: seq<Id>)
    requires AllValid(order, es)
    ensures multiset(r) == multiset(order)
    ensures forall i :: 0 <= i < |r| ==> r[i] in order
    ensures Distinct(order) ==> Distinct(r)
    decreases |es|
  {
    if |es| == 0 then order
    else
      var next := CommitDrop(order, es[0]);
      assert forall x :: x in order <==> x in next by {
        assert forall x :: x in order <==> x in multiset(order);
        assert forall x :: x in next <==> x in multiset(next);
      }
      DropKeepsDistinct(order, es[0]);
      ApplyDrops(next, es[1..])
  }

  /** The same id set, seen as a set: nothing is added to or lost from a region. */
  lemma ApplyDropsKeepsIds(order: seq<Id>, es: seq<DropEvent>, x: Id)
    requires AllValid(order, es)
    ensures x in ApplyDrops(order, es) <==> x in order
  {
    var r := ApplyDrops(order, es);
    assert x in r <==> x in multiset(r);
    assert x in order <==> x in multiset(order);
  }

  /** Concrete check of the move semantics: A dropped on C in [A,B,C,D] gives [B,C,A,D]. */
  lemma MoveForwardExample()
    ensures CommitDrop(["A", "B", "C", "D"], DropEvent("A", Some("C"))) == ["B", "C", "A", "D"]
  {
    var s: seq<Id> := ["A", "B", "C", "D"];
    assert IndexOf(s, "A") == 0;
    assert IndexOf(s, "C") == 2 by {
      assert s[0] != "C" && s[1] != "C" && s[2] == "C";
    }
    assert ArrayMove(s, 0, 2) == ["B", "C", "A", "D"] by {
      assert s[..0] + s[1..] == ["B", "C", "D"];
    }
    var e := DropEvent("A", Some("C"));
    assert ValidDrop(s, e) && Moves(e);
  }

  /** And D dropped on A in [A,B,C,D] gives [D,A,B,C]. */
  lemma MoveBackwardExample()
    ensures CommitDrop(["A", "B", "C", "D"], DropEvent("D", Some("A"))) == ["D", "A", "B", "C"]
  {
    var s: seq<Id> := ["A", "B", "C", "D"];
    assert IndexOf(s, "A") == 0;
    assert IndexOf(s, "D") == 3 by {
      assert s[0] != "D" && s[1] != "D" && s[2] != "D" && s[3] == "D";
    }
    assert ArrayMove(s, 3, 0) == ["D", "A", "B", "C"] by {
      assert s[..3] + s[4..] == ["A", "B", "C"];
    }
    var e := DropEvent("D", Some("A"));
    assert ValidDrop(s, e) && Moves(e);
  }
}
