/**
  The two sequence primitives the reorder handlers rely on: `Array.prototype.indexOf`
  and `arrayMove` from @dnd-kit/sortable.

  The implementation of `arrayMove` belongs to the library and is not part of this
  model. It is modelled by its documented meaning: remove the element at `from`,
  insert it at `to`, for indices `0 <= from, to < |s|`. Calls outside that domain
  are kept apart by the callers and never given a meaning here.
 */
module Sortable {

  /** Pairwise distinct elements. */
  predicate Distinct<T(==)>(s: seq<T>) {
    forall i, j :: 0 <= i < j < |s| ==> s[i] != s[j]
  }

  /** `s.indexOf(x)`: the first position holding `x`, or -1 when there is none. */
  function IndexOf<T(==)>(s: seq<T>, x: T): (i: int)
    ensures -1 <= i < |s|
    ensures i == -1 <==> x !in s
    ensures 0 <= i ==> s[i] == x && forall j :: 0 <= j < i ==> s[j] != x
  {
    if |s| == 0 then -1
    else if s[0] == x then 0
    else
      var k := IndexOf(s[1..], x);
      if k == -1 then -1 else k + 1
  }

  /** `arrayMove(s, from, to)`: take the element at `from` out and reinsert it at `to`. */
  function ArrayMove<T>(s: seq<T>, from: int, to: int): (r: seq<T>)
    requires 0 <= from < |s| && 0 <= to < |s|
    ensures |r| == |s|
    ensures r[to] == s[from]
  {
    var rest := s[..from] + s[from + 1..];
    rest[..to] + [s[from]] + rest[to..]
  }

  /**
    The position, before a move from `from` to `to`, of the element that sits at `k`
    after it: the moved element comes from `from`, the elements strictly between the
    two positions shift by one towards `from`, and all others stay where they were.
   */
  function MovedFrom(from: int, to: int, k: int): int {
    if k == to then from
    else if from < to && from <= k < to then k + 1
    else if to < from && to < k <= from then k - 1
    else k
  }

  /** Every position of the moved sequence is filled as `MovedFrom` says. */
  lemma ArrayMoveShift<T>(s: seq<T>, from: int, to: int)
    requires 0 <= from < |s| && 0 <= to < |s|
    ensures forall k :: 0 <= k < |s| ==> 0 <= MovedFrom(from, to, k) < |s|
    ensures forall k :: 0 <= k < |s| ==> ArrayMove(s, from, to)[k] == s[MovedFrom(from, to, k)]
  {
    var r := ArrayMove(s, from, to);
    var rest := s[..from] + s[from + 1..];
    assert |rest| == |s| - 1;
    assert r == rest[..to] + [s[from]] + rest[to..];
    forall k | 0 <= k < |s|
      ensures 0 <= MovedFrom(from, to, k) < |s|
      ensures r[k] == s[MovedFrom(from, to, k)]
    {
      if k < to {
        assert r[k] == rest[k];
        assert rest[k] == if k < from then s[k] else s[k + 1];
      } else if k > to {
        assert r[k] == rest[k - 1];
        assert rest[k - 1] == if k - 1 < from then s[k - 1] else s[k];
      }
    }
  }

  /** A move neither adds, loses nor duplicates an element. */
  lemma ArrayMovePermutes<T>(s: seq<T>, from: int, to: int)
    requires 0 <= from < |s| && 0 <= to < |s|
    ensures multiset(ArrayMove(s, from, to)) == multiset(s)
  {
    var rest := s[..from] + s[from + 1..];
    assert s == s[..from] + [s[from]] + s[from + 1..];
    assert rest == rest[..to] + rest[to..];
    calc {
      multiset(ArrayMove(s, from, to));
      multiset(rest[..to]) + multiset([s[from]]) + multiset(rest[to..]);
      multiset(rest) + multiset([s[from]]);
      multiset(s[..from]) + multiset(s[from + 1..]) + multiset([s[from]]);
      multiset(s);
    }
  }

  /** Moving a distinct sequence keeps it distinct. */
  lemma ArrayMoveKeepsDistinct<T>(s: seq<T>, from: int, to: int)
    requires 0 <= from < |s| && 0 <= to < |s|
    requires Distinct(s)
    ensures Distinct(ArrayMove(s, from, to))
  {
    ArrayMoveShift(s, from, to);
    var r := ArrayMove(s, from, to);
    forall i, j | 0 <= i < j < |r|
      ensures r[i] != r[j]
    {
      assert MovedFrom(from, to, i) != MovedFrom(from, to, j);
    }
  }

  /** Moving the element back from `to` to `from` restores the original sequence. */
  lemma ArrayMoveUndo<T>(s: seq<T>, from: int, to: int)
    requires 0 <= from < |s| && 0 <= to < |s|
    ensures ArrayMove(ArrayMove(s, from, to), to, from) == s
  {
    var r := ArrayMove(s, from, to);
    ArrayMoveShift(s, from, to);
    ArrayMoveShift(r, to, from);
    var u := ArrayMove(r, to, from);
    forall k | 0 <= k < |s|
      ensures u[k] == s[k]
    {
      assert MovedFrom(from, to, MovedFrom(to, from, k)) == k;
    }
  }

  /** A move onto the element's own position changes nothing. */
  lemma ArrayMoveInPlace<T>(s: seq<T>, i: int)
    requires 0 <= i < |s|
    ensures ArrayMove(s, i, i) == s
  {
    ArrayMoveShift(s, i, i);
  }

  /** `s` with every occurrence of `x` taken out, the rest in their original order. */
  function Without<T(==)>(s: seq<T>, x: T): (r: seq<T>)
    ensures x !in r
    ensures |r| <= |s|
  {
    if |s| == 0 then [] else (if s[0] == x then [] else [s[0]]) + Without(s[1..], x)
  }

  lemma {:induction false} WithoutConcat<T>(a: seq<T>, b: seq<T>, x: T)
    ensures Without(a + b, x) == Without(a, x) + Without(b, x)
    decreases |a|
  {
    if |a| == 0 {
      assert a + b == b;
    } else {
      assert (a + b)[1..] == a[1..] + b;
      WithoutConcat(a[1..], b, x);
    }
  }

  lemma {:induction false} WithoutAbsent<T>(s: seq<T>, x: T)
    requires x !in s
    ensures Without(s, x) == s
    decreases |s|
  {
    if |s| > 0 {
      WithoutAbsent(s[1..], x);
      assert s == [s[0]] + s[1..];
    }
  }

  /** Taking `x` out of `a + [x] + b` leaves `a + b` when neither side holds `x`. */
  lemma {:induction false} WithoutSplit<T>(a: seq<T>, x: T, b: seq<T>)
    requires x !in a && x !in b
    ensures Without(a + [x] + b, x) == a + b
  {
    assert Without([x], x) == [] by {
      assert [x][1..] == [];
    }
    calc {
      Without(a + [x] + b, x);
      { WithoutConcat(a + [x], b, x); }
      Without(a + [x], x) + Without(b, x);
      { WithoutConcat(a, [x], x); }
      Without(a, x) + Without([x], x) + Without(b, x);
      { WithoutAbsent(a, x); WithoutAbsent(b, x); }
      a + [] + b;
    }
    assert a + [] + b == a + b;
  }

  /**
    A move is a single-element move and not a swap: once the moved element is taken
    out, the remaining elements are in exactly the order they had before.
   */
  lemma ArrayMoveKeepsOthersInOrder<T>(s: seq<T>, from: int, to: int)
    requires 0 <= from < |s| && 0 <= to < |s|
    requires Distinct(s)
    ensures Without(ArrayMove(s, from, to), s[from]) == Without(s, s[from])
  {
    var x := s[from];
    var rest := s[..from] + s[from + 1..];
    WithoutAtDistinct(s, from);
    assert ArrayMove(s, from, to) == rest[..to] + [x] + rest[to..];
    WithoutInsert(rest, x, to);
  }

  /** Inserting `x` anywhere into a sequence without `x` and taking it out again is a round trip. */
  lemma WithoutInsert<T>(rest: seq<T>, x: T, to: int)
    requires 0 <= to <= |rest| && x !in rest
    ensures Without(rest[..to] + [x] + rest[to..], x) == rest
  {
    assert x !in rest[..to] && x !in rest[to..];
    WithoutSplit(rest[..to], x, rest[to..]);
    assert rest[..to] + rest[to..] == rest;
  }

  /** Taking out the element at `from` of a distinct sequence removes just that slot. */
  lemma WithoutAtDistinct<T>(s: seq<T>, from: int)
    requires 0 <= from < |s|
    requires Distinct(s)
    ensures Without(s, s[from]) == s[..from] + s[from + 1..]
  {
    var x := s[from];
    assert x !in s[..from];
    assert x !in s[from + 1..];
    assert s == s[..from] + [x] + s[from + 1..];
    WithoutSplit(s[..from], x, s[from + 1..]);
  }
}
