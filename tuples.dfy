/** The tuple builders of `Iterable`: `create_tuple`, `create_tuple_with_ref`,
    `create_tuple_slices` and `create_tuple_slices_with_ref`.

    Each consumes the cursor slice(s) of column pointers (and shared flags) from the front,
    one element per slot, and builds slot `k` of the result from the `k`-th element. The
    `RowTuple*` / `SliceTuple*` functions state the result as a value. */
module Tuples {
  import opened Options
  import opened Access
  import opened Materialize

  /** The cursor holds a pointer for every slot, and null pointers only for optional slots. */
  predicate Admissible(shape: Shape, ptrs: seq<Ptr>) {
    |shape| <= |ptrs| && forall k :: 0 <= k < |shape| ==> NullOnlyIfOptional(shape[k].access, ptrs[k])
  }

  /** The per-row tuple of the plain path, slot by slot. */
  function RowTuple(shape: Shape, ptrs: seq<Ptr>, index: nat): (t: seq<RowValue>)
    requires Admissible(shape, ptrs)
    ensures |t| == |shape|
  {
    seq(|shape|, k requires 0 <= k < |shape| => CreateTupleData(shape[k].access, ptrs[k], index))
  }

  /** The per-row tuple of the ref-aware path, slot by slot. */
  function RowTupleWithRef(shape: Shape, ptrs: seq<Ptr>, refs: seq<bool>, index: nat): (t: seq<RowValue>)
    requires Admissible(shape, ptrs) && |shape| <= |refs|
    ensures |t| == |shape|
  {
    seq(|shape|, k requires 0 <= k < |shape| =>
      CreateTupleWithRefData(shape[k].access, ptrs[k], refs[k], index))
  }

  /** The per-batch tuple of the plain path, slot by slot. */
  function SliceTuple(shape: Shape, ptrs: seq<Ptr>, count: nat): (t: seq<SliceValue>)
    requires Admissible(shape, ptrs)
    ensures |t| == |shape|
  {
    seq(|shape|, k requires 0 <= k < |shape| => CreateTupleSliceData(shape[k].access, ptrs[k], count))
  }

  /** The per-batch tuple of the ref-aware path, slot by slot. */
  function SliceTupleWithRef(shape: Shape, ptrs: seq<Ptr>, refs: seq<bool>, count: nat): (t: seq<SliceValue>)
    requires Admissible(shape, ptrs) && |shape| <= |refs|
    ensures |t| == |shape|
  {
    seq(|shape|, k requires 0 <= k < |shape| =>
      CreateTupleSlicesWithRefData(shape[k].access, ptrs[k], refs[k], count))
  }

  /** Single-slot `create_tuple`: materialize the front pointer, drop it from the cursor. */
  method CreateTupleSlot(k: AccessKind, cursor: seq<Ptr>, index: nat) returns (v: RowValue, rest: seq<Ptr>)
    requires |cursor| >= 1 && NullOnlyIfOptional(k, cursor[0])
    ensures v == CreateTupleData(k, cursor[0], index)
    ensures |rest| == |cursor| - 1 && rest == cursor[1..]
  {
    v := CreateTupleData(k, cursor[0], index);
    rest := cursor[1..];
  }

  /** Single-slot `create_tuple_with_ref`: both cursors advance by one. */
  method CreateTupleWithRefSlot(k: AccessKind, cursor: seq<Ptr>, refCursor: seq<bool>, index: nat)
    returns (v: RowValue, rest: seq<Ptr>, refRest: seq<bool>)
    requires |cursor| >= 1 && |refCursor| >= 1 && NullOnlyIfOptional(k, cursor[0])
    ensures v == CreateTupleWithRefData(k, cursor[0], refCursor[0], index)
    ensures rest == cursor[1..] && refRest == refCursor[1..]
  {
    v := CreateTupleWithRefData(k, cursor[0], refCursor[0], index);
    rest := cursor[1..];
    refRest := refCursor[1..];
  }

  /** Single-slot `create_tuple_slices`. */
  method CreateTupleSlicesSlot(k: AccessKind, cursor: seq<Ptr>, count: nat) returns (s: SliceValue, rest: seq<Ptr>)
    requires |cursor| >= 1 && NullOnlyIfOptional(k, cursor[0])
    ensures s == CreateTupleSliceData(k, cursor[0], count)
    ensures rest == cursor[1..]
  {
    s := CreateTupleSliceData(k, cursor[0], count);
    rest := cursor[1..];
  }

  /** Single-slot `create_tuple_slices_with_ref`. */
  method CreateTupleSlicesWithRefSlot(k: AccessKind, cursor: seq<Ptr>, refCursor: seq<bool>, count: nat)
    returns (s: SliceValue, rest: seq<Ptr>, refRest: seq<bool>)
    requires |cursor| >= 1 && |refCursor| >= 1 && NullOnlyIfOptional(k, cursor[0])
    ensures s == CreateTupleSlicesWithRefData(k, cursor[0], refCursor[0], count)
    ensures rest == cursor[1..] && refRest == refCursor[1..]
  {
    s := CreateTupleSlicesWithRefData(k, cursor[0], refCursor[0], count);
    rest := cursor[1..];
    refRest := refCursor[1..];
  }

  /** Tuple `create_tuple`: one single-slot call per slot, in declared order, sharing the
      cursor; slot `k` is built from the `k`-th pointer and the cursor advances by the arity. */
  method CreateTuple(shape: Shape, cursor: seq<Ptr>, index: nat) returns (t: seq<RowValue>, rest: seq<Ptr>)
    requires Admissible(shape, cursor)
    ensures |t| == |shape|
    ensures forall k :: 0 <= k < |shape| ==> t[k] == CreateTupleData(shape[k].access, cursor[k], index)
    ensures t == RowTuple(shape, cursor, index)
    ensures rest == cursor[|shape|..]
  {
    t, rest := [], cursor;
    for i := 0 to |shape|
      invariant rest == cursor[i..]
      invariant |t| == i
      invariant forall k :: 0 <= k < i ==> t[k] == CreateTupleData(shape[k].access, cursor[k], index)
    {
      var v;
      v, rest := CreateTupleSlot(shape[i].access, rest, index);
      t := t + [v];
    }
  }

  /** Tuple `create_tuple_with_ref`: slot `k` is built from the `k`-th pointer and the
      `k`-th shared flag; both cursors advance by the arity. */
  method CreateTupleWithRef(shape: Shape, cursor: seq<Ptr>, refCursor: seq<bool>, index: nat)
    returns (t: seq<RowValue>, rest: seq<Ptr>, refRest: seq<bool>)
    requires Admissible(shape, cursor) && |shape| <= |refCursor|
    ensures |t| == |shape|
    ensures forall k :: 0 <= k < |shape| ==>
              t[k] == CreateTupleWithRefData(shape[k].access, cursor[k], refCursor[k], index)
    ensures t == RowTupleWithRef(shape, cursor, refCursor, index)
    ensures rest == cursor[|shape|..] && refRest == refCursor[|shape|..]
  {
    t, rest, refRest := [], cursor, refCursor;
    for i := 0 to |shape|
      invariant rest == cursor[i..] && refRest == refCursor[i..]
      invariant |t| == i
      invariant forall k :: 0 <= k < i ==>
                  t[k] == CreateTupleWithRefData(shape[k].access, cursor[k], refCursor[k], index)
    {
      var v;
      v, rest, refRest := CreateTupleWithRefSlot(shape[i].access, rest, refRest, index);
      t := t + [v];
    }
  }

  /** Tuple `create_tuple_slices`. */
  method CreateTupleSlices(shape: Shape, cursor: seq<Ptr>, count: nat) returns (t: seq<SliceValue>, rest: seq<Ptr>)
    requires Admissible(shape, cursor)
    ensures |t| == |shape|
    ensures forall k :: 0 <= k < |shape| ==> t[k] == CreateTupleSliceData(shape[k].access, cursor[k], count)
    ensures t == SliceTuple(shape, cursor, count)
    ensures rest == cursor[|shape|..]
  {
    t, rest := [], cursor;
    for i := 0 to |shape|
      invariant rest == cursor[i..]
      invariant |t| == i
      invariant forall k :: 0 <= k < i ==> t[k] == CreateTupleSliceData(shape[k].access, cursor[k], count)
    {
      var s;
      s, rest := CreateTupleSlicesSlot(shape[i].access, rest, count);
      t := t + [s];
    }
  }

  /** Tuple `create_tuple_slices_with_ref`. */
  method CreateTupleSlicesWithRef(shape: Shape, cursor: seq<Ptr>, refCursor: seq<bool>, count: nat)
    returns (t: seq<SliceValue>, rest: seq<Ptr>, refRest: seq<bool>)
    requires Admissible(shape, cursor) && |shape| <= |refCursor|
    ensures |t| == |shape|
    ensures forall k :: 0 <= k < |shape| ==>
              t[k] == CreateTupleSlicesWithRefData(shape[k].access, cursor[k], refCursor[k], count)
    ensures t == SliceTupleWithRef(shape, cursor, refCursor, count)
    ensures rest == cursor[|shape|..] && refRest == refCursor[|shape|..]
  {
    t, rest, refRest := [], cursor, refCursor;
    for i := 0 to |shape|
      invariant rest == cursor[i..] && refRest == refCursor[i..]
      invariant |t| == i
      invariant forall k :: 0 <= k < i ==>
                  t[k] == CreateTupleSlicesWithRefData(shape[k].access, cursor[k], refCursor[k], count)
    {
      var s;
      s, rest, refRest := CreateTupleSlicesWithRefSlot(shape[i].access, rest, refRest, count);
      t := t + [s];
    }
  }

  /** With no shared column, the plain per-row path and the ref-aware one agree. */
  lemma RowPathsAgreeWithoutSharing(shape: Shape, ptrs: seq<Ptr>, refs: seq<bool>, index: nat)
    requires Admissible(shape, ptrs) && |shape| <= |refs|
    requires forall k :: 0 <= k < |shape| ==> !refs[k]
    ensures RowTuple(shape, ptrs, index) == RowTupleWithRef(shape, ptrs, refs, index)
  {
  }

  /** With no shared column, the plain per-batch path and the ref-aware one agree. */
  lemma SlicePathsAgreeWithoutSharing(shape: Shape, ptrs: seq<Ptr>, refs: seq<bool>, count: nat)
    requires Admissible(shape, ptrs) && |shape| <= |refs|
    requires forall k :: 0 <= k < |shape| ==> !refs[k]
    ensures SliceTuple(shape, ptrs, count) == SliceTupleWithRef(shape, ptrs, refs, count)
  {
  }

  /** A shared slot reports the same value on every row, a non-shared present slot a
      different element on every row. */
  lemma RowTupleSlotByRow(shape: Shape, ptrs: seq<Ptr>, refs: seq<bool>, k: nat, i: nat, j: nat)
    requires Admissible(shape, ptrs) && |shape| <= |refs| && k < |shape|
    ensures refs[k] ==> RowTupleWithRef(shape, ptrs, refs, i)[k] == RowTupleWithRef(shape, ptrs, refs, j)[k]
    ensures !refs[k] && ptrs[k].Some? && i != j ==>
              RowTupleWithRef(shape, ptrs, refs, i)[k] != RowTupleWithRef(shape, ptrs, refs, j)[k]
  {
    if refs[k] {
      SharedRowsCoincide(shape[k].access, ptrs[k], i, j);
    } else if ptrs[k].Some? && i != j {
      UnsharedRowsDistinct(shape[k].access, ptrs[k], i, j);
    }
  }

  /** A 3-slot shape (`&T0`, `&mut T1`, `Option<&T2>`) over columns `[a, b, null]`, none
      shared: every row `i` yields (`&a[i]`, `&mut b[i]`, `None`). */
  lemma ThreeSlotRows(a: ColumnId, b: ColumnId, i: nat)
    ensures
      var shape := [Slot("T0", Read), Slot("T1", Write), Slot("T2", OptionalRead)];
      RowTupleWithRef(shape, [Some(a), Some(b), None], [false, false, false], i)
        == [ReadRef(Ref(a, i)), WriteRef(Ref(b, i)), OptReadRef(None)]
  {
  }

  /** Shape (`&T0`, `&T1`) over `[a, b]` with `b` shared: slot 1 is `b[0]` on every row,
      and the per-batch views have lengths `count` and 1. */
  lemma SharedSecondSlot(a: ColumnId, b: ColumnId, i: nat, count: nat)
    ensures
      var shape := [Slot("T0", Read), Slot("T1", Read)];
      && RowTupleWithRef(shape, [Some(a), Some(b)], [false, true], i)
           == [ReadRef(Ref(a, i)), ReadRef(Ref(b, 0))]
      && SliceTupleWithRef(shape, [Some(a), Some(b)], [false, true], count)
           == [ReadSlice(View(a, count)), ReadSlice(View(b, 1))]
  {
  }
}
