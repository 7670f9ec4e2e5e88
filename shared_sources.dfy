/** Which entity each field was matched on decides whether that field's column is shared.

    The resolver stores, for EVERY slot, whether the FIRST field was matched on another
    entity (`FirstSourceIsRef`). A batch in which only a later field comes from another
    entity (a component reached by relationship traversal, say) is then read row by row
    from a column that holds a single element, and a batch in which only the first field
    is shared reads every other column at offset 0. This module exhibits both with
    `Resolver.GetTupleOf`.

    `get_tuple` also chooses its path from slot 0 alone. While every flag is a copy of
    the first source's that choice is right; once the flags are per field it is not, and
    `SlotZeroPathMissesLaterSharedField` shows the row it would then build. The module
    ends with the per-field resolution the flags evidently stand for, with its proof. */
module SharedSources {
  import opened Options
  import opened Access
  import opened Materialize
  import opened Tuples
  import opened Resolver

  /** Shape (`&A`, `&B`) over columns 1 and 2; the second field was matched on entity 5,
      so column 2 holds one element. Row 2 nevertheless reads it at offset 2. */
  lemma LaterSharedFieldReadPerRow()
    ensures
      var shape := [Slot("A", Read), Slot("B", Read)];
      var it := Batch(3, [Some(1), Some(2)], Some([0, 5]));
      && BatchFits(shape, it)
      && GetTupleOf(shape, it, 2)[1] == ReadRef(Ref(2, 2))
  {
    var shape := [Slot("A", Read), Slot("B", Read)];
    var it := Batch(3, [Some(1), Some(2)], Some([0, 5]));
    assert ResolvedFlags(it, 2) == [false, false];
  }

  /** The same batch through `get_slice`: the second field's single-element column is
      handed out as a slice of all 3 rows. */
  lemma LaterSharedFieldSlicedWhole()
    ensures
      var shape := [Slot("A", Read), Slot("B", Read)];
      var it := Batch(3, [Some(1), Some(2)], Some([0, 5]));
      && BatchFits(shape, it)
      && SliceTupleWithRef(shape, ResolvedPtrs(it, 2), ResolvedFlags(it, 2), 3)[1]
         == ReadSlice(View(2, 3))
  {
    var it := Batch(3, [Some(1), Some(2)], Some([0, 5]));
    assert ResolvedFlags(it, 2) == [false, false];
  }

  /** The same shape with only the FIRST field matched on entity 5: the per-entity
      column 2 is read at offset 0 on row 2, i.e. entity 0's value is reported. */
  lemma FirstSharedFieldMasksOthers()
    ensures
      var shape := [Slot("A", Read), Slot("B", Read)];
      var it := Batch(3, [Some(1), Some(2)], Some([5, 0]));
      && BatchFits(shape, it)
      && GetTupleOf(shape, it, 2)[1] == ReadRef(Ref(2, 0))
  {
    var shape := [Slot("A", Read), Slot("B", Read)];
    var it := Batch(3, [Some(1), Some(2)], Some([5, 0]));
    assert ResolvedFlags(it, 2) == [true, true];
  }

  /** Field `k` is shared when it was matched on an entity other than the iterated one. */
  function FieldIsRef(it: Batch, k: nat): bool
    requires WellFormedBatch(it) && k < |it.fields|
  {
    it.sources.Some? && it.sources.value[k] != 0
  }

  /** One flag per slot, each from the slot's own source entry. */
  function PerFieldFlags(it: Batch, n: nat): (flags: seq<bool>)
    requires WellFormedBatch(it) && n <= |it.fields|
    ensures |flags| == n && forall k :: 0 <= k < n ==> flags[k] == FieldIsRef(it, k)
  {
    seq(n, k requires 0 <= k < n => FieldIsRef(it, k))
  }

  /** Whether any slot is shared; `false` for the empty shape, so arity 0 needs no slot 0. */
  predicate AnyRef(flags: seq<bool>) {
    exists k :: 0 <= k < |flags| && flags[k]
  }

  /** The corrected `get_tuple` of a batch: per-field flags, and the fast path only when
      no slot at all is shared. */
  function GetTupleCorrected(shape: Shape, it: Batch, index: nat): (t: seq<RowValue>)
    requires BatchFits(shape, it)
    ensures |t| == |shape|
  {
    var ptrs := ResolvedPtrs(it, |shape|);
    var flags := PerFieldFlags(it, |shape|);
    if AnyRef(flags) then RowTupleWithRef(shape, ptrs, flags, index)
    else RowTuple(shape, ptrs, index)
  }

  /** Per-field flags, but the path still chosen from slot 0's flag alone. */
  function GetTupleSlotZeroPath(shape: Shape, it: Batch, index: nat): (t: seq<RowValue>)
    requires |shape| >= 1 && BatchFits(shape, it)
    ensures !FieldIsRef(it, 0) ==> t == RowTuple(shape, ResolvedPtrs(it, |shape|), index)
    ensures FieldIsRef(it, 0) ==>
      t == RowTupleWithRef(shape, ResolvedPtrs(it, |shape|), PerFieldFlags(it, |shape|), index)
  {
    var ptrs := ResolvedPtrs(it, |shape|);
    var flags := PerFieldFlags(it, |shape|);
    if flags[0] then RowTupleWithRef(shape, ptrs, flags, index)
    else RowTuple(shape, ptrs, index)
  }

  /** With per-field flags, sources `[0, 5]`: field 2 is shared, yet the slot-0 path
      choice takes the fast path and row 2 reads it at offset 2. */
  lemma SlotZeroPathMissesLaterSharedField()
    ensures
      var shape := [Slot("A", Read), Slot("B", Read)];
      var it := Batch(3, [Some(1), Some(2)], Some([0, 5]));
      && BatchFits(shape, it)
      && FieldIsRef(it, 1)
      && GetTupleSlotZeroPath(shape, it, 2)[1] == ReadRef(Ref(2, 2))
      && GetTupleCorrected(shape, it, 2)[1] == ReadRef(Ref(2, 0))
  {
    var shape := [Slot("A", Read), Slot("B", Read)];
    var it := Batch(3, [Some(1), Some(2)], Some([0, 5]));
    var flags := PerFieldFlags(it, 2);
    assert flags[1];
    assert AnyRef(flags);
  }

  /** The intended behaviour: every present slot is read at offset 0 exactly when its own
      field was matched on another entity, and at the row index otherwise; absent
      optional slots are `None`. */
  lemma CorrectedRowOffsets(shape: Shape, it: Batch, index: nat, k: nat)
    requires BatchFits(shape, it) && k < |shape|
    ensures RowKind(GetTupleCorrected(shape, it, index)[k]) == shape[k].access
    ensures RowTarget(GetTupleCorrected(shape, it, index)[k])
         == if it.fields[k].None? then None
            else Some(Ref(it.fields[k].value, if FieldIsRef(it, k) then 0 else index))
  {
    var ptrs := ResolvedPtrs(it, |shape|);
    var flags := PerFieldFlags(it, |shape|);
    if !AnyRef(flags) {
      RowPathsAgreeWithoutSharing(shape, ptrs, flags, index);
    }
  }

  /** Where the source's single flag happens to be right (every field matched on the same
      kind of source), the corrected row is the row `get_tuple` yields. */
  lemma CorrectedAgreesWhenSourcesUniform(shape: Shape, it: Batch, index: nat)
    requires |shape| >= 1 && BatchFits(shape, it)
    requires forall k :: 0 <= k < |shape| ==> FieldIsRef(it, k) == FieldIsRef(it, 0)
    ensures GetTupleCorrected(shape, it, index) == GetTupleOf(shape, it, index)
  {
    var ptrs := ResolvedPtrs(it, |shape|);
    var flags := PerFieldFlags(it, |shape|);
    assert flags == ResolvedFlags(it, |shape|);
    if !AnyRef(flags) {
      RowPathsAgreeWithoutSharing(shape, ptrs, flags, index);
    }
  }
}
