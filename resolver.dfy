/** The batch column resolver: `populate_array_ptrs` and `ComponentsData`.

    A batch (`IterT`) is produced by the external engine. This layer sees, per query
    field, a raw column pointer (`ecs_field`, 1-based) and the array `sources` of the
    entities the fields were matched on (0 for the iterated entity itself, the whole
    array possibly null). `ComponentsData` copies one pointer and one shared ("is ref")
    flag per slot into fixed-size arrays and then materializes rows or batches from them. */
module Resolver {
  import opened Options
  import opened Access
  import opened Materialize
  import opened Tuples

  /** The part of an engine batch this layer reads. */
  datatype Batch = Batch(count: nat, fields: seq<Ptr>, sources: Option<seq<nat>>)

  /** When `sources` is present it has one entry per field. */
  predicate WellFormedBatch(it: Batch) {
    it.sources.Some? ==> |it.sources.value| == |it.fields|
  }

  /** `ecs_field(it, index)`: the column of field `index`, counted from 1. */
  function Field(it: Batch, index: nat): (p: Ptr)
    requires 1 <= index <= |it.fields|
  {
    it.fields[index - 1]
  }

  /** The flag `populate_array_ptrs` stores for a slot: `sources` is present and its
      FIRST entry names another entity. The slot's own entry is not consulted. */
  function FirstSourceIsRef(it: Batch): (r: bool)
    ensures it.sources.None? ==> !r
    ensures it.sources.Some? && |it.sources.value| > 0 ==> (r <==> it.sources.value[0] != 0)
  {
    it.sources.Some? && |it.sources.value| > 0 && it.sources.value[0] != 0
  }

  /** Only the first source entry is consulted: two batches whose sources agree on
      presence and on entry 0 get the same flag, whatever their other entries say. */
  lemma FirstSourceIgnoresLaterEntries(it: Batch, other: Batch)
    requires it.sources.Some? <==> other.sources.Some?
    requires it.sources.Some? ==> |it.sources.value| > 0 && |other.sources.value| > 0
                                  && it.sources.value[0] == other.sources.value[0]
    ensures FirstSourceIsRef(it) == FirstSourceIsRef(other)
  {
  }

  /** The batch fits a shape: a field per slot, and null columns only on optional slots. */
  predicate BatchFits(shape: Shape, it: Batch) {
    WellFormedBatch(it) && Admissible(shape, it.fields)
  }

  /** The pointers the resolver copies for `n` slots. */
  function ResolvedPtrs(it: Batch, n: nat): (ptrs: seq<Ptr>)
    requires n <= |it.fields|
    ensures |ptrs| == n && forall k :: 0 <= k < n ==> ptrs[k] == Field(it, k + 1)
  {
    it.fields[..n]
  }

  /** The flags the resolver copies for `n` slots: all equal to the first source's. */
  function ResolvedFlags(it: Batch, n: nat): (flags: seq<bool>)
    requires WellFormedBatch(it) && n <= |it.fields|
    ensures |flags| == n && forall k :: 0 <= k < n ==> flags[k] == FirstSourceIsRef(it)
  {
    seq(n, _ => FirstSourceIsRef(it))
  }

  /** Single-slot `populate_array_ptrs`: slot `index` gets field `index + 1` and the
      first-source flag; the cursor advances by one. */
  method PopulateArrayPtrsSlot(it: Batch, components: array<Ptr>, isRef: array<bool>, index: nat)
    returns (next: nat)
    requires WellFormedBatch(it) && index < |it.fields|
    requires index < components.Length && index < isRef.Length
    modifies components, isRef
    ensures next == index + 1
    ensures components[index] == Field(it, index + 1) && isRef[index] == FirstSourceIsRef(it)
    ensures forall j :: 0 <= j < components.Length && j != index ==> components[j] == old(components[j])
    ensures forall j :: 0 <= j < isRef.Length && j != index ==> isRef[j] == old(isRef[j])
  {
    components[index] := Field(it, index + 1);
    isRef[index] := if it.sources.Some? then it.sources.value[0] != 0 else false;
    next := index + 1;
  }

  /** Tuple `populate_array_ptrs`: one single-slot call per slot, sharing the cursor.
      Slots `index..index+|shape|` are filled, everything else is kept. */
  method PopulateArrayPtrs(shape: Shape, it: Batch, components: array<Ptr>, isRef: array<bool>, index: nat)
    returns (next: nat)
    requires WellFormedBatch(it) && index + |shape| <= |it.fields|
    requires index + |shape| <= components.Length && index + |shape| <= isRef.Length
    modifies components, isRef
    ensures next == index + |shape|
    ensures forall j :: index <= j < next ==>
              components[j] == Field(it, j + 1) && isRef[j] == FirstSourceIsRef(it)
    ensures forall j :: 0 <= j < components.Length && !(index <= j < next) ==> components[j] == old(components[j])
    ensures forall j :: 0 <= j < isRef.Length && !(index <= j < next) ==> isRef[j] == old(isRef[j])
  {
    next := index;
    for k := 0 to |shape|
      invariant next == index + k
      invariant forall j :: index <= j < next ==>
                  components[j] == Field(it, j + 1) && isRef[j] == FirstSourceIsRef(it)
      invariant forall j :: 0 <= j < components.Length && !(index <= j < next) ==> components[j] == old(components[j])
      invariant forall j :: 0 <= j < isRef.Length && !(index <= j < next) ==> isRef[j] == old(isRef[j])
    {
      next := PopulateArrayPtrsSlot(it, components, isRef, next);
    }
  }

  /** `ComponentsData<T, LEN>`: the resolved pointers and flags of one batch for the
      shape `T` of arity `LEN`. */
  class ComponentsData {
    const shape: Shape
    const arrayComponents: array<Ptr>
    const isRefArrayComponents: array<bool>
    const isAnyArrayARef: bool

    ghost predicate Valid()
      reads arrayComponents, isRefArrayComponents
    {
      && |shape| >= 1
      && arrayComponents.Length == |shape| && isRefArrayComponents.Length == |shape|
      && isAnyArrayARef == isRefArrayComponents[0]
      && (forall k :: 0 <= k < |shape| ==> isRefArrayComponents[k] == isAnyArrayARef)
      && Admissible(shape, arrayComponents[..])
    }

    /** `ComponentsData::new`: null pointers and false flags, populated from cursor 0;
        the any-ref flag is read from slot 0, so the arity must be at least 1. */
    constructor (shape: Shape, it: Batch)
      requires |shape| >= 1 && BatchFits(shape, it)
      ensures Valid() && this.shape == shape
      ensures fresh(arrayComponents) && fresh(isRefArrayComponents)
      ensures arrayComponents[..] == ResolvedPtrs(it, |shape|)
      ensures isRefArrayComponents[..] == ResolvedFlags(it, |shape|)
      ensures isAnyArrayARef == FirstSourceIsRef(it)
    {
      var components := new Ptr[|shape|](_ => None);
      var isRef := new bool[|shape|](_ => false);
      var _ := PopulateArrayPtrs(shape, it, components, isRef, 0);
      this.shape := shape;
      arrayComponents := components;
      isRefArrayComponents := isRef;
      isAnyArrayARef := isRef[0];
      assert components[..] == ResolvedPtrs(it, |shape|);
      assert isRef[..] == ResolvedFlags(it, |shape|);
    }

    /** `get_tuple`: the fast path when slot 0 is not shared, the ref-aware path otherwise.
        Either way the row is the ref-aware materialization of the stored columns. */
    method GetTuple(index: nat) returns (t: seq<RowValue>)
      requires Valid()
      ensures |t| == |shape|
      ensures t == RowTupleWithRef(shape, arrayComponents[..], isRefArrayComponents[..], index)
      ensures !isAnyArrayARef ==> t == RowTuple(shape, arrayComponents[..], index)
    {
      if isAnyArrayARef {
        var restPtrs, restRefs;
        t, restPtrs, restRefs := CreateTupleWithRef(shape, arrayComponents[..], isRefArrayComponents[..], index);
      } else {
        var restPtrs;
        t, restPtrs := CreateTuple(shape, arrayComponents[..], index);
        RowPathsAgreeWithoutSharing(shape, arrayComponents[..], isRefArrayComponents[..], index);
      }
    }

    /** `get_slice`: as `GetTuple`, for the whole batch of `count` rows. */
    method GetSlice(count: nat) returns (t: seq<SliceValue>)
      requires Valid()
      ensures |t| == |shape|
      ensures t == SliceTupleWithRef(shape, arrayComponents[..], isRefArrayComponents[..], count)
      ensures !isAnyArrayARef ==> t == SliceTuple(shape, arrayComponents[..], count)
    {
      if isAnyArrayARef {
        var restPtrs, restRefs;
        t, restPtrs, restRefs := CreateTupleSlicesWithRef(shape, arrayComponents[..], isRefArrayComponents[..], count);
      } else {
        var restPtrs;
        t, restPtrs := CreateTupleSlices(shape, arrayComponents[..], count);
        SlicePathsAgreeWithoutSharing(shape, arrayComponents[..], isRefArrayComponents[..], count);
      }
    }
  }

  /** `ComponentsData::new` followed by `get_tuple`: the row of one batch. */
  method RowOfBatch(shape: Shape, it: Batch, index: nat) returns (t: seq<RowValue>)
    requires |shape| >= 1 && BatchFits(shape, it)
    ensures t == GetTupleOf(shape, it, index)
  {
    var data := new ComponentsData(shape, it);
    t := data.GetTuple(index);
  }

  /** `ComponentsData::new` followed by `get_slice`: the slices of one batch. */
  method SliceOfBatch(shape: Shape, it: Batch, count: nat) returns (t: seq<SliceValue>)
    requires |shape| >= 1 && BatchFits(shape, it)
    ensures t == SliceTupleWithRef(shape, ResolvedPtrs(it, |shape|), ResolvedFlags(it, |shape|), count)
  {
    var data := new ComponentsData(shape, it);
    t := data.GetSlice(count);
  }

  /** The value form of `RowOfBatch`: resolve the first `|shape|` fields, then take the
      fast path unless slot 0's flag is set. */
  function GetTupleOf(shape: Shape, it: Batch, index: nat): (t: seq<RowValue>)
    requires |shape| >= 1 && BatchFits(shape, it)
    ensures t == RowTupleWithRef(shape, ResolvedPtrs(it, |shape|), ResolvedFlags(it, |shape|), index)
  {
    var ptrs := ResolvedPtrs(it, |shape|);
    var flags := ResolvedFlags(it, |shape|);
    if flags[0] then RowTupleWithRef(shape, ptrs, flags, index)
    else RowTuple(shape, ptrs, index)
  }

  /** Because every stored flag is the first source's, a batch whose first field is
      matched on another entity reads EVERY present slot at offset 0, and one whose first
      field is the iterated entity reads every present slot at the row index. */
  lemma GetTupleOffsets(shape: Shape, it: Batch, index: nat, k: nat)
    requires |shape| >= 1 && BatchFits(shape, it) && k < |shape| && it.fields[k].Some?
    ensures RowTarget(GetTupleOf(shape, it, index)[k]) == Some(Ref(it.fields[k].value,
              if FirstSourceIsRef(it) then 0 else index))
  {
  }
}
