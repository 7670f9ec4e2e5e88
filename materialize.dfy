/** Per-slot materialization: turning one raw column pointer (plus a shared flag and a row
    index or a row count) into the typed value of one tuple position.

    Memory is abstract: a column is named by a `ColumnId`, a null pointer is `None`, a
    reference is the pair (column, offset) and a slice is the pair (column, length),
    always starting at offset 0. */
module Materialize {
  import opened Options
  import opened Access

  type ColumnId = nat

  /** A raw column pointer; `None` is the null pointer. */
  type Ptr = Option<ColumnId>

  /** A reference to element `offset` of a column. */
  datatype Ref = Ref(column: ColumnId, offset: nat)

  /** A slice of the first `len` elements of a column. */
  datatype View = View(column: ColumnId, len: nat)

  /** The per-row value of one slot: `&T`, `&mut T`, `Option<&T>`, `Option<&mut T>`. */
  datatype RowValue =
    | ReadRef(r: Ref)
    | WriteRef(r: Ref)
    | OptReadRef(o: Option<Ref>)
    | OptWriteRef(o: Option<Ref>)

  /** The per-batch value of one slot: `&[T]`, `&mut [T]`, `Option<&[T]>`, `Option<&mut [T]>`. */
  datatype SliceValue =
    | ReadSlice(v: View)
    | WriteSlice(v: View)
    | OptReadSlice(o: Option<View>)
    | OptWriteSlice(o: Option<View>)

  function RowKind(v: RowValue): AccessKind {
    match v
    case ReadRef(_) => Read
    case WriteRef(_) => Write
    case OptReadRef(_) => OptionalRead
    case OptWriteRef(_) => OptionalWrite
  }

  /** The element a row value refers to, `None` when it is an absent optional. */
  function RowTarget(v: RowValue): Option<Ref> {
    match v
    case ReadRef(r) => Some(r)
    case WriteRef(r) => Some(r)
    case OptReadRef(o) => o
    case OptWriteRef(o) => o
  }

  function SliceKind(s: SliceValue): AccessKind {
    match s
    case ReadSlice(_) => Read
    case WriteSlice(_) => Write
    case OptReadSlice(_) => OptionalRead
    case OptWriteSlice(_) => OptionalWrite
  }

  /** The view a slice value spans, `None` when it is an absent optional. */
  function SliceTarget(s: SliceValue): Option<View> {
    match s
    case ReadSlice(v) => Some(v)
    case WriteSlice(v) => Some(v)
    case OptReadSlice(o) => o
    case OptWriteSlice(o) => o
  }

  /** The engine's contract on a batch: a null column only ever reaches an optional slot. */
  predicate NullOnlyIfOptional(k: AccessKind, p: Ptr) {
    p.None? ==> IsOptional(k)
  }

  /** `create_tuple_data`: the reference to row `index`; an optional slot on a null
      column is absent. */
  function CreateTupleData(k: AccessKind, p: Ptr, index: nat): (v: RowValue)
    requires NullOnlyIfOptional(k, p)
    ensures RowKind(v) == k
    ensures RowTarget(v).None? <==> p.None?
    ensures p.Some? ==> RowTarget(v).value == Ref(p.value, index)
  {
    match k
    case Read => ReadRef(Ref(p.value, index))
    case Write => WriteRef(Ref(p.value, index))
    case OptionalRead => OptReadRef(if p.None? then None else Some(Ref(p.value, index)))
    case OptionalWrite => OptWriteRef(if p.None? then None else Some(Ref(p.value, index)))
  }

  /** `create_tuple_with_ref_data`: as `CreateTupleData`, except that a shared (ref)
      column is always read at offset 0, whatever the row. */
  function CreateTupleWithRefData(k: AccessKind, p: Ptr, isRef: bool, index: nat): (v: RowValue)
    requires NullOnlyIfOptional(k, p)
    ensures RowKind(v) == k
    ensures RowTarget(v).None? <==> p.None?
    ensures p.Some? ==> RowTarget(v).value.column == p.value
    ensures p.Some? && isRef ==> RowTarget(v).value.offset == 0
    ensures p.Some? && !isRef ==> RowTarget(v).value.offset == index
  {
    match k
    case Read => ReadRef(if isRef then Ref(p.value, 0) else Ref(p.value, index))
    case Write => WriteRef(if isRef then Ref(p.value, 0) else Ref(p.value, index))
    case OptionalRead =>
      OptReadRef(if p.None? then None
                 else if isRef then Some(Ref(p.value, 0)) else Some(Ref(p.value, index)))
    case OptionalWrite =>
      OptWriteRef(if p.None? then None
                  else if isRef then Some(Ref(p.value, 0)) else Some(Ref(p.value, index)))
  }

  /** `create_tuple_slice_data`: the first `count` elements of the column; an optional
      slot on a null column is absent. */
  function CreateTupleSliceData(k: AccessKind, p: Ptr, count: nat): (s: SliceValue)
    requires NullOnlyIfOptional(k, p)
    ensures SliceKind(s) == k
    ensures SliceTarget(s).None? <==> p.None?
    ensures p.Some? ==> SliceTarget(s).value == View(p.value, count)
  {
    match k
    case Read => ReadSlice(View(p.value, count))
    case Write => WriteSlice(View(p.value, count))
    case OptionalRead => OptReadSlice(if p.None? then None else Some(View(p.value, count)))
    case OptionalWrite => OptWriteSlice(if p.None? then None else Some(View(p.value, count)))
  }

  /** `create_tuple_slices_with_ref_data`: as `CreateTupleSliceData`, except that a shared
      column yields a slice of length 1, never one of length `count`. */
  function CreateTupleSlicesWithRefData(k: AccessKind, p: Ptr, isRef: bool, count: nat): (s: SliceValue)
    requires NullOnlyIfOptional(k, p)
    ensures SliceKind(s) == k
    ensures SliceTarget(s).None? <==> p.None?
    ensures p.Some? ==> SliceTarget(s).value.column == p.value
    ensures p.Some? && isRef ==> SliceTarget(s).value.len == 1
    ensures p.Some? && !isRef ==> SliceTarget(s).value.len == count
  {
    match k
    case Read => ReadSlice(if isRef then View(p.value, 1) else View(p.value, count))
    case Write => WriteSlice(if isRef then View(p.value, 1) else View(p.value, count))
    case OptionalRead =>
      OptReadSlice(if p.None? then None
                   else if isRef then Some(View(p.value, 1)) else Some(View(p.value, count)))
    case OptionalWrite =>
      OptWriteSlice(if p.None? then None
                    else if isRef then Some(View(p.value, 1)) else Some(View(p.value, count)))
  }

  /** The plain per-row path is the ref-aware path on a column that is not shared. */
  lemma PlainRowIsUnsharedRow(k: AccessKind, p: Ptr, index: nat)
    requires NullOnlyIfOptional(k, p)
    ensures CreateTupleData(k, p, index) == CreateTupleWithRefData(k, p, false, index)
  {
  }

  /** The plain slice path is the ref-aware path on a column that is not shared. */
  lemma PlainSliceIsUnsharedSlice(k: AccessKind, p: Ptr, count: nat)
    requires NullOnlyIfOptional(k, p)
    ensures CreateTupleSliceData(k, p, count) == CreateTupleSlicesWithRefData(k, p, false, count)
  {
  }

  /** Every row of a shared column materializes to the same value. */
  lemma SharedRowsCoincide(k: AccessKind, p: Ptr, i: nat, j: nat)
    requires NullOnlyIfOptional(k, p)
    ensures CreateTupleWithRefData(k, p, true, i) == CreateTupleWithRefData(k, p, true, j)
  {
  }

  /** Distinct rows of a present, non-shared column refer to distinct elements. */
  lemma UnsharedRowsDistinct(k: AccessKind, p: Ptr, i: nat, j: nat)
    requires NullOnlyIfOptional(k, p) && p.Some? && i != j
    ensures RowTarget(CreateTupleWithRefData(k, p, false, i))
         != RowTarget(CreateTupleWithRefData(k, p, false, j))
  {
  }

  /** An optional slot is absent on a null column and otherwise wraps exactly the
      reference its non-optional form yields. */
  lemma OptionalRowWrapsRequired(k: AccessKind, p: Ptr, isRef: bool, index: nat)
    requires IsOptional(k)
    ensures p.None? ==> RowTarget(CreateTupleWithRefData(k, p, isRef, index)) == None
    ensures p.Some? ==>
      RowTarget(CreateTupleWithRefData(k, p, isRef, index))
        == RowTarget(CreateTupleWithRefData(Unwrapped(k), p, isRef, index))
  {
  }

  /** The slice counterpart of `OptionalRowWrapsRequired`. */
  lemma OptionalSliceWrapsRequired(k: AccessKind, p: Ptr, isRef: bool, count: nat)
    requires IsOptional(k)
    ensures p.None? ==> SliceTarget(CreateTupleSlicesWithRefData(k, p, isRef, count)) == None
    ensures p.Some? ==>
      SliceTarget(CreateTupleSlicesWithRefData(k, p, isRef, count))
        == SliceTarget(CreateTupleSlicesWithRefData(Unwrapped(k), p, isRef, count))
  {
  }

  /** A row read through a slice lies inside that slice: for a non-shared column every
      row below `count`, for a shared column row 0 (the only one there is). */
  lemma RowLiesInSlice(k: AccessKind, p: Ptr, isRef: bool, index: nat, count: nat)
    requires NullOnlyIfOptional(k, p) && p.Some? && index < count
    ensures RowTarget(CreateTupleWithRefData(k, p, isRef, index)).value.column
         == SliceTarget(CreateTupleSlicesWithRefData(k, p, isRef, count)).value.column
    ensures RowTarget(CreateTupleWithRefData(k, p, isRef, index)).value.offset
          < SliceTarget(CreateTupleSlicesWithRefData(k, p, isRef, count)).value.len
  {
  }

  // The `Wrapper<T>` / `TupleForm` helpers: the same four operations for a mutable
  // element, with `IS_OPTION` choosing between `&mut T` and `Option<&mut T>`.

  /** The kind a `TupleForm` impl stands for. */
  function FormKind(isOption: bool): AccessKind {
    if isOption then OptionalWrite else Write
  }

  function ReturnTypeForTuple(isOption: bool, p: Ptr, index: nat): (v: RowValue)
    requires isOption || p.Some?
    ensures v == CreateTupleData(FormKind(isOption), p, index)
  {
    if !isOption then WriteRef(Ref(p.value, index))
    else if p.None? then OptWriteRef(None)
    else OptWriteRef(Some(Ref(p.value, index)))
  }

  function ReturnTypeForTupleWithRef(isOption: bool, p: Ptr, isRef: bool, index: nat): (v: RowValue)
    requires isOption || p.Some?
    ensures v == CreateTupleWithRefData(FormKind(isOption), p, isRef, index)
  {
    if !isOption then WriteRef(Ref(p.value, if isRef then 0 else index))
    else if p.None? then OptWriteRef(None)
    else if isRef then OptWriteRef(Some(Ref(p.value, 0)))
    else OptWriteRef(Some(Ref(p.value, index)))
  }

  function ReturnTypeForTupleSlices(isOption: bool, p: Ptr, count: nat): (s: SliceValue)
    requires isOption || p.Some?
    ensures s == CreateTupleSliceData(FormKind(isOption), p, count)
  {
    if !isOption then WriteSlice(View(p.value, count))
    else if p.None? then OptWriteSlice(None)
    else OptWriteSlice(Some(View(p.value, count)))
  }

  function ReturnTypeForTupleSlicesWithRef(isOption: bool, p: Ptr, isRef: bool, count: nat): (s: SliceValue)
    requires isOption || p.Some?
    ensures s == CreateTupleSlicesWithRefData(FormKind(isOption), p, isRef, count)
  {
    if !isOption then WriteSlice(View(p.value, if isRef then 1 else count))
    else if p.None? then OptWriteSlice(None)
    else if isRef then OptWriteSlice(Some(View(p.value, 1)))
    else OptWriteSlice(Some(View(p.value, count)))
  }
}
