# flecs-ecs-rs typed query layer and `Component` derive, modelled in Dafny

This project models two parts of the Rust bindings for the flecs entity-component-system
engine.

**The typed query/iteration layer** (`flecs_ecs/src/core/iterable.rs`). A query is declared
as a tuple type: a *shape* of up to twelve slots. Each slot names a component and an access
kind: `&T`, `&mut T`, `Option<&T>` or `Option<&mut T>`. The layer has three parts:

- **Term-descriptor builder.** For each slot it writes the component id and the access tagging into the next term record of a filter descriptor, and advances a shared cursor.
- **Batch column resolver** (`populate_array_ptrs`, `ComponentsData::new`). For each batch the engine reports, it copies one raw column pointer and one "is ref" (shared) flag per slot into fixed arrays.
- **Tuple materializer.** It turns those arrays into typed results: per row (`get_tuple`), or per batch as slices (`get_slice`).
  - A shared column is read at offset 0, or as a slice of length 1.
  - A null column on an optional slot gives `None`.

**The decisions of `#[derive(Component)]`** (`flecs_ecs_derive/src/lib.rs`):

- tag versus non-tag structs;
- the marker trait emitted;
- the constants of the `ComponentInfo` impls;
- for enums, the variant count, the index and name match tables, and the `iter()` constructors;
- the symbol-name string transform.

Files, one module each:

| file | module | models |
|---|---|---|
| options.dfy | Options | `Option`, used for null pointers, optional slots and match results |
| access.dfy | Access | access kinds, the engine's term record, `populate_term` |
| descriptors.dfy | Descriptors | `register_ids_descriptor_at` / `register_ids_descriptor` over an `array` of terms |
| materialize.dfy | Materialize | the per-kind `create_tuple_*_data` functions and the `Wrapper` / `TupleForm` helpers |
| tuples.dfy | Tuples | the cursor-consuming `create_tuple*` builders (single slot and tuple) |
| resolver.dfy | Resolver | the batch, `populate_array_ptrs` over arrays, the `ComponentsData` class |
| shared_sources.dfy | SharedSources | the per-field shared flag (see Findings) |
| symbol_name.dfy | SymbolNames | `get_symbol_name_c` / `get_symbol_name` |
| component_derive.dfy | ComponentDerive | `component_derive` and the struct and enum impl decisions |

Memory is abstract:

- A column is a `ColumnId`.
- A pointer is `Option<ColumnId>`, where `None` is null.
- A reference is `Ref(column, offset)`.
- A slice is `View(column, len)`, which always starts at offset 0.

The code in the source that works in place is imperative here:

- The descriptor builder and the resolver write into `array`s and return the advanced cursor.
- The tuple builders consume their cursor sequences one slot per step in a loop. That loop stands for the `$( .. )*` expansion of `impl_iterable!`.
- `ComponentsData` is a class whose arrays are filled by its constructor.

The branch-only per-slot code and the derive are functions.

External collaborators are parameters:

- The component identity source (`ComponentId::get_id`) is the function `idOf`, so the lookup is deterministic.
- `ecs_field` is `Resolver.Field` over a `Batch`, with fields counted from 1.
- `std::any::type_name` is the string `typeName`.

## Model

| member | source | states |
|---|---|---|
| Access.PopulateTerm | flecs_ecs/src/core/iterable.rs:120-303 | the four `populate_term` bodies (120-122, 177-179, 234-237, 300-303): `inout` is `In` exactly for `&T`/`Option<&T>` and `InOut` exactly for `&mut T`/`Option<&mut T>`; `oper` becomes `Optional` for the two `Option` kinds and is untouched otherwise; id and every other field are untouched |
| Access.PopulateTermRoundTrip | flecs_ecs/src/core/iterable.rs:300-303 | from a term not already `Optional`, the engine reads back exactly the access kind that was written: the tagging loses nothing |
| Descriptors.Describe | flecs_ecs/src/core/iterable.rs:431-432 | a slot's term carries the slot's component id and, when the incoming term's operator was not already `Optional`, reads back as the slot's access kind; the untouched fields stay |
| Descriptors.RegisterIdAt | flecs_ecs/src/core/iterable.rs:426-434 | writes only `terms[index]` (id then tagging) and advances the cursor by exactly one |
| Descriptors.RegisterIdsDescriptorAt | flecs_ecs/src/core/iterable.rs:655-657 | terms `s..s+N` get, in declared order, slot `k`'s id and tagging at `s+k`; the cursor ends at `s+N`; every other term is unchanged |
| Descriptors.RegisterIdsDescriptor | flecs_ecs/src/core/iterable.rs:368-370 | the same, starting at term 0: terms `0..N` describe the slots in order and, as a sequence, equal `DescribedTerms` of the old descriptor; the rest of the descriptor is unchanged |
| Descriptors.DescribedTermsAlign | flecs_ecs/src/core/iterable.rs:426-434 | one term per slot; term `k` has slot `k`'s id and reads back as slot `k`'s access kind |
| Materialize.CreateTupleData | flecs_ecs/src/core/iterable.rs:239-246 | `create_tuple_data` of all four kinds (also 124-127, 181-184, 305-312): result has the slot's kind; absent iff the column is null; otherwise refers to the column at offset `index` |
| Materialize.CreateTupleWithRefData | flecs_ecs/src/core/iterable.rs:248-261 | `create_tuple_with_ref_data` of all four kinds (also 129-142, 186-199, 314-327): absent iff null; a shared column gives offset 0, a non-shared one offset `index` |
| Materialize.CreateTupleSliceData | flecs_ecs/src/core/iterable.rs:263-273 | `create_tuple_slice_data` of all four kinds (also 144-150, 201-207, 329-339): absent iff null; otherwise a view of length `count` from offset 0 |
| Materialize.CreateTupleSlicesWithRefData | flecs_ecs/src/core/iterable.rs:275-288 | `create_tuple_slices_with_ref_data` of all four kinds (also 152-165, 209-222, 341-354): absent iff null; a shared column gives length 1, never `count`; a non-shared one length `count` |
| Materialize.PlainRowIsUnsharedRow | flecs_ecs/src/core/iterable.rs:124-142 | the plain per-row path equals the ref-aware path with the flag false |
| Materialize.PlainSliceIsUnsharedSlice | flecs_ecs/src/core/iterable.rs:144-165 | the plain slice path equals the ref-aware path with the flag false |
| Materialize.SharedRowsCoincide | flecs_ecs/src/core/iterable.rs:129-142 | on a shared column every row index yields the same value |
| Materialize.UnsharedRowsDistinct | flecs_ecs/src/core/iterable.rs:124-127 | on a present non-shared column distinct rows refer to distinct elements |
| Materialize.OptionalRowWrapsRequired | flecs_ecs/src/core/iterable.rs:248-261 | an optional slot is `None` on a null column, and otherwise `Some` of exactly the reference the non-optional kind yields |
| Materialize.OptionalSliceWrapsRequired | flecs_ecs/src/core/iterable.rs:275-288 | an optional slot's slice is `None` on a null column, and otherwise the slice the non-optional kind yields |
| Materialize.RowLiesInSlice | flecs_ecs/src/core/iterable.rs:129-165 | for a row below `count`, the per-row reference lies inside the per-batch view of the same slot, shared or not |
| Materialize.ReturnTypeForTuple | flecs_ecs/src/core/iterable.rs:567-575 | `Wrapper` `return_type_for_tuple` (also 521-523): equals `create_tuple_data` of `&mut T` (or `Option<&mut T>` when `IS_OPTION`) |
| Materialize.ReturnTypeForTupleWithRef | flecs_ecs/src/core/iterable.rs:579-589 | `return_type_for_tuple_with_ref` (also 527-535): equals `create_tuple_with_ref_data` of the matching mutable kind |
| Materialize.ReturnTypeForTupleSlices | flecs_ecs/src/core/iterable.rs:593-602 | `return_type_for_tuple_slices` (also 539-541): equals `create_tuple_slice_data` of the matching mutable kind |
| Materialize.ReturnTypeForTupleSlicesWithRef | flecs_ecs/src/core/iterable.rs:606-622 | `return_type_for_tuple_slices_with_ref` (also 545-557): equals `create_tuple_slices_with_ref_data` of the matching mutable kind |
| Tuples.CreateTupleSlot | flecs_ecs/src/core/iterable.rs:452-456 | materializes the front pointer and leaves the cursor one shorter |
| Tuples.CreateTupleWithRefSlot | flecs_ecs/src/core/iterable.rs:460-470 | materializes from the front pointer and front flag; both cursors advance by one |
| Tuples.CreateTupleSlicesSlot | flecs_ecs/src/core/iterable.rs:472-479 | slices the front pointer; the cursor advances by one |
| Tuples.CreateTupleSlicesWithRefSlot | flecs_ecs/src/core/iterable.rs:481-494 | slices from the front pointer and front flag; both cursors advance by one |
| Tuples.CreateTuple | flecs_ecs/src/core/iterable.rs:669-671 | result arity equals the shape's; slot `k` is built from `array_components[k]`; the cursor advances by exactly the arity |
| Tuples.CreateTupleWithRef | flecs_ecs/src/core/iterable.rs:674-676 | slot `k` from `array_components[k]` and `is_ref[k]`; both cursors advance by exactly the arity; arity preserved |
| Tuples.CreateTupleSlices | flecs_ecs/src/core/iterable.rs:679-684 | slot `k`'s slice from `array_components[k]`; the cursor advances by the arity; arity preserved |
| Tuples.CreateTupleSlicesWithRef | flecs_ecs/src/core/iterable.rs:687-693 | slot `k`'s slice from `array_components[k]` and `is_ref[k]`; both cursors advance by the arity |
| Tuples.RowPathsAgreeWithoutSharing | flecs_ecs/src/core/iterable.rs:60-70 | when no flag is set, `create_tuple` and `create_tuple_with_ref` build the same row |
| Tuples.SlicePathsAgreeWithoutSharing | flecs_ecs/src/core/iterable.rs:72-82 | when no flag is set, `create_tuple_slices` and `create_tuple_slices_with_ref` build the same batch |
| Tuples.RowTupleSlotByRow | flecs_ecs/src/core/iterable.rs:674-676 | within a tuple, a shared slot is the same on every row and a present non-shared slot differs between rows |
| Tuples.ThreeSlotRows | flecs_ecs/src/core/iterable.rs:669-676 | shape (`&T0`, `&mut T1`, `Option<&T2>`) over columns `[a, b, null]`: row `i` is (`&a[i]`, `&mut b[i]`, `None`) |
| Tuples.SharedSecondSlot | flecs_ecs/src/core/iterable.rs:687-693 | shape (`&T0`, `&T1`) with slot 1 shared: row `i` is (`&a[i]`, `&b[0]`); the batch views have lengths `count` and 1 |
| Resolver.FirstSourceIsRef | flecs_ecs/src/core/iterable.rs:444-448 | the flag stored for a slot: false when `sources` is null, otherwise `sources[0] != 0` |
| Resolver.FirstSourceIgnoresLaterEntries | flecs_ecs/src/core/iterable.rs:444-448 | the slot's own source entry is never read: batches agreeing on `sources` being present and on entry 0 get the same flag |
| Resolver.ResolvedFlags | flecs_ecs/src/core/iterable.rs:444-448 | every slot's flag is the same value: `sources` non-null and `sources[0] != 0` |
| Resolver.PopulateArrayPtrsSlot | flecs_ecs/src/core/iterable.rs:436-450 | slot `index` gets engine field `index + 1` and the first-source flag; nothing else changes; the cursor advances by one |
| Resolver.PopulateArrayPtrs | flecs_ecs/src/core/iterable.rs:659-666 | slots `s..s+N` get fields `s+1..s+N` and the first-source flag; other entries are unchanged; the cursor advances by exactly `N` |
| Resolver.ComponentsData.constructor | flecs_ecs/src/core/iterable.rs:39-58 | starts from all-null / all-false arrays populated from cursor 0: the pointers are fields `1..N`, all flags equal the first source's, `is_any_array_a_ref = is_ref[0]` (arity at least 1) |
| Resolver.ComponentsData.GetTuple | flecs_ecs/src/core/iterable.rs:60-70 | the fast path (taken iff `is_ref[0]` is false) and the ref-aware path yield the same row: the ref-aware materialization of the stored columns |
| Resolver.ComponentsData.GetSlice | flecs_ecs/src/core/iterable.rs:72-82 | as `GetTuple`, for the per-batch slices |
| Resolver.RowOfBatch | flecs_ecs/src/core/iterable.rs:39-70 | `ComponentsData::new` on a batch followed by `get_tuple` builds exactly the row `GetTupleOf` describes |
| Resolver.SliceOfBatch | flecs_ecs/src/core/iterable.rs:39-82 | `ComponentsData::new` on a batch followed by `get_slice` yields the ref-aware slices over the resolved pointers and first-source flags |
| Resolver.GetTupleOf | flecs_ecs/src/core/iterable.rs:60-70 | the row of a batch, from resolution to `get_tuple`, equals the ref-aware row over the resolved pointers and flags |
| Resolver.GetTupleOffsets | flecs_ecs/src/core/iterable.rs:444-448 | each present slot of a batch's row is read at offset 0 if the FIRST source is another entity, at the row index otherwise |
| SharedSources.LaterSharedFieldReadPerRow | flecs_ecs/src/core/iterable.rs:444-448 | counterexample: second field matched on entity 5, yet row 2 reads its single-element column at offset 2 |
| SharedSources.LaterSharedFieldSlicedWhole | flecs_ecs/src/core/iterable.rs:444-448 | counterexample through `get_slice`: with sources `[0, 5]` the second field's single-element column is handed out as a 3-element slice |
| SharedSources.FirstSharedFieldMasksOthers | flecs_ecs/src/core/iterable.rs:444-448 | counterexample: only the first field shared, yet row 2 reads the per-entity second column at offset 0 |
| SharedSources.GetTupleSlotZeroPath | flecs_ecs/src/core/iterable.rs:50 | per-field flags with the path still chosen from slot 0: the fast path iff field 1 is not shared, the ref-aware path over the per-field flags otherwise |
| SharedSources.SlotZeroPathMissesLaterSharedField | flecs_ecs/src/core/iterable.rs:50 | counterexample: with per-field flags and sources `[0, 5]`, field 2 is shared, yet row 2 reads it at offset 2; the corrected row reads it at offset 0 |
| SharedSources.PerFieldFlags | flecs_ecs/src/core/iterable.rs:444-448 | corrected resolution: slot `k`'s flag is `sources[k] != 0` |
| SharedSources.GetTupleCorrected | flecs_ecs/src/core/iterable.rs:60-70 | corrected `get_tuple`: the fast path only when no slot is shared; one value per slot, also at arity 0 |
| SharedSources.CorrectedRowOffsets | flecs_ecs/src/core/iterable.rs:444-448 | corrected row: slot `k` keeps its kind, is `None` iff null, and is read at offset 0 iff its own field comes from another entity |
| SharedSources.CorrectedAgreesWhenSourcesUniform | flecs_ecs/src/core/iterable.rs:60-70 | where all fields agree on being shared or not, the corrected row equals the row the source builds |
| SymbolNames.ReplacePathSeparators | flecs_ecs_derive/src/lib.rs:135 | `type_name::<Self>().replace("::", ".")` (also at 461) as a left-to-right scan over non-overlapping `::`: the result is never longer than the type name and is empty only for the empty name; its other properties are the four lemmas below |
| SymbolNames.ReplaceHead | flecs_ecs_derive/src/lib.rs:135 | the replaced name begins with `.` for a leading `::` and with the type name's first character otherwise |
| SymbolNames.ReplaceRemovesSeparators | flecs_ecs_derive/src/lib.rs:135 | no `::` is left after `replace("::", ".")` |
| SymbolNames.ReplaceChars | flecs_ecs_derive/src/lib.rs:135 | every character of the replaced name is `.` or a character of the type name |
| SymbolNames.ReplaceRoundTrip | flecs_ecs_derive/src/lib.rs:135 | for a type name without `.`, turning each `.` back into `::` recovers the type name |
| SymbolNames.SymbolNameC | flecs_ecs_derive/src/lib.rs:131-139 | `get_symbol_name_c` ends with `'\0'` and has no `::` before it |
| SymbolNames.SymbolName | flecs_ecs_derive/src/lib.rs:143-146 | `get_symbol_name` is one character shorter, is the replaced type name, and with `'\0'` appended is `get_symbol_name_c` |
| SymbolNames.SymbolNameCIsCString | flecs_ecs_derive/src/lib.rs:136 | for a type name without NUL, the terminator is the only NUL in `get_symbol_name_c` |
| ComponentDerive.HasFields | flecs_ecs_derive/src/lib.rs:68-72 | true iff the struct has at least one field: unit, empty named and empty unnamed fields all give false |
| ComponentDerive.StructImpl | flecs_ecs_derive/src/lib.rs:224-264 | exactly one marker, `NotEmptyComponent` iff fields exist; impls for `T`, `&T`, `&mut T`, all with `UnderlyingType = T`, `IS_ENUM = false`, `IS_TAG` iff no fields, and `T`'s symbol name |
| ComponentDerive.StructTagDecision | flecs_ecs_derive/src/lib.rs:68-78 | through the dispatch: `IS_TAG` iff no fields, `EmptyComponent` iff no fields, and the three impls differ only in their self type |
| ComponentDerive.VariantConstructor | flecs_ecs_derive/src/lib.rs:267-295 | builds the same variant with the same field count (and names) and every field `Default::default()` |
| ComponentDerive.VariantMatchArm | flecs_ecs_derive/src/lib.rs:297-341 | the arm's pattern matches its variant; the body is the index when `use_index`, else the identifier followed by NUL |
| ComponentDerive.SizeAsU32 | flecs_ecs_derive/src/lib.rs:369 | `len() as u32` truncates to 32 bits and equals the count below 2^32 |
| ComponentDerive.EnumImpl | flecs_ecs_derive/src/lib.rs:352-399 | `IS_ENUM = true`, `IS_TAG = false`; `NotEmptyComponent`, or the compile error for zero variants; `SIZE_ENUM_FIELDS` is the variant count; arm and constructor `i` belong to variant `i`, index arm `i` returns `i` |
| ComponentDerive.Derive | flecs_ecs_derive/src/lib.rs:44-59 | a struct goes to the struct impl, an enum to the enum impl, anything else to the compile error |
| ComponentDerive.Dispatch | flecs_ecs_derive/src/lib.rs:380-390 | the generated `match self` finds an arm iff some arm's pattern matches |
| ComponentDerive.DispatchFirstMatch | flecs_ecs_derive/src/lib.rs:386-390 | the match returns the body of the first arm whose pattern matches |
| ComponentDerive.MatchesOnlyItsVariant | flecs_ecs_derive/src/lib.rs:316-339 | a generated pattern never matches a variant with another identifier |
| ComponentDerive.EnumTablesSelectVariant | flecs_ecs_derive/src/lib.rs:362-366 | for distinct identifiers, `get_enum_index` of the `i`-th variant is `i` and `get_cstr_name` is its identifier followed by NUL |
| ComponentDerive.EnumIndexInjective | flecs_ecs_derive/src/lib.rs:386-390 | enum indices of distinct variants differ and are below the variant count |

## Left out

- `Iterable::populate` (iterable.rs:418-424, 644-652) drives the external filter builder (`term_with_id`, `current_term`). Per slot it does the same id-then-tagging step as the descriptor path, which is modelled.
- `create_ptrs` (iterable.rs:362-364) only calls `ComponentsData::new`.
- The `IterT` internals, `ecs_field` and `ComponentId::get_id` belong to the engine. They are a `Batch` value, `Field` and the parameter `idOf`. First-use registration is not modelled.
- Unsafe dereference, lifetimes, aliasing and liveness of the column memory are not modelled. References and slices are values.
- Resolver.ComponentsData.constructor: requires arity at least 1. `is_ref_array_components[0]` (iterable.rs:50) panics for the arity-0 shape that `tuples!(impl_iterable, 0, 12)` also generates.
- The `tuples!` macro itself is not part of this model. Shapes are sequences of any length; the source's bound of 12 plays no role in any property.
- Materialize.CreateTupleData and the other per-kind functions require that a null column only reaches an optional slot. For a non-optional slot, the source dereferences the null pointer, which is undefined behaviour.
- The cursors and the arrays must be long enough for the arity. Indexing past the end panics in the source.
- The derive's token construction (`syn`, `quote!`) is out, and so is the generated registration code: `register_explicit*`, `get_data`, `get_id`, `get_size`, `get_alignment`, `get_allow_tag`, the `OnceLock` caches, `__initialize`, `get_data_unchecked`, `is_registered` and the `static mut` enum id array. They are global state and calls into the engine. The derive is described by its decisions, and `std::any::type_name` is an input string.
- The `panic!` at lib.rs:349 cannot be reached from `component_derive`, so it is not modelled.
- ComponentDerive.EnumTablesSelectVariant: requires distinct variant identifiers, which the Rust compiler enforces for every enum.
- The other repository files (pipeline builder, app, the pair prototype, tests, examples, the bridge re-exports) are glue over the engine and are not part of this model.

## Findings

| source | as written | input that shows it | evidently intended | confidence | as-written member | corrected member |
|---|---|---|---|---|---|---|
| flecs_ecs/src/core/iterable.rs:444-448 | every slot's shared flag is read from `it.sources.add(0)`, the first field's source | shape (`&A`, `&B`), fields `[c1, c2]`, sources `[0, 5]`, row 2: slot 1 reads `c2` at offset 2, but `c2` holds one element; `get_slice` likewise hands out `c2` as a 3-element slice (`SharedSources.LaterSharedFieldSlicedWhole`) (and with sources `[5, 0]` slot 1 reads the per-entity `c2` at offset 0, shown by `SharedSources.FirstSharedFieldMasksOthers`) | slot `k`'s flag is `sources[k] != 0` | not executed; high | SharedSources.LaterSharedFieldReadPerRow | SharedSources.CorrectedRowOffsets |
| flecs_ecs/src/core/iterable.rs:50 | the path is chosen from `is_ref[0]` alone; harmless while every flag copies the first source, so a latent defect that surfaces once the flags are per field | per-field flags, same shape and fields, sources `[0, 5]`, row 2: slot 0 is not shared, so the fast path reads the shared `c2` at offset 2 | take the fast path only when no slot is shared | not executed; medium (latent) | SharedSources.SlotZeroPathMissesLaterSharedField | SharedSources.GetTupleCorrected |

`Resolver` models the code as written, so `ComponentsData`, `GetTuple` and `GetTupleOf` keep the first-source flag. The corrected resolution lives in `SharedSources`:

- per-field flags;
- the fast path only when no slot is shared (`GetTupleSlotZeroPath` keeps the slot-0 choice with per-field flags, to show why both changes are needed);
- a proof that each slot is read at offset 0 exactly when its own field comes from another entity;
- a proof that it agrees with the source whenever all fields agree.
