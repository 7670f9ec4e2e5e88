/** Access kinds of a query slot and the engine's term record they are written into.

    A query shape is an ordered list of slots; each slot names a component type and
    how it is borrowed: `&T`, `&mut T`, `Option<&T>` or `Option<&mut T>`. The term
    record (`ecs_term_t`) belongs to the external engine; this layer writes only its
    component id, its in/out mode and its operator. */
module Access {
  import opened Options

  /** The four borrow forms a slot can take: `&T`, `&mut T`, `Option<&T>`, `Option<&mut T>`. */
  datatype AccessKind = Read | Write | OptionalRead | OptionalWrite

  predicate IsOptional(k: AccessKind) {
    k == OptionalRead || k == OptionalWrite
  }

  predicate IsMutable(k: AccessKind) {
    k == Write || k == OptionalWrite
  }

  /** The non-optional kind an `Option<..>` kind wraps (`Option<&T>` wraps `&T`). */
  function Unwrapped(k: AccessKind): (r: AccessKind)
    ensures !IsOptional(r) && IsMutable(r) == IsMutable(k)
    ensures !IsOptional(k) ==> r == k
  {
    match k
    case OptionalRead => Read
    case OptionalWrite => Write
    case _ => k
  }

  /** A component type, identified by its Rust type name. */
  type TypeKey = string

  /** One position of a query shape. */
  datatype Slot = Slot(component: TypeKey, access: AccessKind)

  /** A compile-time query shape: the tuple `(A, B, ..)` of slots, in declared order.
      The source generates shapes of arity 0 to 12; nothing here depends on the bound. */
  type Shape = seq<Slot>

  /** The engine's in/out mode of a term (`ecs_inout_kind_t`). */
  datatype InOutKind = InOutDefault | InOutNone | InOut | In | Out

  /** The engine's term operator (`ecs_oper_kind_t`). */
  datatype OperKind = And | Or | Not | Optional | AndFrom | OrFrom | NotFrom

  /** A term record. `other` stands for every field of `ecs_term_t` this layer never
      writes (source, first/second, flags, name, ...). */
  datatype Term = Term(id: nat, inout: InOutKind, oper: OperKind, other: seq<int>)

  /** `populate_term` of the four `IterableTypeOperation` impls: reads are `In`,
      writes are `InOut`, the optional kinds also set the `Optional` operator;
      the id, the other fields and (for non-optional kinds) the operator are kept. */
  function PopulateTerm(k: AccessKind, t: Term): (r: Term)
    ensures r.id == t.id && r.other == t.other
    ensures r.inout == In <==> !IsMutable(k)
    ensures r.inout == InOut <==> IsMutable(k)
    ensures IsOptional(k) ==> r.oper == Optional
    ensures !IsOptional(k) ==> r.oper == t.oper
  {
    match k
    case Read => t.(inout := In)
    case Write => t.(inout := InOut)
    case OptionalRead => t.(inout := In, oper := Optional)
    case OptionalWrite => t.(inout := InOut, oper := Optional)
  }

  /** Reads back the access kind a term was tagged with, as the engine interprets it. */
  function AccessOf(t: Term): Option<AccessKind> {
    match (t.inout, t.oper)
    case (In, Optional) => Some(OptionalRead)
    case (InOut, Optional) => Some(OptionalWrite)
    case (In, _) => Some(Read)
    case (InOut, _) => Some(Write)
    case _ => None
  }

  /** The tagging is faithful: from a term whose operator was not yet `Optional`,
      the kind written by `PopulateTerm` is read back exactly. */
  lemma PopulateTermRoundTrip(k: AccessKind, t: Term)
    requires t.oper != Optional
    ensures AccessOf(PopulateTerm(k, t)) == Some(k)
  {
  }
}
