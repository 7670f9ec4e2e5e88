/** The term-descriptor builder: `register_ids_descriptor_at` writes, for each slot of a
    shape, the slot's component id and access tagging into the next term record of a
    filter descriptor and advances a shared cursor.

    The component identity source (`ComponentId::get_id`) is external; it is passed in as
    the function `idOf`, which makes the lookup deterministic by construction. */
module Descriptors {
  import opened Options
  import opened Access

  /** The term a slot turns `t` into: its component id, then its access tagging. */
  function Describe(slot: Slot, idOf: TypeKey -> nat, t: Term): (r: Term)
    ensures r.id == idOf(slot.component) && r.other == t.other
    ensures AccessOf(r) == Some(slot.access) || t.oper == Optional
  {
    PopulateTerm(slot.access, t.(id := idOf(slot.component)))
  }

  /** Single-slot `register_ids_descriptor_at`: write `terms[index]`, advance by one. */
  method RegisterIdAt(slot: Slot, idOf: TypeKey -> nat, terms: array<Term>, index: nat)
    returns (next: nat)
    requires index < terms.Length
    modifies terms
    ensures next == index + 1
    ensures terms[index] == Describe(slot, idOf, old(terms[index]))
    ensures forall j :: 0 <= j < terms.Length && j != index ==> terms[j] == old(terms[j])
  {
    terms[index] := Describe(slot, idOf, terms[index]);
    next := index + 1;
  }

  /** Tuple `register_ids_descriptor_at`: one single-slot call per slot, in declared order,
      sharing the cursor. Terms `index..index+|shape|` are written, all others kept. */
  method RegisterIdsDescriptorAt(shape: Shape, idOf: TypeKey -> nat, terms: array<Term>, index: nat)
    returns (next: nat)
    requires index + |shape| <= terms.Length
    modifies terms
    ensures next == index + |shape|
    ensures forall j :: index <= j < next ==>
              terms[j] == Describe(shape[j - index], idOf, old(terms[j]))
    ensures forall j :: 0 <= j < terms.Length && !(index <= j < next) ==> terms[j] == old(terms[j])
  {
    next := index;
    for k := 0 to |shape|
      invariant next == index + k
      invariant forall j :: index <= j < next ==>
                  terms[j] == Describe(shape[j - index], idOf, old(terms[j]))
      invariant forall j :: 0 <= j < terms.Length && !(index <= j < next) ==> terms[j] == old(terms[j])
    {
      next := RegisterIdAt(shape[k], idOf, terms, next);
    }
  }

  /** `register_ids_descriptor`: the same, always starting at the first term. */
  method RegisterIdsDescriptor(shape: Shape, idOf: TypeKey -> nat, terms: array<Term>)
    requires |shape| <= terms.Length
    modifies terms
    ensures forall j :: 0 <= j < |shape| ==> terms[j] == Describe(shape[j], idOf, old(terms[j]))
    ensures forall j :: |shape| <= j < terms.Length ==> terms[j] == old(terms[j])
    ensures terms[..|shape|] == DescribedTerms(shape, idOf, old(terms[..]))
  {
    var next := RegisterIdsDescriptorAt(shape, idOf, terms, 0);
    forall j | 0 <= j < |shape|
      ensures terms[j] == Describe(shape[j], idOf, old(terms[j]))
    {
      assert j - 0 == j;
    }
  }

  /** The terms a shape produces from a fresh descriptor, as a value: term `k` carries
      slot `k`'s id and access kind, and there is exactly one term per slot. */
  function DescribedTerms(shape: Shape, idOf: TypeKey -> nat, blank: seq<Term>): (r: seq<Term>)
    requires |shape| <= |blank|
    ensures |r| == |shape|
  {
    seq(|shape|, k requires 0 <= k < |shape| => Describe(shape[k], idOf, blank[k]))
  }

  /** Every term built from a fresh (non-optional) record reads back as its slot:
      the descriptor sequence and the shape correspond position by position. */
  lemma DescribedTermsAlign(shape: Shape, idOf: TypeKey -> nat, blank: seq<Term>, k: nat)
    requires |shape| <= |blank| && k < |shape|
    requires forall j :: 0 <= j < |blank| ==> blank[j].oper != Optional
    ensures DescribedTerms(shape, idOf, blank)[k].id == idOf(shape[k].component)
    ensures AccessOf(DescribedTerms(shape, idOf, blank)[k]) == Some(shape[k].access)
  {
  }
}
