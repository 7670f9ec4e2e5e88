/** The decisions of `#[derive(Component)]`, over an abstract description of the input type.

    The macro's output is described by what it decides, not by its tokens: which marker
    trait it emits (`EmptyComponent`, `NotEmptyComponent` or a `compile_error!`), the
    constants of each `ComponentInfo` impl, and, for enums, the tables behind
    `SIZE_ENUM_FIELDS`, `get_cstr_name`, `get_enum_index` and `iter()`. */
module ComponentDerive {
  import opened Options
  import opened SymbolNames

  /** The fields of a struct or of an enum variant. */
  datatype Fields = UnitFields | NamedFields(names: seq<string>) | UnnamedFields(arity: nat)

  datatype Variant = Variant(ident: string, fields: Fields)

  datatype Data = StructData(fields: Fields) | EnumData(variants: seq<Variant>) | UnionData

  datatype DeriveInput = DeriveInput(ident: string, data: Data)

  function FieldCount(f: Fields): nat {
    match f
    case UnitFields => 0
    case NamedFields(names) => |names|
    case UnnamedFields(n) => n
  }

  /** The marker trait emitted, or the error emitted in its place. */
  datatype Marker = EmptyComponent | NotEmptyComponent | MarkerError(message: string)

  /** The three types a struct's `ComponentInfo` is implemented for: `T`, `&T`, `&mut T`. */
  datatype SelfForm = Owned | SharedRef | MutRef

  /** The constants of one `ComponentInfo` impl, and the symbol name it reports (its own
      for `T`, delegated to `UnderlyingType` for the reference forms). */
  datatype ComponentInfo = ComponentInfo(
    form: SelfForm, underlying: string, isEnum: bool, isTag: bool, symbolNameC: string)

  /** `Default::default()`, the only expression a generated variant constructor uses. */
  datatype DefaultExpr = DefaultDefault

  datatype FieldInit = FieldInit(name: string, value: DefaultExpr)

  /** One element of the `iter()` vector. */
  datatype Constructor =
    | UnitCtor(variant: string)
    | TupleCtor(variant: string, args: seq<DefaultExpr>)
    | RecordCtor(variant: string, inits: seq<FieldInit>)

  /** The pattern of a generated match arm. */
  datatype Pattern =
    | UnitPattern(variant: string)
    | TuplePattern(variant: string, wildcards: nat)
    | RecordPattern(variant: string, bindings: seq<string>)

  datatype ArmBody = IndexBody(index: nat) | NameBody(cstr: string)

  datatype Arm = Arm(pattern: Pattern, body: ArmBody)

  /** `CachedEnumData`: the variant count and the tables of an enum component. */
  datatype EnumTables = EnumTables(
    sizeEnumFields: nat, nameArms: seq<Arm>, indexArms: seq<Arm>, variantsIter: seq<Constructor>)

  datatype Expansion =
    | StructExpansion(marker: Marker, isEnum: bool, infos: seq<ComponentInfo>)
    | EnumExpansion(isEnum: bool, info: ComponentInfo, marker: Marker, tables: EnumTables)
    | CompileError(message: string)

  const NotStructOrEnum: string := "The type is neither a struct nor an enum!"
  const EnumWithoutVariants: string := "Enum components should have at least one variant!"

  /** `has_fields`: named or unnamed fields, and at least one of them. */
  function HasFields(f: Fields): (r: bool)
    ensures r <==> FieldCount(f) > 0
  {
    match f
    case NamedFields(names) => !(|names| == 0)
    case UnnamedFields(n) => !(n == 0)
    case UnitFields => false
  }

  /** The constants every `ComponentInfo` impl of a struct carries: the struct as
      underlying type, not an enum, a tag exactly when it has no fields, and the
      struct's own symbol name. */
  predicate StructInfoAgrees(info: ComponentInfo, name: string, fields: Fields, typeName: string) {
    && info.underlying == name
    && !info.isEnum
    && (info.isTag <==> FieldCount(fields) == 0)
    && info.symbolNameC == SymbolNameC(typeName)
  }

  /** `impl_cached_component_data_struct`. */
  function StructImpl(fields: Fields, name: string, typeName: string): (e: Expansion)
    ensures e.StructExpansion? && !e.isEnum
    ensures e.marker == (if FieldCount(fields) > 0 then NotEmptyComponent else EmptyComponent)
    ensures |e.infos| == 3
    ensures e.infos[0].form == Owned && e.infos[1].form == SharedRef && e.infos[2].form == MutRef
    ensures StructInfoAgrees(e.infos[0], name, fields, typeName)
    ensures StructInfoAgrees(e.infos[1], name, fields, typeName)
    ensures StructInfoAgrees(e.infos[2], name, fields, typeName)
  {
    var hasFields := HasFields(fields);
    var isTag := !hasFields;
    var own := SymbolNameC(typeName);
    StructExpansion(
      if hasFields then NotEmptyComponent else EmptyComponent,
      false,
      [ ComponentInfo(Owned, name, false, isTag, own),
        ComponentInfo(SharedRef, name, false, isTag, own),
        ComponentInfo(MutRef, name, false, isTag, own) ])
  }

  /** `generate_variant_constructor`: the variant with every field set to `Default::default()`. */
  function VariantConstructor(v: Variant): (c: Constructor)
    ensures c.variant == v.ident
    ensures CtorBuilds(c, v)
  {
    match v.fields
    case UnitFields => UnitCtor(v.ident)
    case UnnamedFields(n) => TupleCtor(v.ident, seq(n, _ => DefaultDefault))
    case NamedFields(names) => RecordCtor(v.ident, seq(|names|, i requires 0 <= i < |names| => FieldInit(names[i], DefaultDefault)))
  }

  /** `c` builds a value of variant `v`: same variant, same field count and field names,
      every field defaulted. */
  predicate CtorBuilds(c: Constructor, v: Variant) {
    && c.variant == v.ident
    && match c
       case UnitCtor(_) => v.fields == UnitFields
       case TupleCtor(_, args) => v.fields == UnnamedFields(|args|)
       case RecordCtor(_, inits) =>
         && v.fields.NamedFields?
         && |inits| == |v.fields.names|
         && forall i :: 0 <= i < |inits| ==> inits[i] == FieldInit(v.fields.names[i], DefaultDefault)
  }

  /** A generated pattern matches exactly the values of its variant. */
  predicate Matches(p: Pattern, v: Variant) {
    match p
    case UnitPattern(id) => id == v.ident && v.fields == UnitFields
    case TuplePattern(id, n) => id == v.ident && v.fields == UnnamedFields(n)
    case RecordPattern(id, names) => id == v.ident && v.fields == NamedFields(names)
  }

  /** `generate_variant_match_arm`: a pattern for the variant, and as body either its
      index or its name as a NUL-terminated C string. */
  function VariantMatchArm(v: Variant, useIndex: bool, index: nat): (a: Arm)
    ensures Matches(a.pattern, v)
    ensures useIndex ==> a.body == IndexBody(index)
    ensures !useIndex ==> a.body == NameBody(v.ident + "\0")
  {
    var body := if useIndex then IndexBody(index) else NameBody(v.ident + "\0");
    match v.fields
    case UnnamedFields(n) => Arm(TuplePattern(v.ident, n), body)
    case NamedFields(names) => Arm(RecordPattern(v.ident, names), body)
    case UnitFields => Arm(UnitPattern(v.ident), body)
  }

  /** `variants.len() as u32`: the count, truncated to 32 bits. */
  function SizeAsU32(n: nat): (r: nat)
    ensures r < 0x1_0000_0000
    ensures n < 0x1_0000_0000 ==> r == n
  {
    n % 0x1_0000_0000
  }

  /** `impl_cached_component_data_enum`. */
  function EnumImpl(variants: seq<Variant>, name: string, typeName: string): (e: Expansion)
    ensures e.EnumExpansion? && e.isEnum
    ensures e.info == ComponentInfo(Owned, name, true, false, SymbolNameC(typeName))
    ensures e.marker == if |variants| > 0 then NotEmptyComponent else MarkerError(EnumWithoutVariants)
    ensures |variants| < 0x1_0000_0000 ==> e.tables.sizeEnumFields == |variants|
    ensures |e.tables.nameArms| == |e.tables.indexArms| == |e.tables.variantsIter| == |variants|
    ensures forall i :: 0 <= i < |variants| ==>
              && Matches(e.tables.indexArms[i].pattern, variants[i])
              && e.tables.indexArms[i].body == IndexBody(i)
              && Matches(e.tables.nameArms[i].pattern, variants[i])
              && e.tables.nameArms[i].body == NameBody(variants[i].ident + "\0")
              && CtorBuilds(e.tables.variantsIter[i], variants[i])
  {
    var constructors := seq(|variants|, i requires 0 <= i < |variants| => VariantConstructor(variants[i]));
    var nameArms := seq(|variants|, i requires 0 <= i < |variants| => VariantMatchArm(variants[i], false, 0));
    var indexArms := seq(|variants|, i requires 0 <= i < |variants| => VariantMatchArm(variants[i], true, i));
    var hasVariants := |variants| != 0;
    EnumExpansion(
      true,
      ComponentInfo(Owned, name, true, false, SymbolNameC(typeName)),
      if hasVariants then NotEmptyComponent else MarkerError(EnumWithoutVariants),
      EnumTables(SizeAsU32(|variants|), nameArms, indexArms, constructors))
  }

  /** `component_derive`: structs and enums to their impls, anything else to an error. */
  function Derive(input: DeriveInput, typeName: string): (e: Expansion)
    ensures input.data.StructData? <==> e.StructExpansion?
    ensures input.data.EnumData? <==> e.EnumExpansion?
    ensures input.data.UnionData? <==> e == CompileError(NotStructOrEnum)
  {
    match input.data
    case StructData(fields) => StructImpl(fields, input.ident, typeName)
    case EnumData(variants) => EnumImpl(variants, input.ident, typeName)
    case UnionData => CompileError(NotStructOrEnum)
  }

  /** Running a generated `match self { .. }`: the body of the first arm that matches. */
  function Dispatch(arms: seq<Arm>, v: Variant): (r: Option<ArmBody>)
    ensures r.Some? <==> exists i :: 0 <= i < |arms| && Matches(arms[i].pattern, v)
  {
    if |arms| == 0 then None
    else if Matches(arms[0].pattern, v) then Some(arms[0].body)
    else Dispatch(arms[1..], v)
  }

  /** Dispatch picks arm `i` when no earlier arm matches and arm `i` does. */
  lemma {:induction false} DispatchFirstMatch(arms: seq<Arm>, v: Variant, i: nat)
    requires i < |arms| && Matches(arms[i].pattern, v)
    requires forall j :: 0 <= j < i ==> !Matches(arms[j].pattern, v)
    ensures Dispatch(arms, v) == Some(arms[i].body)
  {
    if i > 0 {
      DispatchFirstMatch(arms[1..], v, i - 1);
    }
  }

  /** Rust requires the variant identifiers of an enum to be distinct. */
  predicate DistinctIdents(variants: seq<Variant>) {
    forall i, j :: 0 <= i < j < |variants| ==> variants[i].ident != variants[j].ident
  }

  /** A pattern generated for one variant never matches a variant of another name. */
  lemma MatchesOnlyItsVariant(p: Pattern, v: Variant, w: Variant)
    requires Matches(p, v) && v.ident != w.ident
    ensures !Matches(p, w)
  {
  }

  /** The generated `get_enum_index` maps the `i`-th declared variant to `i`, and the
      generated `get_cstr_name` to its identifier followed by a NUL. */
  lemma {:induction false} EnumTablesSelectVariant(variants: seq<Variant>, name: string, typeName: string, i: nat)
    requires DistinctIdents(variants) && i < |variants|
    ensures Dispatch(EnumImpl(variants, name, typeName).tables.indexArms, variants[i]) == Some(IndexBody(i))
    ensures Dispatch(EnumImpl(variants, name, typeName).tables.nameArms, variants[i])
         == Some(NameBody(variants[i].ident + "\0"))
  {
    var t := EnumImpl(variants, name, typeName).tables;
    forall j | 0 <= j < i
      ensures !Matches(t.indexArms[j].pattern, variants[i]) && !Matches(t.nameArms[j].pattern, variants[i])
    {
      MatchesOnlyItsVariant(t.indexArms[j].pattern, variants[j], variants[i]);
      MatchesOnlyItsVariant(t.nameArms[j].pattern, variants[j], variants[i]);
    }
    DispatchFirstMatch(t.indexArms, variants[i], i);
    DispatchFirstMatch(t.nameArms, variants[i], i);
  }

  /** Enum indices are distinct and below the variant count. */
  lemma EnumIndexInjective(variants: seq<Variant>, name: string, typeName: string, i: nat, j: nat)
    requires DistinctIdents(variants) && i < |variants| && j < |variants| && i != j
    ensures
      var arms := EnumImpl(variants, name, typeName).tables.indexArms;
      && Dispatch(arms, variants[i]) != Dispatch(arms, variants[j])
      && Dispatch(arms, variants[i]).Some? && Dispatch(arms, variants[i]).value.IndexBody?
      && Dispatch(arms, variants[i]).value.index < |variants|
  {
    EnumTablesSelectVariant(variants, name, typeName, i);
    EnumTablesSelectVariant(variants, name, typeName, j);
  }

  /** A struct is a tag exactly when it has no fields, and then it gets `EmptyComponent`;
      all three `ComponentInfo` impls agree on it and name the struct as underlying type. */
  lemma StructTagDecision(name: string, fields: Fields, typeName: string)
    ensures
      var e := Derive(DeriveInput(name, StructData(fields)), typeName);
      && (e.marker == NotEmptyComponent <==> HasFields(fields))
      && (e.marker == EmptyComponent <==> !HasFields(fields))
      && forall i :: 0 <= i < |e.infos| ==>
           e.infos[i].isTag == !HasFields(fields) && e.infos[i].underlying == name
           && e.infos[i] == e.infos[0].(form := e.infos[i].form)
  {
  }
}
