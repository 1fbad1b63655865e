/** Resolved types of the type checker, their display form, and the registry of struct and
    enum definitions. */
module CheckerTypes {
  import Wrappers
  import opened Seqs

  /** The checker's symbol identifier. */
  type SymbolId = nat

  /** A resolved type (after type checking). */
  datatype ResolvedType =
    | Int | Float | Bool | String | Char | Bytes | DateTime | None
    | Named(name: string, id: SymbolId, args: seq<ResolvedType>)
    | Optional(inner: ResolvedType)
    | List(inner: ResolvedType)
    | Set(inner: ResolvedType)
    | Union(types: seq<ResolvedType>)
    | Tuple(types: seq<ResolvedType>)
    | Function(params: seq<ResolvedType>, ret: ResolvedType)
    | Struct(fields: seq<Field>)
    | Unknown                                     // for inference
    | Error                                       // for error recovery

  /** A named field of a struct type or of an enum variant. */
  datatype Field = Field(name: string, ty: ResolvedType)

  /** The type stands for a type error; it displays as `<error>`. */
  function IsError(t: ResolvedType): (b: bool)
    ensures b ==> Display(t) == "<error>"
  {
    t.Error?
  }

  /** The type is optional; its display ends in `?`. */
  function IsOptional(t: ResolvedType): (b: bool)
    ensures b ==> |Display(t)| > 0 && Display(t)[|Display(t)| - 1] == '?'
  {
    t.Optional?
  }

  /** The display form of each type: empty only for a named type with an empty name and no
      arguments, or a union; the error type as `<error>` and an unknown type as `?`. */
  function Display(t: ResolvedType): (r: string)
    ensures r == [] ==> (t.Named? && t.name == [] && t.args == []) || t.Union?
    ensures t.Error? ==> r == "<error>"
    ensures t.Unknown? ==> r == "?"
    decreases t
  {
    match t
    case Int => "Int"
    case Float => "Float"
    case Bool => "Bool"
    case String => "String"
    case Char => "Char"
    case Bytes => "Bytes"
    case DateTime => "DateTime"
    case None => "none"
    case Named(name, _, args) =>
      if args == [] then name
      else name + "<" + Join(DisplayEach(t, args), ", ") + ">"
    case Optional(inner) => Display(inner) + "?"
    case List(inner) => Display(inner) + "[]"
    case Set(inner) => "Set<" + Display(inner) + ">"
    case Union(types) => Join(DisplayEach(t, types), " | ")
    case Tuple(types) => "(" + Join(DisplayEach(t, types), ", ") + ")"
    case Function(params, ret) => "(" + Join(DisplayEach(t, params), ", ") + ") -> " + Display(ret)
    case Struct(fields) => "{ " + Join(DisplayFields(t, fields), ", ") + " }"
    case Unknown => "?"
    case Error => "<error>"
  }

  /** The display forms of `ts`, components of `parent`. */
  function DisplayEach(parent: ResolvedType, ts: seq<ResolvedType>): (r: seq<string>)
    requires forall i :: 0 <= i < |ts| ==> ts[i] < parent
    ensures |r| == |ts| && forall i :: 0 <= i < |ts| ==> r[i] == Display(ts[i])
    decreases parent, 0
  {
    seq(|ts|, i requires 0 <= i < |ts| => Display(ts[i]))
  }

  /** The `name: type` forms of the fields of `parent`. */
  function DisplayFields(parent: ResolvedType, fields: seq<Field>): (r: seq<string>)
    requires forall i :: 0 <= i < |fields| ==> fields[i].ty < parent
    ensures |r| == |fields| && forall i :: 0 <= i < |fields| ==> r[i] == fields[i].name + ": " + Display(fields[i].ty)
    decreases parent, 0
  {
    seq(|fields|, i requires 0 <= i < |fields| => fields[i].name + ": " + Display(fields[i].ty))
  }

  /** The type is, or has somewhere inside it, the error type. */
  predicate HasError(t: ResolvedType)
    decreases t
  {
    match t
    case Error => true
    case Named(_, _, args) => exists i :: 0 <= i < |args| && HasError(args[i])
    case Optional(inner) => HasError(inner)
    case List(inner) => HasError(inner)
    case Set(inner) => HasError(inner)
    case Union(types) => exists i :: 0 <= i < |types| && HasError(types[i])
    case Tuple(types) => exists i :: 0 <= i < |types| && HasError(types[i])
    case Function(params, ret) => HasError(ret) || exists i :: 0 <= i < |params| && HasError(params[i])
    case Struct(fields) => exists i :: 0 <= i < |fields| && HasError(fields[i].ty)
    case _ => false
  }

  /** An error anywhere inside a type is visible in its display form. */
  lemma {:induction false} ErrorIsDisplayed(t: ResolvedType)
    requires HasError(t)
    ensures Contains(Display(t), "<error>")
    decreases t, 2
  {
    match t
    case Error =>
      assert OccursAt(Display(t), "<error>", 0);
    case Named(name, _, args) =>
      ErrorInComponents(t, args, ", ");
      ContainsAround(name + "<", Join(DisplayEach(t, args), ", "), ">", "<error>");
    case Optional(_) =>
      ErrorInWrapped(t);
    case List(_) =>
      ErrorInWrapped(t);
    case Set(_) =>
      ErrorInWrapped(t);
    case Union(types) =>
      ErrorInComponents(t, types, " | ");
    case Tuple(types) =>
      ErrorInComponents(t, types, ", ");
      ContainsAround("(", Join(DisplayEach(t, types), ", "), ")", "<error>");
    case Function(params, ret) =>
      ErrorInFunction(t);
    case Struct(fields) =>
      ErrorInFields(t);
  }

  /** An error inside one of the components of `parent` shows in their joined display forms. */
  lemma ErrorInComponents(parent: ResolvedType, ts: seq<ResolvedType>, sep: string)
    requires forall i :: 0 <= i < |ts| ==> ts[i] < parent
    requires exists i :: 0 <= i < |ts| && HasError(ts[i])
    ensures Contains(Join(DisplayEach(parent, ts), sep), "<error>")
    decreases parent, 0
  {
    var i :| 0 <= i < |ts| && HasError(ts[i]);
    ErrorIsDisplayed(ts[i]);
    JoinContains(DisplayEach(parent, ts), sep, i, "<error>");
  }

  lemma ErrorInWrapped(t: ResolvedType)
    requires (t.Optional? || t.List? || t.Set?) && HasError(t)
    ensures Contains(Display(t), "<error>")
    decreases t, 1
  {
    var inner := t.inner;
    ErrorIsDisplayed(inner);
    if t.Optional? {
      ContainsLeft(Display(inner), "?", "<error>");
    } else if t.List? {
      ContainsLeft(Display(inner), "[]", "<error>");
    } else {
      ContainsAround("Set<", Display(inner), ">", "<error>");
    }
  }

  lemma ErrorInFunction(t: ResolvedType)
    requires t.Function? && HasError(t)
    ensures Contains(Display(t), "<error>")
    decreases t, 1
  {
    var shown := Join(DisplayEach(t, t.params), ", ");
    if HasError(t.ret) {
      ErrorIsDisplayed(t.ret);
      ContainsRight("(" + shown + ") -> ", Display(t.ret), "<error>");
    } else {
      ErrorInComponents(t, t.params, ", ");
      ContainsAround("(", shown, ") -> ", "<error>");
      ContainsLeft("(" + shown + ") -> ", Display(t.ret), "<error>");
    }
  }

  lemma ErrorInFields(t: ResolvedType)
    requires t.Struct? && HasError(t)
    ensures Contains(Display(t), "<error>")
    decreases t, 1
  {
    var fields := t.fields;
    var i :| 0 <= i < |fields| && HasError(fields[i].ty);
    ErrorIsDisplayed(fields[i].ty);
    ContainsRight(fields[i].name + ": ", Display(fields[i].ty), "<error>");
    JoinContains(DisplayFields(t, fields), ", ", i, "<error>");
    ContainsAround("{ ", Join(DisplayFields(t, fields), ", "), " }", "<error>");
  }

  /** The two predicates and the display form agree: the error type displays as `<error>`, an
      optional type's display ends in `?`. */
  lemma PredicatesMatchDisplay(t: ResolvedType)
    ensures IsError(t) ==> Display(t) == "<error>"
    ensures IsOptional(t) ==> |Display(t)| > 0 && Display(t)[|Display(t)| - 1] == '?'
    ensures IsError(t) ==> !IsOptional(t)
  {
  }

  predicate IsPrimitive(t: ResolvedType) {
    t.Int? || t.Float? || t.Bool? || t.String? || t.Char? || t.Bytes? || t.DateTime? || t.None?
  }

  /** The first two characters of each primitive display name. */
  function PrimitiveInitials(t: ResolvedType): (char, char)
    requires IsPrimitive(t)
  {
    match t
    case Int => ('I', 'n')
    case Float => ('F', 'l')
    case Bool => ('B', 'o')
    case String => ('S', 't')
    case Char => ('C', 'h')
    case Bytes => ('B', 'y')
    case DateTime => ('D', 'a')
    case None => ('n', 'o')
  }

  /** The display names of the primitive types are pairwise distinct. */
  lemma PrimitiveNamesDistinct(a: ResolvedType, b: ResolvedType)
    requires IsPrimitive(a) && IsPrimitive(b) && a != b
    ensures Display(a) != Display(b)
  {
    var da, db := Display(a), Display(b);
    assert (da[0], da[1]) == PrimitiveInitials(a);
    assert (db[0], db[1]) == PrimitiveInitials(b);
  }

  /** A one-member union displays like its member, and a named type without arguments like
      its name. */
  lemma DisplayOfSimpleCompounds(t: ResolvedType, name: string, id: SymbolId)
    ensures Display(Union([t])) == Display(t)
    ensures Display(Named(name, id, [])) == name
  {
    assert DisplayEach(Union([t]), [t]) == [Display(t)];
  }

  // ---------------------------------------------------------------------------
  // The registry of struct and enum definitions
  // ---------------------------------------------------------------------------

  datatype StructDef = StructDef(name: string, fields: seq<Field>)

  /** An enum variant: unit variants have no fields. */
  datatype VariantDef = VariantDef(name: string, fields: Wrappers.Option<seq<Field>>)

  datatype EnumDef = EnumDef(name: string, variants: seq<VariantDef>)

  /** The type of the first field named `name` (Rust `iter().find`), if any. */
  function FindField(fields: seq<Field>, name: string): (r: Wrappers.Option<ResolvedType>)
    ensures r.None? <==> forall i :: 0 <= i < |fields| ==> fields[i].name != name
    ensures r.Some? ==> exists i :: 0 <= i < |fields| && fields[i].name == name && fields[i].ty == r.value
                                    && forall j :: 0 <= j < i ==> fields[j].name != name
  {
    if fields == [] then Wrappers.None
    else if fields[0].name == name then Wrappers.Some(fields[0].ty)
    else
      var r := FindField(fields[1..], name);
      assert forall j :: 1 <= j < |fields| ==> fields[1..][j - 1] == fields[j];
      r
  }

  /** The variant names of an enum, in declaration order. */
  function VariantNames(variants: seq<VariantDef>): (r: seq<string>)
    ensures |r| == |variants| && forall i :: 0 <= i < |variants| ==> r[i] == variants[i].name
  {
    seq(|variants|, i requires 0 <= i < |variants| => variants[i].name)
  }

  /** The struct and enum definitions known to the checker, by name. */
  class TypeRegistry {
    var structs: map<string, StructDef>
    var enums: map<string, EnumDef>

    constructor ()
      ensures structs == map[] && enums == map[]
    {
      structs := map[];
      enums := map[];
    }

    /** Register a struct definition, replacing any earlier one of that name. */
    method RegisterStruct(name: string, fields: seq<Field>)
      modifies this
      ensures structs == old(structs)[name := StructDef(name, fields)]
      ensures enums == old(enums)
      ensures GetStruct(name) == Wrappers.Some(StructDef(name, fields))
      ensures forall n :: n != name ==> GetStruct(n) == old(GetStruct(n))
    {
      structs := structs[name := StructDef(name, fields)];
    }

    /** Register an enum definition, replacing any earlier one of that name. */
    method RegisterEnum(name: string, variants: seq<VariantDef>)
      modifies this
      ensures enums == old(enums)[name := EnumDef(name, variants)]
      ensures structs == old(structs)
      ensures GetEnum(name) == Wrappers.Some(EnumDef(name, variants))
      ensures forall n :: n != name ==> GetEnum(n) == old(GetEnum(n))
    {
      enums := enums[name := EnumDef(name, variants)];
    }

    /** The struct definition registered under `name`, if any. */
    function GetStruct(name: string): (r: Wrappers.Option<StructDef>)
      reads this
      ensures r.Some? <==> name in structs
      ensures r.Some? ==> r.value == structs[name]
    {
      if name in structs then Wrappers.Some(structs[name]) else Wrappers.None
    }

    /** The enum definition registered under `name`, if any. */
    function GetEnum(name: string): (r: Wrappers.Option<EnumDef>)
      reads this
      ensures r.Some? <==> name in enums
      ensures r.Some? ==> r.value == enums[name]
    {
      if name in enums then Wrappers.Some(enums[name]) else Wrappers.None
    }

    /** The variant names of the enum `name`, in declaration order, or None for an unknown enum. */
    function GetEnumVariants(name: string): (r: Wrappers.Option<seq<string>>)
      reads this
      ensures r.None? <==> name !in enums
      ensures r.Some? ==> (|r.value| == |enums[name].variants| &&
                           forall i :: 0 <= i < |r.value| ==> r.value[i] == enums[name].variants[i].name)
    {
      if name in enums then Wrappers.Some(VariantNames(enums[name].variants)) else Wrappers.None
    }

    /** The type of the first field named `fieldName` of the struct `structName`; None when the
        struct or the field is absent. */
    function GetStructField(structName: string, fieldName: string): (r: Wrappers.Option<ResolvedType>)
      reads this
      ensures r.Some? ==> structName in structs
      ensures r.None? <==> structName !in structs
                           || forall i :: 0 <= i < |structs[structName].fields| ==> structs[structName].fields[i].name != fieldName
      ensures r.Some? ==> var fs := structs[structName].fields;
        exists i :: 0 <= i < |fs| && fs[i].name == fieldName && fs[i].ty == r.value
                    && forall j :: 0 <= j < i ==> fs[j].name != fieldName
    {
      if structName in structs then FindField(structs[structName].fields, fieldName) else Wrappers.None
    }
  }

  /** Registering a struct and then asking for one of its fields finds the first field of that
      name, whatever was registered before. */
  method RegisterThenLookUp(registry: TypeRegistry, name: string, fields: seq<Field>, fieldName: string)
    returns (found: Wrappers.Option<ResolvedType>)
    modifies registry
    ensures found == FindField(fields, fieldName)
    ensures registry.GetStruct(name) == Wrappers.Some(StructDef(name, fields))
  {
    registry.RegisterStruct(name, fields);
    found := registry.GetStructField(name, fieldName);
  }
}
