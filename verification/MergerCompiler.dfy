/** From a schema to its merger tree (`compile_message`, `compile_oneof_variant`, `Merger::scalar`). */
module MergerCompiler {
  import opened Prelude
  import opened Wire
  import opened Values
  import opened Scalars
  import opened Merging
  import opened EncoderCompiler

  /** Enumerator numbers to names; of several with one number the last counts. */
  function EnumNames(variants: seq<Field>): map<u32, string> {
    if variants == [] then map[]
    else
      var last := variants[|variants| - 1];
      EnumNames(variants[..|variants| - 1])[last.number := last.name]
  }

  function FormOf(presence: Presence): MergeForm {
    match presence
    case Implicit => IntoValue
    case Explicit => IntoOption
    case Packed => IntoList
    case Expanded => IntoList
  }

  /** What a slot of this form holds before anything is merged into it. */
  function Initial(form: MergeForm, absent: Val): Val {
    match form
    case IntoValue => absent
    case IntoOption => Opt(None)
    case IntoList => List([])
  }

  datatype Compiled = Compiled(merger: Merger, default: Val)

  predicate IsOneof(f: Field) {
    f.coding.CompoundCoding? && CompoundOf(f.coding.code) == Some(OneofCompound)
  }

  /** The merger and the default of a field that is not a oneof. */
  function CompileMerger(f: Field): (r: Result<Compiled, SchemaError>)
    decreases f, 1
  {
    match f.coding
    case NoCoding => Err(MissingCoding)
    case ScalarCoding(code) =>
      (match ScalarOf(code)
       case None => Err(InvalidScalarCoding)
       case Some(Scalar(t, presence)) =>
         Ok(Compiled(ItemMerger(ReadScalar(t), FormOf(presence)),
                     Initial(FormOf(presence), DefaultScalar(t)))))
    case CompoundCoding(code) =>
      match CompoundOf(code)
      case None => Err(InvalidCompoundCoding)
      case Some(EnumCompound(presence)) =>
        var names := EnumNames(f.subfields);
        if presence.Implicit? && 0 !in names then Err(ImplicitEnumWithoutDefault)
        else
          var absent := if 0 in names then Enum(names[0]) else Opt(None);
          Ok(Compiled(ItemMerger(ReadEnum(names), FormOf(presence)), Initial(FormOf(presence), absent)))
      case Some(MessageSingular) =>
        var merger :- CompileMessageMerger(f, OptionalRecord);
        Ok(Compiled(merger, Opt(None)))
      case Some(MessageExpanded) =>
        var merger :- CompileMessageMerger(f, ListOfRecords);
        Ok(Compiled(merger, List([])))
      case Some(OneofCompound) =>
        // Flattened into the containing message, never compiled on its own.
        Err(NotExplicit)
  }

  function CompileMessageMerger(f: Field, shape: MergeShape): (r: Result<Merger, SchemaError>)
    ensures r.Ok? ==> r.value.MessageMerger? && r.value.shape == shape
    ensures r.Ok? ==> |r.value.defaults| == |f.subfields|
    decreases f, 0
  {
    var table :- CompileTable(f.subfields);
    Ok(MessageMerger(shape, table.defaults, table.slots))
  }

  datatype Table = Table(slots: map<u32, Slot>, defaults: seq<NamedVal>)

  /** Slots by number, oneof variants included; of several with one number the last counts. */
  function CompileTable(subfields: seq<Field>): (r: Result<Table, SchemaError>)
    ensures r.Ok? ==> |r.value.defaults| == |subfields|
    decreases subfields
  {
    if subfields == [] then Ok(Table(map[], []))
    else
      var n := |subfields| - 1;
      var f := subfields[n];
      var before :- CompileTable(subfields[..n]);
      if IsOneof(f) then
        var slots :- CompileVariants(before.slots, n, f.subfields);
        Ok(Table(slots, before.defaults + [NamedVal(f.name, Opt(None))]))
      else
        var compiled :- CompileMerger(f);
        Ok(Table(before.slots[f.number := Slot(n, compiled.merger)],
                 before.defaults + [NamedVal(f.name, compiled.default)]))
  }

  /** Each variant of a oneof merges into the one slot of the oneof. */
  function CompileVariants(slots: map<u32, Slot>, index: nat, variants: seq<Field>)
    : (r: Result<map<u32, Slot>, SchemaError>)
    decreases variants
  {
    if variants == [] then Ok(slots)
    else
      var n := |variants| - 1;
      var before :- CompileVariants(slots, index, variants[..n]);
      var merger :- CompileVariant(variants[n]);
      Ok(before[variants[n].number := Slot(index, merger)])
  }

  function CompileVariant(f: Field): (r: Result<Merger, SchemaError>)
    decreases f, 1
  {
    match f.coding
    case NoCoding => Err(MissingCoding)
    case ScalarCoding(code) =>
      if !ExplicitScalar(code) then Err(NotExplicit)
      else
        (match ScalarOf(code)
         case None => Err(InvalidScalarCoding)
         case Some(Scalar(t, presence)) =>
           Ok(VariantMerger(f.name, ItemMerger(ReadScalar(t), FormOf(presence)))))
    case CompoundCoding(code) =>
      match CompoundOf(code)
      case None => Err(InvalidCompoundCoding)
      case Some(EnumCompound(Explicit)) =>
        Ok(VariantMerger(f.name, ItemMerger(ReadEnum(EnumNames(f.subfields)), IntoOption)))
      case Some(MessageSingular) =>
        var merger :- CompileMessageMerger(f, OptionalRecord);
        Ok(VariantMerger(f.name, merger))
      case Some(_) => Err(NotExplicit)
  }

  // ---------------------------------------------------------------------------------------
  // The loops of the compiler
  // ---------------------------------------------------------------------------------------

  method CompileEnumVariants(f: Field) returns (variants: map<u32, string>)
    ensures variants == EnumNames(f.subfields)
  {
    variants := map[];
    for i := 0 to |f.subfields|
      invariant variants == EnumNames(f.subfields[..i])
    {
      assert f.subfields[..i + 1][..i] == f.subfields[..i];
      variants := variants[f.subfields[i].number := f.subfields[i].name];
    }
    assert f.subfields[..|f.subfields|] == f.subfields;
  }

  method CompileMessage(f: Field, shape: MergeShape) returns (r: Result<Merger, SchemaError>)
    ensures r == CompileMessageMerger(f, shape)
    decreases f, 0
  {
    var slots: map<u32, Slot> := map[];
    var defaults: seq<NamedVal> := [];
    for i := 0 to |f.subfields|
      invariant CompileTable(f.subfields[..i]) == Ok(Table(slots, defaults))
    {
      var subfield := f.subfields[i];
      assert f.subfields[..i + 1][..i] == f.subfields[..i];
      if IsOneof(subfield) {
        var flattened := CompileOneof(slots, i, subfield);
        if flattened.Err? {
          TableErrorStays(f.subfields, i + 1);
          return Err(flattened.error);
        }
        slots := flattened.value;
        defaults := defaults + [NamedVal(subfield.name, Opt(None))];
      } else {
        var compiled := CompileSubfield(subfield);
        if compiled.Err? {
          TableErrorStays(f.subfields, i + 1);
          return Err(compiled.error);
        }
        slots := slots[subfield.number := Slot(i, compiled.value.merger)];
        defaults := defaults + [NamedVal(subfield.name, compiled.value.default)];
      }
    }
    assert f.subfields[..|f.subfields|] == f.subfields;
    return Ok(MessageMerger(shape, defaults, slots));
  }

  method CompileOneof(slots0: map<u32, Slot>, index: nat, f: Field)
    returns (r: Result<map<u32, Slot>, SchemaError>)
    ensures r == CompileVariants(slots0, index, f.subfields)
    decreases f, 1
  {
    var slots := slots0;
    for i := 0 to |f.subfields|
      invariant CompileVariants(slots0, index, f.subfields[..i]) == Ok(slots)
    {
      var merger := CompileOneofVariant(f.subfields[i]);
      assert f.subfields[..i + 1][..i] == f.subfields[..i];
      if merger.Err? {
        VariantErrorStays(slots0, index, f.subfields, i + 1);
        return Err(merger.error);
      }
      slots := slots[f.subfields[i].number := Slot(index, merger.value)];
    }
    assert f.subfields[..|f.subfields|] == f.subfields;
    return Ok(slots);
  }

  lemma {:induction false} TableErrorStays(subfields: seq<Field>, i: nat)
    requires i <= |subfields| && CompileTable(subfields[..i]).Err?
    ensures CompileTable(subfields) == CompileTable(subfields[..i])
    decreases |subfields|
  {
    if i < |subfields| {
      assert subfields[..|subfields| - 1][..i] == subfields[..i];
      TableErrorStays(subfields[..|subfields| - 1], i);
    } else {
      assert subfields[..i] == subfields;
    }
  }

  lemma {:induction false} VariantErrorStays(slots: map<u32, Slot>, index: nat, variants: seq<Field>, i: nat)
    requires i <= |variants| && CompileVariants(slots, index, variants[..i]).Err?
    ensures CompileVariants(slots, index, variants) == CompileVariants(slots, index, variants[..i])
    decreases |variants|
  {
    if i < |variants| {
      assert variants[..|variants| - 1][..i] == variants[..i];
      VariantErrorStays(slots, index, variants[..|variants| - 1], i);
    } else {
      assert variants[..i] == variants;
    }
  }

  method CompileSubfield(f: Field) returns (r: Result<Compiled, SchemaError>)
    ensures r == CompileMerger(f)
    decreases f, 1
  {
    match f.coding {
      case NoCoding => return Err(MissingCoding);
      case ScalarCoding(code) =>
        match ScalarOf(code) {
          case None => return Err(InvalidScalarCoding);
          case Some(Scalar(t, presence)) =>
            var form := FormOf(presence);
            return Ok(Compiled(ItemMerger(ReadScalar(t), form), Initial(form, DefaultScalar(t))));
        }
      case CompoundCoding(code) =>
        match CompoundOf(code) {
          case None => return Err(InvalidCompoundCoding);
          case Some(EnumCompound(presence)) =>
            var names := CompileEnumVariants(f);
            var form := FormOf(presence);
            if presence.Implicit? && 0 !in names {
              return Err(ImplicitEnumWithoutDefault);
            }
            var absent := if 0 in names then Enum(names[0]) else Opt(None);
            return Ok(Compiled(ItemMerger(ReadEnum(names), form), Initial(form, absent)));
          case Some(MessageSingular) =>
            var merger := CompileMessage(f, OptionalRecord);
            if merger.Err? { return Err(merger.error); }
            return Ok(Compiled(merger.value, Opt(None)));
          case Some(MessageExpanded) =>
            var merger := CompileMessage(f, ListOfRecords);
            if merger.Err? { return Err(merger.error); }
            return Ok(Compiled(merger.value, List([])));
          case Some(OneofCompound) => return Err(NotExplicit);
        }
    }
  }

  method CompileOneofVariant(f: Field) returns (r: Result<Merger, SchemaError>)
    ensures r == CompileVariant(f)
    decreases f, 1
  {
    match f.coding {
      case NoCoding => return Err(MissingCoding);
      case ScalarCoding(code) =>
        if !ExplicitScalar(code) {
          return Err(NotExplicit);
        }
        match ScalarOf(code) {
          case None => return Err(InvalidScalarCoding);
          case Some(Scalar(t, presence)) =>
            return Ok(VariantMerger(f.name, ItemMerger(ReadScalar(t), FormOf(presence))));
        }
      case CompoundCoding(code) =>
        match CompoundOf(code) {
          case None => return Err(InvalidCompoundCoding);
          case Some(EnumCompound(Explicit)) =>
            var names := CompileEnumVariants(f);
            return Ok(VariantMerger(f.name, ItemMerger(ReadEnum(names), IntoOption)));
          case Some(MessageSingular) =>
            var merger := CompileMessage(f, OptionalRecord);
            if merger.Err? { return Err(merger.error); }
            return Ok(VariantMerger(f.name, merger.value));
          case Some(_) => return Err(NotExplicit);
        }
    }
  }
}
