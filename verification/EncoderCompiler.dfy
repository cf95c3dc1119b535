/** From a schema to its encoder tree (`compile_compound`, `compile_enum_variants`, `Encoder::scalar`). */
module EncoderCompiler {
  import opened Prelude
  import opened Wire
  import opened Values
  import opened Merging
  import opened Encoding

  datatype SchemaError =
    | MissingCoding
    | InvalidScalarCoding
    | InvalidCompoundCoding
    | NotExplicit
    | ImplicitEnumWithoutDefault

  /** A packed field is length-delimited whatever its items are. */
  function FieldTag(number: u32, wireType: WireType, presence: Presence): u64 {
    Tag(number, if presence.Packed? then LengthDelimited else wireType)
  }

  /** Enumerator names to numbers; of several with one name the last counts. */
  function EnumNumbers(variants: seq<Field>): map<string, u32> {
    if variants == [] then map[]
    else
      var last := variants[|variants| - 1];
      EnumNumbers(variants[..|variants| - 1])[last.name := last.number]
  }

  function CompileEncoder(f: Field, inOneof: bool): (r: Result<Encoder, SchemaError>)
    decreases f, 1
  {
    match f.coding
    case NoCoding => Err(MissingCoding)
    case ScalarCoding(code) =>
      if inOneof && !ExplicitScalar(code) then Err(NotExplicit)
      else
        (match ScalarOf(code)
         case None => Err(InvalidScalarCoding)
         case Some(Scalar(t, presence)) =>
           Ok(ItemEncoder(ScalarItem(t), presence, FieldTag(f.number, ScalarWireType(t), presence))))
    case CompoundCoding(code) =>
      if inOneof && code != 6 && code != 2 then Err(NotExplicit)
      else
        match CompoundOf(code)
        case None => Err(InvalidCompoundCoding)
        case Some(EnumCompound(presence)) =>
          Ok(ItemEncoder(EnumItem(EnumNumbers(f.subfields)), presence,
                         FieldTag(f.number, VarintType, presence)))
        case Some(MessageSingular) => CompileMessageEncoder(f, Outer)
        case Some(MessageExpanded) => CompileMessageEncoder(f, Repeated)
        case Some(OneofCompound) =>
          var subfields :- CompileEncoders(f.subfields, true);
          Ok(OneofEncoder(subfields))
  }

  function CompileMessageEncoder(f: Field, shape: MessageShape): (r: Result<Encoder, SchemaError>)
    ensures r.Ok? ==> r.value.MessageEncoder? && r.value.shape == shape
    decreases f, 0
  {
    var subfields :- CompileEncoders(f.subfields, false);
    Ok(MessageEncoder(shape, Tag(f.number, LengthDelimited), subfields))
  }

  /** Subfields by name; of several with one name the last counts. */
  function CompileEncoders(subfields: seq<Field>, inOneof: bool)
    : (r: Result<map<string, Encoder>, SchemaError>)
    decreases subfields
  {
    if subfields == [] then Ok(map[])
    else
      var n := |subfields| - 1;
      var before :- CompileEncoders(subfields[..n], inOneof);
      var last :- CompileEncoder(subfields[n], inOneof);
      Ok(before[subfields[n].name := last])
  }

  lemma {:induction false} EncoderByName(subfields: seq<Field>, inOneof: bool, i: nat)
    requires CompileEncoders(subfields, inOneof).Ok?
    requires i < |subfields|
    requires forall j :: i < j < |subfields| ==> subfields[j].name != subfields[i].name
    ensures subfields[i].name in CompileEncoders(subfields, inOneof).value
    ensures CompileEncoder(subfields[i], inOneof)
         == Ok(CompileEncoders(subfields, inOneof).value[subfields[i].name])
  {
    var n := |subfields| - 1;
    if i < n {
      EncoderByName(subfields[..n], inOneof, i);
    }
  }

  // ---------------------------------------------------------------------------------------
  // The loops of the compiler
  // ---------------------------------------------------------------------------------------

  method CompileEnumVariants(f: Field) returns (variants: map<string, u32>)
    ensures variants == EnumNumbers(f.subfields)
  {
    variants := map[];
    for i := 0 to |f.subfields|
      invariant variants == EnumNumbers(f.subfields[..i])
    {
      assert f.subfields[..i + 1][..i] == f.subfields[..i];
      variants := variants[f.subfields[i].name := f.subfields[i].number];
    }
    assert f.subfields[..|f.subfields|] == f.subfields;
  }

  method CompileCompound(f: Field, isOneof: bool) returns (r: Result<map<string, Encoder>, SchemaError>)
    ensures r == CompileEncoders(f.subfields, isOneof)
    decreases f, 0
  {
    var subfields: map<string, Encoder> := map[];
    for i := 0 to |f.subfields|
      invariant CompileEncoders(f.subfields[..i], isOneof) == Ok(subfields)
    {
      var subfield := f.subfields[i];
      var encoder := CompileSubfield(subfield, isOneof);
      assert f.subfields[..i + 1][..i] == f.subfields[..i];
      if encoder.Err? {
        FirstErrorStays(f.subfields, i + 1, isOneof);
        return Err(encoder.error);
      }
      subfields := subfields[subfield.name := encoder.value];
    }
    assert f.subfields[..|f.subfields|] == f.subfields;
    return Ok(subfields);
  }

  lemma {:induction false} FirstErrorStays(subfields: seq<Field>, i: nat, inOneof: bool)
    requires i <= |subfields| && CompileEncoders(subfields[..i], inOneof).Err?
    ensures CompileEncoders(subfields, inOneof) == CompileEncoders(subfields[..i], inOneof)
    decreases |subfields|
  {
    if i < |subfields| {
      var n := |subfields| - 1;
      assert subfields[..n][..i] == subfields[..i];
      FirstErrorStays(subfields[..n], i, inOneof);
    } else {
      assert subfields[..i] == subfields;
    }
  }

  method CompileSubfield(f: Field, isOneof: bool) returns (r: Result<Encoder, SchemaError>)
    ensures r == CompileEncoder(f, isOneof)
    decreases f, 1
  {
    match f.coding {
      case NoCoding => return Err(MissingCoding);
      case ScalarCoding(code) =>
        if isOneof && !ExplicitScalar(code) {
          return Err(NotExplicit);
        }
        match ScalarOf(code) {
          case None => return Err(InvalidScalarCoding);
          case Some(Scalar(t, presence)) =>
            var tag := FieldTag(f.number, ScalarWireType(t), presence);
            return Ok(ItemEncoder(ScalarItem(t), presence, tag));
        }
      case CompoundCoding(code) =>
        if isOneof && code != 6 && code != 2 {
          return Err(NotExplicit);
        }
        match CompoundOf(code) {
          case None => return Err(InvalidCompoundCoding);
          case Some(EnumCompound(presence)) =>
            var variants := CompileEnumVariants(f);
            return Ok(ItemEncoder(EnumItem(variants), presence, FieldTag(f.number, VarintType, presence)));
          case Some(MessageSingular) =>
            var subfields := CompileCompound(f, false);
            if subfields.Err? { return Err(subfields.error); }
            return Ok(MessageEncoder(Outer, Tag(f.number, LengthDelimited), subfields.value));
          case Some(MessageExpanded) =>
            var subfields := CompileCompound(f, false);
            if subfields.Err? { return Err(subfields.error); }
            return Ok(MessageEncoder(Repeated, Tag(f.number, LengthDelimited), subfields.value));
          case Some(OneofCompound) =>
            var subfields := CompileCompound(f, true);
            if subfields.Err? { return Err(subfields.error); }
            return Ok(OneofEncoder(subfields.value));
        }
    }
  }
}
