/**
 * The descriptors of the reflection-free codec (no-reflect.go): the
 * norefType record, the table of shared primitive descriptors that init()
 * fills, and the pure constructors of pointer, slice, array and map
 * descriptors.
 */
module NoRefTypes {
  import opened Wrappers
  import opened GoTypes

  /** Which encoder a descriptor carries (its decoder is the matching stub). */
  datatype Encoder =
    | EncodePrimitive | EncodePtr | EncodeSlice | EncodeArray
    | EncodeMap | EncodeInterface | EncodeStruct

  /**
   * A *norefType. Descriptors live in a store, so a reference is either the
   * shared table entry for a kind code or the index of a descriptor that
   * some registration allocated.
   */
  datatype DescRef = Shared(code: nat) | Own(id: nat)

  /** norefType. jsonTag is never set and elemSize is memory layout; both are
      left out. Field offsets are carried as opaque numbers. */
  datatype Desc = Desc(
    aminoTag: string,
    tipe: GoType,
    kind: Kind,
    elemCount: nat,
    elemType: Option<DescRef>,
    fieldNames: seq<string>,
    fieldTypes: seq<DescRef>,
    fieldOffsets: seq<nat>,
    fieldTags: seq<string>,
    encode: Encoder)

  /** The encoder each kind of descriptor is built with. */
  function EncoderFor(k: Kind): Encoder {
    if IsPrimitiveKind(k) then EncodePrimitive
    else if k == Ptr then EncodePtr
    else if k == Slice then EncodeSlice
    else if k == Array then EncodeArray
    else if k == Map then EncodeMap
    else if k == Interface then EncodeInterface
    else EncodeStruct
  }

  /**
   * What every descriptor the codec builds looks like: its kind is its
   * type's kind, it carries that kind's encoder, an element descriptor
   * exactly for pointers, arrays and slices, an element count only for
   * arrays (their length), two unnamed entries (key and value) for maps,
   * and, for structs, one entry per field in declaration order.
   */
  predicate WellShaped(d: Desc) {
    && KindOf(d.tipe) == d.kind
    && d.encode == EncoderFor(d.kind)
    && |d.fieldNames| == |d.fieldTypes| == |d.fieldOffsets|
    && (d.elemType.Some? <==> d.kind in {Ptr, Array, Slice})
    && (d.tipe.ArrayOf? ==> d.elemCount == d.tipe.len)
    && (!d.tipe.ArrayOf? ==> d.elemCount == 0)
    && (d.tipe.MapOf? ==> d.fieldNames == ["", ""] && d.fieldOffsets == [0, 0])
    && (d.tipe.StructOf? ==>
          && |d.fieldNames| == |d.tipe.fields| && |d.fieldTags| == |d.fieldNames|
          && forall i :: 0 <= i < |d.fieldNames| ==>
               && d.fieldNames[i] == d.tipe.fields[i].name
               && d.fieldOffsets[i] == d.tipe.fields[i].offset
               && d.fieldTags[i] == d.tipe.fields[i].tag)
    && (!d.tipe.MapOf? && !d.tipe.StructOf? ==> |d.fieldNames| == 0 && |d.fieldTags| == 0)
    && (d.tipe.MapOf? ==> |d.fieldTags| == 0)
  }

  function P(k: Kind): GoType { Prim(k, "", "") }

  /** The values init() takes the types of, by kind code: nil where the
      source lists nil (Invalid and the composite kinds), otherwise the
      predeclared type of the zero value listed. */
  const InitValues: seq<Option<GoType>> := [
    None, Some(P(Bool)), Some(P(Int)), Some(P(Int8)), Some(P(Int16)),
    Some(P(Int32)), Some(P(Int64)), Some(P(Uint)), Some(P(Uint8)), Some(P(Uint16)),
    Some(P(Uint32)), Some(P(Uint64)), Some(P(Uintptr)), Some(P(Float32)), Some(P(Float64)),
    Some(P(Complex64)), Some(P(Complex128)), None, None, None,
    None, None, None, None, Some(P(String)),
    None, Some(P(UnsafePointer))]

  /** The descriptor init() builds for a primitive type. */
  function PrimDesc(t: GoType): (d: Desc)
    ensures t.Prim? && IsPrimitiveKind(t.kind) ==> WellShaped(d) && d.tipe == t && d.kind == t.kind
  {
    Desc("", t, KindOf(t), 0, None, [], [], [], [], EncodePrimitive)
  }

  function TableEntry(v: Option<GoType>): Option<Desc> {
    match v
    case None => None
    case Some(t) => Some(PrimDesc(t))
  }

  /** The table init() builds from a list of values: one entry per value. */
  function TableOf(values: seq<Option<GoType>>): (t: seq<Option<Desc>>)
    ensures |t| == |values|
    ensures forall i :: 0 <= i < |values| ==> t[i] == TableEntry(values[i])
  {
    seq(|values|, i requires 0 <= i < |values| => TableEntry(values[i]))
  }

  /** norefPrimitiveTypes after init(). */
  const PrimitiveTable: seq<Option<Desc>> := TableOf(InitValues)

  /** The table has one entry per kind code; an entry is present exactly for
      the primitive kinds, and then describes that kind's predeclared type. */
  lemma PrimitiveTableShape()
    ensures |PrimitiveTable| == |Kinds|
    ensures forall c :: 0 <= c < |Kinds| ==>
      && (PrimitiveTable[c].Some? <==> IsPrimitiveKind(Kinds[c]))
      && (PrimitiveTable[c].Some? ==>
            PrimitiveTable[c].value == PrimDesc(P(Kinds[c])))
  {
    forall c | 0 <= c < |Kinds|
      ensures PrimitiveTable[c].Some? <==> IsPrimitiveKind(Kinds[c])
      ensures PrimitiveTable[c].Some? ==>
        PrimitiveTable[c].value == PrimDesc(P(Kinds[c]))
    {
      assert PrimitiveTable[c] == TableEntry(InitValues[c]);
    }
  }

  /** init(): fill the table, skipping the nil entries. */
  method Init() returns (table: seq<Option<Desc>>)
    ensures table == PrimitiveTable
  {
    var a := new Option<Desc>[|InitValues|](_ => None);
    for i := 0 to |InitValues|
      invariant forall j :: 0 <= j < i ==> a[j] == PrimitiveTable[j]
      invariant forall j :: i <= j < a.Length ==> a[j] == None
    {
      assert PrimitiveTable[i] == TableEntry(InitValues[i]);
      if InitValues[i].None? {
        continue;
      }
      var tipe := InitValues[i].value;
      a[i] := Some(PrimDesc(tipe));
    }
    table := a[..];
  }

  /** norefGetPrimitiveType: the shared descriptor for a kind code, or nil
      for Invalid, for codes past the table, and for the composite kinds. */
  function GetPrimitiveType(code: nat): (r: Option<DescRef>)
    ensures r.Some? <==> 0 < code < |Kinds| && IsPrimitiveKind(Kinds[code])
    ensures r.Some? ==>
      && r.value == Shared(code) && PrimitiveTable[code].Some?
      && PrimitiveTable[code].value.kind == Kinds[code]
      && PrimitiveTable[code].value.tipe == P(Kinds[code])
  {
    PrimitiveTableShape();
    if code <= 0 || code >= |PrimitiveTable| then None
    else if PrimitiveTable[code].None? then None
    else Some(Shared(code))
  }

  /** norefGenPtrType: the descriptor of a pointer to elem's type. */
  function GenPtrType(et: DescRef, elem: Desc): (d: Desc)
    ensures WellShaped(d) && d.tipe == PtrTo(elem.tipe) && d.elemType == Some(et)
  {
    Desc("", PtrTo(elem.tipe), Ptr, 0, Some(et), [], [], [], [], EncodePtr)
  }

  /** norefGenSliceType: a slice of elem's type; its element count is 0. */
  function GenSliceType(et: DescRef, elem: Desc): (d: Desc)
    ensures WellShaped(d) && d.tipe == SliceOf(elem.tipe) && d.elemType == Some(et) && d.elemCount == 0
  {
    Desc("", SliceOf(elem.tipe), Slice, 0, Some(et), [], [], [], [], EncodeSlice)
  }

  /** norefGenArrayType: an array of count elements of elem's type; its
      element count is the array's length. */
  function GenArrayType(count: nat, et: DescRef, elem: Desc): (d: Desc)
    ensures WellShaped(d) && d.tipe == ArrayOf(count, elem.tipe) && d.elemType == Some(et)
    ensures d.elemCount == count
  {
    Desc("", ArrayOf(count, elem.tipe), Array, count, Some(et), [], [], [], [], EncodeArray)
  }

  /** norefGenMapType: a map descriptor whose two entries are the key's and
      the value's descriptors. */
  function GenMapType(kt: DescRef, key: Desc, vt: DescRef, value: Desc): (d: Desc)
    ensures WellShaped(d) && d.tipe == MapOf(key.tipe, value.tipe) && d.fieldTypes == [kt, vt]
  {
    Desc("", MapOf(key.tipe, value.tipe), Map, 0, None, ["", ""], [kt, vt], [0, 0], [], EncodeMap)
  }

  /** The descriptor register allocates for an interface type. */
  function InterfaceDesc(rt: GoType, name: string): (d: Desc)
    requires rt.Iface?
    ensures WellShaped(d) && d.tipe == rt && d.aminoTag == name
  {
    Desc(name, rt, Interface, 0, None, [], [], [], [], EncodeInterface)
  }

  /** The names, offsets and tags of a list of fields, in order, as the
      field loop of register appends them. */
  function FieldNames(fs: seq<Field>): (r: seq<string>)
    ensures |r| == |fs| && forall j :: 0 <= j < |fs| ==> r[j] == fs[j].name
  {
    if fs == [] then [] else FieldNames(fs[..|fs| - 1]) + [fs[|fs| - 1].name]
  }

  function FieldOffsets(fs: seq<Field>): (r: seq<nat>)
    ensures |r| == |fs| && forall j :: 0 <= j < |fs| ==> r[j] == fs[j].offset
  {
    if fs == [] then [] else FieldOffsets(fs[..|fs| - 1]) + [fs[|fs| - 1].offset]
  }

  function FieldTags(fs: seq<Field>): (r: seq<string>)
    ensures |r| == |fs| && forall j :: 0 <= j < |fs| ==> r[j] == fs[j].tag
  {
    if fs == [] then [] else FieldTags(fs[..|fs| - 1]) + [fs[|fs| - 1].tag]
  }

  /** The descriptor register builds for a struct type once every field is
      registered: names, descriptors, offsets and tags in field order. */
  function StructDesc(rt: GoType, name: string, refs: seq<DescRef>): (d: Desc)
    requires rt.StructOf? && |refs| == |rt.fields|
    ensures WellShaped(d) && d.tipe == rt && d.aminoTag == name && d.fieldTypes == refs
  {
    var fs := rt.fields;
    Desc(name, rt, Struct, 0, None, FieldNames(fs), refs, FieldOffsets(fs), FieldTags(fs), EncodeStruct)
  }

  /**
   * The type a successful registration describes: a primitive is described
   * by the shared descriptor of its predeclared type, so a named primitive
   * type (time.Duration, say) loses its name, also under a pointer, array,
   * slice or map; struct and interface types are described as themselves.
   */
  function Canon(t: GoType): GoType {
    match t
    case Prim(k, _, _) => P(k)
    case PtrTo(e) => PtrTo(Canon(e))
    case ArrayOf(n, e) => ArrayOf(n, Canon(e))
    case SliceOf(e) => SliceOf(Canon(e))
    case MapOf(k, e) => MapOf(Canon(k), Canon(e))
    case _ => t
  }
}
