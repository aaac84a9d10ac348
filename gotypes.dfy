/**
 * The runtime world the engines work on, as seen through Go's reflection:
 * kinds, a finite tree of types, values, and the memory that pointers,
 * slices and maps refer to.
 */
module GoTypes {
  import opened Wrappers

  /** reflect.Kind, in the package's own order; Code gives its number. */
  datatype Kind =
    | Invalid | Bool | Int | Int8 | Int16 | Int32 | Int64
    | Uint | Uint8 | Uint16 | Uint32 | Uint64 | Uintptr
    | Float32 | Float64 | Complex64 | Complex128
    | Array | Chan | Func | Interface | Map | Ptr | Slice
    | String | Struct | UnsafePointer

  /** The kinds in code order: Kinds[c] is the kind numbered c. */
  const Kinds: seq<Kind> := [
    Invalid, Bool, Int, Int8, Int16, Int32, Int64,
    Uint, Uint8, Uint16, Uint32, Uint64, Uintptr,
    Float32, Float64, Complex64, Complex128,
    Array, Chan, Func, Interface, Map, Ptr, Slice,
    String, Struct, UnsafePointer]

  function Code(k: Kind): (c: nat)
    ensures c < |Kinds| && Kinds[c] == k
  {
    match k
    case Invalid => 0 case Bool => 1 case Int => 2 case Int8 => 3
    case Int16 => 4 case Int32 => 5 case Int64 => 6 case Uint => 7
    case Uint8 => 8 case Uint16 => 9 case Uint32 => 10 case Uint64 => 11
    case Uintptr => 12 case Float32 => 13 case Float64 => 14
    case Complex64 => 15 case Complex128 => 16 case Array => 17
    case Chan => 18 case Func => 19 case Interface => 20 case Map => 21
    case Ptr => 22 case Slice => 23 case String => 24 case Struct => 25
    case UnsafePointer => 26
  }

  /** Kinds whose values own no nested state outside the types below. */
  predicate IsPrimitiveKind(k: Kind) {
    k in {Bool, Int, Int8, Int16, Int32, Int64, Uint, Uint8, Uint16, Uint32,
          Uint64, Uintptr, Float32, Float64, Complex64, Complex128, String,
          UnsafePointer}
  }

  predicate IsSignedKind(k: Kind) { k in {Int, Int8, Int16, Int32, Int64} }
  predicate IsUnsignedKind(k: Kind) { k in {Uint, Uint8, Uint16, Uint32, Uint64} }
  predicate IsFloatKind(k: Kind) { k in {Float32, Float64} }

  /**
   * The element kinds that the deep copy engine copies in bulk, by value:
   * the sized integers, bool, the floats and string (not uintptr, the
   * complex kinds or unsafe pointers).
   */
  predicate IsBulkCopyKind(k: Kind) {
    IsSignedKind(k) || IsUnsignedKind(k) || k == Bool || IsFloatKind(k) || k == String
  }

  /**
   * A Go type. Prim stands for a boolean, numeric, string or unsafe-pointer
   * type; pkgPath and name are empty for the predeclared ones and name a
   * declared one (time.Duration). Struct types are declared types too.
   */
  datatype GoType =
    | Prim(kind: Kind, pkgPath: string, name: string)
    | PtrTo(elem: GoType)
    | ArrayOf(len: nat, elem: GoType)
    | SliceOf(elem: GoType)
    | MapOf(key: GoType, elem: GoType)
    | Iface(pkgPath: string, name: string)
    | StructOf(pkgPath: string, name: string, fields: seq<Field>)
    | ChanOf(elem: GoType)
    | FuncOf

  /** A struct field: its tag (and the tag's "amino" entry) and its offset are given. */
  datatype Field = Field(name: string, exported: bool, tag: string, aminoTag: string,
                         ftype: GoType, offset: nat)

  /** reflect.Kind of a type. */
  function KindOf(t: GoType): Kind {
    match t
    case Prim(k, _, _) => k
    case PtrTo(_) => Ptr
    case ArrayOf(_, _) => Array
    case SliceOf(_) => Slice
    case MapOf(_, _) => Map
    case Iface(_, _) => Interface
    case StructOf(_, _, _) => Struct
    case ChanOf(_) => Chan
    case FuncOf => Func
  }

  /** reflect.Type.PkgPath and Name: empty for unnamed types. */
  function PkgPathOf(t: GoType): string {
    match t
    case Prim(_, p, _) => p
    case Iface(p, _) => p
    case StructOf(p, _, _) => p
    case _ => ""
  }

  function NameOf(t: GoType): string {
    match t
    case Prim(_, _, n) => n
    case Iface(_, n) => n
    case StructOf(_, n, _) => n
    case _ => ""
  }

  /** The designated date/time types (time.Time and time.Duration). */
  predicate IsTimeType(t: GoType) {
    t.StructOf? && t.pkgPath == "time" && t.name == "Time"
  }

  predicate IsDurationType(t: GoType) {
    t == Prim(Int64, "time", "Duration")
  }

  /** isExported: whether a field is visible outside its package. */
  predicate IsExported(f: Field) { f.exported }

  /** The number of type constructors in a type; every component is smaller. */
  function Size(t: GoType): nat
    decreases t, 1
  {
    match t
    case Prim(_, _, _) => 1
    case PtrTo(e) => 1 + Size(e)
    case ArrayOf(_, e) => 1 + Size(e)
    case SliceOf(e) => 1 + Size(e)
    case MapOf(k, e) => 1 + Size(k) + Size(e)
    case Iface(_, _) => 1
    case StructOf(_, _, fs) => 1 + FieldsSize(t, 0)
    case ChanOf(e) => 1 + Size(e)
    case FuncOf => 1
  }

  /** The sizes of a struct's field types from field i on, added up. */
  function FieldsSize(t: GoType, i: nat): nat
    requires t.StructOf? && i <= |t.fields|
    decreases t, 0, |t.fields| - i
  {
    if i == |t.fields| then 0 else Size(t.fields[i].ftype) + FieldsSize(t, i + 1)
  }

  lemma {:induction false} FieldsSizeBounds(t: GoType, i: nat, j: nat)
    requires t.StructOf? && i <= j < |t.fields|
    ensures Size(t.fields[j].ftype) <= FieldsSize(t, i)
    decreases j - i
  {
    if i < j {
      FieldsSizeBounds(t, i + 1, j);
    }
  }

  /** Every field type of a struct is smaller than the struct. */
  lemma FieldSmaller(t: GoType, i: nat)
    requires t.StructOf? && i < |t.fields|
    ensures Size(t.fields[i].ftype) < Size(t)
  {
    FieldsSizeBounds(t, 0, i);
  }

  // ---------------------------------------------------------------------
  // Values and memory

  /** The payload of a primitive value; floats, complex numbers, uintptrs and
      unsafe pointers are opaque bit patterns. */
  datatype Scalar =
    | IntVal(i: int)
    | UintVal(n: nat)
    | BoolVal(b: bool)
    | FloatVal(bits: nat)
    | StringVal(s: string)
    | RawVal(bits: nat)

  /** A reference into memory: nil, or the address of an object. */
  datatype Ref = Nil | At(addr: nat)

  /**
   * A Go value. Arrays, structs and interfaces hold their contents inline;
   * pointers, slices, maps, channels and functions refer to memory, so two
   * values can share (alias) the same object.
   */
  datatype Value =
    | PrimV(s: Scalar)
    | PtrV(ptr: Ref)
    | ArrayV(elems: seq<Value>)
    | SliceV(data: Ref, len: nat)
    | MapV(m: Ref)
    | IfaceV(held: Option<Dyn>)
    | StructV(fields: seq<Value>)
    | ChanV(ch: Ref)
    | FuncV(fn: Ref)

  /** An interface's dynamic content: a concrete type and a value of it. */
  datatype Dyn = Dyn(t: GoType, v: Value)

  /** A memory object: a pointer's cell, a slice's backing array, a map, or
      something the engines never look into (a channel, a function). */
  datatype Obj =
    | Cell(v: Value)
    | Backing(elems: seq<Value>)
    | MapObj(entries: map<Value, Value>)
    | Opaque

  /** Memory: the object at address a is h[a]; allocation appends. */
  type Heap = seq<Obj>

  function ZeroScalar(k: Kind): Scalar {
    if IsSignedKind(k) then IntVal(0)
    else if IsUnsignedKind(k) then UintVal(0)
    else if k == Bool then BoolVal(false)
    else if IsFloatKind(k) then FloatVal(0)
    else if k == String then StringVal("")
    else RawVal(0)
  }

  /** The zero value of a type (what reflect.New allocates). */
  function Zero(t: GoType): Value {
    match t
    case Prim(k, _, _) => PrimV(ZeroScalar(k))
    case PtrTo(_) => PtrV(Nil)
    case ArrayOf(n, e) => ArrayV(seq(n, _ => Zero(e)))
    case SliceOf(_) => SliceV(Nil, 0)
    case MapOf(_, _) => MapV(Nil)
    case Iface(_, _) => IfaceV(None)
    case StructOf(_, _, fs) => StructV(seq(|fs|, i requires 0 <= i < |fs| => Zero(fs[i].ftype)))
    case ChanOf(_) => ChanV(Nil)
    case FuncOf => FuncV(Nil)
  }

  /** isTypedNilReflect: a nil pointer, slice, map, channel or function, or an
      empty interface. */
  predicate IsTypedNil(v: Value) {
    match v
    case PtrV(r) => r == Nil
    case SliceV(r, _) => r == Nil
    case MapV(r) => r == Nil
    case ChanV(r) => r == Nil
    case FuncV(r) => r == Nil
    case IfaceV(d) => d == None
    case _ => false
  }

  /** The value a pointer points to; None for nil or a reference that does not
      name a cell. */
  function Deref(h: Heap, r: Ref): Option<Value> {
    match r
    case Nil => None
    case At(a) => if a < |h| && h[a].Cell? then Some(h[a].v) else None
  }

  /** The elements of a slice; a nil slice has none. */
  function SliceElems(h: Heap, data: Ref, len: nat): (r: Option<seq<Value>>)
    ensures r.Some? ==> |r.value| == len
  {
    match data
    case Nil => if len == 0 then Some([]) else None
    case At(a) =>
      if a < |h| && h[a].Backing? && len <= |h[a].elems| then Some(h[a].elems[..len]) else None
  }

  /** The entries of a map; a nil map has none. */
  function MapEntries(h: Heap, r: Ref): Option<map<Value, Value>> {
    match r
    case Nil => Some(map[])
    case At(a) => if a < |h| && h[a].MapObj? then Some(h[a].entries) else None
  }
}
