/**
 * The encoders of the reflection-free codec (no-reflect.go): each kind of
 * descriptor carries an encoder that walks the value at a memory slot and
 * writes a textual rendering of it to an io.Writer, and Encode picks the
 * descriptor of a value and runs its encoder.
 *
 * The memory slot an encoder is handed is modelled as the value stored
 * there, or None for a nil address (the pointer encoder passes the pointee
 * of a nil pointer on as such a slot). Each write is one Token; the text of
 * a token is fixed by its fields.
 */
module NoRefEncode {
  import opened Wrappers
  import opened GoTypes
  import opened NoRefTypes
  import opened NoRefRegistry

  /** One call of w.Write, with the text it writes. */
  datatype Token =
    | PrimTok(t: GoType, s: Scalar)                // "<type:value>"
    | AddrTok(t: GoType)                           // "<unsafe.Pointer:address of the slot>"
    | ArrayHead(len: nat, count: nat, elem: GoType) // "[:len/count]elem=>"
    | SliceHead(len: nat, elem: GoType)            // "[:len,header]elem=>"
    | MapOpen(t: GoType)                           // "<map:type>{"
    | MapColon                                     // ":"
    | MapComma                                     // ","
    | MapClose                                     // "}"
    | StructOpen(t: GoType)                        // "<struct:type>"
    | FieldOpen(name: string, offset: nat)         // "{name/offset=>"
    | FieldClose                                   // "}"

  /** The run-time panics an encoder can run into. */
  datatype Crash =
    | NilDeref                  // reading through a nil address
    | ZeroValueCall             // a reflect method called on the zero Value
    | InvalidPrimitive(k: Kind) // the primitive encoder's default case
    | Unaddressable             // UnsafeAddr of a value that is not addressable

  /** How an encoder stops early: the "not found" error it returns, a panic,
      or, in the model only, a value that does not fit its descriptor and
      running out of fuel. */
  datatype EncError = NotFound(t: GoType) | Crashed(why: Crash) | IllFormed | OutOfFuel

  /** What an encoder leaves behind: the tokens it wrote, in order, and
      whether it stopped early. */
  datatype Written = Written(tokens: seq<Token>, err: Option<EncError>)

  /** The order a map's entries are visited in (Go leaves it unspecified):
      a sequence of keys. */
  type Order = map<Value, Value> -> seq<Value>

  /** What the encoders read: the codec's registry, memory, and the order
      map iteration produces. */
  datatype Ctx = Ctx(st: Registry, h: Heap, order: Order)

  const Nothing: Written := Written([], None)

  function Fail(e: EncError): Written { Written([], Some(e)) }

  /** Tokens written before something else runs. */
  function Prepend(ts: seq<Token>, o: Written): Written { Written(ts + o.tokens, o.err) }

  /** Run a, then, if it succeeded, b. */
  function Then(a: Written, b: Written): Written {
    if a.err.None? then Prepend(a.tokens, b) else a
  }

  lemma PrependPrepend(a: seq<Token>, b: seq<Token>, o: Written)
    ensures Prepend(a, Prepend(b, o)) == Prepend(a + b, o)
  {
    assert a + (b + o.tokens) == (a + b) + o.tokens;
  }

  function Min(a: nat, b: nat): nat { if a < b then a else b }

  /** The elements the slice encoder visits: at most the first five. */
  const SliceShown: nat := 5

  /** tipe.encode(cdc, tipe, ptr, w) for the descriptor r refers to. */
  function Enc(c: Ctx, r: DescRef, slot: Option<Value>, fuel: nat): Written
    decreases fuel, 1
  {
    if fuel == 0 then Fail(OutOfFuel)
    else if !ValidRef(c.st.store, r) then Fail(IllFormed)
    else
      var d := Resolve(c.st.store, r);
      match d.encode
      case EncodePrimitive => EncPrim(d, slot)
      case EncodePtr => EncPtr(c, d, slot, fuel)
      case EncodeInterface => EncIface(c, d, slot, fuel)
      case EncodeArray => EncArray(c, d, slot, fuel)
      case EncodeSlice => EncSlice(c, d, slot, fuel)
      case EncodeMap => EncMap(c, d, slot, fuel)
      case EncodeStruct => EncStruct(c, d, slot, fuel)
  }

  /** norefEncodePrimitive: the kind must be primitive; an unsafe pointer is
      rendered as the slot's address without reading it, any other kind
      reads the slot. */
  function EncPrim(d: Desc, slot: Option<Value>): Written {
    if !IsPrimitiveKind(d.kind) then Fail(Crashed(InvalidPrimitive(d.kind)))
    else if d.kind == UnsafePointer then Written([AddrTok(d.tipe)], None)
    else if slot.None? then Fail(Crashed(NilDeref))
    else if !slot.value.PrimV? then Fail(IllFormed)
    else Written([PrimTok(d.tipe, slot.value.s)], None)
  }

  /** norefEncodePtr: read the pointer and encode what it points to; a nil
      pointer hands the element encoder a nil address. */
  function EncPtr(c: Ctx, d: Desc, slot: Option<Value>, fuel: nat): Written
    requires fuel > 0
    decreases fuel, 0
  {
    match slot
    case None => Fail(Crashed(NilDeref))
    case Some(v) =>
      if !v.PtrV? || d.elemType.None? then Fail(IllFormed)
      else if v.ptr.Nil? then Enc(c, d.elemType.value, None, fuel - 1)
      else
        match Deref(c.h, v.ptr)
        case None => Fail(IllFormed)
        case Some(x) => Enc(c, d.elemType.value, Some(x), fuel - 1)
  }

  /** norefEncodeInterface: a nil interface panics in IsZero; an interface
      holding its type's zero value writes nothing; otherwise the dynamic
      type must be registered, and its descriptor encodes the held value. */
  function EncIface(c: Ctx, d: Desc, slot: Option<Value>, fuel: nat): Written
    requires fuel > 0
    decreases fuel, 0
  {
    match slot
    case None => Fail(Crashed(ZeroValueCall))
    case Some(v) =>
      if !v.IfaceV? then Fail(IllFormed)
      else if v.held.None? then Fail(Crashed(ZeroValueCall))
      else
        var t, x := v.held.value.t, v.held.value.v;
        if x == Zero(t) then Nothing
        else if t !in c.st.typeInfos then Fail(NotFound(t))
        else Enc(c, c.st.typeInfos[t], Some(x), fuel - 1)
  }

  /** The element loop of the array and slice encoders, from element i on:
      each element in turn, stopping at the first that fails. */
  function EncElems(c: Ctx, er: DescRef, xs: seq<Value>, i: nat, fuel: nat): Written
    requires i <= |xs|
    decreases fuel, 2, |xs| - i
  {
    if i == |xs| then Nothing
    else Then(Enc(c, er, Some(xs[i]), fuel), EncElems(c, er, xs, i + 1, fuel))
  }

  /** norefEncodeArray: the header (length, element count, element type),
      then every element. */
  function EncArray(c: Ctx, d: Desc, slot: Option<Value>, fuel: nat): Written
    requires fuel > 0
    decreases fuel, 0
  {
    match slot
    case None => Fail(Crashed(NilDeref))
    case Some(v) =>
      if !v.ArrayV? || d.elemType.None? || !ValidRef(c.st.store, d.elemType.value) then Fail(IllFormed)
      else
        var er := d.elemType.value;
        Prepend([ArrayHead(|v.elems|, d.elemCount, Resolve(c.st.store, er).tipe)],
                EncElems(c, er, v.elems, 0, fuel - 1))
  }

  /** norefEncodeSlice: the header (length, element type), then the first
      elements, at most five of them. */
  function EncSlice(c: Ctx, d: Desc, slot: Option<Value>, fuel: nat): Written
    requires fuel > 0
    decreases fuel, 0
  {
    match slot
    case None => Fail(Crashed(NilDeref))
    case Some(v) =>
      if !v.SliceV? || d.elemType.None? || !ValidRef(c.st.store, d.elemType.value) then Fail(IllFormed)
      else
        match SliceElems(c.h, v.data, v.len)
        case None => Fail(IllFormed)
        case Some(xs) =>
          var er := d.elemType.value;
          Prepend([SliceHead(v.len, Resolve(c.st.store, er).tipe)],
                  EncElems(c, er, xs[..Min(v.len, SliceShown)], 0, fuel - 1))
  }

  /** The entry loop of the map encoder, from the i-th key of the visiting
      order on: key, ":", value, "," per entry, stopping at the first
      failure. A key the order names that is not in the map is passed over. */
  function EncEntries(c: Ctx, kr: DescRef, vr: DescRef, m: map<Value, Value>, keys: seq<Value>,
                      i: nat, fuel: nat): Written
    requires i <= |keys|
    decreases fuel, 2, |keys| - i
  {
    if i == |keys| then Nothing
    else if keys[i] !in m then EncEntries(c, kr, vr, m, keys, i + 1, fuel)
    else
      Then(Enc(c, kr, Some(keys[i]), fuel),
        Prepend([MapColon],
          Then(Enc(c, vr, Some(m[keys[i]]), fuel),
            Prepend([MapComma], EncEntries(c, kr, vr, m, keys, i + 1, fuel)))))
  }

  /** norefEncodeMap: "<map:type>{", the entries in visiting order, "}".
      The opening is written before the map is read, so a nil address
      panics after it. */
  function EncMap(c: Ctx, d: Desc, slot: Option<Value>, fuel: nat): Written
    requires fuel > 0
    decreases fuel, 0
  {
    Prepend([MapOpen(d.tipe)],
      match slot
      case None => Fail(Crashed(ZeroValueCall))
      case Some(v) =>
        if !v.MapV? || |d.fieldTypes| < 2 then Fail(IllFormed)
        else
          match MapEntries(c.h, v.m)
          case None => Fail(IllFormed)
          case Some(m) =>
            Then(EncEntries(c, d.fieldTypes[0], d.fieldTypes[1], m, c.order(m), 0, fuel - 1),
                 Written([MapClose], None)))
  }

  /** Where field i lives: inside the struct at the slot, or, for a nil
      address, at an address just past nil, which is no better. */
  function FieldSlot(base: Option<seq<Value>>, i: nat): Option<Value>
    requires base.Some? ==> i < |base.value|
  {
    if base.None? then None else Some(base.value[i])
  }

  /** The descriptor's field lists are parallel. */
  predicate FieldListsOk(d: Desc) {
    |d.fieldTypes| == |d.fieldNames| && |d.fieldOffsets| == |d.fieldNames|
  }

  /** The field loop of the struct encoder, from field i on: "{name/offset=>",
      the field, "}" per field, stopping at the first field that fails. */
  function EncFields(c: Ctx, d: Desc, base: Option<seq<Value>>, i: nat, fuel: nat): Written
    requires FieldListsOk(d) && i <= |d.fieldNames|
    requires base.Some? ==> |d.fieldNames| <= |base.value|
    decreases fuel, 2, |d.fieldNames| - i
  {
    if i == |d.fieldNames| then Nothing
    else
      Prepend([FieldOpen(d.fieldNames[i], d.fieldOffsets[i])],
        Then(Enc(c, d.fieldTypes[i], FieldSlot(base, i), fuel),
          Prepend([FieldClose], EncFields(c, d, base, i + 1, fuel))))
  }

  /** norefEncodeStruct: "<struct:type>", then every field. */
  function EncStruct(c: Ctx, d: Desc, slot: Option<Value>, fuel: nat): Written
    requires fuel > 0
    decreases fuel, 0
  {
    if !FieldListsOk(d) then Fail(IllFormed)
    else
      match slot
      case None => Prepend([StructOpen(d.tipe)], EncFields(c, d, None, 0, fuel - 1))
      case Some(v) =>
        if !v.StructV? || |v.fields| < |d.fieldNames| then Fail(IllFormed)
        else Prepend([StructOpen(d.tipe)], EncFields(c, d, Some(v.fields), 0, fuel - 1))
  }

  /** The descriptor Encode uses for a value: the one given, else the
      registered one for its type, else the shared one for its kind. */
  function EncoderOf(st: Registry, tipe: Option<DescRef>, t: GoType): Option<DescRef> {
    if tipe.Some? then tipe
    else if t in st.typeInfos then Some(st.typeInfos[t])
    else GetPrimitiveType(Code(KindOf(t)))
  }

  /** NoRefCodec.Encode: a "not found" error when no descriptor is found,
      otherwise what its encoder does to the value. */
  function EncodeSpec(c: Ctx, tipe: Option<DescRef>, obj: Dyn, fuel: nat): Written {
    match EncoderOf(c.st, tipe, obj.t)
    case None => Fail(NotFound(obj.t))
    case Some(r) => Enc(c, r, Some(obj.v), fuel)
  }

  /** The io.Writer the encoders write to. */
  class Writer {
    var tokens: seq<Token>

    constructor ()
      ensures tokens == []
    {
      tokens := [];
    }

    method Write(t: Token)
      modifies this
      ensures tokens == old(tokens) + [t]
    {
      tokens := tokens + [t];
    }
  }

  /** Dispatch on the descriptor's encoder. */
  method EncodeWith(cdc: NoRefCodec, h: Heap, order: Order, r: DescRef, slot: Option<Value>,
                    w: Writer, fuel: nat)
    returns (err: Option<EncError>)
    modifies w
    ensures Written(w.tokens, err) == Prepend(old(w.tokens), Enc(Ctx(cdc.State(), h, order), r, slot, fuel))
    decreases fuel, 1
  {
    if fuel == 0 {
      return Some(OutOfFuel);
    }
    if !ValidRef(cdc.store, r) {
      return Some(IllFormed);
    }
    var d := Resolve(cdc.store, r);
    match d.encode
    case EncodePrimitive => err := EncodePrimitive(d, slot, w);
    case EncodePtr => err := EncodePtr(cdc, h, order, d, slot, w, fuel);
    case EncodeInterface => err := EncodeInterface(cdc, h, order, d, slot, w, fuel);
    case EncodeArray => err := EncodeArray(cdc, h, order, d, slot, w, fuel);
    case EncodeSlice => err := EncodeSlice(cdc, h, order, d, slot, w, fuel);
    case EncodeMap => err := EncodeMap(cdc, h, order, d, slot, w, fuel);
    case EncodeStruct => err := EncodeStruct(cdc, h, order, d, slot, w, fuel);
  }

  method EncodePrimitive(d: Desc, slot: Option<Value>, w: Writer) returns (err: Option<EncError>)
    modifies w
    ensures Written(w.tokens, err) == Prepend(old(w.tokens), EncPrim(d, slot))
  {
    if !IsPrimitiveKind(d.kind) {
      return Some(Crashed(InvalidPrimitive(d.kind)));
    }
    if d.kind == UnsafePointer {
      w.Write(AddrTok(d.tipe));
      return None;
    }
    if slot.None? {
      return Some(Crashed(NilDeref));
    }
    if !slot.value.PrimV? {
      return Some(IllFormed);
    }
    w.Write(PrimTok(d.tipe, slot.value.s));
    return None;
  }

  method EncodePtr(cdc: NoRefCodec, h: Heap, order: Order, d: Desc, slot: Option<Value>,
                   w: Writer, fuel: nat)
    returns (err: Option<EncError>)
    requires fuel > 0
    modifies w
    ensures Written(w.tokens, err) == Prepend(old(w.tokens), EncPtr(Ctx(cdc.State(), h, order), d, slot, fuel))
    decreases fuel, 0
  {
    if slot.None? {
      return Some(Crashed(NilDeref));
    }
    var v := slot.value;
    if !v.PtrV? || d.elemType.None? {
      return Some(IllFormed);
    }
    var elem: Option<Value> := None;
    if v.ptr.At? {
      var x := Deref(h, v.ptr);
      if x.None? {
        return Some(IllFormed);
      }
      elem := x;
    }
    err := EncodeWith(cdc, h, order, d.elemType.value, elem, w, fuel - 1);
  }

  method EncodeInterface(cdc: NoRefCodec, h: Heap, order: Order, d: Desc, slot: Option<Value>,
                         w: Writer, fuel: nat)
    returns (err: Option<EncError>)
    requires fuel > 0
    modifies w
    ensures Written(w.tokens, err) == Prepend(old(w.tokens), EncIface(Ctx(cdc.State(), h, order), d, slot, fuel))
    decreases fuel, 0
  {
    if slot.None? {
      return Some(Crashed(ZeroValueCall));
    }
    var v := slot.value;
    if !v.IfaceV? {
      return Some(IllFormed);
    }
    if v.held.None? {
      return Some(Crashed(ZeroValueCall));
    }
    var t, x := v.held.value.t, v.held.value.v;
    if x == Zero(t) {
      return None;
    }
    if t !in cdc.typeInfos {
      return Some(NotFound(t));
    }
    var elemType := cdc.typeInfos[t];
    err := EncodeWith(cdc, h, order, elemType, Some(x), w, fuel - 1);
  }

  method EncodeArray(cdc: NoRefCodec, h: Heap, order: Order, d: Desc, slot: Option<Value>,
                     w: Writer, fuel: nat)
    returns (err: Option<EncError>)
    requires fuel > 0
    modifies w
    ensures Written(w.tokens, err) == Prepend(old(w.tokens), EncArray(Ctx(cdc.State(), h, order), d, slot, fuel))
    decreases fuel, 0
  {
    ghost var c := Ctx(cdc.State(), h, order);
    if slot.None? {
      return Some(Crashed(NilDeref));
    }
    var v := slot.value;
    if !v.ArrayV? || d.elemType.None? || !ValidRef(cdc.store, d.elemType.value) {
      return Some(IllFormed);
    }
    var er := d.elemType.value;
    var xs := v.elems;
    w.Write(ArrayHead(|xs|, d.elemCount, Resolve(cdc.store, er).tipe));
    ghost var start := w.tokens;
    PrependPrepend(old(w.tokens), [ArrayHead(|xs|, d.elemCount, Resolve(cdc.store, er).tipe)],
                   EncElems(c, er, xs, 0, fuel - 1));
    var i := 0;
    while i < |xs|
      invariant 0 <= i <= |xs|
      invariant Prepend(start, EncElems(c, er, xs, 0, fuel - 1)) == Prepend(w.tokens, EncElems(c, er, xs, i, fuel - 1))
    {
      ghost var before := w.tokens;
      var e := EncodeWith(cdc, h, order, er, Some(xs[i]), w, fuel - 1);
      if e.Some? {
        return e;
      }
      PrependPrepend(before, Enc(c, er, Some(xs[i]), fuel - 1).tokens, EncElems(c, er, xs, i + 1, fuel - 1));
      i := i + 1;
    }
    return None;
  }

  method EncodeSlice(cdc: NoRefCodec, h: Heap, order: Order, d: Desc, slot: Option<Value>,
                     w: Writer, fuel: nat)
    returns (err: Option<EncError>)
    requires fuel > 0
    modifies w
    ensures Written(w.tokens, err) == Prepend(old(w.tokens), EncSlice(Ctx(cdc.State(), h, order), d, slot, fuel))
    decreases fuel, 0
  {
    ghost var c := Ctx(cdc.State(), h, order);
    if slot.None? {
      return Some(Crashed(NilDeref));
    }
    var v := slot.value;
    if !v.SliceV? || d.elemType.None? || !ValidRef(cdc.store, d.elemType.value) {
      return Some(IllFormed);
    }
    var elems := SliceElems(h, v.data, v.len);
    if elems.None? {
      return Some(IllFormed);
    }
    var er := d.elemType.value;
    var xs := elems.value;
    ghost var shown := xs[..Min(v.len, SliceShown)];
    w.Write(SliceHead(v.len, Resolve(cdc.store, er).tipe));
    ghost var start := w.tokens;
    PrependPrepend(old(w.tokens), [SliceHead(v.len, Resolve(cdc.store, er).tipe)],
                   EncElems(c, er, shown, 0, fuel - 1));
    var i := 0;
    while i < v.len && i < SliceShown
      invariant 0 <= i <= |shown|
      invariant Prepend(start, EncElems(c, er, shown, 0, fuel - 1)) == Prepend(w.tokens, EncElems(c, er, shown, i, fuel - 1))
    {
      ghost var before := w.tokens;
      assert shown[i] == xs[i];
      var e := EncodeWith(cdc, h, order, er, Some(xs[i]), w, fuel - 1);
      if e.Some? {
        return e;
      }
      PrependPrepend(before, Enc(c, er, Some(xs[i]), fuel - 1).tokens, EncElems(c, er, shown, i + 1, fuel - 1));
      i := i + 1;
    }
    return None;
  }

  method EncodeMap(cdc: NoRefCodec, h: Heap, order: Order, d: Desc, slot: Option<Value>,
                   w: Writer, fuel: nat)
    returns (err: Option<EncError>)
    requires fuel > 0
    modifies w
    ensures Written(w.tokens, err) == Prepend(old(w.tokens), EncMap(Ctx(cdc.State(), h, order), d, slot, fuel))
    decreases fuel, 0
  {
    ghost var c := Ctx(cdc.State(), h, order);
    w.Write(MapOpen(d.tipe));
    if slot.None? {
      return Some(Crashed(ZeroValueCall));
    }
    var v := slot.value;
    if !v.MapV? || |d.fieldTypes| < 2 {
      return Some(IllFormed);
    }
    var entries := MapEntries(h, v.m);
    if entries.None? {
      return Some(IllFormed);
    }
    var m := entries.value;
    var keys := order(m);
    var kr, vr := d.fieldTypes[0], d.fieldTypes[1];
    ghost var start := w.tokens;
    var i := 0;
    while i < |keys|
      invariant 0 <= i <= |keys|
      invariant Prepend(start, EncEntries(c, kr, vr, m, keys, 0, fuel - 1))
             == Prepend(w.tokens, EncEntries(c, kr, vr, m, keys, i, fuel - 1))
    {
      if keys[i] in m {
        err := EncodeEntry(cdc, h, order, kr, vr, m, keys, i, w, fuel - 1);
        if err.Some? {
          return;
        }
      }
      i := i + 1;
    }
    ghost var entries0 := EncEntries(c, kr, vr, m, keys, 0, fuel - 1);
    assert entries0.err.None? && w.tokens == start + entries0.tokens;
    PrependPrepend(old(w.tokens), [MapOpen(d.tipe)], Then(entries0, Written([MapClose], None)));
    w.Write(MapClose);
    return None;
  }

  /** One turn of the map loop: the key, ":", the value, ",". */
  method EncodeEntry(cdc: NoRefCodec, h: Heap, order: Order, kr: DescRef, vr: DescRef,
                     m: map<Value, Value>, keys: seq<Value>, i: nat, w: Writer, fuel: nat)
    returns (err: Option<EncError>)
    requires i < |keys| && keys[i] in m
    modifies w
    ensures var c := Ctx(cdc.State(), h, order);
      var rest := Prepend(w.tokens, EncEntries(c, kr, vr, m, keys, i + 1, fuel));
      (err.None? ==> Prepend(old(w.tokens), EncEntries(c, kr, vr, m, keys, i, fuel)) == rest)
      && (err.Some? ==> Prepend(old(w.tokens), EncEntries(c, kr, vr, m, keys, i, fuel)) == Written(w.tokens, err))
    decreases fuel, 2
  {
    ghost var c := Ctx(cdc.State(), h, order);
    ghost var t0 := w.tokens;
    var k := keys[i];
    err := EncodeWith(cdc, h, order, kr, Some(k), w, fuel);
    if err.Some? {
      return;
    }
    ghost var t1 := w.tokens;
    w.Write(MapColon);
    err := EncodeWith(cdc, h, order, vr, Some(m[k]), w, fuel);
    ghost var ek := Enc(c, kr, Some(k), fuel);
    ghost var ev := Enc(c, vr, Some(m[k]), fuel);
    ghost var tail := EncEntries(c, kr, vr, m, keys, i + 1, fuel);
    PrependPrepend(t0, ek.tokens, Prepend([MapColon], Then(ev, Prepend([MapComma], tail))));
    PrependPrepend(t1, [MapColon], Then(ev, Prepend([MapComma], tail)));
    if err.Some? {
      return;
    }
    ghost var t2 := w.tokens;
    w.Write(MapComma);
    PrependPrepend(t1 + [MapColon], ev.tokens, Prepend([MapComma], tail));
    PrependPrepend(t2, [MapComma], tail);
  }

  method EncodeStruct(cdc: NoRefCodec, h: Heap, order: Order, d: Desc, slot: Option<Value>,
                      w: Writer, fuel: nat)
    returns (err: Option<EncError>)
    requires fuel > 0
    modifies w
    ensures Written(w.tokens, err) == Prepend(old(w.tokens), EncStruct(Ctx(cdc.State(), h, order), d, slot, fuel))
    decreases fuel, 0
  {
    ghost var c := Ctx(cdc.State(), h, order);
    if !FieldListsOk(d) {
      return Some(IllFormed);
    }
    var base: Option<seq<Value>> := None;
    if slot.Some? {
      var v := slot.value;
      if !v.StructV? || |v.fields| < |d.fieldNames| {
        return Some(IllFormed);
      }
      base := Some(v.fields);
    }
    w.Write(StructOpen(d.tipe));
    ghost var start := w.tokens;
    PrependPrepend(old(w.tokens), [StructOpen(d.tipe)], EncFields(c, d, base, 0, fuel - 1));
    var i := 0;
    while i < |d.fieldNames|
      invariant 0 <= i <= |d.fieldNames|
      invariant Prepend(start, EncFields(c, d, base, 0, fuel - 1)) == Prepend(w.tokens, EncFields(c, d, base, i, fuel - 1))
    {
      err := EncodeField(cdc, h, order, d, base, i, w, fuel - 1);
      if err.Some? {
        return;
      }
      i := i + 1;
    }
    return None;
  }

  /** One turn of the struct loop: "{name/offset=>", the field, "}". */
  method EncodeField(cdc: NoRefCodec, h: Heap, order: Order, d: Desc, base: Option<seq<Value>>,
                     i: nat, w: Writer, fuel: nat)
    returns (err: Option<EncError>)
    requires FieldListsOk(d) && i < |d.fieldNames|
    requires base.Some? ==> |d.fieldNames| <= |base.value|
    modifies w
    ensures var c := Ctx(cdc.State(), h, order);
      (err.None? ==> Prepend(old(w.tokens), EncFields(c, d, base, i, fuel))
                     == Prepend(w.tokens, EncFields(c, d, base, i + 1, fuel)))
      && (err.Some? ==> Prepend(old(w.tokens), EncFields(c, d, base, i, fuel)) == Written(w.tokens, err))
    decreases fuel, 2
  {
    ghost var c := Ctx(cdc.State(), h, order);
    ghost var t0 := w.tokens;
    w.Write(FieldOpen(d.fieldNames[i], d.fieldOffsets[i]));
    var ft := d.fieldTypes[i];
    var fe := FieldSlot(base, i);
    err := EncodeWith(cdc, h, order, ft, fe, w, fuel);
    ghost var ef := Enc(c, ft, fe, fuel);
    ghost var tail := EncFields(c, d, base, i + 1, fuel);
    PrependPrepend(t0, [FieldOpen(d.fieldNames[i], d.fieldOffsets[i])], Then(ef, Prepend([FieldClose], tail)));
    if err.Some? {
      return;
    }
    ghost var t1 := w.tokens;
    w.Write(FieldClose);
    PrependPrepend(t0 + [FieldOpen(d.fieldNames[i], d.fieldOffsets[i])], ef.tokens, Prepend([FieldClose], tail));
    PrependPrepend(t1, [FieldClose], tail);
  }

  /** NoRefCodec.Encode. It returns no bytes: the rendering goes to w. */
  method Encode(cdc: NoRefCodec, h: Heap, order: Order, tipe: Option<DescRef>, obj: Dyn,
                w: Writer, fuel: nat)
    returns (bz: seq<bv8>, err: Option<EncError>)
    modifies w
    ensures bz == []
    ensures Written(w.tokens, err) == Prepend(old(w.tokens), EncodeSpec(Ctx(cdc.State(), h, order), tipe, obj, fuel))
  {
    bz := [];
    var r := tipe;
    if r.None? {
      var rt := obj.t;
      if rt in cdc.typeInfos {
        r := Some(cdc.typeInfos[rt]);
      } else {
        r := GetPrimitiveType(Code(KindOf(rt)));
        if r.None? {
          return [], Some(NotFound(rt));
        }
      }
    }
    err := EncodeWith(cdc, h, order, r.value, Some(obj.v), w, fuel);
  }
}
