/**
 * The deep copy engine (deep_copy.go): DeepCopy, deepCopy with its fixed
 * resolution order (typed nil, a DeepCopy() hook, a MarshalAmino /
 * UnmarshalAmino pair, structural traversal), and the structural
 * traversal _deepCopy.
 *
 * The functions in this module are the specification: each takes the
 * memory before the step and gives the memory after it with the value
 * written into the destination (or the reason the run panics). The
 * methods at the end are the engine itself, working on a Memory object,
 * and each is proved to do what its function says.
 */
module DeepCopy {
  import opened Wrappers
  import opened GoTypes

  /** A method's parameter and result types, as reflection reports them. */
  datatype Sig = Sig(ins: seq<GoType>, outs: seq<GoType>)

  /** What MethodByName finds on a type's method set under the three names the
      engine looks up. */
  datatype TypeHooks = TypeHooks(deepCopy: Option<Sig>, marshalAmino: Option<Sig>,
                                 unmarshalAmino: Option<Sig>)

  /**
   * The hooks of every type, and what calling them returns. The methods are
   * user code, so their results are given functions: callDeepCopy(T, v) is
   * v.DeepCopy(), callMarshal(R, v) is v.MarshalAmino() on a receiver of
   * type R, and callUnmarshal(R, repr) is the value that UnmarshalAmino(repr)
   * leaves in the freshly allocated pointee of a receiver of type R.
   */
  datatype Hooks = Hooks(
    of: GoType -> TypeHooks,
    callDeepCopy: (GoType, Value) -> Value,
    callMarshal: (GoType, Value) -> Value,
    callUnmarshal: (GoType, Value) -> Value)

  /**
   * Why a copy panics: an unsupported kind, the type check of callAminoCopy,
   * three that only the as-written members of DeepCopyProps reach (a source
   * or a destination that is the invalid reflect.Value, and a Set on a
   * value that is not settable), and three that cannot arise in Go and
   * exist only in the model: a reference naming no object of the right
   * shape, a value that does not have the shape its type says, and running
   * out of fuel.
   */
  datatype CopyError =
    | Unsupported(kind: Kind)
    | TypeMismatch
    | ZeroSource
    | ZeroDestination
    | NotSettable
    | Dangling
    | IllTyped
    | TooDeep

  /** The memory after a step, and the value written into the destination. */
  datatype Out = Out(heap: Heap, res: Result<Value, CopyError>)

  /** The same for an element or field loop: the destination's elements. */
  datatype OutSeq = OutSeq(heap: Heap, res: Result<seq<Value>, CopyError>)

  /** The same for DeepCopy itself: an interface{} result. */
  datatype TopOut = TopOut(heap: Heap, res: Result<Option<Dyn>, CopyError>)

  // ---------------------------------------------------------------------
  // Hook resolution

  /** How callDeepCopy uses the hook: not at all, by allocating a pointee and
      setting it, or by setting the destination directly. */
  datatype DeepCopyPlan = NoCopyHook | AllocThenSet | SetDirect

  /** callDeepCopy's decision for a destination of type dt. */
  function DeepCopyHookPlan(hs: TypeHooks, dt: GoType): (p: DeepCopyPlan)
    ensures p != NoCopyHook <==>
      && hs.deepCopy.Some? && |hs.deepCopy.value.ins| == 0 && |hs.deepCopy.value.outs| == 1
      && ((dt.PtrTo? && dt.elem == hs.deepCopy.value.outs[0]) || dt == hs.deepCopy.value.outs[0])
    ensures p == AllocThenSet <==>
      && hs.deepCopy.Some? && |hs.deepCopy.value.ins| == 0 && |hs.deepCopy.value.outs| == 1
      && dt.PtrTo? && dt.elem == hs.deepCopy.value.outs[0]
  {
    match hs.deepCopy
    case None => NoCopyHook
    case Some(sig) =>
      if |sig.ins| != 0 then NoCopyHook
      else if |sig.outs| != 1 then NoCopyHook
      else if dt.PtrTo? && dt.elem == sig.outs[0] then AllocThenSet
      else if dt == sig.outs[0] then SetDirect
      else NoCopyHook
  }

  /** canAminoCopy: UnmarshalAmino takes one argument and returns nothing,
      MarshalAmino takes nothing and returns one value, of the type that
      UnmarshalAmino takes. */
  predicate CanAminoCopy(hs: TypeHooks) {
    && hs.unmarshalAmino.Some?
    && |hs.unmarshalAmino.value.ins| == 1 && |hs.unmarshalAmino.value.outs| == 0
    && hs.marshalAmino.Some?
    && |hs.marshalAmino.value.ins| == 0 && |hs.marshalAmino.value.outs| == 1
    && hs.unmarshalAmino.value.ins[0] == hs.marshalAmino.value.outs[0]
  }

  /** A call with arguments of these types type-checks against sig. */
  predicate Accepts(sig: Sig, args: seq<GoType>) {
    sig.ins == args
  }

  /** canAminoCopy holds exactly when the call callAminoCopy goes on to make,
      UnmarshalAmino(MarshalAmino()), is well-typed and has nothing left
      over: MarshalAmino is called with no argument and yields one value,
      and UnmarshalAmino accepts exactly that value and returns nothing. */
  lemma CanAminoCopyTypesTheCall(hs: TypeHooks)
    ensures CanAminoCopy(hs) <==>
      && hs.marshalAmino.Some? && Accepts(hs.marshalAmino.value, [])
      && |hs.marshalAmino.value.outs| == 1
      && hs.unmarshalAmino.Some? && Accepts(hs.unmarshalAmino.value, [hs.marshalAmino.value.outs[0]])
      && hs.unmarshalAmino.value.outs == []
  {
  }

  /** How callAminoCopy proceeds: not at all, through the source pointer
      itself, or through the source's address. */
  datatype AminoPlan = NoAmino | ViaPointer(recv: GoType) | ViaAddress(recv: GoType)

  /** The receiver whose MarshalAmino/UnmarshalAmino pair callAminoCopy uses
      for a source of type t, given whether the source is addressable. */
  function AminoReceiver(hooks: Hooks, t: GoType, addressable: bool): (p: AminoPlan)
    ensures p.ViaPointer? <==> t.PtrTo? && CanAminoCopy(hooks.of(t))
    ensures p.ViaAddress? <==> !t.PtrTo? && addressable && CanAminoCopy(hooks.of(PtrTo(t)))
    ensures p.ViaPointer? ==> p.recv == t
    ensures p.ViaAddress? ==> p.recv == PtrTo(t)
  {
    if t.PtrTo? then (if CanAminoCopy(hooks.of(t)) then ViaPointer(t) else NoAmino)
    else if addressable then (if CanAminoCopy(hooks.of(PtrTo(t))) then ViaAddress(PtrTo(t)) else NoAmino)
    else NoAmino
  }

  /** callAminoCopy's entry check: source and destination must have the same
      type, otherwise it panics. The engine always calls it with equal types. */
  function AminoCopyPlan(hooks: Hooks, st: GoType, dt: GoType, addressable: bool): (r: Result<AminoPlan, CopyError>)
    ensures r.Err? <==> st != dt
    ensures r.Err? ==> r.error == TypeMismatch
    ensures r.Ok? ==> r.value == AminoReceiver(hooks, st, addressable)
  {
    if st != dt then Err(TypeMismatch) else Ok(AminoReceiver(hooks, st, addressable))
  }

  // ---------------------------------------------------------------------
  // Specification of the traversal

  /**
   * deepCopy: copy v (of type t) into a fresh destination of type t.
   * Memory that existed before is never changed. On the Marshal/Unmarshal
   * path through the source's address the model writes the unmarshalled
   * value into the destination, which is what that path is evidently meant
   * to do; the source's own code panics there (AminoCopyAsWritten in
   * DeepCopyProps).
   */
  function Copy(h: Heap, hooks: Hooks, t: GoType, v: Value, addressable: bool, fuel: nat): (o: Out)
    ensures h <= o.heap
    decreases fuel, 2
  {
    if fuel == 0 then Out(h, Err(TooDeep))
    else if IsTypedNil(v) then Out(h, Ok(Zero(t)))
    else
      match DeepCopyHookPlan(hooks.of(t), t)
      case AllocThenSet => Out(h + [Cell(hooks.callDeepCopy(t, v))], Ok(PtrV(At(|h|))))
      case SetDirect => Out(h, Ok(hooks.callDeepCopy(t, v)))
      case NoCopyHook =>
        match AminoReceiver(hooks, t, addressable)
        case ViaPointer(recv) =>
          Out(h + [Cell(hooks.callUnmarshal(recv, hooks.callMarshal(recv, v)))], Ok(PtrV(At(|h|))))
        case ViaAddress(recv) =>
          Out(h, Ok(hooks.callUnmarshal(recv, hooks.callMarshal(recv, v))))
        case NoAmino =>
          Structural(h, hooks, t, v, addressable, fuel)
  }

  /** _deepCopy: the traversal by kind, without consulting any hook for v itself. */
  function Structural(h: Heap, hooks: Hooks, t: GoType, v: Value, addressable: bool, fuel: nat): (o: Out)
    ensures h <= o.heap
    decreases fuel, 1
  {
    if fuel == 0 then Out(h, Err(TooDeep))
    else
      match t
      case PtrTo(e) => PointerCopy(h, hooks, e, v, fuel)
      case Iface(_, _) => IfaceCopy(h, hooks, v, fuel)
      case ArrayOf(n, e) => ArrayCopy(h, hooks, n, e, v, addressable, fuel)
      case SliceOf(e) => SliceCopy(h, hooks, e, v, fuel)
      case StructOf(_, _, fs) => StructCopy(h, hooks, t, v, addressable, fuel)
      case MapOf(_, _) => MapCopy(h, v)
      case Prim(k, _, _) =>
        if !IsBulkCopyKind(k) then Out(h, Err(Unsupported(k)))
        else if !v.PrimV? then Out(h, Err(IllTyped))
        else Out(h, Ok(v))
      case ChanOf(_) => Out(h, Err(Unsupported(Chan)))
      case FuncOf => Out(h, Err(Unsupported(Func)))
  }

  /** Pointer: allocate a new pointee, copy into it with _deepCopy, point the
      destination at it. A nil pointer here has the invalid reflect.Value as
      its pointee, whose kind is unsupported. */
  function PointerCopy(h: Heap, hooks: Hooks, e: GoType, v: Value, fuel: nat): (o: Out)
    requires fuel > 0
    ensures h <= o.heap
    decreases fuel, 0
  {
    if !v.PtrV? then Out(h, Err(IllTyped))
    else if v.ptr == Nil then Out(h, Err(Unsupported(Invalid)))
    else
      match Deref(h, v.ptr)
      case None => Out(h, Err(Dangling))
      case Some(pv) =>
        var o := Structural(h + [Cell(Zero(e))], hooks, e, pv, true, fuel - 1);
        if o.res.Err? then o
        else Out(o.heap[|h| := Cell(o.res.value)], Ok(PtrV(At(|h|))))
  }

  /** Interface: copy the held value with deepCopy and store it, with its
      dynamic type, in the destination interface; nothing to do when the
      interface is empty. (The source's own code at this point is modelled
      as written by IfaceCopyAsWritten below.) */
  function IfaceCopy(h: Heap, hooks: Hooks, v: Value, fuel: nat): (o: Out)
    requires fuel > 0
    ensures h <= o.heap
    decreases fuel, 0
  {
    if !v.IfaceV? then Out(h, Err(IllTyped))
    else
      match v.held
      case None => Out(h, Ok(v))
      case Some(d) =>
        var o := Copy(h, hooks, d.t, d.v, false, fuel - 1);
        if o.res.Err? then o else Out(o.heap, Ok(IfaceV(Some(Dyn(d.t, o.res.value)))))
  }

  /** Fixed array: elements of a bulk kind are copied by value in one go;
      other elements are deepCopy'd index by index. */
  function ArrayCopy(h: Heap, hooks: Hooks, n: nat, e: GoType, v: Value, addressable: bool, fuel: nat): (o: Out)
    requires fuel > 0
    ensures h <= o.heap
    decreases fuel, 0
  {
    if !v.ArrayV? || |v.elems| != n then Out(h, Err(IllTyped))
    else if IsBulkCopyKind(KindOf(e)) then Out(h, Ok(v))
    else
      var o := CopyElems(h, hooks, e, v.elems, 0, seq(n, _ => Zero(e)), addressable, fuel - 1);
      match o.res
      case Err(err) => Out(o.heap, Err(err))
      case Ok(es) => Out(o.heap, Ok(ArrayV(es)))
  }

  /** Slice: a scratch slice is allocated and filled (in bulk, or by deepCopy
      per element), but the destination is set to the source slice itself. */
  function SliceCopy(h: Heap, hooks: Hooks, e: GoType, v: Value, fuel: nat): (o: Out)
    requires fuel > 0
    ensures h <= o.heap
    decreases fuel, 0
  {
    if !v.SliceV? then Out(h, Err(IllTyped))
    else
      match SliceElems(h, v.data, v.len)
      case None => Out(h, Err(Dangling))
      case Some(es) =>
        if IsBulkCopyKind(KindOf(e)) then Out(h + [Backing(es)], Ok(v))
        else
          var o := CopyElems(h, hooks, e, es, 0, seq(|es|, _ => Zero(e)), true, fuel - 1);
          match o.res
          case Err(err) => Out(o.heap, Err(err))
          case Ok(scratch) => Out(o.heap + [Backing(scratch)], Ok(v))
  }

  /** Struct: the time type is copied whole; otherwise every exported field
      is deepCopy'd into the destination's field and unexported fields keep
      the destination's zero value. */
  function StructCopy(h: Heap, hooks: Hooks, t: GoType, v: Value, addressable: bool, fuel: nat): (o: Out)
    requires fuel > 0 && t.StructOf?
    ensures h <= o.heap
    decreases fuel, 0
  {
    var fs := t.fields;
    if !v.StructV? || |v.fields| != |fs| then Out(h, Err(IllTyped))
    else if IsTimeType(t) then Out(h, Ok(v))
    else
      var o := CopyFields(h, hooks, fs, v.fields, 0, FieldZeros(fs), addressable, fuel - 1);
      match o.res
      case Err(err) => Out(o.heap, Err(err))
      case Ok(vs) => Out(o.heap, Ok(StructV(vs)))
  }

  /** Map: a new map holding exactly the source's entries, values assigned
      as they are (no deep copy of keys or values). */
  function MapCopy(h: Heap, v: Value): (o: Out)
    ensures h <= o.heap
  {
    if !v.MapV? then Out(h, Err(IllTyped))
    else
      match MapEntries(h, v.m)
      case None => Out(h, Err(Dangling))
      case Some(m) => Out(h + [MapObj(m)], Ok(MapV(At(|h|))))
  }

  function FieldZeros(fs: seq<Field>): (zs: seq<Value>)
    ensures |zs| == |fs|
    ensures forall i :: 0 <= i < |fs| ==> zs[i] == Zero(fs[i].ftype)
  {
    seq(|fs|, i requires 0 <= i < |fs| => Zero(fs[i].ftype))
  }

  /** The destination a struct copy fills starts as the struct's zero value,
      as reflect.New allocates it: every field zero. */
  lemma FieldZerosAreZero(t: GoType)
    requires t.StructOf?
    ensures StructV(FieldZeros(t.fields)) == Zero(t)
  {
  }

  /** The element loop from index i on: element i of src is deepCopy'd into
      position i of dst; the first failure ends the loop. */
  function CopyElems(h: Heap, hooks: Hooks, e: GoType, src: seq<Value>, i: nat, dst: seq<Value>,
                     addressable: bool, fuel: nat): (o: OutSeq)
    requires i <= |src| && |dst| == |src|
    ensures h <= o.heap
    ensures o.res.Ok? ==> |o.res.value| == |src|
    decreases fuel, 3, |src| - i
  {
    if i == |src| then OutSeq(h, Ok(dst))
    else
      var o := Copy(h, hooks, e, src[i], addressable, fuel);
      match o.res
      case Err(err) => OutSeq(o.heap, Err(err))
      case Ok(x) => CopyElems(o.heap, hooks, e, src, i + 1, dst[i := x], addressable, fuel)
  }

  /** The field loop from field i on: unexported fields are skipped, exported
      ones deepCopy'd into the destination's field. */
  function CopyFields(h: Heap, hooks: Hooks, fs: seq<Field>, src: seq<Value>, i: nat, dst: seq<Value>,
                      addressable: bool, fuel: nat): (o: OutSeq)
    requires i <= |fs| && |src| == |fs| && |dst| == |fs|
    ensures h <= o.heap
    ensures o.res.Ok? ==> |o.res.value| == |fs|
    decreases fuel, 3, |fs| - i
  {
    if i == |fs| then OutSeq(h, Ok(dst))
    else if !IsExported(fs[i]) then CopyFields(h, hooks, fs, src, i + 1, dst, addressable, fuel)
    else
      var o := Copy(h, hooks, fs[i].ftype, src[i], addressable, fuel);
      match o.res
      case Err(err) => OutSeq(o.heap, Err(err))
      case Ok(x) => CopyFields(o.heap, hooks, fs, src, i + 1, dst[i := x], addressable, fuel)
  }

  /**
   * DeepCopy: nil for nil; otherwise a fresh destination of the source's
   * dynamic type is allocated, deepCopy fills it, and its value is returned
   * with that same dynamic type.
   */
  function DeepCopyOf(h: Heap, hooks: Hooks, o: Option<Dyn>, fuel: nat): (r: TopOut)
    ensures h <= r.heap
    ensures o.None? ==> r == TopOut(h, Ok(None))
    ensures o.Some? && r.res.Ok? ==> r.res.value.Some? && r.res.value.value.t == o.value.t
  {
    match o
    case None => TopOut(h, Ok(None))
    case Some(d) =>
      var c := Copy(h + [Cell(Zero(d.t))], hooks, d.t, d.v, false, fuel);
      match c.res
      case Err(err) => TopOut(c.heap, Err(err))
      case Ok(x) => TopOut(c.heap[|h| := Cell(x)], Ok(Some(Dyn(d.t, x))))
  }

  // ---------------------------------------------------------------------
  // The engine

  /** The process memory that reflection reads and allocates into. */
  class Memory {
    var objs: Heap

    constructor (init: Heap)
      ensures objs == init
    {
      objs := init;
    }

    /** reflect.New / MakeSlice / MakeMap: a new object at a fresh address. */
    method Alloc(o: Obj) returns (a: nat)
      modifies this
      ensures objs == old(objs) + [o] && a == |old(objs)|
    {
      a := |objs|;
      objs := objs + [o];
    }

    /** Set through a pointer: overwrite the object at address a. */
    method Store(a: nat, o: Obj)
      requires a < |objs|
      modifies this
      ensures objs == old(objs)[a := o]
    {
      objs := objs[a := o];
    }
  }

  /** DeepCopy (deep_copy.go:11-19). */
  method DeepCopy(mem: Memory, hooks: Hooks, o: Option<Dyn>, fuel: nat) returns (r: Result<Option<Dyn>, CopyError>)
    modifies mem
    ensures TopOut(mem.objs, r) == DeepCopyOf(old(mem.objs), hooks, o, fuel)
  {
    if o.None? {
      return Ok(None);
    }
    var d := o.value;
    var dst := mem.Alloc(Cell(Zero(d.t)));
    var x := CopyValue(mem, hooks, d.t, d.v, false, fuel);
    if x.Err? {
      return Err(x.error);
    }
    mem.Store(dst, Cell(x.value));
    return Ok(Some(Dyn(d.t, x.value)));
  }

  /** deepCopy (deep_copy.go:21-32) with callDeepCopy and callAminoCopy. */
  method CopyValue(mem: Memory, hooks: Hooks, t: GoType, v: Value, addressable: bool, fuel: nat)
    returns (r: Result<Value, CopyError>)
    modifies mem
    ensures Out(mem.objs, r) == Copy(old(mem.objs), hooks, t, v, addressable, fuel)
    decreases fuel, 3
  {
    if fuel == 0 {
      return Err(TooDeep);
    }
    if IsTypedNil(v) {
      return Ok(Zero(t));
    }
    var plan := DeepCopyHookPlan(hooks.of(t), t);
    if plan == AllocThenSet {
      var a := mem.Alloc(Cell(hooks.callDeepCopy(t, v)));
      return Ok(PtrV(At(a)));
    } else if plan == SetDirect {
      return Ok(hooks.callDeepCopy(t, v));
    }
    r := CopyAmino(mem, hooks, t, v, addressable, fuel);
  }

  /** The rest of deepCopy once no DeepCopy() hook applies: the
      Marshal/Unmarshal pair, else the traversal by kind. */
  method CopyAmino(mem: Memory, hooks: Hooks, t: GoType, v: Value, addressable: bool, fuel: nat)
    returns (r: Result<Value, CopyError>)
    requires fuel > 0 && !IsTypedNil(v) && DeepCopyHookPlan(hooks.of(t), t) == NoCopyHook
    modifies mem
    ensures Out(mem.objs, r) == Copy(old(mem.objs), hooks, t, v, addressable, fuel)
    decreases fuel, 2
  {
    // Source and destination have the same type here, so callAminoCopy's
    // type check passes.
    var amino := AminoReceiver(hooks, t, addressable);
    if amino.ViaPointer? {
      var a := mem.Alloc(Cell(hooks.callUnmarshal(amino.recv, hooks.callMarshal(amino.recv, v))));
      return Ok(PtrV(At(a)));
    } else if amino.ViaAddress? {
      // The destination's own storage receives the unmarshalled value.
      return Ok(hooks.callUnmarshal(amino.recv, hooks.callMarshal(amino.recv, v)));
    }
    r := CopyStructural(mem, hooks, t, v, addressable, fuel);
  }

  /** _deepCopy (deep_copy.go:34-137): dispatch on the kind. */
  method CopyStructural(mem: Memory, hooks: Hooks, t: GoType, v: Value, addressable: bool, fuel: nat)
    returns (r: Result<Value, CopyError>)
    modifies mem
    ensures Out(mem.objs, r) == Structural(old(mem.objs), hooks, t, v, addressable, fuel)
    decreases fuel, 1
  {
    if fuel == 0 {
      return Err(TooDeep);
    }
    match t
    case PtrTo(e) => r := CopyPointer(mem, hooks, e, v, fuel);
    case Iface(_, _) => r := CopyIface(mem, hooks, v, fuel);
    case ArrayOf(n, e) => r := CopyArray(mem, hooks, n, e, v, addressable, fuel);
    case SliceOf(e) => r := CopySlice(mem, hooks, e, v, fuel);
    case StructOf(_, _, _) => r := CopyStruct(mem, hooks, t, v, addressable, fuel);
    case MapOf(_, _) => r := CopyMap(mem, v);
    case Prim(k, _, _) =>
      if !IsBulkCopyKind(k) {
        r := Err(Unsupported(k));
      } else if !v.PrimV? {
        r := Err(IllTyped);
      } else {
        r := Ok(v);
      }
    case ChanOf(_) => r := Err(Unsupported(Chan));
    case FuncOf => r := Err(Unsupported(Func));
  }

  method CopyPointer(mem: Memory, hooks: Hooks, e: GoType, v: Value, fuel: nat) returns (r: Result<Value, CopyError>)
    requires fuel > 0
    modifies mem
    ensures Out(mem.objs, r) == PointerCopy(old(mem.objs), hooks, e, v, fuel)
    decreases fuel, 0
  {
    if !v.PtrV? {
      return Err(IllTyped);
    }
    if v.ptr == Nil {
      return Err(Unsupported(Invalid));
    }
    var pv := Deref(mem.objs, v.ptr);
    if pv.None? {
      return Err(Dangling);
    }
    var cpy := mem.Alloc(Cell(Zero(e)));
    r := CopyStructural(mem, hooks, e, pv.value, true, fuel - 1);
    if r.Ok? {
      mem.Store(cpy, Cell(r.value));
      r := Ok(PtrV(At(cpy)));
    }
  }

  method CopyIface(mem: Memory, hooks: Hooks, v: Value, fuel: nat) returns (r: Result<Value, CopyError>)
    requires fuel > 0
    modifies mem
    ensures Out(mem.objs, r) == IfaceCopy(old(mem.objs), hooks, v, fuel)
    decreases fuel, 0
  {
    if !v.IfaceV? {
      return Err(IllTyped);
    }
    if v.held.None? {
      return Ok(v);
    }
    var d := v.held.value;
    r := CopyValue(mem, hooks, d.t, d.v, false, fuel - 1);
    if r.Ok? {
      r := Ok(IfaceV(Some(Dyn(d.t, r.value))));
    }
  }

  method CopyArray(mem: Memory, hooks: Hooks, n: nat, e: GoType, v: Value, addressable: bool, fuel: nat)
    returns (r: Result<Value, CopyError>)
    requires fuel > 0
    modifies mem
    ensures Out(mem.objs, r) == ArrayCopy(old(mem.objs), hooks, n, e, v, addressable, fuel)
    decreases fuel, 0
  {
    if !v.ArrayV? || |v.elems| != n {
      return Err(IllTyped);
    }
    if IsBulkCopyKind(KindOf(e)) {
      return Ok(v);
    }
    var es := CopyElemsLoop(mem, hooks, e, v.elems, addressable, fuel - 1);
    if es.Err? {
      return Err(es.error);
    }
    return Ok(ArrayV(es.value));
  }

  method CopySlice(mem: Memory, hooks: Hooks, e: GoType, v: Value, fuel: nat) returns (r: Result<Value, CopyError>)
    requires fuel > 0
    modifies mem
    ensures Out(mem.objs, r) == SliceCopy(old(mem.objs), hooks, e, v, fuel)
    decreases fuel, 0
  {
    if !v.SliceV? {
      return Err(IllTyped);
    }
    var es := SliceElems(mem.objs, v.data, v.len);
    if es.None? {
      return Err(Dangling);
    }
    if IsBulkCopyKind(KindOf(e)) {
      var scratch := mem.Alloc(Backing(es.value));
      return Ok(v);
    }
    var copied := CopyElemsLoop(mem, hooks, e, es.value, true, fuel - 1);
    if copied.Err? {
      return Err(copied.error);
    }
    // Go allocates the scratch slice before the loop (deep_copy.go:80);
    // nothing reads it until the loop is done, so it is allocated here.
    var scratch := mem.Alloc(Backing(copied.value));
    return Ok(v);
  }

  method CopyStruct(mem: Memory, hooks: Hooks, t: GoType, v: Value, addressable: bool, fuel: nat)
    returns (r: Result<Value, CopyError>)
    requires fuel > 0 && t.StructOf?
    modifies mem
    ensures Out(mem.objs, r) == StructCopy(old(mem.objs), hooks, t, v, addressable, fuel)
    decreases fuel, 0
  {
    var fs := t.fields;
    if !v.StructV? || |v.fields| != |fs| {
      return Err(IllTyped);
    }
    if IsTimeType(t) {
      return Ok(v);
    }
    var dst := FieldZeros(fs);
    var i := 0;
    while i < |fs|
      invariant 0 <= i <= |fs| && |dst| == |fs|
      invariant CopyFields(old(mem.objs), hooks, fs, v.fields, 0, FieldZeros(fs), addressable, fuel - 1)
             == CopyFields(mem.objs, hooks, fs, v.fields, i, dst, addressable, fuel - 1)
    {
      if IsExported(fs[i]) {
        var x := CopyValue(mem, hooks, fs[i].ftype, v.fields[i], addressable, fuel - 1);
        if x.Err? {
          return Err(x.error);
        }
        dst := dst[i := x.value];
      }
      i := i + 1;
    }
    return Ok(StructV(dst));
  }

  method CopyMap(mem: Memory, v: Value) returns (r: Result<Value, CopyError>)
    modifies mem
    ensures Out(mem.objs, r) == MapCopy(old(mem.objs), v)
  {
    if !v.MapV? {
      return Err(IllTyped);
    }
    var src := MapEntries(mem.objs, v.m);
    if src.None? {
      return Err(Dangling);
    }
    var cpy: map<Value, Value> := map[];
    var keys := src.value.Keys;
    while keys != {}
      invariant keys <= src.value.Keys
      invariant cpy.Keys == src.value.Keys - keys
      invariant forall k :: k in cpy ==> cpy[k] == src.value[k]
      decreases keys
    {
      var key :| key in keys;
      cpy := cpy[key := src.value[key]];
      keys := keys - {key};
    }
    assert cpy == src.value;
    var a := mem.Alloc(MapObj(cpy));
    return Ok(MapV(At(a)));
  }

  /** The element loop of the array and slice cases. */
  method CopyElemsLoop(mem: Memory, hooks: Hooks, e: GoType, src: seq<Value>, addressable: bool, fuel: nat)
    returns (r: Result<seq<Value>, CopyError>)
    modifies mem
    ensures OutSeq(mem.objs, r) == CopyElems(old(mem.objs), hooks, e, src, 0, seq(|src|, _ => Zero(e)), addressable, fuel)
    decreases fuel, 4
  {
    var dst := seq(|src|, _ => Zero(e));
    var i := 0;
    while i < |src|
      invariant 0 <= i <= |src| && |dst| == |src|
      invariant CopyElems(old(mem.objs), hooks, e, src, 0, seq(|src|, _ => Zero(e)), addressable, fuel)
             == CopyElems(mem.objs, hooks, e, src, i, dst, addressable, fuel)
    {
      var x := CopyValue(mem, hooks, e, src[i], addressable, fuel);
      if x.Err? {
        return Err(x.error);
      }
      dst := dst[i := x.value];
      i := i + 1;
    }
    return Ok(dst);
  }
}
