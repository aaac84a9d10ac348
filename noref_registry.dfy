/**
 * The descriptor registry of the reflection-free codec (no-reflect.go):
 * NoRefCodec with its typeInfos and name2types maps, the recursive
 * compiler register, and Register.
 *
 * Registration is specified by functions from the codec's state before a
 * call to its state after it and the outcome; the NoRefCodec class at the
 * end holds the maps as fields and is proved to do what they say.
 */
module NoRefRegistry {
  import opened Wrappers
  import opened GoTypes
  import opened NoRefTypes

  /** The one error register returns (the "not found" after its switch
      cannot be reached: every case returns or panics). */
  datatype RegError = AlreadyExists

  /** Why register panics: a name already taken, or a kind it cannot
      describe (channels, functions, the invalid kind). */
  datatype PanicReason = NameTaken(name: string) | InvalidType(kind: Kind)

  /** What a call returns: a descriptor, or a descriptor-or-nil with an
      error, or a panic. */
  datatype Outcome<T> =
    | Done(value: T)
    | Failed(desc: Option<DescRef>, err: RegError)
    | Panicked(reason: PanicReason)

  /** The codec's state: the descriptors allocated so far (a descriptor's
      identity is its index) and the two maps. */
  datatype Registry = Registry(store: seq<Desc>, typeInfos: map<GoType, DescRef>,
                               name2types: map<string, DescRef>)

  datatype RegOut = RegOut(st: Registry, res: Outcome<DescRef>)
  datatype FieldsOut = FieldsOut(st: Registry, res: Outcome<seq<DescRef>>)

  predicate ValidRef(store: seq<Desc>, r: DescRef) {
    match r
    case Shared(c) => c < |PrimitiveTable| && PrimitiveTable[c].Some?
    case Own(i) => i < |store|
  }

  /** The descriptor a reference points to. */
  function Resolve(store: seq<Desc>, r: DescRef): Desc
    requires ValidRef(store, r)
  {
    match r
    case Shared(c) => PrimitiveTable[c].value
    case Own(i) => store[i]
  }

  /** typeInfos holds only struct and interface types, each mapped to an
      allocated descriptor of that very type. */
  predicate TypesOk(st: Registry) {
    forall t :: t in st.typeInfos ==>
      && (t.StructOf? || t.Iface?) && st.typeInfos[t].Own? && ValidRef(st.store, st.typeInfos[t])
      && Resolve(st.store, st.typeInfos[t]).tipe == t
  }

  /** name2types maps each name to an allocated descriptor carrying that
      name, and that descriptor is the one typeInfos holds for its type. */
  predicate NamesOk(st: Registry) {
    forall n :: n in st.name2types ==>
      && st.name2types[n].Own? && ValidRef(st.store, st.name2types[n])
      && Resolve(st.store, st.name2types[n]).aminoTag == n
      && Resolve(st.store, st.name2types[n]).tipe in st.typeInfos
      && st.typeInfos[Resolve(st.store, st.name2types[n]).tipe] == st.name2types[n]
  }

  /** The codec's invariant. */
  predicate Valid(st: Registry) {
    TypesOk(st) && NamesOk(st)
  }

  /** st' extends st: descriptors are only appended and entries of either
      map only added, never changed. */
  ghost predicate Grows(st: Registry, st': Registry) {
    && st.store <= st'.store
    && (forall t :: t in st.typeInfos ==> t in st'.typeInfos && st'.typeInfos[t] == st.typeInfos[t])
    && (forall n :: n in st.name2types ==> n in st'.name2types && st'.name2types[n] == st.name2types[n])
  }

  /** Every type that typeInfos gained is smaller than bound. */
  ghost predicate NewKeysBelow(st: Registry, st': Registry, bound: nat) {
    forall t :: t in st'.typeInfos && t !in st.typeInfos ==> Size(t) < bound
  }

  /** What every registration of rt keeps: the invariant, growth, the types
      it adds are no larger than rt, and a descriptor it returns exists and
      describes rt. */
  ghost predicate RegPost(st: Registry, rt: GoType, o: RegOut) {
    && Valid(o.st) && Grows(st, o.st) && NewKeysBelow(st, o.st, Size(rt) + 1)
    && (o.res.Done? ==> ValidRef(o.st.store, o.res.value) && Resolve(o.st.store, o.res.value).tipe == Canon(rt))
    && (o.res.Failed? && o.res.desc.Some? ==> ValidRef(o.st.store, o.res.desc.value))
  }

  lemma ResolveStable(store: seq<Desc>, store': seq<Desc>, r: DescRef)
    requires store <= store' && ValidRef(store, r)
    ensures ValidRef(store', r) && Resolve(store', r) == Resolve(store, r)
  {
    if r.Own? {
      assert store'[r.id] == store'[..|store|][r.id];
    }
  }

  lemma RefsStable(store: seq<Desc>, store': seq<Desc>, refs: seq<DescRef>)
    requires store <= store' && forall j :: 0 <= j < |refs| ==> ValidRef(store, refs[j])
    ensures forall j :: 0 <= j < |refs| ==>
      ValidRef(store', refs[j]) && Resolve(store', refs[j]) == Resolve(store, refs[j])
  {
    forall j | 0 <= j < |refs|
      ensures ValidRef(store', refs[j]) && Resolve(store', refs[j]) == Resolve(store, refs[j])
    {
      ResolveStable(store, store', refs[j]);
    }
  }

  /** Allocate a descriptor: it gets the next index. */
  function Alloc(st: Registry, d: Desc): (r: (Registry, DescRef))
    ensures r.0 == st.(store := st.store + [d]) && r.1 == Own(|st.store|)
  {
    (st.(store := st.store + [d]), Own(|st.store|))
  }

  /** Allocating a descriptor keeps the invariant and leaves
      every existing reference resolving as before. */
  lemma AllocValid(st: Registry, d: Desc)
    requires Valid(st)
    ensures Valid(Alloc(st, d).0) && Grows(st, Alloc(st, d).0)
    ensures forall r :: ValidRef(st.store, r) ==> ValidRef(st.store + [d], r) && Resolve(st.store + [d], r) == Resolve(st.store, r)
  {
    var s' := st.store + [d];
    forall r | ValidRef(st.store, r)
      ensures ValidRef(s', r) && Resolve(s', r) == Resolve(st.store, r)
    {
      ResolveStable(st.store, s', r);
    }
    var st1 := Alloc(st, d).0;
    assert TypesOk(st1);
    assert NamesOk(st1);
  }

  /** Returning a freshly allocated descriptor of Canon(rt) keeps
      everything a registration of rt promises. */
  lemma FreshPost(st: Registry, mid: Registry, rt: GoType, d: Desc)
    requires Valid(mid) && Grows(st, mid) && NewKeysBelow(st, mid, Size(rt) + 1)
    requires d.tipe == Canon(rt)
    ensures RegPost(st, rt, RegOut(Alloc(mid, d).0, Done(Alloc(mid, d).1)))
  {
    var (st1, r) := Alloc(mid, d);
    AllocValid(mid, d);
    GrowsTrans(st, mid, st1, Size(rt) + 1, 0, Size(rt) + 1);
    assert Resolve(st1.store, r) == d;
  }

  /** Caching a fresh struct or interface descriptor under its type keeps
      the invariant: an old name's type was cached before, so it is not
      the new one. */
  lemma CacheValid(st: Registry, rt: GoType, d: Desc)
    requires Valid(st) && rt !in st.typeInfos && (rt.StructOf? || rt.Iface?) && d.tipe == rt
    ensures var st2 := Registry(st.store + [d], st.typeInfos[rt := Own(|st.store|)], st.name2types);
      Valid(st2) && Grows(st, st2)
  {
    var r := Own(|st.store|);
    var s' := st.store + [d];
    var st2 := Registry(s', st.typeInfos[rt := r], st.name2types);
    forall t | t in st2.typeInfos
      ensures (t.StructOf? || t.Iface?) && st2.typeInfos[t].Own? && ValidRef(s', st2.typeInfos[t])
      ensures Resolve(s', st2.typeInfos[t]).tipe == t
    {
      if t != rt {
        ResolveStable(st.store, s', st.typeInfos[t]);
      }
    }
    assert TypesOk(st2);
    forall n | n in st.name2types
      ensures ValidRef(s', st.name2types[n]) && Resolve(s', st.name2types[n]) == Resolve(st.store, st.name2types[n])
      ensures Resolve(st.store, st.name2types[n]).tipe != rt
    {
      ResolveStable(st.store, s', st.name2types[n]);
    }
    assert NamesOk(st2);
  }

  /** Claiming a free name for a cached descriptor that carries it keeps
      the invariant. */
  lemma NameValid(st: Registry, name: string, r: DescRef)
    requires Valid(st) && name !in st.name2types && r.Own? && ValidRef(st.store, r)
    requires Resolve(st.store, r).aminoTag == name
    requires Resolve(st.store, r).tipe in st.typeInfos && st.typeInfos[Resolve(st.store, r).tipe] == r
    ensures Valid(st.(name2types := st.name2types[name := r]))
    ensures Grows(st, st.(name2types := st.name2types[name := r]))
  {
  }

  /** Caching a fresh struct or interface descriptor under its type, and
      then under its name when that is free, keeps the invariant. */
  lemma PublishValid(st: Registry, rt: GoType, name: string, d: Desc)
    requires Valid(st) && rt !in st.typeInfos && (rt.StructOf? || rt.Iface?)
    requires d.tipe == rt && d.aminoTag == name
    ensures var r := Own(|st.store|);
      var st2 := Registry(st.store + [d], st.typeInfos[rt := r], st.name2types);
      && Valid(st2) && Grows(st, st2)
      && (|name| > 0 && name !in st.name2types ==> Valid(st2.(name2types := st.name2types[name := r])))
  {
    var r := Own(|st.store|);
    var st2 := Registry(st.store + [d], st.typeInfos[rt := r], st.name2types);
    CacheValid(st, rt, d);
    if |name| > 0 && name !in st.name2types {
      assert Resolve(st2.store, r) == d;
      NameValid(st2, name, r);
    }
  }

  /** Growth and the size bound compose along a chain of registrations. */
  lemma GrowsTrans(a: Registry, b: Registry, c: Registry, n: nat, m: nat, bound: nat)
    requires Grows(a, b) && Grows(b, c) && NewKeysBelow(a, b, n) && NewKeysBelow(b, c, m)
    requires n <= bound && m <= bound
    ensures Grows(a, c) && NewKeysBelow(a, c, bound)
  {
  }

  // ---------------------------------------------------------------------
  // register

  /** register(rt, name): a cached type is an error, a primitive kind the
      shared descriptor; the other kinds are compiled case by case. */
  function Registration(st: Registry, rt: GoType, name: string): (o: RegOut)
    requires Valid(st)
    ensures RegPost(st, rt, o)
    decreases Size(rt), 2
  {
    if rt in st.typeInfos then RegOut(st, Failed(Some(st.typeInfos[rt]), AlreadyExists))
    else
      match GetPrimitiveType(Code(KindOf(rt)))
      case Some(p) => RegOut(st, Done(p))
      case None =>
        match rt
        case PtrTo(_) => ElemCase(st, rt)
        case ArrayOf(_, _) => ElemCase(st, rt)
        case SliceOf(_) => ElemCase(st, rt)
        case Iface(_, _) => InterfaceCase(st, rt, name)
        case MapOf(_, _) => MapCase(st, rt)
        case StructOf(_, _, _) => StructCase(st, rt, name)
        case Prim(k, _, _) => RegOut(st, Panicked(InvalidType(k)))
        case ChanOf(_) => RegOut(st, Panicked(InvalidType(Chan)))
        case FuncOf => RegOut(st, Panicked(InvalidType(Func)))
  }

  /** The element descriptor a pointer, array or slice descriptor is built
      from. */
  function ElemDesc(rt: GoType, er: DescRef, e: Desc): (d: Desc)
    requires rt.PtrTo? || rt.ArrayOf? || rt.SliceOf?
    ensures WellShaped(d) && d.elemType == Some(er)
    ensures (d.tipe.PtrTo? || d.tipe.ArrayOf? || d.tipe.SliceOf?) && d.tipe.elem == e.tipe
    ensures e.tipe == Canon(rt.elem) ==> d.tipe == Canon(rt)
  {
    match rt
    case PtrTo(_) => GenPtrType(er, e)
    case ArrayOf(n, _) => GenArrayType(n, er, e)
    case SliceOf(_) => GenSliceType(er, e)
  }

  /** Ptr, Array and Slice: register the element with no name; its error,
      with whatever descriptor came with it, is returned as it is; otherwise
      a fresh descriptor is built around it (and not cached). */
  function ElemCase(st: Registry, rt: GoType): (o: RegOut)
    requires Valid(st) && (rt.PtrTo? || rt.ArrayOf? || rt.SliceOf?)
    ensures RegPost(st, rt, o)
    decreases Size(rt), 1
  {
    var oe := Registration(st, rt.elem, "");
    if !oe.res.Done? then oe
    else
      var e := Resolve(oe.st.store, oe.res.value);
      var d := ElemDesc(rt, oe.res.value, e);
      FreshPost(st, oe.st, rt, d);
      var (st1, r) := Alloc(oe.st, d);
      RegOut(st1, Done(r))
  }

  /** Map: register the key, then the value, both with no name; an error
      returns nil; otherwise a fresh map descriptor (not cached). */
  function MapCase(st: Registry, rt: GoType): (o: RegOut)
    requires Valid(st) && rt.MapOf?
    ensures RegPost(st, rt, o)
    decreases Size(rt), 1
  {
    var ok := Registration(st, rt.key, "");
    match ok.res
    case Failed(_, err) => RegOut(ok.st, Failed(None, err))
    case Panicked(p) => RegOut(ok.st, Panicked(p))
    case Done(kt) =>
      var oe := Registration(ok.st, rt.elem, "");
      match oe.res
      case Failed(_, err) => RegOut(oe.st, Failed(None, err))
      case Panicked(p) => RegOut(oe.st, Panicked(p))
      case Done(et) =>
        MapDone(st, rt, ok, oe);
        var d := GenMapType(kt, Resolve(oe.st.store, kt), et, Resolve(oe.st.store, et));
        var (st1, r) := Alloc(oe.st, d);
        RegOut(st1, Done(r))
  }

  /** Once key and value are registered, the fresh map descriptor keeps what
      a registration promises. */
  lemma MapDone(st: Registry, rt: GoType, ok: RegOut, oe: RegOut)
    requires Valid(st) && rt.MapOf?
    requires Size(rt.key) < Size(rt) && Size(rt.elem) < Size(rt)
    requires RegPost(st, rt.key, ok) && ok.res.Done?
    requires RegPost(ok.st, rt.elem, oe) && oe.res.Done?
    ensures ValidRef(oe.st.store, ok.res.value) && ValidRef(oe.st.store, oe.res.value)
    ensures var d := GenMapType(ok.res.value, Resolve(oe.st.store, ok.res.value),
                                oe.res.value, Resolve(oe.st.store, oe.res.value));
      RegPost(st, rt, RegOut(Alloc(oe.st, d).0, Done(Alloc(oe.st, d).1)))
  {
    var kt, et := ok.res.value, oe.res.value;
    ResolveStable(ok.st.store, oe.st.store, kt);
    var d := GenMapType(kt, Resolve(oe.st.store, kt), et, Resolve(oe.st.store, et));
    GrowsTrans(st, ok.st, oe.st, Size(rt.key) + 1, Size(rt.elem) + 1, Size(rt) + 1);
    FreshPost(st, oe.st, rt, d);
  }

  /** Publish a fresh struct or interface descriptor: cache it under its
      type, then claim its name (a taken name panics, after the type is
      cached). */
  function Publish(st: Registry, rt: GoType, name: string, d: Desc): (o: RegOut)
    requires Valid(st) && rt !in st.typeInfos && (rt.StructOf? || rt.Iface?)
    requires d.tipe == rt && d.aminoTag == name
    ensures Valid(o.st) && Grows(st, o.st) && NewKeysBelow(st, o.st, Size(rt) + 1)
    ensures o.st.store == st.store + [d] && o.st.typeInfos == st.typeInfos[rt := Own(|st.store|)]
    ensures o.res == (if |name| > 0 && name in st.name2types then Panicked(NameTaken(name)) else Done(Own(|st.store|)))
    ensures o.st.name2types == (if |name| > 0 && name !in st.name2types then st.name2types[name := Own(|st.store|)]
                                else st.name2types)
  {
    PublishValid(st, rt, name, d);
    var (st1, r) := Alloc(st, d);
    var st2 := st1.(typeInfos := st1.typeInfos[rt := r]);
    if |name| > 0 then
      if name in st2.name2types then RegOut(st2, Panicked(NameTaken(name)))
      else RegOut(st2.(name2types := st2.name2types[name := r]), Done(r))
    else RegOut(st2, Done(r))
  }

  /** Interface: a fresh descriptor under the given name, cached. */
  function InterfaceCase(st: Registry, rt: GoType, name: string): (o: RegOut)
    requires Valid(st) && rt.Iface? && rt !in st.typeInfos
    ensures RegPost(st, rt, o)
    decreases Size(rt), 1
  {
    Publish(st, rt, name, InterfaceDesc(rt, name))
  }

  /** Struct: register every field under its amino tag, in order; the first
      error returns nil; then the descriptor is cached and named. */
  function StructCase(st: Registry, rt: GoType, name: string): (o: RegOut)
    requires Valid(st) && rt.StructOf? && rt !in st.typeInfos
    ensures RegPost(st, rt, o)
    decreases Size(rt), 1
  {
    var of := RegisterFields(st, rt, 0, []);
    match of.res
    case Failed(_, err) => RegOut(of.st, Failed(None, err))
    case Panicked(p) => RegOut(of.st, Panicked(p))
    case Done(refs) =>
      StructDone(st, rt, name, of);
      Publish(of.st, rt, name, StructDesc(rt, name, refs))
  }

  /** Once every field is registered, publishing the struct descriptor
      keeps what a registration promises. */
  lemma StructDone(st: Registry, rt: GoType, name: string, of: FieldsOut)
    requires Valid(st) && rt.StructOf? && rt !in st.typeInfos
    requires of == RegisterFields(st, rt, 0, []) && of.res.Done?
    ensures Valid(of.st) && rt !in of.st.typeInfos && |of.res.value| == |rt.fields|
    ensures RegPost(st, rt, Publish(of.st, rt, name, StructDesc(rt, name, of.res.value)))
    decreases Size(rt), 0, |rt.fields| + 1
  {
    var d := StructDesc(rt, name, of.res.value);
    var o := Publish(of.st, rt, name, d);
    GrowsTrans(st, of.st, o.st, Size(rt), Size(rt) + 1, Size(rt) + 1);
  }

  /** The field loop from field i on; refs holds the descriptors of the
      fields before i. */
  function RegisterFields(st: Registry, rt: GoType, i: nat, refs: seq<DescRef>): (o: FieldsOut)
    requires Valid(st) && rt.StructOf? && i <= |rt.fields| && |refs| == i
    requires forall j :: 0 <= j < i ==>
      ValidRef(st.store, refs[j]) && Resolve(st.store, refs[j]).tipe == Canon(rt.fields[j].ftype)
    ensures Valid(o.st) && Grows(st, o.st) && NewKeysBelow(st, o.st, Size(rt))
    ensures o.res.Done? ==>
      && |o.res.value| == |rt.fields|
      && forall j :: 0 <= j < |rt.fields| ==>
           ValidRef(o.st.store, o.res.value[j]) && Resolve(o.st.store, o.res.value[j]).tipe == Canon(rt.fields[j].ftype)
    decreases Size(rt), 0, |rt.fields| - i
  {
    if i == |rt.fields| then FieldsOut(st, Done(refs))
    else
      FieldSmaller(rt, i);
      var f := rt.fields[i];
      var of := Registration(st, f.ftype, f.aminoTag);
      match of.res
      case Failed(d, err) => FieldsOut(of.st, Failed(d, err))
      case Panicked(p) => FieldsOut(of.st, Panicked(p))
      case Done(ft) =>
        RefsExtend(st.store, of.st.store, rt, refs, ft);
        var o := RegisterFields(of.st, rt, i + 1, refs + [ft]);
        GrowsTrans(st, of.st, o.st, Size(f.ftype) + 1, Size(rt), Size(rt));
        o
  }

  /** The descriptors of fields 0..i, once field i's is appended, still
      describe their fields in the grown store. */
  lemma RefsExtend(store: seq<Desc>, store': seq<Desc>, rt: GoType, refs: seq<DescRef>, ft: DescRef)
    requires rt.StructOf? && |refs| < |rt.fields| && store <= store'
    requires forall j :: 0 <= j < |refs| ==>
      ValidRef(store, refs[j]) && Resolve(store, refs[j]).tipe == Canon(rt.fields[j].ftype)
    requires ValidRef(store', ft) && Resolve(store', ft).tipe == Canon(rt.fields[|refs|].ftype)
    ensures forall j :: 0 <= j < |refs| + 1 ==>
      ValidRef(store', (refs + [ft])[j]) && Resolve(store', (refs + [ft])[j]).tipe == Canon(rt.fields[j].ftype)
  {
    RefsStable(store, store', refs);
    forall j | 0 <= j < |refs| + 1
      ensures ValidRef(store', (refs + [ft])[j]) && Resolve(store', (refs + [ft])[j]).tipe == Canon(rt.fields[j].ftype)
    {
      if j < |refs| {
        assert (refs + [ft])[j] == refs[j];
      }
    }
  }

  /** One turn of the field loop, by the outcome of registering field i. */
  lemma FieldStep(st: Registry, rt: GoType, i: nat, refs: seq<DescRef>)
    requires Valid(st) && rt.StructOf? && i < |rt.fields| && |refs| == i
    requires forall j :: 0 <= j < i ==>
      ValidRef(st.store, refs[j]) && Resolve(st.store, refs[j]).tipe == Canon(rt.fields[j].ftype)
    ensures var o := Registration(st, rt.fields[i].ftype, rt.fields[i].aminoTag);
      && Valid(o.st) && Grows(st, o.st) && NewKeysBelow(st, o.st, Size(rt))
      && (o.res.Failed? ==> RegisterFields(st, rt, i, refs) == FieldsOut(o.st, Failed(o.res.desc, o.res.err)))
      && (o.res.Panicked? ==> RegisterFields(st, rt, i, refs) == FieldsOut(o.st, Panicked(o.res.reason)))
      && (o.res.Done? ==>
            && (forall j :: 0 <= j < i + 1 ==>
                  ValidRef(o.st.store, (refs + [o.res.value])[j])
                  && Resolve(o.st.store, (refs + [o.res.value])[j]).tipe == Canon(rt.fields[j].ftype))
            && RegisterFields(st, rt, i, refs) == RegisterFields(o.st, rt, i + 1, refs + [o.res.value]))
  {
    FieldSmaller(rt, i);
    var o := Registration(st, rt.fields[i].ftype, rt.fields[i].aminoTag);
    RefsStable(st.store, o.st.store, refs);
  }

  /** Register strips every pointer layer first. */
  function StripPointers(t: GoType): (r: GoType)
    ensures !r.PtrTo? && Size(r) <= Size(t)
  {
    if t.PtrTo? then StripPointers(t.elem) else t
  }

  // ---------------------------------------------------------------------
  // The codec

  class NoRefCodec {
    var store: seq<Desc>
    var typeInfos: map<GoType, DescRef>
    var name2types: map<string, DescRef>

    function State(): Registry
      reads this
    {
      Registry(store, typeInfos, name2types)
    }

    /** NewNoRefCodec: both maps empty. */
    constructor ()
      ensures State() == Registry([], map[], map[]) && Valid(State())
    {
      store := [];
      typeInfos := map[];
      name2types := map[];
    }

    method Alloc(d: Desc) returns (r: DescRef)
      modifies this
      ensures store == old(store) + [d] && r == Own(|old(store)|)
      ensures typeInfos == old(typeInfos) && name2types == old(name2types)
    {
      r := Own(|store|);
      store := store + [d];
    }

    /** register (no-reflect.go:166-274). */
    method RegisterType(rt: GoType, name: string) returns (res: Outcome<DescRef>)
      requires Valid(State())
      modifies this
      ensures RegOut(State(), res) == Registration(old(State()), rt, name)
      decreases Size(rt), 3
    {
      if rt in typeInfos {
        return Failed(Some(typeInfos[rt]), AlreadyExists);
      }
      var tipe := GetPrimitiveType(Code(KindOf(rt)));
      if tipe.Some? {
        return Done(tipe.value);
      }
      match rt
      case PtrTo(_) => res := RegisterElem(rt);
      case ArrayOf(_, _) => res := RegisterElem(rt);
      case SliceOf(_) => res := RegisterElem(rt);
      case Iface(_, _) =>
        var d := InterfaceDesc(rt, name);
        res := PublishDesc(rt, name, d);
      case MapOf(_, _) => res := RegisterMap(rt);
      case StructOf(_, _, _) => res := RegisterStruct(rt, name);
      case Prim(k, _, _) => res := Panicked(InvalidType(k));
      case ChanOf(_) => res := Panicked(InvalidType(Chan));
      case FuncOf => res := Panicked(InvalidType(Func));
    }

    method RegisterElem(rt: GoType) returns (res: Outcome<DescRef>)
      requires Valid(State()) && (rt.PtrTo? || rt.ArrayOf? || rt.SliceOf?)
      modifies this
      ensures RegOut(State(), res) == ElemCase(old(State()), rt)
      decreases Size(rt), 2
    {
      var et := RegisterType(rt.elem, "");
      if !et.Done? {
        return et;
      }
      var d := ElemDesc(rt, et.value, Resolve(store, et.value));
      var r := Alloc(d);
      return Done(r);
    }

    method RegisterMap(rt: GoType) returns (res: Outcome<DescRef>)
      requires Valid(State()) && rt.MapOf?
      modifies this
      ensures RegOut(State(), res) == MapCase(old(State()), rt)
      decreases Size(rt), 2
    {
      var kt := RegisterType(rt.key, "");
      if kt.Failed? {
        return Failed(None, kt.err);
      } else if kt.Panicked? {
        return kt;
      }
      ghost var mid := store;
      var et := RegisterType(rt.elem, "");
      if et.Failed? {
        return Failed(None, et.err);
      } else if et.Panicked? {
        return et;
      }
      ResolveStable(mid, store, kt.value);
      var d := GenMapType(kt.value, Resolve(store, kt.value), et.value, Resolve(store, et.value));
      var r := Alloc(d);
      return Done(r);
    }

    /** Cache a fresh descriptor under its type, then claim its name. */
    method PublishDesc(rt: GoType, name: string, d: Desc) returns (res: Outcome<DescRef>)
      requires Valid(State()) && rt !in typeInfos && (rt.StructOf? || rt.Iface?)
      requires d.tipe == rt && d.aminoTag == name
      modifies this
      ensures RegOut(State(), res) == Publish(old(State()), rt, name, d)
    {
      var r := Alloc(d);
      typeInfos := typeInfos[rt := r];
      if |name| > 0 {
        if name in name2types {
          return Panicked(NameTaken(name));
        }
        name2types := name2types[name := r];
      }
      return Done(r);
    }

    /** The Struct case: the field loop, then the descriptor is published. */
    method RegisterStruct(rt: GoType, name: string) returns (res: Outcome<DescRef>)
      requires Valid(State()) && rt.StructOf? && rt !in typeInfos
      modifies this
      ensures RegOut(State(), res) == StructCase(old(State()), rt, name)
      decreases Size(rt), 2
    {
      var fields, fieldNames, fieldOffsets, fieldTags := RegisterFieldList(rt);
      if fields.Failed? {
        return Failed(None, fields.err);
      } else if fields.Panicked? {
        return Panicked(fields.reason);
      }
      var fieldTypes := fields.value;
      var d := Desc(name, rt, Struct, 0, None, fieldNames, fieldTypes, fieldOffsets, fieldTags, EncodeStruct);
      assert d == StructDesc(rt, name, fieldTypes);
      res := PublishDesc(rt, name, d);
    }

    /** The field loop of the Struct case: each field is registered under
        its amino tag and its name, descriptor, offset and tag appended. */
    method RegisterFieldList(rt: GoType)
      returns (res: Outcome<seq<DescRef>>, fieldNames: seq<string>, fieldOffsets: seq<nat>, fieldTags: seq<string>)
      requires Valid(State()) && rt.StructOf?
      modifies this
      ensures FieldsOut(State(), res) == RegisterFields(old(State()), rt, 0, [])
      ensures res.Done? ==>
        && fieldNames == FieldNames(rt.fields) && fieldOffsets == FieldOffsets(rt.fields)
        && fieldTags == FieldTags(rt.fields)
      decreases Size(rt), 1
    {
      var fs := rt.fields;
      var fieldTypes: seq<DescRef> := [];
      fieldNames, fieldOffsets, fieldTags := [], [], [];
      var i := 0;
      while i < |fs|
        invariant 0 <= i <= |fs| && |fieldTypes| == i
        invariant Valid(State())
        invariant forall j :: 0 <= j < i ==>
          ValidRef(store, fieldTypes[j]) && Resolve(store, fieldTypes[j]).tipe == Canon(fs[j].ftype)
        invariant RegisterFields(old(State()), rt, 0, []) == RegisterFields(State(), rt, i, fieldTypes)
        invariant fieldNames == FieldNames(fs[..i]) && fieldOffsets == FieldOffsets(fs[..i])
        invariant fieldTags == FieldTags(fs[..i])
      {
        var f := fs[i];
        assert fs[..i + 1][..i] == fs[..i];
        var ft := RegisterField(rt, i, fieldTypes);
        if ft.Failed? {
          return Failed(ft.desc, ft.err), fieldNames, fieldOffsets, fieldTags;
        } else if ft.Panicked? {
          return Panicked(ft.reason), fieldNames, fieldOffsets, fieldTags;
        }
        fieldNames := fieldNames + [f.name];
        fieldTypes := fieldTypes + [ft.value];
        fieldOffsets := fieldOffsets + [f.offset];
        fieldTags := fieldTags + [f.tag];
        i := i + 1;
      }
      assert fs[..i] == fs;
      res := Done(fieldTypes);
    }

    /** One turn of the field loop: register field i under its amino tag. */
    method RegisterField(rt: GoType, i: nat, refs: seq<DescRef>) returns (ft: Outcome<DescRef>)
      requires Valid(State()) && rt.StructOf? && i < |rt.fields| && |refs| == i
      requires forall j :: 0 <= j < i ==>
        ValidRef(store, refs[j]) && Resolve(store, refs[j]).tipe == Canon(rt.fields[j].ftype)
      modifies this
      ensures Valid(State())
      ensures ft.Failed? ==> RegisterFields(old(State()), rt, i, refs) == FieldsOut(State(), Failed(ft.desc, ft.err))
      ensures ft.Panicked? ==> RegisterFields(old(State()), rt, i, refs) == FieldsOut(State(), Panicked(ft.reason))
      ensures ft.Done? ==>
        && (forall j :: 0 <= j < i + 1 ==>
              ValidRef(store, (refs + [ft.value])[j])
              && Resolve(store, (refs + [ft.value])[j]).tipe == Canon(rt.fields[j].ftype))
        && RegisterFields(old(State()), rt, i, refs) == RegisterFields(State(), rt, i + 1, refs + [ft.value])
      decreases Size(rt), 0
    {
      FieldStep(State(), rt, i, refs);
      FieldSmaller(rt, i);
      var f := rt.fields[i];
      ft := RegisterType(f.ftype, f.aminoTag);
    }

    /** Register (no-reflect.go:276-290): strip the pointers, register, and
        return register's error (a panic propagates). */
    method Register(o: GoType, name: string) returns (err: Option<RegError>, panicked: Option<PanicReason>)
      requires Valid(State())
      modifies this
      ensures var s := Registration(old(State()), StripPointers(o), name);
        && State() == s.st
        && err == (if s.res.Failed? then Some(s.res.err) else None)
        && panicked == (if s.res.Panicked? then Some(s.res.reason) else None)
    {
      var rt := o;
      while rt.PtrTo?
        invariant StripPointers(rt) == StripPointers(o)
        decreases Size(rt)
      {
        rt := rt.elem;
      }
      var res := RegisterType(rt, name);
      err := if res.Failed? then Some(res.err) else None;
      panicked := if res.Panicked? then Some(res.reason) else None;
    }
  }
}
