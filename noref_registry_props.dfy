/**
 * What the descriptor registry promises, proved about the functions of
 * module NoRefRegistry that specify register.
 */
module NoRefRegistryProps {
  import opened Wrappers
  import opened GoTypes
  import opened NoRefTypes
  import opened NoRefRegistry

  /** A type already in typeInfos is answered with its cached descriptor and
      an "already exists" error; neither map (nor the store) changes. */
  lemma AlreadyRegistered(st: Registry, rt: GoType, name: string)
    requires Valid(st) && rt in st.typeInfos
    ensures var o := Registration(st, rt, name);
      && o.st == st
      && o.res == Failed(Some(st.typeInfos[rt]), AlreadyExists)
      && Resolve(st.store, st.typeInfos[rt]).tipe == rt
  {
  }

  /** A primitive kind is answered with the shared table descriptor of its
      kind, which describes the predeclared type of that kind; nothing
      changes. */
  lemma PrimitiveIsShared(st: Registry, rt: GoType, name: string)
    requires Valid(st) && rt !in st.typeInfos && IsPrimitiveKind(KindOf(rt))
    ensures var o := Registration(st, rt, name);
      && o.st == st
      && o.res == Done(Shared(Code(KindOf(rt))))
      && Resolve(st.store, o.res.value).kind == KindOf(rt)
      && Resolve(st.store, o.res.value).tipe == P(KindOf(rt))
  {
    var c := Code(KindOf(rt));
    assert GetPrimitiveType(c) == Some(Shared(c));
  }

  /** Pointer, array, slice and map types are never cached, and their
      registration ignores the name it is given. */
  lemma CompositesNotCached(st: Registry, rt: GoType, name: string, other: string)
    requires Valid(st) && (rt.PtrTo? || rt.ArrayOf? || rt.SliceOf? || rt.MapOf?)
    ensures rt !in st.typeInfos
    ensures rt !in Registration(st, rt, name).st.typeInfos
    ensures Registration(st, rt, name) == Registration(st, rt, other)
  {
  }

  /** A pointer, array or slice descriptor is built fresh around the
      descriptor its element registers to (with no name): it is the newest
      descriptor, refers to the element's descriptor, counts the array's
      length (a slice's count is 0), and no cached type maps to it. */
  lemma ElemDescriptorIsFresh(st: Registry, rt: GoType, name: string)
    requires Valid(st) && (rt.PtrTo? || rt.ArrayOf? || rt.SliceOf?)
    ensures var o := Registration(st, rt, name);
      var oe := Registration(st, rt.elem, "");
      oe.res.Done? ==>
        && o.res == Done(Own(|oe.st.store|))
        && o.st.store == oe.st.store + [ElemDesc(rt, oe.res.value, Resolve(oe.st.store, oe.res.value))]
        && o.st.typeInfos == oe.st.typeInfos && o.st.name2types == oe.st.name2types
        && o.st.store[|oe.st.store|].elemType == Some(oe.res.value)
        && o.st.store[|oe.st.store|].tipe == Canon(rt)
        && o.st.store[|oe.st.store|].elemCount == (if rt.ArrayOf? then rt.len else 0)
        && (forall t :: t in o.st.typeInfos ==> o.st.typeInfos[t] != o.res.value)
  {
    var o := Registration(st, rt, name);
    var oe := Registration(st, rt.elem, "");
    assert rt !in st.typeInfos;
    assert o == ElemCase(st, rt);
    if oe.res.Done? {
      forall t | t in o.st.typeInfos
        ensures o.st.typeInfos[t] != o.res.value
      {
        assert Resolve(o.st.store, o.st.typeInfos[t]).tipe == t;
      }
    }
  }

  /** A pointer's, array's or slice's element error is returned as it is,
      together with whatever descriptor came with it. */
  lemma ElemErrorPropagates(st: Registry, rt: GoType, name: string)
    requires Valid(st) && (rt.PtrTo? || rt.ArrayOf? || rt.SliceOf?)
    ensures var oe := Registration(st, rt.elem, "");
      !oe.res.Done? ==> Registration(st, rt, name) == oe
  {
    assert rt !in st.typeInfos;
  }

  /** A map descriptor is fresh, and refers to the key's descriptor and then
      to the value's; a key or value error is returned with no descriptor. */
  lemma MapRegistration(st: Registry, rt: GoType, name: string)
    requires Valid(st) && rt.MapOf?
    ensures var o := Registration(st, rt, name);
      var ok := Registration(st, rt.key, "");
      && (ok.res.Failed? ==> o == RegOut(ok.st, Failed(None, ok.res.err)))
      && (ok.res.Panicked? ==> o == ok)
      && (ok.res.Done? ==>
            var oe := Registration(ok.st, rt.elem, "");
            && (oe.res.Failed? ==> o == RegOut(oe.st, Failed(None, oe.res.err)))
            && (oe.res.Panicked? ==> o == oe)
            && (oe.res.Done? ==>
                  && o.res == Done(Own(|oe.st.store|))
                  && |o.st.store| == |oe.st.store| + 1
                  && o.st.store[|oe.st.store|].fieldTypes == [ok.res.value, oe.res.value]
                  && o.st.store[|oe.st.store|].tipe == Canon(rt)))
  {
    assert rt !in st.typeInfos;
    assert Registration(st, rt, name) == MapCase(st, rt);
  }

  /** Channel and function types (and the invalid kind) panic with "invalid
      type"; nothing changes before the panic. */
  lemma InvalidTypesPanic(st: Registry, rt: GoType, name: string)
    requires Valid(st) && (rt.ChanOf? || rt.FuncOf? || rt == P(Invalid))
    ensures Registration(st, rt, name) == RegOut(st, Panicked(InvalidType(KindOf(rt))))
  {
    assert rt !in st.typeInfos;
    assert GetPrimitiveType(Code(KindOf(rt))) == None;
  }

  /** An interface is cached under its type with the given name as its amino
      name; a non-empty name already taken panics, after the type is cached;
      otherwise the name maps to the same descriptor. */
  lemma InterfaceRegistration(st: Registry, rt: GoType, name: string)
    requires Valid(st) && rt.Iface? && rt !in st.typeInfos
    ensures var o := Registration(st, rt, name);
      var r := Own(|st.store|);
      && o.st.store == st.store + [InterfaceDesc(rt, name)]
      && o.st.typeInfos == st.typeInfos[rt := r]
      && (|name| > 0 && name in st.name2types ==>
            o.res == Panicked(NameTaken(name)) && o.st.name2types == st.name2types)
      && (|name| > 0 && name !in st.name2types ==>
            o.res == Done(r) && o.st.name2types == st.name2types[name := r])
      && (name == "" ==> o.res == Done(r) && o.st.name2types == st.name2types)
  {
    assert GetPrimitiveType(Code(KindOf(rt))) == None;
    assert Registration(st, rt, name) == InterfaceCase(st, rt, name);
  }

  /** A struct whose fields all register is described by a fresh descriptor
      holding the fields' descriptors; it is cached under its type before
      its name is claimed, and a non-empty name already taken panics. */
  lemma StructRegistration(st: Registry, rt: GoType, name: string)
    requires Valid(st) && rt.StructOf? && rt !in st.typeInfos
    ensures var of := RegisterFields(st, rt, 0, []);
      var o := Registration(st, rt, name);
      var r := Own(|of.st.store|);
      of.res.Done? ==>
        && o.st.store == of.st.store + [StructDesc(rt, name, of.res.value)]
        && o.st.typeInfos == of.st.typeInfos[rt := r]
        && (|name| > 0 && name in of.st.name2types ==>
              o.res == Panicked(NameTaken(name)) && o.st.name2types == of.st.name2types)
        && (|name| > 0 && name !in of.st.name2types ==>
              o.res == Done(r) && o.st.name2types == of.st.name2types[name := r])
        && (name == "" ==> o.res == Done(r) && o.st.name2types == of.st.name2types)
  {
    assert GetPrimitiveType(Code(KindOf(rt))) == None;
    assert Registration(st, rt, name) == StructCase(st, rt, name);
  }

  /** The struct descriptor: its names, descriptors, offsets and tags are
      parallel, follow the declaration order, and each field's descriptor
      describes that field's type. */
  lemma StructFields(st: Registry, rt: GoType, name: string)
    requires Valid(st) && rt.StructOf?
    ensures var of := RegisterFields(st, rt, 0, []);
      of.res.Done? ==>
        && |of.res.value| == |rt.fields|
        && var d := StructDesc(rt, name, of.res.value);
        && d.tipe == rt && d.kind == Struct && d.aminoTag == name
        && |d.fieldNames| == |d.fieldTypes| == |d.fieldOffsets| == |d.fieldTags| == |rt.fields|
        && forall j :: 0 <= j < |rt.fields| ==>
             && d.fieldNames[j] == rt.fields[j].name
             && d.fieldOffsets[j] == rt.fields[j].offset
             && d.fieldTags[j] == rt.fields[j].tag
             && ValidRef(of.st.store, d.fieldTypes[j])
             && Resolve(of.st.store, d.fieldTypes[j]).tipe == Canon(rt.fields[j].ftype)
  {
  }

  /** When a field fails, the struct is not cached, nothing is named after
      it, and the failure comes back with no descriptor. */
  lemma StructFieldFailure(st: Registry, rt: GoType, name: string)
    requires Valid(st) && rt.StructOf? && rt !in st.typeInfos
    ensures var of := RegisterFields(st, rt, 0, []);
      var o := Registration(st, rt, name);
      !of.res.Done? ==>
        && o.st == of.st && rt !in o.st.typeInfos
        && (of.res.Failed? ==> o.res == Failed(None, of.res.err))
        && (of.res.Panicked? ==> o.res == Panicked(of.res.reason))
  {
    assert GetPrimitiveType(Code(KindOf(rt))) == None;
    assert Registration(st, rt, name) == StructCase(st, rt, name);
  }

  /** The field loop, on reaching a field whose type is cached, stops there
      with "already exists" and the cached descriptor, changing nothing. */
  lemma CachedFieldReached(st: Registry, rt: GoType, k: nat, refs: seq<DescRef>)
    requires Valid(st) && rt.StructOf? && k < |rt.fields| && |refs| == k
    requires forall j :: 0 <= j < k ==>
      ValidRef(st.store, refs[j]) && Resolve(st.store, refs[j]).tipe == Canon(rt.fields[j].ftype)
    requires rt.fields[k].ftype in st.typeInfos
    ensures RegisterFields(st, rt, k, refs)
         == FieldsOut(st, Failed(Some(st.typeInfos[rt.fields[k].ftype]), AlreadyExists))
  {
    FieldStep(st, rt, k, refs);
  }

  /** A field whose type is already cached keeps the whole field loop from
      succeeding: the loop panics at an earlier field, fails at an earlier
      one, or reaches field k with its type still cached (the cache only
      grows) and fails there as CachedFieldReached says. AlreadyExists is
      register's only error, so every failure is "already exists". */
  lemma {:induction false} CachedFieldAborts(st: Registry, rt: GoType, i: nat, refs: seq<DescRef>, k: nat)
    requires Valid(st) && rt.StructOf? && i <= k < |rt.fields| && |refs| == i
    requires forall j :: 0 <= j < i ==>
      ValidRef(st.store, refs[j]) && Resolve(st.store, refs[j]).tipe == Canon(rt.fields[j].ftype)
    requires rt.fields[k].ftype in st.typeInfos
    ensures !RegisterFields(st, rt, i, refs).res.Done?
    decreases |rt.fields| - i
  {
    if i == k {
      CachedFieldReached(st, rt, k, refs);
    } else {
      FieldStep(st, rt, i, refs);
      var of := Registration(st, rt.fields[i].ftype, rt.fields[i].aminoTag);
      if of.res.Done? {
        CachedFieldAborts(of.st, rt, i + 1, refs + [of.res.value], k);
      }
    }
  }

  /** The struct itself cannot be registered when one of its fields has a
      cached type. */
  lemma StructWithCachedFieldFails(st: Registry, rt: GoType, name: string, k: nat)
    requires Valid(st) && rt.StructOf? && rt !in st.typeInfos
    requires k < |rt.fields| && rt.fields[k].ftype in st.typeInfos
    ensures var o := Registration(st, rt, name);
      !o.res.Done? && rt !in o.st.typeInfos
  {
    CachedFieldAborts(st, rt, 0, [], k);
    StructFieldFailure(st, rt, name);
  }

  /** A struct registered for the first time is cached once it succeeds. */
  lemma NewStructIsCached(st: Registry, s: GoType, name: string)
    requires Valid(st) && s.StructOf? && s !in st.typeInfos
    ensures var o := Registration(st, s, name); o.res.Done? ==> s in o.st.typeInfos
  {
    assert GetPrimitiveType(Code(KindOf(s))) == None;
    assert Registration(st, s, name) == StructCase(st, s, name);
    StructRegistration(st, s, name);
  }

  /** A consequence: a struct that has two fields of the same (new) struct
      type is refused, because registering the first field caches that type
      and the second then runs into "already exists". */
  lemma RepeatedStructFieldFails(st: Registry, rt: GoType, name: string)
    requires Valid(st) && rt.StructOf? && rt !in st.typeInfos && |rt.fields| == 2
    requires rt.fields[0].ftype == rt.fields[1].ftype && rt.fields[0].ftype.StructOf?
    ensures !Registration(st, rt, name).res.Done?
  {
    var s := rt.fields[0].ftype;
    FieldSmaller(rt, 0);
    FieldStep(st, rt, 0, []);
    var of := Registration(st, s, rt.fields[0].aminoTag);
    if of.res.Done? && s !in st.typeInfos {
      NewStructIsCached(st, s, rt.fields[0].aminoTag);
      CachedFieldAborts(of.st, rt, 1, [of.res.value], 1);
    } else if s in st.typeInfos {
      CachedFieldAborts(st, rt, 0, [], 0);
    }
    StructFieldFailure(st, rt, name);
  }

  /** k pointer layers around t. */
  function Pointers(k: nat, t: GoType): (r: GoType)
    ensures k > 0 ==> r.PtrTo?
  {
    if k == 0 then t else PtrTo(Pointers(k - 1, t))
  }

  /** Register strips every pointer layer: only the innermost non-pointer
      type is registered. */
  lemma {:induction false} StripsAllPointers(k: nat, t: GoType)
    requires !t.PtrTo?
    ensures StripPointers(Pointers(k, t)) == t
  {
    if k > 0 {
      StripsAllPointers(k - 1, t);
    }
  }

  /** A fresh codec: an interface registered under a name is cached and
      named, and registering it again is an "already exists" error. */
  lemma FreshCodecInterface()
    ensures var st := Registry([], map[], map[]);
      var t := Iface("example", "Animal");
      var o := Registration(st, t, "example/Animal");
      && o.res == Done(Own(0))
      && o.st.typeInfos == map[t := Own(0)]
      && o.st.name2types == map["example/Animal" := Own(0)]
      && Registration(o.st, t, "example/Animal").res == Failed(Some(Own(0)), AlreadyExists)
  {
    var st := Registry([], map[], map[]);
    var t := Iface("example", "Animal");
    InterfaceRegistration(st, t, "example/Animal");
    var o := Registration(st, t, "example/Animal");
    AlreadyRegistered(o.st, t, "example/Animal");
  }
}
