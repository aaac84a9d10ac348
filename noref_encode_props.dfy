/**
 * Properties of the reflection-free encoders: what the interface and
 * primitive encoders write, that the loops write their parts in order and
 * stop at the first failure, that the slice encoder looks at no more than
 * five elements, and how Encode picks a descriptor. Also the encoders as
 * written where they take the address of a value that has none.
 */
module NoRefEncodeProps {
  import opened Wrappers
  import opened GoTypes
  import opened NoRefTypes
  import opened NoRefRegistry
  import opened NoRefEncode

  /** The tokens of a list of parts, one after another. */
  function Concat(parts: seq<seq<Token>>): (r: seq<Token>)
    ensures parts == [] ==> r == []
  {
    if parts == [] then [] else parts[0] + Concat(parts[1..])
  }

  lemma Assoc(a: seq<Token>, b: seq<Token>, c: seq<Token>)
    ensures a + (b + c) == (a + b) + c
  {
  }

  // ---------------------------------------------------------------------
  // Primitives and pointers

  /** A primitive kind's shared descriptor writes one token: the kind's
      predeclared type and the value read from the slot; an unsafe pointer
      writes its slot's address and reads nothing. */
  lemma PrimitiveEncoding(c: Ctx, k: Kind, slot: Option<Value>, fuel: nat)
    requires IsPrimitiveKind(k) && fuel > 0
    ensures k == UnsafePointer ==> Enc(c, Shared(Code(k)), slot, fuel) == Written([AddrTok(P(k))], None)
    ensures k != UnsafePointer && slot.Some? && slot.value.PrimV? ==>
      Enc(c, Shared(Code(k)), slot, fuel) == Written([PrimTok(P(k), slot.value.s)], None)
    ensures k != UnsafePointer && slot.None? ==>
      Enc(c, Shared(Code(k)), slot, fuel) == Fail(Crashed(NilDeref))
  {
    var r := GetPrimitiveType(Code(k));
    assert r == Some(Shared(Code(k)));
    var d := PrimitiveTable[Code(k)].value;
    assert d == PrimDesc(P(k));
  }

  /** A pointer is followed to its target; a nil pointer hands its element
      encoder a nil address. */
  lemma PointerEncoding(c: Ctx, r: DescRef, p: Ref, fuel: nat)
    requires fuel > 0 && ValidRef(c.st.store, r)
    requires var d := Resolve(c.st.store, r); d.encode == EncodePtr && d.elemType.Some?
    ensures var er := Resolve(c.st.store, r).elemType.value;
      && (p == Nil ==> Enc(c, r, Some(PtrV(p)), fuel) == Enc(c, er, None, fuel - 1))
      && (Deref(c.h, p).Some? ==> Enc(c, r, Some(PtrV(p)), fuel) == Enc(c, er, Deref(c.h, p), fuel - 1))
  {
  }

  /** So a nil pointer to a primitive (other than an unsafe pointer) panics
      without writing anything. */
  lemma NilPointerToPrimitive(c: Ctx, r: DescRef, k: Kind, fuel: nat)
    requires fuel > 1 && ValidRef(c.st.store, r)
    requires var d := Resolve(c.st.store, r); d.encode == EncodePtr && d.elemType == Some(Shared(Code(k)))
    requires IsPrimitiveKind(k) && k != UnsafePointer
    ensures Enc(c, r, Some(PtrV(Nil)), fuel) == Fail(Crashed(NilDeref))
  {
    PointerEncoding(c, r, Nil, fuel);
    PrimitiveEncoding(c, k, None, fuel - 1);
  }

  // ---------------------------------------------------------------------
  // Interfaces

  /** An interface encoder: a nil interface (or a nil address) panics; a
      held zero value writes nothing; otherwise the dynamic type must be
      registered, and writing is left to its descriptor. */
  lemma InterfaceEncoding(c: Ctx, r: DescRef, held: Option<Dyn>, fuel: nat)
    requires fuel > 0 && ValidRef(c.st.store, r) && Resolve(c.st.store, r).encode == EncodeInterface
    ensures Enc(c, r, None, fuel) == Fail(Crashed(ZeroValueCall))
    ensures held.None? ==> Enc(c, r, Some(IfaceV(held)), fuel) == Fail(Crashed(ZeroValueCall))
    ensures held.Some? && held.value.v == Zero(held.value.t) ==>
      Enc(c, r, Some(IfaceV(held)), fuel) == Written([], None)
    ensures held.Some? && held.value.v != Zero(held.value.t) && held.value.t !in c.st.typeInfos ==>
      Enc(c, r, Some(IfaceV(held)), fuel) == Fail(NotFound(held.value.t))
    ensures held.Some? && held.value.v != Zero(held.value.t) && held.value.t in c.st.typeInfos ==>
      Enc(c, r, Some(IfaceV(held)), fuel) == Enc(c, c.st.typeInfos[held.value.t], Some(held.value.v), fuel - 1)
  {
  }

  /** Only struct and interface types are ever registered, so an interface
      holding a non-zero primitive is "not found" even though Encode itself
      would find the primitive's shared descriptor. */
  lemma InterfaceHoldingPrimitive(c: Ctx, r: DescRef, k: Kind, s: Scalar, fuel: nat)
    requires fuel > 0 && ValidRef(c.st.store, r) && Resolve(c.st.store, r).encode == EncodeInterface
    requires TypesOk(c.st) && IsPrimitiveKind(k) && s != ZeroScalar(k)
    ensures Enc(c, r, Some(IfaceV(Some(Dyn(P(k), PrimV(s))))), fuel) == Fail(NotFound(P(k)))
    ensures EncodeSpec(c, None, Dyn(P(k), PrimV(s)), fuel) == Enc(c, Shared(Code(k)), Some(PrimV(s)), fuel)
  {
    assert P(k) !in c.st.typeInfos;
    InterfaceEncoding(c, r, Some(Dyn(P(k), PrimV(s))), fuel);
    EncodeResolution(c, None, Dyn(P(k), PrimV(s)), fuel);
  }

  // ---------------------------------------------------------------------
  // Arrays and slices

  /** The encodings of the elements xs[i..j], each on its own. */
  function ElemParts(c: Ctx, er: DescRef, xs: seq<Value>, i: nat, j: nat, fuel: nat): (r: seq<seq<Token>>)
    requires i <= j <= |xs|
    ensures |r| == j - i
    decreases j - i
  {
    if i == j then [] else [Enc(c, er, Some(xs[i]), fuel).tokens] + ElemParts(c, er, xs, i + 1, j, fuel)
  }

  /** One turn of the element loop, spelled out. */
  lemma ElemsStep(c: Ctx, er: DescRef, xs: seq<Value>, i: nat, fuel: nat)
    requires i < |xs|
    ensures var e := Enc(c, er, Some(xs[i]), fuel);
      var rest := EncElems(c, er, xs, i + 1, fuel);
      EncElems(c, er, xs, i, fuel) == if e.err.None? then Written(e.tokens + rest.tokens, rest.err) else e
  {
  }

  /** When every element from i on encodes, the loop writes the elements'
      tokens in order and succeeds. */
  lemma {:induction false} ElemsAllSucceed(c: Ctx, er: DescRef, xs: seq<Value>, i: nat, fuel: nat)
    requires i <= |xs|
    requires forall k :: i <= k < |xs| ==> Enc(c, er, Some(xs[k]), fuel).err.None?
    ensures EncElems(c, er, xs, i, fuel) == Written(Concat(ElemParts(c, er, xs, i, |xs|, fuel)), None)
    decreases |xs| - i
  {
    if i < |xs| {
      ElemsStep(c, er, xs, i, fuel);
      ElemsAllSucceed(c, er, xs, i + 1, fuel);
      assert Concat(ElemParts(c, er, xs, i, |xs|, fuel))
          == Enc(c, er, Some(xs[i]), fuel).tokens + Concat(ElemParts(c, er, xs, i + 1, |xs|, fuel));
    }
  }

  /** When element j is the first that fails, the loop writes the earlier
      elements' tokens and what element j wrote, and returns its error. */
  lemma {:induction false} ElemsStopAtFirstError(c: Ctx, er: DescRef, xs: seq<Value>, i: nat, j: nat, fuel: nat)
    requires i <= j < |xs|
    requires forall k :: i <= k < j ==> Enc(c, er, Some(xs[k]), fuel).err.None?
    requires Enc(c, er, Some(xs[j]), fuel).err.Some?
    ensures var e := Enc(c, er, Some(xs[j]), fuel);
      EncElems(c, er, xs, i, fuel) == Written(Concat(ElemParts(c, er, xs, i, j, fuel)) + e.tokens, e.err)
    decreases j - i
  {
    ElemsStep(c, er, xs, i, fuel);
    if i < j {
      ElemsStopAtFirstError(c, er, xs, i + 1, j, fuel);
      var part := Enc(c, er, Some(xs[i]), fuel).tokens;
      var later := Concat(ElemParts(c, er, xs, i + 1, j, fuel));
      assert Concat(ElemParts(c, er, xs, i, j, fuel)) == part + later;
      Assoc(part, later, Enc(c, er, Some(xs[j]), fuel).tokens);
    } else {
      assert ElemParts(c, er, xs, i, j, fuel) == [];
    }
  }

  /** The elements after the first failing one are never encoded: the loop
      over xs does what the loop over xs up to that element does. */
  lemma {:induction false} ElemsIgnoreRest(c: Ctx, er: DescRef, xs: seq<Value>, i: nat, j: nat, fuel: nat)
    requires i <= j < |xs|
    requires forall k :: i <= k < j ==> Enc(c, er, Some(xs[k]), fuel).err.None?
    requires Enc(c, er, Some(xs[j]), fuel).err.Some?
    ensures EncElems(c, er, xs, i, fuel) == EncElems(c, er, xs[..j + 1], i, fuel)
    decreases j - i
  {
    var ys := xs[..j + 1];
    assert ys[i] == xs[i];
    ElemsStep(c, er, xs, i, fuel);
    ElemsStep(c, er, ys, i, fuel);
    if i < j {
      ElemsIgnoreRest(c, er, xs, i + 1, j, fuel);
    }
  }

  /** The slice encoder never looks past the fifth element: two slices of
      the same length and element type whose first five elements agree
      encode alike. */
  lemma SliceShowsAtMostFive(c: Ctx, r: DescRef, d1: Ref, d2: Ref, n: nat, fuel: nat)
    requires fuel > 0 && ValidRef(c.st.store, r) && Resolve(c.st.store, r).encode == EncodeSlice
    requires SliceElems(c.h, d1, n).Some? && SliceElems(c.h, d2, n).Some?
    requires SliceElems(c.h, d1, n).value[..Min(n, 5)] == SliceElems(c.h, d2, n).value[..Min(n, 5)]
    ensures Enc(c, r, Some(SliceV(d1, n)), fuel) == Enc(c, r, Some(SliceV(d2, n)), fuel)
  {
  }

  /** A slice whose shown elements all encode writes its header and then
      exactly its first min(len, 5) elements. */
  lemma SliceWritesFirstFive(c: Ctx, r: DescRef, data: Ref, n: nat, fuel: nat)
    requires fuel > 0 && ValidRef(c.st.store, r)
    requires var d := Resolve(c.st.store, r);
      d.encode == EncodeSlice && d.elemType.Some? && ValidRef(c.st.store, d.elemType.value)
    requires SliceElems(c.h, data, n).Some?
    requires var er := Resolve(c.st.store, r).elemType.value;
      var xs := SliceElems(c.h, data, n).value;
      forall k :: 0 <= k < Min(n, 5) ==> Enc(c, er, Some(xs[k]), fuel - 1).err.None?
    ensures var er := Resolve(c.st.store, r).elemType.value;
      var xs := SliceElems(c.h, data, n).value;
      Enc(c, r, Some(SliceV(data, n)), fuel)
        == Written([SliceHead(n, Resolve(c.st.store, er).tipe)]
                   + Concat(ElemParts(c, er, xs[..Min(n, 5)], 0, Min(n, 5), fuel - 1)), None)
  {
    var er := Resolve(c.st.store, r).elemType.value;
    var xs := SliceElems(c.h, data, n).value;
    var shown := xs[..Min(n, 5)];
    assert forall k :: 0 <= k < |shown| ==> shown[k] == xs[k];
    ElemsAllSucceed(c, er, shown, 0, fuel - 1);
  }

  /** An array whose elements all encode writes its header and every
      element, in order. */
  lemma ArrayWritesAll(c: Ctx, r: DescRef, xs: seq<Value>, fuel: nat)
    requires fuel > 0 && ValidRef(c.st.store, r)
    requires var d := Resolve(c.st.store, r);
      d.encode == EncodeArray && d.elemType.Some? && ValidRef(c.st.store, d.elemType.value)
    requires var er := Resolve(c.st.store, r).elemType.value;
      forall k :: 0 <= k < |xs| ==> Enc(c, er, Some(xs[k]), fuel - 1).err.None?
    ensures var d := Resolve(c.st.store, r);
      var er := d.elemType.value;
      Enc(c, r, Some(ArrayV(xs)), fuel)
        == Written([ArrayHead(|xs|, d.elemCount, Resolve(c.st.store, er).tipe)]
                   + Concat(ElemParts(c, er, xs, 0, |xs|, fuel - 1)), None)
  {
    var er := Resolve(c.st.store, r).elemType.value;
    ElemsAllSucceed(c, er, xs, 0, fuel - 1);
  }

  // ---------------------------------------------------------------------
  // Structs

  /** What field i writes when it encodes: "{name/offset=>", the field, "}". */
  function FieldPart(c: Ctx, d: Desc, base: Option<seq<Value>>, i: nat, fuel: nat): seq<Token>
    requires FieldListsOk(d) && i < |d.fieldNames|
    requires base.Some? ==> |d.fieldNames| <= |base.value|
  {
    [FieldOpen(d.fieldNames[i], d.fieldOffsets[i])] + Enc(c, d.fieldTypes[i], FieldSlot(base, i), fuel).tokens
      + [FieldClose]
  }

  /** The parts of fields i, i+1, ... up to j. */
  function FieldParts(c: Ctx, d: Desc, base: Option<seq<Value>>, i: nat, j: nat, fuel: nat): (r: seq<seq<Token>>)
    requires FieldListsOk(d) && i <= j <= |d.fieldNames|
    requires base.Some? ==> |d.fieldNames| <= |base.value|
    ensures |r| == j - i
    decreases j - i
  {
    if i == j then [] else [FieldPart(c, d, base, i, fuel)] + FieldParts(c, d, base, i + 1, j, fuel)
  }

  /** One turn of the field loop, spelled out. */
  lemma FieldsStep(c: Ctx, d: Desc, base: Option<seq<Value>>, i: nat, fuel: nat)
    requires FieldListsOk(d) && i < |d.fieldNames|
    requires base.Some? ==> |d.fieldNames| <= |base.value|
    ensures var e := Enc(c, d.fieldTypes[i], FieldSlot(base, i), fuel);
      var rest := EncFields(c, d, base, i + 1, fuel);
      && (e.err.None? ==> EncFields(c, d, base, i, fuel) == Written(FieldPart(c, d, base, i, fuel) + rest.tokens, rest.err))
      && (e.err.Some? ==> EncFields(c, d, base, i, fuel)
                          == Written([FieldOpen(d.fieldNames[i], d.fieldOffsets[i])] + e.tokens, e.err))
  {
    var e := Enc(c, d.fieldTypes[i], FieldSlot(base, i), fuel);
    var rest := EncFields(c, d, base, i + 1, fuel);
    var fo := [FieldOpen(d.fieldNames[i], d.fieldOffsets[i])];
    if e.err.None? {
      assert fo + (e.tokens + ([FieldClose] + rest.tokens)) == (fo + e.tokens + [FieldClose]) + rest.tokens;
    }
  }

  /** When every field from i on encodes, the loop writes each field's part
      in declaration order and succeeds. */
  lemma {:induction false} FieldsAllSucceed(c: Ctx, d: Desc, base: Option<seq<Value>>, i: nat, fuel: nat)
    requires FieldListsOk(d) && i <= |d.fieldNames|
    requires base.Some? ==> |d.fieldNames| <= |base.value|
    requires forall k :: i <= k < |d.fieldNames| ==> Enc(c, d.fieldTypes[k], FieldSlot(base, k), fuel).err.None?
    ensures EncFields(c, d, base, i, fuel) == Written(Concat(FieldParts(c, d, base, i, |d.fieldNames|, fuel)), None)
    decreases |d.fieldNames| - i
  {
    if i < |d.fieldNames| {
      FieldsStep(c, d, base, i, fuel);
      FieldsAllSucceed(c, d, base, i + 1, fuel);
      var ps := FieldParts(c, d, base, i, |d.fieldNames|, fuel);
      assert Concat(ps) == FieldPart(c, d, base, i, fuel) + Concat(FieldParts(c, d, base, i + 1, |d.fieldNames|, fuel));
    }
  }

  /** When field j is the first that fails, the loop writes the earlier
      fields' parts, then "{name/offset=>" and what field j wrote, and
      returns field j's error: no closing "}" and no later field. */
  lemma {:induction false} FieldsStopAtFirstError(c: Ctx, d: Desc, base: Option<seq<Value>>, i: nat, j: nat, fuel: nat)
    requires FieldListsOk(d) && i <= j < |d.fieldNames|
    requires base.Some? ==> |d.fieldNames| <= |base.value|
    requires forall k :: i <= k < j ==> Enc(c, d.fieldTypes[k], FieldSlot(base, k), fuel).err.None?
    requires Enc(c, d.fieldTypes[j], FieldSlot(base, j), fuel).err.Some?
    ensures var e := Enc(c, d.fieldTypes[j], FieldSlot(base, j), fuel);
      EncFields(c, d, base, i, fuel)
        == Written(Concat(FieldParts(c, d, base, i, j, fuel)) + ([FieldOpen(d.fieldNames[j], d.fieldOffsets[j])]
                   + e.tokens), e.err)
    decreases j - i
  {
    FieldsStep(c, d, base, i, fuel);
    if i < j {
      FieldsStopAtFirstError(c, d, base, i + 1, j, fuel);
      var e := Enc(c, d.fieldTypes[j], FieldSlot(base, j), fuel);
      var fo := [FieldOpen(d.fieldNames[j], d.fieldOffsets[j])];
      var part := FieldPart(c, d, base, i, fuel);
      var later := Concat(FieldParts(c, d, base, i + 1, j, fuel));
      assert Concat(FieldParts(c, d, base, i, j, fuel)) == part + later;
      Assoc(part, later, fo + e.tokens);
    } else {
      assert FieldParts(c, d, base, i, j, fuel) == [];
    }
  }

  /** A struct whose fields all encode writes "<struct:type>" and then each
      field's part in declaration order. */
  lemma StructWritesAllFields(c: Ctx, r: DescRef, fs: seq<Value>, fuel: nat)
    requires fuel > 0 && ValidRef(c.st.store, r)
    requires var d := Resolve(c.st.store, r);
      d.encode == EncodeStruct && FieldListsOk(d) && |d.fieldNames| <= |fs|
    requires var d := Resolve(c.st.store, r);
      forall k :: 0 <= k < |d.fieldNames| ==> Enc(c, d.fieldTypes[k], Some(fs[k]), fuel - 1).err.None?
    ensures var d := Resolve(c.st.store, r);
      Enc(c, r, Some(StructV(fs)), fuel)
        == Written([StructOpen(d.tipe)] + Concat(FieldParts(c, d, Some(fs), 0, |d.fieldNames|, fuel - 1)), None)
  {
    var d := Resolve(c.st.store, r);
    FieldsAllSucceed(c, d, Some(fs), 0, fuel - 1);
  }

  /** A nil address handed to a struct encoder still gets the header: a
      struct without fields writes just that and succeeds. */
  lemma NilEmptyStruct(c: Ctx, r: DescRef, fuel: nat)
    requires fuel > 0 && ValidRef(c.st.store, r)
    requires var d := Resolve(c.st.store, r); d.encode == EncodeStruct && FieldListsOk(d) && d.fieldNames == []
    ensures Enc(c, r, None, fuel) == Written([StructOpen(Resolve(c.st.store, r).tipe)], None)
  {
    var d := Resolve(c.st.store, r);
    assert EncFields(c, d, None, 0, fuel - 1) == Nothing;
  }

  // ---------------------------------------------------------------------
  // Maps

  /** What entry k of the visiting order writes when it encodes: key, ":",
      value, ",". */
  function EntryPart(c: Ctx, kr: DescRef, vr: DescRef, m: map<Value, Value>, k: Value, fuel: nat): seq<Token>
    requires k in m
  {
    Enc(c, kr, Some(k), fuel).tokens + [MapColon] + Enc(c, vr, Some(m[k]), fuel).tokens + [MapComma]
  }

  /** The parts of the entries keys[i..], all in the map. */
  function EntryParts(c: Ctx, kr: DescRef, vr: DescRef, m: map<Value, Value>, keys: seq<Value>, i: nat,
                      fuel: nat): (r: seq<seq<Token>>)
    requires i <= |keys| && forall k :: i <= k < |keys| ==> keys[k] in m
    ensures |r| == |keys| - i
    ensures forall j :: i <= j < |keys| ==> r[j - i] == EntryPart(c, kr, vr, m, keys[j], fuel)
    decreases |keys| - i
  {
    if i == |keys| then [] else [EntryPart(c, kr, vr, m, keys[i], fuel)] + EntryParts(c, kr, vr, m, keys, i + 1, fuel)
  }

  /** One turn of the map loop over an entry whose key and value encode. */
  lemma EntriesStep(c: Ctx, kr: DescRef, vr: DescRef, m: map<Value, Value>, keys: seq<Value>, i: nat, fuel: nat)
    requires i < |keys| && keys[i] in m
    requires Enc(c, kr, Some(keys[i]), fuel).err.None? && Enc(c, vr, Some(m[keys[i]]), fuel).err.None?
    ensures var rest := EncEntries(c, kr, vr, m, keys, i + 1, fuel);
      EncEntries(c, kr, vr, m, keys, i, fuel) == Written(EntryPart(c, kr, vr, m, keys[i], fuel) + rest.tokens, rest.err)
  {
    var ek := Enc(c, kr, Some(keys[i]), fuel).tokens;
    var ev := Enc(c, vr, Some(m[keys[i]]), fuel).tokens;
    var rest := EncEntries(c, kr, vr, m, keys, i + 1, fuel).tokens;
    Assoc(ev, [MapComma], rest);
    Assoc([MapColon], ev + [MapComma], rest);
    Assoc(ek, [MapColon] + (ev + [MapComma]), rest);
    assert ek + ([MapColon] + (ev + [MapComma])) == ek + [MapColon] + ev + [MapComma];
  }

  /** When the visiting order names only keys of the map and every key and
      value encodes, the loop writes each entry's part in that order. */
  lemma {:induction false} EntriesAllSucceed(c: Ctx, kr: DescRef, vr: DescRef, m: map<Value, Value>,
                                              keys: seq<Value>, i: nat, fuel: nat)
    requires i <= |keys| && forall k :: i <= k < |keys| ==> keys[k] in m
    requires forall k :: i <= k < |keys| ==>
      Enc(c, kr, Some(keys[k]), fuel).err.None? && Enc(c, vr, Some(m[keys[k]]), fuel).err.None?
    ensures EncEntries(c, kr, vr, m, keys, i, fuel) == Written(Concat(EntryParts(c, kr, vr, m, keys, i, fuel)), None)
    decreases |keys| - i
  {
    if i < |keys| {
      EntriesStep(c, kr, vr, m, keys, i, fuel);
      EntriesAllSucceed(c, kr, vr, m, keys, i + 1, fuel);
      assert Concat(EntryParts(c, kr, vr, m, keys, i, fuel))
          == EntryPart(c, kr, vr, m, keys[i], fuel) + Concat(EntryParts(c, kr, vr, m, keys, i + 1, fuel));
    }
  }

  /** keys is an order in which Go's range over m can visit it: every key of
      m, and nothing else, exactly once. */
  ghost predicate Enumerates(keys: seq<Value>, m: map<Value, Value>) {
    && (forall k :: k in m <==> k in keys)
    && (forall i, j :: 0 <= i < j < |keys| ==> keys[i] != keys[j])
  }

  /** A sequence without repetitions has as many distinct elements as it is
      long. */
  lemma {:induction false} DistinctElements(s: seq<Value>)
    requires forall i, j :: 0 <= i < j < |s| ==> s[i] != s[j]
    ensures |(set x | x in s)| == |s|
  {
    if |s| > 0 {
      DistinctElements(s[1..]);
      assert (set x | x in s) == (set x | x in s[1..]) + {s[0]};
      assert s[0] !in s[1..] by {
        forall j | 0 <= j < |s[1..]| ensures s[1..][j] != s[0] {
          assert s[1..][j] == s[j + 1];
        }
      }
    }
  }

  /** An order that enumerates m is exactly as long as m has entries. */
  lemma EnumerationLength(keys: seq<Value>, m: map<Value, Value>)
    requires Enumerates(keys, m)
    ensures |keys| == |m|
  {
    DistinctElements(keys);
    assert (set x | x in keys) == m.Keys;
  }

  /** Over an order that enumerates m, the entry parts are one per entry of
      m, and each key's part is among them. */
  lemma EachEntryOnce(c: Ctx, kr: DescRef, vr: DescRef, m: map<Value, Value>, keys: seq<Value>, fuel: nat)
    requires Enumerates(keys, m)
    ensures var parts := EntryParts(c, kr, vr, m, keys, 0, fuel);
      && |parts| == |m|
      && forall k :: k in m ==>
           exists i :: 0 <= i < |parts| && keys[i] == k && parts[i] == EntryPart(c, kr, vr, m, k, fuel)
  {
    EnumerationLength(keys, m);
    forall k | k in m
      ensures exists i :: 0 <= i < |keys| && keys[i] == k
                && EntryParts(c, kr, vr, m, keys, 0, fuel)[i] == EntryPart(c, kr, vr, m, k, fuel)
    {
      var i :| 0 <= i < |keys| && keys[i] == k;
    }
  }

  /** A map whose visiting order enumerates its keys and whose entries all
      encode writes "<map:type>{", every entry in that order, and "}": one
      part per entry, and each key's part exactly once. */
  lemma MapWritesAllEntries(c: Ctx, r: DescRef, p: Ref, fuel: nat)
    requires fuel > 0 && ValidRef(c.st.store, r)
    requires var d := Resolve(c.st.store, r); d.encode == EncodeMap && |d.fieldTypes| >= 2
    requires MapEntries(c.h, p).Some?
    requires var m := MapEntries(c.h, p).value; Enumerates(c.order(m), m)
    requires var d := Resolve(c.st.store, r);
      var m := MapEntries(c.h, p).value;
      var keys := c.order(m);
      forall k :: 0 <= k < |keys| ==>
        Enc(c, d.fieldTypes[0], Some(keys[k]), fuel - 1).err.None?
        && Enc(c, d.fieldTypes[1], Some(m[keys[k]]), fuel - 1).err.None?
    ensures var d := Resolve(c.st.store, r);
      var m := MapEntries(c.h, p).value;
      Enc(c, r, Some(MapV(p)), fuel)
        == Written([MapOpen(d.tipe)] + Concat(EntryParts(c, d.fieldTypes[0], d.fieldTypes[1], m, c.order(m), 0, fuel - 1))
                   + [MapClose], None)
    ensures var d := Resolve(c.st.store, r);
      var m := MapEntries(c.h, p).value;
      var parts := EntryParts(c, d.fieldTypes[0], d.fieldTypes[1], m, c.order(m), 0, fuel - 1);
      && |parts| == |m|
      && forall k :: k in m ==>
           exists i :: 0 <= i < |parts| && c.order(m)[i] == k && parts[i] == EntryPart(c, d.fieldTypes[0], d.fieldTypes[1], m, k, fuel - 1)
  {
    var d := Resolve(c.st.store, r);
    var m := MapEntries(c.h, p).value;
    EntriesAllSucceed(c, d.fieldTypes[0], d.fieldTypes[1], m, c.order(m), 0, fuel - 1);
    EachEntryOnce(c, d.fieldTypes[0], d.fieldTypes[1], m, c.order(m), fuel - 1);
  }

  /** A nil map has no entries: it writes "<map:type>{}". */
  lemma NilMap(c: Ctx, r: DescRef, fuel: nat)
    requires fuel > 0 && ValidRef(c.st.store, r)
    requires var d := Resolve(c.st.store, r); d.encode == EncodeMap && |d.fieldTypes| >= 2
    ensures Enc(c, r, Some(MapV(Nil)), fuel) == Written([MapOpen(Resolve(c.st.store, r).tipe), MapClose], None)
  {
    var d := Resolve(c.st.store, r);
    NoEntries(c, d.fieldTypes[0], d.fieldTypes[1], c.order(map[]), 0, fuel - 1);
  }

  lemma {:induction false} NoEntries(c: Ctx, kr: DescRef, vr: DescRef, keys: seq<Value>, i: nat, fuel: nat)
    requires i <= |keys|
    ensures EncEntries(c, kr, vr, map[], keys, i, fuel) == Written([], None)
    decreases |keys| - i
  {
    if i < |keys| {
      NoEntries(c, kr, vr, keys, i + 1, fuel);
    }
  }

  // ---------------------------------------------------------------------
  // Encode

  /** Encode uses the descriptor it is given; without one, the registered
      descriptor of the value's type, else its kind's shared primitive
      descriptor, else it reports "not found" and writes nothing. */
  lemma EncodeResolution(c: Ctx, tipe: Option<DescRef>, obj: Dyn, fuel: nat)
    ensures tipe.Some? ==> EncodeSpec(c, tipe, obj, fuel) == Enc(c, tipe.value, Some(obj.v), fuel)
    ensures tipe.None? && obj.t in c.st.typeInfos ==>
      EncodeSpec(c, tipe, obj, fuel) == Enc(c, c.st.typeInfos[obj.t], Some(obj.v), fuel)
    ensures tipe.None? && obj.t !in c.st.typeInfos && IsPrimitiveKind(KindOf(obj.t)) ==>
      EncodeSpec(c, tipe, obj, fuel) == Enc(c, Shared(Code(KindOf(obj.t))), Some(obj.v), fuel)
    ensures tipe.None? && obj.t !in c.st.typeInfos && !IsPrimitiveKind(KindOf(obj.t)) ==>
      EncodeSpec(c, tipe, obj, fuel) == Fail(NotFound(obj.t))
  {
    var code := Code(KindOf(obj.t));
    assert Kinds[code] == KindOf(obj.t);
    assert Kinds[0] == Invalid;
  }

  // ---------------------------------------------------------------------
  // Taking the address of a value that has none

  /**
   * norefEncodeInterface as written: the held value it passes on comes out
   * of an interface, so it is not addressable and UnsafeAddr panics
   * whenever the dynamic type is registered.
   */
  function EncIfaceAsWritten(c: Ctx, d: Desc, slot: Option<Value>, fuel: nat): Written
    requires fuel > 0
  {
    match slot
    case None => Fail(Crashed(ZeroValueCall))
    case Some(v) =>
      if !v.IfaceV? then Fail(IllFormed)
      else if v.held.None? then Fail(Crashed(ZeroValueCall))
      else
        var t, x := v.held.value.t, v.held.value.v;
        if x == Zero(t) then Nothing
        else if t !in c.st.typeInfos then Fail(NotFound(t))
        else Fail(Crashed(Unaddressable))
  }

  /** As written, no non-zero value of a registered type is ever encoded
      through an interface; the model passes the held value on instead. */
  lemma IfaceAsWrittenPanics(c: Ctx, d: Desc, t: GoType, x: Value, fuel: nat)
    requires fuel > 0 && x != Zero(t) && t in c.st.typeInfos
    ensures EncIfaceAsWritten(c, d, Some(IfaceV(Some(Dyn(t, x)))), fuel) == Fail(Crashed(Unaddressable))
    ensures EncIface(c, d, Some(IfaceV(Some(Dyn(t, x)))), fuel) == Enc(c, c.st.typeInfos[t], Some(x), fuel - 1)
  {
  }

  /** A struct with one int field A, an interface type, and a codec that
      has registered both. */
  const ExampleStruct: GoType :=
    StructOf("example", "Point", [Field("A", true, "", "", P(Int), 0)])

  const ExampleIface: GoType := Iface("example", "Shape")

  function ExampleRegistry(): Registry {
    Registry([StructDesc(ExampleStruct, "", [Shared(Code(Int))]), InterfaceDesc(ExampleIface, "")],
             map[ExampleStruct := Own(0), ExampleIface := Own(1)], map[])
  }

  function ExampleCtx(): Ctx {
    Ctx(ExampleRegistry(), [], (m: map<Value, Value>) => [])
  }

  /** A Shape holding Point{A: 1}: as written the interface encoder panics;
      the model writes the struct, its field and the field's value. */
  lemma IfaceExample()
    ensures var held := Some(IfaceV(Some(Dyn(ExampleStruct, StructV([PrimV(IntVal(1))])))));
      && EncIfaceAsWritten(ExampleCtx(), InterfaceDesc(ExampleIface, ""), held, 3) == Fail(Crashed(Unaddressable))
      && Enc(ExampleCtx(), Own(1), held, 3)
         == Written([StructOpen(ExampleStruct), FieldOpen("A", 0), PrimTok(P(Int), IntVal(1)), FieldClose], None)
  {
    var c := ExampleCtx();
    var x := StructV([PrimV(IntVal(1))]);
    assert Zero(ExampleStruct) == StructV([PrimV(IntVal(0))]);
    assert x != Zero(ExampleStruct);
    var d := Resolve(c.st.store, Own(0));
    assert d.fieldNames == ["A"] && d.fieldOffsets == [0] && d.fieldTypes == [Shared(Code(Int))];
    PrimitiveEncoding(c, Int, Some(PrimV(IntVal(1))), 1);
    assert EncFields(c, d, Some([PrimV(IntVal(1))]), 1, 1) == Nothing;
    assert EncFields(c, d, Some([PrimV(IntVal(1))]), 0, 1)
        == Written([FieldOpen("A", 0), PrimTok(P(Int), IntVal(1)), FieldClose], None);
  }

  /**
   * norefEncodeMap as written: the keys and values MapRange yields are
   * copies, not addressable, so UnsafeAddr panics on the first entry, after
   * "<map:type>{" has been written.
   */
  function EncEntriesAsWritten(m: map<Value, Value>, keys: seq<Value>, i: nat): Written
    requires i <= |keys|
    decreases |keys| - i
  {
    if i == |keys| then Nothing
    else if keys[i] !in m then EncEntriesAsWritten(m, keys, i + 1)
    else Fail(Crashed(Unaddressable))
  }

  function EncMapAsWritten(c: Ctx, d: Desc, slot: Option<Value>): Written {
    Prepend([MapOpen(d.tipe)],
      match slot
      case None => Fail(Crashed(ZeroValueCall))
      case Some(v) =>
        if !v.MapV? || |d.fieldTypes| < 2 then Fail(IllFormed)
        else
          match MapEntries(c.h, v.m)
          case None => Fail(IllFormed)
          case Some(m) => Then(EncEntriesAsWritten(m, c.order(m), 0), Written([MapClose], None)))
  }

  /** As written, a map that has an entry in its visiting order panics
      right after its opening is written. */
  lemma {:induction false} EntriesAsWrittenPanic(m: map<Value, Value>, keys: seq<Value>, i: nat, j: nat)
    requires i <= j < |keys| && keys[j] in m
    ensures EncEntriesAsWritten(m, keys, i) == Fail(Crashed(Unaddressable))
    decreases j - i
  {
    if i < j && keys[i] !in m {
      EntriesAsWrittenPanic(m, keys, i + 1, j);
    }
  }

  /** The map {1: 2} of ints: as written the encoder panics after
      "<map:map[int]int>{"; the model writes "1:2," and closes the map. */
  lemma MapExample()
    ensures var mt := MapOf(P(Int), P(Int));
      var d := GenMapType(Shared(Code(Int)), PrimDesc(P(Int)), Shared(Code(Int)), PrimDesc(P(Int)));
      var m := map[PrimV(IntVal(1)) := PrimV(IntVal(2))];
      var c := Ctx(Registry([d], map[], map[]), [MapObj(m)], (_: map<Value, Value>) => [PrimV(IntVal(1))]);
      && EncMapAsWritten(c, d, Some(MapV(At(0)))) == Written([MapOpen(mt)], Some(Crashed(Unaddressable)))
      && Enc(c, Own(0), Some(MapV(At(0))), 2)
         == Written([MapOpen(mt), PrimTok(P(Int), IntVal(1)), MapColon, PrimTok(P(Int), IntVal(2)),
                     MapComma, MapClose], None)
  {
    var d := GenMapType(Shared(Code(Int)), PrimDesc(P(Int)), Shared(Code(Int)), PrimDesc(P(Int)));
    var m := map[PrimV(IntVal(1)) := PrimV(IntVal(2))];
    var c := Ctx(Registry([d], map[], map[]), [MapObj(m)], (_: map<Value, Value>) => [PrimV(IntVal(1))]);
    var keys := c.order(m);
    assert keys == [PrimV(IntVal(1))];
    EntriesAsWrittenPanic(m, keys, 0, 0);
    PrimitiveEncoding(c, Int, Some(PrimV(IntVal(1))), 1);
    PrimitiveEncoding(c, Int, Some(PrimV(IntVal(2))), 1);
    assert EncEntries(c, Shared(Code(Int)), Shared(Code(Int)), m, keys, 1, 1) == Nothing;
  }
}
