/**
 * What the deep copy engine promises, proved about its specification
 * functions in module DeepCopy.
 */
module DeepCopyProps {
  import opened Wrappers
  import opened GoTypes
  import opened DeepCopy

  const NoHooks := TypeHooks(None, None, None)

  /** The memory the element loop, started at index i in memory h, is in
      when it reaches index j: elements i to j - 1 have been deepCopy'd in
      order, each in the memory the previous one left. */
  function ElemsHeap(h: Heap, hooks: Hooks, e: GoType, src: seq<Value>, i: nat, j: nat,
                     addressable: bool, fuel: nat): Heap
    requires i <= j <= |src|
    decreases j - i
  {
    if j == i then h
    else ElemsHeap(Copy(h, hooks, e, src[i], addressable, fuel).heap, hooks, e, src, i + 1, j, addressable, fuel)
  }

  /** The same for the field loop, which passes over unexported fields. */
  function FieldsHeap(h: Heap, hooks: Hooks, fs: seq<Field>, src: seq<Value>, i: nat, j: nat,
                      addressable: bool, fuel: nat): Heap
    requires i <= j <= |fs| && |src| == |fs|
    decreases j - i
  {
    if j == i then h
    else if !IsExported(fs[i]) then FieldsHeap(h, hooks, fs, src, i + 1, j, addressable, fuel)
    else FieldsHeap(Copy(h, hooks, fs[i].ftype, src[i], addressable, fuel).heap, hooks, fs, src, i + 1, j, addressable, fuel)
  }

  /** The resolution order of deepCopy: typed nil first, then the DeepCopy
      hook, then the Marshal/Unmarshal pair, and the structural copy only
      when neither hook applies. */
  lemma ResolutionOrder(h: Heap, hooks: Hooks, t: GoType, v: Value, addressable: bool, fuel: nat)
    requires fuel > 0
    ensures var o := Copy(h, hooks, t, v, addressable, fuel);
      && (IsTypedNil(v) ==> o == Out(h, Ok(Zero(t))))
      && (!IsTypedNil(v) && DeepCopyHookPlan(hooks.of(t), t) == SetDirect ==>
            o == Out(h, Ok(hooks.callDeepCopy(t, v))))
      && (!IsTypedNil(v) && DeepCopyHookPlan(hooks.of(t), t) == AllocThenSet ==>
            o == Out(h + [Cell(hooks.callDeepCopy(t, v))], Ok(PtrV(At(|h|)))))
      && (!IsTypedNil(v) && DeepCopyHookPlan(hooks.of(t), t) == NoCopyHook
            && t.PtrTo? && CanAminoCopy(hooks.of(t)) ==>
            o == Out(h + [Cell(hooks.callUnmarshal(t, hooks.callMarshal(t, v)))], Ok(PtrV(At(|h|)))))
      && (!IsTypedNil(v) && DeepCopyHookPlan(hooks.of(t), t) == NoCopyHook
            && !t.PtrTo? && addressable && CanAminoCopy(hooks.of(PtrTo(t))) ==>
            o == Out(h, Ok(hooks.callUnmarshal(PtrTo(t), hooks.callMarshal(PtrTo(t), v)))))
      && (!IsTypedNil(v) && DeepCopyHookPlan(hooks.of(t), t) == NoCopyHook
            && AminoReceiver(hooks, t, addressable) == NoAmino ==>
            o == Structural(h, hooks, t, v, addressable, fuel))
  {
  }

  /** A type with both a usable DeepCopy() and a usable Marshal/Unmarshal
      pair is copied by the DeepCopy hook. */
  lemma DeepCopyHookWins(h: Heap, hooks: Hooks, t: GoType, v: Value, addressable: bool, fuel: nat)
    requires fuel > 0 && !IsTypedNil(v)
    requires DeepCopyHookPlan(hooks.of(t), t) == SetDirect
    requires CanAminoCopy(hooks.of(t)) && CanAminoCopy(hooks.of(PtrTo(t)))
    ensures Copy(h, hooks, t, v, addressable, fuel).res == Ok(hooks.callDeepCopy(t, v))
  {
  }

  /** Pointer: the destination points to a freshly allocated cell, never the
      source's, holding the _deepCopy of the pointee (so no hook of the
      pointee's type is consulted for it). */
  lemma PointerCopyIsFresh(h: Heap, hooks: Hooks, e: GoType, a: nat, addressable: bool, fuel: nat)
    requires fuel > 0 && a < |h| && h[a].Cell?
    ensures var o := Structural(h, hooks, PtrTo(e), PtrV(At(a)), addressable, fuel);
      var inner := Structural(h + [Cell(Zero(e))], hooks, e, h[a].v, true, fuel - 1);
      && (o.res.Ok? <==> inner.res.Ok?)
      && (o.res.Ok? ==>
            && o.res.value == PtrV(At(|h|)) && |h| != a
            && |h| < |o.heap| && o.heap[|h|] == Cell(inner.res.value))
  {
  }

  /** A nil pointer reached through a pointer is not caught by the typed-nil
      check (that check belongs to deepCopy, and pointees go to _deepCopy):
      its pointee is the invalid value, an unsupported kind. */
  lemma PointerToNilPointerFails(h: Heap, hooks: Hooks, e: GoType, a: nat, addressable: bool, fuel: nat)
    requires fuel > 1 && a < |h| && h[a] == Cell(PtrV(Nil))
    ensures Structural(h, hooks, PtrTo(PtrTo(e)), PtrV(At(a)), addressable, fuel).res == Err(Unsupported(Invalid))
  {
    assert Deref(h, At(a)) == Some(PtrV(Nil));
    var h1 := h + [Cell(Zero(PtrTo(e)))];
    assert Structural(h1, hooks, PtrTo(e), PtrV(Nil), true, fuel - 1) == Out(h1, Err(Unsupported(Invalid)));
  }

  /** Array: elements of a bulk kind are copied by value (the destination
      equals the source and no memory is allocated). */
  lemma ArrayBulkCopy(h: Heap, hooks: Hooks, n: nat, e: GoType, v: Value, addressable: bool, fuel: nat)
    requires fuel > 0 && IsBulkCopyKind(KindOf(e)) && v.ArrayV? && |v.elems| == n
    ensures Structural(h, hooks, ArrayOf(n, e), v, addressable, fuel) == Out(h, Ok(v))
  {
  }

  /** One element on: past index i, the loop's memory is the one it reaches
      starting from the memory element i's copy leaves. */
  lemma ElemsHeapStep(h: Heap, hooks: Hooks, e: GoType, src: seq<Value>, i: nat, j: nat,
                      addressable: bool, fuel: nat)
    requires i < j <= |src|
    ensures ElemsHeap(h, hooks, e, src, i, j, addressable, fuel)
         == ElemsHeap(Copy(h, hooks, e, src[i], addressable, fuel).heap, hooks, e, src, i + 1, j, addressable, fuel)
  {
  }

  /** The element loop, when it completes: positions before i keep what dst
      holds, every later position holds what deepCopy writes for that source
      element in the memory the loop has reached there, and the memory is
      the one it reaches past the last element. */
  lemma {:induction false} CopyElemsElementwise(h: Heap, hooks: Hooks, e: GoType, src: seq<Value>, i: nat,
                                                dst: seq<Value>, addressable: bool, fuel: nat)
    requires i <= |src| && |dst| == |src|
    ensures var o := CopyElems(h, hooks, e, src, i, dst, addressable, fuel);
      o.res.Ok? ==>
        && o.heap == ElemsHeap(h, hooks, e, src, i, |src|, addressable, fuel)
        && (forall j :: 0 <= j < i ==> o.res.value[j] == dst[j])
        && (forall j :: i <= j < |src| ==>
              Copy(ElemsHeap(h, hooks, e, src, i, j, addressable, fuel), hooks, e, src[j], addressable, fuel).res
                == Ok(o.res.value[j]))
    decreases |src| - i
  {
    if i < |src| {
      var c := Copy(h, hooks, e, src[i], addressable, fuel);
      if c.res.Ok? {
        var dst' := dst[i := c.res.value];
        CopyElemsElementwise(c.heap, hooks, e, src, i + 1, dst', addressable, fuel);
        forall j | i + 1 <= j <= |src|
          ensures ElemsHeap(h, hooks, e, src, i, j, addressable, fuel)
               == ElemsHeap(c.heap, hooks, e, src, i + 1, j, addressable, fuel)
        {
          ElemsHeapStep(h, hooks, e, src, i, j, addressable, fuel);
        }
        assert ElemsHeap(h, hooks, e, src, i, i, addressable, fuel) == h;
        assert CopyElems(h, hooks, e, src, i, dst, addressable, fuel)
            == CopyElems(c.heap, hooks, e, src, i + 1, dst', addressable, fuel);
      }
    }
  }

  /** Element j is where the element loop started at i fails with err: the
      copy of every element from i to j - 1 succeeds, each in the memory the
      previous one left, and the copy of element j fails with err. */
  ghost predicate ElemFailsFirstAt(h: Heap, hooks: Hooks, e: GoType, src: seq<Value>, i: nat, j: nat,
                                   addressable: bool, fuel: nat, err: CopyError)
    requires i <= |src|
  {
    && i <= j < |src|
    && (forall k :: i <= k < j ==>
          Copy(ElemsHeap(h, hooks, e, src, i, k, addressable, fuel), hooks, e, src[k], addressable, fuel).res.Ok?)
    && Copy(ElemsHeap(h, hooks, e, src, i, j, addressable, fuel), hooks, e, src[j], addressable, fuel).res == Err(err)
  }

  /** A first failure of the loop started one element later, after a
      successful copy of element i, is a first failure of the loop from i. */
  lemma ElemFailsFirstShift(h: Heap, hooks: Hooks, e: GoType, src: seq<Value>, i: nat, j: nat,
                            addressable: bool, fuel: nat, err: CopyError)
    requires i < |src| && Copy(h, hooks, e, src[i], addressable, fuel).res.Ok?
    requires ElemFailsFirstAt(Copy(h, hooks, e, src[i], addressable, fuel).heap, hooks, e, src, i + 1, j, addressable, fuel, err)
    ensures ElemFailsFirstAt(h, hooks, e, src, i, j, addressable, fuel, err)
  {
    var h' := Copy(h, hooks, e, src[i], addressable, fuel).heap;
    forall k | i + 1 <= k <= j
      ensures ElemsHeap(h, hooks, e, src, i, k, addressable, fuel) == ElemsHeap(h', hooks, e, src, i + 1, k, addressable, fuel)
    {
      ElemsHeapStep(h, hooks, e, src, i, k, addressable, fuel);
    }
    assert ElemsHeap(h, hooks, e, src, i, i, addressable, fuel) == h;
  }

  /** The element loop, when it fails: it fails with the error of the first
      element whose copy fails, every element before it having been copied. */
  lemma {:induction false} CopyElemsFirstFailure(h: Heap, hooks: Hooks, e: GoType, src: seq<Value>, i: nat,
                                                 dst: seq<Value>, addressable: bool, fuel: nat)
    requires i <= |src| && |dst| == |src|
    ensures var o := CopyElems(h, hooks, e, src, i, dst, addressable, fuel);
      o.res.Err? ==> exists j :: ElemFailsFirstAt(h, hooks, e, src, i, j, addressable, fuel, o.res.error)
    decreases |src| - i
  {
    if i < |src| {
      var c := Copy(h, hooks, e, src[i], addressable, fuel);
      if c.res.Err? {
        assert ElemsHeap(h, hooks, e, src, i, i, addressable, fuel) == h;
        assert ElemFailsFirstAt(h, hooks, e, src, i, i, addressable, fuel, c.res.error);
      } else {
        var dst' := dst[i := c.res.value];
        var o := CopyElems(c.heap, hooks, e, src, i + 1, dst', addressable, fuel);
        assert CopyElems(h, hooks, e, src, i, dst, addressable, fuel) == o;
        if o.res.Err? {
          CopyElemsFirstFailure(c.heap, hooks, e, src, i + 1, dst', addressable, fuel);
          var j :| ElemFailsFirstAt(c.heap, hooks, e, src, i + 1, j, addressable, fuel, o.res.error);
          ElemFailsFirstShift(h, hooks, e, src, i, j, addressable, fuel, o.res.error);
        }
      }
    }
  }

  /** Array of a non-bulk kind: n elements, element j being what deepCopy
      writes for source element j in the memory the loop has reached there,
      and the memory the one the loop reaches past the last element. */
  lemma ArrayElementwiseCopy(h: Heap, hooks: Hooks, n: nat, e: GoType, v: Value, addressable: bool, fuel: nat)
    requires !IsBulkCopyKind(KindOf(e)) && v.ArrayV? && |v.elems| == n
    ensures var o := Structural(h, hooks, ArrayOf(n, e), v, addressable, fuel + 1);
      o.res.Ok? ==>
        && o.res.value.ArrayV? && |o.res.value.elems| == n
        && o.heap == ElemsHeap(h, hooks, e, v.elems, 0, n, addressable, fuel)
        && forall j :: 0 <= j < n ==>
             Copy(ElemsHeap(h, hooks, e, v.elems, 0, j, addressable, fuel), hooks, e, v.elems[j], addressable, fuel).res
               == Ok(o.res.value.elems[j])
    ensures var o := Structural(h, hooks, ArrayOf(n, e), v, addressable, fuel + 1);
      o.res.Err? ==> exists j :: ElemFailsFirstAt(h, hooks, e, v.elems, 0, j, addressable, fuel, o.res.error)
  {
    CopyElemsElementwise(h, hooks, e, v.elems, 0, seq(n, _ => Zero(e)), addressable, fuel);
    CopyElemsFirstFailure(h, hooks, e, v.elems, 0, seq(n, _ => Zero(e)), addressable, fuel);
  }

  /** Slice: whatever happens to the scratch copy, the destination is the
      source slice itself, sharing its backing array. */
  lemma SliceCopyAliases(h: Heap, hooks: Hooks, e: GoType, v: Value, addressable: bool, fuel: nat)
    ensures var o := Structural(h, hooks, SliceOf(e), v, addressable, fuel);
      o.res.Ok? ==> o.res.value == v && |h| < |o.heap|
  {
  }

  /** The same seen from deepCopy: a non-nil slice of a type without hooks is
      "copied" into a destination that aliases it. */
  lemma DeepCopyOfSliceAliases(h: Heap, hooks: Hooks, e: GoType, a: nat, len: nat, addressable: bool, fuel: nat)
    requires fuel > 1 && hooks.of(SliceOf(e)) == NoHooks && hooks.of(PtrTo(SliceOf(e))) == NoHooks
    ensures var o := Copy(h, hooks, SliceOf(e), SliceV(At(a), len), addressable, fuel);
      o.res.Ok? ==> o.res.value == SliceV(At(a), len)
  {
    SliceCopyAliases(h, hooks, e, SliceV(At(a), len), addressable, fuel);
  }

  /** Map: a new map at a fresh address with exactly the source's keys, each
      mapped to the source's value itself (no recursion into keys or values). */
  lemma MapCopyIsShallow(h: Heap, hooks: Hooks, k: GoType, e: GoType, v: Value, addressable: bool, fuel: nat)
    requires fuel > 0 && v.MapV? && MapEntries(h, v.m).Some?
    ensures var o := Structural(h, hooks, MapOf(k, e), v, addressable, fuel);
      var src := MapEntries(h, v.m).value;
      && o.res == Ok(MapV(At(|h|)))
      && |o.heap| == |h| + 1 && o.heap[|h|].MapObj?
      && o.heap[|h|].entries.Keys == src.Keys
      && forall key :: key in src ==> o.heap[|h|].entries[key] == src[key]
  {
  }

  /** A pointer stored as a map value is shared by source and copy: the
      copy's entry holds the very pointer the source's entry holds, so a
      write through one reaches the pointee the other sees. */
  lemma MapCopySharesPointees(h: Heap, hooks: Hooks, k: GoType, e: GoType, m: nat, key: Value, p: nat,
                              addressable: bool, fuel: nat)
    requires fuel > 0 && m < |h| && h[m].MapObj? && key in h[m].entries && h[m].entries[key] == PtrV(At(p))
    ensures var o := Structural(h, hooks, MapOf(k, e), MapV(At(m)), addressable, fuel);
      o.res.Ok? && MapEntries(o.heap, o.res.value.m).Some? && MapEntries(o.heap, o.res.value.m).value[key] == PtrV(At(p))
  {
    MapCopyIsShallow(h, hooks, k, e, MapV(At(m)), addressable, fuel);
  }

  /** A nil map reached through a pointer (so past the typed-nil check)
      becomes a new, empty, non-nil map. */
  lemma NilMapBecomesEmpty(h: Heap, hooks: Hooks, k: GoType, e: GoType, addressable: bool, fuel: nat)
    requires fuel > 0
    ensures Structural(h, hooks, MapOf(k, e), MapV(Nil), addressable, fuel) == Out(h + [MapObj(map[])], Ok(MapV(At(|h|))))
  {
  }

  /** One field on: past field i, the loop's memory is the one it reaches
      starting from the memory field i's copy leaves (the same memory for an
      unexported field, which is not copied). */
  lemma FieldsHeapStep(h: Heap, hooks: Hooks, fs: seq<Field>, src: seq<Value>, i: nat, j: nat,
                       addressable: bool, fuel: nat)
    requires i < j <= |fs| && |src| == |fs|
    ensures !IsExported(fs[i]) ==>
      FieldsHeap(h, hooks, fs, src, i, j, addressable, fuel) == FieldsHeap(h, hooks, fs, src, i + 1, j, addressable, fuel)
    ensures IsExported(fs[i]) ==>
      FieldsHeap(h, hooks, fs, src, i, j, addressable, fuel)
        == FieldsHeap(Copy(h, hooks, fs[i].ftype, src[i], addressable, fuel).heap, hooks, fs, src, i + 1, j, addressable, fuel)
  {
  }

  /** The field loop, when it completes: unexported fields and fields before
      i keep the destination's value, every exported field from i on holds
      what deepCopy writes for the source's field in the memory the loop has
      reached there, and the memory is the one it reaches past the last
      field. */
  lemma {:induction false} CopyFieldsFieldwise(h: Heap, hooks: Hooks, fs: seq<Field>, src: seq<Value>, i: nat,
                                               dst: seq<Value>, addressable: bool, fuel: nat)
    requires i <= |fs| && |src| == |fs| && |dst| == |fs|
    ensures var o := CopyFields(h, hooks, fs, src, i, dst, addressable, fuel);
      o.res.Ok? ==>
        && o.heap == FieldsHeap(h, hooks, fs, src, i, |fs|, addressable, fuel)
        && (forall j :: 0 <= j < |fs| && (j < i || !IsExported(fs[j])) ==> o.res.value[j] == dst[j])
        && (forall j :: i <= j < |fs| && IsExported(fs[j]) ==>
              Copy(FieldsHeap(h, hooks, fs, src, i, j, addressable, fuel), hooks, fs[j].ftype, src[j], addressable, fuel).res
                == Ok(o.res.value[j]))
    decreases |fs| - i
  {
    if i < |fs| {
      assert FieldsHeap(h, hooks, fs, src, i, i, addressable, fuel) == h;
      var c := Copy(h, hooks, fs[i].ftype, src[i], addressable, fuel);
      var h' := if IsExported(fs[i]) then c.heap else h;
      var dst' := if IsExported(fs[i]) && c.res.Ok? then dst[i := c.res.value] else dst;
      if !IsExported(fs[i]) || c.res.Ok? {
        CopyFieldsFieldwise(h', hooks, fs, src, i + 1, dst', addressable, fuel);
        forall j | i + 1 <= j <= |fs|
          ensures FieldsHeap(h, hooks, fs, src, i, j, addressable, fuel)
               == FieldsHeap(h', hooks, fs, src, i + 1, j, addressable, fuel)
        {
          FieldsHeapStep(h, hooks, fs, src, i, j, addressable, fuel);
        }
        assert CopyFields(h, hooks, fs, src, i, dst, addressable, fuel)
            == CopyFields(h', hooks, fs, src, i + 1, dst', addressable, fuel);
      }
    }
  }

  /** Field j is where the field loop started at i fails with err: it is
      exported, the copy of every exported field from i to j - 1 succeeds,
      each in the memory the previous one left, and the copy of field j
      fails with err. */
  ghost predicate FieldFailsFirstAt(h: Heap, hooks: Hooks, fs: seq<Field>, src: seq<Value>, i: nat, j: nat,
                                    addressable: bool, fuel: nat, err: CopyError)
    requires i <= |fs| && |src| == |fs|
  {
    && i <= j < |fs| && IsExported(fs[j])
    && (forall k :: i <= k < j && IsExported(fs[k]) ==>
          Copy(FieldsHeap(h, hooks, fs, src, i, k, addressable, fuel), hooks, fs[k].ftype, src[k], addressable, fuel).res.Ok?)
    && Copy(FieldsHeap(h, hooks, fs, src, i, j, addressable, fuel), hooks, fs[j].ftype, src[j], addressable, fuel).res
         == Err(err)
  }

  /** A first failure of the loop started one field later, after field i was
      skipped or copied successfully, is a first failure of the loop from i. */
  lemma FieldFailsFirstShift(h: Heap, hooks: Hooks, fs: seq<Field>, src: seq<Value>, i: nat, j: nat,
                             addressable: bool, fuel: nat, err: CopyError)
    requires i < |fs| && |src| == |fs|
    requires IsExported(fs[i]) ==> Copy(h, hooks, fs[i].ftype, src[i], addressable, fuel).res.Ok?
    requires var h' := if IsExported(fs[i]) then Copy(h, hooks, fs[i].ftype, src[i], addressable, fuel).heap else h;
      FieldFailsFirstAt(h', hooks, fs, src, i + 1, j, addressable, fuel, err)
    ensures FieldFailsFirstAt(h, hooks, fs, src, i, j, addressable, fuel, err)
  {
    var h' := if IsExported(fs[i]) then Copy(h, hooks, fs[i].ftype, src[i], addressable, fuel).heap else h;
    forall k | i + 1 <= k <= j
      ensures FieldsHeap(h, hooks, fs, src, i, k, addressable, fuel) == FieldsHeap(h', hooks, fs, src, i + 1, k, addressable, fuel)
    {
      FieldsHeapStep(h, hooks, fs, src, i, k, addressable, fuel);
    }
    assert FieldsHeap(h, hooks, fs, src, i, i, addressable, fuel) == h;
  }

  /** The field loop, when it fails: it fails with the error of the first
      exported field whose copy fails, every exported field before it
      having been copied. */
  lemma {:induction false} CopyFieldsFirstFailure(h: Heap, hooks: Hooks, fs: seq<Field>, src: seq<Value>, i: nat,
                                                  dst: seq<Value>, addressable: bool, fuel: nat)
    requires i <= |fs| && |src| == |fs| && |dst| == |fs|
    ensures var o := CopyFields(h, hooks, fs, src, i, dst, addressable, fuel);
      o.res.Err? ==> exists j :: FieldFailsFirstAt(h, hooks, fs, src, i, j, addressable, fuel, o.res.error)
    decreases |fs| - i
  {
    if i < |fs| {
      var c := Copy(h, hooks, fs[i].ftype, src[i], addressable, fuel);
      if IsExported(fs[i]) && c.res.Err? {
        assert FieldsHeap(h, hooks, fs, src, i, i, addressable, fuel) == h;
        assert FieldFailsFirstAt(h, hooks, fs, src, i, i, addressable, fuel, c.res.error);
      } else {
        var h' := if IsExported(fs[i]) then c.heap else h;
        var dst' := if IsExported(fs[i]) then dst[i := c.res.value] else dst;
        var o := CopyFields(h', hooks, fs, src, i + 1, dst', addressable, fuel);
        assert CopyFields(h, hooks, fs, src, i, dst, addressable, fuel) == o;
        if o.res.Err? {
          CopyFieldsFirstFailure(h', hooks, fs, src, i + 1, dst', addressable, fuel);
          var j :| FieldFailsFirstAt(h', hooks, fs, src, i + 1, j, addressable, fuel, o.res.error);
          FieldFailsFirstShift(h, hooks, fs, src, i, j, addressable, fuel, o.res.error);
        }
      }
    }
  }

  /** Struct: unexported fields of the destination stay zero, and each
      exported one holds what deepCopy writes for the source's field in the
      memory the field loop has reached there, in declaration order. */
  lemma StructCopyFields(h: Heap, hooks: Hooks, t: GoType, v: Value, addressable: bool, fuel: nat)
    requires t.StructOf? && !IsTimeType(t) && v.StructV? && |v.fields| == |t.fields|
    ensures var o := Structural(h, hooks, t, v, addressable, fuel + 1);
      o.res.Ok? ==>
        && o.res.value.StructV? && |o.res.value.fields| == |t.fields|
        && o.heap == FieldsHeap(h, hooks, t.fields, v.fields, 0, |t.fields|, addressable, fuel)
        && (forall j :: 0 <= j < |t.fields| && !IsExported(t.fields[j]) ==>
              o.res.value.fields[j] == Zero(t.fields[j].ftype))
        && (forall j :: 0 <= j < |t.fields| && IsExported(t.fields[j]) ==>
              Copy(FieldsHeap(h, hooks, t.fields, v.fields, 0, j, addressable, fuel), hooks,
                   t.fields[j].ftype, v.fields[j], addressable, fuel).res
                == Ok(o.res.value.fields[j]))
    ensures var o := Structural(h, hooks, t, v, addressable, fuel + 1);
      o.res.Err? ==> exists j :: FieldFailsFirstAt(h, hooks, t.fields, v.fields, 0, j, addressable, fuel, o.res.error)
  {
    CopyFieldsFieldwise(h, hooks, t.fields, v.fields, 0, FieldZeros(t.fields), addressable, fuel);
    CopyFieldsFirstFailure(h, hooks, t.fields, v.fields, 0, FieldZeros(t.fields), addressable, fuel);
  }

  /** The time type is copied whole, by value. */
  lemma TimeCopiedWhole(h: Heap, hooks: Hooks, t: GoType, v: Value, addressable: bool, fuel: nat)
    requires fuel > 0 && IsTimeType(t) && v.StructV? && |v.fields| == |t.fields|
    ensures Structural(h, hooks, t, v, addressable, fuel) == Out(h, Ok(v))
  {
  }

  /** Integer, unsigned, bool, float and string values are copied by value;
      every other kind without a hook fails as unsupported. */
  lemma ScalarKinds(h: Heap, hooks: Hooks, t: GoType, v: Value, addressable: bool, fuel: nat)
    requires fuel > 0
    ensures t.Prim? && IsBulkCopyKind(t.kind) && v.PrimV? ==>
      Structural(h, hooks, t, v, addressable, fuel) == Out(h, Ok(v))
    ensures t.Prim? && !IsBulkCopyKind(t.kind) ==>
      Structural(h, hooks, t, v, addressable, fuel) == Out(h, Err(Unsupported(t.kind)))
    ensures t.ChanOf? ==> Structural(h, hooks, t, v, addressable, fuel).res == Err(Unsupported(Chan))
    ensures t.FuncOf? ==> Structural(h, hooks, t, v, addressable, fuel).res == Err(Unsupported(Func))
  {
  }

  /** A uintptr, a complex number and an unsafe pointer reach the default
      case of _deepCopy and panic as unsupported. */
  lemma UnsupportedLeafKinds(h: Heap, hooks: Hooks, pkg: string, name: string, v: Value, addressable: bool, fuel: nat)
    requires fuel > 0
    ensures Structural(h, hooks, Prim(Uintptr, pkg, name), v, addressable, fuel) == Out(h, Err(Unsupported(Uintptr)))
    ensures Structural(h, hooks, Prim(Complex64, pkg, name), v, addressable, fuel) == Out(h, Err(Unsupported(Complex64)))
    ensures Structural(h, hooks, Prim(Complex128, pkg, name), v, addressable, fuel) == Out(h, Err(Unsupported(Complex128)))
    ensures Structural(h, hooks, Prim(UnsafePointer, pkg, name), v, addressable, fuel)
         == Out(h, Err(Unsupported(UnsafePointer)))
  {
  }

  /** Independence: no object that existed before a copy is changed by it,
      so writes into the copy's own new objects never reach the source. */
  lemma CopyLeavesSourceMemory(h: Heap, hooks: Hooks, o: Option<Dyn>, fuel: nat, a: nat)
    requires a < |h|
    ensures var r := DeepCopyOf(h, hooks, o, fuel);
      a < |r.heap| && r.heap[a] == h[a]
  {
  }

  /** End to end: a Point{X: 1, Y: 2} of two int32 fields, with no hooks,
      is copied into a fresh destination holding Point{1, 2}. */
  lemma PointCopy(h: Heap, hooks: Hooks, fuel: nat)
    requires fuel >= 2
    requires hooks.of(Point) == NoHooks && hooks.of(Int32T) == NoHooks
    ensures DeepCopyOf(h, hooks, Some(Dyn(Point, PointValue)), fuel)
         == TopOut(h + [Cell(PointValue)], Ok(Some(Dyn(Point, PointValue))))
  {
    var fs := Point.fields;
    assert Copy(h + [Cell(Zero(Point))], hooks, Point, PointValue, false, fuel)
        == Structural(h + [Cell(Zero(Point))], hooks, Point, PointValue, false, fuel);
    var h1 := h + [Cell(Zero(Point))];
    ScalarCopy(h1, hooks, IntVal(1), fuel - 1);
    ScalarCopy(h1, hooks, IntVal(2), fuel - 1);
    var z := FieldZeros(fs);
    var z1 := z[0 := PrimV(IntVal(1))];
    var z2 := z1[1 := PrimV(IntVal(2))];
    assert z2 == PointValue.fields;
    assert CopyFields(h1, hooks, fs, PointValue.fields, 1, z1, false, fuel - 1)
        == CopyFields(h1, hooks, fs, PointValue.fields, 2, z2, false, fuel - 1);
    assert CopyFields(h1, hooks, fs, PointValue.fields, 0, z, false, fuel - 1)
        == OutSeq(h1, Ok(PointValue.fields));
    assert StructCopy(h1, hooks, Point, PointValue, false, fuel) == Out(h1, Ok(PointValue));
    assert Structural(h1, hooks, Point, PointValue, false, fuel) == Out(h1, Ok(PointValue));
    assert h1[|h| := Cell(PointValue)] == h + [Cell(PointValue)];
  }

  lemma ScalarCopy(h: Heap, hooks: Hooks, x: Scalar, fuel: nat)
    requires fuel > 0 && hooks.of(Int32T) == NoHooks
    ensures Copy(h, hooks, Int32T, PrimV(x), false, fuel) == Out(h, Ok(PrimV(x)))
  {
    assert Copy(h, hooks, Int32T, PrimV(x), false, fuel) == Structural(h, hooks, Int32T, PrimV(x), false, fuel);
  }

  const Int32T := Prim(Int32, "", "")
  const Point := StructOf("example", "Point", [Field("X", true, "", "", Int32T, 0), Field("Y", true, "", "", Int32T, 4)])
  const PointValue := StructV([PrimV(IntVal(1)), PrimV(IntVal(2))])

  // ---------------------------------------------------------------------
  // The Interface case of _deepCopy

  /**
   * The Interface case as the source writes it: deepCopy(src.Elem(),
   * dst.Elem()), where dst is the destination's zero interface, so that
   * dst.Elem() is the invalid reflect.Value. On it callDeepCopy stops at
   * dst.Type() == otype and callAminoCopy at src.Type() != dst.Type(), both
   * of which panic on the invalid value; only a held value that is itself a
   * typed nil returns early, leaving the destination a nil interface. A nil
   * interface (reached through a pointer, since deepCopy's typed-nil check
   * stops it anywhere else) has the invalid reflect.Value as src.Elem() too,
   * so callDeepCopy's src.MethodByName panics on it.
   */
  function IfaceCopyAsWritten(v: Value): (r: Result<Value, CopyError>)
    ensures v.IfaceV? && v.held.None? ==> r == Err(ZeroSource)
    ensures v.IfaceV? && v.held.Some? && !IsTypedNil(v.held.value.v) ==> r == Err(ZeroDestination)
    ensures r.Ok? <==> v.IfaceV? && v.held.Some? && IsTypedNil(v.held.value.v)
    ensures r.Ok? ==> r.value == IfaceV(None)
  {
    if !v.IfaceV? then Err(IllTyped)
    else
      match v.held
      case None => Err(ZeroSource)
      case Some(d) => if IsTypedNil(d.v) then Ok(IfaceV(None)) else Err(ZeroDestination)
  }

  /** The discrepancy: neither an interface holding int 1 nor a nil
      interface can be copied as written, while the traversal the engine
      uses copies both. */
  lemma IfaceCopyAsWrittenFails(h: Heap, hooks: Hooks, fuel: nat)
    requires fuel > 1 && hooks.of(IntT) == NoHooks
    ensures IfaceCopyAsWritten(IfaceV(Some(Dyn(IntT, PrimV(IntVal(1)))))) == Err(ZeroDestination)
    ensures IfaceCopy(h, hooks, IfaceV(Some(Dyn(IntT, PrimV(IntVal(1))))), fuel)
         == Out(h, Ok(IfaceV(Some(Dyn(IntT, PrimV(IntVal(1)))))))
    ensures IfaceCopyAsWritten(IfaceV(None)) == Err(ZeroSource)
    ensures IfaceCopy(h, hooks, IfaceV(None), fuel) == Out(h, Ok(IfaceV(None)))
  {
    assert Copy(h, hooks, IntT, PrimV(IntVal(1)), false, fuel - 1) == Out(h, Ok(PrimV(IntVal(1))));
  }

  const IntT := Prim(Int, "", "")

  /** The intended behaviour: copying an interface keeps its dynamic type
      and stores deepCopy's copy of the held value; an empty interface stays
      empty. */
  lemma IfaceCopyKeepsDynamicType(h: Heap, hooks: Hooks, v: Value, fuel: nat)
    requires fuel > 1 && v.IfaceV?
    ensures var o := IfaceCopy(h, hooks, v, fuel);
      && (v.held.None? ==> o == Out(h, Ok(v)))
      && (v.held.Some? ==>
            var d := v.held.value;
            var c := Copy(h, hooks, d.t, d.v, false, fuel - 1);
            (o.res.Ok? <==> c.res.Ok?)
            && (o.res.Ok? ==> o.res.value == IfaceV(Some(Dyn(d.t, c.res.value))) && o.heap == c.heap))
    ensures v.held.Some? && IsTypedNil(v.held.value.v) ==>
      IfaceCopy(h, hooks, v, fuel) == Out(h, Ok(IfaceV(Some(Dyn(v.held.value.t, Zero(v.held.value.t))))))
  {
  }

  // ---------------------------------------------------------------------
  // The address path of callAminoCopy

  /**
   * callAminoCopy as the source writes it, from its type check on (the
   * check is called with the source's own type for both sides, so its
   * panic never fires); None when it returns false. Through a pointer it
   * allocates a pointee,
   * points the destination at it and unmarshals into it. Through the
   * source's address it first replaces src and dst by src.Addr() and
   * dst.Addr(); the value dst.Addr() returns is not settable, so the
   * dst.Set(cpy) that follows panics before either hook is called.
   */
  function AminoCopyAsWritten(h: Heap, hooks: Hooks, t: GoType, v: Value, addressable: bool): (r: Option<Out>)
    ensures r.None? <==> AminoReceiver(hooks, t, addressable) == NoAmino
    ensures r.Some? && r.value.res.Err? <==> !t.PtrTo? && addressable && CanAminoCopy(hooks.of(PtrTo(t)))
    ensures r.Some? && r.value.res.Err? ==> r.value == Out(h, Err(NotSettable))
    ensures r.Some? && r.value.res.Ok? ==> r.value.res == Ok(PtrV(At(|h|))) && |r.value.heap| == |h| + 1
  {
    match AminoCopyPlan(hooks, t, t, addressable)
    case Err(e) => Some(Out(h, Err(e)))
    case Ok(NoAmino) => None
    case Ok(ViaPointer(recv)) =>
      Some(Out(h + [Cell(hooks.callUnmarshal(recv, hooks.callMarshal(recv, v)))], Ok(PtrV(At(|h|)))))
    case Ok(ViaAddress(_)) => Some(Out(h, Err(NotSettable)))
  }

  const Coin := StructOf("example", "Coin", [])
  const CoinValue := StructV([])

  /**
   * The discrepancy: copying a []Coin{{}} whose *Coin has a usable
   * MarshalAmino/UnmarshalAmino pair (and Coin itself no hook). Slice
   * elements are addressable, so the element takes the address path, where
   * callAminoCopy as written panics; the copy the model makes instead
   * unmarshals the element into the scratch slice and, as for every slice,
   * leaves the destination aliasing the source.
   */
  lemma SliceOfAminoAsWritten(h: Heap, hooks: Hooks, a: nat, fuel: nat)
    requires fuel > 1 && a < |h| && h[a] == Backing([CoinValue])
    requires hooks.of(Coin) == NoHooks && CanAminoCopy(hooks.of(PtrTo(Coin)))
    ensures AminoReceiver(hooks, Coin, true) == ViaAddress(PtrTo(Coin))
    ensures AminoCopyAsWritten(h, hooks, Coin, CoinValue, true) == Some(Out(h, Err(NotSettable)))
    ensures var y := hooks.callUnmarshal(PtrTo(Coin), hooks.callMarshal(PtrTo(Coin), CoinValue));
      Structural(h, hooks, SliceOf(Coin), SliceV(At(a), 1), false, fuel)
        == Out(h + [Backing([y])], Ok(SliceV(At(a), 1)))
  {
    var y := hooks.callUnmarshal(PtrTo(Coin), hooks.callMarshal(PtrTo(Coin), CoinValue));
    assert [CoinValue][..1] == [CoinValue];
    assert Copy(h, hooks, Coin, CoinValue, true, fuel - 1) == Out(h, Ok(y));
    var z := seq(1, _ => Zero(Coin));
    assert z[0 := y] == [y];
    assert CopyElems(h, hooks, Coin, [CoinValue], 1, z[0 := y], true, fuel - 1) == OutSeq(h, Ok([y]));
    assert CopyElems(h, hooks, Coin, [CoinValue], 0, z, true, fuel - 1) == OutSeq(h, Ok([y]));
    assert SliceCopy(h, hooks, Coin, SliceV(At(a), 1), fuel) == Out(h + [Backing([y])], Ok(SliceV(At(a), 1)));
  }
}
