/**
 * What proto3 schema generation promises, proved about the specification
 * functions of module GenProto.
 */
module GenProtoProps {
  import opened Wrappers
  import opened GoTypes
  import opened GenProto

  /** The proto3 scalar of each Go scalar kind, written out as a table. */
  function ScalarOf(k: Kind): Option<P3Scalar> {
    match k
    case Bool => Some(P3Bool)
    case Int => Some(P3Int64)
    case Int8 => Some(P3Int32)
    case Int16 => Some(P3Int32)
    case Int32 => Some(P3Int32)
    case Int64 => Some(P3Int64)
    case Uint => Some(P3Uint64)
    case Uint8 => Some(P3Uint32)
    case Uint16 => Some(P3Uint32)
    case Uint32 => Some(P3Uint32)
    case Uint64 => Some(P3Uint64)
    case Float32 => Some(P3Float)
    case Float64 => Some(P3Double)
    case String => Some(P3String)
    case _ => None
  }

  /** The kind whose proto3 type is decided (the representation's). */
  function ReprKind(info: TypeInfo): Kind { KindOf(ReprOf(info).tipe) }

  /** The time and duration types are recognised by their own type before
      anything else, whatever their representation. */
  lemma TimeAndDurationFirst(info: TypeInfo)
    ensures IsTimeType(info.tipe) ==> TypeToP3(info) == Ok((Timestamp, false))
    ensures IsDurationType(info.tipe) ==> TypeToP3(info) == Ok((Duration, false))
  {
  }

  /** A scalar kind maps to the scalar of the table, not repeated. */
  lemma ScalarMapping(info: TypeInfo)
    requires !IsTimeType(info.tipe) && !IsDurationType(info.tipe)
    ensures ScalarOf(ReprKind(info)).Some? ==>
      TypeToP3(info) == Ok((Scalar(ScalarOf(ReprKind(info)).value), false))
  {
  }

  /** A scalar other than bytes that is not repeated comes only from the
      table entry of its kind. */
  lemma ScalarOnlyFromTable(info: TypeInfo, s: P3Scalar)
    requires s != P3Bytes && TypeToP3(info) == Ok((Scalar(s), false))
    ensures !IsTimeType(info.tipe) && !IsDurationType(info.tipe)
    ensures ScalarOf(ReprKind(info)) == Some(s)
  {
    TimeAndDurationFirst(info);
    if ReprKind(info) in {Array, Slice} && info.elem.Some? && KindOf(info.elem.value.tipe) != Uint8 {
      RepeatedField(info, Scalar(s));
    }
  }

  /** An array or slice of bytes is one bytes field. */
  lemma ByteListIsBytes(info: TypeInfo)
    requires !IsTimeType(info.tipe) && !IsDurationType(info.tipe)
    requires ReprKind(info) in {Array, Slice}
    requires info.elem.Some? && KindOf(info.elem.value.tipe) == Uint8
    ensures TypeToP3(info) == Ok((Scalar(P3Bytes), false))
  {
  }

  /** A field is repeated exactly when it is an array or slice of a non-byte
      element whose own type is not repeated, and then it has that type. */
  lemma RepeatedField(info: TypeInfo, t: P3Type)
    ensures TypeToP3(info) == Ok((t, true)) <==>
      && !IsTimeType(info.tipe) && !IsDurationType(info.tipe)
      && ReprKind(info) in {Array, Slice}
      && info.elem.Some? && KindOf(info.elem.value.tipe) != Uint8
      && TypeToP3(info.elem.value) == Ok((t, false))
  {
  }

  /** A list of lists (other than of bytes) is refused. */
  lemma ListOfListsRefused(info: TypeInfo)
    requires !IsTimeType(info.tipe) && !IsDurationType(info.tipe)
    requires ReprKind(info) in {Array, Slice}
    requires info.elem.Some? && KindOf(info.elem.value.tipe) != Uint8
    requires TypeToP3(info.elem.value).Ok? && TypeToP3(info.elem.value).value.1
    ensures TypeToP3(info) == Err(MultiDimensional)
  {
  }

  /** A struct is the message named after the declared type (not its
      representation), in its package's proto3 package. */
  lemma StructIsMessage(info: TypeInfo)
    requires !IsTimeType(info.tipe) && !IsDurationType(info.tipe)
    requires ReprKind(info) == Struct
    ensures info.pkg.None? ==> TypeToP3(info) == Err(NilPackage)
    ensures info.pkg.Some? ==>
      TypeToP3(info) == Ok((Message(info.pkg.value.p3PkgName, NameOf(info.tipe), false), false))
  {
  }

  /** The kinds that are refused: complex kinds as not yet supported, the
      reference-like kinds with one shared "not supported" panic (the model
      records which kind), and the kinds with no case by the default. */
  lemma RefusedKinds(info: TypeInfo)
    requires !IsTimeType(info.tipe) && !IsDurationType(info.tipe)
    ensures ReprKind(info) in {Complex64, Complex128} ==> TypeToP3(info) == Err(ComplexType)
    ensures ReprKind(info) in {Chan, Func, Map, Ptr, UnsafePointer} ==>
      TypeToP3(info) == Err(Unsupported(ReprKind(info)))
    ensures ReprKind(info) in {Invalid, Uintptr} ==>
      TypeToP3(info) == Err(UnexpectedKind(ReprKind(info)))
  {
  }

  /** A type with a single (not repeated) proto3 type, independently of
      typeToP3Type's case analysis. */
  predicate SingleValued(info: TypeInfo) {
    || IsTimeType(info.tipe) || IsDurationType(info.tipe)
    || ScalarOf(ReprKind(info)).Some? || ReprKind(info) == Interface
    || (ReprKind(info) == Struct && info.pkg.Some?)
    || (ReprKind(info) in {Array, Slice} && info.elem.Some? && KindOf(info.elem.value.tipe) == Uint8)
  }

  /** A type that has a proto3 field type: single-valued, or a list of
      single-valued elements. */
  predicate Expressible(info: TypeInfo) {
    || SingleValued(info)
    || (&& ReprKind(info) in {Array, Slice} && info.elem.Some?
        && KindOf(info.elem.value.tipe) != Uint8 && SingleValued(info.elem.value))
  }

  lemma SingleValuedTypes(info: TypeInfo)
    ensures TypeToP3(info).Ok? && !TypeToP3(info).value.1 <==> SingleValued(info)
  {
    var k := ReprKind(info);
    if !IsTimeType(info.tipe) && !IsDurationType(info.tipe) && ScalarOf(k).Some? {
      ScalarMapping(info);
    }
  }

  /** typeToP3Type succeeds exactly on the expressible types, and repeats
      exactly those that are not single-valued. */
  lemma ExpressibleTypes(info: TypeInfo)
    ensures TypeToP3(info).Ok? <==> Expressible(info)
    ensures TypeToP3(info).Ok? ==> (TypeToP3(info).value.1 <==> !SingleValued(info))
  {
    SingleValuedTypes(info);
    if info.elem.Some? {
      SingleValuedTypes(info.elem.value);
    }
  }

  /** The field made from f in a document of package docPkg, on its type
      alone: its name, number, repetition and type, a message of the
      document's own package printed without its package. */
  function FieldMade(docPkg: string, f: FieldInfo): Result<P3Field, P3Panic> {
    match TypeToP3(f.info)
    case Err(e) => Err(e)
    case Ok((t, repeated)) => Ok(P3Field(repeated, Localize(t, docPkg), f.name, f.binFieldNum))
  }

  /** pf is the field made from f. */
  predicate FieldFrom(docPkg: string, f: FieldInfo, pf: P3Field) {
    FieldMade(docPkg, f) == Ok(pf)
  }

  /** The import a field's type needs, when it needs one and the package
      search finds it. */
  function FieldImport(env: Env, docPkg: string, pkgPath: string, f: FieldInfo): Option<string> {
    match TypeToP3(f.info)
    case Err(_) => None
    case Ok((t0, _)) =>
      var t := Localize(t0, docPkg);
      if NeedsImport(f, t, pkgPath) then env.importPath(t.pkg, t.name) else None
  }

  /** A message type is printed without its package exactly when it is in
      the document's package. */
  lemma OwnPackageOmitted(docPkg: string, f: FieldInfo, pf: P3Field)
    requires FieldFrom(docPkg, f, pf) && pf.tipe.Message?
    ensures pf.tipe.omitPackage <==> pf.tipe.pkg == docPkg
  {
  }

  /** One field: the imports only grow, by the field's own import; a
      success is the field made from f, with its import recorded. */
  lemma FieldStep(env: Env, docPkg: string, pkgPath: string, f: FieldInfo, imports: set<string>)
    ensures var o := FieldSpec(env, docPkg, pkgPath, f, imports);
      && (o.imports == imports || (FieldImport(env, docPkg, pkgPath, f).Some? &&
                                   o.imports == imports + {FieldImport(env, docPkg, pkgPath, f).value}))
      && (o.res.Ok? ==> FieldFrom(docPkg, f, o.res.value))
      && (o.res.Ok? && FieldImport(env, docPkg, pkgPath, f).Some? ==>
            FieldImport(env, docPkg, pkgPath, f).value in o.imports)
  {
  }

  /** The field loop from field i on: the imports only grow, and each new
      one is the import of one of the fields. */
  lemma {:induction false} FieldsImportsGrow(env: Env, docPkg: string, pkgPath: string, fs: seq<FieldInfo>,
                                             i: nat, imports: set<string>, acc: seq<P3Field>)
    requires i <= |fs|
    decreases |fs| - i
    ensures var o := FieldsSpec(env, docPkg, pkgPath, fs, i, imports, acc);
      && imports <= o.imports
      && (forall p :: p in o.imports && p !in imports ==>
            exists j :: i <= j < |fs| && FieldImport(env, docPkg, pkgPath, fs[j]) == Some(p))
  {
    if i < |fs| {
      var o1 := FieldSpec(env, docPkg, pkgPath, fs[i], imports);
      FieldStep(env, docPkg, pkgPath, fs[i], imports);
      if o1.res.Ok? {
        FieldsImportsGrow(env, docPkg, pkgPath, fs, i + 1, o1.imports, acc + [o1.res.value]);
      }
    }
  }

  /** The field loop from field i on, when it succeeds: the fields made so
      far are kept, and one field is added per remaining input field. */
  lemma {:induction false} FieldsKeepPrefix(env: Env, docPkg: string, pkgPath: string, fs: seq<FieldInfo>,
                                            i: nat, imports: set<string>, acc: seq<P3Field>)
    requires i <= |fs|
    decreases |fs| - i
    ensures var o := FieldsSpec(env, docPkg, pkgPath, fs, i, imports, acc);
      o.res.Ok? ==> |o.res.value| == |acc| + |fs| - i && o.res.value[..|acc|] == acc
  {
    if i < |fs| {
      var o1 := FieldSpec(env, docPkg, pkgPath, fs[i], imports);
      if o1.res.Ok? {
        var acc' := acc + [o1.res.value];
        FieldsKeepPrefix(env, docPkg, pkgPath, fs, i + 1, o1.imports, acc');
        var o := FieldsSpec(env, docPkg, pkgPath, fs, i, imports, acc);
        assert o == FieldsSpec(env, docPkg, pkgPath, fs, i + 1, o1.imports, acc');
        if o.res.Ok? {
          assert o.res.value[..|acc|] == o.res.value[..|acc'|][..|acc|];
        }
      }
    }
  }

  /** The field loop from field i on, when it succeeds: the field at each
      position is made from the input field at that position. */
  lemma {:induction false} FieldsInOrder(env: Env, docPkg: string, pkgPath: string, fs: seq<FieldInfo>,
                                         i: nat, imports: set<string>, acc: seq<P3Field>)
    requires i <= |fs|
    decreases |fs| - i
    ensures var o := FieldsSpec(env, docPkg, pkgPath, fs, i, imports, acc);
      o.res.Ok? ==>
        && |o.res.value| == |acc| + |fs| - i
        && forall j :: i <= j < |fs| ==> FieldFrom(docPkg, fs[j], o.res.value[|acc| + j - i])
  {
    FieldsKeepPrefix(env, docPkg, pkgPath, fs, i, imports, acc);
    if i < |fs| {
      var o1 := FieldSpec(env, docPkg, pkgPath, fs[i], imports);
      FieldStep(env, docPkg, pkgPath, fs[i], imports);
      if o1.res.Ok? {
        var acc' := acc + [o1.res.value];
        FieldsInOrder(env, docPkg, pkgPath, fs, i + 1, o1.imports, acc');
        FieldsKeepPrefix(env, docPkg, pkgPath, fs, i + 1, o1.imports, acc');
        var o := FieldsSpec(env, docPkg, pkgPath, fs, i, imports, acc);
        assert o == FieldsSpec(env, docPkg, pkgPath, fs, i + 1, o1.imports, acc');
        if o.res.Ok? {
          assert o.res.value[|acc|] == o.res.value[..|acc'|][|acc|];
        }
      }
    }
  }

  /** The field loop from field i on, when it succeeds: every field's
      import is among the imports. */
  lemma {:induction false} FieldsImportsComplete(env: Env, docPkg: string, pkgPath: string, fs: seq<FieldInfo>,
                                                 i: nat, imports: set<string>, acc: seq<P3Field>)
    requires i <= |fs|
    decreases |fs| - i
    ensures var o := FieldsSpec(env, docPkg, pkgPath, fs, i, imports, acc);
      o.res.Ok? ==>
        forall j :: i <= j < |fs| && FieldImport(env, docPkg, pkgPath, fs[j]).Some? ==>
          FieldImport(env, docPkg, pkgPath, fs[j]).value in o.imports
  {
    if i < |fs| {
      var o1 := FieldSpec(env, docPkg, pkgPath, fs[i], imports);
      FieldStep(env, docPkg, pkgPath, fs[i], imports);
      if o1.res.Ok? {
        FieldsImportsComplete(env, docPkg, pkgPath, fs, i + 1, o1.imports, acc + [o1.res.value]);
        FieldsImportsGrow(env, docPkg, pkgPath, fs, i + 1, o1.imports, acc + [o1.res.value]);
      }
    }
  }

  /** GenerateProto3MessagePartial succeeds only past every check, with the
      message named after the type; the document's imports only grow. */
  lemma MessageShape(env: Env, docPkg: string, imports: set<string>, rt: GoType)
    ensures var o := MessageSpec(env, docPkg, imports, rt);
      && imports <= o.imports
      && (o.res.Ok? ==>
            && docPkg != "" && KindOf(rt) != Ptr && KindOf(rt) != Interface && PkgPathOf(rt) != ""
            && env.typeInfo(rt).Some?
            && ReprOf(env.typeInfo(rt).value).repr.None?
            && o.res.value.name == NameOf(env.typeInfo(rt).value.tipe))
  {
    if docPkg != "" && KindOf(rt) != Ptr && KindOf(rt) != Interface && env.typeInfo(rt).Some? {
      var info := env.typeInfo(rt).value;
      if ReprOf(info).repr.None? && PkgPathOf(rt) != "" {
        FieldsImportsGrow(env, docPkg, PkgPathOf(rt), MessageFields(info), 0, imports, []);
      }
    }
  }

  /** GenerateProto3MessagePartial: the message is named after the type and
      has one field per field of the type (or the implicit Value field), in
      order. */
  lemma MessageFromFields(env: Env, docPkg: string, imports: set<string>, rt: GoType)
    ensures var o := MessageSpec(env, docPkg, imports, rt);
      o.res.Ok? ==>
        && env.typeInfo(rt).Some?
        && var info := env.typeInfo(rt).value;
           var fs := MessageFields(info);
           && o.res.value.name == NameOf(info.tipe)
           && |o.res.value.fields| == |fs|
           && forall j :: 0 <= j < |fs| ==> FieldFrom(docPkg, fs[j], o.res.value.fields[j])
  {
    if docPkg != "" && KindOf(rt) != Ptr && KindOf(rt) != Interface && env.typeInfo(rt).Some? {
      var info := env.typeInfo(rt).value;
      if ReprOf(info).repr.None? && PkgPathOf(rt) != "" {
        var fs := MessageFields(info);
        var fo := FieldsSpec(env, docPkg, PkgPathOf(rt), fs, 0, imports, []);
        FieldsInOrder(env, docPkg, PkgPathOf(rt), fs, 0, imports, []);
        if fo.res.Ok? {
          var fields := fo.res.value;
          assert MessageSpec(env, docPkg, imports, rt).res == Ok(P3Message(NameOf(info.tipe), fields));
          forall j | 0 <= j < |fs|
            ensures FieldFrom(docPkg, fs[j], fields[j])
          {
            var none: seq<P3Field> := [];
            assert |none| + j - 0 == j;
          }
        }
      }
    }
  }

  /** GenerateProto3MessagePartial: the document's imports only grow, and
      each new one is the import of one of the message's fields. */
  lemma MessageImports(env: Env, docPkg: string, imports: set<string>, rt: GoType)
    ensures var o := MessageSpec(env, docPkg, imports, rt);
      && imports <= o.imports
      && (o.imports != imports ==>
            && env.typeInfo(rt).Some?
            && var fs := MessageFields(env.typeInfo(rt).value);
               forall p :: p in o.imports && p !in imports ==>
                 exists j :: 0 <= j < |fs| && FieldImport(env, docPkg, PkgPathOf(rt), fs[j]) == Some(p))
  {
    if docPkg != "" && KindOf(rt) != Ptr && KindOf(rt) != Interface && env.typeInfo(rt).Some? {
      var info := env.typeInfo(rt).value;
      if ReprOf(info).repr.None? && PkgPathOf(rt) != "" {
        FieldsImportsGrow(env, docPkg, PkgPathOf(rt), MessageFields(info), 0, imports, []);
      }
    }
  }

  /** A type that is not a struct becomes the message with the single field
      "Value", number 1, of its representation's proto3 type. */
  lemma ImplicitValueField(env: Env, docPkg: string, imports: set<string>, rt: GoType)
    requires env.typeInfo(rt).Some? && KindOf(env.typeInfo(rt).value.tipe) != Struct
    ensures var o := MessageSpec(env, docPkg, imports, rt);
      var rinfo := ReprOf(env.typeInfo(rt).value);
      o.res.Ok? ==>
        && TypeToP3(rinfo).Ok?
        && o.res.value.fields == [P3Field(TypeToP3(rinfo).value.1, Localize(TypeToP3(rinfo).value.0, docPkg), "Value", 1)]
  {
    MessageFromFields(env, docPkg, imports, rt);
  }

  /** The messages a schema makes, from type i on: one per type that is not
      an interface, a pointer standing for its element. */
  function Targets(rtz: seq<GoType>, i: nat): (r: seq<GoType>)
    requires i <= |rtz|
    decreases |rtz| - i
  {
    if i == |rtz| then []
    else match Target(rtz[i])
      case None => Targets(rtz, i + 1)
      case Some(rt) => [rt] + Targets(rtz, i + 1)
  }

  /** A double pointer, inside or outside a list of types. */
  predicate DoublePointer(rt: GoType) { rt.PtrTo? && rt.elem.PtrTo? }

  /** The message loop from type i on, when it succeeds: the document's
      package and Go package stay, its imports only grow, the messages so
      far are kept and one message per target is appended. */
  lemma {:induction false} MessagesKeepPrefix(env: Env, rtz: seq<GoType>, i: nat, doc: DocState)
    requires i <= |rtz|
    decreases |rtz| - i
    ensures var r := MessagesSpec(env, rtz, i, doc);
      r.Ok? ==>
        && r.value.packageName == doc.packageName && r.value.goPackage == doc.goPackage
        && doc.imports <= r.value.imports
        && |r.value.messages| == |doc.messages| + |Targets(rtz, i)|
        && r.value.messages[..|doc.messages|] == doc.messages
  {
    if i < |rtz| {
      match Target(rtz[i])
      case None =>
        MessagesKeepPrefix(env, rtz, i + 1, doc);
      case Some(rt) =>
        var o := MessageSpec(env, doc.packageName, doc.imports, rt);
        MessageShape(env, doc.packageName, doc.imports, rt);
        if o.res.Ok? {
          var doc' := doc.(imports := o.imports, messages := doc.messages + [o.res.value]);
          MessagesKeepPrefix(env, rtz, i + 1, doc');
          var r := MessagesSpec(env, rtz, i, doc);
          assert r == MessagesSpec(env, rtz, i + 1, doc');
          if r.Ok? {
            assert r.value.messages[..|doc.messages|] == r.value.messages[..|doc'.messages|][..|doc.messages|];
          }
        }
    }
  }

  /** The message loop from type i on, when it succeeds: no type was a
      double pointer, since no target may be a pointer. */
  lemma {:induction false} MessagesNoDoublePointer(env: Env, rtz: seq<GoType>, i: nat, doc: DocState)
    requires i <= |rtz|
    decreases |rtz| - i
    ensures MessagesSpec(env, rtz, i, doc).Ok? ==> forall j :: i <= j < |rtz| ==> !DoublePointer(rtz[j])
  {
    if i < |rtz| {
      match Target(rtz[i])
      case None =>
        MessagesNoDoublePointer(env, rtz, i + 1, doc);
      case Some(rt) =>
        var o := MessageSpec(env, doc.packageName, doc.imports, rt);
        MessageShape(env, doc.packageName, doc.imports, rt);
        if o.res.Ok? {
          MessagesNoDoublePointer(env, rtz, i + 1,
            doc.(imports := o.imports, messages := doc.messages + [o.res.value]));
        }
    }
  }

  /** The message loop from type i on, when it succeeds, at one target: the
      target has type information and its message is named after its type. */
  lemma {:induction false} MessageNamedAt(env: Env, rtz: seq<GoType>, i: nat, doc: DocState, j: nat)
    requires i <= |rtz| && MessagesSpec(env, rtz, i, doc).Ok? && j < |Targets(rtz, i)|
    decreases |rtz| - i
    ensures env.typeInfo(Targets(rtz, i)[j]).Some?
    ensures |doc.messages| + j < |MessagesSpec(env, rtz, i, doc).value.messages|
    ensures MessagesSpec(env, rtz, i, doc).value.messages[|doc.messages| + j].name
      == NameOf(env.typeInfo(Targets(rtz, i)[j]).value.tipe)
  {
    MessagesKeepPrefix(env, rtz, i, doc);
    var r := MessagesSpec(env, rtz, i, doc);
    match Target(rtz[i])
    case None =>
      MessageNamedAt(env, rtz, i + 1, doc, j);
    case Some(rt) =>
      var o := MessageSpec(env, doc.packageName, doc.imports, rt);
      MessageShape(env, doc.packageName, doc.imports, rt);
      var doc' := doc.(imports := o.imports, messages := doc.messages + [o.res.value]);
      assert r == MessagesSpec(env, rtz, i + 1, doc');
      if j == 0 {
        MessagesKeepPrefix(env, rtz, i + 1, doc');
        assert r.value.messages[..|doc'.messages|] == doc'.messages;
        assert r.value.messages[|doc.messages|] == o.res.value;
      } else {
        MessageNamedAt(env, rtz, i + 1, doc', j - 1);
        assert |doc'.messages| + (j - 1) == |doc.messages| + j;
      }
  }

  /** The message loop from type i on, when it succeeds: the message of
      each target has type information and is named after its type. */
  lemma MessagesNamed(env: Env, rtz: seq<GoType>, i: nat, doc: DocState)
    requires i <= |rtz|
    ensures var r := MessagesSpec(env, rtz, i, doc);
      var ts := Targets(rtz, i);
      r.Ok? ==>
        && |r.value.messages| == |doc.messages| + |ts|
        && forall j :: 0 <= j < |ts| ==>
             && env.typeInfo(ts[j]).Some?
             && r.value.messages[|doc.messages| + j].name == NameOf(env.typeInfo(ts[j]).value.tipe)
  {
    MessagesKeepPrefix(env, rtz, i, doc);
    if MessagesSpec(env, rtz, i, doc).Ok? {
      forall j | 0 <= j < |Targets(rtz, i)|
        ensures env.typeInfo(Targets(rtz, i)[j]).Some?
        ensures MessagesSpec(env, rtz, i, doc).value.messages[|doc.messages| + j].name
          == NameOf(env.typeInfo(Targets(rtz, i)[j]).value.tipe)
      {
        MessageNamedAt(env, rtz, i, doc, j);
      }
    }
  }

  /** The list check: every type but the interfaces has type information. */
  lemma {:induction false} ListsNeedTypeInfo(env: Env, rtz: seq<GoType>, i: nat)
    requires i <= |rtz|
    decreases |rtz| - i
    ensures ListsSpec(env, rtz, i).None? <==>
      forall j :: i <= j < |rtz| && KindOf(rtz[j]) != Interface ==> env.typeInfo(rtz[j]).Some?
  {
    if i < |rtz| {
      ListsNeedTypeInfo(env, rtz, i + 1);
    }
  }

  /** GenerateProto3SchemaForTypes: not in the root package; the document
      is in pkg's proto3 package and Go package, with one message per
      target, in order, named after the target's type. */
  lemma SchemaMessages(env: Env, pkg: Package, rtz: seq<GoType>)
    ensures pkg.p3PkgName == "" ==> SchemaSpec(env, pkg, rtz) == Err(RootPackage)
    ensures var r := SchemaSpec(env, pkg, rtz);
      var ts := Targets(rtz, 0);
      r.Ok? ==>
        && r.value.packageName == pkg.p3PkgName && r.value.goPackage == pkg.p3GoPkgPath
        && |r.value.messages| == |ts|
        && forall j :: 0 <= j < |ts| ==>
             && env.typeInfo(ts[j]).Some?
             && r.value.messages[j].name == NameOf(env.typeInfo(ts[j]).value.tipe)
  {
    if pkg.p3PkgName != "" {
      var doc0 := DocState(pkg.p3PkgName, pkg.p3GoPkgPath, {}, []);
      var m := MessagesSpec(env, rtz, 0, doc0);
      MessagesKeepPrefix(env, rtz, 0, doc0);
      MessagesNamed(env, rtz, 0, doc0);
      if m.Ok? && ListsSpec(env, rtz, 0).None? {
        assert SchemaSpec(env, pkg, rtz) == m;
        forall j | 0 <= j < |Targets(rtz, 0)|
          ensures m.value.messages[j] == m.value.messages[|doc0.messages| + j]
        {
        }
      }
    }
  }

  /** GenerateProto3SchemaForTypes never accepts a double pointer, nor a
      type (other than an interface) without type information. */
  lemma SchemaRefuses(env: Env, pkg: Package, rtz: seq<GoType>)
    ensures SchemaSpec(env, pkg, rtz).Ok? ==>
      && (forall j :: 0 <= j < |rtz| ==> !DoublePointer(rtz[j]))
      && (forall j :: 0 <= j < |rtz| && KindOf(rtz[j]) != Interface ==> env.typeInfo(rtz[j]).Some?)
  {
    if pkg.p3PkgName != "" {
      var doc0 := DocState(pkg.p3PkgName, pkg.p3GoPkgPath, {}, []);
      MessagesNoDoublePointer(env, rtz, 0, doc0);
      ListsNeedTypeInfo(env, rtz, 0);
    }
  }

  /** A double pointer is refused: its element is a pointer. */
  lemma DoublePointerRefused(env: Env, pkg: Package, t: GoType)
    requires pkg.p3PkgName != ""
    ensures SchemaSpec(env, pkg, [PtrTo(PtrTo(t))]) == Err(PointerType)
  {
    var doc0 := DocState(pkg.p3PkgName, pkg.p3GoPkgPath, {}, []);
    assert MessagesSpec(env, [PtrTo(PtrTo(t))], 0, doc0) == Err(PointerType);
  }
}
