/**
 * Proto3 schema generation (genproto/genproto.go): the mapping from a Go
 * type's amino type information to a proto3 field type, the assembly of a
 * message from a type's fields, and of a schema document from a list of
 * types.
 *
 * The codec's type information, the package lookup behind import paths
 * and the schema document's import list come from code that is not part
 * of this model; they enter as given data and functions (Env).
 */
module GenProto {
  import opened Wrappers
  import opened GoTypes

  /** The parts of an amino.Package that schema generation reads. */
  datatype Package = Package(goPkgPath: string, p3PkgName: string, p3GoPkgPath: string)

  /**
   * An amino.TypeInfo: the type, its representation type (None when it is
   * its own, as for every type without an amino marshaller), the element
   * information of arrays, slices and pointers, the package the type was
   * registered with, and the fields of a struct.
   */
  datatype TypeInfo = TypeInfo(
    tipe: GoType,
    repr: Option<TypeInfo>,
    elem: Option<TypeInfo>,
    pkg: Option<Package>,
    fields: seq<FieldInfo>)

  /** An amino.FieldInfo: name, binary field number and type information. */
  datatype FieldInfo = FieldInfo(name: string, binFieldNum: nat, info: TypeInfo)

  /** info.ReprType. */
  function ReprOf(info: TypeInfo): TypeInfo {
    if info.repr.None? then info else info.repr.value
  }

  /** GetUltimateElem: follow the element information down to the end. */
  function UltimateElem(info: TypeInfo): TypeInfo {
    if info.elem.None? then info else UltimateElem(info.elem.value)
  }

  datatype P3Scalar =
    | P3Bool | P3Int32 | P3Int64 | P3Uint32 | P3Uint64 | P3Float | P3Double
    | P3String | P3Bytes

  /** A proto3 field type: a scalar, or a message type named by package and
      name, printed without its package when omitPackage is set. */
  datatype P3Type = Scalar(s: P3Scalar) | Message(pkg: string, name: string, omitPackage: bool)

  /** GetPackageName: empty for a scalar. */
  function PackageOf(t: P3Type): string {
    if t.Scalar? then "" else t.pkg
  }

  const Timestamp: P3Type := Message("google.protobuf", "Timestamp", false)
  const Duration: P3Type := Message("google.protobuf", "Duration", false)
  const AnyType: P3Type := Message("google.protobuf", "Any", false)

  datatype P3Field = P3Field(repeated: bool, tipe: P3Type, name: string, number: nat)
  datatype P3Message = P3Message(name: string, fields: seq<P3Field>)

  /** The panics of schema generation. */
  datatype P3Panic =
    | ComplexType                // "complex types not yet supported"
    | Unsupported(k: Kind)       // chan, func, map, pointer and unsafe pointer
    | UnexpectedKind(k: Kind)    // the default case
    | MultiDimensional           // a repeated element of a repeated field
    | NilElem                    // an array or slice whose info has no element
    | NilPackage                 // a struct whose info has no package
    | RootPackage                // a document in the root package ""
    | PointerType                // a message from a pointer type
    | InterfaceType              // a message from an interface type
    | NoTypeInfo(t: GoType)      // GetTypeInfo failed
    | ChainedRepr                // a representation type that is not its own
    | NoPkgPath(t: GoType)       // a type that is not package-level declared
    | NotRecognized(pkg: string, name: string) // GetP3ImportPath found no package

  /** What generation is given: the codec's GetTypeInfo, and the package
      search behind GetP3ImportPath (by proto3 package and type name). */
  datatype Env = Env(
    typeInfo: GoType -> Option<TypeInfo>,
    importPath: (string, string) -> Option<string>)

  /** typeToP3Type: the proto3 type of a field and whether it is repeated.
      Only an array or slice is repeated, and a message type comes out with
      its package still to be printed. */
  function TypeToP3(info: TypeInfo): (r: Result<(P3Type, bool), P3Panic>)
    ensures r.Ok? && r.value.1 ==> KindOf(ReprOf(info).tipe) in {Array, Slice}
    ensures r.Ok? && r.value.0.Message? ==> !r.value.0.omitPackage
  {
    if IsTimeType(info.tipe) then Ok((Timestamp, false))
    else if IsDurationType(info.tipe) then Ok((Duration, false))
    else
      var k := KindOf(ReprOf(info).tipe);
      match k
      case Interface => Ok((AnyType, false))
      case Bool => Ok((Scalar(P3Bool), false))
      case Int | Int64 => Ok((Scalar(P3Int64), false))
      case Int8 | Int16 | Int32 => Ok((Scalar(P3Int32), false))
      case Uint | Uint64 => Ok((Scalar(P3Uint64), false))
      case Uint8 | Uint16 | Uint32 => Ok((Scalar(P3Uint32), false))
      case Float32 => Ok((Scalar(P3Float), false))
      case Float64 => Ok((Scalar(P3Double), false))
      case Complex64 | Complex128 => Err(ComplexType)
      case Array | Slice =>
        if info.elem.None? then Err(NilElem)
        else if KindOf(info.elem.value.tipe) == Uint8 then Ok((Scalar(P3Bytes), false))
        else
          (match TypeToP3(info.elem.value)
           case Err(e) => Err(e)
           case Ok((t, repeated)) => if repeated then Err(MultiDimensional) else Ok((t, true)))
      case Chan | Func | Map | Ptr | UnsafePointer => Err(Unsupported(k))
      case String => Ok((Scalar(P3String), false))
      case Struct =>
        if info.pkg.None? then Err(NilPackage)
        else Ok((Message(info.pkg.value.p3PkgName, NameOf(info.tipe), false), false))
      case _ => Err(UnexpectedKind(k))
  }

  /** The fields a message is made from: a struct's own, or else the single
      implicit field "Value", number 1, of the representation type. */
  function MessageFields(info: TypeInfo): (fs: seq<FieldInfo>)
    ensures KindOf(info.tipe) != Struct ==> fs == [FieldInfo("Value", 1, ReprOf(info))]
  {
    if KindOf(info.tipe) == Struct then ReprOf(info).fields
    else [FieldInfo("Value", 1, ReprOf(info))]
  }

  /** The field type as the document prints it: a message of the document's
      own package without its package prefix. */
  function Localize(t: P3Type, docPkg: string): P3Type {
    if t.Message? && t.pkg == docPkg then t.(omitPackage := true) else t
  }

  /** Whether a field's type needs an import: its Go package is another (or
      unknown) and its proto3 type belongs to a package. */
  predicate NeedsImport(f: FieldInfo, t: P3Type, pkgPath: string) {
    var frpkg := UltimateElem(f.info).pkg;
    (frpkg.None? || frpkg.value.goPkgPath != pkgPath) && PackageOf(t) != ""
  }

  datatype FieldOut = FieldOut(imports: set<string>, res: Result<P3Field, P3Panic>)

  /** One turn of the field loop of GenerateProto3MessagePartial. */
  function FieldSpec(env: Env, docPkg: string, pkgPath: string, f: FieldInfo, imports: set<string>): FieldOut {
    match TypeToP3(f.info)
    case Err(e) => FieldOut(imports, Err(e))
    case Ok((t0, repeated)) =>
      var t := Localize(t0, docPkg);
      var field := P3Field(repeated, t, f.name, f.binFieldNum);
      if NeedsImport(f, t, pkgPath) then
        match env.importPath(t.pkg, t.name)
        case None => FieldOut(imports, Err(NotRecognized(t.pkg, t.name)))
        case Some(path) => FieldOut(imports + {path}, Ok(field))
      else FieldOut(imports, Ok(field))
  }

  datatype FieldsOut = FieldsOut(imports: set<string>, res: Result<seq<P3Field>, P3Panic>)

  /** The field loop from field i on, with acc the fields made so far. */
  function FieldsSpec(env: Env, docPkg: string, pkgPath: string, fs: seq<FieldInfo>, i: nat,
                      imports: set<string>, acc: seq<P3Field>): FieldsOut
    requires i <= |fs|
    decreases |fs| - i
  {
    if i == |fs| then FieldsOut(imports, Ok(acc))
    else
      var o := FieldSpec(env, docPkg, pkgPath, fs[i], imports);
      match o.res
      case Err(e) => FieldsOut(o.imports, Err(e))
      case Ok(field) => FieldsSpec(env, docPkg, pkgPath, fs, i + 1, o.imports, acc + [field])
  }

  datatype MessageOut = MessageOut(imports: set<string>, res: Result<P3Message, P3Panic>)

  /** GenerateProto3MessagePartial for a document of package docPkg whose
      imports are imports. */
  function MessageSpec(env: Env, docPkg: string, imports: set<string>, rt: GoType): MessageOut {
    if docPkg == "" then MessageOut(imports, Err(RootPackage))
    else if KindOf(rt) == Ptr then MessageOut(imports, Err(PointerType))
    else if KindOf(rt) == Interface then MessageOut(imports, Err(InterfaceType))
    else
      match env.typeInfo(rt)
      case None => MessageOut(imports, Err(NoTypeInfo(rt)))
      case Some(info) =>
        if ReprOf(info).repr.Some? then MessageOut(imports, Err(ChainedRepr))
        else if PkgPathOf(rt) == "" then MessageOut(imports, Err(NoPkgPath(rt)))
        else
          var o := FieldsSpec(env, docPkg, PkgPathOf(rt), MessageFields(info), 0, imports, []);
          match o.res
          case Err(e) => MessageOut(o.imports, Err(e))
          case Ok(fields) => MessageOut(o.imports, Ok(P3Message(NameOf(info.tipe), fields)))
  }

  /** A P3Doc's contents. */
  datatype DocState = DocState(packageName: string, goPackage: string, imports: set<string>,
                               messages: seq<P3Message>)

  /** The type a schema makes a message of: interfaces are skipped, and a
      pointer stands for its element. */
  function Target(rt: GoType): Option<GoType> {
    if KindOf(rt) == Interface then None
    else if rt.PtrTo? then Some(rt.elem)
    else Some(rt)
  }

  /** The message loop of GenerateProto3SchemaForTypes from type i on. */
  function MessagesSpec(env: Env, rtz: seq<GoType>, i: nat, doc: DocState): Result<DocState, P3Panic>
    requires i <= |rtz|
    decreases |rtz| - i
  {
    if i == |rtz| then Ok(doc)
    else
      match Target(rtz[i])
      case None => MessagesSpec(env, rtz, i + 1, doc)
      case Some(rt) =>
        var o := MessageSpec(env, doc.packageName, doc.imports, rt);
        match o.res
        case Err(e) => Err(e)
        case Ok(msg) =>
          MessagesSpec(env, rtz, i + 1, doc.(imports := o.imports, messages := doc.messages + [msg]))
  }

  /** The second loop: every type but the interfaces must have type
      information ("nested lists" are gathered from it). */
  function ListsSpec(env: Env, rtz: seq<GoType>, i: nat): Option<P3Panic>
    requires i <= |rtz|
    decreases |rtz| - i
  {
    if i == |rtz| then None
    else if KindOf(rtz[i]) != Interface && env.typeInfo(rtz[i]).None? then Some(NoTypeInfo(rtz[i]))
    else ListsSpec(env, rtz, i + 1)
  }

  /** GenerateProto3SchemaForTypes. */
  function SchemaSpec(env: Env, pkg: Package, rtz: seq<GoType>): Result<DocState, P3Panic> {
    if pkg.p3PkgName == "" then Err(RootPackage)
    else
      match MessagesSpec(env, rtz, 0, DocState(pkg.p3PkgName, pkg.p3GoPkgPath, {}, []))
      case Err(e) => Err(e)
      case Ok(doc) =>
        match ListsSpec(env, rtz, 0)
        case Some(e) => Err(e)
        case None => Ok(doc)
  }

  /** A P3Doc under construction. */
  class P3Doc {
    var packageName: string
    var goPackage: string
    var imports: set<string>
    var messages: seq<P3Message>

    function State(): DocState
      reads this
    {
      DocState(packageName, goPackage, imports, messages)
    }

    constructor (packageName: string, goPackage: string)
      ensures State() == DocState(packageName, goPackage, {}, [])
    {
      this.packageName := packageName;
      this.goPackage := goPackage;
      imports := {};
      messages := [];
    }

    method AddImport(path: string)
      modifies this
      ensures State() == old(State()).(imports := old(imports) + {path})
    {
      imports := imports + {path};
    }

    method AddMessage(msg: P3Message)
      modifies this
      ensures State() == old(State()).(messages := old(messages) + [msg])
    {
      messages := messages + [msg];
    }
  }

  /** GenerateProto3MessagePartial: the message for rt; the imports its
      fields need are added to doc. */
  method GenerateMessagePartial(env: Env, doc: P3Doc, rt: GoType) returns (r: Result<P3Message, P3Panic>)
    modifies doc
    ensures MessageOut(doc.imports, r) == MessageSpec(env, old(doc.packageName), old(doc.imports), rt)
    ensures doc.State() == old(doc.State()).(imports := doc.imports)
  {
    if doc.packageName == "" {
      return Err(RootPackage);
    }
    if KindOf(rt) == Ptr {
      return Err(PointerType);
    }
    if KindOf(rt) == Interface {
      return Err(InterfaceType);
    }
    var found := env.typeInfo(rt);
    if found.None? {
      return Err(NoTypeInfo(rt));
    }
    var info := found.value;
    var rinfo := ReprOf(info);
    if rinfo.repr.Some? {
      return Err(ChainedRepr);
    }
    var rsfields := MessageFields(info);
    var pkgPath := PkgPathOf(rt);
    if pkgPath == "" {
      return Err(NoPkgPath(rt));
    }
    var fields: seq<P3Field> := [];
    var i := 0;
    while i < |rsfields|
      invariant 0 <= i <= |rsfields|
      invariant doc.State() == old(doc.State()).(imports := doc.imports)
      invariant FieldsSpec(env, doc.packageName, pkgPath, rsfields, 0, old(doc.imports), [])
             == FieldsSpec(env, doc.packageName, pkgPath, rsfields, i, doc.imports, fields)
    {
      var field := GenerateField(env, doc, pkgPath, rsfields[i]);
      if field.Err? {
        return Err(field.error);
      }
      fields := fields + [field.value];
      i := i + 1;
    }
    return Ok(P3Message(NameOf(info.tipe), fields));
  }

  /** One turn of the field loop: the field's proto3 type, the import it
      needs added to doc. */
  method GenerateField(env: Env, doc: P3Doc, pkgPath: string, f: FieldInfo) returns (r: Result<P3Field, P3Panic>)
    requires doc.packageName != ""
    modifies doc
    ensures FieldOut(doc.imports, r) == FieldSpec(env, old(doc.packageName), pkgPath, f, old(doc.imports))
    ensures doc.State() == old(doc.State()).(imports := doc.imports)
  {
    var tr := TypeToP3(f.info);
    if tr.Err? {
      return Err(tr.error);
    }
    var (t0, repeated) := tr.value;
    var t := t0;
    if PackageOf(t) == doc.packageName {
      t := t0.(omitPackage := true);
    }
    var frpkg := UltimateElem(f.info).pkg;
    if frpkg.None? || frpkg.value.goPkgPath != pkgPath {
      if PackageOf(t) != "" {
        var importPath := env.importPath(t.pkg, t.name);
        if importPath.None? {
          return Err(NotRecognized(t.pkg, t.name));
        }
        doc.AddImport(importPath.value);
      }
    }
    return Ok(P3Field(repeated, t, f.name, f.binFieldNum));
  }

  /** GenerateProto3SchemaForTypes: a new document for pkg with one message
      per type. */
  method GenerateSchemaForTypes(env: Env, pkg: Package, rtz: seq<GoType>)
    returns (doc: P3Doc, r: Result<DocState, P3Panic>)
    ensures fresh(doc)
    ensures r == SchemaSpec(env, pkg, rtz)
    ensures r.Ok? ==> doc.State() == r.value
  {
    doc := new P3Doc(pkg.p3PkgName, pkg.p3GoPkgPath);
    if pkg.p3PkgName == "" {
      return doc, Err(RootPackage);
    }
    ghost var init := doc.State();
    var i := 0;
    while i < |rtz|
      invariant 0 <= i <= |rtz|
      invariant doc.packageName == pkg.p3PkgName
      invariant MessagesSpec(env, rtz, 0, init) == MessagesSpec(env, rtz, i, doc.State())
    {
      var rt := rtz[i];
      if KindOf(rt) == Interface {
        i := i + 1;
        continue;
      } else if rt.PtrTo? {
        rt := rt.elem;
      }
      var msg := GenerateMessagePartial(env, doc, rt);
      if msg.Err? {
        return doc, Err(msg.error);
      }
      doc.AddMessage(msg.value);
      i := i + 1;
    }
    i := 0;
    while i < |rtz|
      invariant 0 <= i <= |rtz|
      invariant ListsSpec(env, rtz, 0) == ListsSpec(env, rtz, i)
    {
      if KindOf(rtz[i]) != Interface && env.typeInfo(rtz[i]).None? {
        return doc, Err(NoTypeInfo(rtz[i]));
      }
      i := i + 1;
    }
    return doc, Ok(doc.State());
  }
}
