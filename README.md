# go-amino core in Dafny

This project models three pieces of the go-amino codec and proves properties of them.

- **The deep copy engine** (`deep_copy.go`). `DeepCopy`, `deepCopy` and `_deepCopy` copy a Go value into a fresh destination. They try, in order:
  - the typed-nil short cut;
  - a `DeepCopy()` method;
  - a `MarshalAmino`/`UnmarshalAmino` pair;
  - the traversal by kind.

  Go values are a datatype, with pointers, slices and maps as references into an explicit memory (`seq<Obj>`, address = index). The class `Memory` holds that memory. The methods `DeepCopy`, `CopyValue`, `CopyStructural` and the per-kind copies allocate and store into it. Each method is proved equal to a specification function on the memory before and after. The properties are proved as lemmas about those functions, including:
  - slice aliasing;
  - shallow map copy;
  - fresh pointer cells;
  - skipped unexported fields.

  Each type's methods are a capability record (`Hooks`).
- **The reflection-free codec** (`no-reflect.go`).
  - `norefType` is the datatype `Desc`; descriptors live in a store.
  - A `DescRef` is either the shared primitive-table entry of a kind, or the index of a descriptor that a registration allocated.
  - `init` and `norefGetPrimitiveType` build and read the primitive table.
  - The `norefGen*Type` constructors are pure functions.
  - `NoRefCodec` is a class with the store and the two maps `typeInfos` and `name2types`. Its `register` and `Register` are methods proved equal to `Registration`, a function that also keeps the codec's invariant.
  - The `norefEncode*` encoders are methods that append tokens to a `Writer`. Each is proved equal to a specification function (`Enc` and friends) whose loops are characterised by lemmas.
- **Proto3 schema generation** (`genproto/genproto.go`).
  - `typeToP3Type` is a pure function.
  - `GenerateProto3MessagePartial` and `GenerateProto3SchemaForTypes` are methods on a `P3Doc` class, proved equal to the specification functions `MessageSpec` and `SchemaSpec`.
  - The lemmas state what those functions return: message names, fields in order, imports, and the cases that panic.

Panics become error values throughout. Recursion over values and descriptors is bounded by a `fuel` argument.

The files:
- `wrappers.dfy`: Option and Result.
- `gotypes.dfy`: kinds, types, values, memory.
- `deep_copy.dfy`, `deep_copy_props.dfy`: the deep copy engine.
- `noref_types.dfy`: descriptors, the primitive table, the generators.
- `noref_registry.dfy`, `noref_registry_props.dfy`: registration.
- `noref_encode.dfy`, `noref_encode_props.dfy`: the encoders.
- `genproto.dfy`, `genproto_props.dfy`: proto3 generation.

## Model

| member | source | states |
|---|---|---|
| DeepCopy.DeepCopyHookPlan | deep_copy.go:143-169 | callDeepCopy applies exactly when DeepCopy() exists with no inputs and one output whose type is the destination's pointee type (allocate, then set) or the destination's type (set directly) |
| DeepCopy.CanAminoCopyTypesTheCall | deep_copy.go:201-229 | a reading of canAminoCopy's five checks, not an independent property: they hold exactly when the call `UnmarshalAmino(MarshalAmino())` that callAminoCopy makes (lines 195-197) is well-typed with nothing left over. What canAminoCopy decides is stated by `DeepCopy.AminoReceiver`'s if-and-only-if ensures |
| DeepCopy.AminoReceiver | deep_copy.go:177-191 | the Marshal/Unmarshal pair is used through the source itself when it is a pointer, through its address when it is addressable, and only when canAminoCopy holds for that receiver's methods |
| DeepCopy.DeepCopyOf | deep_copy.go:11-19 | DeepCopy(nil) is nil; a successful copy has the source's dynamic type; memory only grows |
| DeepCopy.Copy | deep_copy.go:21-32 | deepCopy never changes memory that existed before; on the Marshal/Unmarshal address path it writes the unmarshalled value into the destination, the behaviour the code evidently intends (see Findings) |
| DeepCopy.Structural | deep_copy.go:34-137 | the traversal by kind never changes memory that existed before |
| DeepCopy.CopyElems | deep_copy.go:58-62 | the element loop yields one element per source element |
| DeepCopy.CopyFields | deep_copy.go:97-104 | the field loop yields one value per field |
| DeepCopy.DeepCopy | deep_copy.go:11-19 | the method's result and final memory are DeepCopyOf's |
| DeepCopy.CopyValue | deep_copy.go:21-32 | the method's result and final memory are Copy's |
| DeepCopy.CopyAmino | deep_copy.go:28-31 | once the DeepCopy hook does not apply, the method computes Copy: the Marshal/Unmarshal pair (corrected on the address path), else the traversal |
| DeepCopy.CopyStructural | deep_copy.go:34-137 | the method computes Structural |
| DeepCopy.CopyPointer | deep_copy.go:37-41 | the method computes PointerCopy |
| DeepCopy.CopyIface | deep_copy.go:43-45 | the method computes IfaceCopy |
| DeepCopy.CopyArray | deep_copy.go:47-64 | the method computes ArrayCopy |
| DeepCopy.CopySlice | deep_copy.go:66-89 | the method computes SliceCopy |
| DeepCopy.CopyStruct | deep_copy.go:91-106 | the method computes StructCopy |
| DeepCopy.CopyMap | deep_copy.go:108-116 | the method computes MapCopy |
| DeepCopy.CopyElemsLoop | deep_copy.go:58-62 | the while loop computes CopyElems |
| DeepCopyProps.ResolutionOrder | deep_copy.go:21-32 | typed nil is left alone; otherwise the DeepCopy hook applies first; then, through a pointer source, the pair fills a newly allocated cell the destination points to, and through an addressable source's address it fills the destination itself (corrected path, see Findings); the structural copy runs only when neither hook applies |
| DeepCopyProps.DeepCopyHookWins | deep_copy.go:25-30 | a type with both hooks is copied by its DeepCopy() |
| DeepCopyProps.PointerCopyIsFresh | deep_copy.go:37-41 | the destination pointer names a newly allocated cell, never the source's, holding _deepCopy of the pointee (hooks skipped) |
| DeepCopyProps.PointerToNilPointerFails | deep_copy.go:37-41 | a nil pointer reached through a pointer bypasses the typed-nil check and fails |
| DeepCopyProps.ArrayBulkCopy | deep_copy.go:48-56 | arrays of bulk element kinds are copied by value with no allocation |
| DeepCopyProps.CopyElemsElementwise | deep_copy.go:58-62 | when the loop completes, element j of the result is deepCopy of source element j in the memory the loop has reached after the elements before it, and the final memory is the one reached past the last element |
| DeepCopyProps.CopyElemsFirstFailure | deep_copy.go:58-62 | when the loop fails, it fails with the error of the first element whose copy fails, every earlier element having been copied in order |
| DeepCopyProps.ArrayElementwiseCopy | deep_copy.go:57-63 | an array of another element kind is copied into n elements, element j being deepCopy of source element j in the memory the loop has reached there; a failure is the error of the first element whose copy fails |
| DeepCopyProps.SliceCopyAliases | deep_copy.go:74-88 | whatever the scratch copy does, the destination is the source slice itself |
| DeepCopyProps.DeepCopyOfSliceAliases | deep_copy.go:11-19 | DeepCopy of a slice of a hook-less type returns a slice sharing the source's backing array |
| DeepCopyProps.MapCopyIsShallow | deep_copy.go:108-116 | a map copy is a new map with exactly the source's keys, each mapped to the source's value itself |
| DeepCopyProps.MapCopySharesPointees | deep_copy.go:108-116 | a pointer stored as a map value is shared by the source and the copy |
| DeepCopyProps.NilMapBecomesEmpty | deep_copy.go:109-115 | a nil map reached past the typed-nil check becomes a new empty map |
| DeepCopyProps.CopyFieldsFieldwise | deep_copy.go:97-104 | when the loop completes, unexported fields keep the destination's value, each exported field is deepCopy of the source field in the memory the loop has reached there, and the final memory is the one reached past the last field |
| DeepCopyProps.CopyFieldsFirstFailure | deep_copy.go:97-104 | when the loop fails, it fails with the error of the first exported field whose copy fails, every earlier exported field having been copied in order |
| DeepCopy.FieldZerosAreZero | deep_copy.go:16 | the struct destination a copy fills starts as the struct's zero value, every field zero |
| DeepCopyProps.StructCopyFields | deep_copy.go:96-105 | unexported fields stay zero; exported fields are copied in declaration order, each in the memory the earlier ones left; a failure is the error of the first exported field whose copy fails |
| DeepCopyProps.TimeCopiedWhole | deep_copy.go:92-95 | the time type is copied whole by value |
| DeepCopyProps.ScalarKinds | deep_copy.go:118-133 | integer, unsigned, bool, float and string values are copied by value; every other hook-less leaf kind fails as unsupported |
| DeepCopyProps.UnsupportedLeafKinds | deep_copy.go:132-133 | _deepCopy of a uintptr, complex64, complex128 or unsafe pointer panics with "unsupported type" for that kind and allocates nothing |
| DeepCopyProps.CopyLeavesSourceMemory | deep_copy.go:21-32 | no object that existed before a copy is changed by it |
| DeepCopyProps.PointCopy | deep_copy.go:11-19 | a struct of two int32 fields is copied into a fresh equal value |
| DeepCopyProps.ScalarCopy | deep_copy.go:119-121 | a hook-less int32 is copied by value with no allocation |
| DeepCopyProps.IfaceCopyAsWritten | deep_copy.go:43-45 | as written, a nil interface panics on its invalid `src.Elem()`, a held non-nil value panics on the invalid destination, and only a held typed nil succeeds, leaving the destination a nil interface |
| DeepCopyProps.IfaceCopyAsWrittenFails | deep_copy.go:43-45 | neither an interface holding int 1 nor a nil interface can be copied as written, while the corrected copy copies both |
| DeepCopyProps.AminoCopyAsWritten | deep_copy.go:173-198 | as written, callAminoCopy (whose type check never fires, both sides having the source's type) returns false without a usable pair, fills a fresh pointee the destination points to through a pointer source, and panics at `dst.Set` through an addressable source's address, before either hook runs |
| DeepCopyProps.SliceOfAminoAsWritten | deep_copy.go:80-87 | an element of a slice whose element's pointer type has a usable pair is addressable and takes the address path, which panics as written, while the corrected copy unmarshals it into the scratch slice and still returns the aliasing slice |
| DeepCopyProps.IfaceCopyKeepsDynamicType | deep_copy.go:43-45 | the corrected interface copy keeps the dynamic type and holds deepCopy of the held value; an empty interface stays empty |
| NoRefTypes.PrimDesc | no-reflect.go:57-62 | a primitive's table descriptor is well shaped and describes that type and its kind |
| NoRefTypes.PrimitiveTableShape | no-reflect.go:42-65 | the table has one entry per kind code, present exactly for the primitive kinds and describing the kind's predeclared type |
| NoRefTypes.Init | no-reflect.go:42-65 | the loop of init builds exactly the primitive table |
| NoRefTypes.GetPrimitiveType | no-reflect.go:67-72 | a descriptor is returned exactly for codes above Invalid, inside the table, of a primitive kind, and then it has that kind |
| NoRefTypes.GenPtrType | no-reflect.go:74-82 | a well-shaped pointer descriptor to the element's type, referring to the element |
| NoRefTypes.GenSliceType | no-reflect.go:84-94 | a well-shaped slice descriptor with element count 0 |
| NoRefTypes.GenArrayType | no-reflect.go:96-106 | a well-shaped array descriptor whose element count is the length |
| NoRefTypes.GenMapType | no-reflect.go:108-118 | a well-shaped map descriptor whose two entries are the key's and the value's descriptors |
| NoRefTypes.InterfaceDesc | no-reflect.go:204-210 | the interface descriptor describes the type and carries the given name |
| NoRefTypes.FieldNames | no-reflect.go:248-250 | field names in declaration order |
| NoRefTypes.FieldOffsets | no-reflect.go:248-252 | field offsets in declaration order |
| NoRefTypes.FieldTags | no-reflect.go:248-253 | field tags in declaration order |
| NoRefTypes.StructDesc | no-reflect.go:238-254 | the struct descriptor is well shaped, with one entry per field, in order |
| NoRefRegistry.AllocValid | no-reflect.go:203-210 | allocating keeps the invariant and every existing reference |
| NoRefRegistry.Registration | no-reflect.go:166-274 | every registration keeps the invariant (each cached type maps to a descriptor of that type; each name maps to a descriptor carrying that name, the one cached for its type), only adds entries to the store and both maps, adds types no larger than the one registered, and returns a descriptor that exists and describes that type |
| NoRefRegistry.ElemDesc | no-reflect.go:176-193 | the element case's descriptor refers to the element's and describes the whole type |
| NoRefRegistry.ElemCase | no-reflect.go:176-193 | the pointer, array and slice cases keep what a registration promises |
| NoRefRegistry.MapCase | no-reflect.go:219-228 | the map case keeps what a registration promises |
| NoRefRegistry.MapDone | no-reflect.go:227 | the fresh map descriptor refers to existing key and value descriptors and describes the map type |
| NoRefRegistry.Publish | no-reflect.go:209-217 | the descriptor is cached under its type; a taken non-empty name panics after that; otherwise a non-empty name maps to it |
| NoRefRegistry.InterfaceCase | no-reflect.go:194-218 | the interface case keeps what a registration promises |
| NoRefRegistry.StructCase | no-reflect.go:229-268 | the struct case keeps what a registration promises |
| NoRefRegistry.StructDone | no-reflect.go:256-267 | publishing the finished struct descriptor keeps what a registration promises |
| NoRefRegistry.RegisterFields | no-reflect.go:245-255 | the field loop keeps the invariant and yields one descriptor per field, each describing that field's type |
| NoRefRegistry.FieldStep | no-reflect.go:246-250 | one turn of the field loop, by the outcome of registering the field under its amino tag |
| NoRefRegistry.StripPointers | no-reflect.go:284-286 | the stripped type is not a pointer and is no larger |
| NoRefRegistry.NoRefCodec.constructor | no-reflect.go:120-127 | a new codec has empty maps and satisfies the invariant |
| NoRefRegistry.NoRefCodec.RegisterType | no-reflect.go:166-274 | the method's final state and result are Registration's |
| NoRefRegistry.NoRefCodec.RegisterElem | no-reflect.go:176-193 | the method computes ElemCase |
| NoRefRegistry.NoRefCodec.RegisterMap | no-reflect.go:219-228 | the method computes MapCase |
| NoRefRegistry.NoRefCodec.PublishDesc | no-reflect.go:256-267 | the method computes Publish |
| NoRefRegistry.NoRefCodec.RegisterStruct | no-reflect.go:229-268 | the method computes StructCase |
| NoRefRegistry.NoRefCodec.RegisterFieldList | no-reflect.go:245-255 | the for loop computes RegisterFields |
| NoRefRegistry.NoRefCodec.RegisterField | no-reflect.go:246-254 | one turn of the loop computes one step of RegisterFields |
| NoRefRegistry.NoRefCodec.Register | no-reflect.go:276-290 | Register registers the pointer-stripped type and returns its error or panic |
| NoRefRegistryProps.AlreadyRegistered | no-reflect.go:167-169 | a cached type returns its descriptor and "already exists"; nothing changes |
| NoRefRegistryProps.PrimitiveIsShared | no-reflect.go:170-173 | a primitive kind returns its shared table descriptor; nothing changes |
| NoRefRegistryProps.CompositesNotCached | no-reflect.go:176-193 | pointer, array, slice and map types are never cached, and the name is ignored |
| NoRefRegistryProps.ElemDescriptorIsFresh | no-reflect.go:176-193 | the pointer, array or slice descriptor is the newest, refers to the element's descriptor, and has the array's length as its element count (0 otherwise) |
| NoRefRegistryProps.ElemErrorPropagates | no-reflect.go:177-180 | an element error is returned as it is, with its descriptor |
| NoRefRegistryProps.MapRegistration | no-reflect.go:219-228 | the map descriptor is fresh and refers to key then value; a key or value error returns no descriptor |
| NoRefRegistryProps.InvalidTypesPanic | no-reflect.go:269-270 | channel and function types (and Invalid) panic with "invalid type" |
| NoRefRegistryProps.InterfaceRegistration | no-reflect.go:194-218 | an interface is cached under its type; a taken non-empty name panics after caching; otherwise the name maps to the same descriptor |
| NoRefRegistryProps.StructRegistration | no-reflect.go:229-268 | a struct whose fields register is described by a fresh descriptor of the fields' descriptors, cached before its name is claimed |
| NoRefRegistryProps.StructFields | no-reflect.go:245-254 | names, descriptors, offsets and tags are parallel, have one entry per field, follow declaration order, and each descriptor describes its field's type |
| NoRefRegistryProps.StructFieldFailure | no-reflect.go:247-249 | a failing field leaves the struct uncached and unnamed and returns no descriptor |
| NoRefRegistryProps.CachedFieldReached | no-reflect.go:249-254 | a field loop that reaches a field of a cached type stops there: register's first check (line 167) returns "already exists" with the cached descriptor, and the registry is unchanged |
| NoRefRegistryProps.CachedFieldAborts | no-reflect.go:249-254 | a field of a cached type keeps the field loop from succeeding: it panics or fails earlier, or fails at that field with "already exists" (register's only error) |
| NoRefRegistryProps.StructWithCachedFieldFails | no-reflect.go:245-249 | a struct with a field of a cached type cannot be registered |
| NoRefRegistryProps.NewStructIsCached | no-reflect.go:256 | a newly registered struct is cached once it succeeds |
| NoRefRegistryProps.RepeatedStructFieldFails | no-reflect.go:245-256 | a struct with two fields of the same new struct type is refused |
| NoRefRegistryProps.StripsAllPointers | no-reflect.go:284-289 | Register registers only the innermost non-pointer type |
| NoRefRegistryProps.FreshCodecInterface | no-reflect.go:120-127 | on a new codec an interface registers and names, and registering it again is "already exists" |
| NoRefEncode.Writer.Write | no-reflect.go:338 | writing appends one token |
| NoRefEncode.EncodeWith | no-reflect.go:347 | dispatching on a descriptor's encoder computes Enc |
| NoRefEncode.EncodePrimitive | no-reflect.go:292-340 | the method computes EncPrim |
| NoRefEncode.EncodePtr | no-reflect.go:346-349 | the method computes EncPtr |
| NoRefEncode.EncodeInterface | no-reflect.go:355-367 | the method computes EncIface |
| NoRefEncode.EncodeArray | no-reflect.go:373-385 | the method's loop computes EncArray |
| NoRefEncode.EncodeSlice | no-reflect.go:391-403 | the method's loop computes EncSlice |
| NoRefEncode.EncodeMap | no-reflect.go:409-428 | the method's loop computes EncMap |
| NoRefEncode.EncodeEntry | no-reflect.go:413-424 | one turn of the map loop is one step of EncEntries |
| NoRefEncode.EncodeStruct | no-reflect.go:434-447 | the method's loop computes EncStruct |
| NoRefEncode.EncodeField | no-reflect.go:437-445 | one turn of the field loop is one step of EncFields |
| NoRefEncode.Encode | no-reflect.go:129-160 | Encode returns no bytes and writes what EncodeSpec says |
| NoRefEncodeProps.PrimitiveEncoding | no-reflect.go:292-340 | a primitive kind writes one token of its type and the slot's value; an unsafe pointer writes its address and reads nothing |
| NoRefEncodeProps.PointerEncoding | no-reflect.go:346-349 | a pointer is followed to its target; a nil pointer hands the element encoder a nil address |
| NoRefEncodeProps.NilPointerToPrimitive | no-reflect.go:346-349 | a nil pointer to a primitive panics without writing |
| NoRefEncodeProps.InterfaceEncoding | no-reflect.go:355-367 | a nil interface panics; a held zero value writes nothing and succeeds; an unregistered dynamic type is "not found"; otherwise its descriptor writes |
| NoRefEncodeProps.InterfaceHoldingPrimitive | no-reflect.go:361-364 | an interface holding a non-zero primitive is "not found" |
| NoRefEncodeProps.ElemsAllSucceed | no-reflect.go:377-383 | when every element encodes, the loop writes them in order and succeeds |
| NoRefEncodeProps.ElemsStopAtFirstError | no-reflect.go:379-382 | the loop stops at the first failing element, returning its error after the earlier elements' tokens |
| NoRefEncodeProps.ElemsIgnoreRest | no-reflect.go:379-382 | elements after the first failure are never looked at |
| NoRefEncodeProps.SliceShowsAtMostFive | no-reflect.go:395 | slices that agree on their first five elements encode alike |
| NoRefEncodeProps.SliceWritesFirstFive | no-reflect.go:391-403 | a slice writes its header then exactly min(len, 5) elements |
| NoRefEncodeProps.ArrayWritesAll | no-reflect.go:373-385 | an array writes its header then every element in order |
| NoRefEncodeProps.FieldsAllSucceed | no-reflect.go:437-446 | when every field encodes, the loop writes each field's part in declaration order |
| NoRefEncodeProps.FieldsStopAtFirstError | no-reflect.go:437-446 | at the first failing field the loop writes its opening and its tokens and returns its error, with no closing and no later field |
| NoRefEncodeProps.StructWritesAllFields | no-reflect.go:434-447 | a struct writes its header, then each field's part in order |
| NoRefEncodeProps.NilEmptyStruct | no-reflect.go:434-447 | a fieldless struct at a nil address writes just its header |
| NoRefEncodeProps.EntriesAllSucceed | no-reflect.go:412-425 | the map loop writes key, ":", value, "," per entry in visiting order |
| NoRefEncodeProps.MapWritesAllEntries | no-reflect.go:409-428 | when the range visits each key of the map exactly once and every key and value encodes, the map writes its opening, one entry part per map entry in visiting order (each key's part present, hence exactly once), and "}" |
| NoRefEncodeProps.EachEntryOnce | no-reflect.go:413-425 | over a visiting order that enumerates the map, there is one entry part per entry and each key's own part is one of them |
| NoRefEncodeProps.EnumerationLength | no-reflect.go:413-414 | an order that visits every key of a map exactly once is exactly as long as the map has entries |
| NoRefEncodeProps.NilMap | no-reflect.go:409-428 | a nil map writes an empty rendering |
| NoRefEncodeProps.EncodeResolution | no-reflect.go:130-140 | Encode uses the given descriptor, else the registered one, else the kind's shared one, else reports "not found" and writes nothing |
| NoRefEncodeProps.EncIfaceAsWritten | no-reflect.go:355-367 | the interface encoder as written panics in UnsafeAddr whenever the dynamic type is registered |
| NoRefEncodeProps.IfaceAsWrittenPanics | no-reflect.go:366 | as written, no non-zero registered value is ever encoded through an interface |
| NoRefEncodeProps.IfaceExample | no-reflect.go:355-367 | a Shape holding Point{A: 1}: as written it panics; the model writes the struct |
| NoRefEncodeProps.EncEntriesAsWritten | no-reflect.go:412-416 | the map loop as written panics in UnsafeAddr on the first entry |
| NoRefEncodeProps.EntriesAsWrittenPanic | no-reflect.go:416 | as written, a map with an entry panics right after its opening |
| NoRefEncodeProps.MapExample | no-reflect.go:409-428 | the map {1: 2}: as written it panics after the opening; the model writes "1:2," and closes |
| GenProto.TypeToP3 | genproto/genproto.go:263-331 | only arrays and slices are repeated; a message type comes out with its package prefix |
| GenProto.P3Doc.constructor | genproto/genproto.go:211-213 | a new document has the package and Go package, no imports and no messages |
| GenProto.P3Doc.AddImport | genproto/genproto.go:187 | an import is added to the document's imports |
| GenProto.P3Doc.AddMessage | genproto/genproto.go:223 | a message is appended to the document's messages |
| GenProto.GenerateMessagePartial | genproto/genproto.go:116-201 | the result and the document's imports are MessageSpec's; nothing else of the document changes |
| GenProto.GenerateField | genproto/genproto.go:172-197 | one turn of the field loop is FieldSpec; only the imports change |
| GenProto.GenerateSchemaForTypes | genproto/genproto.go:205-244 | the result is SchemaSpec's, and on success the new document holds it |
| GenProtoProps.TimeAndDurationFirst | genproto/genproto.go:266-271 | time and duration map to google.protobuf Timestamp and Duration, unrepeated, before the kind is looked at |
| GenProtoProps.ScalarMapping | genproto/genproto.go:276-303 | each scalar kind maps, unrepeated, to the proto3 scalar of the table |
| GenProtoProps.ScalarOnlyFromTable | genproto/genproto.go:275-329 | an unrepeated scalar other than bytes comes only from its kind's table entry |
| GenProtoProps.ByteListIsBytes | genproto/genproto.go:307-309 | an array or slice of bytes is one bytes field |
| GenProtoProps.RepeatedField | genproto/genproto.go:306-316 | a field is repeated exactly when it is a list of non-bytes whose element is not repeated, and then has the element's type |
| GenProtoProps.ListOfListsRefused | genproto/genproto.go:311-313 | a list of lists panics as multi-dimensional |
| GenProtoProps.StructIsMessage | genproto/genproto.go:322-326 | a struct is the message named after the declared type, in its package's proto3 package |
| GenProtoProps.RefusedKinds | genproto/genproto.go:304-328 | complex kinds panic as not yet supported; chan, func, map, pointer and unsafe-pointer kinds share one "not supported" panic (the model records which kind); kinds with no case (invalid, uintptr) reach the "unexpected rt kind" default |
| GenProtoProps.SingleValuedTypes | genproto/genproto.go:263-331 | typeToP3Type succeeds unrepeated exactly on the single-valued types |
| GenProtoProps.ExpressibleTypes | genproto/genproto.go:263-331 | typeToP3Type succeeds exactly on the expressible types, and repeats exactly those that are not single-valued |
| GenProtoProps.OwnPackageOmitted | genproto/genproto.go:175-180 | a message type is printed without its package exactly when it is in the document's package |
| GenProtoProps.FieldStep | genproto/genproto.go:172-197 | a field's imports grow by the field's own import, and a success is the field made from the input field |
| GenProtoProps.FieldsImportsGrow | genproto/genproto.go:181-189 | imports only grow, each new one being some field's import |
| GenProtoProps.FieldsKeepPrefix | genproto/genproto.go:196 | fields made so far are kept and one is added per input field |
| GenProtoProps.FieldsInOrder | genproto/genproto.go:172-198 | the field at each position is made from the input field at that position |
| GenProtoProps.FieldsImportsComplete | genproto/genproto.go:181-189 | every field's import is among the document's imports |
| GenProtoProps.MessageShape | genproto/genproto.go:117-170 | a message is made only past every check, named after the type, and the imports only grow |
| GenProtoProps.MessageFromFields | genproto/genproto.go:144-198 | the message has one field per field of the type (or the implicit Value field), in order, with name and number |
| GenProtoProps.MessageImports | genproto/genproto.go:181-189 | each import the message adds is one of its fields' imports |
| GenProtoProps.ImplicitValueField | genproto/genproto.go:144-159 | a non-struct type becomes the message with the single field "Value", number 1, of its representation's proto3 type |
| GenProtoProps.MessagesKeepPrefix | genproto/genproto.go:215-224 | the message loop keeps package, Go package and earlier messages, grows imports, and adds one message per target |
| GenProtoProps.MessagesNoDoublePointer | genproto/genproto.go:218-221 | a successful message loop saw no double pointer |
| GenProtoProps.MessagesNamed | genproto/genproto.go:215-224 | each message of the loop has type information and is named after its target |
| GenProtoProps.ListsNeedTypeInfo | genproto/genproto.go:228-237 | the second loop passes exactly when every non-interface type has type information |
| GenProtoProps.SchemaMessages | genproto/genproto.go:205-244 | the root package panics; otherwise the document is in pkg's packages with one message per non-interface type (pointers dereferenced once), in input order, named after it |
| GenProtoProps.SchemaRefuses | genproto/genproto.go:215-237 | a schema never accepts a double pointer or a non-interface type without type information |
| GenProtoProps.DoublePointerRefused | genproto/genproto.go:120-122 | a double pointer in the list makes schema generation panic |

## Left out

- I/O: `fmt.Println` debug output, including the `"XXX"` print of a string's header, is not modelled. The encoders' `io.Writer` is the class `Writer`, which collects tokens rather than bytes.
- Rendering: `fmt`'s `%v` and `%s` are not modelled. Each token carries the type and value it renders.
- `NoRefCodec.Encode` writes to `os.Stdout`, not to a caller's writer. The model takes the writer as a parameter, and `Encode` returns no bytes.
- `NoRefCodec.Encode`, lines 141-151: this debug scaffolding asserts that `obj` is a string, then encodes from `&obj + 0x10`. It is not modelled. The model encodes `obj`'s value with the chosen descriptor.
- A nil `obj` in `Encode`, where `reflect.TypeOf` gives nil, is not modelled: `obj` is always a typed value.
- `Decode` and every `norefDecode*` are stubs that return nil, so no encode/decode round trip exists to state.
- Memory layout: `unsafe` pointer arithmetic, `elemSize`, `SliceHeader`/`StringHeader` reinterpretation and field offsets used as addresses are not modelled. The model encodes:
  - an array's elements with their own length (the source reads the array as a slice header at line 374);
  - struct fields by index, carrying offsets only as numbers.
- `norefEncodePrimitive` reads an int16 slot as an `int` (line 302). The model reads the slot's own value, because the bytes next to a slot are not modelled.
- `jsonTag` is never set and is not modelled.
- Map iteration order is a given function of the map (`Order`). A key that the order names but the map lacks is passed over.
- The `fuel` arguments bound recursion over values and descriptors. `OutOfFuel`/`TooDeep`, `IllFormed`/`IllTyped` and `Dangling` exist only in the model; Go cannot reach them with well-typed values.
- Registration recurses over finite type trees. A recursive Go type, on which `register` would not terminate, cannot be expressed.
- `register`'s re-checks of `typeInfos` inside the Interface and Struct cases (lines 195-202, 230-237) are not modelled. They cannot succeed, because line 167 has already returned for a cached type.
- The Go struct descriptor is allocated before the field loop. The model builds it after the loop; nothing can read it before it is cached.
- `Register`'s type switch on `o interface{}` is not modelled: the model takes the type itself.
- Concurrency: `sync.RWMutex` and the unused `sealed` field are not modelled.
- Reflection calls (`MethodByName`, `Call`) are not modelled. What the user's `DeepCopy`, `MarshalAmino` and `UnmarshalAmino` return are given functions in `Hooks`.
- Declared composite types: only `Prim`, `Iface` and `StructOf` carry a package path and a name, so a declared pointer, array, slice or map type (`type Coins []Coin`) cannot be expressed. It is the same `GoType` as its unnamed underlying type. So the contracts do not cover three things:
  - `GenerateProto3MessagePartial` on such a type: genproto.go:163-166 accepts it, because `rt.PkgPath()` is not empty, and builds the implicit "Value" message (lines 146-158). In the model, `SliceOf`, `ArrayOf` and `MapOf` always reach `NoPkgPath`, so only declared primitive types reach `GenProtoProps.ImplicitValueField`.
  - Hooks: `Hooks.of` is keyed on `GoType`, so a `DeepCopy`, `MarshalAmino` or `UnmarshalAmino` method of `Coins` would also apply to every `[]Coin`. The type tests of deep_copy.go:155-163 cannot tell the two apart.
  - `register`: `Coins` and `[]Coin` are distinct keys in Go. The codec is unaffected for now, because `typeInfos` receives only struct and interface types (no-reflect.go:210, 260), so neither type is cached.
- Hooks: the user's `DeepCopy`, `MarshalAmino` and `UnmarshalAmino` neither allocate nor write memory; their results may refer only to objects that already exist. A `DeepCopy()` that returns a freshly allocated pointer cannot be expressed, and the "memory only grows" and "source memory unchanged" contracts on the hook paths rest on this.
- DeepCopy.Copy: on the address path of `callAminoCopy` (lines 180-193) the model writes the unmarshalled value into the destination, the evidently intended behaviour, rather than the panic at line 193 (see Findings; the as-written behaviour is `DeepCopyProps.AminoCopyAsWritten`).
- On the pointer path of `callAminoCopy`, lines 178-179 allocate a pointee that is discarded, either when `canAminoCopy` fails (the traversal then allocates its own) or when line 193 allocates again. The model allocates one cell, so its memory lacks these unreachable cells.
- `isTypedNilReflect`, `isExported`, `timeType` and `durationType` are given predicates over the modelled types.
- `Codec.GetTypeInfo`, `amino.Package`, and the package search of `GetP3ImportPath` are not part of this model. They enter as given data and functions (`Env`).
- The source of `GetUltimateElem` is not part of this model. `GenProto.UltimateElem` models it by what it is used for, following the element information to its end. It carries no contract of its own, and its callers' contracts state what they need of it.
- The document's imports are a set, so insertion order and duplicates are not modelled.
- `findNestedLists`, `sortFound` and the debug print loop of `GenerateProto3SchemaForTypes` are not part of this model. Only the second loop's demand for type information (lines 228-237) is modelled.
- File-system and process work in genproto (`WriteProto3SchemaForTypes`, `WriteProto3Schema`, `MakeProtoFolder`, `RunProtoc`, `copyFile`) is I/O and is not modelled.
- Floating-point and complex values are opaque leaves: copying and rendering carry them unchanged.

## Findings

| source | as written | input that shows it | evidently intended | confidence | as-written member | corrected member |
|---|---|---|---|---|---|---|
| deep_copy.go:43-45 | the interface case calls `deepCopy(src.Elem(), dst.Elem())`; `dst` is a fresh zero interface, so `dst.Elem()` is the invalid `reflect.Value` and the hook checks panic on its type | `DeepCopy` of a struct whose interface field holds `int(1)`; also `DeepCopy` of a pointer to a nil interface, whose `src.Elem()` is the invalid value on which `callDeepCopy`'s `MethodByName` panics | copy the held value and store it, with its dynamic type, in the destination interface; leave a nil interface nil | not executed | DeepCopyProps.IfaceCopyAsWrittenFails | DeepCopyProps.IfaceCopyKeepsDynamicType |
| deep_copy.go:193 | on the address path, lines 184-185 replace `dst` by `dst.Addr()`, which is not settable, so `dst.Set(cpy)` panics before `MarshalAmino` is called | `DeepCopy([]Coin{{}})` where `*Coin` has `MarshalAmino`/`UnmarshalAmino` and `Coin` no hook: slice elements are addressable | unmarshal into the destination's own storage | not executed | DeepCopyProps.SliceOfAminoAsWritten | DeepCopyProps.ResolutionOrder |
| no-reflect.go:366 | `v` comes out of an interface with `Elem()`, so it is not addressable and `v.UnsafeAddr()` panics | an interface-typed `Shape` holding a registered `Point{A: 1}` | encode the held value with its registered descriptor | not executed | NoRefEncodeProps.IfaceExample | NoRefEncodeProps.InterfaceEncoding |
| no-reflect.go:416 | keys and values from `MapRange` are copies, not addressable, so `UnsafeAddr` panics on the first entry | the map `map[int]int{1: 2}` | write each entry as key, ":", value, "," | not executed | NoRefEncodeProps.MapExample | NoRefEncodeProps.MapWritesAllEntries |
