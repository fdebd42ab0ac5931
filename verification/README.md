# Hessian C# codec factory, modelled in Dafny

This project models two pieces of the codec layer of HessianCSharp, a .NET implementation of the Hessian binary remoting protocol.

The first is the serializer factory `CSerializerFactory`, which decides which codec writes or reads a value. It has three static tables:
- type to serializer;
- type to deserializer;
- wire type name to deserializer.

The factory resolves codecs in these ways:
- `GetSerializer(Type)` and `GetDeserializer(Type)` check the table first. On a miss, they classify the type by its capabilities in a fixed order where the first match wins. A type with none of the capabilities gets a reflective object codec. That codec is memoised in a process-wide cache keyed by the type's full name.
- `GetDeserializer(string)` resolves a wire type name:
  - an exact table hit is returned as is;
  - a leading `[` wraps the resolution of the rest of the name in an array deserializer;
  - any other name is looked up in the loaded assemblies, in load order.
- `GetObjectDeserializer` and `GetListDeserializer` fall back to a `Hashtable` or `ArrayList` reader when the name resolves to nothing. The factory creates each fallback reader lazily, once per instance. Their overloads that take an expected type keep the name's reader only when it fits that type.
- `ReadMap` and `ReadList` pick a reader the same way, but build a fresh fallback reader on every call.

The second piece is `CDecimalSerializer.WriteObject`: the exact sequence of output-stream calls made for one `decimal` value. It covers the three meanings of the sentinel that `WriteObjectBegin` returns.

The model has these modules:
- **Shared types.** .NET types are `TypeDesc` records of capability flags, plus an optional nullable argument and array element type. Serializers and deserializers are tags.
- **Reflection.** The host's reflection is a `Host` value: the assemblies as an ordered list of name-to-type maps, `IsAssignableFrom`, and the two questions a deserializer answers about itself.
- **Caches and instance state.** The caches are maps threaded through the functions as explicit state. So are the factory instance's two fallback fields.
- **Decimal writer.** It is a function from the stream's answers to a trace of events. A reader of such traces is its round-trip partner.

Two points of the factory's behaviour deserve a note:
- **Wire names `[[int` and `[[[int`.** `[int` is itself a registered name, bound to the built-in integer-array deserializer, so the recursion over leading `[` markers stops there: `[[[int` gives two array deserializers around the integer-array deserializer, not three around an `int` deserializer. Both shapes read an `int[][][]` (`WireNames.TripleIntArray`, `WireNames.IntArrayNesting`).
- **Three wire-name constants.** The wire names of DBNull, Guid and CultureInfo are constants of classes that are not part of this model. They are parameters (`ExtraWireNames`). Their only constraint is that they are distinct from each other and from the other registered names, which the static constructor needs in order to complete, and that they do not start with `[`.

## Model

| member | source | states |
|---|---|---|
| DecimalCodec.WriteObject | hessiancsharp/io/CDecimalSerializer.cs:19-47 | A back-reference writes nothing and a null writes one null. A non-null value starts with `Begin("decimal")` and ends with its text or a map end. Every field count declared is 1 and is followed by the field name `value`. |
| DecimalCodec.WriteThenRead | hessiancsharp/io/CDecimalSerializer.cs:21-45 | Reading back any trace the writer produces gives what was written (back-reference, null, or the value's text), whatever sentinel the stream answered. |
| DecimalCodec.TraceBySentinel | hessiancsharp/io/CDecimalSerializer.cs:27-44 | The full trace for each sentinel: below -1 it is framed as a map, at -1 the class definition comes first, and at 0 or above only the text follows `Begin`. |
| DecimalCodec.TextWrittenOnce | hessiancsharp/io/CDecimalSerializer.cs:29-45 | On every path that writes a value, its text occurs exactly once. The field name occurs once, except when the class is already known, when it does not occur. |
| DecimalCodec.DeclaredFieldCountMatches | hessiancsharp/io/CDecimalSerializer.cs:37-44 | For a new class, the declared field count equals the number of field names written. |
| SerializerTables.StaticSerializerTypes | hessiancsharp/io/CSerializerFactory.cs:108-188 | The serializer table covers exactly these types: the 21 `addBasic` types, FileInfo, DataTable, DataSet, decimal, DBNull, Guid and CultureInfo. |
| SerializerTables.StaticDeserializerTypes | hessiancsharp/io/CSerializerFactory.cs:108-188 | The type-keyed deserializer table covers only the `addBasic` types, FileInfo, DataTable and DataSet. Decimal, DBNull, Guid and CultureInfo are reachable only by wire name. |
| SerializerTables.StaticWireNames | hessiancsharp/io/CSerializerFactory.cs:108-188 | The wire-name table covers exactly the 21 `addBasic` names, `decimal` and the three extra names. |
| SerializerTables.IntRegistration | hessiancsharp/io/CSerializerFactory.cs:182-188 | `addBasic` puts one deserializer under both the type `int` and the name `int`. |
| SerializerTables.IntArrayRegistration | hessiancsharp/io/CSerializerFactory.cs:130 | `int[]` and `[int` share the integer-array deserializer. |
| SerializerTables.DecimalRegistrations | hessiancsharp/io/CSerializerFactory.cs:160-161 | Decimal has the decimal serializer and no type-keyed deserializer. The name `decimal` maps to the decimal deserializer. |
| CodecCache.LockedGetOrAdd | hessiancsharp/io/CSerializerFactory.cs:243-256 | The locked section returns the cached entry for the key. It builds and inserts only when the key is absent. The cache gains exactly that key and keeps every other entry. |
| CodecCache.GetOrAdd | hessiancsharp/io/CSerializerFactory.cs:236-257 | The unlocked read plus the locked section: the same guarantees as the locked section. |
| CodecCache.RacingFirstUses | hessiancsharp/io/CSerializerFactory.cs:315-326 | Two first uses that both missed get the same codec, the first one's. The cache grows by exactly one entry. |
| CodecCache.CachedLookupIsStable | hessiancsharp/io/CSerializerFactory.cs:308-311 | Once a key is cached, later lookups return that entry and leave the cache as it is. |
| TypeResolution.SerializerOrderFirstMatch | hessiancsharp/io/CSerializerFactory.cs:205-233 | The first-match position in the serializer order is this cascade: dictionary, enumerable, stream, exception, array, enum, ISerializable. |
| TypeResolution.DeserializerOrderFirstMatch | hessiancsharp/io/CSerializerFactory.cs:274-305 | The first-match position in the deserializer order is this cascade: dictionary, nullable, array, enum, list or generic enumerable, exception, ISerializable. |
| TypeResolution.GetSerializer | hessiancsharp/io/CSerializerFactory.cs:198-262 | A table hit returns the entry. Otherwise the serializer of the first matching capability is returned, with the cache untouched. A type with no capability gets the cached object serializer for its full name, created only if absent. The cache only grows. |
| TypeResolution.GetDeserializer | hessiancsharp/io/CSerializerFactory.cs:269-332 | The same structure in its own order. An array resolves to an array deserializer with a component. The cache only grows, and it only ever holds object deserializers keyed by their type's full name. |
| TypeResolution.TableEntryWinsForSerializer | hessiancsharp/io/CSerializerFactory.cs:200-201 | `string` is enumerable, yet it gets its table entry, the basic string serializer. |
| TypeResolution.DictionaryBeforeEnumerable | hessiancsharp/io/CSerializerFactory.cs:205-212 | An unregistered type that is both a dictionary and enumerable gets the map serializer. |
| TypeResolution.EnumerableBeforeArray | hessiancsharp/io/CSerializerFactory.cs:209-224 | An unregistered type that is both enumerable and an array gets the enumerable serializer. |
| TypeResolution.DictionaryFirstForDeserializer | hessiancsharp/io/CSerializerFactory.cs:274-283 | On the deserializer side, the dictionary rule precedes the nullable and array rules. |
| TypeResolution.NullableResolvesAsArgument | hessiancsharp/io/CSerializerFactory.cs:278-283 | An unregistered nullable type resolves exactly as its argument does, including the effect on the cache. |
| TypeResolution.ArrayWrapsElement | hessiancsharp/io/CSerializerFactory.cs:284-287 | An unregistered array type gets an array deserializer around its element type's deserializer. |
| TypeResolution.SerializerResolutionIsStable | hessiancsharp/io/CSerializerFactory.cs:236-256 | Resolving again with the cache the first resolution left behind gives the same serializer and the same cache. |
| TypeResolution.DeserializerResolutionIsStable | hessiancsharp/io/CSerializerFactory.cs:271-327 | The same for deserializers, through any nesting of nullable and array types. |
| TypeResolution.SerializerSharedByFullName | hessiancsharp/io/CSerializerFactory.cs:236-252 | Two capability-less types with one full name share the object serializer built for the first of them. |
| TypeResolution.CachedDeserializerMatchesFullName | hessiancsharp/io/CSerializerFactory.cs:308-324 | From a cache the factory filled, a capability-less type gets an object deserializer for a type of the same full name. |
| TypeResolution.NullableOnlyUnwrappedForDeserializer | hessiancsharp/io/CSerializerFactory.cs:278-282 | An unregistered `Nullable<A>` is written by an object serializer of its own, but read exactly as `A` is. |
| TypeResolution.NullableIntReadAsInt | hessiancsharp/io/CSerializerFactory.cs:278-282 | With the static tables, `int?` is read by the integer deserializer and the cache is untouched. |
| WireNames.FirstDefining | hessiancsharp/io/CSerializerFactory.cs:384-392 | Returns the first assembly, in load order, that defines the name, or reports that none does. |
| WireNames.ResolveWireName | hessiancsharp/io/CSerializerFactory.cs:340-408 | An empty name gives nothing and an exact hit gives the entry. A name starting with `[` gives an array deserializer. A bare name gives something exactly when some assembly defines it, and then it is the type resolution of the first definition. The cache only grows and keeps its invariant. |
| WireNames.GetDeserializerByName | hessiancsharp/io/CSerializerFactory.cs:340-343 | A null name gives nothing and leaves the cache unchanged. |
| WireNames.ArrayPrefixWraps | hessiancsharp/io/CSerializerFactory.cs:353-358 | `n` leading markers, none of whose intermediate names is registered, wrap the base name's resolution in `n` array deserializers, even when that resolution is nothing. |
| WireNames.ArrayOfRegistered | hessiancsharp/io/CSerializerFactory.cs:346-358 | One marker before a registered name gives an array of that name's entry. |
| WireNames.NoNameStartsWithTwoMarkers | hessiancsharp/io/CSerializerFactory.cs:116-170 | No registered wire name starts with two array markers. |
| WireNames.NestedArrayNames | hessiancsharp/io/CSerializerFactory.cs:353-358 | In such a table, any array name behind `n` further markers resolves to `n` array wrappers around that name's own resolution. |
| WireNames.IntArrayNesting | hessiancsharp/io/CSerializerFactory.cs:353-358 | With the static tables, `[int` behind `n` markers gives `n` array deserializers around the integer-array deserializer, for every depth `n`. |
| WireNames.TripleIntArray | hessiancsharp/io/CSerializerFactory.cs:353-358 | `[[[int` gives two array deserializers around the integer-array deserializer. |
| WireNames.DecimalNameResolves | hessiancsharp/io/CSerializerFactory.cs:346-351 | `decimal` is an exact hit for the decimal deserializer. |
| WireNames.LoneMarkerHasNoComponent | hessiancsharp/io/CSerializerFactory.cs:353-358 | `[` alone gives an array deserializer with no component deserializer. |
| WireNames.UnknownNameResolvesToNothing | hessiancsharp/io/CSerializerFactory.cs:384-400 | A bare name that no assembly defines gives nothing and leaves the cache alone. |
| WireNames.FirstAssemblyWins | hessiancsharp/io/CSerializerFactory.cs:386-393 | The first defining assembly's type is the one resolved. Later definitions are ignored. |
| WireNames.NameResolutionIsStable | hessiancsharp/io/CSerializerFactory.cs:340-408 | Resolving a name again with the cache left behind gives the same result and the same cache. |
| Fallbacks.GetObjectDeserializer | hessiancsharp/io/CSerializerFactory.cs:557-571 | Returns the name's deserializer when there is one. Otherwise it returns the instance's fallback reader: it creates that reader and stores it on first need, and reuses it afterwards. The list fallback is untouched. In a factory whose fallback fields hold only their own kind of reader, the fallback is the `Hashtable` map reader, and that invariant is kept. |
| Fallbacks.GetListDeserializer | hessiancsharp/io/CSerializerFactory.cs:458-472 | The same, with the `ArrayList` enumerable reader and the list fallback field; the map fallback is untouched. |
| Fallbacks.GetObjectDeserializerFor | hessiancsharp/io/CSerializerFactory.cs:417-431 | Keeps the name's reader when it fits, in one of these cases: no expected type; the reader's own type is the expected type or assignable to it; the reader is read-resolve; its own type is a handle. Otherwise it resolves the expected type, on the state the lookup left behind. |
| Fallbacks.GetListDeserializerFor | hessiancsharp/io/CSerializerFactory.cs:439-451 | The same, keeping the reader only on the first three of those conditions. |
| Fallbacks.ReadMap | hessiancsharp/io/CSerializerFactory.cs:541-550 | The map is read by the name's deserializer, or else by a `Hashtable` map reader. |
| Fallbacks.ReadList | hessiancsharp/io/CSerializerFactory.cs:580-590 | The list is read by the name's deserializer, or else by an `ArrayList` reader. The length is passed on unchanged. |
| Fallbacks.HashMapFallbackCreatedOnce | hessiancsharp/io/CSerializerFactory.cs:563-569 | After a first unresolved name, every later unresolved name gets the same `Hashtable` reader, and the fallback field does not change. |
| Fallbacks.ArrayListFallbackCreatedOnce | hessiancsharp/io/CSerializerFactory.cs:464-470 | The same for the `ArrayList` reader. |
| Fallbacks.ListFitImpliesObjectFit | hessiancsharp/io/CSerializerFactory.cs:421-445 | A reader that fits as a list reader also fits as an object reader. |
| Fallbacks.OverloadsPartOnExemptReader | hessiancsharp/io/CSerializerFactory.cs:417-450 | A resolved reader that fits only through read-resolution or the handle interface is kept by the object overload. The list overload replaces it with the expected type's deserializer. |
| Fallbacks.ReadResolveKeptOnlyForObjects | hessiancsharp/io/CSerializerFactory.cs:417-450 | A concrete host on which the two overloads return different readers for the same name and expected type. |
| Fallbacks.ReadMapAgreesWithObjectDeserializer | hessiancsharp/io/CSerializerFactory.cs:541-569 | `ReadMap` uses the reader `GetObjectDeserializer` hands out and leaves the cache as it does. It never touches the fallback field. |
| Fallbacks.ReadListAgreesWithListDeserializer | hessiancsharp/io/CSerializerFactory.cs:458-589 | The same for `ReadList` and `GetListDeserializer`. |
| Fallbacks.UnknownNameFallsBack | hessiancsharp/io/CSerializerFactory.cs:541-589 | A name that no table or assembly knows is read as a `Hashtable` map or an `ArrayList` list. |

## Left out
- The `COMPACT_FRAMEWORK` branch (CSerializerFactory.cs:361-376, 474-532): it scans the executable's directory for assembly files, which is file-system I/O. The model covers the desktop branch only.
- The locks and threads: the caches are modelled sequentially. `CodecCache.RacingFirstUses` states the observable effect of the double-checked locking: at most one insert per key, never replaced.
- Exceptions: the `try`/`catch` around the assembly search is modelled by the search having no failure path. `Hashtable.Add` throwing on a duplicate key is modelled by the `ValidExtraNames` precondition of `StaticTables`.
- Object identity: two codecs are "the same" when their tags are equal. `Fallbacks.HashMapFallbackCreatedOnce` and `Fallbacks.ArrayListFallbackCreatedOnce` state that the fallback value and field are unchanged, not that the same .NET instance is returned.
- Reflection: `IsAssignableFrom`, `GetGenericArguments`, `AppDomain.GetAssemblies`, `GetOwnType` and `IsReadResolve` are given as fields of `Host`, not computed.
- The internals of the concrete codecs (object, map, array, enumerable, DataSet/DataTable and the others): they are tags.
- The numeric values of `CSerializationConstants` and the wire names of DBNull, Guid and CultureInfo: their classes are not part of this model, so they are an enumeration and parameters respectively.
- DecimalCodec.TextWrittenOnce: `decimal.ToString()` is culture-dependent and not modelled, so the decimal's text is an opaque string; the lemma assumes only that this text is not the field name `value` itself, and says nothing about a text that is.
- DecimalCodec.DeclaredFieldCountMatches: the same assumption, that the decimal's text differs from the field name `value`.
- WireNames.ResolveWireName: the array-name test is a plain comparison of the first character with `[`. .NET's culture-sensitive `StartsWith("[")` also accepts a name whose leading characters are ignorable (a soft hyphen before `[`, say); the model treats such a name as a bare name, and WireNames.UnknownNameResolvesToNothing and Fallbacks.UnknownNameFallsBack inherit this.
- TypeResolution.GetSerializer and TypeResolution.GetDeserializer: a type is identified by the value of its descriptor, while the .NET tables key on the identity of the `Type` object (hessiancsharp/io/CSerializerFactory.cs:200 and 271). A distinct type with the same name and flags, such as one from a second load of an assembly, misses the static tables in .NET but hits them in the model.
- The output stream behind `AddRef` and `WriteObjectBegin`: their answers are inputs to `DecimalCodec.WriteObject`.
- What a reader does with the input stream in `ReadMap` and `ReadList`: the model stops at the choice of reader and the call made on it.
- `GetObjectSerializer` and `CreateDefault`: they delegate to `GetSerializer` and the constructor without adding behaviour.
- A null `Type` passed to `GetSerializer` or `GetDeserializer`, and a type whose `FullName` is null: every `TypeDesc` has a name.
