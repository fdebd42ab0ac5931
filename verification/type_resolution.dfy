/**
 Resolution of a codec for a runtime type: `GetSerializer(Type)` and
 `GetDeserializer(Type)`. A type registered in the static tables gets its
 table entry; any other type is classified by its capabilities in a fixed
 order, first match wins, and a type with none of them gets the reflective
 object codec, memoised in a cache keyed by the type's full name.
 */
module TypeResolution {
  import opened HessianTypes
  import opened SerializerTables
  import opened CodecCache

  /** The capabilities the factory classifies a type by. */
  datatype Capability =
    | Dictionary | Nullable | Enumerable | ListLike | Stream | Exception | Array | Enum | Serializable

  predicate Has(t: TypeDesc, c: Capability) {
    match c
    case Dictionary => t.isDictionary
    case Nullable => t.IsNullable()
    case Enumerable => t.isEnumerable
    case ListLike => t.isList || t.isGenericEnumerable
    case Stream => t.isStream
    case Exception => t.isException
    case Array => t.IsArray()
    case Enum => t.isEnum
    case Serializable => t.isSerializable
  }

  /** The order in which `GetSerializer` tests capabilities. */
  const SerializerOrder: seq<Capability> :=
    [Dictionary, Enumerable, Stream, Exception, Array, Enum, Serializable]

  /** The order in which `GetDeserializer(Type)` tests capabilities. */
  const DeserializerOrder: seq<Capability> :=
    [Dictionary, Nullable, Array, Enum, ListLike, Exception, Serializable]

  /** The position of the first capability in `order` that `t` has. */
  function FirstMatch(order: seq<Capability>, t: TypeDesc): (r: Option<nat>)
    ensures r.Some? ==> r.value < |order| && Has(t, order[r.value])
    ensures r.Some? ==> forall j :: 0 <= j < r.value ==> !Has(t, order[j])
    ensures r.None? ==> forall j :: 0 <= j < |order| ==> !Has(t, order[j])
  {
    if |order| == 0 then None
    else if Has(t, order[0]) then Some(0)
    else
      match FirstMatch(order[1..], t)
      case None => None
      case Some(i) => Some(i + 1)
  }

  /** `FirstMatch` over the serializer order is the cascade of capability
      tests `GetSerializer` makes. */
  lemma {:induction false} SerializerOrderFirstMatch(t: TypeDesc)
    ensures FirstMatch(SerializerOrder, t) ==
      if t.isDictionary then Some(0)
      else if t.isEnumerable then Some(1)
      else if t.isStream then Some(2)
      else if t.isException then Some(3)
      else if t.IsArray() then Some(4)
      else if t.isEnum then Some(5)
      else if t.isSerializable then Some(6)
      else None
  {
    assert SerializerOrder[0] == Dictionary;
    assert SerializerOrder[1] == Enumerable;
    assert SerializerOrder[2] == Stream;
    assert SerializerOrder[3] == Exception;
    assert SerializerOrder[4] == Array;
    assert SerializerOrder[5] == Enum;
    assert SerializerOrder[6] == Serializable;
  }

  /** `FirstMatch` over the deserializer order is the cascade of capability
      tests `GetDeserializer(Type)` makes. */
  lemma {:induction false} DeserializerOrderFirstMatch(t: TypeDesc)
    ensures FirstMatch(DeserializerOrder, t) ==
      if t.isDictionary then Some(0)
      else if t.IsNullable() then Some(1)
      else if t.IsArray() then Some(2)
      else if t.isEnum then Some(3)
      else if t.isList || t.isGenericEnumerable then Some(4)
      else if t.isException then Some(5)
      else if t.isSerializable then Some(6)
      else None
  {
    assert DeserializerOrder[0] == Dictionary;
    assert DeserializerOrder[1] == Nullable;
    assert DeserializerOrder[2] == Array;
    assert DeserializerOrder[3] == Enum;
    assert DeserializerOrder[4] == ListLike;
    assert DeserializerOrder[5] == Exception;
    assert DeserializerOrder[6] == Serializable;
  }

  /** The general-purpose serializer each capability selects; the serializer
      side has no rule for nullable or list-like types. */
  function RuleSerializer(c: Capability): Option<Serializer> {
    match c
    case Dictionary => Some(MapSerializer)
    case Enumerable => Some(EnumerableSerializer)
    case Stream => Some(InputStreamSerializer)
    case Exception => Some(ExceptionSerializer)
    case Array => Some(ArraySerializer)
    case Enum => Some(EnumSerializer)
    case Serializable => Some(ISerializableSerializer)
    case Nullable => None
    case ListLike => None
  }

  /** The deserializer each non-recursive capability selects for `t`; the
      nullable and array rules recurse and are stated separately. */
  function RuleDeserializer(c: Capability, t: TypeDesc): Option<Deserializer> {
    match c
    case Dictionary => Some(MapDeserializer(t))
    case Enum => Some(EnumDeserializer(t))
    case ListLike => Some(EnumerableDeserializer(t))
    case Exception => Some(ExceptionDeserializer(t))
    case Serializable => Some(ISerializableDeserializer(t))
    case Nullable => None
    case Array => None
    case Enumerable => None
    case Stream => None
  }

  /** `GetSerializer(Type)`. Only the catch-all branch reads or writes the
      cache. */
  function GetSerializer(tb: Tables, cache: map<string, Serializer>, t: TypeDesc): (r: Resolved<Serializer, Serializer>)
    ensures t in tb.serializers ==> r.value == tb.serializers[t] && r.cache == cache
    ensures t !in tb.serializers && FirstMatch(SerializerOrder, t).Some? ==>
      Some(r.value) == RuleSerializer(SerializerOrder[FirstMatch(SerializerOrder, t).value]) && r.cache == cache
    ensures t !in tb.serializers && FirstMatch(SerializerOrder, t).None? ==>
      && t.fullName in r.cache && r.value == r.cache[t.fullName]
      && r.cache.Keys == cache.Keys + {t.fullName}
      && (t.fullName !in cache ==> r.value == ObjectSerializer(t))
    ensures Extends(cache, r.cache)
  {
    SerializerOrderFirstMatch(t);
    if t in tb.serializers then Resolved(tb.serializers[t], cache)
    else if t.isDictionary then Resolved(MapSerializer, cache)
    else if t.isEnumerable then Resolved(EnumerableSerializer, cache)
    else if t.isStream then Resolved(InputStreamSerializer, cache)
    else if t.isException then Resolved(ExceptionSerializer, cache)
    else if t.IsArray() then Resolved(ArraySerializer, cache)
    else if t.isEnum then Resolved(EnumSerializer, cache)
    else if t.isSerializable then Resolved(ISerializableSerializer, cache)
    else GetOrAdd(cache, t.fullName, ObjectSerializer(t))
  }

  /** Every cached deserializer is the object deserializer of a type whose
      full name is its key. */
  predicate ObjectDeserializerCache(cache: map<string, Deserializer>) {
    forall k :: k in cache ==> cache[k].ObjectDeserializer? && cache[k].forType.fullName == k
  }

  /** `GetDeserializer(Type)`. A nullable type resolves exactly as its
      argument does, an array type to an array deserializer around its
      element type's deserializer; only the catch-all branch, reached
      directly or through those two, touches the cache. */
  function GetDeserializer(tb: Tables, cache: map<string, Deserializer>, t: TypeDesc): (r: Resolved<Deserializer, Deserializer>)
    decreases t
    ensures t in tb.deserializers ==> r.value == tb.deserializers[t] && r.cache == cache
    ensures t !in tb.deserializers && FirstMatch(DeserializerOrder, t).Some? ==>
      var c := DeserializerOrder[FirstMatch(DeserializerOrder, t).value];
      RuleDeserializer(c, t).Some? ==> Some(r.value) == RuleDeserializer(c, t) && r.cache == cache
    ensures t !in tb.deserializers && FirstMatch(DeserializerOrder, t) == Some(2) ==>
      r.value.ArrayDeserializer? && r.value.component.Some?
    ensures t !in tb.deserializers && FirstMatch(DeserializerOrder, t).None? ==>
      && t.fullName in r.cache && r.value == r.cache[t.fullName]
      && r.cache.Keys == cache.Keys + {t.fullName}
      && (t.fullName !in cache ==> r.value == ObjectDeserializer(t))
    ensures Extends(cache, r.cache)
    ensures ObjectDeserializerCache(cache) ==> ObjectDeserializerCache(r.cache)
  {
    DeserializerOrderFirstMatch(t);
    if t in tb.deserializers then Resolved(tb.deserializers[t], cache)
    else if t.isDictionary then Resolved(MapDeserializer(t), cache)
    else if t.IsNullable() then GetDeserializer(tb, cache, t.nullableOf.value)
    else if t.IsArray() then
      var element := GetDeserializer(tb, cache, t.elementOf.value);
      Resolved(ArrayDeserializer(Some(element.value)), element.cache)
    else if t.isEnum then Resolved(EnumDeserializer(t), cache)
    else if t.isList || t.isGenericEnumerable then Resolved(EnumerableDeserializer(t), cache)
    else if t.isException then Resolved(ExceptionDeserializer(t), cache)
    else if t.isSerializable then Resolved(ISerializableDeserializer(t), cache)
    else GetOrAdd(cache, t.fullName, ObjectDeserializer(t))
  }

  /** A type registered in the static serializer table always gets that
      entry, even when its capabilities would select another codec. */
  lemma TableEntryWinsForSerializer(names: ExtraWireNames, cache: map<string, Serializer>)
    requires ValidExtraNames(names)
    ensures StringType.isEnumerable
    ensures GetSerializer(StaticTables(names), cache, StringType) == Resolved(BasicSerializer(String), cache)
  {
  }

  /** A dictionary that is also enumerable is serialized as a map. */
  lemma DictionaryBeforeEnumerable(tb: Tables, cache: map<string, Serializer>, t: TypeDesc)
    requires t !in tb.serializers && t.isDictionary && t.isEnumerable
    ensures GetSerializer(tb, cache, t) == Resolved(MapSerializer, cache)
  {
    SerializerOrderFirstMatch(t);
  }

  /** A type that is both enumerable and an array is serialized by the
      enumerable serializer: the array rule comes later. */
  lemma EnumerableBeforeArray(tb: Tables, cache: map<string, Serializer>, t: TypeDesc)
    requires t !in tb.serializers && !t.isDictionary && t.isEnumerable && t.IsArray()
    ensures GetSerializer(tb, cache, t) == Resolved(EnumerableSerializer, cache)
  {
    SerializerOrderFirstMatch(t);
  }

  /** On the deserializer side the dictionary rule precedes even the
      nullable and array rules. */
  lemma DictionaryFirstForDeserializer(tb: Tables, cache: map<string, Deserializer>, t: TypeDesc)
    requires t !in tb.deserializers && t.isDictionary
    ensures GetDeserializer(tb, cache, t) == Resolved(MapDeserializer(t), cache)
  {
    DeserializerOrderFirstMatch(t);
  }

  /** An unregistered nullable type resolves exactly as its argument, cache
      effect included. */
  lemma NullableResolvesAsArgument(tb: Tables, cache: map<string, Deserializer>, t: TypeDesc)
    requires t !in tb.deserializers && !t.isDictionary && t.IsNullable()
    ensures GetDeserializer(tb, cache, t) == GetDeserializer(tb, cache, t.nullableOf.value)
  {
  }

  /** An unregistered array type resolves to an array deserializer around
      its element type's deserializer. */
  lemma ArrayWrapsElement(tb: Tables, cache: map<string, Deserializer>, t: TypeDesc)
    requires t !in tb.deserializers && !t.isDictionary && !t.IsNullable() && t.IsArray()
    ensures var element := GetDeserializer(tb, cache, t.elementOf.value);
      GetDeserializer(tb, cache, t) == Resolved(ArrayDeserializer(Some(element.value)), element.cache)
  {
  }

  /** Resolving a serializer again with the cache the first resolution left
      behind returns the same serializer and changes nothing. */
  lemma SerializerResolutionIsStable(tb: Tables, cache: map<string, Serializer>, t: TypeDesc)
    ensures var first := GetSerializer(tb, cache, t);
      GetSerializer(tb, first.cache, t) == first
  {
  }

  /** Resolving a deserializer again with the cache the first resolution
      left behind returns the same deserializer and changes nothing, through
      any nesting of nullable and array types. */
  lemma {:induction false} DeserializerResolutionIsStable(tb: Tables, cache: map<string, Deserializer>, t: TypeDesc)
    decreases t
    ensures var first := GetDeserializer(tb, cache, t);
      GetDeserializer(tb, first.cache, t) == first
  {
    if t in tb.deserializers || t.isDictionary {
    } else if t.IsNullable() {
      DeserializerResolutionIsStable(tb, cache, t.nullableOf.value);
    } else if t.IsArray() {
      DeserializerResolutionIsStable(tb, cache, t.elementOf.value);
    }
  }

  /** The cache is keyed by full name: once some type's object serializer is
      cached, every capability-less type with the same full name gets that
      very serializer, built for the first type. */
  lemma SerializerSharedByFullName(tb: Tables, cache: map<string, Serializer>, t1: TypeDesc, t2: TypeDesc)
    requires t1 !in tb.serializers && t2 !in tb.serializers
    requires FirstMatch(SerializerOrder, t1).None? && FirstMatch(SerializerOrder, t2).None?
    requires t1.fullName == t2.fullName && t1.fullName !in cache
    ensures var first := GetSerializer(tb, cache, t1);
      var second := GetSerializer(tb, first.cache, t2);
      first.value == second.value == ObjectSerializer(t1) && second.cache == first.cache
  {
  }

  /** In a cache the factory filled, the deserializer a capability-less type
      gets is an object deserializer built for a type of the same full name. */
  lemma CachedDeserializerMatchesFullName(tb: Tables, cache: map<string, Deserializer>, t: TypeDesc)
    requires ObjectDeserializerCache(cache)
    requires t !in tb.deserializers && FirstMatch(DeserializerOrder, t).None?
    ensures var r := GetDeserializer(tb, cache, t);
      r.value.ObjectDeserializer? && r.value.forType.fullName == t.fullName
  {
  }

  /** Nullable types are unwrapped only when deserializing: an unregistered
      `Nullable<A>` is written by a reflective object serializer of its own
      but read exactly as `A` is. */
  lemma NullableOnlyUnwrappedForDeserializer(
    tb: Tables, serializers: map<string, Serializer>, deserializers: map<string, Deserializer>, a: TypeDesc)
    requires NullableOf(a) !in tb.serializers && NullableOf(a) !in tb.deserializers
    requires NullableOf(a).fullName !in serializers
    ensures GetSerializer(tb, serializers, NullableOf(a)).value == ObjectSerializer(NullableOf(a))
    ensures GetDeserializer(tb, deserializers, NullableOf(a)) == GetDeserializer(tb, deserializers, a)
  {
    SerializerOrderFirstMatch(NullableOf(a));
  }

  /** With the static tables, `int?` is read by the integer deserializer. */
  lemma NullableIntReadAsInt(names: ExtraWireNames, deserializers: map<string, Deserializer>)
    requires ValidExtraNames(names)
    ensures GetDeserializer(StaticTables(names), deserializers, NullableOf(IntType)) ==
      Resolved(BasicDeserializer(Integer), deserializers)
  {
    var tb := StaticTables(names);
    assert NullableOf(IntType) !in tb.deserializers;
    IntRegistration(names);
  }
}
