/**
 The factory's three static tables, built once by its static constructor:
 type to serializer, type to deserializer, and wire type name to
 deserializer.
 */
module SerializerTables {
  import opened HessianTypes
  import DecimalCodec

  datatype Tables = Tables(
    serializers: map<TypeDesc, Serializer>,
    deserializers: map<TypeDesc, Deserializer>,
    typeNames: map<string, Deserializer>)

  /** The wire type names of DBNull, Guid and CultureInfo. Their values are
      constants of serializer classes that are not part of this model. */
  datatype ExtraWireNames = ExtraWireNames(dbNull: string, guid: string, locale: string)

  /** The wire names `addBasic` registers. */
  const BasicWireNames: set<string> := {
    "char", "byte", "sbyte", "short", "int", "double", "string", "long", "float", "bool",
    "[bool", "[byte", "[short", "[int", "[long", "[float", "[double", "[char", "[string", "[sbyte",
    "date"}

  const BoolArrayType := TypeDesc("System.Boolean[]", isEnumerable := true, isList := true, elementOf := Some(BoolType))
  const ByteArrayType := TypeDesc("System.Byte[]", isEnumerable := true, isList := true, elementOf := Some(ByteType))
  const ShortArrayType := TypeDesc("System.Int16[]", isEnumerable := true, isList := true, elementOf := Some(ShortType))
  const IntArrayType := TypeDesc("System.Int32[]", isEnumerable := true, isList := true, elementOf := Some(IntType))
  const LongArrayType := TypeDesc("System.Int64[]", isEnumerable := true, isList := true, elementOf := Some(LongType))
  const FloatArrayType := TypeDesc("System.Single[]", isEnumerable := true, isList := true, elementOf := Some(FloatType))
  const DoubleArrayType := TypeDesc("System.Double[]", isEnumerable := true, isList := true, elementOf := Some(DoubleType))
  const CharArrayType := TypeDesc("System.Char[]", isEnumerable := true, isList := true, elementOf := Some(CharType))
  const StringArrayType := TypeDesc("System.String[]", isEnumerable := true, isList := true, elementOf := Some(StringType))
  const SByteArrayType := TypeDesc("System.SByte[]", isEnumerable := true, isList := true, elementOf := Some(SByteType))

  /** The types `addBasic` registers. */
  const BasicTypes: set<TypeDesc> := {
    CharType, ByteType, SByteType, ShortType, IntType, DoubleType, StringType, LongType, FloatType, BoolType,
    BoolArrayType, ByteArrayType, ShortArrayType, IntArrayType, LongArrayType, FloatArrayType,
    DoubleArrayType, CharArrayType, StringArrayType, SByteArrayType, DateTimeType}

  /** Being names of scalar types, the extra wire names do not start with
      the array marker. */
  predicate ScalarExtraNames(n: ExtraWireNames) {
    && (|n.dbNull| == 0 || n.dbNull[0] != '[')
    && (|n.guid| == 0 || n.guid[0] != '[')
    && (|n.locale| == 0 || n.locale[0] != '[')
  }

  /** The extra wire names must be distinct from each other and from every
      other registered name, or the static constructor throws. */
  predicate ValidExtraNames(n: ExtraWireNames) {
    && n.dbNull != n.guid && n.dbNull != n.locale && n.guid != n.locale
    && n.dbNull !in BasicWireNames && n.guid !in BasicWireNames && n.locale !in BasicWireNames
    && n.dbNull != DecimalCodec.DecimalTypeName
    && n.guid != DecimalCodec.DecimalTypeName
    && n.locale != DecimalCodec.DecimalTypeName
    && ScalarExtraNames(n)
  }

  /** The serializers `addBasic` registers, by type. */
  const BasicSerializers: map<TypeDesc, Serializer> := map[
    CharType := BasicSerializer(Character), ByteType := BasicSerializer(Byte),
    SByteType := BasicSerializer(SByte), ShortType := BasicSerializer(Short),
    IntType := BasicSerializer(Integer), DoubleType := BasicSerializer(Double),
    StringType := BasicSerializer(String), LongType := BasicSerializer(Long),
    FloatType := BasicSerializer(Float), BoolType := BasicSerializer(Boolean),
    BoolArrayType := BasicSerializer(BooleanArray), ByteArrayType := BasicSerializer(ByteArray),
    ShortArrayType := BasicSerializer(ShortArray), IntArrayType := BasicSerializer(IntegerArray),
    LongArrayType := BasicSerializer(LongArray), FloatArrayType := BasicSerializer(FloatArray),
    DoubleArrayType := BasicSerializer(DoubleArray), CharArrayType := BasicSerializer(CharacterArray),
    StringArrayType := BasicSerializer(StringArray), SByteArrayType := BasicSerializer(SByteArray),
    DateTimeType := BasicSerializer(Date)]

  /** The deserializers `addBasic` registers, by type. */
  const BasicDeserializers: map<TypeDesc, Deserializer> := map[
    CharType := BasicDeserializer(Character), ByteType := BasicDeserializer(Byte),
    SByteType := BasicDeserializer(SByte), ShortType := BasicDeserializer(Short),
    IntType := BasicDeserializer(Integer), DoubleType := BasicDeserializer(Double),
    StringType := BasicDeserializer(String), LongType := BasicDeserializer(Long),
    FloatType := BasicDeserializer(Float), BoolType := BasicDeserializer(Boolean),
    BoolArrayType := BasicDeserializer(BooleanArray), ByteArrayType := BasicDeserializer(ByteArray),
    ShortArrayType := BasicDeserializer(ShortArray), IntArrayType := BasicDeserializer(IntegerArray),
    LongArrayType := BasicDeserializer(LongArray), FloatArrayType := BasicDeserializer(FloatArray),
    DoubleArrayType := BasicDeserializer(DoubleArray), CharArrayType := BasicDeserializer(CharacterArray),
    StringArrayType := BasicDeserializer(StringArray), SByteArrayType := BasicDeserializer(SByteArray),
    DateTimeType := BasicDeserializer(Date)]

  /** The same deserializers `addBasic` registers, by wire name. */
  const BasicTypeNames: map<string, Deserializer> := map[
    "char" := BasicDeserializer(Character), "byte" := BasicDeserializer(Byte),
    "sbyte" := BasicDeserializer(SByte), "short" := BasicDeserializer(Short),
    "int" := BasicDeserializer(Integer), "double" := BasicDeserializer(Double),
    "string" := BasicDeserializer(String), "long" := BasicDeserializer(Long),
    "float" := BasicDeserializer(Float), "bool" := BasicDeserializer(Boolean),
    "[bool" := BasicDeserializer(BooleanArray), "[byte" := BasicDeserializer(ByteArray),
    "[short" := BasicDeserializer(ShortArray), "[int" := BasicDeserializer(IntegerArray),
    "[long" := BasicDeserializer(LongArray), "[float" := BasicDeserializer(FloatArray),
    "[double" := BasicDeserializer(DoubleArray), "[char" := BasicDeserializer(CharacterArray),
    "[string" := BasicDeserializer(StringArray), "[sbyte" := BasicDeserializer(SByteArray),
    "date" := BasicDeserializer(Date)]

  /** The serializer table: the `addBasic` registrations followed by the
      platform types with dedicated serializers. */
  const StaticSerializers: map<TypeDesc, Serializer> :=
    BasicSerializers[FileInfoType := StringValueSerializer]
                    [DataTableType := DataTableSerializer]
                    [DataSetType := DataSetSerializer]
                    [DecimalType := DecimalSerializer]
                    [DbNullType := DbNullSerializer]
                    [GuidType := GuidSerializer]
                    [CultureInfoType := CultureInfoSerializer]

  /** The deserializer table, by type. */
  const StaticDeserializers: map<TypeDesc, Deserializer> :=
    BasicDeserializers[FileInfoType := StringValueDeserializer(FileInfoType)]
                      [DataTableType := DataTableDeserializer]
                      [DataSetType := DataSetDeserializer]

  /** The deserializer table, by wire name. */
  function StaticTypeNames(names: ExtraWireNames): map<string, Deserializer> {
    BasicTypeNames[DecimalCodec.DecimalTypeName := DecimalDeserializer]
                  [names.dbNull := DbNullDeserializer]
                  [names.guid := GuidDeserializer]
                  [names.locale := CultureInfoDeserializer]
  }

  /** `BasicWireNames` lists exactly the names of `BasicTypeNames`. */
  lemma BasicWireNamesAreKeys()
    ensures BasicTypeNames.Keys == BasicWireNames
  {
  }

  /** The static constructor. `Hashtable.Add` throws on a key that is
      already registered, so the constructor only completes when the extra
      wire names are fresh. */
  function StaticTables(names: ExtraWireNames): (tb: Tables)
    requires ValidExtraNames(names)
  {
    Tables(StaticSerializers, StaticDeserializers, StaticTypeNames(names))
  }

  /** The types with a registered serializer. */
  lemma StaticSerializerTypes(names: ExtraWireNames)
    requires ValidExtraNames(names)
    ensures StaticTables(names).serializers.Keys ==
      BasicTypes + {FileInfoType, DataTableType, DataSetType, DecimalType, DbNullType, GuidType, CultureInfoType}
  {
  }

  /** The types with a registered deserializer: the decimal, DBNull, Guid and
      culture types are only reachable by wire name. */
  lemma StaticDeserializerTypes(names: ExtraWireNames)
    requires ValidExtraNames(names)
    ensures StaticTables(names).deserializers.Keys == BasicTypes + {FileInfoType, DataTableType, DataSetType}
  {
  }

  /** The registered wire names. */
  lemma StaticWireNames(names: ExtraWireNames)
    ensures StaticTypeNames(names).Keys ==
      BasicWireNames + {DecimalCodec.DecimalTypeName, names.dbNull, names.guid, names.locale}
  {
    BasicWireNamesAreKeys();
  }

  /** `addBasic` stores one deserializer under both the type and the wire
      name: `int`. */
  lemma IntRegistration(names: ExtraWireNames)
    requires ValidExtraNames(names)
    ensures var tb := StaticTables(names);
      && IntType in tb.deserializers && "int" in tb.typeNames
      && tb.typeNames["int"] == tb.deserializers[IntType] == BasicDeserializer(Integer)
  {
    assert "int" in BasicWireNames;
    assert names.dbNull != "int" && names.guid != "int" && names.locale != "int";
  }

  /** The same for `int[]`, whose wire name starts with the array marker. */
  lemma IntArrayRegistration(names: ExtraWireNames)
    requires ValidExtraNames(names)
    ensures var tb := StaticTables(names);
      && IntArrayType in tb.deserializers && "[int" in tb.typeNames
      && tb.typeNames["[int"] == tb.deserializers[IntArrayType] == BasicDeserializer(IntegerArray)
  {
    assert "[int" in BasicWireNames;
    assert names.dbNull != "[int" && names.guid != "[int" && names.locale != "[int";
  }

  /** A decimal is written by the decimal serializer and read back only by
      its wire name: the decimal type itself has no registered deserializer. */
  lemma DecimalRegistrations(names: ExtraWireNames)
    requires ValidExtraNames(names)
    ensures var tb := StaticTables(names);
      && DecimalType in tb.serializers && tb.serializers[DecimalType] == DecimalSerializer
      && DecimalType !in tb.deserializers
      && DecimalCodec.DecimalTypeName in tb.typeNames
      && tb.typeNames[DecimalCodec.DecimalTypeName] == DecimalDeserializer
  {
  }
}
