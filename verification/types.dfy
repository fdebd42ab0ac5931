/**
 The data model shared by the Hessian codec factory: optional values, an
 abstract description of a .NET runtime type, the tags of the concrete
 serializers and deserializers, and the host's reflection facilities.
 */
module HessianTypes {

  /** A value that may be absent; `None` stands for a C# `null`. */
  datatype Option<+T> = None | Some(value: T)

  /** A .NET runtime type, reduced to the questions the factory asks of it
      through reflection. Each capability flag answers one
      `typeof(I).IsAssignableFrom(type)` (or `type.IsEnum`) test; a
      `Nullable<A>` type carries `A` in `nullableOf`, an array type carries its
      element type in `elementOf`. Two descriptors are the same type exactly
      when they are equal. */
  datatype TypeDesc = TypeDesc(
    fullName: string,
    isDictionary: bool := false,         // IDictionary
    isEnumerable: bool := false,         // IEnumerable
    isList: bool := false,               // IList
    isGenericEnumerable: bool := false,  // generic type whose definition is IEnumerable<>
    isStream: bool := false,             // Stream
    isException: bool := false,          // Exception
    isEnum: bool := false,               // Type.IsEnum
    isSerializable: bool := false,       // ISerializable
    isHessianHandle: bool := false,      // IHessianHandle
    nullableOf: Option<TypeDesc> := None,
    elementOf: Option<TypeDesc> := None)
  {
    predicate IsArray() { elementOf.Some? }
    predicate IsNullable() { nullableOf.Some? }
  }

  /** The type `Nullable<argument>`. */
  function NullableOf(argument: TypeDesc): TypeDesc {
    TypeDesc("System.Nullable`1[" + argument.fullName + "]", nullableOf := Some(argument))
  }

  /** The type codes of the built-in scalar codec (CSerializationConstants). */
  datatype BasicCode =
    | Character | Byte | SByte | Short | Integer | Double | String | Long | Float | Boolean
    | BooleanArray | ByteArray | ShortArray | IntegerArray | LongArray | FloatArray
    | DoubleArray | CharacterArray | StringArray | SByteArray | Date

  /** The serializer classes the factory can hand out. Only the reflective
      object serializer is specific to a type. */
  datatype Serializer =
    | BasicSerializer(code: BasicCode)
    | StringValueSerializer
    | DataTableSerializer
    | DataSetSerializer
    | DecimalSerializer
    | DbNullSerializer
    | GuidSerializer
    | CultureInfoSerializer
    | MapSerializer
    | EnumerableSerializer
    | InputStreamSerializer
    | ExceptionSerializer
    | ArraySerializer
    | EnumSerializer
    | ISerializableSerializer
    | ObjectSerializer(forType: TypeDesc)

  /** The deserializer classes the factory can hand out. An array
      deserializer wraps the deserializer of its components, which may be
      `null` when it came from an unresolvable wire name. */
  datatype Deserializer =
    | BasicDeserializer(code: BasicCode)
    | StringValueDeserializer(forType: TypeDesc)
    | DataTableDeserializer
    | DataSetDeserializer
    | DecimalDeserializer
    | DbNullDeserializer
    | GuidDeserializer
    | CultureInfoDeserializer
    | MapDeserializer(forType: TypeDesc)
    | EnumDeserializer(forType: TypeDesc)
    | EnumerableDeserializer(forType: TypeDesc)
    | ExceptionDeserializer(forType: TypeDesc)
    | ISerializableDeserializer(forType: TypeDesc)
    | ArrayDeserializer(component: Option<Deserializer>)
    | ObjectDeserializer(forType: TypeDesc)

  /** What the factory learns from the running process: the loaded
      assemblies in load order (each maps a type name to the type it
      defines), `Type.IsAssignableFrom`, and the two questions a
      deserializer answers about itself. */
  datatype Host = Host(
    assemblies: seq<map<string, TypeDesc>>,
    assignableFrom: (TypeDesc, TypeDesc) -> bool,
    ownType: Deserializer -> TypeDesc,
    isReadResolve: Deserializer -> bool)

  // The platform types the factory names.

  const CharType := TypeDesc("System.Char")
  const ByteType := TypeDesc("System.Byte")
  const SByteType := TypeDesc("System.SByte")
  const ShortType := TypeDesc("System.Int16")
  const IntType := TypeDesc("System.Int32")
  const DoubleType := TypeDesc("System.Double")
  const StringType := TypeDesc("System.String", isEnumerable := true)
  const LongType := TypeDesc("System.Int64")
  const FloatType := TypeDesc("System.Single")
  const BoolType := TypeDesc("System.Boolean")
  const DateTimeType := TypeDesc("System.DateTime", isSerializable := true)
  const FileInfoType := TypeDesc("System.IO.FileInfo", isSerializable := true)
  const DataTableType := TypeDesc("System.Data.DataTable", isSerializable := true)
  const DataSetType := TypeDesc("System.Data.DataSet", isSerializable := true)
  const DecimalType := TypeDesc("System.Decimal")
  const DbNullType := TypeDesc("System.DBNull", isSerializable := true)
  const GuidType := TypeDesc("System.Guid")
  const CultureInfoType := TypeDesc("System.Globalization.CultureInfo")
  const HashtableType := TypeDesc("System.Collections.Hashtable", isDictionary := true, isEnumerable := true, isSerializable := true)
  const ArrayListType := TypeDesc("System.Collections.ArrayList", isEnumerable := true, isList := true)
}
