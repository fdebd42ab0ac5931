/**
 The factory's per-instance entry points for reading objects and lists by
 wire type name. When the name resolves to nothing, an object is read as a
 `Hashtable` and a list as an `ArrayList`; the two fallback readers
 `GetObjectDeserializer` and `GetListDeserializer` hand out are created
 lazily, once per factory, while `ReadMap` and `ReadList` build a fresh one
 on every call. The overloads that also take an expected type keep the
 name's reader only when it fits that type, and otherwise resolve the
 expected type instead.
 */
module Fallbacks {
  import opened HessianTypes
  import opened SerializerTables
  import opened CodecCache
  import opened TypeResolution
  import opened WireNames

  /** The reader used when a map's type name resolves to nothing. */
  const HashtableReader := MapDeserializer(HashtableType)

  /** The reader used when a list's type name resolves to nothing. */
  const ArrayListReader := EnumerableDeserializer(ArrayListType)

  /** The state the entry points read and write: the shared
      object-deserializer cache and the instance's two lazily created
      fallback readers (`None` while not yet created). */
  datatype Factory = Factory(
    deserializers: map<string, Deserializer>,
    hashMap: Option<Deserializer>,
    arrayList: Option<Deserializer>)

  /** A reader handed out, with the factory state afterwards. */
  datatype Outcome = Outcome(value: Deserializer, factory: Factory)

  /** The fallback fields only ever hold their own kind of reader. */
  predicate ValidFactory(f: Factory) {
    && (f.hashMap.None? || f.hashMap == Some(HashtableReader))
    && (f.arrayList.None? || f.arrayList == Some(ArrayListReader))
  }

  /** `GetObjectDeserializer(string)`: the name's deserializer, or else the
      instance's `Hashtable` reader, created on first need. */
  function GetObjectDeserializer(tb: Tables, host: Host, f: Factory, name: Option<string>): (r: Outcome)
    ensures var found := GetDeserializerByName(tb, host, f.deserializers, name);
      && r.factory.deserializers == found.cache
      && r.factory.arrayList == f.arrayList
      && (found.value.Some? ==> r.value == found.value.value && r.factory.hashMap == f.hashMap)
      && (found.value.None? ==> r.factory.hashMap == Some(r.value))
      && (found.value.None? && f.hashMap.Some? ==> r.value == f.hashMap.value && r.factory == f)
    ensures ValidFactory(f) ==> ValidFactory(r.factory)
    ensures ValidFactory(f) && GetDeserializerByName(tb, host, f.deserializers, name).value.None? ==>
      r.value == HashtableReader
  {
    var found := GetDeserializerByName(tb, host, f.deserializers, name);
    var f' := f.(deserializers := found.cache);
    if found.value.Some? then Outcome(found.value.value, f')
    else if f.hashMap.Some? then Outcome(f.hashMap.value, f')
    else Outcome(HashtableReader, f'.(hashMap := Some(HashtableReader)))
  }

  /** `GetListDeserializer(string)`: the name's deserializer, or else the
      instance's `ArrayList` reader, created on first need. */
  function GetListDeserializer(tb: Tables, host: Host, f: Factory, name: Option<string>): (r: Outcome)
    ensures var found := GetDeserializerByName(tb, host, f.deserializers, name);
      && r.factory.deserializers == found.cache
      && r.factory.hashMap == f.hashMap
      && (found.value.Some? ==> r.value == found.value.value && r.factory.arrayList == f.arrayList)
      && (found.value.None? ==> r.factory.arrayList == Some(r.value))
      && (found.value.None? && f.arrayList.Some? ==> r.value == f.arrayList.value && r.factory == f)
    ensures ValidFactory(f) ==> ValidFactory(r.factory)
    ensures ValidFactory(f) && GetDeserializerByName(tb, host, f.deserializers, name).value.None? ==>
      r.value == ArrayListReader
  {
    var found := GetDeserializerByName(tb, host, f.deserializers, name);
    var f' := f.(deserializers := found.cache);
    if found.value.Some? then Outcome(found.value.value, f')
    else if f.arrayList.Some? then Outcome(f.arrayList.value, f')
    else Outcome(ArrayListReader, f'.(arrayList := Some(ArrayListReader)))
  }

  /** When the object reader found by name may serve for `expected`: no
      expected type, the reader's own type is it or is assignable to it, the
      reader replaces what it reads, or its own type is a Hessian handle. */
  predicate ObjectReaderFits(host: Host, reader: Deserializer, expected: Option<TypeDesc>) {
    || expected.None?
    || expected.value == host.ownType(reader)
    || host.assignableFrom(expected.value, host.ownType(reader))
    || host.isReadResolve(reader)
    || host.ownType(reader).isHessianHandle
  }

  /** When the list reader found by name may serve for `expected`: only the
      first three of the object reader's conditions. */
  predicate ListReaderFits(host: Host, reader: Deserializer, expected: Option<TypeDesc>) {
    || expected.None?
    || expected.value == host.ownType(reader)
    || host.assignableFrom(expected.value, host.ownType(reader))
  }

  /** `GetObjectDeserializer(string, Type)`. */
  function GetObjectDeserializerFor(tb: Tables, host: Host, f: Factory, name: Option<string>, expected: Option<TypeDesc>)
    : (r: Outcome)
    ensures var reader := GetObjectDeserializer(tb, host, f, name);
      && (ObjectReaderFits(host, reader.value, expected) ==> r == reader)
      && (!ObjectReaderFits(host, reader.value, expected) ==>
            var d := GetDeserializer(tb, reader.factory.deserializers, expected.value);
            r == Outcome(d.value, reader.factory.(deserializers := d.cache)))
    ensures Extends(f.deserializers, r.factory.deserializers)
    ensures ValidFactory(f) ==> ValidFactory(r.factory)
  {
    var reader := GetObjectDeserializer(tb, host, f, name);
    if ObjectReaderFits(host, reader.value, expected) then reader
    else
      var d := GetDeserializer(tb, reader.factory.deserializers, expected.value);
      Outcome(d.value, reader.factory.(deserializers := d.cache))
  }

  /** `GetListDeserializer(string, Type)`. */
  function GetListDeserializerFor(tb: Tables, host: Host, f: Factory, name: Option<string>, expected: Option<TypeDesc>)
    : (r: Outcome)
    ensures var reader := GetListDeserializer(tb, host, f, name);
      && (ListReaderFits(host, reader.value, expected) ==> r == reader)
      && (!ListReaderFits(host, reader.value, expected) ==>
            var d := GetDeserializer(tb, reader.factory.deserializers, expected.value);
            r == Outcome(d.value, reader.factory.(deserializers := d.cache)))
    ensures Extends(f.deserializers, r.factory.deserializers)
    ensures ValidFactory(f) ==> ValidFactory(r.factory)
  {
    var reader := GetListDeserializer(tb, host, f, name);
    if ListReaderFits(host, reader.value, expected) then reader
    else
      var d := GetDeserializer(tb, reader.factory.deserializers, expected.value);
      Outcome(d.value, reader.factory.(deserializers := d.cache))
  }

  /** The call `ReadMap` and `ReadList` make on the reader they pick. */
  datatype ReadCall =
    | MapRead(reader: Deserializer)
    | ListRead(reader: Deserializer, length: int)

  /** `ReadMap(input, name)`: the map is read by the name's deserializer, or
      else by a new `Hashtable` reader. The fallback fields are not used. */
  function ReadMap(tb: Tables, host: Host, cache: map<string, Deserializer>, name: Option<string>)
    : (r: Resolved<ReadCall, Deserializer>)
    ensures r.value.MapRead?
    ensures var found := GetDeserializerByName(tb, host, cache, name);
      && r.cache == found.cache
      && r.value.reader == (if found.value.Some? then found.value.value else HashtableReader)
  {
    var found := GetDeserializerByName(tb, host, cache, name);
    match found.value
    case Some(d) => Resolved(MapRead(d), found.cache)
    case None => Resolved(MapRead(HashtableReader), found.cache)
  }

  /** `ReadList(input, length, name)`: the list is read by the name's
      deserializer, or else by a new `ArrayList` reader, and the announced
      length is passed on unchanged. */
  function ReadList(tb: Tables, host: Host, cache: map<string, Deserializer>, length: int, name: Option<string>)
    : (r: Resolved<ReadCall, Deserializer>)
    ensures r.value.ListRead? && r.value.length == length
    ensures var found := GetDeserializerByName(tb, host, cache, name);
      && r.cache == found.cache
      && r.value.reader == (if found.value.Some? then found.value.value else ArrayListReader)
  {
    var found := GetDeserializerByName(tb, host, cache, name);
    match found.value
    case Some(d) => Resolved(ListRead(d, length), found.cache)
    case None => Resolved(ListRead(ArrayListReader, length), found.cache)
  }

  /** The `Hashtable` fallback is created at most once per factory: after the
      first unresolved name, every later unresolved name gets that same
      reader and leaves the fallback fields as they are. */
  lemma HashMapFallbackCreatedOnce(tb: Tables, host: Host, f: Factory, name1: Option<string>, name2: Option<string>)
    requires GetDeserializerByName(tb, host, f.deserializers, name1).value.None?
    ensures var first := GetObjectDeserializer(tb, host, f, name1);
      GetDeserializerByName(tb, host, first.factory.deserializers, name2).value.None? ==>
        var second := GetObjectDeserializer(tb, host, first.factory, name2);
        && second.value == first.value
        && second.factory.hashMap == first.factory.hashMap
  {
  }

  /** The same for the `ArrayList` fallback. */
  lemma ArrayListFallbackCreatedOnce(tb: Tables, host: Host, f: Factory, name1: Option<string>, name2: Option<string>)
    requires GetDeserializerByName(tb, host, f.deserializers, name1).value.None?
    ensures var first := GetListDeserializer(tb, host, f, name1);
      GetDeserializerByName(tb, host, first.factory.deserializers, name2).value.None? ==>
        var second := GetListDeserializer(tb, host, first.factory, name2);
        && second.value == first.value
        && second.factory.arrayList == first.factory.arrayList
  {
  }

  /** A list reader that fits the expected type also fits as an object
      reader: the object overload accepts strictly more. */
  lemma ListFitImpliesObjectFit(host: Host, reader: Deserializer, expected: Option<TypeDesc>)
    ensures ListReaderFits(host, reader, expected) ==> ObjectReaderFits(host, reader, expected)
  {
  }

  /** For a name that resolves, the two overloads part ways exactly on a
      reader that fits only through read-resolution or the handle
      interface: the object overload keeps it, the list overload resolves
      the expected type instead. */
  lemma OverloadsPartOnExemptReader(
    tb: Tables, host: Host, f: Factory, name: Option<string>, expected: TypeDesc)
    requires GetDeserializerByName(tb, host, f.deserializers, name).value.Some?
    ensures var found := GetDeserializerByName(tb, host, f.deserializers, name);
      var reader := found.value.value;
      !ListReaderFits(host, reader, Some(expected)) && ObjectReaderFits(host, reader, Some(expected)) ==>
        && GetObjectDeserializerFor(tb, host, f, name, Some(expected)).value == reader
        && GetListDeserializerFor(tb, host, f, name, Some(expected)).value ==
           GetDeserializer(tb, found.cache, expected).value
  {
  }

  /** A concrete instance: a read-resolving reader for `Point` asked for as
      a `Shape`, with `Point` not assignable to `Shape`. The object overload
      returns the `Point` reader, the list overload a reader for `Shape`. */
  lemma ReadResolveKeptOnlyForObjects()
    ensures
      var point := TypeDesc("Point");
      var shape := TypeDesc("Shape");
      var tb := Tables(map[], map[], map["point" := ObjectDeserializer(point)]);
      var host := Host([], (a: TypeDesc, b: TypeDesc) => false, (d: Deserializer) => point, (d: Deserializer) => true);
      var f := Factory(map[], None, None);
      && GetObjectDeserializerFor(tb, host, f, Some("point"), Some(shape)).value == ObjectDeserializer(point)
      && GetListDeserializerFor(tb, host, f, Some("point"), Some(shape)).value == ObjectDeserializer(shape)
  {
    var shape := TypeDesc("Shape");
    DeserializerOrderFirstMatch(shape);
  }

  /** `ReadMap` reads with exactly the reader `GetObjectDeserializer` would
      hand out, and leaves the cache as it would, but never touches the
      instance's fallback field. */
  lemma ReadMapAgreesWithObjectDeserializer(tb: Tables, host: Host, f: Factory, name: Option<string>)
    requires ValidFactory(f)
    ensures var read := ReadMap(tb, host, f.deserializers, name);
      var got := GetObjectDeserializer(tb, host, f, name);
      read.value.reader == got.value && read.cache == got.factory.deserializers
  {
  }

  /** `ReadList` reads with exactly the reader `GetListDeserializer` would
      hand out, and leaves the cache as it would. */
  lemma ReadListAgreesWithListDeserializer(tb: Tables, host: Host, f: Factory, length: int, name: Option<string>)
    requires ValidFactory(f)
    ensures var read := ReadList(tb, host, f.deserializers, length, name);
      var got := GetListDeserializer(tb, host, f, name);
      read.value.reader == got.value && read.cache == got.factory.deserializers
  {
  }

  /** An unregistered name that is not an array name and that no loaded
      assembly defines is read as a `Hashtable` when it names a map and as
      an `ArrayList` when it names a list. */
  lemma UnknownNameFallsBack(tb: Tables, host: Host, cache: map<string, Deserializer>, name: string, length: int)
    requires name != "" && name !in tb.typeNames && name[0] != '['
    requires forall i :: 0 <= i < |host.assemblies| ==> name !in host.assemblies[i]
    ensures ReadMap(tb, host, cache, Some(name)) == Resolved(MapRead(HashtableReader), cache)
    ensures ReadList(tb, host, cache, length, Some(name)) == Resolved(ListRead(ArrayListReader, length), cache)
  {
    UnknownNameResolvesToNothing(tb, host, cache, name);
  }
}
