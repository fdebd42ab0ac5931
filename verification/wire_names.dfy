/**
 Resolution of a deserializer from a Hessian wire type name:
 `GetDeserializer(string)`. A registered name gets its table entry; a name
 starting with `[` is an array of whatever the rest of the name resolves
 to; any other name is looked up in the loaded assemblies, in load order,
 and the type found there is resolved as a runtime type. A null or empty
 name, and a name no assembly defines, resolve to nothing.
 */
module WireNames {
  import opened HessianTypes
  import opened SerializerTables
  import opened CodecCache
  import opened TypeResolution
  import DecimalCodec

  /** The index of the first assembly, in load order, that defines a type
      called `name`. */
  function FirstDefining(assemblies: seq<map<string, TypeDesc>>, name: string): (r: Option<nat>)
    ensures r.Some? ==> r.value < |assemblies| && name in assemblies[r.value]
    ensures r.Some? ==> forall j :: 0 <= j < r.value ==> name !in assemblies[j]
    ensures r.None? ==> forall j :: 0 <= j < |assemblies| ==> name !in assemblies[j]
  {
    if |assemblies| == 0 then None
    else if name in assemblies[0] then Some(0)
    else
      match FirstDefining(assemblies[1..], name)
      case None => None
      case Some(i) => Some(i + 1)
  }

  /** Some loaded assembly defines a type called `name`. */
  predicate Defined(host: Host, name: string) {
    exists i :: 0 <= i < |host.assemblies| && name in host.assemblies[i]
  }

  /** `GetDeserializer(string)` for a non-null name. The cache is the
      object-deserializer cache `GetDeserializer(Type)` shares. */
  function ResolveWireName(tb: Tables, host: Host, cache: map<string, Deserializer>, name: string)
    : (r: Resolved<Option<Deserializer>, Deserializer>)
    decreases |name|
    ensures name == "" ==> r == Resolved(None, cache)
    ensures name != "" && name in tb.typeNames ==> r == Resolved(Some(tb.typeNames[name]), cache)
    ensures name != "" && name !in tb.typeNames && name[0] == '[' ==>
      r.value.Some? && r.value.value.ArrayDeserializer?
    ensures name != "" && name !in tb.typeNames && name[0] != '[' ==>
      (r.value.Some? <==> Defined(host, name))
    ensures name != "" && name !in tb.typeNames && name[0] != '[' && FirstDefining(host.assemblies, name).Some? ==>
      var t := host.assemblies[FirstDefining(host.assemblies, name).value][name];
      var d := GetDeserializer(tb, cache, t);
      r == Resolved(Some(d.value), d.cache)
    ensures Extends(cache, r.cache)
    ensures ObjectDeserializerCache(cache) ==> ObjectDeserializerCache(r.cache)
  {
    if name == "" then Resolved(None, cache)
    else if name in tb.typeNames then Resolved(Some(tb.typeNames[name]), cache)
    else if name[0] == '[' then
      var component := ResolveWireName(tb, host, cache, name[1..]);
      Resolved(Some(ArrayDeserializer(component.value)), component.cache)
    else
      match FirstDefining(host.assemblies, name)
      case None => Resolved(None, cache)
      case Some(i) =>
        var d := GetDeserializer(tb, cache, host.assemblies[i][name]);
        Resolved(Some(d.value), d.cache)
  }

  /** `GetDeserializer(string)`: `None` stands for a null name. */
  function GetDeserializerByName(tb: Tables, host: Host, cache: map<string, Deserializer>, name: Option<string>)
    : (r: Resolved<Option<Deserializer>, Deserializer>)
    ensures name.None? ==> r == Resolved(None, cache)
    ensures name.Some? ==> r == ResolveWireName(tb, host, cache, name.value)
    ensures Extends(cache, r.cache)
  {
    match name
    case None => Resolved(None, cache)
    case Some(s) => ResolveWireName(tb, host, cache, s)
  }

  /** `n` array markers. */
  function Brackets(n: nat): (s: string)
    ensures |s| == n && forall i :: 0 <= i < n ==> s[i] == '['
  {
    if n == 0 then "" else "[" + Brackets(n - 1)
  }

  /** `d` wrapped in `n` array deserializers. */
  function Wrap(n: nat, d: Option<Deserializer>): Option<Deserializer> {
    if n == 0 then d else Some(ArrayDeserializer(Wrap(n - 1, d)))
  }

  /** A name made of `n` array markers and a base name resolves to `n` array
      deserializers around the base name's deserializer, provided none of
      the intermediate names is registered itself. */
  lemma {:induction false} ArrayPrefixWraps(tb: Tables, host: Host, cache: map<string, Deserializer>, n: nat, base: string)
    requires forall k :: 1 <= k <= n ==> Brackets(k) + base !in tb.typeNames
    ensures var b := ResolveWireName(tb, host, cache, base);
      ResolveWireName(tb, host, cache, Brackets(n) + base) == Resolved(Wrap(n, b.value), b.cache)
  {
    if n == 0 {
      assert Brackets(0) + base == base;
    } else {
      var name := Brackets(n) + base;
      assert name[0] == '[';
      assert name[1..] == Brackets(n - 1) + base;
      assert name !in tb.typeNames;
      ArrayPrefixWraps(tb, host, cache, n - 1, base);
    }
  }

  /** A name that is one array marker before a registered name resolves to
      an array of that name's registered deserializer. */
  lemma ArrayOfRegistered(tb: Tables, host: Host, cache: map<string, Deserializer>, name: string)
    requires name != "" && name in tb.typeNames && "[" + name !in tb.typeNames
    ensures ResolveWireName(tb, host, cache, "[" + name) ==
      Resolved(Some(ArrayDeserializer(Some(tb.typeNames[name]))), cache)
  {
    assert ("[" + name)[1..] == name;
  }

  lemma BasicNamesHaveOneMarker()
    ensures forall w :: w in BasicWireNames ==> |w| < 2 || w[0] != '[' || w[1] != '['
  {
  }

  /** No registered name starts with two array markers: the basic names
      have at most one, and the extra names none. */
  lemma NoNameStartsWithTwoMarkers(names: ExtraWireNames)
    requires ScalarExtraNames(names)
    ensures forall s :: s in StaticTypeNames(names) ==> |s| < 2 || s[0] != '[' || s[1] != '['
  {
    var registered := BasicWireNames + {DecimalCodec.DecimalTypeName, names.dbNull, names.guid, names.locale};
    RegisteredNamesHaveOneMarker(names);
    StaticWireNames(names);
    assert StaticTypeNames(names).Keys == registered;
  }

  lemma RegisteredNamesHaveOneMarker(names: ExtraWireNames)
    requires ScalarExtraNames(names)
    ensures forall s :: s in BasicWireNames + {DecimalCodec.DecimalTypeName, names.dbNull, names.guid, names.locale} ==>
      |s| < 2 || s[0] != '[' || s[1] != '['
  {
    forall s | s in BasicWireNames + {DecimalCodec.DecimalTypeName, names.dbNull, names.guid, names.locale}
      ensures |s| < 2 || s[0] != '[' || s[1] != '['
    {
      if s in BasicWireNames {
        BasicNamesHaveOneMarker();
      } else {
        assert s == DecimalCodec.DecimalTypeName || s == names.dbNull || s == names.guid || s == names.locale;
      }
    }
  }

  /** When no registered name starts with two array markers, any name
      starting with one marker, behind `n` further markers, is read by `n`
      array deserializers around what the name itself resolves to. */
  lemma NestedArrayNames(tb: Tables, host: Host, cache: map<string, Deserializer>, n: nat, base: string)
    requires forall s :: s in tb.typeNames ==> |s| < 2 || s[0] != '[' || s[1] != '['
    requires |base| > 0 && base[0] == '['
    ensures var b := ResolveWireName(tb, host, cache, base);
      ResolveWireName(tb, host, cache, Brackets(n) + base) == Resolved(Wrap(n, b.value), b.cache)
  {
    forall k | 1 <= k <= n
      ensures Brackets(k) + base !in tb.typeNames
    {
      var s := Brackets(k) + base;
      assert s[0] == '[' && s[1] == '[';
    }
    ArrayPrefixWraps(tb, host, cache, n, base);
  }

  /** With the static tables, `[int` behind `n` further array markers is
      read by `n` array deserializers around the registered `[int`
      deserializer: `[[int` is arrays of integer arrays, `[[[int` arrays of
      those. */
  lemma IntArrayNesting(names: ExtraWireNames, host: Host, cache: map<string, Deserializer>, n: nat)
    requires ValidExtraNames(names)
    ensures ResolveWireName(StaticTables(names), host, cache, Brackets(n) + "[int") ==
      Resolved(Wrap(n, Some(BasicDeserializer(IntegerArray))), cache)
  {
    NoNameStartsWithTwoMarkers(names);
    NestedArrayNames(StaticTables(names), host, cache, n, "[int");
    IntArrayRegistration(names);
  }

  /** The case of two further markers, spelled out: `[[[int`. */
  lemma TripleIntArray(names: ExtraWireNames, host: Host, cache: map<string, Deserializer>)
    requires ValidExtraNames(names)
    ensures ResolveWireName(StaticTables(names), host, cache, "[[[int") ==
      Resolved(Some(ArrayDeserializer(Some(ArrayDeserializer(Some(BasicDeserializer(IntegerArray)))))), cache)
  {
    IntArrayNesting(names, host, cache, 2);
    assert Brackets(2) + "[int" == "[[[int";
  }

  /** With the static tables, the decimal wire name is an exact hit. */
  lemma DecimalNameResolves(names: ExtraWireNames, host: Host, cache: map<string, Deserializer>)
    requires ValidExtraNames(names)
    ensures ResolveWireName(StaticTables(names), host, cache, DecimalCodec.DecimalTypeName) ==
      Resolved(Some(DecimalDeserializer), cache)
  {
    DecimalRegistrations(names);
  }

  /** A lone array marker is an array deserializer with no component
      deserializer: the rest of the name is empty. */
  lemma LoneMarkerHasNoComponent(tb: Tables, host: Host, cache: map<string, Deserializer>)
    requires "[" !in tb.typeNames
    ensures ResolveWireName(tb, host, cache, "[") == Resolved(Some(ArrayDeserializer(None)), cache)
  {
    assert "["[1..] == "";
  }

  /** An unregistered name that is not an array name and that no loaded
      assembly defines resolves to nothing and leaves the cache alone. */
  lemma UnknownNameResolvesToNothing(tb: Tables, host: Host, cache: map<string, Deserializer>, name: string)
    requires name != "" && name !in tb.typeNames && name[0] != '['
    requires forall i :: 0 <= i < |host.assemblies| ==> name !in host.assemblies[i]
    ensures ResolveWireName(tb, host, cache, name) == Resolved(None, cache)
  {
  }

  /** An assembly that defines a name hides every later definition: the type
      found is the one the first defining assembly holds. */
  lemma FirstAssemblyWins(tb: Tables, host: Host, cache: map<string, Deserializer>, name: string, i: nat)
    requires name != "" && name !in tb.typeNames && name[0] != '['
    requires i < |host.assemblies| && name in host.assemblies[i]
    requires forall j :: 0 <= j < i ==> name !in host.assemblies[j]
    ensures var d := GetDeserializer(tb, cache, host.assemblies[i][name]);
      ResolveWireName(tb, host, cache, name) == Resolved(Some(d.value), d.cache)
  {
    var f := FirstDefining(host.assemblies, name);
    assert f.Some?;
    assert f.value == i;
  }

  /** Resolving a name again with the cache the first resolution left
      behind returns the same deserializer and changes nothing. */
  lemma {:induction false} NameResolutionIsStable(tb: Tables, host: Host, cache: map<string, Deserializer>, name: string)
    decreases |name|
    ensures var first := ResolveWireName(tb, host, cache, name);
      ResolveWireName(tb, host, first.cache, name) == first
  {
    if name == "" || name in tb.typeNames {
    } else if name[0] == '[' {
      NameResolutionIsStable(tb, host, cache, name[1..]);
    } else {
      match FirstDefining(host.assemblies, name)
      case None =>
      case Some(i) =>
        DeserializerResolutionIsStable(tb, cache, host.assemblies[i][name]);
    }
  }
}
