/** `Mapper.DefaultMap<TDestination>`: the generic copier. It starts from a
    default-constructed destination, copies every readable source property
    whose destination namesake is writable and of exactly the same type, then
    makes an analogous pass over public fields. */
module DefaultMapping {
  import opened Results
  import opened Clr

  /** Some member in `members` named `name` passes the `copies` filter. */
  ghost predicate TakesSourceValue<M>(members: seq<M>, nameOf: M -> string, copies: M -> bool, name: string)
  {
    exists i :: 0 <= i < |members| && nameOf(members[i]) == name && copies(members[i])
  }

  /** Whether maps `a` and `b` agree at `key`: both lack it or both hold the
      same value there. */
  ghost predicate SameAt<K, V>(a: map<K, V>, b: map<K, V>, key: K)
  {
    (key !in a && key !in b) || (key in a && key in b && a[key] == b[key])
  }

  lemma TakesSourceValueUnfold<M>(members: seq<M>, nameOf: M -> string, copies: M -> bool, name: string)
    requires |members| > 0
    ensures TakesSourceValue(members, nameOf, copies, name) <==>
      (nameOf(members[0]) == name && copies(members[0])) || TakesSourceValue(members[1..], nameOf, copies, name)
  {
  }

  /** One pass of the copier: visit the source's `members` in order and, for
      each that passes `copies`, write its current value from `from` into the
      destination state `into` under the same name. A name takes the source's
      value exactly when some member of that name passes; every other name
      keeps what `into` held. */
  function CopyMembers<M>(members: seq<M>, nameOf: M -> string, copies: M -> bool,
                          from: map<string, Value>, into: map<string, Value>): (r: map<string, Value>)
    ensures forall n :: TakesSourceValue(members, nameOf, copies, n) ==> n in r && r[n] == ReadMember(from, n)
    ensures forall n :: !TakesSourceValue(members, nameOf, copies, n) ==> SameAt(r, into, n)
    decreases |members|
  {
    if |members| == 0 then into
    else
      var m := members[0];
      var next := if copies(m) then into[nameOf(m) := ReadMember(from, nameOf(m))] else into;
      var r := CopyMembers(members[1..], nameOf, copies, from, next);
      assert forall n :: TakesSourceValue(members, nameOf, copies, n) <==>
        (nameOf(m) == n && copies(m)) || TakesSourceValue(members[1..], nameOf, copies, n) by {
        forall n {
          TakesSourceValueUnfold(members, nameOf, copies, n);
        }
      }
      r
  }

  /** The property filter: the source property is readable, the destination
      has a public property of the same name, and that property is writable
      and of exactly the same type. */
  predicate PropertyCopies(sp: PropertyInfo, destProps: seq<PropertyInfo>)
  {
    && sp.canRead
    && match GetProperty(destProps, sp.name)
       case None => false
       case Some(dp) => dp.canWrite && dp.propertyType == sp.propertyType
  }

  /** The field filter under lookup flags `flags`: `GetFields()` lists the
      source field and it is public, the destination lookup finds a field of
      the same name, and that field is neither `readonly` nor `const` and has
      exactly the same type. */
  predicate FieldCopies(sf: FieldInfo, destFields: seq<FieldInfo>, flags: BindingFlags)
  {
    && Binds(DefaultLookup, sf)
    && sf.isPublic
    && match GetField(destFields, sf.name, flags)
       case None => false
       case Some(df) => !df.isInitOnly && !df.isLiteral && df.fieldType == sf.fieldType
  }

  /** Property `name` of the result takes the source's value: some readable
      source property of that name has a writable destination namesake of the
      same type. */
  ghost predicate PropertyTransfers(rt: Runtime, source: Obj, destination: TypeId, name: string)
  {
    TakesSourceValue(rt.describe(source.runtimeType).properties, (p: PropertyInfo) => p.name,
                     (p: PropertyInfo) => PropertyCopies(p, rt.describe(destination).properties), name)
  }

  /** Field `name` of the result takes the source's value under lookup flags
      `flags`. */
  ghost predicate FieldTransfers(rt: Runtime, flags: BindingFlags, source: Obj, destination: TypeId, name: string)
  {
    TakesSourceValue(rt.describe(source.runtimeType).fields, (f: FieldInfo) => f.name,
                     (f: FieldInfo) => FieldCopies(f, rt.describe(destination).fields, flags), name)
  }

  /** The two passes of the copier, writing into `blank`, an instance of
      `destination`, with destination fields looked up under `flags`. */
  function CopyInto(rt: Runtime, flags: BindingFlags, source: Obj, destination: TypeId, blank: Obj): (r: Obj)
    ensures r.runtimeType == blank.runtimeType && r.token == blank.token
    ensures forall n :: PropertyTransfers(rt, source, destination, n) ==>
      n in r.properties && r.properties[n] == ReadMember(source.properties, n)
    ensures forall n :: !PropertyTransfers(rt, source, destination, n) ==> SameAt(r.properties, blank.properties, n)
    ensures forall n :: FieldTransfers(rt, flags, source, destination, n) ==>
      n in r.fields && r.fields[n] == ReadMember(source.fields, n)
    ensures forall n :: !FieldTransfers(rt, flags, source, destination, n) ==> SameAt(r.fields, blank.fields, n)
  {
    var sourceInfo := rt.describe(source.runtimeType);
    var destInfo := rt.describe(destination);
    var properties := CopyMembers(sourceInfo.properties, (p: PropertyInfo) => p.name,
                                  (p: PropertyInfo) => PropertyCopies(p, destInfo.properties),
                                  source.properties, blank.properties);
    var fields := CopyMembers(sourceInfo.fields, (f: FieldInfo) => f.name,
                              (f: FieldInfo) => FieldCopies(f, destInfo.fields, flags),
                              source.fields, blank.fields);
    blank.(properties := properties, fields := fields)
  }

  /** The copier's structure as written, with destination fields looked up
      under `flags`. The new instance is held in a local of type
      `TDestination`, and each reflective write takes it as `object`. For a
      reference type that is the instance itself. For a value type every
      write boxes a fresh copy and is lost, so the default-constructed value
      comes back unchanged. */
  function CopyWith(rt: Runtime, flags: BindingFlags, source: Obj, destination: TypeId): (r: Obj)
    ensures r.runtimeType == rt.createInstance(destination).runtimeType
    ensures r.token == rt.createInstance(destination).token
    ensures rt.describe(destination).isValueType ==> r == rt.createInstance(destination)
    ensures !rt.describe(destination).isValueType ==>
      && (forall n :: PropertyTransfers(rt, source, destination, n) ==>
            n in r.properties && r.properties[n] == ReadMember(source.properties, n))
      && (forall n :: !PropertyTransfers(rt, source, destination, n) ==>
            SameAt(r.properties, rt.createInstance(destination).properties, n))
      && (forall n :: FieldTransfers(rt, flags, source, destination, n) ==>
            n in r.fields && r.fields[n] == ReadMember(source.fields, n))
      && (forall n :: !FieldTransfers(rt, flags, source, destination, n) ==>
            SameAt(r.fields, rt.createInstance(destination).fields, n))
  {
    var blank := rt.createInstance(destination);
    if rt.describe(destination).isValueType then blank
    else CopyInto(rt, flags, source, destination, blank)
  }

  /** `Activator.CreateInstance<T>()` builds an instance of exactly `T`. */
  ghost predicate ConstructsItsType(rt: Runtime)
  {
    forall t :: rt.createInstance(t).runtimeType == t
  }

  /** The flags the field pass looks destination fields up with:
      `BindingFlags.Public` alone. */
  const AsWrittenFieldLookup := BindingFlags(false, false, true, false)

  /** The copier as written. Its field lookup names neither `Instance` nor
      `Static`, so the field pass never finds a destination field, and the
      result's fields are exactly the default-constructed ones. Properties
      transfer only into a reference-type destination. */
  function DefaultMap(rt: Runtime, source: Obj, destination: TypeId): (r: Obj)
    ensures r.runtimeType == rt.createInstance(destination).runtimeType
    ensures ConstructsItsType(rt) ==> r.runtimeType == destination
    ensures r.token == rt.createInstance(destination).token
    ensures r.fields == rt.createInstance(destination).fields
    ensures rt.describe(destination).isValueType ==> r == rt.createInstance(destination)
    ensures !rt.describe(destination).isValueType ==>
      && (forall n :: PropertyTransfers(rt, source, destination, n) ==>
            n in r.properties && r.properties[n] == ReadMember(source.properties, n))
      && (forall n :: !PropertyTransfers(rt, source, destination, n) ==>
            SameAt(r.properties, rt.createInstance(destination).properties, n))
  {
    var r := CopyWith(rt, AsWrittenFieldLookup, source, destination);
    var blank := rt.createInstance(destination);
    AsWrittenFieldPassInert(rt, source, destination);
    forall n | n in r.fields || n in blank.fields
      ensures n in r.fields && n in blank.fields && r.fields[n] == blank.fields[n]
    {
      assert !FieldTransfers(rt, AsWrittenFieldLookup, source, destination, n);
      assert SameAt(r.fields, blank.fields, n);
    }
    r
  }

  /** Under the as-written lookup no source field passes the field filter. */
  lemma AsWrittenFieldPassInert(rt: Runtime, source: Obj, destination: TypeId)
    ensures forall n :: !FieldTransfers(rt, AsWrittenFieldLookup, source, destination, n)
  {
  }

  /** The lookup the field pass evidently intends:
      `BindingFlags.Public | BindingFlags.Instance`. */
  const IntendedFieldLookup := BindingFlags(true, false, true, false)

  /** The copier as evidently intended. It looks fields up with the corrected
      flags, and it writes into one boxed instance that it returns, so a
      value-type destination receives the copies too. For every destination
      type, each member takes the source's value exactly when it passes the
      filter, and keeps its default-constructed value otherwise. */
  function DefaultMapIntended(rt: Runtime, source: Obj, destination: TypeId): (r: Obj)
    ensures r.runtimeType == rt.createInstance(destination).runtimeType
    ensures r.token == rt.createInstance(destination).token
    ensures forall n :: PropertyTransfers(rt, source, destination, n) ==>
      n in r.properties && r.properties[n] == ReadMember(source.properties, n)
    ensures forall n :: !PropertyTransfers(rt, source, destination, n) ==>
      SameAt(r.properties, rt.createInstance(destination).properties, n)
    ensures forall n :: FieldTransfers(rt, IntendedFieldLookup, source, destination, n) ==>
      n in r.fields && r.fields[n] == ReadMember(source.fields, n)
    ensures forall n :: !FieldTransfers(rt, IntendedFieldLookup, source, destination, n) ==>
      SameAt(r.fields, rt.createInstance(destination).fields, n)
  {
    CopyInto(rt, IntendedFieldLookup, source, destination, rt.createInstance(destination))
  }

  /** With the corrected lookup, a public source field reaches a destination
      field of the same name and type that is a public, assignable instance
      field (the only field of that name the destination declares). */
  lemma IntendedCopiesMatchingField(rt: Runtime, source: Obj, destination: TypeId, i: nat, j: nat)
    requires i < |rt.describe(source.runtimeType).fields| && j < |rt.describe(destination).fields|
    requires var sf := rt.describe(source.runtimeType).fields[i];
             var df := rt.describe(destination).fields[j];
             && sf.isPublic && df.isPublic && !df.isStatic && !df.isInitOnly && !df.isLiteral
             && df.name == sf.name && df.fieldType == sf.fieldType
    requires forall k :: 0 <= k < |rt.describe(destination).fields| && k != j ==>
               rt.describe(destination).fields[k].name != rt.describe(destination).fields[j].name
    ensures var name := rt.describe(source.runtimeType).fields[i].name;
            var r := DefaultMapIntended(rt, source, destination);
            name in r.fields && r.fields[name] == ReadMember(source.fields, name)
  {
  }

  /** An order whose public field `Id` meets a DTO with the same public field:
      the copier as written leaves the DTO's `Id` unset, the corrected copier
      copies it. */
  lemma FieldPassCounterexample()
    ensures var rt := SampleRuntime();
            var order := Obj(TypeId(1, "Order"), 0, map[], map["Id" := Ref(Obj(TypeId(3, "Int32"), 42, map[], map[]))]);
            && "Id" !in DefaultMap(rt, order, TypeId(2, "OrderDto")).fields
            && DefaultMapIntended(rt, order, TypeId(2, "OrderDto")).fields["Id"] == Ref(Obj(TypeId(3, "Int32"), 42, map[], map[]))
  {
  }

  /** A class `Point` and a struct `PointDto`, each with a readable and
      writable property `X` of type `Int32`. The copier as written returns a
      `PointDto` whose `X` is still unset, and the corrected copier copies
      `X`. */
  lemma ValueTypeCounterexample()
    ensures var rt := SampleRuntime();
            var point := Obj(TypeId(5, "Point"), 0, map["X" := Ref(Obj(TypeId(3, "Int32"), 5, map[], map[]))], map[]);
            && "X" !in DefaultMap(rt, point, TypeId(4, "PointDto")).properties
            && DefaultMapIntended(rt, point, TypeId(4, "PointDto")).properties["X"] == Ref(Obj(TypeId(3, "Int32"), 5, map[], map[]))
  {
  }

  /** Sample types: the classes `Order` and `OrderDto`, each declaring one
      public instance field `Id` of type `Int32`; the class `Point` and the
      struct `PointDto`, each declaring one read-write property `X` of type
      `Int32`. The constructor leaves every member unset. */
  function SampleRuntime(): Runtime
  {
    Runtime(
      (t: TypeId) =>
        if t == TypeId(1, "Order") || t == TypeId(2, "OrderDto")
        then TypeInfo(false, [], [FieldInfo("Id", TypeId(3, "Int32"), true, false, false, false)])
        else if t == TypeId(5, "Point")
        then TypeInfo(false, [PropertyInfo("X", TypeId(3, "Int32"), true, true)], [])
        else if t == TypeId(4, "PointDto")
        then TypeInfo(true, [PropertyInfo("X", TypeId(3, "Int32"), true, true)], [])
        else TypeInfo(t == TypeId(3, "Int32"), [], []),
      (t: TypeId) => Obj(t, 0, map[], map[]))
  }
}
