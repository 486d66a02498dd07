/** The slice of the .NET runtime the mapper relies on: type handles, object
    state, member descriptors, reflection lookups and the exceptions the
    mapper raises. Reflection itself is abstract: a `Runtime` value says what
    each type declares and what its parameterless constructor produces. */
module Clr {
  import opened Results

  /** A runtime type handle (`System.Type`). `id` tells types apart; `name`
      is the short `Type.Name`, which types in different namespaces share. */
  datatype TypeId = TypeId(id: nat, name: string)

  /** An object reference: `null` or an instance. */
  datatype Value = Null | Ref(obj: Obj)

  /** An instance: its exact runtime type (`GetType()`), an opaque token for
      the state its members do not expose (a boxed number, a string's
      characters), and the current values of its properties and fields by
      member name. A declared member missing from a map holds `null`. */
  datatype Obj = Obj(runtimeType: TypeId, token: int,
                     properties: map<string, Value>, fields: map<string, Value>)

  /** A user conversion function, stored type-erased (`Func<object, object>`). */
  type Converter = Value -> Value

  /** `PropertyInfo`: name, declared type, and whether it has a getter/setter. */
  datatype PropertyInfo = PropertyInfo(name: string, propertyType: TypeId, canRead: bool, canWrite: bool)

  /** `FieldInfo`: name, declared type, visibility, and the two flags that make
      a field unassignable (`readonly` is init-only, `const` is a literal). */
  datatype FieldInfo = FieldInfo(name: string, fieldType: TypeId, isPublic: bool, isStatic: bool,
                                 isInitOnly: bool, isLiteral: bool)

  /** What a type declares: whether it is a value type (a struct), what
      `GetProperties()` returns (its public properties), and every field,
      public or not. */
  datatype TypeInfo = TypeInfo(isValueType: bool, properties: seq<PropertyInfo>, fields: seq<FieldInfo>)

  /** The reflection facilities: member tables per type, and the instance
      `Activator.CreateInstance<T>()` builds for a type. */
  datatype Runtime = Runtime(describe: TypeId -> TypeInfo, createInstance: TypeId -> Obj)

  /** The exceptions of the mapper. `ArgumentNull` carries the parameter name
      that `ArgumentNullException.ThrowIfNull` reports; `DuplicateKey` is the
      `ArgumentException` of `Dictionary.Add`; `Raised` is any exception user
      code throws, by type name. */
  datatype Error =
    | ArgumentNull(paramName: string)
    | DuplicateKey
    | NotImplemented(message: string)
    | Raised(exceptionType: string)

  /** `BindingFlags` restricted to the four flags that select members. */
  datatype BindingFlags = BindingFlags(instance: bool, statics: bool, public: bool, nonPublic: bool)

  /** The flags a parameterless `GetField`/`GetFields` call uses. */
  const DefaultLookup := BindingFlags(true, true, true, false)

  /** The index of the first element of `s` that `matches`, if any. */
  function FindFirst<T>(s: seq<T>, matches: T -> bool): (r: Option<nat>)
    ensures r.Some? ==> r.value < |s| && matches(s[r.value])
    ensures r.Some? ==> forall j :: 0 <= j < r.value ==> !matches(s[j])
    ensures r.None? <==> forall j :: 0 <= j < |s| ==> !matches(s[j])
  {
    if |s| == 0 then None
    else if matches(s[0]) then Some(0)
    else
      match FindFirst(s[1..], matches)
      case None => None
      case Some(i) => Some(i + 1)
  }

  /** The value an instance member currently holds. */
  function ReadMember(state: map<string, Value>, name: string): Value
  {
    if name in state then state[name] else Null
  }

  /** `Type.GetProperty(name)`: the public property with that exact name. */
  function GetProperty(properties: seq<PropertyInfo>, name: string): (r: Option<PropertyInfo>)
    ensures r.Some? ==> r.value in properties && r.value.name == name
    ensures r.None? <==> forall p :: p in properties ==> p.name != name
  {
    match FindFirst(properties, (p: PropertyInfo) => p.name == name)
    case None => None
    case Some(i) => Some(properties[i])
  }

  /** Whether `flags` select field `f`: .NET admits a field only when the
      flags name both its visibility and its kind (instance or static), so a
      lookup that sets neither `Instance` nor `Static` admits nothing. */
  predicate Binds(flags: BindingFlags, f: FieldInfo)
  {
    && (if f.isStatic then flags.statics else flags.instance)
    && (if f.isPublic then flags.public else flags.nonPublic)
  }

  /** `Type.GetField(name, flags)`: a field with that exact name that the
      flags select. */
  function GetField(fields: seq<FieldInfo>, name: string, flags: BindingFlags): (r: Option<FieldInfo>)
    ensures r.Some? ==> r.value in fields && r.value.name == name && Binds(flags, r.value)
    ensures r.None? <==> forall f :: f in fields && f.name == name ==> !Binds(flags, f)
  {
    match FindFirst(fields, (f: FieldInfo) => f.name == name && Binds(flags, f))
    case None => None
    case Some(i) => Some(fields[i])
  }

  /** A lookup that names neither `Instance` nor `Static` finds no field,
      whatever the type declares. */
  lemma KindlessFieldLookupFindsNothing(fields: seq<FieldInfo>, name: string, flags: BindingFlags)
    requires !flags.instance && !flags.statics
    ensures GetField(fields, name, flags) == None
  {
  }
}
