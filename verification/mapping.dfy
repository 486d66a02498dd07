/** `Mapper.Map<TDestination>`: the dispatcher. It reads the registry it was
    built over and picks, in strict priority order, the explicit map for the
    source's exact runtime type and the destination, the destination's
    default map, or the generic copier; failing all three it raises
    `NotImplementedException`. */
module Mapping {
  import opened Results
  import opened Clr
  import opened MapperConfiguration
  import DefaultMapping

  /** A mapper wraps the registry its configure step produced. */
  datatype Mapper = Mapper(config: Registry)

  /** The message of the `NotImplementedException`, naming the destination by
      its short type name. */
  function NotFoundMessage(destination: TypeId): string
  {
    "Mapping function not found for destination type " + destination.name
  }

  /** Whether the registry offers any way to map a source of runtime type
      `sourceType` to `destination`. */
  predicate Handles(reg: Registry, sourceType: TypeId, destination: TypeId)
  {
    (sourceType, destination) in reg.maps || destination in reg.defaultMaps || reg.defaultMappingEnabled
  }

  /** `Map<TDestination>(source)` with `destination` standing for
      `typeof(TDestination)`. */
  function Map(m: Mapper, rt: Runtime, source: Value, destination: TypeId): (r: Result<Value, Error>)
    ensures source.Null? ==> r == Failure(ArgumentNull("source"))
    ensures source.Ref? ==> (r.Failure? <==> !Handles(m.config, source.obj.runtimeType, destination))
    ensures source.Ref? && r.Failure? ==> r.error == NotImplemented(NotFoundMessage(destination))
    ensures source.Ref? && (source.obj.runtimeType, destination) in m.config.maps ==>
      r == Success(m.config.maps[(source.obj.runtimeType, destination)](source))
    ensures source.Ref? && (source.obj.runtimeType, destination) !in m.config.maps && destination in m.config.defaultMaps ==>
      r == Success(m.config.defaultMaps[destination](source))
    ensures source.Ref? && (source.obj.runtimeType, destination) !in m.config.maps && destination !in m.config.defaultMaps
            && m.config.defaultMappingEnabled ==>
      r == Success(Ref(DefaultMapping.DefaultMap(rt, source.obj, destination)))
    ensures DefaultMapping.ConstructsItsType(rt) && source.Ref? && r.Success?
            && (source.obj.runtimeType, destination) !in m.config.maps && destination !in m.config.defaultMaps ==>
      r.value.Ref? && r.value.obj.runtimeType == destination
  {
    match source
    case Null => Failure(ArgumentNull("source"))
    case Ref(obj) =>
      var key := (obj.runtimeType, destination);
      if key in m.config.maps then Success(m.config.maps[key](source))
      else if destination in m.config.defaultMaps then Success(m.config.defaultMaps[destination](source))
      else if m.config.defaultMappingEnabled then Success(Ref(DefaultMapping.DefaultMap(rt, obj, destination)))
      else Failure(NotImplemented(NotFoundMessage(destination)))
  }

  /** After `AddMap` registers (sourceType, destination), a source of exactly
      that runtime type maps to that destination through the new function,
      whatever default map or copier switch the registry also holds. Every
      other call of `Map` is unaffected: in particular a source whose runtime
      type is a different type (a subtype, say) does not reach the entry. */
  lemma AddMapRoutes(reg: Registry, rt: Runtime, sourceType: TypeId, destination: TypeId, f: Converter,
                     source: Value, target: TypeId)
    requires AddMap(reg, sourceType, destination, Some(f)).thrown.None?
    ensures var after := Mapper(AddMap(reg, sourceType, destination, Some(f)).options);
      if source.Ref? && source.obj.runtimeType == sourceType && target == destination
      then Map(after, rt, source, target) == Success(f(source))
      else Map(after, rt, source, target) == Map(Mapper(reg), rt, source, target)
  {
  }

  /** After `EnableDefaultMappingFor` registers `destination`, every non-null
      source without an explicit pair entry maps to `destination` through
      the new function, whatever its runtime type and whatever the copier
      switch says; an explicit pair entry still wins, and mappings to other
      destinations are unaffected. */
  lemma EnableDefaultMappingForRoutes(reg: Registry, rt: Runtime, destination: TypeId, g: Converter,
                                      source: Value, target: TypeId)
    requires EnableDefaultMappingFor(reg, destination, Some(g)).thrown.None?
    ensures var after := Mapper(EnableDefaultMappingFor(reg, destination, Some(g)).options);
      if source.Ref? && target == destination && (source.obj.runtimeType, destination) !in reg.maps
      then Map(after, rt, source, target) == Success(g(source))
      else Map(after, rt, source, target) == Map(Mapper(reg), rt, source, target)
  {
  }

  /** Switching the copier on only turns `NotImplementedException` into the
      copier's result; every call that succeeded or failed on a null source
      before gives the same answer after. */
  lemma EnableDefaultMappingRoutes(reg: Registry, rt: Runtime, source: Value, target: TypeId)
    ensures var before := Map(Mapper(reg), rt, source, target);
            var after := Map(Mapper(EnableDefaultMapping(reg)), rt, source, target);
      if source.Ref? && before.Failure?
      then before.error.NotImplemented? && after == Success(Ref(DefaultMapping.DefaultMap(rt, source.obj, target)))
      else after == before
  {
  }
}
