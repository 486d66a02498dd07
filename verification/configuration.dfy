/** `MapperConfigurationOptions`: the registry the configure callback fills
    and the mapper later reads. The C# builder methods mutate the registry in
    place and return it for chaining; here each returns a `Step`, the
    registry's state after the call together with the exception the call
    raised, if any. */
module MapperConfiguration {
  import opened Results
  import opened Clr

  /** Explicit maps keyed by (source type, destination type), default maps
      keyed by destination type, and the switch for the generic copier. */
  datatype Registry = Registry(
    maps: map<(TypeId, TypeId), Converter>,
    defaultMaps: map<TypeId, Converter>,
    defaultMappingEnabled: bool)

  /** The outcome of one builder call on the (single, shared) registry. */
  datatype Step = Step(options: Registry, thrown: Option<Error>)

  /** A freshly constructed registry: both tables empty, copier off. */
  const Empty := Registry(map[], map[], false)

  /** `AddMap<TSource, TDestination>(mapFunction)`: a null function is
      rejected, and `Dictionary.Add` rejects a pair already registered;
      either way the registry is left as it was. */
  function AddMap(reg: Registry, source: TypeId, destination: TypeId, mapFunction: Option<Converter>): (s: Step)
    ensures mapFunction.None? ==> s == Step(reg, Some(ArgumentNull("mapFunction")))
    ensures mapFunction.Some? && (source, destination) in reg.maps ==> s == Step(reg, Some(DuplicateKey))
    ensures s.thrown.None? <==> mapFunction.Some? && (source, destination) !in reg.maps
    ensures s.thrown.None? ==>
      && s.options.maps.Keys == reg.maps.Keys + {(source, destination)}
      && s.options.maps[(source, destination)] == mapFunction.value
      && forall k :: k in reg.maps ==> s.options.maps[k] == reg.maps[k]
    ensures s.options.defaultMaps == reg.defaultMaps
    ensures s.options.defaultMappingEnabled == reg.defaultMappingEnabled
  {
    match mapFunction
    case None => Step(reg, Some(ArgumentNull("mapFunction")))
    case Some(f) =>
      if (source, destination) in reg.maps then Step(reg, Some(DuplicateKey))
      else Step(reg.(maps := reg.maps[(source, destination) := f]), None)
  }

  /** `EnableDefaultMapping()`: switches the generic copier on; it cannot
      fail and touches neither table. */
  function EnableDefaultMapping(reg: Registry): (r: Registry)
    ensures r.defaultMappingEnabled
    ensures r.maps == reg.maps && r.defaultMaps == reg.defaultMaps
  {
    reg.(defaultMappingEnabled := true)
  }

  /** `EnableDefaultMappingFor<TDestination>(defaultMapFunction)`: registers
      a fallback for one destination type. A null function or a destination
      already registered is rejected and leaves the registry as it was. */
  function EnableDefaultMappingFor(reg: Registry, destination: TypeId, defaultMapFunction: Option<Converter>): (s: Step)
    ensures defaultMapFunction.None? ==> s == Step(reg, Some(ArgumentNull("defaultMapFunction")))
    ensures defaultMapFunction.Some? && destination in reg.defaultMaps ==> s == Step(reg, Some(DuplicateKey))
    ensures s.thrown.None? <==> defaultMapFunction.Some? && destination !in reg.defaultMaps
    ensures s.thrown.None? ==>
      && s.options.defaultMaps.Keys == reg.defaultMaps.Keys + {destination}
      && s.options.defaultMaps[destination] == defaultMapFunction.value
      && forall k :: k in reg.defaultMaps ==> s.options.defaultMaps[k] == reg.defaultMaps[k]
    ensures s.options.maps == reg.maps
    ensures s.options.defaultMappingEnabled == reg.defaultMappingEnabled
  {
    match defaultMapFunction
    case None => Step(reg, Some(ArgumentNull("defaultMapFunction")))
    case Some(f) =>
      if destination in reg.defaultMaps then Step(reg, Some(DuplicateKey))
      else Step(reg.(defaultMaps := reg.defaultMaps[destination := f]), None)
  }

  /** Switching the copier on twice is the same as switching it on once. */
  lemma EnableDefaultMappingIdempotent(reg: Registry)
    ensures EnableDefaultMapping(EnableDefaultMapping(reg)) == EnableDefaultMapping(reg)
  {
  }
}
