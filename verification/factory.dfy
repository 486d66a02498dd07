/** `PiriMapper.Create`: builds an empty registry, hands it once to the
    configure callback, and wraps the result in a mapper. The callback is
    modelled by the sequence of builder calls it makes on the registry; an
    exception any call raises ends the callback and propagates out of
    `Create`. */
module PiriMapper {
  import opened Results
  import opened Clr
  import opened MapperConfiguration
  import opened Mapping

  /** One thing the configure callback does: a builder call, or throwing an
      exception of its own. */
  datatype BuilderCall =
    | AddMapCall(source: TypeId, destination: TypeId, mapFunction: Option<Converter>)
    | EnableDefaultMappingCall
    | EnableDefaultMappingForCall(destination: TypeId, defaultMapFunction: Option<Converter>)
    | Throw(error: Error)

  /** The `configure` argument: null, or a callback making `calls` in order. */
  datatype Configure = NoConfigure | Configure(calls: seq<BuilderCall>)

  /** Performs one call on the registry. */
  function Apply(reg: Registry, call: BuilderCall): (s: Step)
    ensures s.thrown.Some? ==> s.options == reg
    ensures s.thrown.None? <==> Supplies(call) && FreshFor(reg, call)
    ensures reg.defaultMappingEnabled ==> s.options.defaultMappingEnabled
    ensures call.AddMapCall? && call.mapFunction.None? ==> s.thrown == Some(ArgumentNull("mapFunction"))
    ensures call.EnableDefaultMappingForCall? && call.defaultMapFunction.None? ==>
      s.thrown == Some(ArgumentNull("defaultMapFunction"))
    ensures Supplies(call) && !FreshFor(reg, call) ==> s.thrown == Some(DuplicateKey)
    ensures call.Throw? ==> s.thrown == Some(call.error)
  {
    match call
    case AddMapCall(source, destination, f) => AddMap(reg, source, destination, f)
    case EnableDefaultMappingCall => Step(EnableDefaultMapping(reg), None)
    case EnableDefaultMappingForCall(destination, f) => EnableDefaultMappingFor(reg, destination, f)
    case Throw(e) => Step(reg, Some(e))
  }

  /** Runs the calls in order, stopping at the first exception. The registry
      only grows: entries stay, values stay, and the copier switch, once on,
      stays on. */
  function Run(reg: Registry, calls: seq<BuilderCall>): (s: Step)
    ensures reg.defaultMappingEnabled ==> s.options.defaultMappingEnabled
    ensures reg.maps.Keys <= s.options.maps.Keys
    ensures forall k :: k in reg.maps ==> s.options.maps[k] == reg.maps[k]
    ensures reg.defaultMaps.Keys <= s.options.defaultMaps.Keys
    ensures forall k :: k in reg.defaultMaps ==> s.options.defaultMaps[k] == reg.defaultMaps[k]
    decreases |calls|
  {
    if |calls| == 0 then Step(reg, None)
    else
      var first := Apply(reg, calls[0]);
      if first.thrown.Some? then first else Run(first.options, calls[1..])
  }

  /** When the configure step raises, the exception is the one raised by the
      first call that fails, made on the registry the calls before it built;
      the registry is left as those calls left it. */
  lemma {:induction false} RunStopsAtFirstFailure(reg: Registry, calls: seq<BuilderCall>)
    requires Run(reg, calls).thrown.Some?
    ensures exists i ::
      && 0 <= i < |calls|
      && Run(reg, calls[..i]).thrown.None?
      && Apply(Run(reg, calls[..i]).options, calls[i]).thrown == Run(reg, calls).thrown
      && Run(reg, calls).options == Run(reg, calls[..i]).options
    decreases |calls|
  {
    var first := Apply(reg, calls[0]);
    assert calls[..0] == [];
    if first.thrown.Some? {
      assert Run(reg, calls[..0]) == Step(reg, None);
    } else {
      var tail := calls[1..];
      RunStopsAtFirstFailure(first.options, tail);
      var k :|
        && 0 <= k < |tail|
        && Run(first.options, tail[..k]).thrown.None?
        && Apply(Run(first.options, tail[..k]).options, tail[k]).thrown == Run(first.options, tail).thrown
        && Run(first.options, tail).options == Run(first.options, tail[..k]).options;
      assert calls[..k + 1][0] == calls[0] && calls[..k + 1][1..] == tail[..k];
      assert tail[k] == calls[k + 1];
    }
  }

  /** `PiriMapper.Create(configure)`. */
  function Create(configure: Configure): (r: Result<Mapper, Error>)
    ensures configure.NoConfigure? ==> r == Failure(ArgumentNull("configure"))
    ensures configure.Configure? ==> (r.Success? <==> Accepted(Empty, configure.calls))
    ensures configure.Configure? && r.Failure? ==> Run(Empty, configure.calls).thrown == Some(r.error)
    ensures r.Success? ==>
      && r.value.config.maps.Keys == AddedPairs(configure.calls)
      && (forall i :: 0 <= i < |configure.calls| && configure.calls[i].AddMapCall? ==>
            r.value.config.maps[PairOf(configure.calls[i])] == configure.calls[i].mapFunction.value)
      && r.value.config.defaultMaps.Keys == AddedDestinations(configure.calls)
      && (forall i :: 0 <= i < |configure.calls| && configure.calls[i].EnableDefaultMappingForCall? ==>
            r.value.config.defaultMaps[configure.calls[i].destination] == configure.calls[i].defaultMapFunction.value)
      && (r.value.config.defaultMappingEnabled <==> EnablesCopier(configure.calls))
  {
    match configure
    case NoConfigure => Failure(ArgumentNull("configure"))
    case Configure(calls) =>
      var s := Run(Empty, calls);
      RunMatchesScript(Empty, calls);
      if s.thrown.Some? then Failure(s.thrown.value) else Success(Mapper(s.options))
  }

  // ---------------------------------------------------------------------
  // A declarative account of a configure script, independent of the fold.
  // ---------------------------------------------------------------------

  /** The call passes its own null check (and is not a user `throw`). */
  predicate Supplies(call: BuilderCall)
  {
    match call
    case AddMapCall(_, _, f) => f.Some?
    case EnableDefaultMappingCall => true
    case EnableDefaultMappingForCall(_, f) => f.Some?
    case Throw(_) => false
  }

  /** The key the call would insert is not yet in the registry. */
  predicate FreshFor(reg: Registry, call: BuilderCall)
  {
    match call
    case AddMapCall(source, destination, _) => (source, destination) !in reg.maps
    case EnableDefaultMappingForCall(destination, _) => destination !in reg.defaultMaps
    case _ => true
  }

  /** The key an `AddMap` call inserts. */
  function PairOf(call: BuilderCall): (TypeId, TypeId)
    requires call.AddMapCall?
  {
    (call.source, call.destination)
  }

  /** Every pair the script registers with `AddMap`. */
  ghost function AddedPairs(calls: seq<BuilderCall>): set<(TypeId, TypeId)>
  {
    set i | 0 <= i < |calls| && calls[i].AddMapCall? :: PairOf(calls[i])
  }

  /** Every destination the script registers with `EnableDefaultMappingFor`. */
  ghost function AddedDestinations(calls: seq<BuilderCall>): set<TypeId>
  {
    set i | 0 <= i < |calls| && calls[i].EnableDefaultMappingForCall? :: calls[i].destination
  }

  /** The script calls `EnableDefaultMapping` somewhere. */
  ghost predicate EnablesCopier(calls: seq<BuilderCall>)
  {
    exists i :: 0 <= i < |calls| && calls[i].EnableDefaultMappingCall?
  }

  /** The script runs to completion on `reg`: every call supplies its
      function and does not throw, no key it inserts is already in `reg`, and
      it inserts no key twice. */
  ghost predicate Accepted(reg: Registry, calls: seq<BuilderCall>)
  {
    && (forall i :: 0 <= i < |calls| ==> Supplies(calls[i]) && FreshFor(reg, calls[i]))
    && (forall i, j :: 0 <= i < j < |calls| && calls[i].AddMapCall? && calls[j].AddMapCall? ==>
          PairOf(calls[i]) != PairOf(calls[j]))
    && (forall i, j :: 0 <= i < j < |calls| && calls[i].EnableDefaultMappingForCall? && calls[j].EnableDefaultMappingForCall? ==>
          calls[i].destination != calls[j].destination)
  }

  lemma AcceptedUnfold(reg: Registry, calls: seq<BuilderCall>)
    requires |calls| > 0
    ensures Accepted(reg, calls) <==>
      Apply(reg, calls[0]).thrown.None? && Accepted(Apply(reg, calls[0]).options, calls[1..])
  {
  }

  /** How the declarative summaries of a script split into its first call
      and the rest. */
  lemma ScriptUnfold(calls: seq<BuilderCall>)
    requires |calls| > 0
    ensures AddedPairs(calls) ==
      (if calls[0].AddMapCall? then {PairOf(calls[0])} else {}) + AddedPairs(calls[1..])
    ensures AddedDestinations(calls) ==
      (if calls[0].EnableDefaultMappingForCall? then {calls[0].destination} else {}) + AddedDestinations(calls[1..])
    ensures EnablesCopier(calls) <==> calls[0].EnableDefaultMappingCall? || EnablesCopier(calls[1..])
  {
  }

  /** The fold agrees with the declarative account: the script runs to
      completion exactly when it is accepted, and then the registry holds
      what it held before plus exactly the entries the script registers, and
      the copier is on exactly when it was already on or the script switches
      it on. */
  lemma {:induction false} RunMatchesScript(reg: Registry, calls: seq<BuilderCall>)
    ensures Run(reg, calls).thrown.None? <==> Accepted(reg, calls)
    ensures Accepted(reg, calls) ==>
      var out := Run(reg, calls).options;
      && out.maps.Keys == reg.maps.Keys + AddedPairs(calls)
      && (forall i :: 0 <= i < |calls| && calls[i].AddMapCall? ==> out.maps[PairOf(calls[i])] == calls[i].mapFunction.value)
      && out.defaultMaps.Keys == reg.defaultMaps.Keys + AddedDestinations(calls)
      && (forall i :: 0 <= i < |calls| && calls[i].EnableDefaultMappingForCall? ==>
            out.defaultMaps[calls[i].destination] == calls[i].defaultMapFunction.value)
      && (out.defaultMappingEnabled <==> reg.defaultMappingEnabled || EnablesCopier(calls))
    decreases |calls|
  {
    if |calls| == 0 {
      assert AddedPairs(calls) == {};
      assert AddedDestinations(calls) == {};
    } else {
      var tail := calls[1..];
      var next := Apply(reg, calls[0]);
      AcceptedUnfold(reg, calls);
      if next.thrown.None? {
        RunMatchesScript(next.options, tail);
        if Accepted(reg, calls) {
          var out := Run(next.options, tail).options;
          assert Run(reg, calls).options == out;
          ScriptUnfold(calls);
          forall i | 0 <= i < |calls| && calls[i].AddMapCall?
            ensures out.maps[PairOf(calls[i])] == calls[i].mapFunction.value
          {
            if i > 0 {
              assert tail[i - 1] == calls[i];
            }
          }
          forall i | 0 <= i < |calls| && calls[i].EnableDefaultMappingForCall?
            ensures out.defaultMaps[calls[i].destination] == calls[i].defaultMapFunction.value
          {
            if i > 0 {
              assert tail[i - 1] == calls[i];
            }
          }
        }
      }
    }
  }

  /** A configure callback that does nothing yields a mapper, and that mapper
      maps nothing: every non-null source fails with `NotImplementedException`
      naming the destination. */
  lemma EmptyConfigureMapsNothing(rt: Runtime, source: Value, destination: TypeId)
    requires source.Ref?
    ensures Create(Configure([])).Success?
    ensures Map(Create(Configure([])).value, rt, source, destination)
            == Failure(NotImplemented(NotFoundMessage(destination)))
  {
  }

  /** Registering the same pair twice makes `Create` fail with the
      dictionary's duplicate-key error, and no mapper is returned. */
  lemma DuplicateAddMapPropagates(source: TypeId, destination: TypeId, f: Converter, g: Converter)
    ensures Create(Configure([AddMapCall(source, destination, Some(f)), AddMapCall(source, destination, Some(g))]))
            == Failure(DuplicateKey)
  {
    var calls := [AddMapCall(source, destination, Some(f)), AddMapCall(source, destination, Some(g))];
    var first := Apply(Empty, calls[0]);
    assert first.thrown.None? && (source, destination) in first.options.maps;
    assert calls[1..] == [calls[1]];
    assert Run(first.options, calls[1..]) == Apply(first.options, calls[1]);
  }
}
