/** The settings value types, their validators, and the construction and merging
    of the run `State`.

    Every value shape a parameter may take is one case of the tagged union `Value`;
    the pydantic validators become constructor functions that return `Err` where
    the source raises.
 */
module DataStructures {
  import opened Common
  import opened Dict
  import opened Fields
  import opened RandomStream

  datatype Distribution = Uniform | Log

  datatype Vary = Fixed | Const | Space | List

  /** A fraction in [0, 1) of a non-negative width stays within the width, strictly
      below it when the width is positive. */
  lemma ScaleBelow(r: real, d: real)
    requires 0.0 <= r < 1.0 && 0.0 <= d
    ensures 0.0 <= r * d <= d
    ensures 0.0 < d ==> r * d < d
  {
    assert d - r * d == (1.0 - r) * d;
    assert 0.0 < d ==> (1.0 - r) * d > 0.0;
  }

  datatype MinMax = MinMax(min: real, max: real) {
    /** `max - r * (max - min)`: how both variation files draw a value from a range,
        counting down from `max`. For `r` in [0, 1) the value lies in (min, max]. */
    function SampleDown(r: real): (v: real)
      ensures min <= max && 0.0 <= r < 1.0 ==> min <= v <= max
      ensures min < max && 0.0 <= r < 1.0 ==> min < v
      ensures r == 0.0 ==> v == max
    {
      var d := max - min;
      var v := max - r * d;
      if 0.0 <= r < 1.0 && min <= max then
        ScaleBelow(r, d);
        assert min <= v;
        v
      else
        v
    }
  }

  /** One time step of a time series: a range still to be drawn from, or a number. */
  datatype SeriesEntry = EntryRange(range: MinMax) | EntryValue(x: real)

  /** `ValueTimeSeries`: time steps in insertion order. */
  datatype TimeSeries = TimeSeries(timeUnit: string, values: seq<(real, SeriesEntry)>)

  /** The type of `injection_temp` and `injection_rate`. */
  datatype Operational = OpSeries(series: TimeSeries) | OpRange(range: MinMax) | OpValue(x: real)

  /** A location is given in cells until the preparation stage turns it into coordinates. */
  datatype HeatPump = HeatPump(location: Option<seq<real>>, injectionTemp: Operational, injectionRate: Operational)

  /** A request to generate `number` heat pumps at random locations. */
  datatype HeatPumps = HeatPumps(number: int, injectionTemp: Operational, injectionRate: Operational)

  datatype Frequency = FreqRange(range: MinMax) | FreqList(xs: seq<real>)

  datatype Perlin = Perlin(frequency: Frequency, max: real, min: real)

  /** Every shape `Parameter.value` (and `Data.value`) may take. */
  datatype Value =
    | Float(x: real)
    | IntList(ints: seq<int>)
    | Group(group: HeatPumps)
    | Pump(pump: HeatPump)
    | PerlinValue(perlin: Perlin)
    | Range(range: MinMax)
    | Xyz(x: real, y: real, z: real)
    | File(path: string)
    | Array(field: Field)

  datatype Parameter = Parameter(name: string, value: Value, distribution: Distribution, vary: Vary)

  /** The value of one parameter in one datapoint. */
  datatype Data = Data(name: string, value: Value)

  datatype DataPoint = DataPoint(index: int, data: seq<(string, Data)>)

  /** The fields of `GeneralConfig` the engine reads. */
  datatype General = General(
    numberCells: seq<int>,
    cellResolution: real,
    shuffleDatapoints: bool,
    randomSeed: Option<int>,
    numberDatapoints: int)

  type ParameterMap = seq<(string, Parameter)>

  /** The run state; `rng` is the stream of the generator seeded once from `randomSeed`. */
  datatype State = State(
    general: General,
    hydro: ParameterMap,
    heatpumps: ParameterMap,
    datapoints: seq<DataPoint>,
    rng: Stream)

  /** Keys are unique and every parameter carries its key as its name. */
  predicate WellFormedMap(m: ParameterMap) {
    && Distinct(Keys(m))
    && forall i :: 0 <= i < |m| ==> m[i].1.name == m[i].0
  }

  /* ----- make_value_3d ----- */

  /** Two entries get a third one (`1`) appended; three stay; any other length fails. */
  function MakeValue3d<T>(value: seq<T>, one: T): (r: Result<seq<T>>)
    ensures r.Ok? <==> |value| == 2 || |value| == 3
    ensures r.Ok? ==> |r.value| == 3 && r.value[..|value|] == value
    ensures |value| == 2 ==> r.Ok? && r.value[2] == one
    ensures r.Err? ==> r.error == NotThreeDimensional
  {
    var v := if |value| == 2 then value + [one] else value;
    if |v| != 3 then Err(NotThreeDimensional) else Ok(v)
  }

  /** A value that already passed `make_value_3d` passes it again unchanged. */
  lemma MakeValue3dIdempotent<T>(value: seq<T>, one: T)
    requires MakeValue3d(value, one).Ok?
    ensures MakeValue3d(MakeValue3d(value, one).value, one) == MakeValue3d(value, one)
  {
  }

  /* ----- value validators ----- */

  function NewMinMax(min: real, max: real): (r: Result<MinMax>)
    ensures r.Ok? <==> min <= max
    ensures r.Ok? ==> r.value.min == min && r.value.max == max
    ensures r.Err? ==> r.error == MaxBelowMin
  {
    if max < min then Err(MaxBelowMin) else Ok(MinMax(min, max))
  }

  /** A frequency list of exactly three entries. */
  predicate ValidFrequency(f: Frequency) {
    f.FreqList? ==> |f.xs| == 3
  }

  /** `ValuePerlin`: the frequency list is made 3-D first, then `max >= min` is checked. */
  function NewPerlin(frequency: Frequency, max: real, min: real): (r: Result<Perlin>)
    ensures r.Ok? <==> (frequency.FreqList? ==> |frequency.xs| in {2, 3}) && min <= max
    ensures frequency.FreqList? && |frequency.xs| !in {2, 3} ==> r == Err(NotThreeDimensional)
    ensures r.Ok? ==> r.value.min == min && r.value.max == max && ValidFrequency(r.value.frequency)
    ensures r.Ok? && frequency.FreqRange? ==> r.value.frequency == frequency
  {
    var freq :- match frequency
      case FreqRange(_) => Ok(frequency)
      case FreqList(xs) => var xs3 :- MakeValue3d(xs, 1.0); Ok(FreqList(xs3));
    if max < min then Err(MaxBelowMin) else Ok(Perlin(freq, max, min))
  }

  /** `HeatPump`: a given location is made 3-D; a missing one is kept missing. */
  function NewHeatPump(location: Option<seq<real>>, temp: Operational, rate: Operational): (r: Result<HeatPump>)
    ensures location.None? ==> r == Ok(HeatPump(None, temp, rate))
    ensures location.Some? ==> (r.Ok? <==> |location.value| in {2, 3})
    ensures r.Ok? && location.Some? ==> r.value.location.Some? && |r.value.location.value| == 3
    ensures r.Ok? ==> r.value.injectionTemp == temp && r.value.injectionRate == rate
  {
    match location
    case None => Ok(HeatPump(None, temp, rate))
    case Some(xs) =>
      var xs3 :- MakeValue3d(xs, 1.0);
      Ok(HeatPump(Some(xs3), temp, rate))
  }

  /** `HeatPumps.number` is a `PositiveInt`. */
  function NewHeatPumps(number: int, temp: Operational, rate: Operational): (r: Result<HeatPumps>)
    ensures r.Ok? <==> number >= 1
    ensures r.Ok? ==> r.value.number == number
  {
    if number < 1 then Err(NotPositive) else Ok(HeatPumps(number, temp, rate))
  }

  /** A heat pump without a location is only accepted when it is varied in space. */
  function NewParameter(name: string, value: Value, distribution: Distribution, vary: Vary): (r: Result<Parameter>)
    ensures r.Err? <==> value.Pump? && value.pump.location.None? && vary != Space
    ensures r.Err? ==> r.error == LocationNoneNotSpace
    ensures r.Ok? ==> r.value.name == name && r.value.value == value
    ensures r.Ok? ==> r.value.distribution == distribution && r.value.vary == vary
  {
    if value.Pump? && value.pump.location.None? && vary != Space then Err(LocationNoneNotSpace)
    else Ok(Parameter(name, value, distribution, vary))
  }

  /* ----- defaults ----- */

  function DefaultGeneral(): General {
    General([32, 256, 1], 5.0, true, Some(0), 1)
  }

  function DefaultHydro(): ParameterMap {
    [ ("permeability", Parameter("permeability", Float(0.000000000129), Uniform, Fixed)),
      ("pressure_gradient", Parameter("pressure_gradient", Float(-0.0025), Uniform, Fixed)),
      ("temperature", Parameter("temperature", Float(10.6), Uniform, Fixed)),
      ("porosity", Parameter("porosity", Float(0.25), Uniform, Fixed)) ]
  }

  function DefaultHeatpumps(): ParameterMap {
    [ ("hp1", Parameter("hp1", Pump(HeatPump(Some([16.0, 32.0, 1.0]), OpValue(13.6), OpValue(0.00024))), Uniform, Fixed)) ]
  }

  /** `State()` with no settings: `seeded` is the generator seeded from the default seed 0. */
  function DefaultState(seeded: Stream): State {
    State(DefaultGeneral(), DefaultHydro(), DefaultHeatpumps(), [], seeded)
  }

  /** The defaults: four fixed hydrogeological parameters and one fixed heat pump `hp1`. */
  lemma DefaultStateShape(seeded: Stream)
    ensures var s := DefaultState(seeded);
      && Keys(s.hydro) == ["permeability", "pressure_gradient", "temperature", "porosity"]
      && (forall i :: 0 <= i < |s.hydro| ==> s.hydro[i].1.vary == Fixed && s.hydro[i].1.value.Float?)
      && Keys(s.heatpumps) == ["hp1"]
      && s.heatpumps[0].1.vary == Fixed
      && s.heatpumps[0].1.value.Pump?
      && s.heatpumps[0].1.value.pump.location == Some([16.0, 32.0, 1.0])
      && WellFormedMap(s.hydro) && WellFormedMap(s.heatpumps)
      && s.datapoints == []
  {
  }

  /* ----- State construction ----- */

  /** A parameter as written in the settings file; its `name`, if any, is overwritten. */
  datatype RawParameter = RawParameter(name: Option<string>, value: Value, distribution: Distribution, vary: Vary)

  type RawMap = seq<(string, RawParameter)>

  /** The keyword arguments of `State(**settings)`; an absent section is `None`. */
  datatype RawSettings = RawSettings(
    general: Option<General>,
    hydro: Option<RawMap>,
    heatpumps: Option<RawMap>,
    datapoints: Option<seq<DataPoint>>)

  /** `put_parameter_name_into_data`: every parameter's name becomes its key. */
  function PutParameterNames(m: RawMap): (r: RawMap)
    ensures Keys(r) == Keys(m)
    ensures forall i :: 0 <= i < |m| ==> r[i].1 == m[i].1.(name := Some(m[i].0))
  {
    seq(|m|, i requires 0 <= i < |m| => (m[i].0, m[i].1.(name := Some(m[i].0))))
  }

  /** Builds every parameter with `NewParameter`, stopping at the first one rejected. */
  function ValidateParameters(m: RawMap): (r: Result<ParameterMap>)
    requires forall i :: 0 <= i < |m| ==> m[i].1.name.Some?
    ensures r.Ok? ==> Keys(r.value) == Keys(m)
    ensures r.Ok? ==> forall i :: 0 <= i < |m| ==>
      NewParameter(m[i].1.name.value, m[i].1.value, m[i].1.distribution, m[i].1.vary) == Ok(r.value[i].1)
    ensures r.Ok? <==> forall i :: 0 <= i < |m| ==>
      NewParameter(m[i].1.name.value, m[i].1.value, m[i].1.distribution, m[i].1.vary).Ok?
    ensures r.Err? ==> r.error == LocationNoneNotSpace
  {
    if |m| == 0 then Ok([])
    else
      var raw := m[0].1;
      var p :- NewParameter(raw.name.value, raw.value, raw.distribution, raw.vary);
      var rest :- ValidateParameters(m[1..]);
      ValidatedCons(m, p, rest);
      Ok([(m[0].0, p)] + rest)
  }

  /** The first parameter built in front of the rest, built the same way. */
  lemma ValidatedCons(m: RawMap, p: Parameter, rest: ParameterMap)
    requires |m| > 0 && forall i :: 0 <= i < |m| ==> m[i].1.name.Some?
    requires NewParameter(m[0].1.name.value, m[0].1.value, m[0].1.distribution, m[0].1.vary) == Ok(p)
    requires Keys(rest) == Keys(m[1..])
    requires forall i :: 0 <= i < |m[1..]| ==>
      NewParameter(m[1..][i].1.name.value, m[1..][i].1.value, m[1..][i].1.distribution, m[1..][i].1.vary) == Ok(rest[i].1)
    ensures var r := [(m[0].0, p)] + rest;
      && Keys(r) == Keys(m)
      && forall i :: 0 <= i < |m| ==>
           NewParameter(m[i].1.name.value, m[i].1.value, m[i].1.distribution, m[i].1.vary) == Ok(r[i].1)
  {
    var r := [(m[0].0, p)] + rest;
    KeysConcat([(m[0].0, p)], rest);
    assert Keys(m) == [m[0].0] + Keys(m[1..]);
    forall i | 0 <= i < |m|
      ensures NewParameter(m[i].1.name.value, m[i].1.value, m[i].1.distribution, m[i].1.vary) == Ok(r[i].1)
    {
      if i > 0 {
        assert m[i] == m[1..][i - 1] && r[i] == rest[i - 1];
      }
    }
  }

  /** Whether a path-valued file parameter uses a vary mode it may use. */
  predicate FileVaryAllowed(m: ParameterMap, key: string, modes: set<Vary>) {
    var p := Get(m, key);
    p.None? || !p.value.value.File? || p.value.vary in modes
  }

  /** `check_all_or_none_file_paths`. Only the vary modes of path-valued parameters are
      checked; the all-or-none comparison itself is commented out in the source. */
  function CheckAllOrNoneFilePaths(hydro: ParameterMap): (r: Result<()>)
    ensures r.Ok? <==>
      && FileVaryAllowed(hydro, "permeability", {Fixed, List})
      && FileVaryAllowed(hydro, "pressure_gradient", {Fixed})
      && FileVaryAllowed(hydro, "temperature", {Fixed})
    ensures !FileVaryAllowed(hydro, "permeability", {Fixed, List}) ==> r == Err(PathNotFixedOrList)
    ensures FileVaryAllowed(hydro, "permeability", {Fixed, List}) && r.Err? ==> r.error == PathNotFixed
  {
    if !FileVaryAllowed(hydro, "permeability", {Fixed, List}) then Err(PathNotFixedOrList)
    else if !FileVaryAllowed(hydro, "pressure_gradient", {Fixed}) then Err(PathNotFixed)
    else if !FileVaryAllowed(hydro, "temperature", {Fixed}) then Err(PathNotFixed)
    else Ok(())
  }

  /** One parameter may be a file while the others are not. */
  lemma FilePathsNeedNotBeAllOrNone()
    ensures CheckAllOrNoneFilePaths(
      [ ("permeability", Parameter("permeability", File("perm.h5"), Uniform, Fixed)),
        ("temperature", Parameter("temperature", Float(10.6), Uniform, Fixed)) ]).Ok?
  {
  }

  /** Every parameter of a given section passes `NewParameter` under its key. */
  predicate SectionAccepted(raw: Option<RawMap>) {
    raw.Some? ==> forall i :: 0 <= i < |raw.value| ==>
      var p := raw.value[i].1;
      NewParameter(raw.value[i].0, p.value, p.distribution, p.vary).Ok?
  }

  /** `m` is the section as the settings give it: the defaults when it is absent,
      else the same keys in the same order, each parameter named after its key and
      keeping its value, distribution and vary mode. */
  predicate SectionBuilt(raw: Option<RawMap>, default: ParameterMap, m: ParameterMap) {
    match raw
    case None => m == default
    case Some(rm) =>
      && Keys(m) == Keys(rm)
      && forall i :: 0 <= i < |rm| ==>
           m[i].1 == Parameter(rm[i].0, rm[i].1.value, rm[i].1.distribution, rm[i].1.vary)
  }

  /** A parameter section: defaults when absent, else named after the keys and validated. */
  function BuildSection(raw: Option<RawMap>, default: ParameterMap): (r: Result<ParameterMap>)
    requires forall i :: 0 <= i < |default| ==> default[i].1.name == default[i].0
    ensures raw.None? ==> r == Ok(default)
    ensures r.Ok? <==> SectionAccepted(raw)
    ensures r.Err? ==> r.error == LocationNoneNotSpace
    ensures r.Ok? ==> SectionBuilt(raw, default, r.value)
    ensures r.Ok? ==> Keys(r.value) == if raw.Some? then Keys(raw.value) else Keys(default)
    ensures r.Ok? ==> forall i :: 0 <= i < |r.value| ==> r.value[i].1.name == r.value[i].0
  {
    match raw
    case None => Ok(default)
    case Some(m) => ValidateParameters(PutParameterNames(m))
  }

  lemma DefaultsNamedAfterKeys()
    ensures forall i :: 0 <= i < |DefaultHydro()| ==> DefaultHydro()[i].1.name == DefaultHydro()[i].0
    ensures forall i :: 0 <= i < |DefaultHeatpumps()| ==> DefaultHeatpumps()[i].1.name == DefaultHeatpumps()[i].0
  {
  }

  /** `State(**settings)`: rejects a `datapoints` section, names every parameter after
      its key, validates the parameters and the file-path vary modes, and starts with no
      datapoints and the freshly seeded generator. */
  function NewState(raw: RawSettings, seeded: Stream): (r: Result<State>)
    ensures raw.datapoints.Some? ==> r == Err(DatapointsGiven)
    ensures raw.datapoints.None? ==>
              (r.Ok? <==> SectionAccepted(raw.hydro) && SectionAccepted(raw.heatpumps)
                          && CheckAllOrNoneFilePaths(BuildSection(raw.hydro, DefaultHydro()).value).Ok?)
    ensures r.Ok? ==> r.value.general == if raw.general.Some? then raw.general.value else DefaultGeneral()
    ensures r.Ok? ==> SectionBuilt(raw.hydro, DefaultHydro(), r.value.hydro)
    ensures r.Ok? ==> SectionBuilt(raw.heatpumps, DefaultHeatpumps(), r.value.heatpumps)
    ensures r.Ok? ==> r.value.datapoints == [] && r.value.rng == seeded
    ensures r.Ok? ==> Keys(r.value.hydro) == (if raw.hydro.Some? then Keys(raw.hydro.value) else Keys(DefaultHydro()))
    ensures r.Ok? ==> Keys(r.value.heatpumps) == (if raw.heatpumps.Some? then Keys(raw.heatpumps.value) else Keys(DefaultHeatpumps()))
    ensures r.Ok? ==> forall i :: 0 <= i < |r.value.hydro| ==> r.value.hydro[i].1.name == r.value.hydro[i].0
    ensures r.Ok? ==> forall i :: 0 <= i < |r.value.heatpumps| ==> r.value.heatpumps[i].1.name == r.value.heatpumps[i].0
    ensures r.Ok? ==> CheckAllOrNoneFilePaths(r.value.hydro).Ok?
  {
    if raw.datapoints.Some? then Err(DatapointsGiven)
    else
      var general := if raw.general.Some? then raw.general.value else DefaultGeneral();
      DefaultsNamedAfterKeys();
      var hydro := BuildSection(raw.hydro, DefaultHydro());
      var heatpumps := BuildSection(raw.heatpumps, DefaultHeatpumps());
      if hydro.Err? then Err(hydro.error)
      else if heatpumps.Err? then Err(heatpumps.error)
      else if CheckAllOrNoneFilePaths(hydro.value).Err? then Err(CheckAllOrNoneFilePaths(hydro.value).error)
      else Ok(State(general, hydro.value, heatpumps.value, [], seeded))
  }

  /* ----- override_with ----- */

  /** `State.override_with`: everything is taken from `other`, except that the
      hydrogeological parameters are merged with `|`. */
  function OverrideWith(self: State, other: State): State {
    State(other.general, Union(self.hydro, other.hydro), other.heatpumps, other.datapoints, other.rng)
  }

  /** The merge is asymmetric: hydrogeological entries of `other` win key by key and
      entries only `self` has survive in their old position, while the heat pumps,
      the general settings, the datapoints and the generator are replaced wholesale. */
  lemma OverrideWithMerge(self: State, other: State)
    requires Distinct(Keys(other.hydro))
    ensures var r := OverrideWith(self, other);
      && r.general == other.general
      && r.heatpumps == other.heatpumps
      && r.datapoints == other.datapoints
      && r.rng == other.rng
      && Keys(r.hydro)[..|self.hydro|] == Keys(self.hydro)
      && (forall k :: k in Keys(r.hydro) <==> k in Keys(self.hydro) || k in Keys(other.hydro))
      && (forall k :: k in Keys(other.hydro) ==> Get(r.hydro, k) == Get(other.hydro, k))
      && (forall k :: k !in Keys(other.hydro) ==> Get(r.hydro, k) == Get(self.hydro, k))
  {
    var u := Union(self.hydro, other.hydro);
    forall k ensures k in Keys(u) <==> k in Keys(self.hydro) || k in Keys(other.hydro) {
      UnionKeys(self.hydro, other.hydro, k);
    }
    forall k ensures k in Keys(other.hydro) ==> Get(u, k) == Get(other.hydro, k)
      ensures k !in Keys(other.hydro) ==> Get(u, k) == Get(self.hydro, k)
    {
      UnionGet(self.hydro, other.hydro, k);
    }
  }
}
