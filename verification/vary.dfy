/** The variation stage: one value per parameter per datapoint.

    Parameters are visited in the order of `hydro | heatpumps`, datapoint after
    datapoint, and every random draw comes from the single run stream, so the
    contracts below say which samples each step consumes: parameter `t` of
    datapoint `m` draws from the stream the `m` datapoints before it and the `t`
    parameters before it left (`StreamBefore` after `StreamAt`).
 */
module Vary {
  import opened Common
  import opened Dict
  import opened Fields
  import opened RandomStream
  import opened DataStructures
  import opened VaryPerlin
  import opened FisherYates

  /* ----- generate_heatpump_location ----- */

  /** `np.ceil` */
  function Ceil(x: real): (c: int)
    ensures x <= c as real < x + 1.0
  {
    -((-x).Floor)
  }

  /** A cell index drawn for an axis of `n` cells: `ceil(r * n)`. */
  function DrawnCell(r: real, n: int): (c: int)
    ensures 0.0 <= r < 1.0 && 0 < n ==> 0 <= c <= n
    ensures 0.0 < r < 1.0 && 0 < n ==> 1 <= c <= n
    ensures r == 0.0 ==> c == 0
  {
    if 0.0 <= r < 1.0 && 0 < n then
      ScaleBelow(r, n as real);
      assert 0.0 < r ==> 0.0 < r * n as real by {
        if 0.0 < r {
          assert r * n as real >= r * 1.0;
        }
      }
      Ceil(r * n as real)
    else
      Ceil(r * n as real)
  }

  /** `generate_heatpump_location`: three draws, one cell index per axis, 1-based.
      A draw of exactly 0 yields cell 0, which lies outside the grid. */
  function GenerateHeatpumpLocation(cells: seq<int>, rng: Stream): (r: (seq<real>, Stream))
    requires |cells| == 3
    ensures |r.0| == 3 && r.1 == rng.Skip(3)
    ensures forall i :: 0 <= i < 3 ==> r.0[i] == DrawnCell(rng.Peek(i), cells[i]) as real
    ensures rng.Valid() && PositiveCells(cells) ==> forall i :: 0 <= i < 3 ==> 0.0 <= r.0[i] <= cells[i] as real
  {
    var (d, rest) := Draw3(rng);
    (seq(3, i requires 0 <= i < 3 => DrawnCell(d[i], cells[i]) as real), rest)
  }

  /** `(location - 1) * resolution + resolution * 0.5`: the centre of a 1-based cell. */
  function CellCentre(c: real, res: real): real {
    (c - 1.0) * res + res * 0.5
  }

  /** The centre lies inside its cell, and cells are told apart by their centres. */
  lemma CellCentreInCell(c: real, d: real, res: real)
    requires 0.0 < res
    ensures (c - 1.0) * res < CellCentre(c, res) < c * res
    ensures CellCentre(c, res) == CellCentre(d, res) <==> c == d
  {
    assert CellCentre(c, res) - CellCentre(d, res) == (c - d) * res;
  }

  function ToCoordinates(loc: seq<real>, res: real): (r: seq<real>)
    ensures |r| == |loc| && forall i :: 0 <= i < |loc| ==> r[i] == CellCentre(loc[i], res)
  {
    seq(|loc|, i requires 0 <= i < |loc| => CellCentre(loc[i], res))
  }

  /* ----- handle_heatpump_values ----- */

  /** The number of entries of a series that are still ranges. */
  function RangeCount(entries: seq<(real, SeriesEntry)>): nat
    decreases |entries|
  {
    if |entries| == 0 then 0
    else (if entries[0].1.EntryRange? then 1 else 0) + RangeCount(entries[1..])
  }

  /** A series with no range left in it. */
  predicate AllDrawn(entries: seq<(real, SeriesEntry)>) {
    forall i :: 0 <= i < |entries| ==> entries[i].1.EntryValue?
  }

  lemma {:induction false} AllDrawnCountsNoRange(entries: seq<(real, SeriesEntry)>)
    requires AllDrawn(entries)
    ensures RangeCount(entries) == 0
    decreases |entries|
  {
    if |entries| != 0 {
      AllDrawnCountsNoRange(entries[1..]);
    }
  }

  lemma RangeCountPrefix(entries: seq<(real, SeriesEntry)>, i: nat)
    requires 0 < i <= |entries|
    ensures RangeCount(entries[..i]) == (if entries[0].1.EntryRange? then 1 else 0) + RangeCount(entries[1..][..i - 1])
  {
    assert entries[..i][1..] == entries[1..][..i - 1];
  }

  /** Replace every range of a series by a draw, in the order of the time steps:
      the `i`-th entry uses the sample after those taken by the ranges before it. */
  function DrawSeries(entries: seq<(real, SeriesEntry)>, rng: Stream): (r: (seq<(real, SeriesEntry)>, Stream))
    ensures |r.0| == |entries| && r.1 == rng.Skip(RangeCount(entries))
    ensures AllDrawn(r.0)
    ensures forall i :: 0 <= i < |entries| ==> r.0[i].0 == entries[i].0
    ensures forall i :: 0 <= i < |entries| && entries[i].1.EntryValue? ==> r.0[i].1 == entries[i].1
    ensures forall i :: 0 <= i < |entries| && entries[i].1.EntryRange? ==>
              r.0[i].1 == EntryValue(entries[i].1.range.SampleDown(rng.Peek(RangeCount(entries[..i]))))
    decreases |entries|
  {
    if |entries| == 0 then ([], rng)
    else
      var (t, e) := entries[0];
      var (x, rng1) := match e
        case EntryRange(mm) => (EntryValue(mm.SampleDown(rng.Peek(0))), rng.Skip(1))
        case EntryValue(_) => (e, rng);
      var (rest, rng2) := DrawSeries(entries[1..], rng1);
      var out := [(t, x)] + rest;
      assert forall i :: 0 < i < |entries| && entries[i].1.EntryRange? ==>
          out[i].1 == EntryValue(entries[i].1.range.SampleDown(rng.Peek(RangeCount(entries[..i])))) by {
        forall i | 0 < i < |entries| && entries[i].1.EntryRange?
          ensures out[i].1 == EntryValue(entries[i].1.range.SampleDown(rng.Peek(RangeCount(entries[..i]))))
        {
          RangeCountPrefix(entries, i);
          assert out[i] == rest[i - 1] && entries[1..][i - 1] == entries[i];
        }
      }
      assert entries[..0] == [];
      (out, rng2)
  }

  /** Both operational values are time series with every entry drawn. */
  predicate Drawn(hp: HeatPump) {
    && hp.injectionTemp.OpSeries? && AllDrawn(hp.injectionTemp.series.values)
    && hp.injectionRate.OpSeries? && AllDrawn(hp.injectionRate.series.values)
  }

  /** The samples `handle_heatpump_values` takes. */
  function SeriesDraws(hp: HeatPump): nat
    requires hp.injectionTemp.OpSeries? && hp.injectionRate.OpSeries?
  {
    RangeCount(hp.injectionTemp.series.values) + RangeCount(hp.injectionRate.series.values)
  }

  /** `handle_heatpump_values`: both operational values must already be time series;
      all temperature ranges are drawn before any rate range. */
  function HandleHeatpumpValues(rng: Stream, hp: HeatPump): (r: Result<(HeatPump, Stream)>)
    ensures r.Err? <==> !hp.injectionTemp.OpSeries? || !hp.injectionRate.OpSeries?
    ensures r.Err? ==> r.error == NotATimeSeries
    ensures r.Ok? ==> Drawn(r.value.0) && r.value.0.location == hp.location
    ensures r.Ok? ==> r.value.1 == rng.Skip(SeriesDraws(hp))
    ensures r.Ok? ==> r.value.0.injectionTemp.series.timeUnit == hp.injectionTemp.series.timeUnit
    ensures r.Ok? ==> r.value.0.injectionRate.series.timeUnit == hp.injectionRate.series.timeUnit
    ensures r.Ok? ==>
              var temp := hp.injectionTemp.series.values;
              var temp' := r.value.0.injectionTemp.series.values;
              |temp'| == |temp| &&
              forall i :: 0 <= i < |temp| && temp[i].1.EntryRange? ==>
                temp'[i].1.x == temp[i].1.range.SampleDown(rng.Peek(RangeCount(temp[..i])))
    ensures r.Ok? ==>
              var temp := hp.injectionTemp.series.values;
              var rate := hp.injectionRate.series.values;
              var rate' := r.value.0.injectionRate.series.values;
              |rate'| == |rate| &&
              forall i :: 0 <= i < |rate| && rate[i].1.EntryRange? ==>
                rate'[i].1.x == rate[i].1.range.SampleDown(rng.Peek(RangeCount(temp) + RangeCount(rate[..i])))
  {
    if !hp.injectionTemp.OpSeries? || !hp.injectionRate.OpSeries? then Err(NotATimeSeries)
    else
      var temp := hp.injectionTemp.series;
      var rate := hp.injectionRate.series;
      var t := DrawSeries(temp.values, rng);
      var q := DrawSeries(rate.values, t.1);
      assert forall k: nat :: t.1.Peek(k) == rng.Peek(RangeCount(temp.values) + k);
      Ok((HeatPump(hp.location, OpSeries(TimeSeries(temp.timeUnit, t.0)), OpSeries(TimeSeries(rate.timeUnit, q.0))), q.1))
  }

  /** Every range entry of `entries` became a value within that range in `drawn`. */
  predicate DrawnWithinRanges(entries: seq<(real, SeriesEntry)>, drawn: seq<(real, SeriesEntry)>)
    requires |drawn| == |entries| && AllDrawn(drawn)
  {
    forall i :: 0 <= i < |entries| && entries[i].1.EntryRange? && entries[i].1.range.min <= entries[i].1.range.max ==>
      entries[i].1.range.min <= drawn[i].1.x <= entries[i].1.range.max
  }

  /** Every drawn value lies within the range it was drawn from. */
  lemma HandledValuesWithinRange(rng: Stream, hp: HeatPump)
    requires rng.Valid() && HandleHeatpumpValues(rng, hp).Ok?
    ensures var hp' := HandleHeatpumpValues(rng, hp).value.0;
      && DrawnWithinRanges(hp.injectionTemp.series.values, hp'.injectionTemp.series.values)
      && DrawnWithinRanges(hp.injectionRate.series.values, hp'.injectionRate.series.values)
  {
  }

  /** A pump whose values are all drawn is left as it is and takes no sample. */
  lemma HandleHeatpumpValuesIdempotent(rng: Stream, hp: HeatPump)
    requires Drawn(hp)
    ensures HandleHeatpumpValues(rng, hp) == Ok((hp, rng))
  {
    var temp := hp.injectionTemp.series;
    var rate := hp.injectionRate.series;
    AllDrawnCountsNoRange(temp.values);
    AllDrawnCountsNoRange(rate.values);
    var (t, rng1) := DrawSeries(temp.values, rng);
    var (q, rng2) := DrawSeries(rate.values, rng1);
    assert t == temp.values;
    assert q == rate.values;
  }

  /* ----- vary_heatpump, copy_parameter ----- */

  /** `vary_heatpump`: draw the operational values, then (for SPACE only) a location,
      converted to the coordinates of the cell's centre. */
  function VaryHeatpump(general: General, rng: Stream, param: Parameter): (r: Result<(Data, Stream)>)
    requires |general.numberCells| == 3
    ensures !param.value.Pump? ==> r == Err(NotAHeatPump)
    ensures param.value.Pump? ==>
              (r.Err? <==> !param.value.pump.injectionTemp.OpSeries? || !param.value.pump.injectionRate.OpSeries?)
    ensures r.Err? ==> r.error in {NotAHeatPump, NotATimeSeries}
    ensures r.Ok? ==> r.value.0.name == param.name && r.value.0.value.Pump? && Drawn(r.value.0.value.pump)
    ensures r.Ok? ==> r.value.1 == rng.Skip(SeriesDraws(param.value.pump) + (if param.vary == Space then 3 else 0))
    ensures r.Ok? && param.vary != Space ==> r.value.0.value.pump.location == param.value.pump.location
    ensures r.Ok? && param.vary == Space ==>
              var loc := r.value.0.value.pump.location;
              loc.Some? && |loc.value| == 3 &&
              forall i :: 0 <= i < 3 ==>
                loc.value[i] == CellCentre(DrawnCell(rng.Peek(SeriesDraws(param.value.pump) + i), general.numberCells[i]) as real,
                                           general.cellResolution)
  {
    if !param.value.Pump? then Err(NotAHeatPump)
    else
      var hr :- HandleHeatpumpValues(rng, param.value.pump);
      var (hp, rng1) := hr;
      if param.vary == Space then
        var (cell, rng2) := GenerateHeatpumpLocation(general.numberCells, rng1);
        var loc := ToCoordinates(cell, general.cellResolution);
        Ok((Data(param.name, Pump(HeatPump(Some(loc), hp.injectionTemp, hp.injectionRate))), rng2))
      else
        Ok((Data(param.name, Pump(HeatPump(hp.location, hp.injectionTemp, hp.injectionRate))), rng1))
  }

  /** A location varied in space lies inside the simulation domain, each coordinate
      within (0, extent of its axis), unless one of its draws was exactly 0. */
  lemma SpaceLocationInsideDomain(general: General, rng: Stream, param: Parameter)
    requires |general.numberCells| == 3 && PositiveCells(general.numberCells) && 0.0 < general.cellResolution
    requires param.value.Pump? && param.value.pump.injectionTemp.OpSeries? && param.value.pump.injectionRate.OpSeries?
    requires rng.Valid() && param.vary == Space
    requires forall i :: 0 <= i < 3 ==> rng.Skip(SeriesDraws(param.value.pump)).Peek(i) != 0.0
    ensures var loc := VaryHeatpump(general, rng, param).value.0.value.pump.location.value;
            forall i :: 0 <= i < 3 ==> 0.0 < loc[i] < Extent(general.numberCells[i], general.cellResolution)
  {
    forall i | 0 <= i < 3
      ensures 0.0 < VaryHeatpump(general, rng, param).value.0.value.pump.location.value[i]
                  < Extent(general.numberCells[i], general.cellResolution)
    {
      SpaceCoordinateInside(general, rng, param, i);
    }
  }

  lemma SpaceCoordinateInside(general: General, rng: Stream, param: Parameter, i: nat)
    requires |general.numberCells| == 3 && PositiveCells(general.numberCells) && 0.0 < general.cellResolution
    requires param.value.Pump? && param.value.pump.injectionTemp.OpSeries? && param.value.pump.injectionRate.OpSeries?
    requires rng.Valid() && param.vary == Space && i < 3
    requires rng.Skip(SeriesDraws(param.value.pump)).Peek(i) != 0.0
    ensures var loc := VaryHeatpump(general, rng, param).value.0.value.pump.location.value;
            0.0 < loc[i] < Extent(general.numberCells[i], general.cellResolution)
  {
    var k := SeriesDraws(param.value.pump);
    var draw := rng.Peek(k + i);
    assert draw == rng.Skip(k).Peek(i);
    assert 0.0 < draw < 1.0;
    var c := DrawnCell(draw, general.numberCells[i]);
    CentreInsideAxis(c, general.numberCells[i], general.cellResolution);
    var r := VaryHeatpump(general, rng, param);
    assert r.Ok?;
    var loc := r.value.0.value.pump.location.value;
    assert loc[i] == CellCentre(c as real, general.cellResolution);
  }

  /** The length of an axis of `n` cells. */
  function Extent(n: int, res: real): real {
    n as real * res
  }

  lemma CentreInsideAxis(c: int, n: int, res: real)
    requires 1 <= c <= n && 0.0 < res
    ensures 0.0 < CellCentre(c as real, res) < Extent(n, res)
  {
    CellCentreInCell(c as real, c as real, res);
    assert (c as real - 1.0) * res >= 0.0;
    assert (n as real - c as real) * res >= 0.0;
  }

  /** `copy_parameter`: heat pumps go through `vary_heatpump`, everything else is copied. */
  function CopyParameter(general: General, rng: Stream, param: Parameter): (r: Result<(Data, Stream)>)
    requires |general.numberCells| == 3
    ensures !param.value.Pump? ==> r == Ok((Data(param.name, param.value), rng))
    ensures param.value.Pump? ==> r == VaryHeatpump(general, rng, param)
  {
    if param.value.Pump? then VaryHeatpump(general, rng, param)
    else Ok((Data(param.name, param.value), rng))
  }

  /* ----- vary_parameter ----- */

  /** The `index`-th of `n` evenly spaced values from `lo` to `hi`. */
  function Ramp(lo: real, hi: real, n: int, index: int): real
    requires n != 1
  {
    lo + (hi - lo) / (n - 1) as real * index as real
  }

  /** The CONST value of datapoint `index`: evenly spaced from min to max, on a
      logarithmic scale for a logarithmic parameter. With a single datapoint the
      step divides by zero: Python raises for floats, numpy yields NaN. */
  function ConstValue(mm: MinMax, distribution: Distribution, n: int, index: int, env: Env): (r: Result<real>)
    ensures r.Err? <==> n == 1
    ensures r.Err? ==> r.error == (if distribution == Uniform then DivisionByZero else NaNRamp)
    ensures r.Ok? && distribution == Uniform ==> r.value == Ramp(mm.min, mm.max, n, index)
    ensures r.Ok? && distribution == Log ==> r.value == env.pow10(Ramp(env.log10(mm.min), env.log10(mm.max), n, index))
  {
    if n == 1 then Err(if distribution == Uniform then DivisionByZero else NaNRamp)
    else if distribution == Log then Ok(env.pow10(Ramp(env.log10(mm.min), env.log10(mm.max), n, index)))
    else Ok(Ramp(mm.min, mm.max, n, index))
  }

  /** The ramp starts at `lo` and ends at `hi`. */
  lemma RampEndpoints(lo: real, hi: real, n: int)
    requires n >= 2
    ensures Ramp(lo, hi, n, 0) == lo
    ensures Ramp(lo, hi, n, n - 1) == hi
  {
    var d := (n - 1) as real;
    assert (hi - lo) / d * d == hi - lo;
  }

  /** Consecutive ramp values are one step apart. */
  lemma RampEvenSteps(lo: real, hi: real, n: int, index: int)
    requires n >= 2
    ensures Ramp(lo, hi, n, index + 1) - Ramp(lo, hi, n, index) == (hi - lo) / (n - 1) as real
  {
    var step := (hi - lo) / (n - 1) as real;
    assert step * (index + 1) as real == step * index as real + step;
  }

  /** For `lo <= hi` the ramp never decreases and stays within [lo, hi] on 0 .. n-1. */
  lemma RampMonotone(lo: real, hi: real, n: int, i: int, j: int)
    requires n >= 2 && lo <= hi && i <= j
    ensures Ramp(lo, hi, n, i) <= Ramp(lo, hi, n, j)
    ensures 0 <= i && j <= n - 1 ==> lo <= Ramp(lo, hi, n, i) && Ramp(lo, hi, n, j) <= hi
  {
    var step := (hi - lo) / (n - 1) as real;
    assert step >= 0.0;
    assert step * j as real - step * i as real == step * (j - i) as real;
    assert step * (j - i) as real >= 0.0;
    if 0 <= i && j <= n - 1 {
      RampEndpoints(lo, hi, n);
      assert step * i as real >= 0.0;
      assert step * (n - 1 - j) as real >= 0.0;
      assert step * (n - 1) as real - step * j as real == step * (n - 1 - j) as real;
    }
  }

  /** CONST values run from min (first datapoint) to max (last datapoint) without
      decreasing; on a logarithmic scale this needs the laws of the logarithm. */
  lemma ConstValueRamp(mm: MinMax, distribution: Distribution, n: int, i: int, j: int, env: Env)
    requires n >= 2 && mm.min <= mm.max && 0 <= i <= j <= n - 1
    requires distribution == Log ==> LogLaws(env) && 0.0 < mm.min
    ensures ConstValue(mm, distribution, n, 0, env) == Ok(mm.min)
    ensures ConstValue(mm, distribution, n, n - 1, env) == Ok(mm.max)
    ensures ConstValue(mm, distribution, n, i, env).value <= ConstValue(mm, distribution, n, j, env).value
    ensures mm.min <= ConstValue(mm, distribution, n, i, env).value <= mm.max
  {
    if distribution == Log {
      var lo, hi := env.log10(mm.min), env.log10(mm.max);
      RampEndpoints(lo, hi, n);
      RampMonotone(lo, hi, n, i, j);
      RampMonotone(lo, hi, n, i, i);
      assert env.pow10(lo) <= env.pow10(Ramp(lo, hi, n, i)) <= env.pow10(hi);
    } else {
      RampEndpoints(mm.min, mm.max, n);
      RampMonotone(mm.min, mm.max, n, i, j);
      RampMonotone(mm.min, mm.max, n, i, i);
    }
  }

  /** The number of samples varying `p` takes when it succeeds. It depends on the
      parameter alone: the ranges of a pump's time series, three more for a location
      varied in space, and the draws of Perlin noise. */
  function Draws(p: Parameter): nat {
    if p.value.Pump? then
      var hp := p.value.pump;
      (if hp.injectionTemp.OpSeries? && hp.injectionRate.OpSeries? then SeriesDraws(hp) else 0)
      + (if p.vary == Space then 3 else 0)
    else if p.vary == Space && p.value.PerlinValue? then PerlinDraws(p.value.perlin)
    else 0
  }

  /** `vary_parameter`: dispatch on the vary mode and the value's type. */
  function VaryParameter(general: General, rng: Stream, param: Parameter, index: int, env: Env): (r: Result<(Data, Stream)>)
    requires |general.numberCells| == 3
    ensures param.value.Group? ==> r == Err(GroupInVariation)
    ensures !param.value.Group? && param.vary == List ==> r == Err(NoVaryBranch)
    ensures !param.value.Group? && param.vary == Fixed ==> r == CopyParameter(general, rng, param)
    ensures !param.value.Group? && param.vary == Const ==>
              (r.Ok? <==> param.value.Range? && general.numberDatapoints != 1)
    ensures !param.value.Group? && param.vary == Const && r.Ok? ==>
              r.value == (Data(param.name, Float(ConstValue(param.value.range, param.distribution, general.numberDatapoints, index, env).value)), rng)
    ensures !param.value.Group? && param.vary == Const && !param.value.Range? ==> r == Err(ConstNotMinMax)
    ensures param.vary == Space && param.value.Float? ==> r == Err(SpaceOnFloat)
    ensures param.vary == Space && param.value.Range? ==> r == Err(SpaceOnMinMax)
    ensures param.vary == Space && param.value.Pump? ==> r == VaryHeatpump(general, rng, param)
    ensures param.vary == Space && (param.value.IntList? || param.value.Xyz? || param.value.File? || param.value.Array?) ==>
              r == Err(SpaceNotImplemented)
    ensures param.vary == Space && param.value.PerlinValue? ==>
              (r.Ok? <==> CreatePerlinField(general, rng, param, env).Ok?)
    ensures param.vary == Space && param.value.PerlinValue? && r.Ok? ==>
              var fr := CreatePerlinField(general, rng, param, env).value;
              r.value == (Data(param.name, Array(fr.0)), fr.1)
    ensures r.Ok? ==> r.value.0.name == param.name
    ensures r.Ok? ==> r.value.1 == rng.Skip(Draws(param))
  {
    if param.value.Group? then Err(GroupInVariation)
    else
      match param.vary
      case Fixed => CopyParameter(general, rng, param)
      case Const =>
        if param.value.Range? then
          var v :- ConstValue(param.value.range, param.distribution, general.numberDatapoints, index, env);
          Ok((Data(param.name, Float(v)), rng))
        else
          Err(ConstNotMinMax)
      case Space =>
        if param.value.PerlinValue? then
          var fr :- CreatePerlinField(general, rng, param, env);
          Ok((Data(param.name, Array(fr.0)), fr.1))
        else if param.value.Float? then Err(SpaceOnFloat)
        else if param.value.Pump? then VaryHeatpump(general, rng, param)
        else if param.value.Range? then Err(SpaceOnMinMax)
        else Err(SpaceNotImplemented)
      case List => Err(NoVaryBranch)
  }

  /* ----- vary_params ----- */

  function Names(params: seq<Parameter>): (ns: seq<string>)
    ensures |ns| == |params| && forall i :: 0 <= i < |params| ==> ns[i] == params[i].name
  {
    seq(|params|, i requires 0 <= i < |params| => params[i].name)
  }

  /** The samples the parameters take, one after another. */
  function DrawsOf(params: seq<Parameter>): nat
    decreases |params|
  {
    if |params| == 0 then 0 else Draws(params[0]) + DrawsOf(params[1..])
  }

  /** The stream the `t`-th parameter of a datapoint draws from: what the
      parameters before it left. */
  function StreamBefore(params: seq<Parameter>, rng: Stream, t: nat): Stream
    requires t <= |params|
  {
    rng.Skip(DrawsOf(params[..t]))
  }

  /** Varying one parameter, as a function of the stream it draws from. */
  type Step = (Stream, Parameter) --> Result<(Data, Stream)>

  ghost predicate Total(f: Step) {
    forall s, p :: f.requires(s, p)
  }

  /** Every parameter steps successfully on the stream the ones before it left. */
  predicate AllStep(f: Step, params: seq<Parameter>, rng: Stream)
    requires Total(f)
  {
    forall t :: 0 <= t < |params| ==> f(StreamBefore(params, rng, t), params[t]).Ok?
  }

  /** `data` holds, under the name of every parameter, the datum that stepping that
      parameter on its own stream gives. */
  predicate HoldsStep(f: Step, params: seq<Parameter>, rng: Stream, data: seq<(string, Data)>)
    requires Total(f)
  {
    forall t :: 0 <= t < |params| ==>
      var v := f(StreamBefore(params, rng, t), params[t]);
      v.Ok? && Get(data, params[t].name) == Some(v.value.0)
  }

  /** `vary_parameter` for datapoint `index`. */
  function VaryStep(general: General, index: int, env: Env): (f: Step)
    requires |general.numberCells| == 3
    ensures Total(f)
  {
    (s: Stream, p: Parameter) requires |general.numberCells| == 3 => VaryParameter(general, s, p, index, env)
  }

  /** Every parameter varies successfully on its own stream. */
  predicate AllVary(general: General, params: seq<Parameter>, index: int, rng: Stream, env: Env)
    requires |general.numberCells| == 3
  {
    AllStep(VaryStep(general, index, env), params, rng)
  }

  /** `data` holds, under the name of every parameter, the datum that varying that
      parameter on its own stream gives. */
  predicate HoldsVaried(general: General, params: seq<Parameter>, index: int, rng: Stream, env: Env, data: seq<(string, Data)>)
    requires |general.numberCells| == 3
  {
    HoldsStep(VaryStep(general, index, env), params, rng, data)
  }

  /** Every successful step takes the parameter's own samples and yields a datum
      named after the parameter. */
  ghost predicate Faithful(f: Step)
    requires Total(f)
  {
    forall s, p :: f(s, p).Ok? ==> f(s, p).value.1 == s.Skip(Draws(p)) && f(s, p).value.0.name == p.name
  }

  /** `vary_parameter` is a faithful step. */
  lemma VaryStepFaithful(general: General, index: int, env: Env)
    requires |general.numberCells| == 3
    ensures Faithful(VaryStep(general, index, env))
  {
    forall s, p ensures var v := VaryStep(general, index, env)(s, p);
                        v.Ok? ==> v.value.1 == s.Skip(Draws(p)) && v.value.0.name == p.name
    {
      VaryStepApply(general, index, env, s, p);
    }
  }

  /** The parameters stepped in turn, each on the stream the ones before it left,
      and each datum stored under its name; the first failure stops it. */
  function Thread(f: Step, params: seq<Parameter>, acc: seq<(string, Data)>, rng: Stream)
    : (r: Result<(seq<(string, Data)>, Stream)>)
    requires Total(f) && Faithful(f)
    ensures r.Ok? <==> AllStep(f, params, rng)
    ensures r.Ok? ==> r.value.1 == rng.Skip(DrawsOf(params))
    ensures r.Ok? && Distinct(Names(params)) ==> HoldsStep(f, params, rng, r.value.0)
    ensures r.Ok? ==> forall k :: k !in Names(params) ==> Get(r.value.0, k) == Get(acc, k)
    ensures r.Ok? && Distinct(Keys(acc)) && Distinct(Names(params)) && (forall k :: k in Names(params) ==> k !in Keys(acc)) ==>
              Keys(r.value.0) == Keys(acc) + Names(params) && Distinct(Keys(r.value.0))
    ensures r.Ok? && (forall i :: 0 <= i < |acc| ==> acc[i].1.name == acc[i].0) ==>
              forall i :: 0 <= i < |r.value.0| ==> r.value.0[i].1.name == r.value.0[i].0
    decreases |params|
  {
    if |params| == 0 then Ok((acc, rng))
    else
      var first := f(rng, params[0]);
      AllStepCons(f, params, rng);
      if first.Err? then
        Err(first.error)
      else
        var dr := first.value;
        var acc' := Put(acc, params[0].name, dr.0);
        PutDataNamed(acc, params[0].name, dr.0);
        FreshStep(acc, params, dr.0);
        var rest := Thread(f, params[1..], acc', dr.1);
        if rest.Ok? then
          HoldsStepCons(f, params, acc, rng, dr.0, rest.value.0);
          rest
        else
          rest
  }

  /** `vary_data`: the data of one datapoint, every parameter varied in turn, each
      on the stream the ones before it left, and stored under its name. */
  function VaryData(general: General, params: seq<Parameter>, index: int, acc: seq<(string, Data)>, rng: Stream, env: Env)
    : (r: Result<(seq<(string, Data)>, Stream)>)
    requires |general.numberCells| == 3
    ensures r.Ok? <==> AllVary(general, params, index, rng, env)
    ensures r.Ok? ==> r.value.1 == rng.Skip(DrawsOf(params))
    ensures r.Ok? && Distinct(Names(params)) ==> HoldsVaried(general, params, index, rng, env, r.value.0)
    ensures r.Ok? ==> forall k :: k !in Names(params) ==> Get(r.value.0, k) == Get(acc, k)
    ensures r.Ok? && Distinct(Keys(acc)) && Distinct(Names(params)) && (forall k :: k in Names(params) ==> k !in Keys(acc)) ==>
              Keys(r.value.0) == Keys(acc) + Names(params) && Distinct(Keys(r.value.0))
    ensures r.Ok? && (forall i :: 0 <= i < |acc| ==> acc[i].1.name == acc[i].0) ==>
              forall i :: 0 <= i < |r.value.0| ==> r.value.0[i].1.name == r.value.0[i].0
  {
    VaryStepFaithful(general, index, env);
    Thread(VaryStep(general, index, env), params, acc, rng)
  }

  /** What a datapoint's data hold under the name of parameter `t`: that parameter
      varied on the stream the parameters before it left. */
  lemma VaryDataAt(general: General, params: seq<Parameter>, index: int, acc: seq<(string, Data)>, rng: Stream, env: Env, t: nat)
    requires |general.numberCells| == 3 && Distinct(Names(params)) && t < |params|
    requires VaryData(general, params, index, acc, rng, env).Ok?
    ensures var v := VaryParameter(general, StreamBefore(params, rng, t), params[t], index, env);
            v.Ok? && Get(VaryData(general, params, index, acc, rng, env).value.0, params[t].name) == Some(v.value.0)
  {
    VaryStepApply(general, index, env, StreamBefore(params, rng, t), params[t]);
  }

  /** The draws of the first `t + 1` parameters: the first one's, then those of
      the first `t` of the rest. */
  lemma DrawsOfCons(params: seq<Parameter>, t: nat)
    requires t < |params|
    ensures DrawsOf(params[..t + 1]) == Draws(params[0]) + DrawsOf(params[1..][..t])
  {
    assert params[..t + 1][1..] == params[1..][..t];
  }

  /** The first parameter draws from `rng`; after it, the others' streams are those
      of the rest started on what the first left, so the whole list steps
      successfully iff the first does and then the rest. */
  lemma AllStepCons(f: Step, params: seq<Parameter>, rng: Stream)
    requires Total(f) && |params| > 0
    ensures StreamBefore(params, rng, 0) == rng
    ensures forall t :: 0 <= t < |params| - 1 ==>
              StreamBefore(params, rng, t + 1) == StreamBefore(params[1..], rng.Skip(Draws(params[0])), t)
    ensures DrawsOf(params) == Draws(params[0]) + DrawsOf(params[1..])
    ensures AllStep(f, params, rng) <==>
              f(rng, params[0]).Ok? && AllStep(f, params[1..], rng.Skip(Draws(params[0])))
  {
    assert params[..0] == [];
    var rng1 := rng.Skip(Draws(params[0]));
    forall t | 0 <= t < |params| - 1
      ensures StreamBefore(params, rng, t + 1) == StreamBefore(params[1..], rng1, t)
    {
      DrawsOfCons(params, t);
    }
    if f(rng, params[0]).Ok? && AllStep(f, params[1..], rng1) {
      forall t | 0 <= t < |params|
        ensures f(StreamBefore(params, rng, t), params[t]).Ok?
      {
        if t > 0 {
          assert params[t] == params[1..][t - 1];
          assert StreamBefore(params, rng, t) == StreamBefore(params[1..], rng1, t - 1);
        }
      }
    }
    if AllStep(f, params, rng) {
      assert f(StreamBefore(params, rng, 0), params[0]).Ok?;
      forall t | 0 <= t < |params| - 1
        ensures f(StreamBefore(params[1..], rng1, t), params[1..][t]).Ok?
      {
        assert params[1..][t] == params[t + 1];
        assert f(StreamBefore(params, rng, t + 1), params[t + 1]).Ok?;
      }
    }
  }

  /** One step of `VaryData`: what the rest of the parameters store, together with
      the first parameter's datum, is what the whole list stores. */
  lemma HoldsStepCons(f: Step, params: seq<Parameter>, acc: seq<(string, Data)>, rng: Stream, d: Data, out: seq<(string, Data)>)
    requires Total(f) && |params| > 0
    requires f(rng, params[0]) == Ok((d, rng.Skip(Draws(params[0]))))
    requires forall t :: 0 <= t < |params| - 1 ==>
               StreamBefore(params, rng, t + 1) == StreamBefore(params[1..], rng.Skip(Draws(params[0])), t)
    requires forall k :: k !in Names(params[1..]) ==> Get(out, k) == Get(Put(acc, params[0].name, d), k)
    requires Distinct(Names(params[1..])) ==> HoldsStep(f, params[1..], rng.Skip(Draws(params[0])), out)
    ensures forall k :: k !in Names(params) ==> Get(out, k) == Get(acc, k)
    ensures Distinct(Names(params)) ==> HoldsStep(f, params, rng, out)
  {
    var n0 := params[0].name;
    var ns := Names(params);
    var rng1 := rng.Skip(Draws(params[0]));
    assert Names(params[1..]) == ns[1..];
    forall k | k !in ns ensures Get(out, k) == Get(acc, k) {
      assert k !in ns[1..] && k != ns[0];
    }
    if Distinct(ns) {
      DistinctTail(ns);
      assert params[..0] == [];
      forall t | 0 <= t < |params|
        ensures var v := f(StreamBefore(params, rng, t), params[t]);
                v.Ok? && Get(out, params[t].name) == Some(v.value.0)
      {
        if t == 0 {
          assert n0 !in ns[1..];
          assert Get(out, n0) == Some(d);
        } else {
          assert params[1..][t - 1] == params[t];
          assert StreamBefore(params, rng, t) == StreamBefore(params[1..], rng1, t - 1);
        }
      }
    }
  }

  /** Storing a datum under its own name keeps every datum stored under its own name. */
  lemma PutDataNamed(acc: seq<(string, Data)>, k: string, d: Data)
    requires d.name == k
    ensures (forall i :: 0 <= i < |acc| ==> acc[i].1.name == acc[i].0) ==>
              var r := Put(acc, k, d); forall i :: 0 <= i < |r| ==> r[i].1.name == r[i].0
  {
    if forall i :: 0 <= i < |acc| ==> acc[i].1.name == acc[i].0 {
      var named := (e: (string, Data)) => e.1.name == e.0;
      PutPreserves(acc, k, d, named);
    }
  }

  /** One step of `VaryData` keeps the conditions under which the keys come out in parameter order. */
  lemma FreshStep(acc: seq<(string, Data)>, params: seq<Parameter>, d: Data)
    requires |params| > 0
    ensures Distinct(Keys(acc)) && Distinct(Names(params)) && (forall k :: k in Names(params) ==> k !in Keys(acc)) ==>
      var acc' := Put(acc, params[0].name, d);
      && Distinct(Keys(acc')) && Distinct(Names(params[1..]))
      && (forall k :: k in Names(params[1..]) ==> k !in Keys(acc'))
      && Keys(acc') + Names(params[1..]) == Keys(acc) + Names(params)
  {
    if Distinct(Keys(acc)) && Distinct(Names(params)) && (forall k :: k in Names(params) ==> k !in Keys(acc)) {
      FreshHead(acc, params, d);
    }
  }

  lemma FreshHead(acc: seq<(string, Data)>, params: seq<Parameter>, d: Data)
    requires |params| > 0
    requires Distinct(Keys(acc)) && Distinct(Names(params)) && (forall k :: k in Names(params) ==> k !in Keys(acc))
    ensures var acc' := Put(acc, params[0].name, d);
      && Distinct(Keys(acc')) && Distinct(Names(params[1..]))
      && (forall k :: k in Names(params[1..]) ==> k !in Keys(acc'))
      && Keys(acc') + Names(params[1..]) == Keys(acc) + Names(params)
  {
    var n0 := params[0].name;
    var ns := Names(params);
    var tail := Names(params[1..]);
    assert tail == ns[1..];
    assert ns == [n0] + tail;
    DistinctTail(ns);
    assert n0 in ns;
    var acc' := Put(acc, n0, d);
    PutDistinct(acc, n0, d);
    assert Keys(acc') == Keys(acc) + [n0];
    forall k | k in tail ensures k !in Keys(acc') {
      assert k in ns && k != n0;
    }
    ConcatAssoc(Keys(acc), [n0], tail);
  }

  /* ----- the datapoint loop ----- */

  /** The data of one datapoint, as a function of its index and the stream. */
  type DataStep = (int, Stream) --> Result<(seq<(string, Data)>, Stream)>

  ghost predicate TotalData(g: DataStep) {
    forall i, s :: g.requires(i, s)
  }

  /** What the data of datapoint `i`, run on stream `s`, are to satisfy. */
  type DataCheck = (int, Stream, seq<(string, Data)>) -> bool

  /** Every successful run of `g` takes `d` samples and gives data that satisfy `ok`. */
  ghost predicate Steady(g: DataStep, d: nat, ok: DataCheck)
    requires TotalData(g)
  {
    forall i, s :: g(i, s).Ok? ==> g(i, s).value.1 == s.Skip(d) && ok(i, s, g(i, s).value.0)
  }

  /** The stream after `m` datapoints of `d` samples each. */
  function StreamAt(rng: Stream, d: nat, m: nat): Stream
    decreases m
  {
    if m == 0 then rng else StreamAt(rng.Skip(d), d, m - 1)
  }

  /** Datapoint `index + m` on its own: `g` on the stream after the `m` datapoints
      before it. */
  function At(g: DataStep, d: nat, index: int, m: nat, rng: Stream): Result<(seq<(string, Data)>, Stream)>
    requires TotalData(g)
  {
    g(index + m, StreamAt(rng, d, m))
  }

  /** The number of datapoints from `index` up to `n - 1`. */
  function Count(index: int, n: int): nat {
    if index < n then n - index else 0
  }

  /** The loop over datapoints `index` .. `n - 1`: each one's data in order, each
      drawing after the previous one; the first failure stops it. */
  function Repeat(g: DataStep, d: nat, ok: DataCheck, index: int, n: int, rng: Stream)
    : (r: Result<(seq<DataPoint>, Stream)>)
    requires TotalData(g) && Steady(g, d, ok)
    ensures r.Ok? <==> forall m :: 0 <= m < Count(index, n) ==> At(g, d, index, m, rng).Ok?
    ensures r.Ok? ==> r.value.1 == rng.Skip(Count(index, n) * d)
    ensures r.Ok? ==> |r.value.0| == Count(index, n)
    ensures r.Ok? ==> forall m :: 0 <= m < |r.value.0| ==>
              r.value.0[m].index == index + m && At(g, d, index, m, rng).Ok? &&
              r.value.0[m].data == At(g, d, index, m, rng).value.0
    ensures r.Ok? ==> forall m :: 0 <= m < |r.value.0| ==> ok(index + m, StreamAt(rng, d, m), r.value.0[m].data)
    decreases n - index
  {
    if index >= n then Ok(([], rng))
    else
      var first := g(index, rng);
      RepeatShift(g, d, index, index + 1, n, rng);
      if first.Err? then
        Err(first.error)
      else
        var rest := Repeat(g, d, ok, index + 1, n, first.value.1);
        if rest.Ok? then
          var r := [DataPoint(index, first.value.0)] + rest.value.0;
          assert forall m :: 0 < m < |r| ==> r[m] == rest.value.0[m - 1];
          Ok((r, rest.value.1))
        else
          Err(rest.error)
  }

  /** The first datapoint starts on `rng`; the later ones are the datapoints from
      `next` on, started after the first one's samples. */
  lemma RepeatShift(g: DataStep, d: nat, index: int, next: int, n: int, rng: Stream)
    requires TotalData(g) && next == index + 1 && index < n
    ensures At(g, d, index, 0, rng) == g(index, rng)
    ensures forall m :: 1 <= m < Count(index, n) ==>
              At(g, d, index, m, rng) == At(g, d, next, m - 1, rng.Skip(d)) &&
              StreamAt(rng, d, m) == StreamAt(rng.Skip(d), d, m - 1) && index + m == next + (m - 1)
    ensures rng.Skip(d).Skip(Count(next, n) * d) == rng.Skip(Count(index, n) * d)
    ensures (forall m :: 0 <= m < Count(index, n) ==> At(g, d, index, m, rng).Ok?) <==>
              g(index, rng).Ok? && forall m :: 0 <= m < Count(next, n) ==> At(g, d, next, m, rng.Skip(d)).Ok?
  {
    var rng1 := rng.Skip(d);
    forall m | 1 <= m < Count(index, n)
      ensures At(g, d, index, m, rng) == At(g, d, next, m - 1, rng1) &&
              StreamAt(rng, d, m) == StreamAt(rng1, d, m - 1) && index + m == next + (m - 1)
    {
      SkipTimes(rng, d, m - 1);
      assert index + m == next + (m - 1);
    }
    SkipTimes(rng, d, Count(next, n));
    if g(index, rng).Ok? && forall m :: 0 <= m < Count(next, n) ==> At(g, d, next, m, rng1).Ok? {
      forall m | 0 <= m < Count(index, n) ensures At(g, d, index, m, rng).Ok? {
        if m > 0 {
          assert At(g, d, next, m - 1, rng1).Ok?;
        }
      }
    }
    if forall m :: 0 <= m < Count(index, n) ==> At(g, d, index, m, rng).Ok? {
      assert At(g, d, index, 0, rng).Ok?;
      forall m | 0 <= m < Count(next, n) ensures At(g, d, next, m, rng1).Ok? {
        assert At(g, d, index, m + 1, rng).Ok?;
      }
    }
  }

  /** `vary_data` for one datapoint of `vary_params`, started empty. */
  function DataStepOf(general: General, params: seq<Parameter>, env: Env): (g: DataStep)
    requires |general.numberCells| == 3
    ensures TotalData(g)
  {
    (i: int, s: Stream) requires |general.numberCells| == 3 => VaryData(general, params, i, [], s, env)
  }

  /** Applying the datapoint step runs `vary_data`. */
  lemma DataStepApply(general: General, params: seq<Parameter>, env: Env, i: int, s: Stream)
    requires |general.numberCells| == 3
    ensures DataStepOf(general, params, env)(i, s) == VaryData(general, params, i, [], s, env)
  {
  }

  /** What every datapoint's data keep: each datum under its own name and, when
      the parameter names are distinct, those names as keys, each holding its
      parameter varied for that datapoint on its own stream. */
  function DataOk(general: General, params: seq<Parameter>, env: Env): DataCheck {
    (i: int, s: Stream, data: seq<(string, Data)>) =>
      && |general.numberCells| == 3
      && (Distinct(Names(params)) ==> Keys(data) == Names(params) && HoldsVaried(general, params, i, s, env, data))
      && forall j :: 0 <= j < |data| ==> data[j].1.name == data[j].0
  }

  /** Data that pass the check hold every parameter varied on its own stream. */
  lemma DataOkHolds(general: General, params: seq<Parameter>, env: Env, i: int, s: Stream, data: seq<(string, Data)>)
    requires |general.numberCells| == 3
    requires Distinct(Names(params))
    requires DataOk(general, params, env)(i, s, data)
    ensures HoldsVaried(general, params, i, s, env, data)
  {
  }

  /** Every datapoint's data are `vary_data` over all the parameters: it takes
      `DrawsOf(params)` samples, and keeps names and keys. */
  lemma DataStepSteady(general: General, params: seq<Parameter>, env: Env)
    requires |general.numberCells| == 3
    ensures Steady(DataStepOf(general, params, env), DrawsOf(params), DataOk(general, params, env))
  {
    var g := DataStepOf(general, params, env);
    forall i, s | g(i, s).Ok?
      ensures g(i, s).value.1 == s.Skip(DrawsOf(params)) && DataOk(general, params, env)(i, s, g(i, s).value.0)
    {
      assert g(i, s) == VaryData(general, params, i, [], s, env);
    }
  }

  /** The data of datapoint `index + m` on its own: its parameters varied on the
      stream after the samples of the `m` datapoints before it. */
  function DatapointData(general: General, params: seq<Parameter>, index: int, m: nat, rng: Stream, env: Env)
    : Result<(seq<(string, Data)>, Stream)>
    requires |general.numberCells| == 3
  {
    At(DataStepOf(general, params, env), DrawsOf(params), index, m, rng)
  }

  /** Datapoints `index` .. `n - 1`, in order, each drawing after the previous one. */
  function VaryDatapoints(general: General, params: seq<Parameter>, index: int, n: int, rng: Stream, env: Env)
    : (r: Result<(seq<DataPoint>, Stream)>)
    requires |general.numberCells| == 3
    ensures r.Ok? <==> forall m :: 0 <= m < Count(index, n) ==> DatapointData(general, params, index, m, rng, env).Ok?
    ensures r.Ok? ==> r.value.1 == rng.Skip(Count(index, n) * DrawsOf(params))
    ensures r.Ok? ==> |r.value.0| == Count(index, n)
    ensures r.Ok? ==> forall m :: 0 <= m < |r.value.0| ==>
              r.value.0[m].index == index + m && DatapointData(general, params, index, m, rng, env).Ok? &&
              r.value.0[m].data == DatapointData(general, params, index, m, rng, env).value.0
    ensures r.Ok? && Distinct(Names(params)) ==>
              forall m :: 0 <= m < |r.value.0| ==> Keys(r.value.0[m].data) == Names(params)
    ensures r.Ok? ==> forall m, i :: 0 <= m < |r.value.0| && 0 <= i < |r.value.0[m].data| ==>
              r.value.0[m].data[i].1.name == r.value.0[m].data[i].0
  {
    var g := DataStepOf(general, params, env);
    DataStepSteady(general, params, env);
    assert forall m: nat :: DatapointData(general, params, index, m, rng, env) == At(g, DrawsOf(params), index, m, rng);
    Repeat(g, DrawsOf(params), DataOk(general, params, env), index, n, rng)
  }

  /** Every datapoint of the loop holds every parameter varied on its own stream:
      datapoint `index + m` starts after the samples of the `m` before it. */
  lemma DatapointsHold(general: General, params: seq<Parameter>, index: int, n: int, rng: Stream, env: Env)
    requires |general.numberCells| == 3 && Distinct(Names(params))
    requires VaryDatapoints(general, params, index, n, rng, env).Ok?
    ensures var dps := VaryDatapoints(general, params, index, n, rng, env).value.0;
            forall m: nat :: m < |dps| ==>
              HoldsVaried(general, params, index + m, StreamAt(rng, DrawsOf(params), m), env, dps[m].data)
  {
    DataStepSteady(general, params, env);
    var r := Repeat(DataStepOf(general, params, env), DrawsOf(params), DataOk(general, params, env), index, n, rng);
    assert VaryDatapoints(general, params, index, n, rng, env) == r;
    CheckedHold(general, params, index, rng, env, r.value.0);
  }

  /** Datapoints whose data pass the check, each on its own stream, hold every
      parameter varied on that stream. */
  lemma CheckedHold(general: General, params: seq<Parameter>, index: int, rng: Stream, env: Env, dps: seq<DataPoint>)
    requires |general.numberCells| == 3 && Distinct(Names(params))
    requires forall m: nat :: m < |dps| ==> DataOk(general, params, env)(index + m, StreamAt(rng, DrawsOf(params), m), dps[m].data)
    ensures forall m: nat :: m < |dps| ==>
              HoldsVaried(general, params, index + m, StreamAt(rng, DrawsOf(params), m), env, dps[m].data)
  {
    forall m: nat | m < |dps|
      ensures HoldsVaried(general, params, index + m, StreamAt(rng, DrawsOf(params), m), env, dps[m].data)
    {
      DataOkHolds(general, params, env, index + m, StreamAt(rng, DrawsOf(params), m), dps[m].data);
    }
  }

  /** What datapoint `index + m` holds under the name of parameter `t`: that
      parameter varied for this datapoint, on the stream the `m` datapoints before
      it and the parameters before it in this datapoint left. */
  lemma DatapointHolds(general: General, params: seq<Parameter>, index: int, n: int, rng: Stream, env: Env, m: nat, t: nat)
    requires |general.numberCells| == 3 && Distinct(Names(params))
    requires VaryDatapoints(general, params, index, n, rng, env).Ok?
    requires m < |VaryDatapoints(general, params, index, n, rng, env).value.0| && t < |params|
    ensures var v := VaryParameter(general, StreamBefore(params, StreamAt(rng, DrawsOf(params), m), t), params[t], index + m, env);
            v.Ok? && Get(VaryDatapoints(general, params, index, n, rng, env).value.0[m].data, params[t].name) == Some(v.value.0)
  {
    var dps := VaryDatapoints(general, params, index, n, rng, env).value.0;
    var st := StreamAt(rng, DrawsOf(params), m);
    DatapointsHold(general, params, index, n, rng, env);
    assert HoldsVaried(general, params, index + m, st, env, dps[m].data);
    VaryStepApply(general, index + m, env, StreamBefore(params, st, t), params[t]);
  }

  /** Applying the step of one parameter runs `vary_parameter`. */
  lemma VaryStepApply(general: General, index: int, env: Env, s: Stream, p: Parameter)
    requires |general.numberCells| == 3
    ensures VaryStep(general, index, env)(s, p) == VaryParameter(general, s, p, index, env)
  {
  }

  /** `d` samples and then `m` times `d` are `m + 1` times `d`. */
  lemma SkipTimes(rng: Stream, d: nat, m: nat)
    ensures rng.Skip(d).Skip(m * d) == rng.Skip((m + 1) * d)
  {
    assert (m + 1) * d == d + m * d;
  }

  /* ----- shuffle_datapoints ----- */

  /** Every datapoint holds the parameter names of the first one. */
  predicate SameNames(dps: seq<DataPoint>) {
    |dps| > 0 && Distinct(Keys(dps[0].data)) &&
    forall i :: 0 <= i < |dps| ==> Keys(dps[i].data) == Keys(dps[0].data)
  }

  /** The values of parameter `k` across the datapoints. */
  function ColumnOf(dps: seq<DataPoint>, k: string): (col: seq<Data>)
    requires forall i :: 0 <= i < |dps| ==> k in Keys(dps[i].data)
    ensures |col| == |dps| && forall i :: 0 <= i < |dps| ==> Get(dps[i].data, k) == Some(col[i])
  {
    seq(|dps|, i requires 0 <= i < |dps| => Get(dps[i].data, k).value)
  }

  /** One witness per parameter name, each a valid shuffle of the datapoints. */
  predicate ValidShuffleWitness(swaps: seq<seq<nat>>, names: nat, n: nat) {
    |swaps| == names && forall k :: 0 <= k < |swaps| ==> ValidSwaps(swaps[k], n)
  }

  lemma ColumnOfIs(dps: seq<DataPoint>, k: string, col: seq<Data>)
    requires |col| == |dps| && forall i :: 0 <= i < |dps| ==> Get(dps[i].data, k) == Some(col[i])
    ensures forall i :: 0 <= i < |dps| ==> k in Keys(dps[i].data)
    ensures ColumnOf(dps, k) == col
  {
  }

  /** The row of shuffled values datapoint `i` receives, one per name. */
  function Row(columns: seq<seq<Data>>, i: nat): (row: seq<Data>)
    requires forall k :: 0 <= k < |columns| ==> i < |columns[k]|
    ensures |row| == |columns| && forall k :: 0 <= k < |columns| ==> row[k] == columns[k][i]
  {
    seq(|columns|, k requires 0 <= k < |columns| => columns[k][i])
  }

  /** Datapoint `i` with the shuffled values written back. */
  function Reassign(dps: seq<DataPoint>, names: seq<string>, columns: seq<seq<Data>>): (r: seq<DataPoint>)
    requires |columns| == |names| && Distinct(names)
    requires forall k :: 0 <= k < |columns| ==> |columns[k]| == |dps|
    requires forall k, i :: 0 <= k < |names| && 0 <= i < |dps| ==> names[k] in Keys(dps[i].data)
    ensures |r| == |dps|
    ensures forall i :: 0 <= i < |dps| ==> r[i].index == dps[i].index && Keys(r[i].data) == Keys(dps[i].data)
    ensures forall k, i :: 0 <= k < |names| && 0 <= i < |dps| ==> names[k] in Keys(r[i].data)
    ensures forall k :: 0 <= k < |names| ==> ColumnOf(r, names[k]) == columns[k]
  {
    var r := seq(|dps|, i requires 0 <= i < |dps| => DataPoint(dps[i].index, PutAll(dps[i].data, names, Row(columns, i))));
    forall k | 0 <= k < |names| ensures ColumnOf(r, names[k]) == columns[k] {
      ColumnOfIs(r, names[k], columns[k]);
    }
    r
  }

  /** Every name of the first datapoint is a key of every datapoint. */
  lemma SameNamesEverywhere(dps: seq<DataPoint>)
    requires SameNames(dps)
    ensures var names := Keys(dps[0].data);
            forall k, i :: 0 <= k < |names| && 0 <= i < |dps| ==> names[k] in Keys(dps[i].data)
  {
    var names := Keys(dps[0].data);
    forall k, i | 0 <= k < |names| && 0 <= i < |dps| ensures names[k] in Keys(dps[i].data) {
      assert Keys(dps[i].data)[k] == names[k];
    }
  }

  /** Each name's column of values, shuffled with that name's witness. */
  function ShuffledColumns(dps: seq<DataPoint>, swaps: seq<seq<nat>>): (columns: seq<seq<Data>>)
    requires SameNames(dps) && ValidShuffleWitness(swaps, |dps[0].data|, |dps|)
    ensures |columns| == |dps[0].data|
    ensures forall k :: 0 <= k < |columns| ==> |columns[k]| == |dps|
    ensures forall k :: 0 <= k < |columns| ==>
              var name := Keys(dps[0].data)[k];
              (forall i :: 0 <= i < |dps| ==> name in Keys(dps[i].data)) &&
              columns[k] == Shuffle(ColumnOf(dps, name), swaps[k])
  {
    var names := Keys(dps[0].data);
    SameNamesEverywhere(dps);
    seq(|names|, k requires 0 <= k < |names| => Shuffle(ColumnOf(dps, names[k]), swaps[k]))
  }

  /** `shuffle_datapoints`: the values of each parameter are permuted across the
      datapoints, parameter by parameter in the order of the first datapoint's names.
      What each column becomes is stated by `ShuffledColumn`. */
  function ShuffleDatapoints(dps: seq<DataPoint>, swaps: seq<seq<nat>>): (r: Result<seq<DataPoint>>)
    requires |dps| > 0 ==> SameNames(dps) && ValidShuffleWitness(swaps, |dps[0].data|, |dps|)
    ensures r.Err? <==> |dps| == 0
    ensures r.Err? ==> r.error == NoDatapointToShuffle
    ensures r.Ok? ==> |r.value| == |dps|
    ensures r.Ok? ==> forall i :: 0 <= i < |dps| ==> r.value[i].index == dps[i].index && Keys(r.value[i].data) == Keys(dps[i].data)
  {
    if |dps| == 0 then Err(NoDatapointToShuffle)
    else
      SameNamesEverywhere(dps);
      Ok(Reassign(dps, Keys(dps[0].data), ShuffledColumns(dps, swaps)))
  }

  /** After the shuffle, the values of the `k`-th name are its old values
      shuffled with the `k`-th witness. */
  lemma ShuffledColumn(dps: seq<DataPoint>, swaps: seq<seq<nat>>, k: nat)
    requires |dps| > 0 && SameNames(dps) && ValidShuffleWitness(swaps, |dps[0].data|, |dps|)
    requires k < |dps[0].data|
    ensures var r := ShuffleDatapoints(dps, swaps).value;
            var name := dps[0].data[k].0;
            (forall i :: 0 <= i < |dps| ==> name in Keys(r[i].data)) &&
            (forall i :: 0 <= i < |dps| ==> name in Keys(dps[i].data)) &&
            ColumnOf(r, name) == Shuffle(ColumnOf(dps, name), swaps[k])
  {
    var names := Keys(dps[0].data);
    SameNamesEverywhere(dps);
    var columns := ShuffledColumns(dps, swaps);
    var r := Reassign(dps, names, columns);
    assert ShuffleDatapoints(dps, swaps).value == r;
    assert names[k] == dps[0].data[k].0;
    assert forall i :: 0 <= i < |dps| ==> names[k] in Keys(r[i].data);
    assert ColumnOf(r, names[k]) == columns[k];
  }

  /** Shuffling keeps, for every parameter, the same values across the datapoints. */
  lemma ShufflePermutesValues(dps: seq<DataPoint>, swaps: seq<seq<nat>>, k: nat)
    requires |dps| > 0 && SameNames(dps) && ValidShuffleWitness(swaps, |dps[0].data|, |dps|)
    requires k < |dps[0].data|
    ensures var r := ShuffleDatapoints(dps, swaps).value;
            var name := dps[0].data[k].0;
            (forall i :: 0 <= i < |dps| ==> name in Keys(r[i].data)) &&
            (forall i :: 0 <= i < |dps| ==> name in Keys(dps[i].data)) &&
            multiset(ColumnOf(r, name)) == multiset(ColumnOf(dps, name))
  {
    ShuffledColumn(dps, swaps, k);
  }

  /** Every datapoint holds the key `k`. */
  predicate HoldsKey(dps: seq<DataPoint>, k: string) {
    forall i :: 0 <= i < |dps| ==> k in Keys(dps[i].data)
  }

  /** For the `k`-th key, the values `r` holds are the values `dps` holds for it,
      shuffled with the `k`-th witness. */
  predicate ShuffledBy(r: seq<DataPoint>, dps: seq<DataPoint>, keys: seq<string>, swaps: seq<seq<nat>>) {
    |r| == |dps| && |swaps| == |keys| &&
    forall k :: 0 <= k < |keys| ==>
      HoldsKey(r, keys[k]) && HoldsKey(dps, keys[k]) && ValidSwaps(swaps[k], |dps|) &&
      ColumnOf(r, keys[k]) == Shuffle(ColumnOf(dps, keys[k]), swaps[k])
  }

  /** For every key, `r` holds the same values as `dps`, in some order. */
  predicate PermutedColumns(r: seq<DataPoint>, dps: seq<DataPoint>, keys: seq<string>) {
    forall k :: 0 <= k < |keys| ==>
      HoldsKey(r, keys[k]) && HoldsKey(dps, keys[k]) &&
      multiset(ColumnOf(r, keys[k])) == multiset(ColumnOf(dps, keys[k]))
  }

  /** A shuffle moves each parameter's values between datapoints and loses none. */
  lemma ShuffledByPermutes(r: seq<DataPoint>, dps: seq<DataPoint>, keys: seq<string>, swaps: seq<seq<nat>>)
    requires ShuffledBy(r, dps, keys, swaps)
    ensures PermutedColumns(r, dps, keys)
  {
    forall k | 0 <= k < |keys|
      ensures multiset(ColumnOf(r, keys[k])) == multiset(ColumnOf(dps, keys[k]))
    {
      assert ColumnOf(r, keys[k]) == Shuffle(ColumnOf(dps, keys[k]), swaps[k]);
    }
  }

  /** `vary_params`: datapoints 0 .. n-1 over the merged parameters, then the
      optional shuffle. The shuffle's own draws are not taken from the stream. */
  function VaryParams(state: State, env: Env, swaps: seq<seq<nat>>): (r: Result<State>)
    requires |state.general.numberCells| == 3 && state.datapoints == []
    requires WellFormedMap(state.hydro) && WellFormedMap(state.heatpumps)
    requires state.general.numberDatapoints > 0 ==>
               ValidShuffleWitness(swaps, |Union(state.hydro, state.heatpumps)|, state.general.numberDatapoints)
    ensures r.Ok? ==> r.value.general == state.general && r.value.hydro == state.hydro && r.value.heatpumps == state.heatpumps
    ensures r.Ok? ==> |r.value.datapoints| == (if state.general.numberDatapoints > 0 then state.general.numberDatapoints else 0)
    ensures r.Ok? ==> forall i :: 0 <= i < |r.value.datapoints| ==>
              r.value.datapoints[i].index == i && Keys(r.value.datapoints[i].data) == Keys(Union(state.hydro, state.heatpumps))
    ensures state.general.shuffleDatapoints && state.general.numberDatapoints <= 0 ==> r.Err?
    ensures r.Ok? <==>
              VaryDatapoints(state.general, Values(Union(state.hydro, state.heatpumps)), 0, state.general.numberDatapoints, state.rng, env).Ok? &&
              !(state.general.shuffleDatapoints && state.general.numberDatapoints <= 0)
    ensures r.Ok? ==>
              var merged := Union(state.hydro, state.heatpumps);
              var v := VaryDatapoints(state.general, Values(merged), 0, state.general.numberDatapoints, state.rng, env).value;
              && r.value.rng == v.1
              && (if state.general.shuffleDatapoints then ShuffledBy(r.value.datapoints, v.0, Keys(merged), swaps)
                  else r.value.datapoints == v.0)
  {
    MergedWellFormed(state.hydro, state.heatpumps);
    var v :- VaryMerged(state.general, Union(state.hydro, state.heatpumps), state.rng, env, swaps);
    Ok(State(state.general, state.hydro, state.heatpumps, v.0, v.1))
  }

  /** `vary_params` after the merge: the datapoints over the merged map's
      parameters, each carrying its keys, shuffled when asked. */
  function VaryMerged(general: General, merged: ParameterMap, rng: Stream, env: Env, swaps: seq<seq<nat>>)
    : (r: Result<(seq<DataPoint>, Stream)>)
    requires |general.numberCells| == 3 && WellFormedMap(merged)
    requires general.numberDatapoints > 0 ==> ValidShuffleWitness(swaps, |merged|, general.numberDatapoints)
    ensures r.Ok? ==> |r.value.0| == (if general.numberDatapoints > 0 then general.numberDatapoints else 0)
    ensures r.Ok? ==> forall i :: 0 <= i < |r.value.0| ==> r.value.0[i].index == i && Keys(r.value.0[i].data) == Keys(merged)
    ensures general.shuffleDatapoints && general.numberDatapoints <= 0 ==> r.Err?
    ensures r.Ok? <==>
              VaryDatapoints(general, Values(merged), 0, general.numberDatapoints, rng, env).Ok? &&
              !(general.shuffleDatapoints && general.numberDatapoints <= 0)
    ensures r.Ok? ==>
              var v := VaryDatapoints(general, Values(merged), 0, general.numberDatapoints, rng, env).value;
              && r.value.1 == v.1
              && (if general.shuffleDatapoints then ShuffledBy(r.value.0, v.0, Keys(merged), swaps) else r.value.0 == v.0)
  {
    var params := Values(merged);
    WellFormedNames(merged);
    var v :- VaryDatapoints(general, params, 0, general.numberDatapoints, rng, env);
    var shuffled :- MaybeShuffle(general.shuffleDatapoints, v.0, Keys(merged), swaps);
    Ok((shuffled, v.1))
  }

  /** The shuffle `vary_params` runs when `shuffle_datapoints` is set: on datapoints
      that all carry the same distinct keys it fails only when there is none, and
      otherwise keeps every datapoint's index and keys. */
  function MaybeShuffle(shuffle: bool, dps: seq<DataPoint>, keys: seq<string>, swaps: seq<seq<nat>>)
    : (r: Result<seq<DataPoint>>)
    requires Distinct(keys) && forall m :: 0 <= m < |dps| ==> Keys(dps[m].data) == keys
    requires |dps| > 0 ==> ValidShuffleWitness(swaps, |keys|, |dps|)
    ensures !shuffle ==> r == Ok(dps)
    ensures r.Err? <==> shuffle && |dps| == 0
    ensures r.Ok? ==> |r.value| == |dps|
    ensures r.Ok? ==> forall i :: 0 <= i < |dps| ==> r.value[i].index == dps[i].index && Keys(r.value[i].data) == keys
    ensures shuffle && |dps| > 0 ==>
              SameNames(dps) && ValidShuffleWitness(swaps, |dps[0].data|, |dps|) && r == ShuffleDatapoints(dps, swaps)
    ensures shuffle && r.Ok? ==> ShuffledBy(r.value, dps, keys, swaps)
  {
    if shuffle then
      ShuffleReady(dps, keys, swaps);
      ShuffledKeys(dps, keys, swaps);
      ShuffleDatapoints(dps, swaps)
    else
      Ok(dps)
  }

  /** The `k`-th key's values after the shuffle are its values before, shuffled
      with the `k`-th witness. */
  lemma ShuffledKeys(dps: seq<DataPoint>, keys: seq<string>, swaps: seq<seq<nat>>)
    requires Distinct(keys) && forall m :: 0 <= m < |dps| ==> Keys(dps[m].data) == keys
    requires |dps| > 0 ==> ValidShuffleWitness(swaps, |keys|, |dps|)
    ensures |dps| > 0 ==> SameNames(dps) && ValidShuffleWitness(swaps, |dps[0].data|, |dps|)
    ensures |dps| > 0 ==> ShuffledBy(ShuffleDatapoints(dps, swaps).value, dps, keys, swaps)
  {
    ShuffleReady(dps, keys, swaps);
    if |dps| > 0 {
      var r := ShuffleDatapoints(dps, swaps).value;
      forall k | 0 <= k < |keys|
        ensures HoldsKey(r, keys[k]) && HoldsKey(dps, keys[k]) && ValidSwaps(swaps[k], |dps|) &&
                ColumnOf(r, keys[k]) == Shuffle(ColumnOf(dps, keys[k]), swaps[k])
      {
        assert Keys(dps[0].data)[k] == keys[k];
        ShuffledColumn(dps, swaps, k);
      }
    }
  }

  /** The CONST values of parameter `p` over `n` datapoints, in datapoint order. */
  function ConstColumn(p: Parameter, n: int, env: Env): (col: seq<Data>)
    requires p.value.Range? && n != 1
    ensures |col| == Count(0, n)
  {
    seq(Count(0, n), m requires 0 <= m < Count(0, n) =>
      Data(p.name, Float(ConstValue(p.value.range, p.distribution, n, m, env).value)))
  }

  /** A CONST parameter over a range holds the ramp: datapoint `m` holds its
      `m`-th step, whatever the other parameters draw. */
  lemma ConstColumnOf(general: General, params: seq<Parameter>, rng: Stream, env: Env, t: nat)
    requires |general.numberCells| == 3 && Distinct(Names(params))
    requires VaryDatapoints(general, params, 0, general.numberDatapoints, rng, env).Ok?
    requires t < |params| && params[t].vary == Const && params[t].value.Range?
    ensures general.numberDatapoints != 1
    ensures var v := VaryDatapoints(general, params, 0, general.numberDatapoints, rng, env).value.0;
            HoldsKey(v, params[t].name) && ColumnOf(v, params[t].name) == ConstColumn(params[t], general.numberDatapoints, env)
  {
    var n := general.numberDatapoints;
    var v := VaryDatapoints(general, params, 0, n, rng, env).value.0;
    if |v| > 0 {
      ConstDatapoint(general, params, rng, env, t, 0);
    }
    var col := ConstColumn(params[t], n, env);
    forall m | 0 <= m < |v| ensures Get(v[m].data, params[t].name) == Some(col[m]) {
      ConstDatapoint(general, params, rng, env, t, m);
    }
    ColumnOfIs(v, params[t].name, col);
  }

  /** Datapoint `m` holds the `m`-th step of a CONST parameter over a range. */
  lemma ConstDatapoint(general: General, params: seq<Parameter>, rng: Stream, env: Env, t: nat, m: nat)
    requires |general.numberCells| == 3 && Distinct(Names(params))
    requires VaryDatapoints(general, params, 0, general.numberDatapoints, rng, env).Ok?
    requires t < |params| && params[t].vary == Const && params[t].value.Range?
    requires m < |VaryDatapoints(general, params, 0, general.numberDatapoints, rng, env).value.0|
    ensures general.numberDatapoints != 1
    ensures var v := VaryDatapoints(general, params, 0, general.numberDatapoints, rng, env).value.0;
            var col := ConstColumn(params[t], general.numberDatapoints, env);
            m < |col| && Get(v[m].data, params[t].name) == Some(col[m])
  {
    DatapointHolds(general, params, 0, general.numberDatapoints, rng, env, m, t);
  }

  /** With the shuffle off, a CONST parameter over a range steps from its minimum to
      its maximum across the datapoints; with it on, the datapoints hold the same
      steps in some order. */
  lemma ConstParameterRamp(state: State, env: Env, swaps: seq<seq<nat>>, t: nat)
    requires |state.general.numberCells| == 3 && state.datapoints == []
    requires WellFormedMap(state.hydro) && WellFormedMap(state.heatpumps)
    requires state.general.numberDatapoints > 0 ==>
               ValidShuffleWitness(swaps, |Union(state.hydro, state.heatpumps)|, state.general.numberDatapoints)
    requires VaryParams(state, env, swaps).Ok?
    requires t < |Union(state.hydro, state.heatpumps)|
    requires Union(state.hydro, state.heatpumps)[t].1.vary == Const && Union(state.hydro, state.heatpumps)[t].1.value.Range?
    ensures state.general.numberDatapoints != 1
    ensures var p := Union(state.hydro, state.heatpumps)[t].1;
            var dps := VaryParams(state, env, swaps).value.datapoints;
            && HoldsKey(dps, p.name)
            && multiset(ColumnOf(dps, p.name)) == multiset(ConstColumn(p, state.general.numberDatapoints, env))
            && (!state.general.shuffleDatapoints ==> ColumnOf(dps, p.name) == ConstColumn(p, state.general.numberDatapoints, env))
  {
    var merged := Union(state.hydro, state.heatpumps);
    var params := Values(merged);
    var n := state.general.numberDatapoints;
    MergedWellFormed(state.hydro, state.heatpumps);
    WellFormedNames(merged);
    assert params[t] == merged[t].1;
    ConstColumnOf(state.general, params, state.rng, env, t);
    var v := VaryDatapoints(state.general, params, 0, n, state.rng, env).value.0;
    var dps := VaryParams(state, env, swaps).value.datapoints;
    if state.general.shuffleDatapoints {
      assert Keys(merged)[t] == merged[t].0 == params[t].name;
      assert ShuffledBy(dps, v, Keys(merged), swaps);
      assert ColumnOf(dps, params[t].name) == Shuffle(ColumnOf(v, params[t].name), swaps[t]);
    }
  }

  /** `vary_params` with or without the shuffle holds, for every parameter, the
      values the datapoint loop gave it, in some order. */
  lemma VaryParamsPermutes(state: State, env: Env, swaps: seq<seq<nat>>)
    requires |state.general.numberCells| == 3 && state.datapoints == []
    requires WellFormedMap(state.hydro) && WellFormedMap(state.heatpumps)
    requires state.general.numberDatapoints > 0 ==>
               ValidShuffleWitness(swaps, |Union(state.hydro, state.heatpumps)|, state.general.numberDatapoints)
    requires VaryParams(state, env, swaps).Ok?
    ensures var merged := Union(state.hydro, state.heatpumps);
            PermutedColumns(VaryParams(state, env, swaps).value.datapoints,
              VaryDatapoints(state.general, Values(merged), 0, state.general.numberDatapoints, state.rng, env).value.0,
              Keys(merged))
  {
    var merged := Union(state.hydro, state.heatpumps);
    var v := VaryDatapoints(state.general, Values(merged), 0, state.general.numberDatapoints, state.rng, env).value.0;
    var dps := VaryParams(state, env, swaps).value.datapoints;
    if state.general.shuffleDatapoints {
      ShuffledByPermutes(dps, v, Keys(merged), swaps);
    } else {
      assert dps == v;
      forall k | 0 <= k < |Keys(merged)| ensures HoldsKey(v, Keys(merged)[k]) {
        assert forall i :: 0 <= i < |v| ==> Keys(v[i].data) == Keys(merged);
      }
    }
  }

  /** The parameters of a well-formed map carry its keys as names, without repeats. */
  lemma WellFormedNames(m: ParameterMap)
    requires WellFormedMap(m)
    ensures Names(Values(m)) == Keys(m) && Distinct(Names(Values(m)))
  {
    assert Names(Values(m)) == Keys(m);
  }

  /** Datapoints that all carry the same distinct keys can be shuffled with one
      witness per key. */
  lemma ShuffleReady(dps: seq<DataPoint>, keys: seq<string>, swaps: seq<seq<nat>>)
    requires Distinct(keys) && forall m :: 0 <= m < |dps| ==> Keys(dps[m].data) == keys
    requires |dps| > 0 ==> ValidShuffleWitness(swaps, |keys|, |dps|)
    ensures |dps| > 0 ==> SameNames(dps) && ValidShuffleWitness(swaps, |dps[0].data|, |dps|)
  {
    if |dps| > 0 {
      assert |Keys(dps[0].data)| == |dps[0].data|;
    }
  }

  /** The merged map keeps the well-formedness of both parts. */
  lemma MergedWellFormed(a: ParameterMap, b: ParameterMap)
    requires WellFormedMap(a) && WellFormedMap(b)
    ensures WellFormedMap(Union(a, b))
  {
    UnionDistinct(a, b);
    UnionKeepsNames(a, b);
  }

  lemma UnionKeepsNames(a: ParameterMap, b: ParameterMap)
    requires forall i :: 0 <= i < |a| ==> a[i].1.name == a[i].0
    requires forall i :: 0 <= i < |b| ==> b[i].1.name == b[i].0
    ensures var u := Union(a, b); forall i :: 0 <= i < |u| ==> u[i].1.name == u[i].0
  {
    var named := (e: (string, Parameter)) => e.1.name == e.0;
    UnionPreserves(a, b, named);
  }
}
