/** Spatially varying fields: Perlin noise rescaled to a parameter's range, constant
    fields, and the pressure field integrated from a gradient field.

    `noise.pnoise3`, `np.log10` and `10 ** x` are functions the model cannot see;
    they arrive in an `Env`, and `LogLaws` states the only facts about the
    logarithm the proofs rely on.
 */
module VaryPerlin {
  import opened Common
  import opened Fields
  import opened RandomStream
  import opened DataStructures

  datatype Env = Env(noise: (real, real, real) -> real, log10: real -> real, pow10: real -> real)

  /** `10 ** log10(x) == x` for positive `x`, and both functions are monotone. */
  ghost predicate LogLaws(env: Env) {
    && (forall x: real :: 0.0 < x ==> env.pow10(env.log10(x)) == x)
    && (forall x: real, y: real :: 0.0 < x <= y ==> env.log10(x) <= env.log10(y))
    && (forall a: real, b: real :: a <= b ==> env.pow10(a) <= env.pow10(b))
  }

  /** A fraction in [0, 1] of a non-negative width stays within the width. */
  lemma FractionOfWidth(t: real, d: real)
    requires 0.0 <= t <= 1.0 && 0.0 <= d
    ensures 0.0 <= t * d <= d
  {
    assert d - t * d == (1.0 - t) * d;
  }

  /* ----- make_perlin_grid ----- */

  /** `max(grid_dimensions)` */
  function LargestAxis(cells: seq<int>): (m: int)
    requires |cells| == 3
    ensures m in cells
    ensures forall i :: 0 <= i < 3 ==> cells[i] <= m
  {
    if cells[0] >= cells[1] && cells[0] >= cells[2] then cells[0]
    else if cells[1] >= cells[2] then cells[1]
    else cells[2]
  }

  predicate PositiveCells(cells: seq<int>) {
    |cells| == 3 && cells[0] > 0 && cells[1] > 0 && cells[2] > 0
  }

  /** The simulation area scaled into the unit cube: every axis shrinks by the
      largest one, so the largest axis has length 1 and the others less. */
  function AxisScale(cells: seq<int>): (s: seq<real>)
    requires PositiveCells(cells)
    ensures |s| == 3
    ensures forall i :: 0 <= i < 3 ==> 0.0 < s[i] <= 1.0
    ensures forall i :: 0 <= i < 3 ==> (s[i] == 1.0 <==> cells[i] == LargestAxis(cells))
  {
    var m := LargestAxis(cells);
    var s := seq(3, i requires 0 <= i < 3 => cells[i] as real / m as real);
    forall i | 0 <= i < 3 ensures 0.0 < s[i] <= 1.0 && (s[i] == 1.0 <==> cells[i] == m) {
      ShareOfLargest(cells[i], m);
    }
    s
  }

  lemma ShareOfLargest(c: int, m: int)
    requires 0 < c <= m
    ensures 0.0 < c as real / m as real <= 1.0
    ensures c as real / m as real == 1.0 <==> c == m
  {
    var q := c as real / m as real;
    assert q * m as real == c as real;
  }

  /** The noise coordinate of cell `idx` along one axis of `n` cells. */
  function NoiseCoordinate(idx: nat, n: int, scale: real, offset: real, freq: real): real
    requires n > 0
  {
    ((idx as real) / (n as real) * scale + offset) * freq
  }

  /** Along each axis the sample points of one field, before the frequency factor,
      lie in [offset, offset + scale): fields drawn at offsets at least 1 apart
      never share a sample point. */
  lemma NoiseCoordinateInCube(idx: nat, n: int, scale: real, offset: real)
    requires 0 <= idx < n && 0.0 < scale
    ensures offset <= (idx as real) / (n as real) * scale + offset < offset + scale
  {
    var t := (idx as real) / (n as real);
    assert t * (n as real) == idx as real;
    assert 0.0 <= t < 1.0;
    assert t * scale < scale by {
      assert scale - t * scale == (1.0 - t) * scale;
    }
  }

  /** `np.vectorize(noise.pnoise3)(x, y, z)` over the cell grid. */
  function RawGrid(cells: seq<int>, offset: seq<real>, freq: seq<real>, noise: (real, real, real) -> real): (f: Field)
    requires PositiveCells(cells) && |offset| == 3 && |freq| >= 3
    ensures HasShape(f, cells[0], cells[1], cells[2])
    ensures |Cells(f)| > 0
  {
    var s := AxisScale(cells);
    var f := Build(cells[0], cells[1], cells[2], (i: nat, j: nat, k: nat) =>
      noise(NoiseCoordinate(i, cells[0], s[0], offset[0], freq[0]),
            NoiseCoordinate(j, cells[1], s[1], offset[1], freq[1]),
            NoiseCoordinate(k, cells[2], s[2], offset[2], freq[2])));
    CellInCells(f, 0, 0, 0);
    f
  }

  /** The affine map taking [cmin, cmax] onto [amin, amax]. */
  function RescaleValue(v: real, cmin: real, cmax: real, amin: real, amax: real): (r: real)
    requires cmin < cmax
    ensures v == cmin ==> r == amin
    ensures v == cmax ==> r == amax
    ensures cmin <= v <= cmax && amin <= amax ==> amin <= r <= amax
  {
    var t := (v - cmin) / (cmax - cmin);
    if cmin <= v <= cmax && amin <= amax then
      assert t * (cmax - cmin) == v - cmin;
      assert 0.0 <= t <= 1.0;
      FractionOfWidth(t, amax - amin);
      t * (amax - amin) + amin
    else
      t * (amax - amin) + amin
  }

  /** For a non-decreasing target range the rescaling keeps the order of values. */
  lemma RescaleValueMonotone(v: real, w: real, cmin: real, cmax: real, amin: real, amax: real)
    requires cmin < cmax && v <= w && amin <= amax
    ensures RescaleValue(v, cmin, cmax, amin, amax) <= RescaleValue(w, cmin, cmax, amin, amax)
  {
    var d := cmax - cmin;
    var tv := (v - cmin) / d;
    var tw := (w - cmin) / d;
    assert tv * d == v - cmin && tw * d == w - cmin;
    assert tv <= tw;
    assert (tw - tv) * (amax - amin) >= 0.0;
  }

  /** Rescale every cell from the grid's own [min, max] to [amin, amax]; a grid whose
      cells are all equal divides zero by zero, which numpy turns into NaN. */
  function Rescale(raw: Field, amin: real, amax: real): (r: Result<Field>)
    requires |Cells(raw)| > 0
    ensures r.Err? <==> SeqMin(Cells(raw)) == SeqMax(Cells(raw))
    ensures r.Err? ==> r.error == ConstantNoise
    ensures r.Ok? ==> |r.value| == |raw|
    ensures r.Ok? ==> forall i :: 0 <= i < |raw| ==> |r.value[i]| == |raw[i]|
    ensures r.Ok? ==> forall i, j :: 0 <= i < |raw| && 0 <= j < |raw[i]| ==> |r.value[i][j]| == |raw[i][j]|
    ensures r.Ok? ==> forall i, j, k :: 0 <= i < |raw| && 0 <= j < |raw[i]| && 0 <= k < |raw[i][j]| ==>
              && (raw[i][j][k] == SeqMin(Cells(raw)) ==> r.value[i][j][k] == amin)
              && (raw[i][j][k] == SeqMax(Cells(raw)) ==> r.value[i][j][k] == amax)
              && (amin <= amax ==> amin <= r.value[i][j][k] <= amax)
  {
    var cmin := SeqMin(Cells(raw));
    var cmax := SeqMax(Cells(raw));
    if cmin == cmax then Err(ConstantNoise)
    else
      assert cmin < cmax by {
        assert cmin <= Cells(raw)[0] <= cmax;
      }
      var f := MapCells(raw, v => RescaleValue(v, cmin, cmax, amin, amax));
      assert forall i, j, k :: 0 <= i < |raw| && 0 <= j < |raw[i]| && 0 <= k < |raw[i][j]| ==>
        cmin <= raw[i][j][k] <= cmax by {
        forall i, j, k | 0 <= i < |raw| && 0 <= j < |raw[i]| && 0 <= k < |raw[i][j]|
          ensures cmin <= raw[i][j][k] <= cmax
        {
          CellInCells(raw, i, j, k);
        }
      }
      Ok(f)
  }

  /** The rescaled field reaches both ends of the target range. */
  lemma {:induction false} RescaleAttainsBounds(raw: Field, amin: real, amax: real)
    requires |Cells(raw)| > 0 && Rescale(raw, amin, amax).Ok?
    ensures var f := Rescale(raw, amin, amax).value;
      && (exists i, j, k :: 0 <= i < |f| && 0 <= j < |f[i]| && 0 <= k < |f[i][j]| && f[i][j][k] == amin)
      && (exists i, j, k :: 0 <= i < |f| && 0 <= j < |f[i]| && 0 <= k < |f[i][j]| && f[i][j][k] == amax)
  {
    var f := Rescale(raw, amin, amax).value;
    CellsMembers(raw, SeqMin(Cells(raw)));
    var i, j, k :| 0 <= i < |raw| && 0 <= j < |raw[i]| && 0 <= k < |raw[i][j]| && raw[i][j][k] == SeqMin(Cells(raw));
    assert f[i][j][k] == amin;
    CellsMembers(raw, SeqMax(Cells(raw)));
    var i', j', k' :| 0 <= i' < |raw| && 0 <= j' < |raw[i']| && 0 <= k' < |raw[i'][j']| && raw[i'][j'][k'] == SeqMax(Cells(raw));
    assert f[i'][j'][k'] == amax;
  }

  /** Rescaling keeps the order between any two cells. */
  lemma RescalePreservesOrder(raw: Field, amin: real, amax: real, a: (nat, nat, nat), b: (nat, nat, nat))
    requires |Cells(raw)| > 0 && Rescale(raw, amin, amax).Ok? && amin <= amax
    requires a.0 < |raw| && a.1 < |raw[a.0]| && a.2 < |raw[a.0][a.1]|
    requires b.0 < |raw| && b.1 < |raw[b.0]| && b.2 < |raw[b.0][b.1]|
    requires raw[a.0][a.1][a.2] <= raw[b.0][b.1][b.2]
    ensures var f := Rescale(raw, amin, amax).value; f[a.0][a.1][a.2] <= f[b.0][b.1][b.2]
  {
    var cmin := SeqMin(Cells(raw));
    var cmax := SeqMax(Cells(raw));
    assert cmin < cmax by {
      assert cmin <= Cells(raw)[0] <= cmax;
    }
    RescaleValueMonotone(raw[a.0][a.1][a.2], raw[b.0][b.1][b.2], cmin, cmax, amin, amax);
  }

  /** `make_perlin_grid`: sample the noise on the cell grid and rescale it to
      [amin, amax]. A frequency list of fewer than three factors fails on indexing
      before the grid is sampled; a grid without cells has no minimum. */
  function MakePerlinGrid(amin: real, amax: real, cells: seq<int>, offset: seq<real>, freq: seq<real>,
                          noise: (real, real, real) -> real): (r: Result<Field>)
    requires |cells| == 3 && |offset| == 3
    ensures |freq| < 3 ==> r == Err(FrequencyTooShort)
    ensures |freq| >= 3 && !PositiveCells(cells) ==> r == Err(EmptyGrid)
    ensures r.Err? && |freq| >= 3 && PositiveCells(cells) ==>
              r.error == ConstantNoise && SeqMin(Cells(RawGrid(cells, offset, freq, noise))) == SeqMax(Cells(RawGrid(cells, offset, freq, noise)))
    ensures r.Ok? ==> PositiveCells(cells) && HasShape(r.value, cells[0], cells[1], cells[2])
    ensures r.Ok? && amin <= amax ==> CellsWithin(r.value, cells, amin, amax)
  {
    if |freq| < 3 then Err(FrequencyTooShort)
    else if !PositiveCells(cells) then Err(EmptyGrid)
    else
      var raw := RawGrid(cells, offset, freq, noise);
      var r := Rescale(raw, amin, amax);
      if r.Ok? then
        RescaleWithin(raw, cells, amin, amax);
        r
      else
        r
  }

  /** A rescaled grid keeps its shape, and for an ordered target range every cell
      lies within it. */
  lemma RescaleWithin(raw: Field, n: seq<int>, amin: real, amax: real)
    requires PositiveCells(n) && HasShape(raw, n[0], n[1], n[2]) && |Cells(raw)| > 0
    requires Rescale(raw, amin, amax).Ok?
    ensures HasShape(Rescale(raw, amin, amax).value, n[0], n[1], n[2])
    ensures amin <= amax ==> CellsWithin(Rescale(raw, amin, amax).value, n, amin, amax)
  {
    RescaleShape(raw, n[0], n[1], n[2], amin, amax);
  }

  /* ----- create_perlin_field ----- */

  /** The frequency factors: a list is used as given; a range yields three draws. */
  function FrequencyFactors(f: Frequency, rng: Stream): (r: (seq<real>, Stream))
    ensures f.FreqList? ==> r == (f.xs, rng)
    ensures f.FreqRange? ==> |r.0| == 3 && r.1 == rng.Skip(3)
    ensures f.FreqRange? ==> forall i :: 0 <= i < 3 ==> r.0[i] == f.range.SampleDown(rng.Peek(i))
    ensures f.FreqRange? && rng.Valid() && f.range.min <= f.range.max ==>
              forall i :: 0 <= i < 3 ==> f.range.min <= r.0[i] <= f.range.max
  {
    match f
    case FreqList(xs) => (xs, rng)
    case FreqRange(mm) =>
      var (d, rest) := Draw3(rng);
      (seq(3, i requires 0 <= i < 3 => mm.SampleDown(d[i])), rest)
  }

  /** The number of samples `create_perlin_field` takes from the generator. */
  function PerlinDraws(p: Perlin): nat {
    if p.frequency.FreqRange? then 6 else 3
  }

  /** The offsets of the sampling window: three draws scaled by 4242. */
  function BaseOffset(rng: Stream): (r: (seq<real>, Stream))
    ensures |r.0| == 3 && r.1 == rng.Skip(3)
    ensures forall i :: 0 <= i < 3 ==> r.0[i] == rng.Peek(i) * 4242.0
    ensures forall i :: 0 <= i < 3 ==> 0.0 <= r.0[i] < 4242.0 || !rng.Valid()
  {
    var (d, rest) := Draw3(rng);
    (seq(3, i requires 0 <= i < 3 => d[i] * 4242.0), rest)
  }

  /** The sampled grid, taken back out of logarithmic space for a logarithmic parameter. */
  function PerlinCells(general: General, offset: seq<real>, freq: seq<real>, param: Parameter, env: Env): (r: Result<Field>)
    requires |general.numberCells| == 3 && |offset| == 3 && param.value.PerlinValue?
    ensures r.Ok? ==> PositiveCells(general.numberCells)
    ensures r.Ok? ==> HasShape(r.value, general.numberCells[0], general.numberCells[1], general.numberCells[2])
    ensures param.distribution != Log ==>
              r == MakePerlinGrid(param.value.perlin.min, param.value.perlin.max, general.numberCells, offset, freq, env.noise)
    ensures param.distribution == Log ==>
              var p := param.value.perlin;
              var grid := MakePerlinGrid(env.log10(p.min), env.log10(p.max), general.numberCells, offset, freq, env.noise);
              (r.Ok? <==> grid.Ok?) && (r.Ok? ==> r.value == MapCells(grid.value, env.pow10))
  {
    var p := param.value.perlin;
    var n := general.numberCells;
    if param.distribution == Log then
      var lo, hi := env.log10(p.min), env.log10(p.max);
      var grid :- MakePerlinGrid(lo, hi, n, offset, freq, env.noise);
      MapCellsShape(grid, env.pow10, n[0], n[1], n[2]);
      Ok(MapCells(grid, env.pow10))
    else
      MakePerlinGrid(p.min, p.max, n, offset, freq, env.noise)
  }

  /** An `n[0]` x `n[1]` x `n[2]` field whose every cell lies within [lo, hi]. */
  predicate CellsWithin(f: Field, n: seq<int>, lo: real, hi: real)
    requires |n| == 3
  {
    && PositiveCells(n) && HasShape(f, n[0], n[1], n[2])
    && forall i, j, k :: 0 <= i < n[0] && 0 <= j < n[1] && 0 <= k < n[2] ==> lo <= f[i][j][k] <= hi
  }

  /** Every sampled cell lies within the parameter's [min, max]; for a logarithmic
      parameter this rests on the laws of the logarithm and needs a positive minimum. */
  lemma PerlinCellsWithinRange(general: General, offset: seq<real>, freq: seq<real>, param: Parameter, env: Env)
    requires |general.numberCells| == 3 && |offset| == 3 && param.value.PerlinValue?
    requires PerlinCells(general, offset, freq, param, env).Ok?
    requires param.value.perlin.min <= param.value.perlin.max
    requires param.distribution == Log ==> LogLaws(env) && 0.0 < param.value.perlin.min
    ensures CellsWithin(PerlinCells(general, offset, freq, param, env).value, general.numberCells,
                        param.value.perlin.min, param.value.perlin.max)
  {
    var p := param.value.perlin;
    var n := general.numberCells;
    if param.distribution == Log {
      var lo, hi := env.log10(p.min), env.log10(p.max);
      LogBounds(env, p.min, p.max);
      var grid := MakePerlinGrid(lo, hi, n, offset, freq, env.noise).value;
      Pow10WithinRange(grid, n, lo, hi, p.min, p.max, env);
    } else {
      assert PerlinCells(general, offset, freq, param, env) == MakePerlinGrid(p.min, p.max, n, offset, freq, env.noise);
    }
  }

  /** The logarithms of two positive bounds keep their order, and raising them to
      the power of ten gives the bounds back. */
  lemma LogBounds(env: Env, lo: real, hi: real)
    requires LogLaws(env) && 0.0 < lo <= hi
    ensures env.log10(lo) <= env.log10(hi)
    ensures env.pow10(env.log10(lo)) == lo && env.pow10(env.log10(hi)) == hi
  {
  }

  /** Raising every cell of a grid within [lo, hi] to the power of ten keeps it
      within [10^lo, 10^hi]. */
  lemma Pow10WithinRange(grid: Field, n: seq<int>, lo: real, hi: real, pmin: real, pmax: real, env: Env)
    requires |n| == 3 && LogLaws(env) && CellsWithin(grid, n, lo, hi)
    requires env.pow10(lo) == pmin && env.pow10(hi) == pmax
    ensures CellsWithin(MapCells(grid, env.pow10), n, pmin, pmax)
  {
    var cells := MapCells(grid, env.pow10);
    forall i, j, k | 0 <= i < n[0] && 0 <= j < n[1] && 0 <= k < n[2]
      ensures pmin <= cells[i][j][k] <= pmax
    {
      assert cells[i][j][k] == env.pow10(grid[i][j][k]);
      assert lo <= grid[i][j][k] <= hi;
    }
  }

  /** Pairs a successful field with the rest of the stream. */
  function WithStream(r: Result<Field>, rest: Stream): (p: Result<(Field, Stream)>)
    ensures p.Ok? <==> r.Ok?
    ensures p.Ok? ==> p.value == (r.value, rest)
    ensures p.Err? ==> p.error == r.error
  {
    match r
    case Ok(f) => Ok((f, rest))
    case Err(e) => Err(e)
  }

  /** `create_perlin_field`: three offset draws first (taken even when the value
      turns out not to be Perlin noise), then the frequency draws, then the field.
      A logarithmic parameter is sampled between the logarithms of its bounds and
      raised to the power of ten afterwards. */
  function CreatePerlinField(general: General, rng: Stream, param: Parameter, env: Env): (r: Result<(Field, Stream)>)
    requires |general.numberCells| == 3
    ensures !param.value.PerlinValue? ==> r == Err(NotPerlin)
    ensures param.value.PerlinValue? ==>
              var p := param.value.perlin;
              var cells := PerlinCells(general, BaseOffset(rng).0, FrequencyFactors(p.frequency, rng.Skip(3)).0, param, env);
              r == FieldFromCells(general, cells, param, rng.Skip(PerlinDraws(p)))
    ensures r.Ok? ==> r.value.1 == rng.Skip(PerlinDraws(param.value.perlin))
    ensures r.Ok? ==> PositiveCells(general.numberCells) &&
                      HasShape(r.value.0, general.numberCells[0], general.numberCells[1], general.numberCells[2])
    ensures param.value.PerlinValue? && param.name == "pressure_gradient" ==> r.Err?
  {
    var (offset, rng1) := BaseOffset(rng);
    if !param.value.PerlinValue? then Err(NotPerlin)
    else
      var (freq, rng2) := FrequencyFactors(param.value.perlin.frequency, rng1);
      assert rng2 == rng.Skip(PerlinDraws(param.value.perlin));
      var cells := PerlinCells(general, offset, freq, param, env);
      assert cells.Ok? ==> PositiveCells(general.numberCells);
      FieldFromCells(general, cells, param, rng2)
  }

  /** The field made from the sampled cells: a failed sampling is passed on, and
      sampled cells become the parameter's field by `PerlinFieldOf`. */
  function FieldFromCells(general: General, cells: Result<Field>, param: Parameter, rest: Stream): (r: Result<(Field, Stream)>)
    requires |general.numberCells| == 3
    requires cells.Ok? ==> PositiveCells(general.numberCells)
    requires cells.Ok? ==> HasShape(cells.value, general.numberCells[0], general.numberCells[1], general.numberCells[2])
    ensures cells.Err? ==> r == Err(cells.error)
    ensures cells.Ok? ==>
              var n := general.numberCells;
              r == PerlinFieldOf(cells.value, n[0], n[1], n[2], general.cellResolution, param, rest)
    ensures r.Ok? ==> cells.Ok? && r.value.1 == rest
    ensures r.Ok? ==> HasShape(r.value.0, general.numberCells[0], general.numberCells[1], general.numberCells[2])
  {
    var c :- cells;
    var n := general.numberCells;
    PerlinFieldOf(c, n[0], n[1], n[2], general.cellResolution, param, rest)
  }

  /** The draw order of `create_perlin_field` for frequencies given as a range:
      samples 0 to 2 become the offsets, samples 3 to 5 the frequency factors, and
      the field starts after the sixth sample. */
  lemma PerlinDrawOrder(general: General, rng: Stream, param: Parameter, env: Env)
    requires |general.numberCells| == 3
    requires param.value.PerlinValue? && param.value.perlin.frequency.FreqRange?
    ensures var f := param.value.perlin.frequency.range;
            var offset := [rng.Peek(0) * 4242.0, rng.Peek(1) * 4242.0, rng.Peek(2) * 4242.0];
            var freq := [f.SampleDown(rng.Peek(3)), f.SampleDown(rng.Peek(4)), f.SampleDown(rng.Peek(5))];
            CreatePerlinField(general, rng, param, env)
              == FieldFromCells(general, PerlinCells(general, offset, freq, param, env), param, rng.Skip(6))
  {
    var f := param.value.perlin.frequency;
    var offset := BaseOffset(rng).0;
    var freq := FrequencyFactors(f, rng.Skip(3)).0;
    assert offset == [rng.Peek(0) * 4242.0, rng.Peek(1) * 4242.0, rng.Peek(2) * 4242.0];
    assert freq == [f.range.SampleDown(rng.Peek(3)), f.range.SampleDown(rng.Peek(4)), f.range.SampleDown(rng.Peek(5))];
  }

  /** The noise as the parameter receives it: `pressure_gradient` is integrated into
      a pressure field, which needs a min/max value; any other parameter keeps the noise. */
  function PerlinFieldOf(cells: Field, nx: nat, ny: nat, nz: nat, res: real, param: Parameter, rest: Stream)
    : (r: Result<(Field, Stream)>)
    requires HasShape(cells, nx, ny, nz)
    ensures param.name != "pressure_gradient" ==> r == Ok((cells, rest))
    ensures param.name == "pressure_gradient" && !param.value.Range? ==> r == Err(GradientNotMinMax)
    ensures r.Ok? ==> r.value.1 == rest && HasShape(r.value.0, nx, ny, nz)
  {
    if param.name == "pressure_gradient" then
      WithStream(CalcPressureFromGradientField(cells, nx, ny, nz, res, param.value), rest)
    else
      Ok((cells, rest))
  }

  /** Every cell of a Perlin field lies within the parameter's [min, max]. */
  lemma PerlinFieldWithinRange(general: General, rng: Stream, param: Parameter, env: Env)
    requires |general.numberCells| == 3
    requires CreatePerlinField(general, rng, param, env).Ok?
    requires param.value.perlin.min <= param.value.perlin.max
    requires param.distribution == Log ==> LogLaws(env) && 0.0 < param.value.perlin.min
    ensures var f := CreatePerlinField(general, rng, param, env).value.0;
            var n := general.numberCells;
            forall i, j, k :: 0 <= i < n[0] && 0 <= j < n[1] && 0 <= k < n[2] ==>
              param.value.perlin.min <= f[i][j][k] <= param.value.perlin.max
  {
    var (offset, rng1) := BaseOffset(rng);
    var (freq, rng2) := FrequencyFactors(param.value.perlin.frequency, rng1);
    PerlinCellsWithinRange(general, offset, freq, param, env);
  }

  /** A Perlin-varied `pressure_gradient` never yields a field: its value is Perlin
      noise, and the pressure integration asserts a min/max value. */
  lemma PressureGradientPerlinAborts(general: General, rng: Stream, param: Parameter, env: Env)
    requires |general.numberCells| == 3
    requires param.name == "pressure_gradient" && param.value.PerlinValue?
    ensures CreatePerlinField(general, rng, param, env).Err?
    ensures CreatePerlinField(general, rng, param, env).error in
              {FrequencyTooShort, EmptyGrid, ConstantNoise, GradientNotMinMax}
  {
  }

  /* ----- create_const_field ----- */

  /** A fill value: a scalar, or the entries of an array in C order. */
  datatype FillValue = FillScalar(x: real) | FillArray(xs: seq<real>)

  /** The position of cell (i, j, k) in C order. */
  function FlatIndex(i: nat, j: nat, k: nat, ny: nat, nz: nat): nat {
    (i * ny + j) * nz + k
  }

  lemma FlatIndexBound(i: nat, j: nat, k: nat, nx: nat, ny: nat, nz: nat)
    requires i < nx && j < ny && k < nz
    ensures FlatIndex(i, j, k, ny, nz) < nx * ny * nz
  {
    var row := i * ny + j;
    MulMonotone(i + 1, nx, ny);
    assert (i + 1) * ny == i * ny + ny;
    assert row + 1 <= nx * ny;
    MulMonotone(row + 1, nx * ny, nz);
    assert (row + 1) * nz == row * nz + nz;
  }

  lemma {:induction false} MulMonotone(a: nat, b: nat, c: nat)
    requires a <= b
    ensures a * c <= b * c
    decreases c
  {
    if c > 0 {
      MulMonotone(a, b, c - 1);
      assert a * c == a * (c - 1) + a;
      assert b * c == b * (c - 1) + b;
    }
  }

  /** `create_const_field`: a scalar (or an array of one entry) fills the grid; a
      larger array is reshaped to the grid, which needs exactly one entry per cell.
      An empty array cannot be broadcast. */
  function CreateConstField(cells: seq<int>, value: FillValue): (r: Result<Field>)
    requires PositiveCells(cells)
    ensures r.Ok? ==> HasShape(r.value, cells[0], cells[1], cells[2])
    ensures value.FillScalar? ==> r.Ok? && forall i, j, k :: 0 <= i < cells[0] && 0 <= j < cells[1] && 0 <= k < cells[2] ==>
              r.value[i][j][k] == value.x
    ensures value.FillArray? && |value.xs| == 1 ==> r.Ok? && forall i, j, k :: 0 <= i < cells[0] && 0 <= j < cells[1] && 0 <= k < cells[2] ==>
              r.value[i][j][k] == value.xs[0]
    ensures value.FillArray? && |value.xs| != 1 ==> (r.Ok? <==> |value.xs| == cells[0] * cells[1] * cells[2])
    ensures value.FillArray? && |value.xs| > 1 && r.Ok? ==>
              forall i, j, k :: 0 <= i < cells[0] && 0 <= j < cells[1] && 0 <= k < cells[2] ==>
                FlatIndex(i, j, k, cells[1], cells[2]) < |value.xs| &&
                r.value[i][j][k] == value.xs[FlatIndex(i, j, k, cells[1], cells[2])]
    ensures r.Err? ==> r.error == ReshapeMismatch
  {
    var nx, ny, nz := cells[0], cells[1], cells[2];
    assert nx * ny * nz > 0 by {
      assert nx * ny > 0;
    }
    match value
    case FillScalar(x) => Ok(Build(nx, ny, nz, (i, j, k) => x))
    case FillArray(xs) =>
      if |xs| == 1 then Ok(Build(nx, ny, nz, (i, j, k) => xs[0]))
      else if |xs| != nx * ny * nz then Err(ReshapeMismatch)
      else
        var f := Build(nx, ny, nz, (i: nat, j: nat, k: nat) =>
          if FlatIndex(i, j, k, ny, nz) < |xs| then xs[FlatIndex(i, j, k, ny, nz)] else 0.0);
        assert forall i, j, k :: 0 <= i < nx && 0 <= j < ny && 0 <= k < nz ==> FlatIndex(i, j, k, ny, nz) < |xs| by {
          forall i, j, k | 0 <= i < nx && 0 <= j < ny && 0 <= k < nz ensures FlatIndex(i, j, k, ny, nz) < |xs| {
            FlatIndexBound(i, j, k, nx, ny, nz);
          }
        }
        Ok(f)
  }

  /* ----- calc_pressure_from_gradient_field ----- */

  /** Standard atmosphere pressure in Pa, the pressure of the first y-layer. */
  const Reference: real := 101325.0

  /** The pressure change across one cell: the gradient times the resolution times 1000. */
  function Increase(gradient: real, res: real): real {
    gradient * res * 1000.0
  }

  lemma IncreaseAdds(s: real, x: real, res: real)
    ensures Increase(s + x, res) == Increase(s, res) + Increase(x, res)
  {
  }

  /** The pressure along one y-column: the reference at the first cell, then each
      cell adds the increase its gradient causes. */
  function Accumulate(g: seq<real>, res: real): (p: seq<real>)
    requires |g| > 0
    ensures |p| == |g| && p[0] == Reference
    ensures forall i :: 1 <= i < |g| ==> p[i] == p[i - 1] + Increase(g[i], res)
    decreases |g|
  {
    if |g| == 1 then [Reference]
    else
      var q := Accumulate(g[..|g| - 1], res);
      q + [q[|q| - 1] + Increase(g[|g| - 1], res)]
  }

  function Sum(s: seq<real>): real
    decreases |s|
  {
    if |s| == 0 then 0.0 else Sum(s[..|s| - 1]) + s[|s| - 1]
  }

  lemma SumSnoc(g: seq<real>, i: nat)
    requires 1 <= i < |g|
    ensures Sum(g[1..i + 1]) == Sum(g[1..i]) + g[i]
  {
    assert g[1..i + 1][..i - 1] == g[1..i];
  }

  /** Closed form of the column: the reference plus the increase of the summed
      gradients after the first cell. */
  lemma {:induction false} AccumulateClosedForm(g: seq<real>, res: real, i: nat)
    requires i < |g|
    ensures Accumulate(g, res)[i] == Reference + Increase(Sum(g[1..i + 1]), res)
  {
    if i == 0 {
      assert g[1..1] == [];
    } else {
      AccumulateClosedForm(g, res, i - 1);
      SumSnoc(g, i);
      IncreaseAdds(Sum(g[1..i]), g[i], res);
    }
  }

  /** The gradients along the y axis at (a, c). */
  function Column(f: Field, a: nat, c: nat, nx: nat, ny: nat, nz: nat): (col: seq<real>)
    requires HasShape(f, nx, ny, nz) && a < nx && c < nz
    ensures |col| == ny && forall m :: 0 <= m < ny ==> col[m] == f[a][m][c]
  {
    seq(ny, m requires 0 <= m < ny => f[a][m][c])
  }

  /** The pressure at cell (a, i, c) of the integrated field: the column at
      (nx - 1 - a, c) accumulated up to its cell i. */
  function PressureAt(gs: Field, nx: nat, ny: nat, nz: nat, res: real, a: nat, i: nat, c: nat): (p: real)
    requires HasShape(gs, nx, ny, nz) && a < nx && i < ny && c < nz
    ensures i == 0 ==> p == Reference
    ensures p == Reference + Increase(Sum(Column(gs, nx - 1 - a, c, nx, ny, nz)[1..i + 1]), res)
  {
    var col := Column(gs, nx - 1 - a, c, nx, ny, nz);
    AccumulateClosedForm(col, res, i);
    Accumulate(col, res)[i]
  }

  /** The integrated pressure with the x axis reversed: layer `a` of the result
      comes from layer `nx - 1 - a` of the gradients. */
  function IntegratePressure(gs: Field, nx: nat, ny: nat, nz: nat, res: real): (f: Field)
    requires HasShape(gs, nx, ny, nz) && 0 < ny
    ensures HasShape(f, nx, ny, nz)
    ensures forall a, c :: 0 <= a < nx && 0 <= c < nz ==> f[a][0][c] == Reference
    ensures forall a, i, c :: 0 <= a < nx && 0 <= i < ny && 0 <= c < nz ==>
              f[a][i][c] == Reference + Increase(Sum(Column(gs, nx - 1 - a, c, nx, ny, nz)[1..i + 1]), res)
  {
    var f := Build(nx, ny, nz, (a: nat, i: nat, c: nat) =>
      if a < nx && i < ny && c < nz then PressureAt(gs, nx, ny, nz, res, a, i, c) else 0.0);
    assert forall a, i, c :: 0 <= a < nx && 0 <= i < ny && 0 <= c < nz ==> f[a][i][c] == PressureAt(gs, nx, ny, nz, res, a, i, c);
    f
  }

  lemma RescaleShape(raw: Field, nx: nat, ny: nat, nz: nat, amin: real, amax: real)
    requires HasShape(raw, nx, ny, nz) && |Cells(raw)| > 0 && Rescale(raw, amin, amax).Ok?
    ensures HasShape(Rescale(raw, amin, amax).value, nx, ny, nz)
  {
  }

  /** `calc_pressure_from_gradient_field`: the gradient field is rescaled to the
      parameter's min/max range, integrated along the y axis from the reference
      pressure, and the x axis is reversed. */
  function CalcPressureFromGradientField(g: Field, nx: nat, ny: nat, nz: nat, res: real, value: Value): (r: Result<Field>)
    requires HasShape(g, nx, ny, nz)
    ensures !value.Range? ==> r == Err(GradientNotMinMax)
    ensures value.Range? && (nx == 0 || ny == 0 || nz == 0) ==> r == Err(EmptyGrid)
    ensures r.Ok? ==> HasShape(r.value, nx, ny, nz)
    ensures r.Ok? ==> forall a, c :: 0 <= a < nx && 0 <= c < nz ==> r.value[a][0][c] == Reference
    ensures r.Ok? ==> 0 < nx && 0 < ny && 0 < nz && value.Range? && Rescale(g, value.range.min, value.range.max).Ok?
    ensures r.Ok? ==>
              var gs := Rescale(g, value.range.min, value.range.max).value;
              forall a, i, c :: 0 <= a < nx && 0 <= i < ny && 0 <= c < nz ==>
                r.value[a][i][c] == Reference + Increase(Sum(Column(gs, nx - 1 - a, c, nx, ny, nz)[1..i + 1]), res)
  {
    if !value.Range? then Err(GradientNotMinMax)
    else if nx == 0 || ny == 0 || nz == 0 then Err(EmptyGrid)
    else
      CellInCells(g, 0, 0, 0);
      var gs :- Rescale(g, value.range.min, value.range.max);
      RescaleShape(g, nx, ny, nz, value.range.min, value.range.max);
      Ok(IntegratePressure(gs, nx, ny, nz, res))
  }
}
