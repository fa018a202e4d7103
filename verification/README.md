# vampireman parameter variation, modelled in Dafny

VampireMan builds datasets of groundwater heat-pump simulations. A YAML settings
file becomes a `State`: general settings, the hydrogeological parameters and the
heat-pump parameters, and one seeded random generator. The preparation stage
expands heat-pump groups into single pumps and turns cell locations into
coordinates. The variation stage then derives one value per parameter for every
datapoint: copied, spread evenly between a minimum and a maximum, drawn at random,
or sampled from Perlin noise. The values of each parameter may then be shuffled
across the datapoints. For PFLOTRAN, the render stage writes the grid description
`mesh.uge` and the four border files `north.ex`, `east.ex`, `south.ex` and
`west.ex`. The validation stage checks that the mandatory parameters are present.

This project models that engine as pure functions over immutable data:

- `common.dfy`: the `Result` type. Each raised exception becomes a named `Failure`, and `Failure.Class()` gives its Python exception class.
- `dict.dfy`: insertion-ordered Python dicts as association lists, with `dict | dict` as `Union`.
- `random_stream.dfy`: the run's single generator as an explicit stream of samples in [0, 1). Each function takes the stream and returns what is left, and its contract says which samples it uses and how many it takes.
- `naming.dfy`: the names `f"{group}_{index}"` given to generated pumps.
- `fields.dfy`: three-dimensional numpy arrays as nested sequences.
- `data_structures.dfy`: the settings types, their validators, the defaults, `State` construction and `override_with`.
- `preparation_stage.dfy`: `generate_heatpumps`, `calculate_hp_coordinates`, `handle_time_based_params`, and the order the stage runs them in.
- `vary.dfy` and `vary_perlin.dfy`: the variation stage.
- `fisher_yates.dfy`: numpy's in-place shuffle, driven by its swap positions.
- `mesh.dfy`: `render_mesh` and `render_borders`, as header counts and records.
- `validation.dfy`: `validation_stage`.

Some behaviours of the source are kept as written and proved as such:

- **Perlin `pressure_gradient` always fails.** `create_perlin_field` passes a Perlin-noise `pressure_gradient` to `calc_pressure_from_gradient_field`. That function asserts a min/max value, so this path always fails (`VaryPerlin.PressureGradientPerlinAborts`).
- **The redraw loop never ends once two explicit pumps share a location.** In `generate_heatpumps`, the loop that redraws a generated pump's location runs until no two pumps share one. If two explicitly configured pumps already share a location and any group is present, no draw can end the loop (`PreparationStage.RedrawNeverEndsOnDuplicates`, `PreparationStage.DuplicateSinglePumpsBlockGroups`).
- **Naming clashes are only partly detected.** A clash is reported only when the generated name is a key of the original map and is already among the new pumps.
- **The file-path check does not enforce all-or-none.** The check named "all or none file paths" only restricts vary modes, because its all-or-none comparison is commented out (`DataStructures.FilePathsNeedNotBeAllOrNone`).
- **A degenerate grid gives a negative header.** The `CONNECTIONS` header of a grid with an empty axis is negative (`Mesh.MeshOfEmptyGrid`).
- **A zero draw lands outside the domain.** `ceil` of a sample that is exactly 0 gives cell 0. Its coordinate, `-res/2`, lies outside the domain, which is why `Vary.SpaceLocationInsideDomain` excludes zero draws.
- **Hydrogeological defaults are replaced, not merged.** The docstring of `State.hydrogeological_parameters` says a partial section is completed from the defaults. The code replaces the default dict wholesale, and the model follows the code: `DataStructures.NewState` keeps exactly the keys given. Only `override_with` merges.

`validation_stage` comes from the `vary_my_params` tree. Its `State` has the same `hydrogeological_parameters` and `heatpump_parameters` as VampireMan's, so it is modelled on the same `State` type.

## Model

| member | source | states |
|---|---|---|
| `Naming.GeneratedNameInjective` | vampireman/preparation_stage/preparation_stage.py:104 | Two generated names are equal only for the same group and the same index, because the decimal index contains no underscore. |
| `Naming.GeneratedNamesDiffer` | vampireman/preparation_stage/preparation_stage.py:103-104 | Different (group, index) pairs give different pump names. |
| `DataStructures.MakeValue3d` | vampireman/data_structures.py:25-40 | A two-element value gets a third element 1. A three-element value is unchanged. Every other length fails with `ValueError`. The original elements are kept as a prefix. |
| `DataStructures.MakeValue3dIdempotent` | vampireman/data_structures.py:25-40 | Applying `make_value_3d` to its own result changes nothing. |
| `DataStructures.MinMax.SampleDown` | vampireman/variation_stage/vary.py:139-149 | `max - r*(max-min)` with `r` in [0, 1) lies in (min, max] when min < max, within [min, max] when min <= max, and is `max` for `r = 0`. |
| `DataStructures.NewMinMax` | vampireman/data_structures.py:127-135 | A `ValueMinMax` is accepted exactly when min <= max and keeps both bounds. |
| `DataStructures.NewPerlin` | vampireman/data_structures.py:204-222 | A `ValuePerlin` is accepted exactly when a list frequency has 2 or 3 entries and min <= max. A two-entry frequency is made three-dimensional. |
| `DataStructures.NewHeatPump` | vampireman/data_structures.py:255-262 | A missing location is accepted as is. A given location must have 2 or 3 entries and comes out with 3. The injection values are kept. |
| `DataStructures.NewHeatPumps` | vampireman/data_structures.py:279 | A group is accepted exactly when `number` is a positive integer. |
| `DataStructures.NewParameter` | vampireman/data_structures.py:337-350 | A parameter is rejected exactly when it is a heat pump without a location whose vary mode is not SPACE. All fields are kept otherwise. |
| `DataStructures.DefaultStateShape` | vampireman/data_structures.py:551-613 | The defaults are four fixed float hydrogeological parameters, in order, and one fixed pump `hp1` at [16, 32, 1]. Both maps are keyed by name, and there are no datapoints. |
| `DataStructures.DefaultsNamedAfterKeys` | vampireman/data_structures.py:558-602 | Every default parameter carries its key as its name. |
| `DataStructures.PutParameterNames` | vampireman/data_structures.py:630-640 | Every parameter's name is overwritten with its key. The keys and everything else are untouched. |
| `DataStructures.ValidateParameters` | vampireman/data_structures.py:337-350 | A section validates exactly when every parameter passes `NewParameter`, and otherwise fails with the location error. The result holds those parameters under the same keys, in order. |
| `DataStructures.CheckAllOrNoneFilePaths` | vampireman/data_structures.py:651-689 | The check passes exactly when a Path-valued `permeability` is FIXED or LIST and a Path-valued `pressure_gradient` or `temperature` is FIXED. Each check has its error, reported in that order. |
| `DataStructures.FilePathsNeedNotBeAllOrNone` | vampireman/data_structures.py:683-687 | A state in which only `permeability` is a file passes the check. |
| `DataStructures.BuildSection` | vampireman/data_structures.py:558-611 | An absent section takes the defaults. A given section is accepted exactly when every parameter passes `NewParameter` under its key; it then keeps its keys in order, and each parameter is named after its key and keeps its value, distribution and vary mode. |
| `DataStructures.NewState` | vampireman/data_structures.py:630-699 | Settings with `datapoints` are refused. Otherwise construction succeeds exactly when both sections are accepted and the built hydrogeological section passes the file-path check. A built state has the given general settings or the defaults, each section as given (keys, order, value, distribution and vary mode, named after its key) or the defaults, no datapoints and the freshly seeded generator. |
| `DataStructures.OverrideWithMerge` | vampireman/data_structures.py:701-712 | `override_with` takes the general settings, heat pumps, datapoints and generator from the other state. It merges the hydrogeological parameters: the other state's entries win, the remaining old entries stay, and the old keys keep their positions. |
| `FisherYates.Shuffle` | vampireman/variation_stage/vary.py:206 | The shuffled list is a permutation of the original (equal multisets). |
| `FisherYates.ShuffleNoSwaps` | vampireman/variation_stage/vary.py:206 | The swap positions that pair every position with itself leave the list unchanged. |
| `VaryPerlin.LargestAxis` | vampireman/variation_stage/vary_perlin.py:29 | The largest cell count is one of the three counts and at least each of them. |
| `VaryPerlin.AxisScale` | vampireman/variation_stage/vary_perlin.py:29-30 | Each axis scale lies in (0, 1] and equals 1 exactly on the longest axes. |
| `VaryPerlin.NoiseCoordinateInCube` | vampireman/variation_stage/vary_perlin.py:38-40 | Before the frequency is applied, grid index `i` of `n` maps into [offset, offset + scale). |
| `VaryPerlin.RawGrid` | vampireman/variation_stage/vary_perlin.py:33-42 | The sampled noise grid has the shape of the cell counts and at least one cell. |
| `VaryPerlin.RescaleValue` | vampireman/variation_stage/vary_perlin.py:48-49 | The current minimum maps to the aimed minimum and the current maximum to the aimed maximum. Values in between stay within the aimed range. |
| `VaryPerlin.RescaleValueMonotone` | vampireman/variation_stage/vary_perlin.py:48-49 | The linear rescaling keeps the order of values. |
| `VaryPerlin.Rescale` | vampireman/variation_stage/vary_perlin.py:44-49 | The result keeps the grid's shape, sends its minimum and maximum cells to the aimed bounds, and keeps every cell within them. A grid whose cells are all equal yields NaN, reported as `ConstantNoise`. |
| `VaryPerlin.RescaleAttainsBounds` | vampireman/variation_stage/vary_perlin.py:44-49 | Some cell of the rescaled grid equals the aimed minimum and some cell equals the aimed maximum. |
| `VaryPerlin.RescalePreservesOrder` | vampireman/variation_stage/vary_perlin.py:44-49 | If one cell is at most another before rescaling, it still is after. |
| `VaryPerlin.MakePerlinGrid` | vampireman/variation_stage/vary_perlin.py:10-51 | A frequency list shorter than 3 fails on indexing. An empty grid has no minimum. Otherwise the grid has the cell counts' shape, and every cell lies in [aimed min, aimed max]. |
| `VaryPerlin.FrequencyFactors` | vampireman/variation_stage/vary_perlin.py:60-73 | A frequency list is used as given and takes no draw. A range takes three draws, each sampled down from max and within [min, max]. |
| `VaryPerlin.BaseOffset` | vampireman/variation_stage/vary_perlin.py:55 | The offsets are the next three samples, in order, each times 4242, so each lies in [0, 4242); three samples are consumed. |
| `VaryPerlin.PerlinCells` | vampireman/variation_stage/vary_perlin.py:78-94 | The sampled field has the grid's shape. A linear parameter is the noise grid between its min and max; a logarithmic one is the grid sampled between the log10 of its bounds with every cell raised to the power of ten, failing exactly when that grid fails. |
| `VaryPerlin.PerlinCellsWithinRange` | vampireman/variation_stage/vary_perlin.py:78-94 | Every sampled cell lies within the parameter's [min, max]. For a logarithmic parameter this assumes the logarithm laws and a positive minimum. |
| `VaryPerlin.CreatePerlinField` | vampireman/variation_stage/vary_perlin.py:54-99 | A value that is not Perlin noise fails after the three offset draws. For Perlin noise the cells are sampled with the offsets from the first three samples and the frequency factors from the stream after them, and the field continues after 3 samples, or 6 with a frequency range; it has the grid's shape. A Perlin `pressure_gradient` never succeeds. |
| `VaryPerlin.FieldFromCells` | vampireman/variation_stage/vary_perlin.py:78-99 | A failed sampling is passed on unchanged; sampled cells become the field that `PerlinFieldOf` makes of them, on the stream given. |
| `VaryPerlin.PerlinDrawOrder` | vampireman/variation_stage/vary_perlin.py:55-76 | With a frequency range, samples 0 to 2 are the offsets (times 4242), samples 3 to 5 the frequency factors, and the field starts after the sixth sample. |
| `VaryPerlin.PerlinFieldOf` | vampireman/variation_stage/vary_perlin.py:96-99 | Only `pressure_gradient` is integrated into a pressure field, and without a min/max value that fails with the assertion's error. Any other field passes unchanged, with the stream left as it was. |
| `VaryPerlin.PerlinFieldWithinRange` | vampireman/variation_stage/vary_perlin.py:54-99 | Every cell of a Perlin field lies within the parameter's [min, max]. |
| `VaryPerlin.PressureGradientPerlinAborts` | vampireman/variation_stage/vary_perlin.py:96-114 | A Perlin-varied `pressure_gradient` always fails, and the reason is one of four named failures. |
| `VaryPerlin.CreateConstField` | vampireman/variation_stage/vary_perlin.py:102-105 | A scalar, or an array of one entry, fills every cell. A larger array is reshaped in C order and needs exactly one entry per cell. |
| `VaryPerlin.Accumulate` | vampireman/variation_stage/vary_perlin.py:128-131 | A column starts at 101325 Pa, and each later cell adds its gradient times the resolution times 1000 to the previous cell. |
| `VaryPerlin.AccumulateClosedForm` | vampireman/variation_stage/vary_perlin.py:128-131 | Cell `i` of a column holds 101325 plus the increase of the gradients of cells 1..i summed. |
| `VaryPerlin.IntegratePressure` | vampireman/variation_stage/vary_perlin.py:128-132 | The pressure has the field's shape, the reference value on the first y-layer, and the closed form along y, with the x axis reversed. |
| `VaryPerlin.CalcPressureFromGradientField` | vampireman/variation_stage/vary_perlin.py:108-134 | A value that is not min/max fails the assertion. Otherwise the gradients are rescaled to [min, max], then integrated along y from the reference pressure, with x reversed. |
| `Vary.DrawnCell` | vampireman/variation_stage/vary.py:159-161 | `ceil(r*n)` for a sample `r` lies in 1..n, or is 0 when `r` is 0. |
| `Vary.GenerateHeatpumpLocation` | vampireman/variation_stage/vary.py:154-161 | Three draws give a three-cell location, one draw per axis in order, each within 0..cells on a valid stream. |
| `Vary.CellCentreInCell` | vampireman/variation_stage/vary.py:50 | The coordinate of 1-based cell `c` lies strictly inside that cell, and the conversion is injective. |
| `Vary.ToCoordinates` | vampireman/variation_stage/vary.py:50 | Each cell index becomes the coordinate of that cell's centre. |
| `Vary.DrawSeries` | vampireman/variation_stage/vary.py:139-149 | Time steps and plain values are kept. Each range becomes a value sampled from the next sample, in order. As many samples are consumed as there are ranges. |
| `Vary.HandleHeatpumpValues` | vampireman/variation_stage/vary.py:128-151 | The call fails exactly when an injection value is not a time series. Otherwise every range is drawn: temperatures first, then rates, with units and location kept. |
| `Vary.HandledValuesWithinRange` | vampireman/variation_stage/vary.py:139-149 | Every drawn value lies within the range it was drawn from. |
| `Vary.HandleHeatpumpValuesIdempotent` | vampireman/variation_stage/vary.py:128-151 | A pump without ranges is returned unchanged, and no sample is consumed. |
| `Vary.VaryHeatpump` | vampireman/variation_stage/vary.py:34-59 | The values are drawn first. With SPACE, three more draws give a new location at a cell centre. Otherwise the location is kept. The draws consumed are counted exactly. |
| `Vary.SpaceLocationInsideDomain` | vampireman/variation_stage/vary.py:46-50 | A location varied in space lies strictly inside the domain on every axis, unless a draw was exactly 0. |
| `Vary.CopyParameter` | vampireman/variation_stage/vary.py:24-31 | A heat pump goes through `vary_heatpump`. Any other value is copied unchanged, and the stream is untouched. |
| `Vary.ConstValue` | vampireman/variation_stage/vary.py:74-93 | The value for datapoint `index` lies on the even ramp from min to max, taken in log10 space for LOG. A single datapoint fails: by ZeroDivisionError for UNIFORM, by NaN for LOG. |
| `Vary.RampEndpoints` | vampireman/variation_stage/vary.py:83-85 | The ramp starts at min on datapoint 0 and ends at max on the last datapoint. |
| `Vary.RampEvenSteps` | vampireman/variation_stage/vary.py:83-85 | Consecutive datapoints differ by (max-min)/(n-1). |
| `Vary.RampMonotone` | vampireman/variation_stage/vary.py:83-85 | The ramp does not decrease and stays within [min, max] over the datapoints. |
| `Vary.ConstValueRamp` | vampireman/variation_stage/vary.py:74-93 | The CONST values run from min to max without decreasing, also in LOG mode given the logarithm laws. |
| `Vary.VaryParameter` | vampireman/variation_stage/vary.py:62-125 | This is the dispatch for every (vary, value) pair: FIXED copies, CONST ramps a min/max, and SPACE builds a Perlin field or places a pump. Each remaining case fails with the source's error, and LIST has no branch. A success names the datum after the parameter and takes exactly the parameter's own number of samples (`Draws`). |
| `Vary.VaryData` | vampireman/variation_stage/vary.py:171-177 | A datapoint's data succeed exactly when every parameter varies successfully on the stream the parameters before it left. They take the sum of the parameters' samples. With distinct names, each name holds the datum that varying its parameter on that stream gives, the keys come in parameter order, and every other key is untouched. |
| `Vary.VaryDataAt` | vampireman/variation_stage/vary.py:175-177 | With distinct names, the entry under parameter `t`'s name is exactly the datum `vary_parameter` returns for that parameter, on the stream the parameters before it left. |
| `Vary.Thread` | vampireman/variation_stage/vary.py:175-177 | The same inner loop over any step that takes a parameter's own samples and names its datum: it succeeds iff every step does on its own stream, consumes the sum of the draws, stores each step's datum under its name, and leaves other keys alone. |
| `Vary.VaryStepFaithful` | vampireman/variation_stage/vary.py:62-125 | Every successful `vary_parameter` takes exactly its parameter's samples and yields a datum named after the parameter, on any stream. |
| `Vary.VaryDatapoints` | vampireman/variation_stage/vary.py:170-179 | The loop succeeds exactly when every datapoint's data succeed on the stream the datapoints before it left. Datapoint `m` is numbered `index + m` and holds those data, keyed by the parameter names. The loop consumes the samples of all its datapoints. |
| `Vary.Repeat` | vampireman/variation_stage/vary.py:170-179 | Over any step taking `d` samples per datapoint: success iff every datapoint's step succeeds on the stream after the `m` before it; `Count * d` samples consumed; datapoint `m` has index `index + m` and that step's data, which pass the step's check. |
| `Vary.DataStepSteady` | vampireman/variation_stage/vary.py:171-177 | One datapoint's data take exactly the parameters' samples, keep their names and keys, and hold each parameter varied on its own stream. |
| `Vary.DatapointsHold` | vampireman/variation_stage/vary.py:170-179 | With distinct names, datapoint `index + m` holds every parameter varied for that index on the stream left by the `m` datapoints before it. |
| `Vary.DatapointHolds` | vampireman/variation_stage/vary.py:170-177 | Under the name of parameter `t`, datapoint `m` holds exactly what `vary_parameter` gives for that parameter and index, on the stream after the `m` datapoints before it and the `t` parameters before it. |
| `Vary.ConstDatapoint` | vampireman/variation_stage/vary.py:74-93 | For a CONST min/max parameter, datapoint `m` holds step `m` of the ramp, whatever the other parameters draw; the datapoint count is not 1. |
| `Vary.ConstColumnOf` | vampireman/variation_stage/vary.py:170-179 | Across all the datapoints, a CONST min/max parameter's values are its ramp, in datapoint order. |
| `Vary.ShuffledColumns` | vampireman/variation_stage/vary.py:197-206 | Each parameter's column of values is collected across the datapoints and shuffled with its own swap positions. |
| `Vary.ShuffleDatapoints` | vampireman/variation_stage/vary.py:188-212 | Shuffling no datapoints fails on indexing. Otherwise the datapoints keep their count, indices and keys. |
| `Vary.ShuffledColumn` | vampireman/variation_stage/vary.py:197-210 | After the shuffle, each parameter's values across the datapoints are its old values shuffled. |
| `Vary.ShufflePermutesValues` | vampireman/variation_stage/vary.py:197-210 | The shuffle keeps each parameter's values as a multiset: they are only redistributed. |
| `Dict.PutAll` | vampireman/variation_stage/vary.py:208-210 | Writing one value under each of a list of distinct names that are already keys keeps the keys, in order, and leaves every name holding its own value. |
| `Vary.VaryParams` | vampireman/variation_stage/vary.py:164-185 | Parameters are unchanged. It succeeds exactly when the datapoint loop succeeds and it is not asked to shuffle zero datapoints. There is one datapoint per requested index, each holding the merged parameters' keys, and the stream is what the loop left. Without shuffling, the datapoints are exactly the varied ones; with it, each parameter's column is the varied column shuffled by that parameter's swap positions. |
| `Vary.ConstParameterRamp` | vampireman/variation_stage/vary.py:164-212 | A CONST min/max parameter's values across the datapoints are a permutation of its ramp from min to max, and exactly the ramp in order when shuffling is off. |
| `Vary.VaryParamsPermutes` | vampireman/variation_stage/vary.py:188-212 | Every parameter's values across the datapoints are a permutation of the values the loop varied for it. |
| `Vary.VaryMerged` | vampireman/variation_stage/vary.py:170-185 | Over a merged map whose keys are distinct and name their parameters, it succeeds exactly when the datapoint loop does and it is not asked to shuffle zero datapoints. There is one datapoint per requested index, numbered from 0 and holding the map's keys. Without shuffling they are exactly the varied datapoints; with it, each key's column is the varied column shuffled by its own swap positions. |
| `Vary.MaybeShuffle` | vampireman/variation_stage/vary.py:181-182 | Without the flag the datapoints are returned as they are. With it, the result is `shuffle_datapoints` of them: only an empty list fails, every datapoint keeps its index and keys, and each key's column is the old column shuffled by that key's swap positions. |
| `Vary.ShuffledKeys` | vampireman/variation_stage/vary.py:197-210 | On datapoints that share distinct keys, the `k`-th key's values after the shuffle are its values before, shuffled with the `k`-th swap positions. |
| `Vary.ShuffledByPermutes` | vampireman/variation_stage/vary.py:206 | A column-wise shuffle keeps every key's values as a multiset. |
| `Vary.MergedWellFormed` | vampireman/variation_stage/vary.py:175 | `hydro | heatpumps` keeps keys unique, and every parameter stays named after its key. |
| `PreparationStage.Redraw` | vampireman/preparation_stage/preparation_stage.py:122-127 | The loop ends only on a location that is not taken, and keeps a location that is free. It stays within the grid, and fails whenever duplicates already exist. |
| `PreparationStage.RedrawNeverEndsOnDuplicates` | vampireman/preparation_stage/preparation_stage.py:122-127 | Once two placed pumps share a location, every new location still leaves a duplicate, so the loop cannot end. |
| `PreparationStage.GenNames` | vampireman/preparation_stage/preparation_stage.py:103-104 | The names of a group are `<group>_<index>` for each index from the start up to `number - 1`. |
| `PreparationStage.GroupEntry` | vampireman/preparation_stage/preparation_stage.py:104-133 | A generated pump takes its name from the index, its vary mode and injection values from the group, and gets the drawn location. |
| `PreparationStage.ExpandGroup` | vampireman/preparation_stage/preparation_stage.py:103-133 | Expanding one group either reports a clash or appends exactly the group's names, in order, generated from the group. The keys already present are kept. |
| `PreparationStage.ExpandGroups` | vampireman/preparation_stage/preparation_stage.py:96-133 | Any entry that is neither a pump nor a group is refused. Otherwise every group is expanded, in map order, after the pumps already placed, and each generated entry takes its vary mode and injection values from the group whose generated names include its key. |
| `PreparationStage.AllGenNamesDistinct` | vampireman/preparation_stage/preparation_stage.py:103-104 | In a map keyed by name, no two generated pumps get the same name. |
| `PreparationStage.ExplicitEntries` | vampireman/preparation_stage/preparation_stage.py:91-94 | The first loop collects every single pump, under its name, and nothing else. |
| `PreparationStage.GenerateHeatpumps` | vampireman/preparation_stage/preparation_stage.py:80-142 | The result is the single pumps followed by the generated ones, with the groups dropped. Every generated pump inherits vary mode and injection values from its own group, the one whose `<group>_<t>` names include its key. Every entry is a pump and names equal keys. The result has no duplicate locations once a group was placed. |
| `PreparationStage.GroupOfNameUnique` | vampireman/preparation_stage/preparation_stage.py:103-104 | In a map keyed by name, a generated name belongs to one group only, so the group a generated pump inherits from is determined by its name. |
| `PreparationStage.DuplicateSinglePumpsBlockGroups` | vampireman/preparation_stage/preparation_stage.py:113-127 | Two single pumps at the same location plus at least one group means no expansion succeeds. |
| `PreparationStage.MoveToCentre` | vampireman/preparation_stage/preparation_stage.py:61-75 | A pump's cell location is replaced by its cell-centre coordinates. A missing location stays missing, and everything else is kept. |
| `PreparationStage.CalculateHpCoordinates` | vampireman/preparation_stage/preparation_stage.py:57-77 | The step fails exactly when some entry is not a single pump. Otherwise every entry is moved to its cell centre, in order. |
| `PreparationStage.CellCentreInverse` | vampireman/preparation_stage/preparation_stage.py:73 | The conversion to coordinates can be undone: `coord/res + 0.5` gives the cell back. |
| `PreparationStage.CoordinatesExample` | vampireman/tests/test_prepare_parameters.py:15-41 | Cell [16, 32, 1] lies at [15.5, 31.5, 0.5] with resolution 1 and at [77.5, 157.5, 2.5] with resolution 5. |
| `PreparationStage.AsSeries` | vampireman/preparation_stage/preparation_stage.py:49-52 | A time series is kept. A range or a number becomes a one-entry series at time 0, in the unit "year". |
| `PreparationStage.WrapEntry` | vampireman/preparation_stage/preparation_stage.py:47-52 | Both injection values of a pump become time series. Its name, location and modes are kept. |
| `PreparationStage.HandleTimeBasedParams` | vampireman/preparation_stage/preparation_stage.py:44-54 | The step fails exactly when some entry is not a single pump. Otherwise every entry is wrapped, in order. |
| `PreparationStage.HandleTimeBasedParamsIdempotent` | vampireman/preparation_stage/preparation_stage.py:44-54 | Wrapping an already wrapped map changes nothing. |
| `PreparationStage.Prepare` | vampireman/preparation_stage/preparation_stage.py:32-41 | The stage fails exactly when the expansion fails. Otherwise each generated pump is moved to its cell centre and then wrapped, in order. The result is only pumps with time-series values, keyed by name. |
| `PreparationStage.PlaceAndWrap` | vampireman/preparation_stage/preparation_stage.py:39-40 | On a map of single pumps keyed by name, neither later step fails. Each pump is moved to its cell centre and then wrapped, in order, and the keys and names stay. |
| `PreparationStage.PrepareMovesExplicitPumpOnce` | vampireman/preparation_stage/preparation_stage.py:38-75 | A single pump configured at a cell ends up at that cell's centre, converted exactly once. |
| `PreparationStage.NameClashRefused` | vampireman/tests/test_prepare_parameters.py:72-92 | A pump named `hp_0` next to a group `hp` of one pump makes the stage fail. |
| `Mesh.IdInRange` | vampireman/pflotran/render_stage/pflotran_generate_mesh.py:59 | Every cell of the grid has an id between 1 and the number of cells. |
| `Mesh.IdInjective` | vampireman/pflotran/render_stage/pflotran_generate_mesh.py:59 | Different cells have different ids. |
| `Mesh.CellAt` | vampireman/pflotran/render_stage/pflotran_generate_mesh.py:47-57 | A cell record carries its id, the centre `(i+0.5)·res`, `(j+0.5)·res`, `(k+0.5)·res` on all three axes, each strictly inside the cell's extent along that axis, and the volume res³. |
| `Mesh.XFace` | vampireman/pflotran/render_stage/pflotran_generate_mesh.py:60-65 | An x face joins a cell to its x neighbour, lies halfway between their centres and has area res². |
| `Mesh.YFace` | vampireman/pflotran/render_stage/pflotran_generate_mesh.py:66-71 | A y face joins a cell to its y neighbour, lies halfway between their centres and has area res². |
| `Mesh.ZFace` | vampireman/pflotran/render_stage/pflotran_generate_mesh.py:72-77 | A z face joins a cell to its z neighbour, lies halfway between their centres and has area res². |
| `Mesh.RenderMesh` | vampireman/pflotran/render_stage/pflotran_generate_mesh.py:40-43 | The headers declare nx·ny·nz cells and (nx-1)·ny·nz + nx·(ny-1)·nz + nx·ny·(nz-1) connections. |
| `Mesh.MeshCellsNumbered` | vampireman/pflotran/render_stage/pflotran_generate_mesh.py:45-57 | The mesh lists exactly as many cells as declared, numbered 1, 2, … in order. |
| `Mesh.MeshCellAt` | vampireman/pflotran/render_stage/pflotran_generate_mesh.py:45-59 | The record listed for id `i+1+j·nx+k·nx·ny` is the cell at (i, j, k), so the running counter and the computed id agree. |
| `Mesh.MeshFacesCounted` | vampireman/pflotran/render_stage/pflotran_generate_mesh.py:40-77 | The mesh lists exactly as many connections as declared. |
| `Mesh.MeshOfEmptyGrid` | vampireman/pflotran/render_stage/pflotran_generate_mesh.py:40-43 | A grid with no cells along x lists nothing, yet declares -1 connections. |
| `Mesh.MeshFacesJoinNeighbours` | vampireman/pflotran/render_stage/pflotran_generate_mesh.py:59-77 | Every listed connection is the face between two neighbouring cells of the grid. |
| `Mesh.NeighbourIds` | vampireman/pflotran/render_stage/pflotran_generate_mesh.py:59-77 | A face joins ids `a < b` of the grid, with `b` equal to a+1, a+nx or a+nx·ny. |
| `Mesh.MeshHasEveryFace` | vampireman/pflotran/render_stage/pflotran_generate_mesh.py:47-77 | Every face between two neighbouring cells is listed. |
| `Mesh.MeshExample` | vary_my_params/tests/test_render.py:41-47 | A 32×64×2 grid has 4096 cells and 10048 connections, listed and declared. |
| `Mesh.NorthAt` | vampireman/pflotran/render_stage/pflotran_generate_mesh.py:104-106 | A north record names the last cell along y and lies half a cell beyond its centre. |
| `Mesh.SouthAt` | vampireman/pflotran/render_stage/pflotran_generate_mesh.py:105-107 | A south record names the first cell along y and lies half a cell before its centre. |
| `Mesh.EastAt` | vampireman/pflotran/render_stage/pflotran_generate_mesh.py:111-113 | An east record names the last cell along x and lies half a cell beyond its centre. |
| `Mesh.WestAt` | vampireman/pflotran/render_stage/pflotran_generate_mesh.py:112-114 | A west record names the first cell along x and lies half a cell before its centre. |
| `Mesh.RenderBorders` | vampireman/pflotran/render_stage/pflotran_generate_mesh.py:88-92 | North and south declare nx·nz connections. East and west declare ny·nz. |
| `Mesh.BordersCounted` | vampireman/pflotran/render_stage/pflotran_generate_mesh.py:88-114 | Each border file lists exactly as many records as it declares. |
| `Mesh.NorthSouthAt` | vampireman/pflotran/render_stage/pflotran_generate_mesh.py:99-107 | Record `k·nx+i` of the north and south files belongs to the boundary cell at column i of layer k, and that cell is inside the grid. |
| `Mesh.EastWestAt` | vampireman/pflotran/render_stage/pflotran_generate_mesh.py:99-114 | Record `k·ny+j` of the east and west files belongs to the boundary cell at row j of layer k, and that cell is inside the grid. |
| `Mesh.BorderPlanes` | vampireman/pflotran/render_stage/pflotran_generate_mesh.py:94-97 | Every south record lies on y = 0 and every north record on y = ny·res. Every west record lies on x = 0 and every east record on x = nx·res. |
| `Mesh.BordersExample` | vary_my_params/tests/test_render.py:17-39 | A 32×64×2 grid has 64 north and south records and 128 east and west records. |
| `Validation.HeatPumpEntries` | vary_my_params/validation_stage/utils.py:24-26 | The count of pumps and groups is zero exactly when the map holds neither. |
| `Validation.ValidationStage` | vary_my_params/validation_stage/utils.py:8-30 | Validation fails exactly when `permeability`, `pressure_gradient` or `temperature` is missing. The state passes unchanged, and the "no heat pumps" error message is logged (a flag, not a failure) exactly when there is no pump or group. |
| `Validation.ValidationReportsFirstMissing` | vary_my_params/validation_stage/utils.py:16-21 | The missing parameters are checked in the order permeability, pressure_gradient, temperature. Each is a `ValueError`. |
| `Validation.HeatPumpsOnlyLogged` | vary_my_params/validation_stage/utils.py:23-27 | Heat pumps never decide the outcome, whatever is logged about them: states with the same hydrogeological parameters pass or fail together. |
| `Validation.ValidationIdempotent` | vary_my_params/validation_stage/utils.py:29-30 | Validating a validated state again gives the same verdict. |

## Left out

- `read_in_files`, `create_dataset_and_datapoint_dirs`, `write_mesh_and_border_files`, `write_lines_to_file` and all logging are file-system I/O and are not modelled. The "no heat pumps" log message of `validation_stage` is a flag in the result.
- `are_duplicate_locations_in_heatpumps` is not part of this model. Its meaning is assumed: two pumps share a location, and pumps without a location take no part.
- `noise.pnoise3`, `np.log10` and `10**x` are parameters of the model (`VaryPerlin.Env`). Properties of logarithmic parameters assume the laws stated by `VaryPerlin.LogLaws`.
- Floating point is modelled with real numbers, so rounding is not modelled. numpy's NaN results, from a constant noise grid or from a LOG CONST parameter with one datapoint, are reported as failures, because a real cannot hold NaN.
- The mesh and border files are modelled as header counts and records. The text formatting of numbers is not modelled.
- The seeding of the generator (`instantiate_random_number_generator`) is not modelled. The stream of samples is an input, and so are the draws of `Generator.shuffle`: the shuffle takes its swap positions as a witness instead of drawing them from the run's stream.
- `PreparationStage.Redraw`: the source's redraw loop is unbounded. The model bounds it by a `fuel` count of redraws, and running out is reported as `RedrawFuelExhausted`, which the source never raises.
- `Vary.VaryParams`: requires a state without datapoints, as the pipeline calls it. The source would append to existing datapoints.
- `VaryPerlin.CreateConstField`: requires positive cell counts. numpy's handling of zero-size or negative shapes is not modelled.
- `DataStructures.NewState`: takes the general settings already validated. The `number_cells` validator is modelled by `DataStructures.MakeValue3d`, and the other `GeneralConfig` fields are not modelled.
- The order in which pydantic runs the "before" validators is fixed in `DataStructures.NewState`: `datapoints` is checked first. Pydantic's revalidation on assignment is not modelled.
- The final loop of `generate_heatpumps` looks for `HeatPumps` values in the new dict. Only `Parameter` objects are ever stored there, so the check can never fire, and it is not modelled.
- `Data.value` uses the same value type as `Parameter.value`. Pydantic coercion of a `Data` is not modelled.
- The other modules of `vary_my_params`, an older copy of the same engine, are not modelled, apart from its `validation_stage`.
