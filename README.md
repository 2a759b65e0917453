# a2e buoy ingest: raw-dataset customisation hook

This project models `Pipeline.hook_customize_raw_datasets` of the a2e buoy
ingest pipeline (`lambda_function/pipelines/a2e_buoy_ingest/pipeline.py`).
The hook receives a dict from raw file name to xarray Dataset. It rewrites
each entry in place according to substrings of the file name:

- `"surfacetemp"`: the variable `Surface Temperature (C)` is renamed to
  `surfacetemp - Surface Temperature (C)`;
- `"gill"`: `Horizontal Speed (m/s)` and `Horizontal Direction (deg)` are
  renamed to `gill_horizontal_wind_speed` and `gill_horizontal_wind_direction`;
- `"currents"`: bins `Vel{k} (mm/s)` / `Dir{k} (deg)` are scanned for
  k = 1, 2, ... while both exist. A `depth` axis 4, 8, ..., 4n is built, the
  time variable and `depth` become coordinates, and the bins are stacked into
  `current_speed` and `current_direction`, both indexed (time, depth).

Every branch starts from the dataset the loop read for that file. Only the
currents branch rebinds it, and only after it has read it. So when a name
holds several tags, the stored value is the last matching branch applied to
the original dataset.

Layout:

- `results.dfy` (`Results`): the `Result` type for "returns or raises".
- `text.dfy` (`Text`): Python's substring test and the decimal rendering of
  an integer in an f-string, with its injectivity.
- `datasets.dfy` (`Datasets`): a Dataset as a map from variable name to
  variable (dimension names and data) plus the set of coordinate names.
  Also `rename_vars`, `set_coords` and `dataset[name] = ...`.
- `currents.dfy` (`Currents`): the bin scan as a `while` loop (`ScanBins`).
  Its specification functions are `BinCount`, `DepthAxis` and `Column`. It
  also holds the stacking and transpose (`Stacked`) and the whole currents
  branch (`AddCurrents`, implemented by `AddCurrentProfile`).
- `pipeline.dfy` (`BuoyPipeline`): the dict as a class
  `RawDatasetMapping` that keeps keys in insertion order, and the class
  `Pipeline` with `HookCustomizeRawDatasets`. That method's loop updates
  the dict in place. It is proved against `Customized`, a function giving
  the dict after the loop, or the dict as the loop left it when a branch
  raised. `Customized` is stated for any per-file visit; the pipeline's
  visit is `VisitFile`, the three branches applied to one file.

The model's currents branch raises in two cases. With no bin at all, the
stacked array is one-dimensional and cannot carry the dims (time, depth).
When the bins of one quantity are not series of one common length, the
stacked array cannot carry those dims either: ragged bins fail when numpy
stacks them, and bins that are grids of one common shape stack into a
three-dimensional array that fails when it is placed under the two dims
(pipeline.py:97-98). The source also raises in cases the model does not
check; the "Dimension sizes" and `Datasets.SetCoord` lines under
"## Left out" name them. When it raises, the entries already visited keep their new values. The failing entry
keeps the value of its last successful branch. The model states this
partial update exactly.

## Model

| member | source | states |
|---|---|---|
| `Text.ContainsInfix` | lambda_function/pipelines/a2e_buoy_ingest/pipeline.py:59-71 | a tag placed anywhere inside a file name is found by the substring test that chooses a branch |
| `Text.NatToString` | lambda_function/pipelines/a2e_buoy_ingest/pipeline.py:74-75 | the bin label in `Vel{index+1}` is a non-empty run of decimal digits, a single digit exactly for numbers below 10 |
| `Text.NatToStringInjective` | lambda_function/pipelines/a2e_buoy_ingest/pipeline.py:74-75 | different bin numbers render as different labels |
| `Text.AffixedNumberInjective` | lambda_function/pipelines/a2e_buoy_ingest/pipeline.py:74-75 | two bin variable names with the same prefix and unit suffix are equal only for the same bin number |
| `Datasets.RenameVar` | lambda_function/pipelines/a2e_buoy_ingest/pipeline.py:62 | after a rename the old name is gone, the new name holds the old variable with its coordinate status, and every other name keeps its variable and status |
| `Datasets.RenameVarRoundTrip` | lambda_function/pipelines/a2e_buoy_ingest/pipeline.py:62 | renaming to a fresh name and back restores the dataset |
| `Currents.VelocityNamesCount` | lambda_function/pipelines/a2e_buoy_ingest/pipeline.py:74-75 | the velocity names of the first m bins are m distinct names |
| `Currents.BinsBounded` | lambda_function/pipelines/a2e_buoy_ingest/pipeline.py:79-85 | a dataset with m complete bins has at least m variables, so the scan stops |
| `Currents.BinCountFrom` | lambda_function/pipelines/a2e_buoy_ingest/pipeline.py:81-85 | scanning from a complete prefix ends at an index whose bin is incomplete, with every bin before it complete |
| `Currents.BinCount` | lambda_function/pipelines/a2e_buoy_ingest/pipeline.py:73-85 | the bin count n has both variables for every k < n and lacks one of `Vel{n+1} (mm/s)` or `Dir{n+1} (deg)` |
| `Currents.BinCountIsLeast` | lambda_function/pipelines/a2e_buoy_ingest/pipeline.py:81 | the bin count is the least index whose bin is incomplete |
| `Currents.DepthAxis` | lambda_function/pipelines/a2e_buoy_ingest/pipeline.py:82 | the depth list has one entry per bin |
| `Currents.DepthAxisAt` | lambda_function/pipelines/a2e_buoy_ingest/pipeline.py:82 | the depth of bin k is 4(k+1) |
| `Currents.DepthAxisShape` | lambda_function/pipelines/a2e_buoy_ingest/pipeline.py:82-87 | the depth axis is strictly increasing and every entry is a positive multiple of 4 |
| `Currents.DepthIdentifiesBin` | lambda_function/pipelines/a2e_buoy_ingest/pipeline.py:82 | a depth value determines its bin index (depth/4 - 1) |
| `Currents.AsSamples` | lambda_function/pipelines/a2e_buoy_ingest/pipeline.py:87 | the stored depth axis has the same length and the same values as the integer list |
| `Currents.Column` | lambda_function/pipelines/a2e_buoy_ingest/pipeline.py:83-84 | the collected data of a quantity has one entry per bin |
| `Currents.ColumnAt` | lambda_function/pipelines/a2e_buoy_ingest/pipeline.py:83-84 | entry k of the collected data is the data of variable `Vel{k+1} (mm/s)` or `Dir{k+1} (deg)` |
| `Currents.ColumnUniform` | lambda_function/pipelines/a2e_buoy_ingest/pipeline.py:83-89 | the collected data can be stacked exactly when the bin variables themselves are series of one common length |
| `Currents.ScanBins` | lambda_function/pipelines/a2e_buoy_ingest/pipeline.py:73-85 | the loop ends at the least incomplete bin n; depth, vel_data and dir_data all have length n; depth[k] = 4(k+1); vel_data[k] and dir_data[k] are the data of bin k |
| `Currents.TransposeShape` | lambda_function/pipelines/a2e_buoy_ingest/pipeline.py:88-89 | the transpose has one row per column of the input, each as long as the input, with r[j][i] = m[i][j] |
| `Currents.TransposeTwice` | lambda_function/pipelines/a2e_buoy_ingest/pipeline.py:88-89 | transposing twice gives back any non-degenerate rectangular array |
| `Currents.SeriesOf` | lambda_function/pipelines/a2e_buoy_ingest/pipeline.py:88-89 | the stacked rows are the bins' series, in bin order |
| `Currents.StackedSpec` | lambda_function/pipelines/a2e_buoy_ingest/pipeline.py:88-98 | stacking succeeds exactly for one or more series of one common length; it fails with no bins or with mismatched bins; on success row t holds sample t of every bin |
| `Currents.AddCurrentsEffect` | lambda_function/pipelines/a2e_buoy_ingest/pipeline.py:87-100 | the currents branch raises with no bins. It succeeds exactly when both quantities' bins are uniform series. It then adds the time name and `depth` to the coordinates and adds exactly `depth`, `current_speed` and `current_direction`. Every other variable is unchanged. `depth` is the depth axis, and both grids have dims (time, depth) |
| `Currents.AddCurrentsGrids` | lambda_function/pipelines/a2e_buoy_ingest/pipeline.py:83-98 | `current_speed[t][k]` is sample t of `Vel{k+1} (mm/s)` and `current_direction[t][k]` is sample t of `Dir{k+1} (deg)`; each grid has one row per time sample and one column per bin |
| `Currents.AddCurrentProfile` | lambda_function/pipelines/a2e_buoy_ingest/pipeline.py:73-98 | scanning, stacking and assigning yields exactly the currents branch `AddCurrents` |
| `BuoyPipeline.SurfaceTempRenamed` | lambda_function/pipelines/a2e_buoy_ingest/pipeline.py:59-62 | a surfacetemp dataset has `Surface Temperature (C)` moved to `surfacetemp - Surface Temperature (C)` and every other variable unchanged |
| `BuoyPipeline.GillWindRenamed` | lambda_function/pipelines/a2e_buoy_ingest/pipeline.py:64-69 | a gill dataset has both wind variables moved to their gill names and every other variable unchanged |
| `BuoyPipeline.UntaggedUnchanged` | lambda_function/pipelines/a2e_buoy_ingest/pipeline.py:58-103 | an entry whose name holds none of the three tags is left as it was |
| `BuoyPipeline.GillOverridesSurfaceTemp` | lambda_function/pipelines/a2e_buoy_ingest/pipeline.py:59-69 | for a name with both "surfacetemp" and "gill" (and no "currents"), the gill branch wins and the temperature variable keeps its original name |
| `BuoyPipeline.CurrentsOverridesGill` | lambda_function/pipelines/a2e_buoy_ingest/pipeline.py:64-100 | for a name with both "gill" and "currents", the stored value keeps the original wind variable names |
| `BuoyPipeline.CustomizedKeys` | lambda_function/pipelines/a2e_buoy_ingest/pipeline.py:58-103 | the hook never adds or removes a file name, whether it completes or raises |
| `BuoyPipeline.CustomizedUntouched` | lambda_function/pipelines/a2e_buoy_ingest/pipeline.py:58 | files the loop has not reached still hold their original dataset |
| `BuoyPipeline.CustomizedDone` | lambda_function/pipelines/a2e_buoy_ingest/pipeline.py:58-103 | the hook completes exactly when every file's entry can be customised; then each file holds its customised value |
| `BuoyPipeline.CustomizedStep` | lambda_function/pipelines/a2e_buoy_ingest/pipeline.py:58-100 | visiting one more file stores its visit's value and goes on, or stores the partial value of a visit that raises and stops with its error |
| `BuoyPipeline.CustomizedRaised` | lambda_function/pipelines/a2e_buoy_ingest/pipeline.py:58-100 | when the hook raises, it raised at the first file whose visit raises: every earlier file holds its stored value and that file its partial value |
| `BuoyPipeline.RaisedStops` | lambda_function/pipelines/a2e_buoy_ingest/pipeline.py:58-100 | after the hook raises, later files are neither visited nor changed |
| `BuoyPipeline.RawDatasetMapping.SetItem` | lambda_function/pipelines/a2e_buoy_ingest/pipeline.py:62-100 | storing under a key replaces its value; the key order is unchanged for an existing key and extended for a new one |
| `BuoyPipeline.Pipeline.constructor` | lambda_function/pipelines/a2e_buoy_ingest/pipeline.py:55-100 | the pipeline's per-file visit is `VisitFile`: the three branches applied to the file's original dataset, with the configured time input name |
| `BuoyPipeline.Pipeline.CustomizeFile` | lambda_function/pipelines/a2e_buoy_ingest/pipeline.py:59-100 | one iteration performs the file's visit on its original dataset: it stores the customised value, or the value of the last successful branch when the currents branch raises; no other entry and not the key order changes |
| `BuoyPipeline.Pipeline.HookCustomizeRawDatasets` | lambda_function/pipelines/a2e_buoy_ingest/pipeline.py:28-103 | the hook keeps the key set and key order and returns the same mapping; the mapping ends as `Customized` prescribes for the per-file visit, completed or raised |

## Left out

- `hook_generate_and_persist_plots` (pipeline.py:105-275): plotting with matplotlib, seaborn and cmocean is output with no statable contract; its float trigonometry and time resampling are not modelled either.
- Storage I/O (temporary file paths, `storage.save`) and the module-level style-file loading (pipeline.py:15-17) are not modelled.
- The inherited `IngestPipeline` machinery and the dataset definition are not modelled: the input name of the time variable is a constant of `Pipeline` given at construction (pipeline.py:55-56, 92).
- The routing of incoming file names to pipelines and locations is not part of this model.
- Datasets.RenameVar: renaming a missing variable leaves the dataset unchanged, and renaming onto a name that already holds a variable replaces that variable, whereas xarray's `rename_vars` raises in both cases; xarray's behaviour is outside the modelled source.
- Datasets.RenameVars: applies the pairs one after another, while `rename_vars` renames simultaneously; the two agree for the hook's pairs, since no new name is also an old name.
- Datasets.SetCoord: a name that is not a variable is still added to the coordinate set, whereas xarray raises.
- Dimension sizes are not checked. xarray raises when a new `time` or `depth` dimension conflicts in size with an existing one; in particular, velocity and direction series of different lengths give `current_speed` and `current_direction` different `time` sizes, so the source raises at pipeline.py:98 where `AddCurrents` succeeds. The literal dimension name `time` may also differ from the time variable's input name. Only dimension names are recorded.
- Sample values are modelled as mathematical reals, with no floating-point representation or dtype; the hook does no arithmetic on them.
- Currents.Stacked: which line raises and the exception's type and message are not modelled, only that the branch raises. A zero-bin dataset fails when the one-dimensional array is placed under two dims. Ragged bins fail when numpy stacks them (older numpy versions raise later, at the DataArray); bins that are grids of one common shape stack into a three-dimensional array and fail at the DataArray with its two dims.
