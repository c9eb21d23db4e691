# protopipe DL2 reconstruction core, modelled in Dafny

This project models the final reconstruction stage of protopipe, an analysis
pipeline for imaging atmospheric Cherenkov telescopes, as `write_dl2.py`
performs it. It also models the R1 waveform calibration in
`pipeline/temp.py`.

- **Input list.** The patterns given with `--infile_list` are globbed
  inside `--indir`. The matches are concatenated and sorted with Python's
  string order. When at least one pattern is given, an empty list ends the
  run with exit status -1 before any event is read (see Findings for the
  case with no pattern).
- **`force_mode`.** The mode under which the regressors and classifiers are
  loaded: `"tail"` when `--force_tailcut_for_extended_cleaning` is set,
  the command-line mode otherwise. The configuration's own `force_mode`
  entry is set to `"tail"` unconditionally.
- **Per event** (module `Reconstruction`):
  - every telescope with Hillas moments gets an energy estimate from the
    regressor of its camera type;
  - these estimates are fused with the image intensities as weights
    (`sum(w*e)/sum(w)`, module `Fusion`);
  - every telescope then gets a classifier score from a feature vector that
    starts with `log10` of the fused energy;
  - the scores are fused the same way.
- **Rows.** The row buffer starts from the column defaults of the `RecoEvent`
  description (module `Schema`). A success row fills every reconstructed
  column. A failure row (the preparer gave no `hillas_dict`) sets only
  `success = False`, the identifiers and the true energy.
- **Loops** (module `Dl2Writer`):
  - for each event, the table is flushed and then the row is appended;
  - the stop flag is read after each event and after each file;
  - a final flush writes out the last row.
  - `RunFrom`, `Continue` and `AfterFile` define the rows the loops produce.
    `WriteEvents` and `WriteDl2` are proved to produce exactly those rows.
    Lemmas give the one-row-per-event order and the stop rule.
- **R1 calibration** (module `R1Calibration`). Each sample becomes
  `(r0 - pedestal) * dc_to_pe * scale + shift`. Then one gain channel is
  chosen per pixel: channel 0 when there is a single channel, otherwise the
  channel the external selector names (Python indexing, so negative indices
  count from the end).

Some members are definitions that the proved members build on; they
carry only shape facts:

- `Reconstruction.Intensities`, `Reconstruction.EnergyEstimates` and
  `Reconstruction.ScoreEstimates` list, per telescope of `hillas_dict`, the
  intensity, the regressor's estimate and the classifier's score;
- `Reconstruction.FailureRow` and `Reconstruction.SuccessRow` build the two
  kinds of row, and `Reconstruction.RowOf` chooses between them;
- `Dl2Writer.Configure` and `Dl2Writer.ForceMode` are the two `force_mode`
  assignments;
- `Dl2Writer.Sources` gives each sorted name's events;
  `Dl2Writer.RowsOf` and `Dl2Writer.FileRows` map events to rows;
- `R1Calibration.CalibrateAll` is the sample-wise formula over `r0`.

What the core calls but does not define is passed in as a parameter:

- the per-camera models (`predict`, `decision_function`), `log10` and
  astropy's `angular_separation`: fields of `Reconstruction.Env`;
- `glob`, the event source per file, the model loading per mode, and the
  gain selector;
- the stop flag, as `sig: nat -> bool`, where `sig(t)` is the flag's value
  at its `t`-th read.

Three behaviours of the code shape the model's preconditions:

- a camera type with no model is not skipped: the plain dictionary lookup
  fails. The model therefore requires every camera type to be present
  (`Reconstruction.Covered`);
- a zero total intensity is not reported as an error: the division is
  unguarded. The model requires the total to be non-zero
  (`Reconstruction.Fusable`);
- the flush comes before the append. So after each event the
  newest row is buffered until the next flush
  (`Dl2Writer.WriteFile` ensures `flushed == |rows| - 1`). Only the final
  flush makes the table complete.

## Model

| member | source | states |
|---|---|---|
| `Schema.DefaultRowColumns` | protopipe/scripts/write_dl2.py:95-118 | Column defaults: `obs_id` and `event_id` -1, the five telescope counts 0, all fifteen float columns NaN, `success` false. |
| `Fusion.FuseReproducesWeightedSum` | protopipe/scripts/write_dl2.py:187 | For a non-zero total weight, the fused value times the total weight equals the weighted sum. |
| `Fusion.FuseSingle` | protopipe/scripts/write_dl2.py:169-187 | A single telescope with non-zero intensity gives exactly its own estimate. |
| `Fusion.FuseEqualWeights` | protopipe/scripts/write_dl2.py:169-187 | Equal non-zero intensities give the arithmetic mean of the estimates. |
| `Fusion.FuseWithin` | protopipe/scripts/write_dl2.py:187 | With non-negative weights of positive total, estimates in `[lo, hi]` fuse to a value in `[lo, hi]`. |
| `Fusion.FuseBetweenMinAndMax` | protopipe/scripts/write_dl2.py:187 | With the same weights, the fused value lies between the smallest and the largest estimate. |
| `Fusion.FuseScaleInvariant` | protopipe/scripts/write_dl2.py:185-187 | Scaling every intensity by one non-zero factor does not change the fused value. |
| `Fusion.FuseWorkedExample` | protopipe/scripts/write_dl2.py:187 | Intensities 100, 200, 300 with estimates 1.0, 1.2, 0.9 fuse to 61/60 (about 1.0167). |
| `FileOrder.SortStrings` | protopipe/scripts/write_dl2.py:55 | `list.sort()` on the file names keeps the multiset of names. |
| `FileOrder.SortStringsCorrect` | protopipe/scripts/write_dl2.py:55 | The sorted list is sorted by Python's string order and is a permutation of its input, so duplicates are kept. |
| `FileOrder.SortSortedIdentity` | protopipe/scripts/write_dl2.py:55 | An already sorted list is left unchanged. |
| `Reconstruction.EstimateEnergy` | protopipe/scripts/write_dl2.py:169-187 | The loop that fills `energy_tel`/`weight_tel` by index returns the intensity-weighted fusion of the regressor estimates. |
| `Reconstruction.EstimateScore` | protopipe/scripts/write_dl2.py:190-208 | The loop that fills `score_tel`/`weight_tel` returns the intensity-weighted fusion of the classifier scores, each computed from the energy passed in. |
| `Reconstruction.SingleTelescopeEvent` | protopipe/scripts/write_dl2.py:169-208 | With one telescope, the event energy is that telescope's regressor output. The event score is its classifier output on features built from that energy. |
| `Reconstruction.ScoreSeesOnlyFusedEnergy` | protopipe/scripts/write_dl2.py:197-208 | The score depends on the regressors only through the fused event energy. |
| `Reconstruction.EventEnergyBounded` | protopipe/scripts/write_dl2.py:169-187 | With non-negative intensities of positive total, the event energy lies between the smallest and the largest per-telescope estimate. |
| `Reconstruction.RowOf` | protopipe/scripts/write_dl2.py:166-244 | `success` holds exactly when `hillas_dict` is present. Every row carries `obs_id`, `event_id` and `mc_energy`. `gammaness`, `ErrEstPos` and `ErrEstDir` are NaN in every row. |
| `Reconstruction.FailureRowKeepsDefaults` | protopipe/scripts/write_dl2.py:238-244 | A failure row keeps the default of every count and of every float column except `mc_energy`. |
| `Reconstruction.SuccessRowContents` | protopipe/scripts/write_dl2.py:219-237 | `NTels_reco` is the number of telescopes in `hillas_dict`. `NTels_trig` is the number with data. `reco_energy` is the fused energy, `score` the fused score, `xi` and `offset` the two angular separations. |
| `Reconstruction.ReconstructEvent` | protopipe/scripts/write_dl2.py:146-244 | Assigning the row buffer field by field, from the defaults, gives exactly `RowOf` of the event. |
| `Dl2Writer.ConfiguredModeAgreement` | protopipe/scripts/write_dl2.py:42-49 | The configured and the local `force_mode` agree exactly when the flag is set or the mode is already `"tail"`. |
| `Dl2Writer.MatchedMembers` | protopipe/scripts/write_dl2.py:52-54 | A name is in the concatenated list exactly when some pattern's glob matched it. |
| `Dl2Writer.CollectInputFiles` | protopipe/scripts/write_dl2.py:51-55 | The loop over patterns, followed by the sort, gives a sorted permutation of all matches. |
| `Dl2Writer.InputList` | protopipe/scripts/write_dl2.py:51-59 | The intended start-up never reads an unbound list. It ends with "no files found" exactly when nothing matched. Otherwise the list is the sorted permutation of the matches. |
| `Dl2Writer.InputListAsWritten` | protopipe/scripts/write_dl2.py:51-59 | As written, the list is unbound exactly when no pattern was given. Otherwise the outcome is the intended one. |
| `Dl2Writer.NoPatternsDiverge` | protopipe/scripts/write_dl2.py:51-59 | With an empty pattern list, the written code reads an unbound name, while the intended code exits with "no files found". |
| `Dl2Writer.RecoTable.constructor` | protopipe/scripts/write_dl2.py:129-130 | A new table has no rows and nothing flushed. |
| `Dl2Writer.RecoTable.Append` | protopipe/scripts/write_dl2.py:247 | Appends exactly one row at the end and writes nothing. |
| `Dl2Writer.RecoTable.Flush` | protopipe/scripts/write_dl2.py:246 | Writes every buffered row and changes no row. |
| `Dl2Writer.RowsOfAt` | protopipe/scripts/write_dl2.py:142-247 | Row `j` of a file is the row of its event `j`. |
| `Dl2Writer.ContinueLeavesAfter` | protopipe/scripts/write_dl2.py:142-250 | When the flag is down for the first `k - 1` reads and up at read `k` (or the file has `k` events), the file contributes exactly its first `k` rows, followed by what comes after the file. |
| `Dl2Writer.LeftAfter` | protopipe/scripts/write_dl2.py:142-250 | A table holding the first `k` rows of a file, left under that condition, completes to what `Continue` defines, and its exit state is the one `WriteFile` promises. |
| `Dl2Writer.ContinueIsPrefix` | protopipe/scripts/write_dl2.py:134-252 | With a latching flag, the rows still to come from any loop state are a prefix of the one-row-per-event sequence from that point. |
| `Dl2Writer.AfterFileIsPrefix` | protopipe/scripts/write_dl2.py:251-252 | The same holds at the check after a file. |
| `Dl2Writer.RunFromIsPrefix` | protopipe/scripts/write_dl2.py:134-252 | With a latching flag, the run's rows are a prefix of the rows of all events, in sorted-file order and then event order. |
| `Dl2Writer.NeverStoppedContinue` | protopipe/scripts/write_dl2.py:134-252 | With the flag never raised, every remaining event of the current file and of later files gets its row, in order. |
| `Dl2Writer.NeverStoppedWritesAll` | protopipe/scripts/write_dl2.py:134-252 | With the flag never raised, the run writes exactly one row per event, in order. |
| `Dl2Writer.StopKeepsOnlyCurrentRow` | protopipe/scripts/write_dl2.py:246-252 | Once the flag is up for good, the event in progress keeps its row and nothing further is processed. |
| `Dl2Writer.StopBeforeRun` | protopipe/scripts/write_dl2.py:142-252 | A flag raised before the run lets through exactly the row of the first event of the first file, or nothing when there is no such event. |
| `Dl2Writer.WriteEvent` | protopipe/scripts/write_dl2.py:146-247 | One event appends exactly its `RowOf` row. Every earlier row is flushed; the new one is buffered. |
| `Dl2Writer.WriteFile` | protopipe/scripts/write_dl2.py:142-250 | The event loop returns the next read index `t`. It appends exactly the first `t - t0` rows of the file. Every read before the last one saw the flag down. The loop leaves before the file's end only after a read that saw it up. Followed by the rows after the file, this is what `Continue` defines. After an event, every row but the newest is flushed. |
| `Dl2Writer.WriteEvents` | protopipe/scripts/write_dl2.py:134-255 | The nested loops and the final flush append exactly `RunFrom`'s rows and leave every row written. |
| `Dl2Writer.WriteDl2` | protopipe/scripts/write_dl2.py:43-255 | Exit status -1 with no rows exactly when the input list is empty. Otherwise: status 0, the rows are `RunFrom` under the models for `force_mode`, and all rows are written. |
| `R1Calibration.ApplySimtelR1Calibration` | protopipe/pipeline/temp.py:79-90 | Output shapes are `(n_pixels, n_samples)` and `(n_pixels)`. One channel: success, every selected channel 0, waveforms = channel 0. Several: success exactly when the selection is valid; then row `p` is the calibrated row `p` of the selected channel, and the selection is returned as given. |
| `R1Calibration.SingleChannelIgnoresSelector` | protopipe/pipeline/temp.py:84-86 | With one channel, the result is the same for every gain selector. |
| `R1Calibration.DefaultCalibration` | protopipe/pipeline/temp.py:39-40 | With scale 1 and shift 0, a sample is `(r0 - pedestal) * dc_to_pe`. |
| `R1Calibration.CalibrationInvertible` | protopipe/pipeline/temp.py:80-83 | With a non-zero gain, the raw sample is recovered from the calibrated one. |
| `R1Calibration.SamplesShareTheirPixelGain` | protopipe/pipeline/temp.py:80-83 | Two samples of one pixel differ after calibration by their raw difference times that pixel's gain. Pedestal and shift cancel. |
| `R1Calibration.SelectedChannelRow` | protopipe/pipeline/temp.py:87-89 | A valid non-negative selection `k` for pixel `p` yields row `p` of channel `k`. |

## Findings

| source | as written | input that shows it | evidently intended | confidence | as-written member | corrected member |
|---|---|---|---|---|---|---|
| protopipe/scripts/write_dl2.py:51-59 | `filenamelist` is bound only inside `if args.infile_list:`, but the emptiness test after it runs unconditionally | a run with no `--infile_list` pattern (an empty or default-empty list) | print "no files found" and exit with -1 | medium (the argument parser is not part of this model); not executed | `Dl2Writer.InputListAsWritten` (exhibited by `Dl2Writer.NoPatternsDiverge`) | `Dl2Writer.InputList` (used by `Dl2Writer.WriteDl2` through `Dl2Writer.CollectInputFiles`) |

## Left out

- Event reading, `EventSourceFactory.produce`, `MySimTelEventSource`, the event preparer and HDF5/pickle I/O: the events of each file and the loaded models are inputs. `tb.open_file` and the in-memory driver choice are not modelled; the table is an object with a row sequence and a flushed count.
- `angular_separation`, `log10`, the sklearn `predict`/`decision_function` calls and `glob` are uninterpreted: they are function values passed in.
- Unit conversions (`.to('deg')`, `.to('m')`, `.to('TeV')`, `.value`): event fields already hold the values in the record's units.
- Float32 and Int16/Int32 column widths: values are reals and unbounded integers. Rounding to float32, and out-of-range identifiers, are not modelled.
- Fusion.Fuse: zero total intensity is excluded by the precondition. The code divides unguarded. With an empty `hillas_dict` the sums are empty and numpy would write NaN into a success row. With all-zero intensities, `log10(0)` first reaches the regressor features (write_dl2.py line 178). `Dl2Writer.WriteDl2` requires a non-zero total for every event of every file, including events after a stop that the code never reaches.
- Reconstruction.Covered: a camera type with no model is a precondition. The code's `KeyError` is not modelled as an error path. `Dl2Writer.WriteDl2` requires coverage for every event of every file, including events after a stop that the code never reaches.
- Dl2Writer.RunFromIsPrefix: assumes a latching flag, as do `Dl2Writer.ContinueIsPrefix` and `Dl2Writer.AfterFileIsPrefix`. The signal handler only ever sets the flag, so it latches. With a flag that could fall back, the remaining events of an interrupted file would be skipped.
- The SIGINT handler itself: asynchronous delivery is not modelled. Only the flag's value at each read is.
- CutFlow counting and its end-of-run report (implemented in ctapipe, which is not part of this model), including the swallowed `ZeroDivisionError`. The final `Job done!` print is also left out.
- The `channel` variable (`write_dl2.py` line 120) is computed but never used.
- The PyTables row buffer is taken to start each appended row from the column defaults.
- R1Calibration.ApplySimtelR1Calibration: a selection of length one, which numpy would broadcast against the pixels, is treated as a shape error. Pedestal and conversion arrays are required to have the documented `(n_channels, n_pixels)` shape; numpy's other broadcasts are not modelled.
- The rest of `temp.py` (`MySimTelEventSource`, `MyCameraGeometry.transform_to`, `MyHillasReconstructor.initialize_hillas_planes`), `build_model.py`, `launch_benchmark.py`, the benchmarks, `io.py`, the tests and `setup.py` are outside this core.
