# CCD calibration core, modelled in Dafny

A Dafny model of the processing core of a desktop application that calibrates astronomical
CCD frames. It covers five parts:

- **Master builders.** Master bias, dark and flat frames are built from stacks of raw frames.
  Stacks are loaded in order, and a master bias, when supplied, is subtracted from darks and
  flats. Each flat is divided by its own median. Each role is combined with fixed
  `ccdproc.combine` parameters.
- **Light calibration pipeline.** The steps run in a fixed order: bias, then dark, then flat,
  then a clip at zero. Each correction runs only when its master is present. Before the flat
  division, a guard replaces zero and negative flat pixels. The dark step fails when the light
  or the master dark has no `EXPOSURE` card. Each step that runs logs two cards in the
  frame's header: its function name (SUBTRACT_BIAS, SUBTRACT_DARK, FLAT_CORRECT) and its short
  name (SUBBIAS, SUBDARK, FLATCOR). The first failing frame aborts the
  batch, and the error names the file's basename.
- **Integrity stamp and check.** The stamp writes a truncated SHA-256 digest and a few
  statistics into the FITS header. The check gives a three-way verdict: valid, invalid, or
  unknown. A batch check counts each outcome.
- **Exposure time.** The exposure is taken from the first usable header alias. Failing that,
  it comes from a `<number>s` pattern in the file name. Failing that, it is one second.
- **Application state.** This covers the per-type file lists, the displayed type and index,
  wrap-around navigation, the guards around the build and calibrate commands, and the names
  of output files. It also covers the configuration record and the file-name stem helper.

Pixel arrays are flattened `seq<real>`, and two arrays have the same shape when their lengths
agree. Arithmetic is exact. The median is computed concretely, by sorting, as numpy does (an
even count averages the two middle values). Three kinds of outside behaviour are not
implemented but passed in as parameters:

- the `ccdproc` pixel operations and `combine`;
- FITS reading and writing;
- SHA-256, `float()` on text and `:.2f` formatting.

The model proves properties that hold for every choice of these parameters.

Modules, one file each: `Wrappers` (Option/Result), `Pixels` (sort, median, clip, statistics),
`Fits` (header and image records), `Paths` (basename, join, stem), `Ccdproc` (the library
interface), `Masters`, `Calibration`, `Integrity`, `Exposure`, `Config`, `App`.

## Model

| member | source | states |
|---|---|---|
| Pixels.Median | My-astro-project/ccd_processor/src/processing/masters.py:73 | The median of a non-empty array is bounded below and above by pixels of the array (numpy's median, with the middle pair averaged) |
| Pixels.MedianDivide | My-astro-project/ccd_processor/src/processing/masters.py:73 | Dividing every pixel by a nonzero m divides the median by m, for either sign of m |
| Pixels.NormalisedMedianIsOne | My-astro-project/ccd_processor/src/processing/masters.py:73 | A frame divided by its own nonzero median has median exactly 1 |
| Pixels.Clip | My-astro-project/ccd_processor/src/processing/calibration.py:79 | np.clip(x, 0, None): the length is kept, every pixel is >= 0, non-negative pixels are unchanged, negative pixels become 0 |
| Pixels.ClipIdempotent | My-astro-project/ccd_processor/src/processing/calibration.py:79 | Clipping twice equals clipping once |
| Pixels.Mean | My-astro-project/ccd_processor/src/processing/integrity_checker.py:99 | The mean written as DATAMEAN lies between DATAMIN and DATAMAX |
| Pixels.Min | My-astro-project/ccd_processor/src/processing/integrity_checker.py:97 | DATAMIN is a pixel of the array and no pixel is below it |
| Pixels.Max | My-astro-project/ccd_processor/src/processing/integrity_checker.py:98 | DATAMAX is a pixel of the array and no pixel is above it |
| Fits.Get | My-astro-project/ccd_processor/src/processing/integrity_checker.py:152 | header.get(key, default) gives the card when present and the default otherwise |
| Paths.Basename | My-astro-project/ccd_processor/src/utils/helpers.py:19 | os.path.basename (the text after the last separator): a suffix of the path with no separator, either the whole path or preceded by a separator |
| Paths.Join | My-astro-project/ccd_processor/src/app.py:328 | os.path.join: an absolute second part wins; otherwise both parts are kept in order, with exactly one separator inserted when the first part is non-empty and lacks one, and nothing inserted otherwise |
| Paths.BasenameOfJoinedName | My-astro-project/ccd_processor/src/app.py:337-339 | Joining any directory with a plain name yields a path whose basename is that name |
| Paths.SplitExtRoot | My-astro-project/ccd_processor/src/utils/helpers.py:19 | os.path.splitext root: a prefix of the name; a name without a dot is unchanged; an extension is removed iff some dot has a non-dot character before it, and then the root is everything before the last dot |
| Paths.Stem | My-astro-project/ccd_processor/src/utils/helpers.py:17-19 | The stem has no separator and is a prefix of the basename |
| Paths.StemDropsLastExtension | My-astro-project/ccd_processor/src/utils/helpers.py:19 | Only the last extension is removed: in any directory, a name `root.ext` (root not starting with a dot, ext without dots) has stem `root`, dots inside root included |
| Paths.StemKeepsHiddenName | My-astro-project/ccd_processor/src/utils/helpers.py:19 | A leading dot is not an extension: in any directory, a name of one leading dot and no other dots is its own stem |
| Paths.StemWithoutDot | My-astro-project/ccd_processor/src/utils/helpers.py:19 | A basename with no dot is its own stem |
| Ccdproc.Logged | My-astro-project/ccd_processor/src/processing/calibration.py:35 | A logged call sets two cards: the HIERARCH card of its upper-cased function name (SUBTRACT_BIAS) to its short name ("subbias"), and the upper-cased short-name card (SUBBIAS) to the logged text; every other card, EXPOSURE in particular, and the HISTORY lines are kept |
| Ccdproc.LoggedKeysDistinct | My-astro-project/ccd_processor/src/processing/calibration.py:35-70 | The six cards logged by subtract_bias, subtract_dark and flat_correct are pairwise different and none is EXPOSURE, so no step overwrites another step's log or the exposure |
| Ccdproc.KeysAreUpperCased | My-astro-project/ccd_processor/src/processing/calibration.py:35 | The two logged cards are the ASCII upper case of the function name and of its short name |
| Ccdproc.SubtractBias | My-astro-project/ccd_processor/src/processing/calibration.py:35 | Pixel-wise bias subtraction on equal shapes keeps the light's unit; its header is the light's with the SUBTRACT_BIAS and SUBBIAS cards logged |
| Ccdproc.SubtractDark | My-astro-project/ccd_processor/src/processing/calibration.py:44-50 | Succeeds iff both headers carry EXPOSURE and the shapes agree; a missing card on the light, then on the master, is reported before the shape. On success each pixel is the library's dark subtraction given both EXPOSURE values, and the header is the light's with the SUBTRACT_DARK and SUBDARK cards logged |
| Ccdproc.FlatCorrect | My-astro-project/ccd_processor/src/processing/calibration.py:70 | Pixel-wise flat correction, which sees the whole flat, keeps the light's unit; its header is the light's with the FLAT_CORRECT and FLATCOR cards logged |
| Masters.LoadAll | My-astro-project/ccd_processor/src/processing/masters.py:19 | Succeeds iff every file loads; then one frame per file in the given order; otherwise the error names the first file that fails |
| Masters.SubtractBiasAll | My-astro-project/ccd_processor/src/processing/masters.py:42-43 | A supplied master bias is subtracted from every frame; without one the stack is returned unchanged |
| Masters.NormaliseFlat | My-astro-project/ccd_processor/src/processing/masters.py:71-76 | Every pixel is divided by the frame's own median; the result has median 1, keeps the unit and carries an empty header |
| Masters.NormaliseAll | My-astro-project/ccd_processor/src/processing/masters.py:70-76 | Every flat of the stack is normalised, in order |
| Masters.Combine | My-astro-project/ccd_processor/src/processing/masters.py:78-84 | combine is applied to a same-shape stack with the given parameters; a shape mismatch is an error |
| Masters.CreateMasterBias | My-astro-project/ccd_processor/src/processing/masters.py:14-32 | An empty list is rejected before reading; a load failure propagates; success iff all files load with one shape; the master is combine(frames, average, 5/5, median, mad_std, 360e6, 'adu') |
| Masters.CreateMasterDark | My-astro-project/ccd_processor/src/processing/masters.py:34-56 | As for bias, but the optional master bias is first subtracted from every dark |
| Masters.CreateMasterFlat | My-astro-project/ccd_processor/src/processing/masters.py:58-86 | As for dark, then each flat is divided by its own median and the stack is combined by median with thresholds 3/3 and no other override |
| Masters.FlatStackNormalised | My-astro-project/ccd_processor/src/processing/masters.py:69-76 | The stack a flat master is combined from has one frame per file, each with median 1, an empty header and the unit of its source file |
| Masters.BiasAndDarkShareParams | My-astro-project/ccd_processor/src/processing/masters.py:45-54 | A dark master without a bias is built exactly like a bias master from the same files |
| Calibration.GuardedFlat | My-astro-project/ccd_processor/src/processing/calibration.py:63-64 | The guarded copy has the flat's length; positive pixels are kept; pixels <= 0 become 0.01 times the median of the original flat |
| Calibration.GuardedFlatPositive | My-astro-project/ccd_processor/src/processing/calibration.py:64 | A positive median makes every guarded pixel strictly positive |
| Calibration.GuardedFlatCanKeepZero | My-astro-project/ccd_processor/src/processing/calibration.py:64 | With median 0 the guard gives no such guarantee: the flat [0, 0, 1] keeps a zero pixel |
| Calibration.GuardedFlatIdentity | My-astro-project/ccd_processor/src/processing/calibration.py:60-72 | Without pixels <= 0 the guard is the identity, so both branches divide by the same flat |
| Calibration.FlatForDivision | My-astro-project/ccd_processor/src/processing/calibration.py:59-72 | The flat divided by has the guarded pixels and the master's unit and header, whichever branch is taken |
| Calibration.ApplyBias | My-astro-project/ccd_processor/src/processing/calibration.py:32-38 | Bias is subtracted iff the master is present; a shape mismatch fails at the bias step; an absent master leaves the frame as it is |
| Calibration.ApplyDark | My-astro-project/ccd_processor/src/processing/calibration.py:40-53 | With a master dark, succeeds iff both headers carry EXPOSURE and the shapes agree; a missing card is reported (light first, then master) before a shape mismatch at the dark step; an absent master leaves the frame as it is |
| Calibration.ApplyFlat | My-astro-project/ccd_processor/src/processing/calibration.py:55-76 | The same for the flat step, dividing by the guarded flat |
| Calibration.StepsLogged | My-astro-project/ccd_processor/src/processing/calibration.py:32-76 | The calibrated header keeps every card the steps that ran do not log, and the HISTORY lines, and holds both logged cards of each step that ran; with no step it is the light's header |
| Calibration.CalibrateFrame | My-astro-project/ccd_processor/src/processing/calibration.py:25-84 | Succeeds iff every present master has the light's shape and, with a master dark, both headers carry EXPOSURE; otherwise it fails at the first check in order bias shape, light EXPOSURE, master EXPOSURE, dark shape, flat shape. On success the unit is kept, the header gains the two logged cards of each step that ran, and each pixel is the bias-dark-flat-clip composition of the input pixels |
| Calibration.NoMastersOnlyClips | My-astro-project/ccd_processor/src/processing/calibration.py:79 | With all three masters absent the output is the clipped copy of the light |
| Calibration.CalibratePath | My-astro-project/ccd_processor/src/processing/calibration.py:26-27 | A read failure is the frame's error; otherwise the loaded light is calibrated |
| Calibration.CalibrateLights | My-astro-project/ccd_processor/src/processing/calibration.py:14-94 | Succeeds iff every frame succeeds; then one output per path in input order; otherwise the error is that of the first failing frame, named by its basename |
| Calibration.CalibratedNonNegative | My-astro-project/ccd_processor/src/processing/calibration.py:79 | Every pixel of every calibrated frame is >= 0 |
| Calibration.CalibrateWithoutFlat | My-astro-project/ccd_processor/src/processing/calibration.py:131-135 | calibrate_without_flat is calibrate_lights with no master flat |
| Integrity.ShortDigest | My-astro-project/ccd_processor/src/processing/integrity_checker.py:79 | DATACHECK holds the first 32 characters of the 64-character digest |
| Integrity.HistoryLine | My-astro-project/ccd_processor/src/processing/integrity_checker.py:82 | The HISTORY line ends with the full digest |
| Integrity.AddIntegrityInfo | My-astro-project/ccd_processor/src/processing/integrity_checker.py:54-104 | Raises iff the data are empty. Otherwise the keys become the old keys plus exactly the eight stamp keys, other cards are untouched, one HISTORY line is appended, and each stamp card has its specified value |
| Integrity.StampDefaults | My-astro-project/ccd_processor/src/processing/integrity_checker.py:54 | SOFTWARE and PROCVERS default to "AstroCalibratorCH" and "1.0" |
| Integrity.StampIdempotent | My-astro-project/ccd_processor/src/processing/integrity_checker.py:79-99 | Stamping the same data twice (at the same time) leaves the cards as after one stamp and only adds a second HISTORY line |
| Integrity.VerifyHdu | My-astro-project/ccd_processor/src/processing/integrity_checker.py:139-200 | The verdict is set iff the HDU is readable and has DATACHECK; it is then stored == first 32 digest characters. A missing DATACHECK gives the not-found error, an unknown verdict always comes with a non-empty error, and an error next to a verdict happens only in verbose mode without PIXSUM |
| Integrity.VerifyFile | My-astro-project/ccd_processor/src/processing/integrity_checker.py:107-206 | Never raises: an open failure becomes the error field with no verdict; otherwise the HDU check decides |
| Integrity.NoHashIsNotInvalid | My-astro-project/ccd_processor/src/processing/integrity_checker.py:194-195 | Without DATACHECK the verdict is unknown, never invalid |
| Integrity.VerifyMatching | My-astro-project/ccd_processor/src/processing/integrity_checker.py:159-173 | A readable HDU whose DATACHECK matches its data verifies as valid with no error, in either mode |
| Integrity.StampThenVerify | My-astro-project/ccd_processor/src/processing/integrity_checker.py:163-173 | Round trip: data checked against the header stamped from the same data is valid with no error |
| Integrity.OccurrencesZero | My-astro-project/ccd_processor/src/processing/integrity_checker.py:242-249 | An outcome occurs zero times among the results iff no result is classified with it |
| Integrity.Bump | My-astro-project/ccd_processor/src/processing/integrity_checker.py:242-249 | Counting one result raises exactly its outcome's counter by one and leaves the other three |
| Integrity.Tally | My-astro-project/ccd_processor/src/processing/integrity_checker.py:242-249 | Each counter equals the number of results classified with its outcome (valid, invalid, no hash, error), so the counters sum to the number of results |
| Integrity.TallyZero | My-astro-project/ccd_processor/src/processing/integrity_checker.py:242-249 | A counter is 0 iff no result has its outcome |
| Integrity.VerifyMultipleFiles | My-astro-project/ccd_processor/src/processing/integrity_checker.py:209-256 | total = number of paths; one detail per path in order; each counter is the number of files with its outcome; no_hash_files is 0 whenever every open failure has a non-empty message |
| Integrity.MissingHashCountsAsError | My-astro-project/ccd_processor/src/processing/integrity_checker.py:242-245 | A readable file without DATACHECK is counted in error_files, not in no_hash_files |
| Exposure.DigitRunEnd | My-astro-project/ccd_processor/src/app.py:446 | The run of digits from a position is all digits and ends at the end of the text or at a non-digit |
| Exposure.NumeralEnd | My-astro-project/ccd_processor/src/app.py:446 | The greedy end of a `\d+\.?\d*` match from a digit matches the pattern and is not followed by a digit |
| Exposure.NumeralLongest | My-astro-project/ccd_processor/src/app.py:446 | No match of `\d+\.?\d*` from the same start is longer than the greedy one |
| Exposure.SecondsFollowGreedyEnd | My-astro-project/ccd_processor/src/app.py:455 | A `\d+\.?\d*` match followed by s or S must be the greedy one, so scanning greedy ends finds exactly the regex matches |
| Exposure.FirstDigitFrom | My-astro-project/ccd_processor/src/app.py:446 | The search returns the leftmost digit, and nothing iff the text has no digit |
| Exposure.FirstSecondsFrom | My-astro-project/ccd_processor/src/app.py:455 | The search returns the leftmost start of a `<numeral>[sS]` match, and nothing iff there is none |
| Exposure.WholeBelow | My-astro-project/ccd_processor/src/app.py:448 | n decimal digits are worth less than 10^n |
| Exposure.FractionValue | My-astro-project/ccd_processor/src/app.py:448 | The digits after the decimal point are worth between 0 and 1, and scaled by 10^(their count) they are the decimal integer they spell |
| Exposure.SingleDot | My-astro-project/ccd_processor/src/app.py:446 | A numeral has at most one dot |
| Exposure.NumeralValue | My-astro-project/ccd_processor/src/app.py:448 | float() of a matched numeral is never negative; it is the decimal integer for an all-digit numeral and, at the dot, the integer part plus the fraction part |
| Exposure.ValueOf2Point5 | My-astro-project/ccd_processor/src/app.py:448 | "2.5" is a numeral worth 2.5 |
| Exposure.LeftmostDigitUnique | My-astro-project/ccd_processor/src/app.py:446 | At most one position holds the leftmost digit |
| Exposure.TextSeconds | My-astro-project/ccd_processor/src/app.py:445-449 | A text value yields a number iff it has a digit; that number is >= 0 and is the value of the greedy numeral at the leftmost digit |
| Exposure.ValueSeconds | My-astro-project/ccd_processor/src/app.py:444-451 | A numeric card is taken unchanged; a text card goes through its first numeral |
| Exposure.FirstAliasFrom | My-astro-project/ccd_processor/src/app.py:442-451 | The aliases are tried in order and the first usable one is chosen; nothing is chosen iff no alias is usable |
| Exposure.LeftmostSecondsUnique | My-astro-project/ccd_processor/src/app.py:455 | At most one position starts the leftmost `<numeral>[sS]` match |
| Exposure.FilenameSeconds | My-astro-project/ccd_processor/src/app.py:453-457 | The file name yields a number iff it has a `<numeral>s` match; that number is >= 0 and is the value of the numeral of the leftmost match |
| Exposure.ExposureTime | My-astro-project/ccd_processor/src/app.py:436-462 | No usable alias and no file path gives 1 second; a negative result can only be a numeric card under one of the aliases |
| Exposure.FirstAliasWins | My-astro-project/ccd_processor/src/app.py:440-451 | The first usable alias decides, whatever later aliases and the file name hold |
| Exposure.NumericExptimeUnchanged | My-astro-project/ccd_processor/src/app.py:443-451 | A numeric EXPTIME card is returned unchanged |
| Exposure.DigitlessTextSkipped | My-astro-project/ccd_processor/src/app.py:446-450 | A text card without a digit is skipped in favour of the next alias |
| Exposure.FilenameFallback | My-astro-project/ccd_processor/src/app.py:453-460 | With no usable alias the basename's `<number>s` decides, and without one the result is 1 second |
| Exposure.ExposureFromFilename | My-astro-project/ccd_processor/src/app.py:453-457 | A frame named "frame_30s.fits" in any directory, with no exposure cards, has a 30-second exposure |
| Config.New | My-astro-project/ccd_processor/src/utils/config.py:10-15 | A new configuration has no files and the current directory as working directory |
| Config.SetWorkingDirectory | My-astro-project/ccd_processor/src/utils/config.py:29-31 | Only the working directory changes |
| Config.AddFiles | My-astro-project/ccd_processor/src/utils/config.py:33-42 | The selected list becomes list + files and the others are unchanged; an unknown type name changes nothing |
| Config.FileCounts | My-astro-project/ccd_processor/src/utils/config.py:44-51 | Exactly the four count keys, each equal to the length of its list |
| Config.CountsAfterAdd | My-astro-project/ccd_processor/src/utils/config.py:33-51 | Adding files raises that type's count by their number and leaves the other counts |
| Config.ListEntry | My-astro-project/ccd_processor/src/utils/config.py:72-75 | A missing list entry defaults to the empty list |
| Config.LoadConfig | My-astro-project/ccd_processor/src/utils/config.py:66-75 | Missing lists default to [] and a missing directory to the current directory; present entries are taken over |
| Config.SaveConfig | My-astro-project/ccd_processor/src/utils/config.py:53-61 | The saved dictionary has exactly the directory key and the four list keys |
| Config.SaveThenLoad | My-astro-project/ccd_processor/src/utils/config.py:53-75 | Loading what was saved restores the configuration |
| Config.LoadEmptyIsNew | My-astro-project/ccd_processor/src/utils/config.py:71-75 | Loading an empty map gives a fresh configuration in the current directory |
| App.Init | My-astro-project/ccd_processor/src/app.py:28-41 | Start-up state: empty lists, type "lights", index 0, no masters |
| App.CurrentList | My-astro-project/ccd_processor/src/app.py:126-136 | The displayed list is the lights, darks, bias or flats list according to the displayed type, and empty for an unknown type |
| App.Next | My-astro-project/ccd_processor/src/app.py:148-156 | An empty list is a no-op; otherwise only the index changes, it lands in [0, n), and from a valid index it moves one place forward with n-1 wrapping to 0 |
| App.Previous | My-astro-project/ccd_processor/src/app.py:138-146 | The same, one place backward with 0 wrapping to n-1 |
| App.PreviousUndoesNext | My-astro-project/ccd_processor/src/app.py:138-156 | From a valid index, next then previous restores the state |
| App.NextUndoesPrevious | My-astro-project/ccd_processor/src/app.py:138-156 | From a valid index, previous then next restores the state |
| App.ForwardIndex | My-astro-project/ccd_processor/src/app.py:148-156 | k forward steps from a valid index move it to (index + k) mod n |
| App.FullCircle | My-astro-project/ccd_processor/src/app.py:148-156 | n forward steps on a list of n images return to the starting state |
| App.ChangeImageType | My-astro-project/ccd_processor/src/app.py:158-171 | The type becomes the chosen one; the index is reset to 0 iff the new list is non-empty; nothing else changes |
| App.ChangeImageTypeSettles | My-astro-project/ccd_processor/src/app.py:158-171 | A type change leaves a valid index, and repeating it changes nothing |
| App.AddLights | My-astro-project/ccd_processor/src/app.py:71-84 | An empty pick is a no-op; otherwise the files are appended to the lights; the display switches to lights at index 0 iff the lights were empty before |
| App.AddFrames | My-astro-project/ccd_processor/src/app.py:86-105 | add_darks/add_bias/add_flats append a non-empty pick to their own list only |
| App.AddKeepsIndexValid | My-astro-project/ccd_processor/src/app.py:71-105 | Adding lights, or adding to a non-empty displayed list, keeps a valid index valid |
| App.AddToShownEmptyList | My-astro-project/ccd_processor/src/app.py:86-91 | Adding to an empty list on display keeps the stale index; the next arrow press brings it in range |
| App.SetWorkingDirectory | My-astro-project/ccd_processor/src/app.py:115-124 | A cancelled (empty) choice changes nothing; otherwise only the configuration's directory changes |
| App.CreateMaster | My-astro-project/ccd_processor/src/app.py:238-305 | An empty stack or a failed build leaves the state unchanged. A successful build sets only that master, even when saving to working_directory/master_*.fits then fails |
| App.MasterAfterCreate | My-astro-project/ccd_processor/src/app.py:245-247 | A master exists after the command iff the build succeeded or it existed before |
| App.BiasMasterKeptWhenSaveFails | My-astro-project/ccd_processor/src/app.py:245-247 | The master bias set by the command is the average-combined stack and is kept even when the write fails |
| App.OutputDirectoryShape | My-astro-project/ccd_processor/src/app.py:328 | The output directory working_directory/calibrated is non-empty and ends in "d", never in a separator |
| App.OutputPath | My-astro-project/ccd_processor/src/app.py:328-339 | The output file of a light is the "calibrated" subdirectory of the working directory, one separator, then "calibrated_" plus the light's basename |
| App.WriteOutcomes | My-astro-project/ccd_processor/src/app.py:333-345 | One entry per frame: whether writing frame i to path i succeeded |
| App.SavedCount | My-astro-project/ccd_processor/src/app.py:333-345 | saved_count is the number of successful writes; it equals the number of frames iff every write succeeds and is 0 iff none does |
| App.CalibrateLights | My-astro-project/ccd_processor/src/app.py:307-374 | No lights means nothing is done; the command reports the batch's error iff the batch fails; after a successful batch it fails iff working_directory/calibrated cannot be made; otherwise there is one output path per light, in order, and saved_count is the number of calibrated frames whose write to their output path succeeded, equal to len(lights) iff every write succeeds |
| App.OutputNames | My-astro-project/ccd_processor/src/app.py:337-339 | Every output's basename is "calibrated_" plus the basename of its light |

## Left out

- Tkinter, matplotlib and every display, dialog, log and message-box call are left out, because they only present state. This covers `display_image`, `display_master_frame`, `update_navigation_info`, `update_stats`, `update_master_frames_status`, `display_master_frame_dialog`, `show_inverted`, `auto_flats`, `log_command`, `_log_data_stats` and verbose printing. Dialog results become parameters.
- FITS reading and writing, `fits.open`, `os.path.getsize`, `os.makedirs`, `ensure_directory_exists`, `read_fits_with_unit` and JSON file access are left out because they are file-system I/O. Readers, writers and the directory maker are parameters that return a frame or an error, or success or failure.
- The internals of `ccdproc` are left out because that library's code is not part of this model. This covers sigma clipping in `combine`, exposure scaling in `subtract_dark` and normalisation in `flat_correct`. They are opaque functions, and only the parameters passed to them are stated.
- SHA-256, `float()` on text and `:.2f` formatting are parameters. Nothing about collision resistance or tamper detection is claimed.
- The UTC creation time is a parameter, because it comes from the clock.
- Exact reals stand in for floating point: rounding, overflow, NaN and infinity are not modelled. A 2-D array is flattened, and "same shape" means "same length".
- Masters.NormaliseFlat: a flat with median 0, or with no pixels, is an error (DegenerateFlat). numpy instead fills such a frame with infinities or NaN and carries on.
- Masters.Combine: a stack of mixed shapes is an error. How `combine` itself reacts is not known to the model.
- Calibration.CalibrateFrame: a missing EXPOSURE card at the dark step, or a master whose shape cannot be broadcast against the light's, makes the corresponding library call raise. The exception's text is not modelled.
- Calibration.CalibrateFrame: a master of a different but broadcast-compatible shape (a 1×1 master, or a 1×W master against an H×W light) is applied by the library without an exception; the model, which compares flattened lengths, reports it as a shape mismatch instead.
- Masters.SubtractBiasAll: a master bias whose shape differs from a frame's but broadcasts against it is subtracted by the library; the model requires equal lengths, so the builders report such a stack as a shape mismatch.
- Ccdproc.SubtractBias: it and Ccdproc.SubtractDark and Ccdproc.FlatCorrect are stated for equal shapes only; numpy broadcasting of a smaller master is not modelled.
- Ccdproc.Logged: the log text is taken not to depend on the frames passed; ccdproc renders a frame of one row by value, and that case is not modelled.
- Ccdproc.Logged: the text `ccdproc` logs for a step (a description of the call's arguments) is an opaque library function of the call; only which cards are written is stated. Card comments and card order are not modelled. The branch `ccdproc` takes for metadata that is not a FITS header (one card under the function's own name) is left out, because every frame the pipeline passes to these calls was read from a FITS file or copied from one.
- Ccdproc.SubtractDark: an EXPOSURE card is passed to the library as it stands. Whether `ccdproc`'s unit conversion raises on a text or non-positive value is not modelled.
- `if master_bias:` in the dark and flat builders is read as `is not None`, since a CCDData object defines no truth value of its own.
- Integrity.AddIntegrityInfo: when the data are empty, the source has already written DATACHECK, HISTORY, PIXSUM, CREATED, SOFTWARE and PROCVERS before `np.min` raises. The model only reports the error and does not model that half-written header.
- Integrity.StampThenVerify: the digest is modelled as a function of the pixel values. The source hashes `data.tobytes()`, so the round trip holds only when the checked array has the stamped array's dtype and byte order.
- Integrity.AddIntegrityInfo: HISTORY is a list of lines that the stamp appends to. Card comments are not modelled.
- Integrity.VerifyHdu: `file_info` keeps the file name and CALSTAT only; size, dimensions and data type are left out. An HDU is checkable when it has data with at least two axes and a readable PIXSUM. The exception messages for these cases are fixed texts.
- Integrity.VerifyMultipleFiles: no_hash_files is incremented only for a result with no verdict and an absent or empty error, and `verify_file_integrity` gives such a result only when opening the file raised an exception with an empty message; the model keeps that case. The `except` branch of the loop cannot be reached, because `verify_file_integrity` never raises. The verbose summary is not modelled.
- Exposure.ExposureTime: `\d` is modelled as ASCII digits only. Python also accepts other Unicode decimal digits.
- Exposure.ExposureTime: header values are numbers or text. FITS logical and complex values, and the `except` branch they could reach, are left out.
- Config.LoadConfig: an entry of the wrong JSON type is reported as an error. The source would store it unchecked.
- Config.New: the `Config` fields for master frames, index and type are never read by the application, so they are left out.
- Calibration.CalibrateWithoutFlat: its contract only restates that it calls the batch calibration without a flat, which is all the source does.
- The app's `on_image_type_changed` is modelled with the chosen type as a parameter. The case where the choice equals the current type behaves the same.
