/**
  The bookkeeping of the application (`CCDProcessorApp`) with the windowing left out: the
  per-type file lists, the displayed type and index, navigation, the three master frames,
  and the guards and file names around the master builders and the light calibration.
  Dialogs become parameters (the files or directory the user picked), and writing a FITS
  file becomes a parameter that says whether the write succeeded.
*/
module App {
  import opened Wrappers
  import opened Fits
  import opened Ccdproc
  import Config
  import Masters
  import Calibration
  import Paths

  datatype AppState = AppState(
    config: Config.Config,
    files: Config.FileLists,
    currentType: string,
    index: int,
    masterBias: Option<Image>,
    masterDark: Option<Image>,
    masterFlat: Option<Image>)

  /** The state after start-up in the current directory `cwd`: nothing loaded, lights shown. */
  function Init(cwd: string): (s: AppState)
    ensures s.config.workingDirectory == cwd
    ensures forall t :: t in Config.FileTypes ==> s.files.Get(t) == []
    ensures s.currentType == Config.Lights && s.index == 0
    ensures s.masterBias.None? && s.masterDark.None? && s.masterFlat.None?
  {
    AppState(Config.New(cwd), Config.NoFiles, Config.Lights, 0, None, None, None)
  }

  /** `get_current_list()`: the list of the displayed type, empty for an unknown type. */
  function CurrentList(s: AppState): (files: seq<string>)
    ensures s.currentType == Config.Lights ==> files == s.files.lights
    ensures s.currentType == Config.Darks ==> files == s.files.darks
    ensures s.currentType == Config.BiasType ==> files == s.files.bias
    ensures s.currentType == Config.Flats ==> files == s.files.flats
    ensures s.currentType !in Config.FileTypes ==> files == []
  {
    s.files.Get(s.currentType)
  }

  /** The index points into the displayed list, or that list is empty. */
  predicate IndexValid(s: AppState) {
    |CurrentList(s)| == 0 || 0 <= s.index < |CurrentList(s)|
  }

  /** One step forward on a ring of `n` positions, with Python's `%` (non-negative for `n > 0`). */
  lemma StepForward(i: int, n: int)
    requires n > 0
    ensures 0 <= i < n ==> (i + 1) % n == (if i + 1 == n then 0 else i + 1)
  {
  }

  /** One step back on a ring of `n` positions; 0 wraps to `n - 1`. */
  lemma StepBack(i: int, n: int)
    requires n > 0
    ensures 0 <= i < n ==> (i - 1) % n == (if i == 0 then n - 1 else i - 1)
  {
  }

  /**
    `next_image()`: on a non-empty list the index moves one place forward, wrapping round, and
    lands inside the list whatever it was before; on an empty list nothing happens.
  */
  function Next(s: AppState): (r: AppState)
    ensures |CurrentList(s)| == 0 ==> r == s
    ensures |CurrentList(s)| > 0 ==> r == s.(index := r.index) && 0 <= r.index < |CurrentList(s)|
    ensures IndexValid(s) && |CurrentList(s)| > 0 ==> r.index == (if s.index + 1 == |CurrentList(s)| then 0 else s.index + 1)
  {
    var n := |CurrentList(s)|;
    if n == 0 then s
    else
      StepForward(s.index, n);
      s.(index := (s.index + 1) % n)
  }

  /** `previous_image()`: the same, one place backward. */
  function Previous(s: AppState): (r: AppState)
    ensures |CurrentList(s)| == 0 ==> r == s
    ensures |CurrentList(s)| > 0 ==> r == s.(index := r.index) && 0 <= r.index < |CurrentList(s)|
    ensures IndexValid(s) && |CurrentList(s)| > 0 ==> r.index == (if s.index == 0 then |CurrentList(s)| - 1 else s.index - 1)
  {
    var n := |CurrentList(s)|;
    if n == 0 then s
    else
      StepBack(s.index, n);
      s.(index := (s.index - 1) % n)
  }

  /** Forward then back returns to the same image. */
  lemma PreviousUndoesNext(s: AppState)
    requires IndexValid(s)
    ensures Previous(Next(s)) == s
  {
    var n := |CurrentList(s)|;
    if n > 0 {
      StepForward(s.index, n);
      StepBack(Next(s).index, n);
    }
  }

  /** Back then forward returns to the same image. */
  lemma NextUndoesPrevious(s: AppState)
    requires IndexValid(s)
    ensures Next(Previous(s)) == s
  {
    var n := |CurrentList(s)|;
    if n > 0 {
      StepBack(s.index, n);
      StepForward(Previous(s).index, n);
    }
  }

  /** `k` presses of the right arrow. */
  function Forward(s: AppState, k: nat): AppState
  {
    if k == 0 then s else Next(Forward(s, k - 1))
  }

  /** After `k` steps from a valid index the display has moved `k` places round the ring. */
  lemma {:induction false} ForwardIndex(s: AppState, k: nat)
    requires IndexValid(s) && |CurrentList(s)| > 0
    ensures Forward(s, k) == s.(index := (s.index + k) % |CurrentList(s)|)
  {
    var n := |CurrentList(s)|;
    if k > 0 {
      ForwardIndex(s, k - 1);
      var i := (s.index + k - 1) % n;
      StepForward(i, n);
      ModSuccessor(s.index + k - 1, n);
    }
  }

  /** Reducing before or after adding one gives the same remainder. */
  lemma ModSuccessor(a: int, n: int)
    requires a >= 0 && n > 0
    ensures ((a % n) + 1) % n == (a + 1) % n
  {
    var q := a / n;
    var r := a % n;
    assert a == q * n + r;
    if r + 1 < n {
      DivModUnique(a + 1, n, q, r + 1);
      DivModUnique(r + 1, n, 0, r + 1);
    } else {
      MulSuccessor(q, n);
      DivModUnique(a + 1, n, q + 1, 0);
      DivModUnique(r + 1, n, 1, 0);
    }
  }

  lemma MulSuccessor(q: int, n: int)
    ensures (q + 1) * n == q * n + n
  {
  }

  /** The remainder is determined by any quotient-remainder decomposition. */
  lemma DivModUnique(a: int, n: int, q: int, r: int)
    requires n > 0 && 0 <= r < n && a == q * n + r
    ensures a % n == r
  {
    var q' := a / n;
    var r' := a % n;
    assert a == q' * n + r';
    MulDifference(q, q', n);
    if q > q' {
      MulAtLeast(q - q', n);
    } else if q < q' {
      MulAtLeast(q' - q, n);
    }
  }

  lemma MulDifference(q: int, q': int, n: int)
    ensures (q - q') * n == q * n - q' * n
    ensures (q' - q) * n == q' * n - q * n
  {
  }

  lemma MulAtLeast(x: int, n: int)
    requires x >= 1 && n > 0
    ensures x * n >= n
  {
  }

  /** Going once round the list comes back to the same image. */
  lemma FullCircle(s: AppState)
    requires IndexValid(s) && |CurrentList(s)| > 0
    ensures Forward(s, |CurrentList(s)|) == s
  {
    var n := |CurrentList(s)|;
    ForwardIndex(s, n);
    DivModUnique(s.index + n, n, 1, s.index);
  }

  /**
    `on_image_type_changed()` with `newType` picked: the type becomes `newType`; the index goes
    back to 0 when the new list has images and is left as it was otherwise.
  */
  function ChangeImageType(s: AppState, newType: string): (r: AppState)
    ensures r.currentType == newType
    ensures |CurrentList(r)| > 0 ==> r.index == 0
    ensures |CurrentList(r)| == 0 ==> r.index == s.index
    ensures r == s.(currentType := newType, index := r.index)
  {
    var t := s.(currentType := newType);
    if |CurrentList(t)| > 0 then t.(index := 0) else t
  }

  /** Switching to a type leaves a valid index, and switching again to the same type changes nothing. */
  lemma ChangeImageTypeSettles(s: AppState, newType: string)
    ensures IndexValid(ChangeImageType(s, newType))
    ensures ChangeImageType(ChangeImageType(s, newType), newType) == ChangeImageType(s, newType)
  {
  }

  /**
    `add_lights()` with `files` picked: nothing happens for an empty pick; otherwise the files
    are appended to the lights, and when the lights were empty before, the display switches
    to the lights at index 0 (the source tests that the list is as long as the pick).
  */
  function AddLights(s: AppState, files: seq<string>): (r: AppState)
    ensures |files| == 0 ==> r == s
    ensures |files| > 0 ==> r.files == s.files.Extend(Config.Lights, files)
    ensures |files| > 0 && |s.files.lights| == 0 ==> r.currentType == Config.Lights && r.index == 0
    ensures |s.files.lights| > 0 ==> r.currentType == s.currentType && r.index == s.index
    ensures r == s.(files := r.files, currentType := r.currentType, index := r.index)
  {
    if |files| == 0 then s
    else
      var t := s.(files := s.files.Extend(Config.Lights, files));
      if |t.files.lights| == |files| then t.(currentType := Config.Lights, index := 0) else t
  }

  /** The lists `add_darks`, `add_bias` and `add_flats` append to. */
  const OtherTypes: set<string> := {Config.Darks, Config.BiasType, Config.Flats}

  /** `add_darks()`, `add_bias()`, `add_flats()`: append a non-empty pick to that list only. */
  function AddFrames(s: AppState, fileType: string, files: seq<string>): (r: AppState)
    requires fileType in OtherTypes
    ensures |files| == 0 ==> r == s
    ensures forall t :: t in Config.FileTypes ==> r.files.Get(t) == s.files.Get(t) + (if t == fileType then files else [])
    ensures r == s.(files := r.files)
  {
    if |files| == 0 then s else s.(files := s.files.Extend(fileType, files))
  }

  /** Adding files never breaks a valid index into the displayed list. */
  lemma AddKeepsIndexValid(s: AppState, fileType: string, files: seq<string>)
    requires IndexValid(s)
    ensures IndexValid(AddLights(s, files))
    ensures fileType in OtherTypes && |CurrentList(s)| > 0 ==> IndexValid(AddFrames(s, fileType, files))
  {
  }

  /**
    Adding to an empty list on display keeps the old index, which may point past the new list;
    the next arrow press brings it back in range.
  */
  lemma AddToShownEmptyList(s: AppState, files: seq<string>)
    requires s.currentType == Config.Darks && |s.files.darks| == 0 && s.index == 3 && |files| == 1
    ensures !IndexValid(AddFrames(s, Config.Darks, files))
    ensures IndexValid(Next(AddFrames(s, Config.Darks, files)))
  {
  }

  /** `set_working_directory()`: an empty (cancelled) choice changes nothing. */
  function SetWorkingDirectory(s: AppState, directory: string): (r: AppState)
    ensures directory == "" ==> r == s
    ensures directory != "" ==> r == s.(config := Config.SetWorkingDirectory(s.config, directory))
    ensures r.config.files == s.config.files
  {
    if directory == "" then s else s.(config := Config.SetWorkingDirectory(s.config, directory))
  }

  datatype Role = BiasRole | DarkRole | FlatRole

  /** The stack a role is built from. */
  function Stack(s: AppState, role: Role): seq<string> {
    match role
    case BiasRole => s.files.bias
    case DarkRole => s.files.darks
    case FlatRole => s.files.flats
  }

  /** The file a master is saved to, in the working directory. */
  function MasterFileName(role: Role): string {
    match role
    case BiasRole => "master_bias.fits"
    case DarkRole => "master_dark.fits"
    case FlatRole => "master_flat.fits"
  }

  /** What the user is told after a master-building command. */
  datatype Report =
    | NothingToDo
    | BuildFailed(error: Masters.MasterError)
    | Saved(path: string)
    | SaveFailed(path: string)

  /** `master.write(path, overwrite=True)`: whether the write succeeded. */
  type Writer = (Image, string) -> bool

  /** `os.makedirs(directory, exist_ok=True)`: whether the directory exists afterwards instead of the call raising. */
  type DirectoryMaker = string -> bool

  /** The builder of a role; darks and flats get the current master bias. */
  function Build(s: AppState, role: Role, lib: Library, load: Masters.Loader): Result<Image, Masters.MasterError> {
    match role
    case BiasRole => Masters.CreateMasterBias(lib, load, s.files.bias)
    case DarkRole => Masters.CreateMasterDark(lib, load, s.files.darks, s.masterBias)
    case FlatRole => Masters.CreateMasterFlat(lib, load, s.files.flats, s.masterBias)
  }

  function SetMaster(s: AppState, role: Role, master: Image): (r: AppState)
    ensures Master(r, role) == Some(master)
    ensures forall other :: other != role ==> Master(r, other) == Master(s, other)
    ensures r.files == s.files && r.config == s.config && r.currentType == s.currentType && r.index == s.index
  {
    match role
    case BiasRole => s.(masterBias := Some(master))
    case DarkRole => s.(masterDark := Some(master))
    case FlatRole => s.(masterFlat := Some(master))
  }

  function Master(s: AppState, role: Role): Option<Image> {
    match role
    case BiasRole => s.masterBias
    case DarkRole => s.masterDark
    case FlatRole => s.masterFlat
  }

  /**
    `create_master_bias()`, `create_master_dark()`, `create_master_flat()`. An empty stack is
    refused with no change; a failing build changes nothing; a successful build replaces that
    master only, and does so even when saving it then fails (the assignment precedes the write).
  */
  function CreateMaster(s: AppState, role: Role, lib: Library, load: Masters.Loader, write: Writer): (r: (AppState, Report))
    ensures |Stack(s, role)| == 0 ==> r == (s, NothingToDo)
    ensures r.1.BuildFailed? || r.1.NothingToDo? ==> r.0 == s
    ensures r.1.BuildFailed? ==> |Stack(s, role)| > 0 && Build(s, role, lib, load) == Err(r.1.error)
    ensures r.1.Saved? || r.1.SaveFailed? ==>
              && r.1.path == Paths.Join(s.config.workingDirectory, MasterFileName(role))
              && Build(s, role, lib, load).Ok?
              && Master(r.0, role) == Some(Build(s, role, lib, load).value)
              && (r.1.Saved? <==> write(Build(s, role, lib, load).value, r.1.path))
    ensures forall other :: other != role ==> Master(r.0, other) == Master(s, other)
    ensures r.0.files == s.files && r.0.config == s.config && r.0.currentType == s.currentType && r.0.index == s.index
  {
    if |Stack(s, role)| == 0 then (s, NothingToDo)
    else
      var built := Build(s, role, lib, load);
      match built
      case Err(e) => (s, BuildFailed(e))
      case Ok(master) =>
        var path := Paths.Join(s.config.workingDirectory, MasterFileName(role));
        (SetMaster(s, role, master), if write(master, path) then Saved(path) else SaveFailed(path))
  }

  /** A master exists after the command exactly when the build succeeded or it existed before. */
  lemma MasterAfterCreate(s: AppState, role: Role, lib: Library, load: Masters.Loader, write: Writer)
    ensures Master(CreateMaster(s, role, lib, load, write).0, role).Some? <==>
              (|Stack(s, role)| > 0 && Build(s, role, lib, load).Ok?) || Master(s, role).Some?
  {
    if |Stack(s, role)| > 0 && Build(s, role, lib, load).Ok? {
      assert CreateMaster(s, role, lib, load, write).0 == SetMaster(s, role, Build(s, role, lib, load).value);
    }
  }

  /** The bias master is built with the fixed average-combine parameters; a failed save still keeps it. */
  lemma BiasMasterKeptWhenSaveFails(s: AppState, lib: Library, load: Masters.Loader, write: Writer)
    requires |s.files.bias| > 0 && Masters.AllLoad(load, s.files.bias) && SameShape(Masters.Loaded(load, s.files.bias))
    requires forall m: Image, p: string :: !write(m, p)
    ensures CreateMaster(s, BiasRole, lib, load, write).0.masterBias == Some(lib.combine(Masters.Loaded(load, s.files.bias), Masters.BiasDarkParams))
    ensures CreateMaster(s, BiasRole, lib, load, write).1.SaveFailed?
  {
  }

  /** The prefix of a calibrated file's name, and the subdirectory of the working directory it goes to. */
  const OutputPrefix := "calibrated_"
  const OutputDirectory := "calibrated"

  /** The name a calibrated file gets holds no separator. */
  lemma PlainOutputName(light: string)
    ensures Paths.Sep !in OutputPrefix + Paths.Basename(light)
  {
    assert forall i :: 0 <= i < |OutputPrefix| ==> OutputPrefix[i] != Paths.Sep;
  }

  /**
    Where calibrated light `light` is saved: in the "calibrated" subdirectory of the working
    directory, one separator, then "calibrated_" plus the light's basename.
  */
  function OutputPath(workingDirectory: string, light: string): (p: string)
    ensures p == Paths.Join(workingDirectory, OutputDirectory) + [Paths.Sep] + OutputPrefix + Paths.Basename(light)
    ensures Paths.Basename(p) == OutputPrefix + Paths.Basename(light)
  {
    var name := OutputPrefix + Paths.Basename(light);
    var directory := Paths.Join(workingDirectory, OutputDirectory);
    PlainOutputName(light);
    Paths.BasenameOfJoinedName(directory, name);
    OutputDirectoryShape(workingDirectory);
    assert name[0] == 'c';
    Paths.JoinInserts(directory, name);
    Paths.Join(directory, name)
  }

  /** The output directory is never empty and never ends in a separator: it ends in "calibrated". */
  lemma OutputDirectoryShape(workingDirectory: string)
    ensures |Paths.Join(workingDirectory, OutputDirectory)| > 0
    ensures Paths.Join(workingDirectory, OutputDirectory)[|Paths.Join(workingDirectory, OutputDirectory)| - 1] == 'd'
  {
    var d := Paths.Join(workingDirectory, OutputDirectory);
    assert OutputDirectory[0] == 'c';
    assert d[|d| - |OutputDirectory|..] == OutputDirectory;
    assert d[|d| - 1] == d[|d| - |OutputDirectory|..][|OutputDirectory| - 1];
  }

  /** Whether each write, frame `i` to path `i`, succeeded. */
  function WriteOutcomes(frames: seq<Image>, paths: seq<string>, write: Writer): (w: seq<bool>)
    requires |frames| == |paths|
    ensures |w| == |frames|
    ensures forall i :: 0 <= i < |frames| ==> w[i] == write(frames[i], paths[i])
  {
    seq(|frames|, i requires 0 <= i < |frames| => write(frames[i], paths[i]))
  }

  /**
    `saved_count` after the loop: the number of writes that succeeded, so it reaches the
    number of frames exactly when every write succeeds and stays 0 exactly when none does.
  */
  function SavedCount(frames: seq<Image>, paths: seq<string>, write: Writer): (n: nat)
    requires |frames| == |paths|
    ensures n == multiset(WriteOutcomes(frames, paths, write))[true]
    ensures n <= |frames|
    ensures n == |frames| <==> forall i :: 0 <= i < |frames| ==> write(frames[i], paths[i])
    ensures n == 0 <==> forall i :: 0 <= i < |frames| ==> !write(frames[i], paths[i])
  {
    if |frames| == 0 then 0
    else
      var rest := SavedCount(frames[1..], paths[1..], write);
      assert forall i :: 1 <= i < |frames| ==> frames[1..][i - 1] == frames[i] && paths[1..][i - 1] == paths[i];
      assert WriteOutcomes(frames, paths, write) == [write(frames[0], paths[0])] + WriteOutcomes(frames[1..], paths[1..], write);
      (if write(frames[0], paths[0]) then 1 else 0) + rest
  }

  /**
    What the user is told after the calibration command; the state itself never changes. Both
    failures reach the command's outer exception handler.
  */
  datatype CalibrationReport =
    | NoLights
    | CalibrationFailed(error: Calibration.CalibrationError)
    | DirectoryFailed(directory: string)
    | Finished(outputs: seq<string>, saved: nat)

  /**
    `calibrate_lights()`: no lights means nothing to do; a failing frame aborts with its error
    before anything is saved; a calibrated batch still fails when the output directory cannot be
    made; otherwise calibrated frame `i` is written to the output path of light `i`, and the
    report counts the writes that succeeded.
  */
  function CalibrateLights(s: AppState, lib: Library, load: Calibration.Loader, makeDir: DirectoryMaker,
                           write: Writer): (r: CalibrationReport)
    ensures |s.files.lights| == 0 ==> r == NoLights
    ensures r.CalibrationFailed? <==>
              |s.files.lights| > 0 && Calibration.CalibrateLights(lib, load, s.files.lights, s.masterBias, s.masterDark, s.masterFlat).Err?
    ensures r.DirectoryFailed? <==>
              && |s.files.lights| > 0
              && Calibration.CalibrateLights(lib, load, s.files.lights, s.masterBias, s.masterDark, s.masterFlat).Ok?
              && !makeDir(Paths.Join(s.config.workingDirectory, OutputDirectory))
    ensures r.DirectoryFailed? ==> r.directory == Paths.Join(s.config.workingDirectory, OutputDirectory)
    ensures r.Finished? ==> makeDir(Paths.Join(s.config.workingDirectory, OutputDirectory))
    ensures r.Finished? ==> && |r.outputs| == |s.files.lights|
                            && (forall i :: 0 <= i < |r.outputs| ==> r.outputs[i] == OutputPath(s.config.workingDirectory, s.files.lights[i]))
                            && r.saved <= |s.files.lights|
    ensures r.Finished? ==>
              var frames := Calibration.CalibrateLights(lib, load, s.files.lights, s.masterBias, s.masterDark, s.masterFlat).value;
              && |frames| == |r.outputs|
              && r.saved == multiset(WriteOutcomes(frames, r.outputs, write))[true]
              && (r.saved == |s.files.lights| <==> forall i :: 0 <= i < |frames| ==> write(frames[i], r.outputs[i]))
  {
    if |s.files.lights| == 0 then NoLights
    else
      match Calibration.CalibrateLights(lib, load, s.files.lights, s.masterBias, s.masterDark, s.masterFlat)
      case Err(e) => CalibrationFailed(e)
      case Ok(frames) =>
        var directory := Paths.Join(s.config.workingDirectory, OutputDirectory);
        if !makeDir(directory) then DirectoryFailed(directory)
        else
          var outputs := seq(|s.files.lights|, i requires 0 <= i < |s.files.lights| => OutputPath(s.config.workingDirectory, s.files.lights[i]));
          Finished(outputs, SavedCount(frames, outputs, write))
  }

  /** Every calibrated file is saved under a derived name: its basename is "calibrated_" plus the light's. */
  lemma OutputNames(s: AppState, lib: Library, load: Calibration.Loader, makeDir: DirectoryMaker, write: Writer)
    requires CalibrateLights(s, lib, load, makeDir, write).Finished?
    ensures forall i :: 0 <= i < |s.files.lights| ==>
              Paths.Basename(CalibrateLights(s, lib, load, makeDir, write).outputs[i]) == OutputPrefix + Paths.Basename(s.files.lights[i])
  {
  }
}
