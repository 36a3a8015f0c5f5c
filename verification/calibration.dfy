/**
  The light calibrator (`CalibrationProcessor`): every light frame goes through bias
  subtraction, dark subtraction and flat correction, each only when its master is present and
  always in that order, then through a clip to non-negative values. Frames are calibrated in
  input order and the first frame that fails aborts the batch.
*/
module Calibration {
  import opened Wrappers
  import opened Pixels
  import opened Fits
  import opened Ccdproc
  import Paths

  datatype Step = BiasStep | DarkStep | FlatStep

  /**
    Why one light frame could not be calibrated: the reader failed, a master has another shape,
    or the dark step found no `EXPOSURE` card in the light's header (`inMaster` false) or in the
    master dark's (`inMaster` true).
  */
  datatype FrameError =
    | LoadFailed(message: string)
    | ShapeMismatch(step: Step)
    | MissingExposure(inMaster: bool)

  /** The exception that aborts a batch: it names the basename of the failing light file. */
  datatype CalibrationError = CalibrationError(file: string, cause: FrameError)

  /** The FITS reader for light frames. */
  type Loader = string -> Result<Image, string>

  /** Some flat pixel is zero or negative, the condition `np.any(master_flat.data <= 0)`. */
  predicate HasNonPositive(flat: Frame) {
    exists i :: 0 <= i < |flat| && flat[i] <= 0.0
  }

  /**
    The guarded copy of the flat, `flat_data[flat_data <= 0] = np.median(flat_data) * 0.01`:
    every pixel at or below zero becomes one hundredth of the median of the ORIGINAL flat
    (the right-hand side is evaluated first); every positive pixel is kept.
  */
  function GuardedFlat(flat: Frame): (r: Frame)
    ensures |r| == |flat|
    ensures forall i :: 0 <= i < |flat| && flat[i] > 0.0 ==> r[i] == flat[i]
    ensures forall i :: 0 <= i < |flat| && flat[i] <= 0.0 ==> r[i] == Median(flat) * 0.01
  {
    if |flat| == 0 then []
    else
      var replacement := Median(flat) * 0.01;
      seq(|flat|, i requires 0 <= i < |flat| => if flat[i] <= 0.0 then replacement else flat[i])
  }

  /** With a positive median the guard leaves no pixel at or below zero. */
  lemma GuardedFlatPositive(flat: Frame)
    requires |flat| > 0 && Median(flat) > 0.0
    ensures forall i :: 0 <= i < |flat| ==> GuardedFlat(flat)[i] > 0.0
  {
  }

  /**
    With a median at or below zero the guard gives no such guarantee: the flat [0, 0, 1] has
    median 0, so its zero pixels are "replaced" by 0 and the division still meets a zero.
  */
  lemma GuardedFlatCanKeepZero()
    ensures Median([0.0, 0.0, 1.0]) == 0.0
    ensures GuardedFlat([0.0, 0.0, 1.0])[0] == 0.0
  {
    MedianZeroZeroOne();
  }

  lemma MedianZeroZeroOne()
    ensures Median([0.0, 0.0, 1.0]) == 0.0
  {
    SortZeroZeroOne();
  }

  lemma SortZeroOne()
    ensures Sort([0.0, 1.0]) == [0.0, 1.0]
  {
    assert [0.0, 1.0][1..] == [1.0];
    assert Sort([1.0]) == Insert(1.0, Sort([])) == [1.0];
    assert Insert(0.0, [1.0]) == [0.0, 1.0];
  }

  lemma SortZeroZeroOne()
    ensures Sort([0.0, 0.0, 1.0]) == [0.0, 0.0, 1.0]
  {
    assert [0.0, 0.0, 1.0][1..] == [0.0, 1.0];
    SortZeroOne();
    assert Insert(0.0, [0.0, 1.0]) == [0.0, 0.0, 1.0];
  }

  /** When no flat pixel is at or below zero the guard is the identity. */
  lemma GuardedFlatIdentity(flat: Frame)
    requires !HasNonPositive(flat)
    ensures GuardedFlat(flat) == flat
  {
  }

  /** The master flat actually divided by: the guarded copy when needed, the master itself otherwise. */
  function FlatForDivision(masterFlat: Image): (r: Image)
    ensures r.data == GuardedFlat(masterFlat.data)
    ensures r.unit == masterFlat.unit && r.header == masterFlat.header
  {
    if HasNonPositive(masterFlat.data) then
      Image(GuardedFlat(masterFlat.data), masterFlat.unit, masterFlat.header)
    else
      GuardedFlatIdentity(masterFlat.data);
      masterFlat
  }

  /** A master, when present, has the light frame's shape. */
  predicate Compatible(light: Image, master: Option<Image>) {
    master.Some? ==> |master.value.data| == |light.data|
  }

  /** Step 2: `subtract_bias` when the master bias is present. */
  function ApplyBias(lib: Library, ccd: Image, masterBias: Option<Image>): (r: Result<Image, FrameError>)
    ensures r.Ok? <==> Compatible(ccd, masterBias)
    ensures r.Err? ==> r.error == ShapeMismatch(BiasStep)
    ensures masterBias.None? ==> r == Ok(ccd)
  {
    match masterBias
    case None => Ok(ccd)
    case Some(b) => if |b.data| == |ccd.data| then Ok(SubtractBias(lib, ccd, b)) else Err(ShapeMismatch(BiasStep))
  }

  /** With a master dark present, both the frame's header and the master's carry an `EXPOSURE` card. */
  predicate ExposuresPresent(ccd: Image, masterDark: Option<Image>) {
    masterDark.Some? ==> ExposureKey in ccd.header.cards && ExposureKey in masterDark.value.header.cards
  }

  /**
    Step 3: `subtract_dark` with exposure scaling when the master dark is present. It fails on a
    missing `EXPOSURE` card, the light's looked up first, and only then on a shape misfit.
  */
  function ApplyDark(lib: Library, ccd: Image, masterDark: Option<Image>): (r: Result<Image, FrameError>)
    ensures r.Ok? <==> ExposuresPresent(ccd, masterDark) && Compatible(ccd, masterDark)
    ensures masterDark.Some? && ExposureKey !in ccd.header.cards ==> r == Err(MissingExposure(false))
    ensures masterDark.Some? && ExposureKey in ccd.header.cards && ExposureKey !in masterDark.value.header.cards ==>
      r == Err(MissingExposure(true))
    ensures r.Err? && ExposuresPresent(ccd, masterDark) ==> r.error == ShapeMismatch(DarkStep)
    ensures masterDark.None? ==> r == Ok(ccd)
  {
    match masterDark
    case None => Ok(ccd)
    case Some(d) =>
      match SubtractDark(lib, ccd, d)
      case Ok(x) => Ok(x)
      case Err(NoExposureCard(inMaster)) => Err(MissingExposure(inMaster))
      case Err(DarkShapeMismatch) => Err(ShapeMismatch(DarkStep))
  }

  /** Step 4: `flat_correct` by the guarded master flat when the master flat is present. */
  function ApplyFlat(lib: Library, ccd: Image, masterFlat: Option<Image>): (r: Result<Image, FrameError>)
    ensures r.Ok? <==> Compatible(ccd, masterFlat)
    ensures r.Err? ==> r.error == ShapeMismatch(FlatStep)
    ensures masterFlat.None? ==> r == Ok(ccd)
  {
    match masterFlat
    case None => Ok(ccd)
    case Some(f) =>
      if |f.data| == |ccd.data| then Ok(FlatCorrect(lib, ccd, FlatForDivision(f))) else Err(ShapeMismatch(FlatStep))
  }

  /**
    The value one calibrated pixel must have, written pixel by pixel: bias, then dark, then
    the guarded flat, each only with its master present, then the clip at zero.
  */
  function ExpectedPixel(lib: Library, light: Image, masterBias: Option<Image>, masterDark: Option<Image>,
                         masterFlat: Option<Image>, i: nat): real
    requires i < |light.data|
    requires Calibratable(light, masterBias, masterDark, masterFlat)
  {
    var x0 := light.data[i];
    var x1 := if masterBias.Some? then lib.biasPixel(x0, masterBias.value.data[i]) else x0;
    var x2 := if masterDark.Some? then
                lib.darkPixel(light.header.cards[ExposureKey], masterDark.value.header.cards[ExposureKey], x1, masterDark.value.data[i])
              else x1;
    var g := GuardedFlat(if masterFlat.Some? then masterFlat.value.data else []);
    var x3 := if masterFlat.Some? then lib.flatPixel(g, x2, g[i]) else x2;
    ClipPixel(x3)
  }

  /** Every present master fits the light frame, and the dark step finds both `EXPOSURE` cards. */
  predicate Calibratable(light: Image, masterBias: Option<Image>, masterDark: Option<Image>, masterFlat: Option<Image>) {
    && Compatible(light, masterBias)
    && ExposuresPresent(light, masterDark)
    && Compatible(light, masterDark)
    && Compatible(light, masterFlat)
  }

  /**
    The error of the first check that fails, in the order the steps run: the bias shape, the
    light's `EXPOSURE` card, the master dark's, the dark shape, the flat shape.
  */
  function FirstFault(light: Image, masterBias: Option<Image>, masterDark: Option<Image>, masterFlat: Option<Image>): FrameError
    requires !Calibratable(light, masterBias, masterDark, masterFlat)
  {
    if !Compatible(light, masterBias) then ShapeMismatch(BiasStep)
    else if masterDark.Some? && ExposureKey !in light.header.cards then MissingExposure(false)
    else if masterDark.Some? && ExposureKey !in masterDark.value.header.cards then MissingExposure(true)
    else if !Compatible(light, masterDark) then ShapeMismatch(DarkStep)
    else ShapeMismatch(FlatStep)
  }

  /** Both cards the call `c` logs are in `h`, with the values the call gives them. */
  predicate HasLog(lib: Library, h: Header, c: Command) {
    && c.LongKey() in h.cards && h.cards[c.LongKey()] == Str(c.ShortName())
    && c.ShortKey() in h.cards && h.cards[c.ShortKey()] == Str(lib.logText(c))
  }

  /** The cards logged by the steps that ran. */
  function LoggedKeys(bias: bool, dark: bool, flat: bool): set<string> {
    (if bias then {SubtractBiasCall.LongKey(), SubtractBiasCall.ShortKey()} else {})
    + (if dark then {SubtractDarkCall.LongKey(), SubtractDarkCall.ShortKey()} else {})
    + (if flat then {FlatCorrectCall.LongKey(), FlatCorrectCall.ShortKey()} else {})
  }

  /**
    The header of a calibrated frame: each step that ran has logged both of its cards; every
    other card and every HISTORY line of the light's header is kept.
  */
  function StepsLogged(lib: Library, h: Header, bias: bool, dark: bool, flat: bool): (r: Header)
    ensures forall k :: k !in LoggedKeys(bias, dark, flat) ==> (k in r.cards <==> k in h.cards)
    ensures forall k :: k !in LoggedKeys(bias, dark, flat) && k in h.cards ==> r.cards[k] == h.cards[k]
    ensures bias ==> HasLog(lib, r, SubtractBiasCall)
    ensures dark ==> HasLog(lib, r, SubtractDarkCall)
    ensures flat ==> HasLog(lib, r, FlatCorrectCall)
    ensures !bias && !dark && !flat ==> r == h
    ensures r.history == h.history
  {
    LoggedKeysDistinct();
    var h1 := if bias then Logged(lib, h, SubtractBiasCall) else h;
    var h2 := if dark then Logged(lib, h1, SubtractDarkCall) else h1;
    if flat then Logged(lib, h2, FlatCorrectCall) else h2
  }

  /**
    One light frame through steps 2 to 5. It succeeds exactly when every present master has the
    frame's shape and, with a master dark, both headers carry `EXPOSURE`; otherwise it reports
    the first of these checks to fail. The result keeps the light's unit, its header gains the
    keyword card of every step that ran, and every pixel is the bias-dark-flat-clip composition
    of the corresponding input pixels.
  */
  function CalibrateFrame(lib: Library, light: Image, masterBias: Option<Image>, masterDark: Option<Image>,
                          masterFlat: Option<Image>): (r: Result<Image, FrameError>)
    ensures r.Ok? <==> Calibratable(light, masterBias, masterDark, masterFlat)
    ensures r.Err? ==> r.error == FirstFault(light, masterBias, masterDark, masterFlat)
    ensures r.Ok? ==> && |r.value.data| == |light.data|
                      && r.value.unit == light.unit
                      && r.value.header == StepsLogged(lib, light.header, masterBias.Some?, masterDark.Some?, masterFlat.Some?)
                      && forall i :: 0 <= i < |light.data| ==>
                           r.value.data[i] == ExpectedPixel(lib, light, masterBias, masterDark, masterFlat, i)
  {
    var calibrated := light;
    match ApplyBias(lib, calibrated, masterBias)
    case Err(e) => Err(e)
    case Ok(afterBias) =>
      match ApplyDark(lib, afterBias, masterDark)
      case Err(e) => Err(e)
      case Ok(afterDark) =>
        match ApplyFlat(lib, afterDark, masterFlat)
        case Err(e) => Err(e)
        case Ok(afterFlat) => Ok(afterFlat.(data := Clip(afterFlat.data)))
  }

  /** With no master at all, a calibrated frame is just the clipped copy of the light. */
  lemma NoMastersOnlyClips(lib: Library, light: Image)
    ensures CalibrateFrame(lib, light, None, None, None) == Ok(light.(data := Clip(light.data)))
  {
  }

  /** Steps 1 to 5 for one file: read it, then calibrate it. */
  function CalibratePath(lib: Library, load: Loader, path: string, masterBias: Option<Image>, masterDark: Option<Image>,
                         masterFlat: Option<Image>): (r: Result<Image, FrameError>)
    ensures load(path).Err? ==> r == Err(LoadFailed(load(path).error))
    ensures load(path).Ok? ==> r == CalibrateFrame(lib, load(path).value, masterBias, masterDark, masterFlat)
  {
    match load(path)
    case Err(m) => Err(LoadFailed(m))
    case Ok(light) => CalibrateFrame(lib, light, masterBias, masterDark, masterFlat)
  }

  /** Position `k` holds the first light that fails to calibrate. */
  predicate FirstFailure(lib: Library, load: Loader, lights: seq<string>, masterBias: Option<Image>,
                         masterDark: Option<Image>, masterFlat: Option<Image>, k: int) {
    && 0 <= k < |lights|
    && CalibratePath(lib, load, lights[k], masterBias, masterDark, masterFlat).Err?
    && forall j :: 0 <= j < k ==> CalibratePath(lib, load, lights[j], masterBias, masterDark, masterFlat).Ok?
  }

  /** A first failure in the tail, behind a head that succeeds, is the first failure of the whole list. */
  lemma FirstFailureShift(lib: Library, load: Loader, lights: seq<string>, masterBias: Option<Image>,
                          masterDark: Option<Image>, masterFlat: Option<Image>, k: int)
    requires |lights| > 0 && CalibratePath(lib, load, lights[0], masterBias, masterDark, masterFlat).Ok?
    requires FirstFailure(lib, load, lights[1..], masterBias, masterDark, masterFlat, k)
    ensures FirstFailure(lib, load, lights, masterBias, masterDark, masterFlat, k + 1)
  {
    forall j | 0 <= j < k + 1
      ensures CalibratePath(lib, load, lights[j], masterBias, masterDark, masterFlat).Ok?
    {
      if j > 0 {
        assert lights[j] == lights[1..][j - 1];
      }
    }
    assert lights[k + 1] == lights[1..][k];
  }

  /**
    `calibrate_lights`: on success exactly one calibrated frame per input path, in input order;
    otherwise the error of the first failing frame, named by its basename, and no partial list.
  */
  function CalibrateLights(lib: Library, load: Loader, lights: seq<string>, masterBias: Option<Image>,
                           masterDark: Option<Image>, masterFlat: Option<Image>): (r: Result<seq<Image>, CalibrationError>)
    ensures r.Ok? <==> forall i :: 0 <= i < |lights| ==> CalibratePath(lib, load, lights[i], masterBias, masterDark, masterFlat).Ok?
    ensures r.Ok? ==> && |r.value| == |lights|
                      && forall i :: 0 <= i < |lights| ==>
                           r.value[i] == CalibratePath(lib, load, lights[i], masterBias, masterDark, masterFlat).value
    ensures r.Err? ==> exists k :: && FirstFailure(lib, load, lights, masterBias, masterDark, masterFlat, k)
                                   && r.error == CalibrationError(Paths.Basename(lights[k]),
                                        CalibratePath(lib, load, lights[k], masterBias, masterDark, masterFlat).error)
  {
    if |lights| == 0 then Ok([])
    else
      match CalibratePath(lib, load, lights[0], masterBias, masterDark, masterFlat)
      case Err(e) =>
        assert FirstFailure(lib, load, lights, masterBias, masterDark, masterFlat, 0);
        Err(CalibrationError(Paths.Basename(lights[0]), e))
      case Ok(frame) =>
        match CalibrateLights(lib, load, lights[1..], masterBias, masterDark, masterFlat)
        case Err(e) =>
          var k :| FirstFailure(lib, load, lights[1..], masterBias, masterDark, masterFlat, k)
                   && e == CalibrationError(Paths.Basename(lights[1..][k]),
                        CalibratePath(lib, load, lights[1..][k], masterBias, masterDark, masterFlat).error);
          FirstFailureShift(lib, load, lights, masterBias, masterDark, masterFlat, k);
          Err(e)
        case Ok(rest) => Ok([frame] + rest)
  }

  /** `calibrate_without_flat`: the same batch with no master flat. */
  function CalibrateWithoutFlat(lib: Library, load: Loader, lights: seq<string>, masterBias: Option<Image>,
                                masterDark: Option<Image>): (r: Result<seq<Image>, CalibrationError>)
    ensures r == CalibrateLights(lib, load, lights, masterBias, masterDark, None)
  {
    CalibrateLights(lib, load, lights, masterBias, masterDark, None)
  }

  /** Every pixel of every calibrated frame is non-negative. */
  lemma {:induction false} CalibratedNonNegative(lib: Library, load: Loader, lights: seq<string>, masterBias: Option<Image>,
                                                 masterDark: Option<Image>, masterFlat: Option<Image>)
    requires CalibrateLights(lib, load, lights, masterBias, masterDark, masterFlat).Ok?
    ensures forall k, i :: 0 <= k < |lights| && 0 <= i < |CalibrateLights(lib, load, lights, masterBias, masterDark, masterFlat).value[k].data| ==>
      CalibrateLights(lib, load, lights, masterBias, masterDark, masterFlat).value[k].data[i] >= 0.0
  {
    var out := CalibrateLights(lib, load, lights, masterBias, masterDark, masterFlat).value;
    forall k, i | 0 <= k < |lights| && 0 <= i < |out[k].data| ensures out[k].data[i] >= 0.0 {
      var light := load(lights[k]).value;
      assert out[k] == CalibrateFrame(lib, light, masterBias, masterDark, masterFlat).value;
      assert out[k].data[i] == ExpectedPixel(lib, light, masterBias, masterDark, masterFlat, i);
    }
  }
}
