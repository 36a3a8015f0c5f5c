/**
  The master-frame builder (`MastersProcessor`): it reads a stack of raw calibration frames,
  optionally subtracts a master bias, normalises flats by their own median, and hands the
  stack to `ccdproc.combine` with fixed parameters per role.
*/
module Masters {
  import opened Wrappers
  import opened Pixels
  import opened Fits
  import opened Ccdproc

  datatype MasterError =
    /** The `ValueError` raised for an empty file list, before anything is read. */
    | NoFrames
    /** Reading `path` raised with `message`. */
    | LoadFailed(path: string, message: string)
    /** A library call raised because two arrays differ in shape. */
    | ShapeMismatch
    /**
      A flat whose median is zero (or which has no pixels): numpy would divide by zero and fill
      the frame with infinities or NaN; the model, which has no such values, reports it instead.
    */
    | DegenerateFlat

  /** The FITS reader, `read_fits_with_unit(path)` with unit 'adu'. */
  type Loader = string -> Result<Image, string>

  /** Combination used for both bias and dark masters. */
  const BiasDarkParams := CombineParams(Average, true, 5.0, 5.0, Some(MaskedMedian), Some(MadStd), Some(360000000.0), Some("adu"))

  /** Combination used for flat masters: median, tighter thresholds, library defaults otherwise. */
  const FlatParams := CombineParams(MedianMethod, true, 3.0, 3.0, None, None, None, None)

  predicate AllLoad(load: Loader, paths: seq<string>) {
    forall i :: 0 <= i < |paths| ==> load(paths[i]).Ok?
  }

  /** Position `k` holds the first path that fails to load. */
  predicate FirstLoadFailure(load: Loader, paths: seq<string>, k: int) {
    && 0 <= k < |paths|
    && load(paths[k]).Err?
    && forall j :: 0 <= j < k ==> load(paths[j]).Ok?
  }

  /** The frames read from `paths`, in order (only meaningful when every read succeeds). */
  function Loaded(load: Loader, paths: seq<string>): seq<Image>
    requires AllLoad(load, paths)
  {
    seq(|paths|, i requires 0 <= i < |paths| => load(paths[i]).value)
  }

  /**
    `[read(f) for f in files]`: one frame per path in the given order; the first read that
    raises aborts the whole list.
  */
  function LoadAll(load: Loader, paths: seq<string>): (r: Result<seq<Image>, MasterError>)
    ensures r.Ok? <==> AllLoad(load, paths)
    ensures r.Ok? ==> |r.value| == |paths| && forall i :: 0 <= i < |paths| ==> r.value[i] == load(paths[i]).value
    ensures r.Err? ==> exists k :: FirstLoadFailure(load, paths, k) && r.error == LoadFailed(paths[k], load(paths[k]).error)
  {
    if |paths| == 0 then Ok([])
    else
      match load(paths[0])
      case Err(m) =>
        assert FirstLoadFailure(load, paths, 0);
        Err(LoadFailed(paths[0], m))
      case Ok(img) =>
        match LoadAll(load, paths[1..])
        case Err(e) =>
          var k :| FirstLoadFailure(load, paths[1..], k) && e == LoadFailed(paths[1..][k], load(paths[1..][k]).error);
          assert FirstLoadFailure(load, paths, k + 1);
          Err(e)
        case Ok(rest) => Ok([img] + rest)
  }

  /** A master bias, when supplied, has the frame's shape. */
  predicate FitsBias(frame: Image, masterBias: Option<Image>) {
    masterBias.Some? ==> |masterBias.value.data| == |frame.data|
  }

  /** The frame with the master bias subtracted when one is supplied, and unchanged otherwise. */
  function BiasApplied(lib: Library, frame: Image, masterBias: Option<Image>): Image
    requires FitsBias(frame, masterBias)
  {
    if masterBias.Some? then SubtractBias(lib, frame, masterBias.value) else frame
  }

  /** `[subtract_bias(f, master_bias) for f in frames]` when a master bias is supplied; the identity otherwise. */
  function SubtractBiasAll(lib: Library, frames: seq<Image>, masterBias: Option<Image>): (r: Result<seq<Image>, MasterError>)
    ensures masterBias.None? ==> r == Ok(frames)
    ensures r.Ok? <==> forall i :: 0 <= i < |frames| ==> FitsBias(frames[i], masterBias)
    ensures r.Ok? ==> |r.value| == |frames| && forall i :: 0 <= i < |frames| ==> r.value[i] == BiasApplied(lib, frames[i], masterBias)
    ensures r.Err? ==> r.error == ShapeMismatch
  {
    if masterBias.None? then Ok(frames)
    else if forall i :: 0 <= i < |frames| ==> |frames[i].data| == |masterBias.value.data| then
      Ok(seq(|frames|, i requires 0 <= i < |frames| => SubtractBias(lib, frames[i], masterBias.value)))
    else Err(ShapeMismatch)
  }

  /** A flat can be normalised: it has pixels and a nonzero median. */
  predicate Normalisable(frame: Image) {
    |frame.data| > 0 && Median(frame.data) != 0.0
  }

  /**
    `CCDData(flat.data / np.median(flat.data), unit=flat.unit)`: every pixel divided by the
    frame's own median, the unit kept and the header dropped. The result has median exactly 1.
  */
  function NormaliseFlat(frame: Image): (r: Result<Image, MasterError>)
    ensures r.Ok? <==> Normalisable(frame)
    ensures r.Err? ==> r.error == DegenerateFlat
    ensures r.Ok? ==> && r.value.unit == frame.unit
                      && r.value.header == EmptyHeader
                      && |r.value.data| == |frame.data|
                      && (forall i :: 0 <= i < |frame.data| ==> r.value.data[i] == frame.data[i] / Median(frame.data))
                      && Median(r.value.data) == 1.0
  {
    if |frame.data| == 0 || Median(frame.data) == 0.0 then Err(DegenerateFlat)
    else
      NormalisedMedianIsOne(frame.data);
      Ok(Image(DivideBy(frame.data, Median(frame.data)), frame.unit, EmptyHeader))
  }

  /** The normalisation loop over a whole stack of flats. */
  function NormaliseAll(frames: seq<Image>): (r: Result<seq<Image>, MasterError>)
    ensures r.Ok? <==> forall i :: 0 <= i < |frames| ==> Normalisable(frames[i])
    ensures r.Ok? ==> |r.value| == |frames| && forall i :: 0 <= i < |frames| ==> Ok(r.value[i]) == NormaliseFlat(frames[i])
    ensures r.Err? ==> r.error == DegenerateFlat
  {
    if forall i :: 0 <= i < |frames| ==> Normalisable(frames[i]) then
      Ok(seq(|frames|, i requires 0 <= i < |frames| => NormaliseFlat(frames[i]).value))
    else Err(DegenerateFlat)
  }

  /** `ccdproc.combine(stack, **params)`, which raises unless every frame has the same shape. */
  function Combine(lib: Library, stack: seq<Image>, params: CombineParams): (r: Result<Image, MasterError>)
    ensures r.Ok? <==> SameShape(stack)
    ensures r.Ok? ==> r.value == lib.combine(stack, params)
    ensures r.Err? ==> r.error == ShapeMismatch
  {
    if SameShape(stack) then Ok(lib.combine(stack, params)) else Err(ShapeMismatch)
  }

  /**
    `create_master_bias`: rejects an empty list before reading, then combines the frames as
    read, in order, with the bias/dark parameters. Bias frames never get a bias subtracted.
  */
  function CreateMasterBias(lib: Library, load: Loader, files: seq<string>): (r: Result<Image, MasterError>)
    ensures |files| == 0 ==> r == Err(NoFrames)
    ensures |files| > 0 && !AllLoad(load, files) ==> r.Err? && r.error.LoadFailed?
    ensures r.Ok? <==> |files| > 0 && AllLoad(load, files) && SameShape(Loaded(load, files))
    ensures r.Ok? ==> r.value == lib.combine(Loaded(load, files), BiasDarkParams)
  {
    if |files| == 0 then Err(NoFrames)
    else
      match LoadAll(load, files)
      case Err(e) => Err(e)
      case Ok(frames) =>
        assert frames == Loaded(load, files);
        Combine(lib, frames, BiasDarkParams)
  }

  /** Every frame of the stack has the shape of the master bias, when one is supplied. */
  predicate StackFitsBias(frames: seq<Image>, masterBias: Option<Image>) {
    forall i :: 0 <= i < |frames| ==> FitsBias(frames[i], masterBias)
  }

  /** The stack with the optional master bias subtracted from every frame. */
  function Corrected(lib: Library, frames: seq<Image>, masterBias: Option<Image>): seq<Image>
    requires StackFitsBias(frames, masterBias)
  {
    seq(|frames|, i requires 0 <= i < |frames| => BiasApplied(lib, frames[i], masterBias))
  }

  /** Every flat of the stack can be normalised. */
  predicate StackNormalisable(frames: seq<Image>) {
    forall i :: 0 <= i < |frames| ==> Normalisable(frames[i])
  }

  /** The stack with every flat divided by its own median. */
  function Normalised(frames: seq<Image>): seq<Image>
    requires StackNormalisable(frames)
  {
    seq(|frames|, i requires 0 <= i < |frames| => NormaliseFlat(frames[i]).value)
  }

  /**
    `create_master_dark`: rejects an empty list before reading; subtracts the master bias from
    every dark when one is supplied and from none otherwise; combines with the same parameters
    as the bias master.
  */
  function CreateMasterDark(lib: Library, load: Loader, files: seq<string>, masterBias: Option<Image>): (r: Result<Image, MasterError>)
    ensures |files| == 0 ==> r == Err(NoFrames)
    ensures |files| > 0 && !AllLoad(load, files) ==> r.Err? && r.error.LoadFailed?
    ensures r.Ok? <==> && |files| > 0 && AllLoad(load, files)
                       && StackFitsBias(Loaded(load, files), masterBias)
                       && SameShape(Corrected(lib, Loaded(load, files), masterBias))
    ensures r.Ok? ==> r.value == lib.combine(Corrected(lib, Loaded(load, files), masterBias), BiasDarkParams)
  {
    if |files| == 0 then Err(NoFrames)
    else
      match LoadAll(load, files)
      case Err(e) => Err(e)
      case Ok(frames) =>
        assert frames == Loaded(load, files);
        match SubtractBiasAll(lib, frames, masterBias)
        case Err(e) => Err(e)
        case Ok(darks) =>
          assert darks == Corrected(lib, frames, masterBias);
          Combine(lib, darks, BiasDarkParams)
  }

  /**
    `create_master_flat`: rejects an empty list before reading; subtracts the optional master
    bias; divides every flat by its own median; combines by median with thresholds 3/3.
  */
  function CreateMasterFlat(lib: Library, load: Loader, files: seq<string>, masterBias: Option<Image>): (r: Result<Image, MasterError>)
    ensures |files| == 0 ==> r == Err(NoFrames)
    ensures |files| > 0 && !AllLoad(load, files) ==> r.Err? && r.error.LoadFailed?
    ensures r.Ok? <==> && |files| > 0 && AllLoad(load, files)
                       && StackFitsBias(Loaded(load, files), masterBias)
                       && StackNormalisable(Corrected(lib, Loaded(load, files), masterBias))
                       && SameShape(Normalised(Corrected(lib, Loaded(load, files), masterBias)))
    ensures r.Ok? ==> r.value == lib.combine(Normalised(Corrected(lib, Loaded(load, files), masterBias)), FlatParams)
  {
    if |files| == 0 then Err(NoFrames)
    else
      match LoadAll(load, files)
      case Err(e) => Err(e)
      case Ok(frames) =>
        assert frames == Loaded(load, files);
        match SubtractBiasAll(lib, frames, masterBias)
        case Err(e) => Err(e)
        case Ok(flats) =>
          assert flats == Corrected(lib, frames, masterBias);
          match NormaliseAll(flats)
          case Err(e) => Err(e)
          case Ok(normalised) =>
            assert normalised == Normalised(flats);
            Combine(lib, normalised, FlatParams)
  }

  /**
    What the flat master is built from: one frame per file, in order, each the bias-corrected
    flat divided by its own median, hence with median exactly 1, the source unit and an empty header.
  */
  lemma {:induction false} FlatStackNormalised(lib: Library, load: Loader, files: seq<string>, masterBias: Option<Image>)
    requires CreateMasterFlat(lib, load, files, masterBias).Ok?
    ensures AllLoad(load, files) && StackFitsBias(Loaded(load, files), masterBias)
    ensures StackNormalisable(Corrected(lib, Loaded(load, files), masterBias))
    ensures var stack := Normalised(Corrected(lib, Loaded(load, files), masterBias));
      && |stack| == |files|
      && forall i :: 0 <= i < |files| ==>
           && Median(stack[i].data) == 1.0
           && stack[i].header == EmptyHeader
           && stack[i].unit == load(files[i]).value.unit
  {
    var corrected := Corrected(lib, Loaded(load, files), masterBias);
    var stack := Normalised(corrected);
    forall i | 0 <= i < |files|
      ensures Median(stack[i].data) == 1.0 && stack[i].header == EmptyHeader
      ensures stack[i].unit == load(files[i]).value.unit
    {
      assert Ok(stack[i]) == NormaliseFlat(corrected[i]);
      assert corrected[i].unit == load(files[i]).value.unit;
    }
  }

  /** The bias and dark masters are combined with identical parameters: average, clipping at 5/5 with median and MAD-std, unit 'adu'. */
  lemma BiasAndDarkShareParams(lib: Library, load: Loader, files: seq<string>)
    ensures CreateMasterDark(lib, load, files, None) == CreateMasterBias(lib, load, files)
  {
    if |files| > 0 && AllLoad(load, files) {
      assert Corrected(lib, Loaded(load, files), None) == Loaded(load, files);
    }
  }

}
