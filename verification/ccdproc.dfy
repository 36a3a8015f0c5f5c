/**
  The boundary to the ccdproc library. Its internals (sigma-clipped combination, exposure
  scaling of darks, normalisation inside `flat_correct`) are not part of this model: each call
  is an opaque function carried in a `Library` value, and the model states only how it is
  called and on which pixels. What the model does fix is what every ccdproc arithmetic call
  does observably: it works pixel by pixel, its result carries a copy of the corrected frame's
  unit and header to which the call logs two cards of its own (a HIERARCH card naming the
  function, such as `SUBTRACT_BIAS = 'subbias'`, and the short-named card `SUBBIAS` holding a
  description of the arguments), and `subtract_dark` with `exposure_time='exposure'` raises
  when either header has no `EXPOSURE` card. The arithmetic broadcasts as numpy does, so it
  raises only for shapes that cannot be broadcast together; the model admits equal shapes only
  and treats every other pair, a smaller broadcastable master included, as a shape misfit.
*/
module Ccdproc {
  import opened Wrappers
  import opened Pixels
  import opened Fits

  /** The `method=` argument of `ccdproc.combine`. */
  datatype CombineMethod = Average | MedianMethod

  /** The `sigma_clip_func=` argument: `np.ma.median`. */
  datatype ClipCenter = MaskedMedian

  /** The `sigma_clip_dev_func=` argument: `astropy.stats.mad_std`. */
  datatype ClipDeviation = MadStd

  /** The keyword arguments of one `ccdproc.combine` call; `None` means the argument is not passed. */
  datatype CombineParams = CombineParams(
    combineMethod: CombineMethod,
    sigmaClip: bool,
    lowThresh: real,
    highThresh: real,
    center: Option<ClipCenter>,
    deviation: Option<ClipDeviation>,
    memLimit: Option<real>,
    unit: Option<string>)

  /**
    The library calls the pipeline makes:
    - `biasPixel(x, b)`: one pixel of `subtract_bias`;
    - `darkPixel(lightExposure, darkExposure, x, d)`: one pixel of `subtract_dark` with
      `scale=True`, whose scale factor the library derives from the two `EXPOSURE` cards;
    - `flatPixel(flat, x, f)`: one pixel of `flat_correct`, which also sees the whole flat array;
    - `combine(stack, params)`: `ccdproc.combine` over a stack of equal-shape frames;
    - `logText(command)`: the text the logged call writes, which describes the call's
      arguments. Frames of more than one row are rendered as `<CCDData>`; the model takes the
      text not to depend on the frames at all, so a one-row frame, which is rendered by value,
      is outside what it states.
  */
  datatype Library = Library(
    biasPixel: (real, real) -> real,
    darkPixel: (Value, Value, real, real) -> real,
    flatPixel: (Frame, real, real) -> real,
    combine: (seq<Image>, CombineParams) -> Image,
    logText: Command -> string)

  /**
    The three logged ccdproc calls the pipeline makes. Every frame they see has a FITS header as
    its metadata, so ccdproc logs each call under two cards: the function's name, upper-cased on
    a HIERARCH card, holding the function's short name; and the short name, which astropy
    upper-cases, holding the description of the arguments.
  */
  datatype Command = SubtractBiasCall | SubtractDarkCall | FlatCorrectCall {
    /** The Python name of the function. */
    function FunctionName(): string {
      match this
      case SubtractBiasCall => "subtract_bias"
      case SubtractDarkCall => "subtract_dark"
      case FlatCorrectCall => "flat_correct"
    }

    /** The function's entry in ccdproc's table of short names. */
    function ShortName(): string {
      match this
      case SubtractBiasCall => "subbias"
      case SubtractDarkCall => "subdark"
      case FlatCorrectCall => "flatcor"
    }

    /** The HIERARCH card that names the function. */
    function LongKey(): string {
      match this
      case SubtractBiasCall => "SUBTRACT_BIAS"
      case SubtractDarkCall => "SUBTRACT_DARK"
      case FlatCorrectCall => "FLAT_CORRECT"
    }

    /** The card that holds the logged arguments. */
    function ShortKey(): string {
      match this
      case SubtractBiasCall => "SUBBIAS"
      case SubtractDarkCall => "SUBDARK"
      case FlatCorrectCall => "FLATCOR"
    }
  }

  /** ASCII upper case, as astropy applies it to keywords. */
  function UpperAscii(s: string): (r: string)
    ensures |r| == |s|
    ensures forall i :: 0 <= i < |s| ==> r[i] == if 'a' <= s[i] <= 'z' then (s[i] as int - 32) as char else s[i]
  {
    seq(|s|, i requires 0 <= i < |s| => if 'a' <= s[i] <= 'z' then (s[i] as int - 32) as char else s[i])
  }

  /** The two logged cards are the upper-cased function name and the upper-cased short name. */
  lemma KeysAreUpperCased(c: Command)
    ensures c.LongKey() == UpperAscii(c.FunctionName())
    ensures c.ShortKey() == UpperAscii(c.ShortName())
  {
    UpperAsciiOf(c.FunctionName(), c.LongKey());
    UpperAsciiOf(c.ShortName(), c.ShortKey());
  }

  /** `t` is the upper case of `s` when they agree letter by letter. */
  lemma UpperAsciiOf(s: string, t: string)
    requires |s| == |t|
    requires forall i :: 0 <= i < |s| ==> t[i] == if 'a' <= s[i] <= 'z' then (s[i] as int - 32) as char else s[i]
    ensures UpperAscii(s) == t
  {
  }

  /** The six logged cards are all different, and none is `EXPOSURE`. */
  lemma LoggedKeysDistinct()
    ensures forall c: Command, d: Command :: c.LongKey() != d.ShortKey()
    ensures forall c: Command, d: Command :: c != d ==> c.LongKey() != d.LongKey() && c.ShortKey() != d.ShortKey()
    ensures forall c: Command :: c.LongKey() != ExposureKey && c.ShortKey() != ExposureKey
  {
    assert "SUBTRACT_BIAS"[9] != "SUBTRACT_DARK"[9];
    assert "SUBBIAS"[3] != "SUBDARK"[3];
  }

  /** The header card `exposure_time='exposure'` names; FITS keywords are case-insensitive. */
  const ExposureKey := "EXPOSURE"

  /**
    The header of a call's result: the corrected frame's header with the call's HIERARCH card set
    to its short name and its short-named card set to the logged text; every other card and
    every HISTORY line is kept.
  */
  function Logged(lib: Library, h: Header, c: Command): (r: Header)
    ensures c.LongKey() in r.cards && r.cards[c.LongKey()] == Str(c.ShortName())
    ensures c.ShortKey() in r.cards && r.cards[c.ShortKey()] == Str(lib.logText(c))
    ensures forall k :: k != c.LongKey() && k != c.ShortKey() ==> (k in r.cards <==> k in h.cards)
    ensures forall k :: k != c.LongKey() && k != c.ShortKey() && k in h.cards ==> r.cards[k] == h.cards[k]
    ensures r.history == h.history
    ensures ExposureKey in r.cards <==> ExposureKey in h.cards
    ensures ExposureKey in h.cards ==> r.cards[ExposureKey] == h.cards[ExposureKey]
  {
    LoggedKeysDistinct();
    h.(cards := h.cards[c.LongKey() := Str(c.ShortName())][c.ShortKey() := Str(lib.logText(c))])
  }

  /** All frames of a stack share one shape. */
  predicate SameShape(stack: seq<Image>) {
    forall i, j :: 0 <= i < |stack| && 0 <= j < |stack| ==> |stack[i].data| == |stack[j].data|
  }

  /** `ccdproc.subtract_bias(ccd, master)` once the shapes agree. */
  function SubtractBias(lib: Library, ccd: Image, master: Image): (r: Image)
    requires |ccd.data| == |master.data|
    ensures |r.data| == |ccd.data| && r.unit == ccd.unit && r.header == Logged(lib, ccd.header, SubtractBiasCall)
    ensures forall i :: 0 <= i < |ccd.data| ==> r.data[i] == lib.biasPixel(ccd.data[i], master.data[i])
  {
    Image(seq(|ccd.data|, i requires 0 <= i < |ccd.data| => lib.biasPixel(ccd.data[i], master.data[i])),
          ccd.unit, Logged(lib, ccd.header, SubtractBiasCall))
  }

  /** Why `subtract_dark` raised: a missing `EXPOSURE` card (the light's header is read first), or a shape misfit. */
  datatype DarkError = NoExposureCard(inMaster: bool) | DarkShapeMismatch

  /**
    `ccdproc.subtract_dark(ccd, master, exposure_time='exposure', exposure_unit=u.second, scale=True)`.
    The `EXPOSURE` card is looked up in the light's header, then in the master's, before any
    arithmetic, so a missing card is reported even when the shapes differ too.
  */
  function SubtractDark(lib: Library, ccd: Image, master: Image): (r: Result<Image, DarkError>)
    ensures r.Ok? <==> ExposureKey in ccd.header.cards && ExposureKey in master.header.cards && |ccd.data| == |master.data|
    ensures ExposureKey !in ccd.header.cards ==> r == Err(NoExposureCard(false))
    ensures ExposureKey in ccd.header.cards && ExposureKey !in master.header.cards ==> r == Err(NoExposureCard(true))
    ensures r.Err? && ExposureKey in ccd.header.cards && ExposureKey in master.header.cards ==> r.error == DarkShapeMismatch
    ensures r.Ok? ==> && |r.value.data| == |ccd.data|
                      && r.value.unit == ccd.unit
                      && r.value.header == Logged(lib, ccd.header, SubtractDarkCall)
                      && forall i :: 0 <= i < |ccd.data| ==>
                           r.value.data[i] == lib.darkPixel(ccd.header.cards[ExposureKey], master.header.cards[ExposureKey],
                                                            ccd.data[i], master.data[i])
  {
    if ExposureKey !in ccd.header.cards then Err(NoExposureCard(false))
    else if ExposureKey !in master.header.cards then Err(NoExposureCard(true))
    else if |ccd.data| != |master.data| then Err(DarkShapeMismatch)
    else
      var te := ccd.header.cards[ExposureKey];
      var de := master.header.cards[ExposureKey];
      Ok(Image(seq(|ccd.data|, i requires 0 <= i < |ccd.data| => lib.darkPixel(te, de, ccd.data[i], master.data[i])),
               ccd.unit, Logged(lib, ccd.header, SubtractDarkCall)))
  }

  /** `ccdproc.flat_correct(ccd, flat)`. */
  function FlatCorrect(lib: Library, ccd: Image, flat: Image): (r: Image)
    requires |ccd.data| == |flat.data|
    ensures |r.data| == |ccd.data| && r.unit == ccd.unit && r.header == Logged(lib, ccd.header, FlatCorrectCall)
    ensures forall i :: 0 <= i < |ccd.data| ==> r.data[i] == lib.flatPixel(flat.data, ccd.data[i], flat.data[i])
  {
    Image(seq(|ccd.data|, i requires 0 <= i < |ccd.data| => lib.flatPixel(flat.data, ccd.data[i], flat.data[i])),
          ccd.unit, Logged(lib, ccd.header, FlatCorrectCall))
  }
}
