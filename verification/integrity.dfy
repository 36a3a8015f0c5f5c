/**
  Integrity stamping and verification (`IntegrityChecker`). The stamp writes a truncated
  SHA-256 digest of the pixel array and a few statistics into the header; verification
  recomputes the digest and reports a tri-state verdict: valid, invalid, or unknown when the
  header carries no digest. The hash is a parameter, not an implementation: the model proves
  the decision logic, not the collision resistance of SHA-256.
*/
module Integrity {
  import opened Wrappers
  import opened Pixels
  import opened Fits
  import Paths

  /** A hexadecimal SHA-256 digest, 64 characters long. */
  type Digest = s: string | |s| == 64
    witness "0000000000000000000000000000000000000000000000000000000000000000"

  /** `hashlib.sha256(data.tobytes()).hexdigest()`. */
  type Hasher = Frame -> Digest

  /** Decimal formatting `f"{x:.2f}"` and Python's `float(s)` on text. */
  datatype Numerics = Numerics(fixed2: real -> string, parseFloat: string -> Option<real>)

  const DefaultSoftware := "AstroCalibratorCH"
  const DefaultVersion := "1.0"

  /** The keyword cards the stamp writes; it also appends one HISTORY line. */
  const StampKeys: set<string> := {"DATACHECK", "PIXSUM", "CREATED", "SOFTWARE", "PROCVERS", "DATAMIN", "DATAMAX", "DATAMEAN"}

  /** The stored digest: the first 32 characters of the full one. */
  function ShortDigest(d: Digest): (s: string)
    ensures |s| == 32 && d[..32] == s
  {
    d[..32]
  }

  /** The HISTORY line that records the full digest. */
  function HistoryLine(d: Digest): (line: string)
    ensures |line| > 64 && line[|line| - 64..] == d
  {
    "Data SHA-256: " + d
  }

  /** Why stamping raised: `np.min` of an empty array has no identity. */
  datatype StampError = EmptyData

  /**
    `add_integrity_info(header, data, software_name, proc_version)`: adds exactly the stamp
    cards and one HISTORY line; every other card is left as it was. `created` is the UTC time
    the source reads from the clock.
  */
  function AddIntegrityInfo(h: Header, data: Frame, sha: Hasher, num: Numerics, created: string,
                            software: string := DefaultSoftware, version: string := DefaultVersion): (r: Result<Header, StampError>)
    ensures r.Err? <==> |data| == 0
    ensures r.Ok? ==> r.value.cards.Keys == h.cards.Keys + StampKeys
    ensures r.Ok? ==> forall k :: k in h.cards && k !in StampKeys ==> r.value.cards[k] == h.cards[k]
    ensures r.Ok? ==> r.value.history == h.history + [HistoryLine(sha(data))]
    ensures r.Ok? ==> && r.value.cards["DATACHECK"] == Str(ShortDigest(sha(data)))
                      && r.value.cards["PIXSUM"] == Str(num.fixed2(Sum(data)))
                      && r.value.cards["CREATED"] == Str(created)
                      && r.value.cards["SOFTWARE"] == Str(software)
                      && r.value.cards["PROCVERS"] == Str(version)
    ensures r.Ok? ==> && r.value.cards["DATAMIN"] == Str(num.fixed2(Min(data)))
                      && r.value.cards["DATAMAX"] == Str(num.fixed2(Max(data)))
                      && r.value.cards["DATAMEAN"] == Str(num.fixed2(Mean(data)))
  {
    if |data| == 0 then Err(EmptyData)
    else
      var digest := sha(data);
      var cards := h.cards[
        "DATACHECK" := Str(ShortDigest(digest))][
        "PIXSUM" := Str(num.fixed2(Sum(data)))][
        "CREATED" := Str(created)][
        "SOFTWARE" := Str(software)][
        "PROCVERS" := Str(version)][
        "DATAMIN" := Str(num.fixed2(Min(data)))][
        "DATAMAX" := Str(num.fixed2(Max(data)))][
        "DATAMEAN" := Str(num.fixed2(Mean(data)))];
      Ok(Header(cards, h.history + [HistoryLine(digest)]))
  }

  /** Without explicit names the stamp identifies the software as AstroCalibratorCH, version 1.0. */
  lemma StampDefaults(h: Header, data: Frame, sha: Hasher, num: Numerics, created: string)
    requires |data| > 0
    ensures AddIntegrityInfo(h, data, sha, num, created).Ok?
    ensures AddIntegrityInfo(h, data, sha, num, created).value.cards["SOFTWARE"] == Str("AstroCalibratorCH")
    ensures AddIntegrityInfo(h, data, sha, num, created).value.cards["PROCVERS"] == Str("1.0")
  {
  }

  /**
    Stamping is idempotent on the cards: stamping an already stamped header with the same data
    (at the same time) rewrites the same values and only appends a second HISTORY line.
  */
  lemma StampIdempotent(h: Header, data: Frame, sha: Hasher, num: Numerics, created: string, software: string, version: string)
    requires |data| > 0
    ensures var once := AddIntegrityInfo(h, data, sha, num, created, software, version).value;
            var twice := AddIntegrityInfo(once, data, sha, num, created, software, version);
            && twice.Ok?
            && twice.value.cards == once.cards
            && twice.value.history == once.history + [HistoryLine(sha(data))]
  {
    var once := AddIntegrityInfo(h, data, sha, num, created, software, version).value;
    var twice := AddIntegrityInfo(once, data, sha, num, created, software, version).value;
    assert twice.cards.Keys == once.cards.Keys;
    forall k | k in once.cards ensures twice.cards[k] == once.cards[k] {
      if k !in StampKeys {
        assert twice.cards[k] == once.cards[k];
      }
    }
  }

  /** The primary HDU as `fits.open` returns it: header, data (absent for a header-only file) and NAXIS. */
  datatype Hdu = Hdu(header: Header, data: Option<Frame>, naxis: nat)

  /** `fits.open(path)[0]`, or the message of the exception it raises. */
  type Opener = string -> Result<Hdu, string>

  /** The `file_info` record (size and data type, which come from the file system, are left out). */
  datatype FileInfo = FileInfo(filename: string, calStatus: Value)

  /** The result dictionary of `verify_file_integrity`; `None` is Python's `None`. */
  datatype Verification = Verification(
    isValid: Option<bool>,
    storedHash: Option<Value>,
    currentHash: Option<string>,
    pixelSum: Option<real>,
    creationTime: Option<Value>,
    fileInfo: Option<FileInfo>,
    error: Option<string>)

  const Blank := Verification(None, None, None, None, None, None, None)

  /** Messages of the exceptions the checker catches, and of the missing-hash case. */
  const MissingHashMessage := "Хэш данных не найден в заголовке"
  const NoDataMessage := "'NoneType' object has no attribute 'shape'"
  const NotTwoDimensionalMessage := "tuple index out of range"
  const BadPixelSumMessage := "could not convert string to float"
  const FormatNoneMessage := "unsupported format string passed to NoneType.__format__"

  /** `float(header['PIXSUM'])`. */
  function PixelSumOf(v: Value, num: Numerics): Option<real> {
    match v
    case Num(x) => Some(x)
    case Str(s) => num.parseFloat(s)
  }

  /** The HDU gets as far as the hash check: it has 2-D data and a readable (or no) PIXSUM card. */
  predicate Checkable(hdu: Hdu, num: Numerics) {
    && hdu.data.Some?
    && hdu.naxis >= 2
    && ("PIXSUM" in hdu.header.cards ==> PixelSumOf(hdu.header.cards["PIXSUM"], num).Some?)
  }

  /**
    The body of `verify_file_integrity` once the file is open. The verdict is set exactly when
    the HDU is checkable and has a DATACHECK card, and is then the comparison of the stored
    value with the first 32 characters of the recomputed digest. Without DATACHECK the verdict
    stays unknown and the error field says so; the verdict is never unknown without an error.
  */
  function VerifyHdu(path: string, hdu: Hdu, sha: Hasher, num: Numerics, verbose: bool): (r: Verification)
    ensures r.isValid.Some? <==> Checkable(hdu, num) && "DATACHECK" in hdu.header.cards
    ensures r.isValid.Some? ==> r.isValid.value == (hdu.header.cards["DATACHECK"] == Str(ShortDigest(sha(hdu.data.value))))
    ensures r.isValid.Some? ==> r.storedHash == Some(hdu.header.cards["DATACHECK"])
    ensures Checkable(hdu, num) && "DATACHECK" !in hdu.header.cards ==> r.error == Some(MissingHashMessage)
    ensures r.isValid.None? ==> r.error.Some? && r.error.value != ""
    ensures r.error.Some? && r.isValid.Some? ==> verbose && "PIXSUM" !in hdu.header.cards
  {
    match hdu.data
    case None => Blank.(error := Some(NoDataMessage))
    case Some(data) =>
      if hdu.naxis < 2 then Blank.(error := Some(NotTwoDimensionalMessage))
      else
        var header := hdu.header;
        var info := FileInfo(Paths.Basename(path), Get(header, "CALSTAT", Str("Unknown")));
        var r1 := Blank.(fileInfo := Some(info), creationTime := Some(Get(header, "CREATED", Str("Unknown"))));
        var pixelSum := if "PIXSUM" in header.cards then PixelSumOf(header.cards["PIXSUM"], num) else None;
        if "PIXSUM" in header.cards && pixelSum.None? then r1.(error := Some(BadPixelSumMessage))
        else
          var r2 := r1.(pixelSum := pixelSum);
          if "DATACHECK" in header.cards then
            var stored := header.cards["DATACHECK"];
            var current := ShortDigest(sha(data));
            var r3 := r2.(storedHash := Some(stored), currentHash := Some(current), isValid := Some(stored == Str(current)));
            // The verbose report formats the pixel sum with :.2f, which raises on None.
            if verbose && pixelSum.None? then r3.(error := Some(FormatNoneMessage)) else r3
          else
            r2.(error := Some(MissingHashMessage))
  }

  /** `verify_file_integrity(filepath, verbose)`: never raises; a failure to open becomes the error field. */
  function VerifyFile(path: string, open: Opener, sha: Hasher, num: Numerics, verbose: bool): (r: Verification)
    ensures open(path).Err? ==> r.isValid.None? && r.error == Some(open(path).error)
    ensures open(path).Ok? ==> r == VerifyHdu(path, open(path).value, sha, num, verbose)
    ensures r.isValid.None? ==> r.error.Some?
  {
    match open(path)
    case Err(m) => Blank.(error := Some(m))
    case Ok(hdu) => VerifyHdu(path, hdu, sha, num, verbose)
  }

  /** A file without a stored digest is reported unverifiable, never invalid. */
  lemma NoHashIsNotInvalid(path: string, hdu: Hdu, sha: Hasher, num: Numerics, verbose: bool)
    requires "DATACHECK" !in hdu.header.cards
    ensures VerifyHdu(path, hdu, sha, num, verbose).isValid.None?
  {
  }

  /**
    Round trip: data verified against the header stamped from the same data is valid, with no
    error (provided the formatted pixel sum reads back as a number, as `float` does).
  */
  lemma StampThenVerify(path: string, h: Header, data: Frame, sha: Hasher, num: Numerics, created: string,
                        software: string, version: string, stamped: Header, naxis: nat, verbose: bool)
    requires AddIntegrityInfo(h, data, sha, num, created, software, version) == Ok(stamped)
    requires naxis >= 2
    requires num.parseFloat(num.fixed2(Sum(data))).Some?
    ensures VerifyHdu(path, Hdu(stamped, Some(data), naxis), sha, num, verbose).isValid == Some(true)
    ensures VerifyHdu(path, Hdu(stamped, Some(data), naxis), sha, num, verbose).error.None?
  {
    StampedChecks(h, data, sha, num, created, software, version);
    VerifyMatching(path, Hdu(stamped, Some(data), naxis), sha, num, verbose);
  }

  /** The two cards verification reads back from a freshly stamped header. */
  lemma StampedChecks(h: Header, data: Frame, sha: Hasher, num: Numerics, created: string, software: string, version: string)
    requires |data| > 0
    ensures var stamped := AddIntegrityInfo(h, data, sha, num, created, software, version).value;
            && "PIXSUM" in stamped.cards
            && PixelSumOf(stamped.cards["PIXSUM"], num) == num.parseFloat(num.fixed2(Sum(data)))
            && "DATACHECK" in stamped.cards
            && stamped.cards["DATACHECK"] == Str(ShortDigest(sha(data)))
  {
    var stamped := AddIntegrityInfo(h, data, sha, num, created, software, version).value;
    var text := num.fixed2(Sum(data));
    assert stamped.cards["PIXSUM"] == Str(text);
    assert PixelSumOf(Str(text), num) == num.parseFloat(text);
  }

  /** An HDU whose DATACHECK matches its data and whose PIXSUM reads back verifies cleanly. */
  lemma VerifyMatching(path: string, hdu: Hdu, sha: Hasher, num: Numerics, verbose: bool)
    requires hdu.data.Some? && hdu.naxis >= 2
    requires "PIXSUM" in hdu.header.cards && PixelSumOf(hdu.header.cards["PIXSUM"], num).Some?
    requires "DATACHECK" in hdu.header.cards && hdu.header.cards["DATACHECK"] == Str(ShortDigest(sha(hdu.data.value)))
    ensures VerifyHdu(path, hdu, sha, num, verbose).isValid == Some(true)
    ensures VerifyHdu(path, hdu, sha, num, verbose).error.None?
  {
  }

  /** How `verify_multiple_files` files one result: the error test is Python truthiness, so an empty message does not count. */
  datatype Outcome = Errored | NoHash | Valid | Invalid

  function Classify(v: Verification): Outcome {
    if v.error.Some? && v.error.value != "" then Errored
    else if v.isValid.None? then NoHash
    else if v.isValid.value then Valid
    else Invalid
  }

  datatype Counters = Counters(valid: nat, invalid: nat, noHash: nat, errors: nat) {
    function Total(): nat { valid + invalid + noHash + errors }

    /** The counter that files results of outcome `o`. */
    function Of(o: Outcome): nat {
      match o
      case Valid => valid
      case Invalid => invalid
      case NoHash => noHash
      case Errored => errors
    }
  }

  /** The outcome of every result, position by position. */
  function Outcomes(results: seq<Verification>): (r: seq<Outcome>)
    ensures |r| == |results|
    ensures forall i :: 0 <= i < |results| ==> r[i] == Classify(results[i])
  {
    seq(|results|, i requires 0 <= i < |results| => Classify(results[i]))
  }

  /** How many of the results have outcome `o`. */
  function Occurrences(results: seq<Verification>, o: Outcome): nat {
    multiset(Outcomes(results))[o]
  }

  /** The first result adds one to the occurrences of its own outcome and nothing to the others. */
  lemma OccurrencesCons(results: seq<Verification>)
    requires |results| > 0
    ensures forall o :: Occurrences(results, o) == (if Classify(results[0]) == o then 1 else 0) + Occurrences(results[1..], o)
  {
    assert Outcomes(results) == [Classify(results[0])] + Outcomes(results[1..]);
  }

  /** No result has outcome `o` exactly when `o` occurs zero times. */
  lemma {:induction false} OccurrencesZero(results: seq<Verification>, o: Outcome)
    ensures Occurrences(results, o) == 0 <==> forall i :: 0 <= i < |results| ==> Classify(results[i]) != o
  {
    if Occurrences(results, o) == 0 {
      forall i | 0 <= i < |results| ensures Classify(results[i]) != o {
        assert Outcomes(results)[i] in multiset(Outcomes(results));
      }
    } else {
      assert o in multiset(Outcomes(results));
      var i :| 0 <= i < |results| && Outcomes(results)[i] == o;
    }
  }

  /** Adds one to the counter of the given outcome and leaves the other three alone. */
  function Bump(c: Counters, o: Outcome): (r: Counters)
    ensures r.Total() == c.Total() + 1
    ensures forall o' :: r.Of(o') == c.Of(o') + (if o' == o then 1 else 0)
  {
    match o
    case Valid => c.(valid := c.valid + 1)
    case Invalid => c.(invalid := c.invalid + 1)
    case NoHash => c.(noHash := c.noHash + 1)
    case Errored => c.(errors := c.errors + 1)
  }

  /**
    The counters after the loop over `results`: each counter holds the number of results with
    its outcome, so they add up to the number of results.
  */
  function Tally(results: seq<Verification>): (c: Counters)
    ensures forall o :: c.Of(o) == Occurrences(results, o)
    ensures c.Total() == |results|
  {
    if |results| == 0 then Counters(0, 0, 0, 0)
    else
      var rest := Tally(results[1..]);
      TallyStep(results, rest);
      Bump(rest, Classify(results[0]))
  }

  /** Counting the first result on top of correct counts for the rest gives correct counts for all. */
  lemma TallyStep(results: seq<Verification>, rest: Counters)
    requires |results| > 0
    requires forall o :: rest.Of(o) == Occurrences(results[1..], o)
    requires rest.Total() == |results| - 1
    ensures forall o :: Bump(rest, Classify(results[0])).Of(o) == Occurrences(results, o)
    ensures Bump(rest, Classify(results[0])).Total() == |results|
  {
    OccurrencesCons(results);
  }

  /** A counter stays 0 exactly when no result has its outcome. */
  lemma TallyZero(results: seq<Verification>, o: Outcome)
    ensures Tally(results).Of(o) == 0 <==> forall i :: 0 <= i < |results| ==> Classify(results[i]) != o
  {
    var c := Tally(results);
    assert c.Of(o) == Occurrences(results, o);
    OccurrencesZero(results, o);
  }

  /** The results of a list of details, in order. */
  function DetailResults(details: seq<Detail>): (r: seq<Verification>)
    ensures |r| == |details|
    ensures forall i :: 0 <= i < |details| ==> r[i] == details[i].result
  {
    seq(|details|, i requires 0 <= i < |details| => details[i].result)
  }

  /** One entry of `details`: the path and its result record. */
  datatype Detail = Detail(path: string, result: Verification)

  datatype Summary = Summary(total: nat, counters: Counters, details: seq<Detail>)

  /**
    `verify_multiple_files(filepaths)`: one detail per path in order, each from a non-verbose
    check; the four counters add up to the number of files. Because a missing digest sets the
    error field, such files are counted as errors, and the no-hash counter stays 0 unless an
    open failure carried an empty message. Each counter holds the number of files with its outcome.
  */
  function VerifyMultipleFiles(paths: seq<string>, open: Opener, sha: Hasher, num: Numerics): (s: Summary)
    ensures s.total == |paths| && |s.details| == |paths|
    ensures forall i :: 0 <= i < |paths| ==> s.details[i] == Detail(paths[i], VerifyFile(paths[i], open, sha, num, false))
    ensures forall o :: s.counters.Of(o) == Occurrences(DetailResults(s.details), o)
    ensures s.counters.valid + s.counters.invalid + s.counters.noHash + s.counters.errors == s.total
    ensures (forall i :: 0 <= i < |paths| ==> open(paths[i]).Err? ==> open(paths[i]).error != "") ==> s.counters.noHash == 0
  {
    var details := seq(|paths|, i requires 0 <= i < |paths| => Detail(paths[i], VerifyFile(paths[i], open, sha, num, false)));
    var results := DetailResults(details);
    assert forall i :: 0 <= i < |paths| && Classify(results[i]) == NoHash ==> open(paths[i]) == Err("");
    TallyZero(results, NoHash);
    Summary(|paths|, Tally(results), details)
  }

  /** A readable file without DATACHECK lands in the error counter, not in the no-hash counter. */
  lemma MissingHashCountsAsError(path: string, open: Opener, sha: Hasher, num: Numerics)
    requires open(path).Ok? && Checkable(open(path).value, num)
    requires "DATACHECK" !in open(path).value.header.cards
    ensures Classify(VerifyFile(path, open, sha, num, false)) == Errored
  {
  }
}
