/**
  Exposure-time extraction (`get_exposure_time`): a chain of fallbacks over the header
  aliases, the numeral in a text value, a `<number>s` pattern in the file name, and a
  default of one second. The two regular expressions of the source are modelled by a
  scanner (leftmost start, greedy end) and related to a declarative description of the
  language `\d+\.?\d*` by the lemmas below.
*/
module Exposure {
  import opened Wrappers
  import opened Fits
  import Paths

  /** The header aliases, in the order they are tried. */
  const ExposureKeys: seq<string> := ["EXPTIME", "EXPOSURE", "EXP TIME", "EXPTIME1"]

  /** The exposure assumed when nothing else yields one, in seconds. */
  const DefaultExposure: real := 1.0

  predicate IsDigit(c: char) {
    '0' <= c <= '9'
  }

  predicate AllDigits(t: string) {
    forall k :: 0 <= k < |t| ==> IsDigit(t[k])
  }

  /** The text matched by `\d+\.?\d*`: a digit, then digits with at most one dot among them. */
  predicate IsNumeral(t: string) {
    && |t| > 0 && IsDigit(t[0])
    && (|| AllDigits(t)
        || exists d :: 0 < d < |t| && t[d] == '.' && AllDigits(t[..d]) && AllDigits(t[d + 1..]))
  }

  /** The end of the run of digits that starts at `i`. */
  function DigitRunEnd(s: string, i: nat): (j: nat)
    requires i <= |s|
    ensures i <= j <= |s|
    ensures AllDigits(s[i..j])
    ensures j == |s| || !IsDigit(s[j])
    decreases |s| - i
  {
    if i < |s| && IsDigit(s[i]) then
      var j := DigitRunEnd(s, i + 1);
      assert forall k :: 0 < k < j - i ==> s[i..j][k] == s[i + 1..j][k - 1];
      j
    else i
  }

  /** A run of digits ends at the first non-digit and nowhere else. */
  lemma DigitRunEndUnique(s: string, i: nat, k: nat)
    requires i <= k <= |s|
    requires AllDigits(s[i..k]) && (k == |s| || !IsDigit(s[k]))
    ensures DigitRunEnd(s, i) == k
  {
    var a := DigitRunEnd(s, i);
    assert forall m :: i <= m < k ==> s[i..k][m - i] == s[m];
    assert forall m :: i <= m < a ==> s[i..a][m - i] == s[m];
  }

  /** Where the greedy `\d+\.?\d*` match that starts at digit `i` ends. */
  function NumeralEnd(s: string, i: nat): (j: nat)
    requires i < |s| && IsDigit(s[i])
    ensures i < j <= |s|
    ensures IsNumeral(s[i..j])
    ensures j == |s| || !IsDigit(s[j])
  {
    var a := DigitRunEnd(s, i);
    if a < |s| && s[a] == '.' then
      var b := DigitRunEnd(s, a + 1);
      var t := s[i..b];
      assert t[..a - i] == s[i..a] && t[a - i + 1..] == s[a + 1..b];
      assert t[a - i] == '.';
      b
    else a
  }

  /** A block of digits from `i` lies within the run of digits from `i`. */
  lemma DigitsWithinRun(s: string, i: nat, j: nat)
    requires i <= j <= |s| && AllDigits(s[i..j])
    ensures j <= DigitRunEnd(s, i)
  {
    assert forall m :: i <= m < j ==> s[i..j][m - i] == s[m];
  }

  /** A numeral with a dot splits at the end of its leading run of digits. */
  lemma NumeralDot(s: string, i: nat, j: nat, d: nat)
    requires i < j <= |s| && 0 < d < j - i
    requires s[i..j][d] == '.' && AllDigits(s[i..j][..d]) && AllDigits(s[i..j][d + 1..])
    ensures DigitRunEnd(s, i) == i + d && s[i + d] == '.'
    ensures AllDigits(s[i + d + 1..j])
  {
    assert s[i..j][..d] == s[i..i + d];
    assert s[i..j][d + 1..] == s[i + d + 1..j];
    DigitRunEndUnique(s, i, i + d);
  }

  /** The greedy end is the longest match: no numeral starting at `i` runs past it. */
  lemma NumeralLongest(s: string, i: nat, j: nat)
    requires i < j <= |s| && IsDigit(s[i])
    requires IsNumeral(s[i..j])
    ensures j <= NumeralEnd(s, i)
  {
    var t := s[i..j];
    if AllDigits(t) {
      DigitsWithinRun(s, i, j);
    } else {
      var d :| 0 < d < |t| && t[d] == '.' && AllDigits(t[..d]) && AllDigits(t[d + 1..]);
      DottedWithinGreedy(s, i, j, d);
    }
  }

  lemma DottedWithinGreedy(s: string, i: nat, j: nat, d: nat)
    requires i < j <= |s| && 0 < d < j - i && IsDigit(s[i])
    requires s[i..j][d] == '.' && AllDigits(s[i..j][..d]) && AllDigits(s[i..j][d + 1..])
    ensures j <= NumeralEnd(s, i)
  {
    NumeralDot(s, i, j, d);
    DigitsWithinRun(s, i + d + 1, j);
  }

  /**
    Only the greedy end can be followed by `s` or `S`: every shorter match ends before a digit
    or the dot. So the backtracking search for `(\d+\.?\d*)[sS]` from a start `i` succeeds
    exactly when the greedy match from `i` is followed by `s` or `S`.
  */
  lemma SecondsFollowGreedyEnd(s: string, i: nat, j: nat)
    requires i < j < |s| && IsDigit(s[i])
    requires IsNumeral(s[i..j]) && (s[j] == 's' || s[j] == 'S')
    ensures j == NumeralEnd(s, i)
  {
    var t := s[i..j];
    if AllDigits(t) {
      DigitRunEndUnique(s, i, j);
    } else {
      var d :| 0 < d < |t| && t[d] == '.' && AllDigits(t[..d]) && AllDigits(t[d + 1..]);
      DottedGreedyEnd(s, i, j, d);
    }
  }

  lemma DottedGreedyEnd(s: string, i: nat, j: nat, d: nat)
    requires i < j < |s| && 0 < d < j - i && IsDigit(s[i]) && !IsDigit(s[j])
    requires s[i..j][d] == '.' && AllDigits(s[i..j][..d]) && AllDigits(s[i..j][d + 1..])
    ensures j == NumeralEnd(s, i)
  {
    NumeralDot(s, i, j, d);
    DigitRunEndUnique(s, i + d + 1, j);
  }

  /** The leftmost digit at or after `from`: where `re.search(r'(\d+\.?\d*)', s)` starts its match. */
  function FirstDigitFrom(s: string, from: nat): (r: Option<nat>)
    requires from <= |s|
    ensures r.None? <==> forall k :: from <= k < |s| ==> !IsDigit(s[k])
    ensures r.Some? ==> from <= r.value < |s| && IsDigit(s[r.value])
    ensures r.Some? ==> forall k :: from <= k < r.value ==> !IsDigit(s[k])
    decreases |s| - from
  {
    if from == |s| then None
    else if IsDigit(s[from]) then Some(from)
    else FirstDigitFrom(s, from + 1)
  }

  /** A match of `(\d+\.?\d*)[sS]` starts at `k`. */
  predicate SecondsAt(s: string, k: nat) {
    && k < |s| && IsDigit(s[k])
    && var j := NumeralEnd(s, k);
       j < |s| && (s[j] == 's' || s[j] == 'S')
  }

  /** The leftmost start of a `(\d+\.?\d*)[sS]` match at or after `from`. */
  function FirstSecondsFrom(s: string, from: nat): (r: Option<nat>)
    requires from <= |s|
    ensures r.None? <==> forall k :: from <= k < |s| ==> !SecondsAt(s, k)
    ensures r.Some? ==> from <= r.value < |s| && SecondsAt(s, r.value)
    ensures r.Some? ==> forall k :: from <= k < r.value ==> !SecondsAt(s, k)
    decreases |s| - from
  {
    if from == |s| then None
    else if SecondsAt(s, from) then Some(from)
    else FirstSecondsFrom(s, from + 1)
  }

  function DigitValue(c: char): (v: nat)
    requires IsDigit(c)
    ensures v <= 9
  {
    c as int - '0' as int
  }

  function Pow10(n: nat): (p: nat)
    ensures p >= 1
  {
    if n == 0 then 1 else 10 * Pow10(n - 1)
  }

  /** The decimal value of a run of digits. */
  function WholeValue(t: string): (v: nat)
    requires AllDigits(t)
  {
    if |t| == 0 then 0 else WholeValue(t[..|t| - 1]) * 10 + DigitValue(t[|t| - 1])
  }

  /** A run of `n` digits stays below ten to the `n`. */
  lemma {:induction false} WholeBelow(t: string)
    requires AllDigits(t)
    ensures WholeValue(t) < Pow10(|t|)
  {
    if |t| > 0 {
      var u := t[..|t| - 1];
      assert AllDigits(u) by { assert forall k :: 0 <= k < |u| ==> u[k] == t[k]; }
      WholeBelow(u);
    }
  }

  /**
    The value of the digits after a decimal point: scaled by ten to the number of digits it is
    the whole value of the same digits (the first digit is the tenths), and it lies in [0, 1).
  */
  function FractionValue(t: string): (v: real)
    requires AllDigits(t)
    ensures 0.0 <= v < 1.0
    ensures v * Pow10(|t|) as real == WholeValue(t) as real
  {
    WholeBelow(t);
    QuotientBelowOne(WholeValue(t), Pow10(|t|));
    WholeValue(t) as real / Pow10(|t|) as real
  }

  lemma QuotientBelowOne(w: nat, p: nat)
    requires w < p
    ensures 0.0 <= w as real / p as real < 1.0
    ensures w as real / p as real * p as real == w as real
  {
  }

  /** A numeral has at most one dot: with digits on both sides of the dot at `a`, no other position holds one. */
  lemma SingleDot(t: string, a: nat)
    requires 0 < a < |t| && t[a] == '.' && AllDigits(t[..a]) && AllDigits(t[a + 1..])
    ensures forall d :: 0 < d < |t| && t[d] == '.' ==> d == a
  {
    assert forall d :: 0 <= d < a ==> t[d] == t[..a][d];
    assert forall d :: a < d < |t| ==> t[d] == t[a + 1..][d - a - 1];
  }

  /**
    `float(t)` on a numeral, never negative (no sign is matched): a numeral without a dot reads
    as its whole value; one with its dot at `d` reads as the whole value of the digits before
    the dot plus the fraction of the digits after it.
  */
  function NumeralValue(t: string): (v: real)
    requires IsNumeral(t)
    ensures v >= 0.0
    ensures AllDigits(t) ==> v == WholeValue(t) as real
    ensures forall d :: 0 < d < |t| && t[d] == '.' ==>
      && AllDigits(t[..d]) && AllDigits(t[d + 1..])
      && v == WholeValue(t[..d]) as real + FractionValue(t[d + 1..])
  {
    var a := DigitRunEnd(t, 0);
    assert t[0..a] == t[..a];
    if a == |t| then
      assert t[..a] == t;
      assert forall d :: 0 < d < |t| ==> IsDigit(t[d]);
      WholeValue(t) as real
    else
      assert !AllDigits(t) by { assert !IsDigit(t[a]); }
      var d :| 0 < d < |t| && t[d] == '.' && AllDigits(t[..d]) && AllDigits(t[d + 1..]);
      assert t[0..d] == t[..d];
      DigitRunEndUnique(t, 0, d);
      SingleDot(t, a);
      WholeValue(t[..a]) as real + FractionValue(t[a + 1..])
  }

  /** The numeral "2.5" reads as 2.5: the digit after the dot is tenths. */
  lemma ValueOf2Point5()
    ensures IsNumeral("2.5") && NumeralValue("2.5") == 2.5
  {
    var t := "2.5";
    assert t[..1] == "2" && t[2..] == "5";
    assert IsNumeral(t);
    assert WholeValue("2") == 2 && WholeValue("5") == 5;
    assert FractionValue("5") * 10.0 == 5.0;
  }

  /** The value of the longest numeral that starts at digit `i`. */
  function NumeralAt(s: string, i: nat): (v: real)
    requires i < |s| && IsDigit(s[i])
  {
    NumeralValue(s[i..NumeralEnd(s, i)])
  }

  /** Position `i` holds the first digit of `s`: where `re.search(r'(\d+\.?\d*)', s)` starts. */
  predicate LeftmostDigit(s: string, i: nat) {
    i < |s| && IsDigit(s[i]) && forall k :: 0 <= k < i ==> !IsDigit(s[k])
  }

  /**
    The first numeral in a text value, read as a number: the value of the longest numeral
    starting at the first digit; `None` when the text has no digit.
  */
  function TextSeconds(s: string): (r: Option<real>)
    ensures r.None? <==> forall k :: 0 <= k < |s| ==> !IsDigit(s[k])
    ensures forall i: nat :: LeftmostDigit(s, i) ==> r == Some(NumeralAt(s, i))
    ensures r.Some? ==> r.value >= 0.0
  {
    match FirstDigitFrom(s, 0)
    case None => None
    case Some(i) =>
      LeftmostDigitUnique(s, i);
      Some(NumeralAt(s, i))
  }

  lemma LeftmostDigitUnique(s: string, j: nat)
    requires LeftmostDigit(s, j)
    ensures forall i: nat :: LeftmostDigit(s, i) ==> i == j
  {
  }

  /** One alias's value: a number as it stands, text through its first numeral. */
  function ValueSeconds(v: Value): (r: Option<real>)
    ensures v.Num? ==> r == Some(v.x)
    ensures v.Str? ==> r == TextSeconds(v.s)
  {
    match v
    case Num(x) => Some(x)
    case Str(s) => TextSeconds(s)
  }

  /** The alias is present and yields a value (a text value without a digit is skipped). */
  predicate Usable(h: Header, key: string) {
    key in h.cards && ValueSeconds(h.cards[key]).Some?
  }

  /** The first usable alias at or after position `from`. */
  function FirstAliasFrom(h: Header, keys: seq<string>, from: nat): (r: Option<nat>)
    requires from <= |keys|
    ensures r.None? <==> forall k :: from <= k < |keys| ==> !Usable(h, keys[k])
    ensures r.Some? ==> from <= r.value < |keys| && Usable(h, keys[r.value])
    ensures r.Some? ==> forall k :: from <= k < r.value ==> !Usable(h, keys[k])
    decreases |keys| - from
  {
    if from == |keys| then None
    else if Usable(h, keys[from]) then Some(from)
    else FirstAliasFrom(h, keys, from + 1)
  }

  /** Position `i` starts the leftmost `(\d+\.?\d*)[sS]` match of `name`. */
  predicate LeftmostSeconds(name: string, i: nat) {
    SecondsAt(name, i) && forall k :: 0 <= k < i ==> !SecondsAt(name, k)
  }

  /**
    The `<number>s` pattern in a file name, read as a number: the value of the numeral of the
    leftmost match; `None` when the name has no match.
  */
  function FilenameSeconds(name: string): (r: Option<real>)
    ensures r.None? <==> forall k :: 0 <= k < |name| ==> !SecondsAt(name, k)
    ensures forall i: nat :: LeftmostSeconds(name, i) ==> r == Some(NumeralAt(name, i))
    ensures r.Some? ==> r.value >= 0.0
  {
    match FirstSecondsFrom(name, 0)
    case None => None
    case Some(i) =>
      LeftmostSecondsUnique(name, i);
      Some(NumeralAt(name, i))
  }

  lemma LeftmostSecondsUnique(name: string, j: nat)
    requires LeftmostSeconds(name, j)
    ensures forall i: nat :: LeftmostSeconds(name, i) ==> i == j
  {
  }

  /**
    `get_exposure_time(ccd_data)` in seconds. `filePath` is the `file_path` attribute the
    reader attaches, `None` when the frame has none. The result is negative only when it
    is a negative number stored under one of the aliases.
  */
  function ExposureTime(h: Header, filePath: Option<string>): (t: real)
    ensures (forall k :: 0 <= k < |ExposureKeys| ==> !Usable(h, ExposureKeys[k])) && filePath.None? ==> t == DefaultExposure
    ensures t < 0.0 ==> exists k :: 0 <= k < |ExposureKeys| && ExposureKeys[k] in h.cards && h.cards[ExposureKeys[k]] == Num(t)
  {
    match FirstAliasFrom(h, ExposureKeys, 0)
    case Some(k) => ValueSeconds(h.cards[ExposureKeys[k]]).value
    case None =>
      match filePath
      case Some(p) => FilenameSeconds(Paths.Basename(p)).GetOr(DefaultExposure)
      case None => DefaultExposure
  }

  /** The first usable alias decides, whatever the later aliases and the file name say. */
  lemma FirstAliasWins(h: Header, filePath: Option<string>, k: nat)
    requires k < |ExposureKeys| && Usable(h, ExposureKeys[k])
    requires forall k' :: 0 <= k' < k ==> !Usable(h, ExposureKeys[k'])
    ensures ExposureTime(h, filePath) == ValueSeconds(h.cards[ExposureKeys[k]]).value
  {
  }

  /** A numeric EXPTIME card is returned unchanged. */
  lemma NumericExptimeUnchanged(h: Header, filePath: Option<string>, x: real)
    requires "EXPTIME" in h.cards && h.cards["EXPTIME"] == Num(x)
    ensures ExposureTime(h, filePath) == x
  {
    assert ExposureKeys[0] == "EXPTIME";
    FirstAliasWins(h, filePath, 0);
  }

  /** Without a usable alias the file name decides, and the default applies when it has no `<number>s`. */
  lemma FilenameFallback(h: Header, path: string)
    requires forall k :: 0 <= k < |ExposureKeys| ==> !Usable(h, ExposureKeys[k])
    ensures ExposureTime(h, Some(path)) == FilenameSeconds(Paths.Basename(path)).GetOr(DefaultExposure)
    ensures (forall k :: 0 <= k < |Paths.Basename(path)| ==> !SecondsAt(Paths.Basename(path), k)) ==> ExposureTime(h, Some(path)) == DefaultExposure
  {
  }

  /** Text without a digit is skipped in favour of the next alias. */
  lemma DigitlessTextSkipped(h: Header, k: nat, s: string)
    requires k < |ExposureKeys| && ExposureKeys[k] in h.cards && h.cards[ExposureKeys[k]] == Str(s)
    requires forall c :: 0 <= c < |s| ==> !IsDigit(s[c])
    ensures !Usable(h, ExposureKeys[k])
  {
  }

  /** The leading run of "frame_30s.fits" scanned from position 6. */
  lemma ScanFrame30s()
    ensures DigitRunEnd("frame_30s.fits", 6) == 8
    ensures NumeralEnd("frame_30s.fits", 6) == 8
  {
    var s := "frame_30s.fits";
    assert IsDigit(s[6]) && IsDigit(s[7]) && !IsDigit(s[8]);
    assert DigitRunEnd(s, 8) == 8;
    assert DigitRunEnd(s, 7) == 8;
  }

  /** The leftmost `<number>s` match in "frame_30s.fits" starts at position 6. */
  lemma SecondsStartFrame30s()
    ensures FirstSecondsFrom("frame_30s.fits", 0) == Some(6)
  {
    var name := "frame_30s.fits";
    ScanFrame30s();
    assert SecondsAt(name, 6);
    forall k | 0 <= k < 6 ensures !SecondsAt(name, k) {
      assert !IsDigit(name[k]);
    }
  }

  /** The numeral "30" reads as 30. */
  lemma ValueOf30()
    ensures IsNumeral("30") && NumeralValue("30") == 30.0
  {
    assert AllDigits("30");
    assert WholeValue("3") == 3;
    assert WholeValue("30") == 30;
  }

  /** The name "frame_30s.fits" carries a 30-second `<number>s` pattern. */
  lemma SecondsInFrame30s()
    ensures FilenameSeconds("frame_30s.fits") == Some(30.0)
  {
    var name := "frame_30s.fits";
    ScanFrame30s();
    SecondsStartFrame30s();
    assert name[6..8] == "30";
    ValueOf30();
  }

  /** A frame named "frame_30s.fits" in a header without exposure cards is a 30-second exposure. */
  lemma ExposureFromFilename(dir: string)
    ensures ExposureTime(EmptyHeader, Some(dir + "/frame_30s.fits")) == 30.0
  {
    var name := "frame_30s.fits";
    assert dir + "/frame_30s.fits" == dir + [Paths.Sep] + name;
    Paths.BasenameOfJoin(dir, name);
    SecondsInFrame30s();
  }
}
