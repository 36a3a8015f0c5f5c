/** The in-memory image the pipeline passes around: pixel array, physical unit and header. */
module Fits {
  import opened Pixels

  /** A header card value: numeric or textual (FITS also has logical values, which the model leaves out). */
  datatype Value = Num(x: real) | Str(s: string)

  /**
    A FITS header: keyword cards, plus the HISTORY lines. Assigning `header['HISTORY']` in astropy
    appends one more HISTORY card instead of replacing the earlier ones, so they are kept apart.
  */
  datatype Header = Header(cards: map<string, Value>, history: seq<string>)

  const EmptyHeader := Header(map[], [])

  /** A `CCDData`: pixel data, its unit and its header. */
  datatype Image = Image(data: Frame, unit: string, header: Header)

  /** `header.get(key, default)`. */
  function Get(h: Header, key: string, default: Value): (v: Value)
    ensures key in h.cards ==> v == h.cards[key]
    ensures key !in h.cards ==> v == default
  {
    if key in h.cards then h.cards[key] else default
  }
}
