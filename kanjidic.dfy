/**
 * The parsed form of a kanjidic2 `<character>` element, and the normalised
 * readings taken from its `reading_meaning/rmgroup/reading` children.
 */
module Kanjidic {
  import opened Wrappers
  import opened Kana

  /** A `<reading r_type="...">text</reading>` element. */
  datatype RawReading = RawReading(rType: string, text: string)

  /**
   * A `<character>` element: its `literal`, the text of `misc/freq` when present
   * (already read as an integer), the text of `misc/grade` when present, and its
   * readings in document order.
   */
  datatype Record = Record(literal: string, freq: Option<int>, grade: Option<string>,
                           readings: seq<RawReading>)

  const JaOn: string := "ja_on"
  const JaKun: string := "ja_kun"

  /** The normalised text of an on or kun reading; `None` for every other `r_type`. */
  function Normalise(r: RawReading): Option<string>
  {
    if r.rType == JaOn then Some(KataToHira(r.text))
    else if r.rType == JaKun then Some(KunRoot(r.text))
    else None
  }

  /** The normalised on and kun readings in document order, other types dropped. */
  function NormalisedReadings(rs: seq<RawReading>): seq<string>
  {
    if rs == [] then []
    else
      var last := rs[|rs| - 1];
      NormalisedReadings(rs[..|rs| - 1]) + (if Normalise(last).Some? then [Normalise(last).value] else [])
  }

  /** Normalising a concatenation normalises each part. */
  lemma {:induction false} NormalisedReadingsAppend(a: seq<RawReading>, b: seq<RawReading>)
    ensures NormalisedReadings(a + b) == NormalisedReadings(a) + NormalisedReadings(b)
    decreases |b|
  {
    if b == [] {
      assert a + b == a;
    } else {
      var b' := b[..|b| - 1];
      assert (a + b)[..|a + b| - 1] == a + b';
      assert (a + b)[|a + b| - 1] == b[|b| - 1];
      NormalisedReadingsAppend(a, b');
    }
  }

  /**
   * Together with NormalisedReadingsAppend: an on reading contributes its
   * hiragana form, a kun reading its root, and any other type nothing.
   */
  lemma NormalisedReadingsSingle(r: RawReading)
    ensures r.rType == JaOn ==> NormalisedReadings([r]) == [KataToHira(r.text)]
    ensures r.rType == JaKun ==> NormalisedReadings([r]) == [KunRoot(r.text)]
    ensures r.rType != JaOn && r.rType != JaKun ==> NormalisedReadings([r]) == []
  {
    assert [r][..0] == [];
  }
}
