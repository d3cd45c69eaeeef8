/**
 * The range check both test scripts run before a capture: an EV outside
 * [-8, 8], an exposure longer than 30 s and one shorter than 1/100 s each
 * earn a note, in that order. The scripts differ only in the wording.
 */
module ExposureRanges {

  /** The three kinds of note, in the order they are added. */
  datatype Warning = EvOutOfRange | VeryLong | TooShort

  const EvLimit: real := 8.0
  const LongestExposure: real := 30.0
  /**
   * Python's `1/100` is the double nearest 0.01, which lies just above
   * 0.01. No double lies strictly between the two, so a double is below
   * one exactly when it is below the other, that double itself included.
   */
  const ShortestExposure: real := 0.01

  /** Position of a kind of note in the order they are added. */
  function Rank(w: Warning): nat
  {
    match w
    case EvOutOfRange => 0
    case VeryLong => 1
    case TooShort => 2
  }

  /**
   * The kinds of note a capture earns, in the order the scripts add them.
   * The long and short notes never come together, so there are at most two,
   * and there are none exactly when the EV and the exposure are in range.
   */
  function Warnings(ev: real, exposureS: real): (r: seq<Warning>)
    ensures EvOutOfRange in r <==> ev < -EvLimit || ev > EvLimit
    ensures VeryLong in r <==> exposureS > LongestExposure
    ensures TooShort in r <==> exposureS < ShortestExposure
    ensures forall i, j :: 0 <= i < j < |r| ==> Rank(r[i]) < Rank(r[j])
    ensures !(VeryLong in r && TooShort in r) && |r| <= 2
    ensures r == [] <==> -EvLimit <= ev <= EvLimit && ShortestExposure <= exposureS <= LongestExposure
  {
    (if ev < -EvLimit || ev > EvLimit then [EvOutOfRange] else []) +
    (if exposureS > LongestExposure then [VeryLong] else []) +
    (if exposureS < ShortestExposure then [TooShort] else [])
  }

  /**
   * Notes rendered one per raised kind by a wording that tells kinds
   * apart hold a kind's text exactly when that kind is raised.
   */
  lemma RenderedNotes(text: Warning -> string, ws: seq<Warning>, notes: seq<string>)
    requires forall v, w :: text(v) == text(w) ==> v == w
    requires |notes| == |ws| && forall i :: 0 <= i < |ws| ==> notes[i] == text(ws[i])
    ensures forall w :: text(w) in notes <==> w in ws
  {
    forall w ensures text(w) in notes <==> w in ws
    {
      if text(w) in notes {
        var i :| 0 <= i < |notes| && notes[i] == text(w);
        assert text(ws[i]) == text(w);
      }
      if w in ws {
        var i :| 0 <= i < |ws| && ws[i] == w;
        assert notes[i] == text(w);
      }
    }
  }
}
