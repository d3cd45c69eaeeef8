/** The range notes of `picam2-test.py`. */
module Picam2Test {
  import opened Argv
  import opened ExposureRanges

  // Long literals are written in pieces: the verifier reads the characters of short literals only.
  const EvTail := " outside typical Picamera2 " + "range [-8,8] — may be clamped"
  const LongTail := "s is very long; " + "sensor/driver may not support >~30s"
  const ShortTail := "s shorter than 1/100s; " + "sensor may not reach very high " + "frame-rate in still mode"

  function EvNote(fmt: Format, ev: real): string
  {
    "EV " + fmt.float(ev) + EvTail
  }

  function LongNote(fmt: Format, exptimeS: real): string
  {
    "Exposure " + fmt.float(exptimeS) + LongTail
  }

  function ShortNote(fmt: Format, exptimeS: real): string
  {
    "Exposure " + fmt.float(exptimeS) + ShortTail
  }

  /** The text of a note of kind `w`. */
  function NoteText(fmt: Format, ev: real, exptimeS: real, w: Warning): string
  {
    match w
    case EvOutOfRange => EvNote(fmt, ev)
    case VeryLong => LongNote(fmt, exptimeS)
    case TooShort => ShortNote(fmt, exptimeS)
  }

  /** Notes of different kinds have different texts. */
  lemma NoteTextInjective(fmt: Format, ev: real, exptimeS: real, v: Warning, w: Warning)
    ensures NoteText(fmt, ev, exptimeS, v) == NoteText(fmt, ev, exptimeS, w) ==> v == w
  {
    var head := "Exposure " + fmt.float(exptimeS);
    assert EvNote(fmt, ev)[1] == 'V' && LongNote(fmt, exptimeS)[1] == 'x' && ShortNote(fmt, exptimeS)[1] == 'x';
    assert LongNote(fmt, exptimeS)[|head| + 2] == LongTail[2] == 'i';
    assert ShortNote(fmt, exptimeS)[|head| + 2] == ShortTail[2] == 's';
  }

  /**
   * `warn_about_ranges`: one note per kind the capture earns, in order, so
   * a note's text is in the list exactly when the range check raises that
   * kind.
   */
  method WarnAboutRanges(ev: real, exptimeS: real, fmt: Format) returns (notes: seq<string>)
    ensures |notes| == |Warnings(ev, exptimeS)|
    ensures forall i :: 0 <= i < |notes| ==> notes[i] == NoteText(fmt, ev, exptimeS, Warnings(ev, exptimeS)[i])
    ensures forall w :: NoteText(fmt, ev, exptimeS, w) in notes <==> w in Warnings(ev, exptimeS)
  {
    notes := [];
    if ev < -EvLimit || ev > EvLimit {
      notes := notes + [EvNote(fmt, ev)];
    }
    if exptimeS > LongestExposure {
      notes := notes + [LongNote(fmt, exptimeS)];
    }
    if exptimeS < ShortestExposure {
      notes := notes + [ShortNote(fmt, exptimeS)];
    }
    forall v, w ensures NoteText(fmt, ev, exptimeS, v) == NoteText(fmt, ev, exptimeS, w) ==> v == w {
      NoteTextInjective(fmt, ev, exptimeS, v, w);
    }
    RenderedNotes(w => NoteText(fmt, ev, exptimeS, w), Warnings(ev, exptimeS), notes);
  }
}
