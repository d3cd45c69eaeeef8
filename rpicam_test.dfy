/**
 * The planning half of `rpicam-test.py`: its `rpicam-still` command line,
 * which always ends in `--nopreview 1`, and its range notes.
 */
module RpicamTest {
  import opened Wrappers
  import opened Text
  import opened Argv
  import opened ExposureRanges

  const DefaultWidth := 9248
  const DefaultHeight := 6944

  /** The flags of every command, in order. */
  const CommandFlags: seq<string> :=
    ["--camera", "--width", "--height", "--shutter", "--ev", "-t", "-o", "--quality", "--nopreview"]

  /** The 17 tokens every command starts with: the program, then the fixed flags with their values. */
  function BasePart(camera: string, width: string, height: string, shutter: string, ev: string,
                    timeout: string, outPath: string): seq<string>
  {
    ["rpicam-still",
     "--camera", camera,
     "--width", width,
     "--height", height,
     "--shutter", shutter,
     "--ev", ev,
     "-t", timeout,
     "-o", outPath,
     "--quality", "95"]
  }

  /** The base part reads back as the eight fixed flags, `-t` giving the timeout and `-o` the output path. */
  lemma BasePartShape(camera: string, width: string, height: string, shutter: string, ev: string,
                      timeout: string, outPath: string)
    ensures var p := BasePart(camera, width, height, shutter, ev, timeout, outPath);
      |p| == 17 && Flags(p) == CommandFlags[..8] && Lookup(p, "-t") == Some(timeout) && Lookup(p, "-o") == Some(outPath)
  {
    var p0 := ["rpicam-still"];
    var p1 := p0 + ["--camera", camera];
    var p2 := p1 + ["--width", width];
    var p3 := p2 + ["--height", height];
    var p4 := p3 + ["--shutter", shutter];
    var p5 := p4 + ["--ev", ev];
    var p6 := p5 + ["-t", timeout];
    var p7 := p6 + ["-o", outPath];
    var p8 := p7 + ["--quality", "95"];
    assert p8 == BasePart(camera, width, height, shutter, ev, timeout, outPath);
    FlagsPush(p0, "--camera", camera);
    FlagsPush(p1, "--width", width);
    FlagsPush(p2, "--height", height);
    FlagsPush(p3, "--shutter", shutter);
    FlagsPush(p4, "--ev", ev);
    FlagsPush(p5, "-t", timeout);
    LookupFlags(p5, "-t");
    LookupPush(p5, "-t", timeout, "-t");
    FlagsPush(p6, "-o", outPath);
    LookupFlags(p6, "-o");
    LookupPush(p6, "-o", outPath, "-o");
    LookupPush(p6, "-o", outPath, "-t");
    FlagsPush(p7, "--quality", "95");
    LookupPush(p7, "--quality", "95", "-t");
    LookupPush(p7, "--quality", "95", "-o");
  }

  /**
   * With `--nopreview 1` appended, the base part reads back as the nine
   * flags, `-t` giving the timeout, `-o` the output path and `--nopreview` 1.
   */
  lemma CommandShape(camera: string, width: string, height: string, shutter: string, ev: string,
                     timeout: string, outPath: string)
    ensures var p := BasePart(camera, width, height, shutter, ev, timeout, outPath) + ["--nopreview", "1"];
      |p| == 19 && Flags(p) == CommandFlags &&
      Lookup(p, "-t") == Some(timeout) && Lookup(p, "-o") == Some(outPath) && Lookup(p, "--nopreview") == Some("1")
  {
    var base := BasePart(camera, width, height, shutter, ev, timeout, outPath);
    BasePartShape(camera, width, height, shutter, ev, timeout, outPath);
    FlagsPush(base, "--nopreview", "1");
    assert "--nopreview" !in CommandFlags[..8];
    LookupFlags(base, "--nopreview");
    LookupPush(base, "--nopreview", "1", "-t");
    LookupPush(base, "--nopreview", "1", "-o");
    LookupPush(base, "--nopreview", "1", "--nopreview");
  }

  /**
   * `build_rpicam_cmd`: the camera, size, shutter, EV, timeout, output and
   * quality flags, then `--nopreview 1` on both branches, so the command has
   * 19 tokens and does not depend on `nopreview`.
   */
  method BuildRpicamCmd(outPath: string, shutterS: real, ev: real, fmt: Format,
                        width: int := DefaultWidth, height: int := DefaultHeight, camera: int := 0,
                        nopreview: bool := false)
    returns (cmd: seq<string>)
    ensures cmd == BasePart(IntToString(camera), IntToString(width), IntToString(height),
      IntToString(fmt.micros(shutterS)), fmt.float(ev), IntToString(TimeoutMs(shutterS)) + "ms", outPath) +
      ["--nopreview", "1"]
    ensures |cmd| == 19 && Flags(cmd) == CommandFlags
    ensures Lookup(cmd, "-t") == Some(IntToString(TimeoutMs(shutterS)) + "ms")
    ensures Lookup(cmd, "-o") == Some(outPath)
    ensures Lookup(cmd, "--nopreview") == Some("1")
  {
    var shutterUs := fmt.micros(shutterS);
    var timeoutMs := TimeoutMs(shutterS);
    cmd := BasePart(IntToString(camera), IntToString(width), IntToString(height),
      IntToString(shutterUs), fmt.float(ev), IntToString(timeoutMs) + "ms", outPath);
    if nopreview {
      cmd := cmd + ["--nopreview", "1"];
    } else {
      cmd := cmd + ["--nopreview", "1"];
    }
    CommandShape(IntToString(camera), IntToString(width), IntToString(height),
      IntToString(shutterUs), fmt.float(ev), IntToString(timeoutMs) + "ms", outPath);
  }

  // ---------------------------------------------------------------- warn_about_ranges

  // Long literals are written in pieces: the verifier reads the characters of short literals only.

  /** The EV note; its dash is stored as the three characters a mis-decoded UTF-8 em dash becomes. */
  function EvNote(fmt: Format, ev: real): string
  {
    "EV " + fmt.float(ev) + " outside typical Picamera2 " + "range [-8,8] â€” may be clamped by driver"
  }

  const LongTail := "s is very long; " + "driver may not support >~30s"
  const ShortTail := "s shorter than 1/100s; " + "sensor may not reach this in still mode"

  function LongNote(fmt: Format, exposureS: real): string
  {
    "Exposure " + fmt.float(exposureS) + LongTail
  }

  function ShortNote(fmt: Format, exposureS: real): string
  {
    "Exposure " + fmt.float(exposureS) + ShortTail
  }

  /** The text of a note of kind `w`. */
  function NoteText(fmt: Format, ev: real, exposureS: real, w: Warning): string
  {
    match w
    case EvOutOfRange => EvNote(fmt, ev)
    case VeryLong => LongNote(fmt, exposureS)
    case TooShort => ShortNote(fmt, exposureS)
  }

  /** Notes of different kinds have different texts. */
  lemma NoteTextInjective(fmt: Format, ev: real, exposureS: real, v: Warning, w: Warning)
    ensures NoteText(fmt, ev, exposureS, v) == NoteText(fmt, ev, exposureS, w) ==> v == w
  {
    var head := "Exposure " + fmt.float(exposureS);
    assert EvNote(fmt, ev)[1] == 'V' && LongNote(fmt, exposureS)[1] == 'x' && ShortNote(fmt, exposureS)[1] == 'x';
    assert LongNote(fmt, exposureS)[|head| + 2] == LongTail[2] == 'i';
    assert ShortNote(fmt, exposureS)[|head| + 2] == ShortTail[2] == 's';
  }

  /**
   * `warn_about_ranges`: one note per kind the capture earns, in order, so
   * a note's text is in the list exactly when the range check raises that
   * kind.
   */
  method WarnAboutRanges(ev: real, exposureS: real, fmt: Format) returns (notes: seq<string>)
    ensures |notes| == |Warnings(ev, exposureS)|
    ensures forall i :: 0 <= i < |notes| ==> notes[i] == NoteText(fmt, ev, exposureS, Warnings(ev, exposureS)[i])
    ensures forall w :: NoteText(fmt, ev, exposureS, w) in notes <==> w in Warnings(ev, exposureS)
  {
    notes := [];
    if ev < -EvLimit || ev > EvLimit {
      notes := notes + [EvNote(fmt, ev)];
    }
    if exposureS > LongestExposure {
      notes := notes + [LongNote(fmt, exposureS)];
    }
    if exposureS < ShortestExposure {
      notes := notes + [ShortNote(fmt, exposureS)];
    }
    forall v, w ensures NoteText(fmt, ev, exposureS, v) == NoteText(fmt, ev, exposureS, w) ==> v == w {
      NoteTextInjective(fmt, ev, exposureS, v, w);
    }
    RenderedNotes(w => NoteText(fmt, ev, exposureS, w), Warnings(ev, exposureS), notes);
  }
}
