/**
 * The `rpicam-still` command line `build_rpicam_cmd` of `rpicam-test2.py`
 * builds: 21 fixed tokens, then the optional preview and gain flags.
 */
module RpicamTest2 {
  import opened Wrappers
  import opened Text
  import opened Argv
  import Json

  const DefaultWidth := 9248
  const DefaultHeight := 6944

  /** The flags every command carries, in this order. */
  const FixedFlags: seq<string> :=
    ["--camera", "--width", "--height", "--shutter", "--ev", "-t", "-o", "--quality", "--metadata", "--metadata-format"]

  /** The 21 tokens every command starts with: the program, then the fixed flags with their values. */
  function FixedPart(camera: string, width: string, height: string, shutter: string, ev: string,
                     timeout: string, outPath: string): seq<string>
  {
    ["rpicam-still",
     "--camera", camera,
     "--width", width,
     "--height", height,
     "--shutter", shutter,
     "--ev", ev,
     "-t", timeout,
     "-o", outPath,
     "--quality", "95",
     "--metadata", "-",
     "--metadata-format", "json"]
  }

  /** The program and its first five flags read back as those flags. */
  lemma FixedHeadShape(camera: string, width: string, height: string, shutter: string, ev: string)
    ensures var h := ["rpicam-still", "--camera", camera, "--width", width, "--height", height,
                      "--shutter", shutter, "--ev", ev];
      Flags(h) == FixedFlags[..5]
  {
    var p0 := ["rpicam-still"];
    var p1 := p0 + ["--camera", camera];
    var p2 := p1 + ["--width", width];
    var p3 := p2 + ["--height", height];
    var p4 := p3 + ["--shutter", shutter];
    var p5 := p4 + ["--ev", ev];
    FlagsPush(p0, "--camera", camera);
    FlagsPush(p1, "--width", width);
    FlagsPush(p2, "--height", height);
    FlagsPush(p3, "--shutter", shutter);
    FlagsPush(p4, "--ev", ev);
    assert p5 == ["rpicam-still", "--camera", camera, "--width", width, "--height", height,
                  "--shutter", shutter, "--ev", ev];
    assert FixedFlags[..5] == ["--camera", "--width", "--height", "--shutter", "--ev"];
  }

  /** After the first five flags come `-t`, `-o` and the quality and metadata flags, with `-t` and `-o` read back. */
  lemma FixedTailShape(head: seq<string>, timeout: string, outPath: string)
    requires |head| == 11 && Flags(head) == FixedFlags[..5]
    ensures var p := head + ["-t", timeout, "-o", outPath, "--quality", "95", "--metadata", "-", "--metadata-format", "json"];
      Flags(p) == FixedFlags && Lookup(p, "-t") == Some(timeout) && Lookup(p, "-o") == Some(outPath)
  {
    var p6 := head + ["-t", timeout];
    var p7 := p6 + ["-o", outPath];
    var p8 := p7 + ["--quality", "95"];
    var p9 := p8 + ["--metadata", "-"];
    var p10 := p9 + ["--metadata-format", "json"];
    assert p10 == head + ["-t", timeout, "-o", outPath, "--quality", "95", "--metadata", "-", "--metadata-format", "json"];
    assert "-t" !in FixedFlags[..5] && "-o" !in FixedFlags[..5];
    FlagsPush(head, "-t", timeout);
    LookupFlags(head, "-t");
    LookupPush(head, "-t", timeout, "-t");
    FlagsPush(p6, "-o", outPath);
    LookupFlags(head, "-o");
    LookupPush(head, "-t", timeout, "-o");
    LookupPush(p6, "-o", outPath, "-o");
    LookupPush(p6, "-o", outPath, "-t");
    FlagsPush(p7, "--quality", "95");
    LookupPush(p7, "--quality", "95", "-t");
    LookupPush(p7, "--quality", "95", "-o");
    FlagsPush(p8, "--metadata", "-");
    LookupPush(p8, "--metadata", "-", "-t");
    LookupPush(p8, "--metadata", "-", "-o");
    FlagsPush(p9, "--metadata-format", "json");
    LookupPush(p9, "--metadata-format", "json", "-t");
    LookupPush(p9, "--metadata-format", "json", "-o");
  }

  /** The fixed part reads back as the ten fixed flags, `-t` giving the timeout and `-o` the output path. */
  lemma FixedPartShape(camera: string, width: string, height: string, shutter: string, ev: string,
                       timeout: string, outPath: string)
    ensures var p := FixedPart(camera, width, height, shutter, ev, timeout, outPath);
      |p| == 21 && Flags(p) == FixedFlags && Lookup(p, "-t") == Some(timeout) && Lookup(p, "-o") == Some(outPath)
  {
    var head := ["rpicam-still", "--camera", camera, "--width", width, "--height", height, "--shutter", shutter, "--ev", ev];
    FixedHeadShape(camera, width, height, shutter, ev);
    FixedTailShape(head, timeout, outPath);
    assert FixedPart(camera, width, height, shutter, ev, timeout, outPath) ==
      head + ["-t", timeout, "-o", outPath, "--quality", "95", "--metadata", "-", "--metadata-format", "json"];
  }

  /** None of the optional flags is a fixed one. */
  lemma OptionalNotFixed()
    ensures forall g :: IsOptionalFlag(g) ==> g !in FixedFlags
  {
    assert "--awbgains"[2] != "--metadata"[2];
  }

  /** `flags` followed by those optional flags that are set, in the order nopreview, analogue gain, gain, AWB gains. */
  function WithOptionalFlags(flags: seq<string>, nopreview: bool, analoggain: Option<real>, gain: Option<real>,
                             awbgains: Option<string>): seq<string>
  {
    flags + FlagIf(nopreview, "--nopreview") + FlagIf(analoggain.Some?, "--analoggain") +
    FlagIf(gain.Some?, "--gain") + FlagIf(awbgains.Some?, "--awbgains")
  }

  /** The value an optional float argument gives its flag. */
  function FloatArg(fmt: Format, x: Option<real>): Option<string>
  {
    if x.Some? then Some(fmt.float(x.value)) else None
  }

  /** The four flags only some commands carry. */
  predicate IsOptionalFlag(g: string)
  {
    g == "--nopreview" || g == "--analoggain" || g == "--gain" || g == "--awbgains"
  }

  /**
   * The second half of `build_rpicam_cmd`: `--nopreview 1` when asked, then
   * each of `--analoggain`, `--gain`, `--awbgains` that was given, appended
   * to a command that carries none of them.
   */
  method AppendOptionalFlags(base: seq<string>, fmt: Format, nopreview: bool, analoggain: Option<real>,
                             gain: Option<real>, awbgains: Option<string>)
    returns (cmd: seq<string>)
    requires |base| % 2 == 1
    requires forall g :: IsOptionalFlag(g) ==> g !in Flags(base)
    ensures |cmd| % 2 == 1 && |cmd| >= |base| && cmd[..|base|] == base
    ensures Flags(cmd) == WithOptionalFlags(Flags(base), nopreview, analoggain, gain, awbgains)
    ensures forall g {:trigger Lookup(cmd, g)} :: (Lookup(cmd, g) ==
      if IsOptionalFlag(g) then OptionalValue(fmt, nopreview, analoggain, gain, awbgains, g) else Lookup(base, g))
  {
    cmd := base;
    ghost var c0 := cmd;
    if nopreview {
      cmd := cmd + ["--nopreview", "1"];
    }
    ghost var c1 := cmd;
    if analoggain.Some? {
      cmd := cmd + ["--analoggain", fmt.float(analoggain.value)];
    }
    ghost var c2 := cmd;
    if gain.Some? {
      cmd := cmd + ["--gain", fmt.float(gain.value)];
    }
    ghost var c3 := cmd;
    if awbgains.Some? {
      cmd := cmd + ["--awbgains", awbgains.value];
    }
    OptionalShape(base, c1, c2, c3, cmd, fmt, nopreview, analoggain, gain, awbgains);
    OptionalLookups(base, c1, c2, c3, cmd, fmt, nopreview, analoggain, gain, awbgains);
  }

  /** The four optional steps of `AppendOptionalFlags` keep the command's start and append the flags that are set. */
  lemma OptionalShape(base: seq<string>, c1: seq<string>, c2: seq<string>, c3: seq<string>, cmd: seq<string>,
                      fmt: Format, nopreview: bool, analoggain: Option<real>, gain: Option<real>,
                      awbgains: Option<string>)
    requires |base| % 2 == 1
    requires c1 == if nopreview then base + ["--nopreview", "1"] else base
    requires c2 == if analoggain.Some? then c1 + ["--analoggain", fmt.float(analoggain.value)] else c1
    requires c3 == if gain.Some? then c2 + ["--gain", fmt.float(gain.value)] else c2
    requires cmd == if awbgains.Some? then c3 + ["--awbgains", awbgains.value] else c3
    ensures |cmd| % 2 == 1 && |cmd| >= |base| && cmd[..|base|] == base
    ensures Flags(cmd) == WithOptionalFlags(Flags(base), nopreview, analoggain, gain, awbgains)
  {
    assert base[..|base|] == base;
    PushIf(base, c1, nopreview, "--nopreview", "1", |base|);
    PushIf(c1, c2, analoggain.Some?, "--analoggain", if analoggain.Some? then fmt.float(analoggain.value) else "", |base|);
    PushIf(c2, c3, gain.Some?, "--gain", if gain.Some? then fmt.float(gain.value) else "", |base|);
    PushIf(c3, cmd, awbgains.Some?, "--awbgains", if awbgains.Some? then awbgains.value else "", |base|);
  }

  /** The value the optional steps give flag `g`, if any. */
  function OptionalValue(fmt: Format, nopreview: bool, analoggain: Option<real>, gain: Option<real>,
                         awbgains: Option<string>, g: string): Option<string>
  {
    if nopreview && g == "--nopreview" then Some("1")
    else if analoggain.Some? && g == "--analoggain" then FloatArg(fmt, analoggain)
    else if gain.Some? && g == "--gain" then FloatArg(fmt, gain)
    else if awbgains.Some? && g == "--awbgains" then awbgains
    else None
  }

  /** Each optional flag reads its own argument, and no other flag reads anything. */
  lemma OptionalValueOf(fmt: Format, nopreview: bool, analoggain: Option<real>, gain: Option<real>,
                        awbgains: Option<string>)
    ensures OptionalValue(fmt, nopreview, analoggain, gain, awbgains, "--nopreview") == if nopreview then Some("1") else None
    ensures OptionalValue(fmt, nopreview, analoggain, gain, awbgains, "--analoggain") == FloatArg(fmt, analoggain)
    ensures OptionalValue(fmt, nopreview, analoggain, gain, awbgains, "--gain") == FloatArg(fmt, gain)
    ensures OptionalValue(fmt, nopreview, analoggain, gain, awbgains, "--awbgains") == awbgains
    ensures forall g {:trigger OptionalValue(fmt, nopreview, analoggain, gain, awbgains, g)} ::
      (!IsOptionalFlag(g) ==> OptionalValue(fmt, nopreview, analoggain, gain, awbgains, g) == None)
  {
    assert |"--nopreview"| == 11 && |"--analoggain"| == 12 && |"--gain"| == 6 && |"--awbgains"| == 10;
  }

  /** What each flag reads after the four optional steps of `AppendOptionalFlags`. */
  lemma OptionalLookups(base: seq<string>, c1: seq<string>, c2: seq<string>, c3: seq<string>, cmd: seq<string>,
                        fmt: Format, nopreview: bool, analoggain: Option<real>, gain: Option<real>,
                        awbgains: Option<string>)
    requires |base| % 2 == 1
    requires forall g :: IsOptionalFlag(g) ==> g !in Flags(base)
    requires c1 == if nopreview then base + ["--nopreview", "1"] else base
    requires c2 == if analoggain.Some? then c1 + ["--analoggain", fmt.float(analoggain.value)] else c1
    requires c3 == if gain.Some? then c2 + ["--gain", fmt.float(gain.value)] else c2
    requires cmd == if awbgains.Some? then c3 + ["--awbgains", awbgains.value] else c3
    ensures forall g {:trigger Lookup(cmd, g)} :: (Lookup(cmd, g) ==
      if IsOptionalFlag(g) then OptionalValue(fmt, nopreview, analoggain, gain, awbgains, g) else Lookup(base, g))
  {
    var agValue := if analoggain.Some? then fmt.float(analoggain.value) else "";
    var gValue := if gain.Some? then fmt.float(gain.value) else "";
    var awbValue := if awbgains.Some? then awbgains.value else "";
    PushIf(base, c1, nopreview, "--nopreview", "1", 0);
    PushIf(c1, c2, analoggain.Some?, "--analoggain", agValue, 0);
    PushIf(c2, c3, gain.Some?, "--gain", gValue, 0);
    forall g {:trigger Lookup(cmd, g)}
      ensures Lookup(cmd, g) ==
        if IsOptionalFlag(g) then OptionalValue(fmt, nopreview, analoggain, gain, awbgains, g) else Lookup(base, g)
    {
      LookupPushIf(base, c1, nopreview, "--nopreview", "1", g);
      LookupPushIf(c1, c2, analoggain.Some?, "--analoggain", agValue, g);
      LookupPushIf(c2, c3, gain.Some?, "--gain", gValue, g);
      LookupPushIf(c3, cmd, awbgains.Some?, "--awbgains", awbValue, g);
      LookupFlags(base, g);
      OptionalValueOf(fmt, nopreview, analoggain, gain, awbgains);
    }
  }

  /**
   * `build_rpicam_cmd`: `rpicam-still` with the fixed camera, size,
   * shutter, EV, timeout, output, quality and metadata flags, then
   * `--nopreview 1` when asked and each of `--analoggain`, `--gain`,
   * `--awbgains` that was given, in that order.
   */
  method BuildRpicamCmd(outPath: string, shutterS: real, ev: real, fmt: Format,
                        width: int := DefaultWidth, height: int := DefaultHeight, camera: int := 0,
                        nopreview: bool := true, analoggain: Option<real> := None, gain: Option<real> := None,
                        awbgains: Option<string> := None)
    returns (cmd: seq<string>)
    ensures |cmd| == 1 + 2 * |Flags(cmd)| && |cmd| >= 21
    ensures cmd[..21] == FixedPart(IntToString(camera), IntToString(width), IntToString(height),
      IntToString(fmt.micros(shutterS)), fmt.float(ev), IntToString(TimeoutMs(shutterS)) + "ms", outPath)
    ensures Flags(cmd) == WithOptionalFlags(FixedFlags, nopreview, analoggain, gain, awbgains)
    ensures Lookup(cmd, "-t") == Some(IntToString(TimeoutMs(shutterS)) + "ms")
    ensures Lookup(cmd, "-o") == Some(outPath)
    ensures Lookup(cmd, "--nopreview") == if nopreview then Some("1") else None
    ensures Lookup(cmd, "--analoggain") == FloatArg(fmt, analoggain)
    ensures Lookup(cmd, "--gain") == FloatArg(fmt, gain)
    ensures Lookup(cmd, "--awbgains") == awbgains
  {
    var shutterUs := fmt.micros(shutterS);
    var timeoutMs := TimeoutMs(shutterS);
    var fixed := FixedPart(IntToString(camera), IntToString(width), IntToString(height),
      IntToString(shutterUs), fmt.float(ev), IntToString(timeoutMs) + "ms", outPath);
    FixedPartShape(IntToString(camera), IntToString(width), IntToString(height),
      IntToString(shutterUs), fmt.float(ev), IntToString(timeoutMs) + "ms", outPath);
    OptionalNotFixed();
    cmd := AppendOptionalFlags(fixed, fmt, nopreview, analoggain, gain, awbgains);
    CommandLookups(fixed, cmd, fmt, nopreview, analoggain, gain, awbgains);
    FlagsLength(cmd);
  }

  /** A command built on `base` reads the optional flags' arguments, and `-t`, `-o` as `base` does. */
  lemma CommandLookups(base: seq<string>, cmd: seq<string>, fmt: Format, nopreview: bool, analoggain: Option<real>,
                       gain: Option<real>, awbgains: Option<string>)
    requires forall g {:trigger Lookup(cmd, g)} :: (Lookup(cmd, g) ==
      if IsOptionalFlag(g) then OptionalValue(fmt, nopreview, analoggain, gain, awbgains, g) else Lookup(base, g))
    ensures Lookup(cmd, "-t") == Lookup(base, "-t")
    ensures Lookup(cmd, "-o") == Lookup(base, "-o")
    ensures Lookup(cmd, "--nopreview") == if nopreview then Some("1") else None
    ensures Lookup(cmd, "--analoggain") == FloatArg(fmt, analoggain)
    ensures Lookup(cmd, "--gain") == FloatArg(fmt, gain)
    ensures Lookup(cmd, "--awbgains") == awbgains
  {
    assert !IsOptionalFlag("-t") && !IsOptionalFlag("-o");
    OptionalValueOf(fmt, nopreview, analoggain, gain, awbgains);
  }
}
