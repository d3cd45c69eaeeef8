/**
 * Command lines for `rpicam-still` as the capture scripts build them: the
 * program name followed by flag/value pairs. `Flags` and `Lookup` read a
 * command line back as the program would, which is how the builders'
 * contracts are stated.
 */
module Argv {
  import opened Wrappers
  import opened Text

  /**
   * The formatting builtins the builders call and this model does not
   * define: `str(x)` for a float and `int(round(x * 1e6))`, the
   * seconds-to-microseconds conversion.
   */
  datatype Format = Format(float: real -> string, micros: real -> int)

  /**
   * The flags of a command line of odd length `[program, flag1, value1,
   * flag2, value2, ...]`, in order.
   */
  function Flags(cmd: seq<string>): seq<string>
  {
    if |cmd| < 3 then [] else Flags(cmd[..|cmd| - 2]) + [cmd[|cmd| - 2]]
  }

  /** The value given to the first occurrence of `flag` in a command line of odd length, if `flag` occurs. */
  function Lookup(cmd: seq<string>, flag: string): Option<string>
  {
    if |cmd| < 3 then None
    else
      var earlier := Lookup(cmd[..|cmd| - 2], flag);
      if earlier.Some? then earlier
      else if cmd[|cmd| - 2] == flag then Some(cmd[|cmd| - 1])
      else None
  }

  /** A flag has a value exactly when it is one of the flags. */
  lemma {:induction false} LookupFlags(cmd: seq<string>, flag: string)
    ensures Lookup(cmd, flag).Some? <==> flag in Flags(cmd)
  {
    if |cmd| >= 3 {
      LookupFlags(cmd[..|cmd| - 2], flag);
    }
  }

  /** A command line of odd length has one flag per pair. */
  lemma {:induction false} FlagsLength(cmd: seq<string>)
    requires |cmd| % 2 == 1
    ensures |Flags(cmd)| == |cmd| / 2
  {
    if |cmd| >= 3 {
      FlagsLength(cmd[..|cmd| - 2]);
    }
  }

  /** Appending a pair appends its flag. */
  lemma FlagsPush(cmd: seq<string>, f: string, v: string)
    requires |cmd| % 2 == 1
    ensures Flags(cmd + [f, v]) == Flags(cmd) + [f]
  {
    var c := cmd + [f, v];
    assert c[..|c| - 2] == cmd;
  }

  /** Appending a pair leaves a flag already present with its value and gives the appended flag, if new, its value. */
  lemma LookupPush(cmd: seq<string>, f: string, v: string, g: string)
    requires |cmd| % 2 == 1
    ensures Lookup(cmd + [f, v], g) == (if Lookup(cmd, g).Some? then Lookup(cmd, g) else if g == f then Some(v) else None)
  {
    var c := cmd + [f, v];
    assert c[..|c| - 2] == cmd;
  }

  /** The flag an optional argument contributes: `flag` when `given`, nothing otherwise. */
  function FlagIf(given: bool, flag: string): seq<string>
  {
    if given then [flag] else []
  }

  /**
   * Appending the pair `f v` only when `given` keeps the first `n` tokens
   * and appends `f` to the flags when given.
   */
  lemma PushIf(before: seq<string>, after: seq<string>, given: bool, f: string, v: string, n: nat)
    requires |before| % 2 == 1 && n <= |before|
    requires after == if given then before + [f, v] else before
    ensures |after| % 2 == 1 && |after| == |before| + 2 * |FlagIf(given, f)|
    ensures after[..n] == before[..n]
    ensures Flags(after) == Flags(before) + FlagIf(given, f)
  {
    if given {
      FlagsPush(before, f, v);
    }
  }

  /** Appending the pair `f v` only when `given` changes no flag's value, except that a new `f` reads `v`. */
  lemma LookupPushIf(before: seq<string>, after: seq<string>, given: bool, f: string, v: string, g: string)
    requires |before| % 2 == 1
    requires after == if given then before + [f, v] else before
    ensures Lookup(after, g) == (if Lookup(before, g).Some? then Lookup(before, g) else if given && g == f then Some(v) else None)
  {
    if given {
      LookupPush(before, f, v, g);
    }
  }

  /** Python's `int(x)` for a float: truncation toward zero. */
  function Trunc(x: real): (r: int)
    ensures x >= 0.0 ==> r as real <= x < r as real + 1.0
    ensures x < 0.0 ==> r as real - 1.0 < x <= r as real
  {
    if x >= 0.0 then x.Floor else -((-x).Floor)
  }

  /**
   * `max(5000, int(shutter_s * 1000 + 5000))`: the `-t` timeout in
   * milliseconds. It is never below 5000; for a non-negative shutter it is
   * the shutter in whole milliseconds plus 5000, so it exceeds the shutter.
   */
  function TimeoutMs(shutterS: real): (r: int)
    ensures r >= 5000
    ensures shutterS <= 0.0 ==> r == 5000
    ensures shutterS >= 0.0 ==> r == (shutterS * 1000.0).Floor + 5000
    ensures shutterS >= 0.0 ==> r as real > shutterS * 1000.0
  {
    var t := Trunc(shutterS * 1000.0 + 5000.0);
    if t < 5000 then 5000 else t
  }
}
