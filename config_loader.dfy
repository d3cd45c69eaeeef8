/**
 * The two text loaders of the configuration helper: `read_controls`, a
 * line-oriented `key=value` parser, and `read_setting_csv`, which folds the
 * rows of a `SETTING,VALUE,DETAILS` CSV file into a dictionary.
 */
module ConfigLoader {
  import opened Wrappers
  import opened Text
  import opened Assoc

  /** A file as a loader sees it: missing (opening it raises FileNotFoundError), or the items read from it in order. */
  datatype Source<T> = Missing | Present(items: seq<T>)

  // ---------------------------------------------------------------- read_controls

  /**
   * The assignment one line of a control file makes, if any. After
   * stripping, a blank line, a line starting with `#` and a line without `=`
   * make none; otherwise the line is split at its first `=` and both halves
   * are stripped.
   */
  function ControlEntry(line: string): Option<(string, string)>
  {
    var t := Strip(line);
    if t == [] || t[0] == '#' then None
    else if '=' !in t then None
    else
      var i := Find(t, '=');
      Some((Strip(t[..i]), Strip(t[i + 1..])))
  }

  /**
   * A line assigns exactly when its stripped text is non-empty, does not
   * start with `#` and contains `=`; the key is the stripped text before the
   * first `=` and the value the stripped text after it, so the key holds no
   * `=` and neither has surrounding whitespace.
   */
  lemma ControlEntryShape(line: string)
    ensures var t := Strip(line);
      ControlEntry(line).Some? <==> (t != [] && t[0] != '#' && '=' in t)
    ensures ControlEntry(line).Some? ==> var t := Strip(line); var e := ControlEntry(line).value;
      exists i :: 0 <= i < |t| && t[i] == '=' && '=' !in t[..i] &&
        e.0 == Strip(t[..i]) && e.1 == Strip(t[i + 1..])
    ensures ControlEntry(line).Some? ==> var e := ControlEntry(line).value;
      Trimmed(e.0) && Trimmed(e.1) && '=' !in e.0
  {
    var t := Strip(line);
    if ControlEntry(line).Some? {
      var i := Find(t, '=');
      var raw := t[..i];
      TrimStartShape(raw);
      TrimEndShape(TrimStart(raw));
      assert '=' !in TrimStart(raw);
      StripSplits(raw);
      StripSplits(t[i + 1..]);
    }
  }

  function ControlEntries(lines: seq<string>): (r: seq<Option<(string, string)>>)
    ensures |r| == |lines| && forall i :: 0 <= i < |lines| ==> r[i] == ControlEntry(lines[i])
  {
    seq(|lines|, i requires 0 <= i < |lines| => ControlEntry(lines[i]))
  }

  /** The dictionary `read_controls` returns for the lines of an existing file. */
  function Controls(lines: seq<string>): map<string, string>
  {
    LastWins(ControlEntries(lines))
  }

  /** `read_controls`: the empty dictionary for a missing file, else the assignments of its lines in order. */
  method ReadControls(file: Source<string>) returns (out: map<string, string>)
    ensures file.Missing? ==> out == map[]
    ensures file.Present? ==> out == Controls(file.items)
  {
    out := map[];
    match file
    case Missing =>
      return map[];
    case Present(lines) =>
      ghost var entries := ControlEntries(lines);
      for n := 0 to |lines|
        invariant out == LastWins(entries[..n])
      {
        LastWinsStep(entries, n);
        assert entries[n] == ControlEntry(lines[n]);
        var line := Strip(lines[n]);
        if line == [] || line[0] == '#' {
          assert ControlEntry(lines[n]) == None;
          continue;
        }
        if '=' in line {
          var i := Find(line, '=');
          assert ControlEntry(lines[n]) == Some((Strip(line[..i]), Strip(line[i + 1..])));
          out := out[Strip(line[..i]) := Strip(line[i + 1..])];
        } else {
          assert ControlEntry(lines[n]) == None;
        }
      }
      assert entries[..|lines|] == entries;
  }

  /** A key is in the result exactly when some line assigns it. */
  lemma ControlsKeys(lines: seq<string>, k: string)
    ensures k in Controls(lines) <==>
      exists i :: 0 <= i < |lines| && ControlEntry(lines[i]).Some? && ControlEntry(lines[i]).value.0 == k
  {
    var entries := ControlEntries(lines);
    LastWinsKeys(entries, k);
    if exists i :: Assigns(entries, i, k) {
      var i :| Assigns(entries, i, k);
      assert ControlEntry(lines[i]).Some? && ControlEntry(lines[i]).value.0 == k;
    }
    if exists i :: 0 <= i < |lines| && ControlEntry(lines[i]).Some? && ControlEntry(lines[i]).value.0 == k {
      var i :| 0 <= i < |lines| && ControlEntry(lines[i]).Some? && ControlEntry(lines[i]).value.0 == k;
      assert Assigns(entries, i, k);
    }
  }

  /** When a key is assigned on several lines, the last of them gives its value. */
  lemma ControlsLastWins(lines: seq<string>, i: int, k: string, v: string)
    requires 0 <= i < |lines| && ControlEntry(lines[i]) == Some((k, v))
    requires forall j :: i < j < |lines| && ControlEntry(lines[j]).Some? ==> ControlEntry(lines[j]).value.0 != k
    ensures k in Controls(lines) && Controls(lines)[k] == v
  {
    var entries := ControlEntries(lines);
    forall j | i < j < |entries| ensures !Assigns(entries, j, k) {
      assert entries[j] == ControlEntry(lines[j]);
    }
    LastWinsValue(entries, i);
  }

  /** A line that assigns nothing (blank, comment, no `=`) leaves the result as it was. */
  lemma ControlsIgnoresLine(lines: seq<string>, line: string)
    requires ControlEntry(line).None?
    ensures Controls(lines + [line]) == Controls(lines)
  {
    assert ControlEntries(lines + [line])[..|lines|] == ControlEntries(lines);
  }

  /**
   * Writing `k=v` and reading it back gives `(k, v)`, for any stripped key
   * without `=` that does not start with `#` (the empty key included) and any
   * stripped value, even one starting with `#` or holding further `=`:
   * `a=#b` sets `a` to `#b`.
   */
  lemma ControlEntryRoundTrip(k: string, v: string)
    requires Trimmed(k) && '=' !in k && (k == [] || k[0] != '#')
    requires Trimmed(v)
    ensures ControlEntry(k + "=" + v) == Some((k, v))
  {
    var t := k + "=" + v;
    assert t[|k|] == '=';
    assert t[..|k|] == k && t[|k| + 1..] == v;
    assert Trimmed(t) by {
      if k != [] { assert t[0] == k[0]; }
      if v != [] { assert t[|t| - 1] == v[|v| - 1]; }
    }
    StripTrimmed(t);
    FindAt(t, '=', |k|);
    StripTrimmed(k);
    StripTrimmed(v);
    assert t[0] != '#' by { if k == [] { assert t[0] == '='; } else { assert t[0] == k[0]; } }
    assert '=' in t;
    assert ControlEntry(t) == Some((Strip(t[..|k|]), Strip(t[|k| + 1..])));
  }

  // ---------------------------------------------------------------- read_setting_csv

  /** One CSV row as `csv.DictReader` yields it: header name to field, `None` where a short row was padded. */
  type Row = map<string, Option<string>>

  /** `row.get(name)`. */
  function Field(row: Row, name: string): Option<string>
  {
    if name in row then row[name] else None
  }

  /** The assignment a row makes: rows whose `SETTING` is missing or empty make none. */
  function SettingEntry(row: Row): Option<(string, Option<string>)>
  {
    var key := Field(row, "SETTING");
    if key.Some? && key.value != "" then Some((key.value, Field(row, "VALUE"))) else None
  }

  function SettingEntries(rows: seq<Row>): (r: seq<Option<(string, Option<string>)>>)
    ensures |r| == |rows| && forall i :: 0 <= i < |rows| ==> r[i] == SettingEntry(rows[i])
  {
    seq(|rows|, i requires 0 <= i < |rows| => SettingEntry(rows[i]))
  }

  /** The dictionary `read_setting_csv` returns for the rows of an existing file. */
  function Settings(rows: seq<Row>): map<string, Option<string>>
  {
    LastWins(SettingEntries(rows))
  }

  /** `read_setting_csv`: the empty dictionary for a missing file, else `SETTING -> VALUE` over its rows in order. */
  method ReadSettingCsv(file: Source<Row>) returns (result: map<string, Option<string>>)
    ensures file.Missing? ==> result == map[]
    ensures file.Present? ==> result == Settings(file.items)
  {
    result := map[];
    match file
    case Missing =>
      return map[];
    case Present(rows) =>
      ghost var entries := SettingEntries(rows);
      for n := 0 to |rows|
        invariant result == LastWins(entries[..n])
      {
        LastWinsStep(entries, n);
        assert entries[n] == SettingEntry(rows[n]);
        var key := Field(rows[n], "SETTING");
        var val := Field(rows[n], "VALUE");
        if key.Some? && key.value != "" {
          result := result[key.value := val];
        }
      }
      assert entries[..|rows|] == entries;
  }

  /** A key is in the result exactly when it is non-empty and some row has it as `SETTING`. */
  lemma SettingsKeys(rows: seq<Row>, k: string)
    ensures k in Settings(rows) <==>
      k != "" && exists i :: 0 <= i < |rows| && Field(rows[i], "SETTING") == Some(k)
  {
    var entries := SettingEntries(rows);
    LastWinsKeys(entries, k);
    if exists i :: Assigns(entries, i, k) {
      var i :| Assigns(entries, i, k);
      assert Field(rows[i], "SETTING") == Some(k);
    }
    if k != "" && exists i :: 0 <= i < |rows| && Field(rows[i], "SETTING") == Some(k) {
      var i :| 0 <= i < |rows| && Field(rows[i], "SETTING") == Some(k);
      assert Assigns(entries, i, k);
    }
  }

  /** The value of a setting is the `VALUE` of the last row naming it. */
  lemma SettingsLastWins(rows: seq<Row>, i: int, k: string)
    requires 0 <= i < |rows| && Field(rows[i], "SETTING") == Some(k) && k != ""
    requires forall j :: i < j < |rows| ==> Field(rows[j], "SETTING") != Some(k)
    ensures k in Settings(rows) && Settings(rows)[k] == Field(rows[i], "VALUE")
  {
    var entries := SettingEntries(rows);
    forall j | i < j < |entries| ensures !Assigns(entries, j, k) {
      assert entries[j] == SettingEntry(rows[j]);
    }
    LastWinsValue(entries, i);
  }
}
