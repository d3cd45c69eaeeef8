# Mothbox winter scripts: a Dafny model

This project models the deterministic logic of the Mothbox "winter" capture
scripts and proves properties of it:

- the configuration helper `config_loader.py`: `read_controls`, a
  line-oriented `key=value` parser, and `read_setting_csv`, which folds the
  rows of a `SETTING,VALUE,DETAILS` CSV file into a dictionary;
- `rpicam-test2.py`: the `rpicam-still` command line it builds, the recovery
  of JSON metadata from the command's standard output, the metadata key
  fallbacks, the brightness gate, the two kinds of manifest row and the
  record one capture leaves;
- `rpicam-test.py`: its 19-token command line and its range notes;
- `picam2-test.py`: its range notes.

Modules:

| module | file | contents |
|---|---|---|
| `Wrappers` | `wrappers.dfy` | `Option`, `Result` |
| `Text` | `text.dfy` | Python's `str.strip` (with Python's whitespace set), `str.find`, `str.rfind`, `str(int)` |
| `Assoc` | `assoc.dfy` | a dictionary built by assigning entries in order, later ones overriding earlier ones |
| `ConfigLoader` | `config_loader.dfy` | `read_controls`, `read_setting_csv` |
| `Json` | `json.dfy` | decoded JSON values, Python truthiness, `or` chains |
| `Argv` | `argv.dfy` | a command line read back as flag/value pairs; `int()` truncation; the `-t` timeout rule |
| `RpicamTest2` | `rpicam_test2.dfy` | `build_rpicam_cmd` of `rpicam-test2.py` |
| `CaptureManifest` | `capture_manifest.dfy` | `extract_json_from_stdout`, the metadata fallback, the brightness gate, the manifest rows and one capture's record in `rpicam-test2.py` |
| `ExposureRanges` | `exposure_ranges.dfy` | the range check shared by both `warn_about_ranges` |
| `RpicamTest` | `rpicam_test.dfy` | `build_rpicam_cmd` and `warn_about_ranges` of `rpicam-test.py` |
| `Picam2Test` | `picam2_test.dfy` | `warn_about_ranges` of `picam2-test.py` |

Modelling decisions:

- A file a loader reads is `Source<T>`: `Missing` (opening it raises
  `FileNotFoundError`) or the lines, or rows, it holds. A CSV row is the map
  `csv.DictReader` yields, with `None` for fields of a short row.
- The loops of `read_controls` and `read_setting_csv` are methods with a
  loop invariant. Each is proved equal to a fold (`Controls`, `Settings`)
  about which the properties are proved as lemmas.
- A command line is a `seq<string>`. `Argv.Flags` and `Argv.Lookup` read it
  back as the program would, as the flags in order and as the value that
  follows a flag. The builders' contracts use them. The builders are methods
  because they grow the list step by step.
- `str(x)` for a float and `int(round(x * 1e6))` are not defined here. They
  reach the builders and note texts as the two functions of an
  `Argv.Format`. `json.loads` reaches `ExtractJson` as `parse`, where `None`
  means that it raised. `json.dumps` reaches `CaptureRow` as `dump`, a
  function of the decoded value; since objects are maps, `dump` cannot
  reproduce their key order.
- Floats are reals. `int(x)` is truncation toward zero (`Argv.Trunc`), and
  `TimeoutMs` is `max(5000, int(shutter_s * 1000 + 5000))`. Python's `1/100`
  is taken as the real 0.01. The double nearest 0.01 lies just above 0.01,
  and no double lies strictly between the two, so `x < 1/100` and `x < 0.01`
  agree for every double `x`, that double itself included.
- JSON `null` and Python's `None` are both `Json.Null`, since `json.loads`
  turns one into the other. The metadata step calls `.get` on truthy metadata.
  When that metadata is not a JSON object, `.get` raises `AttributeError` and
  the capture loop stops. `ReadMetadataFields` returns `Failure` for that case.
  In a row, a decoded `null` is written as `None`, the same as every other
  `None` (`JsonCell`).
- `subprocess.run` with `capture_output=True, text=True` gives strings for
  the standard output and error, so `proc.stdout or ''` is the output itself.
- The note texts are copied character for character. The EV note of
  `rpicam-test.py` holds the three characters `â€”` where an em dash was
  meant, because the file's UTF-8 was once misread. The model keeps those
  characters as they are.

The adaptive exposure-convergence loop and the final-capture retry loop of
`rpicam-take-before dymai ctransition.py` are outside the modelled core.

## Model

| member | source | states |
|---|---|---|
| ConfigLoader.ReadControls | Firmware/4.x/winter_scripts/config_loader.py:68-82 | a missing file gives the empty dictionary; otherwise the result is the ordered fold of the lines' assignments, kept by the loop invariant |
| ConfigLoader.ControlEntryShape | Firmware/4.x/winter_scripts/config_loader.py:74-79 | a line assigns exactly when its stripped text is non-empty, does not start with `#` and contains `=`; key and value are the stripped parts before and after the first `=`, have no surrounding whitespace, and the key holds no `=` |
| ConfigLoader.ControlEntryRoundTrip | Firmware/4.x/winter_scripts/config_loader.py:74-79 | `k=v` reads back as `(k, v)` for every stripped key without `=` not starting with `#`, the empty key included, and every stripped value, so `a=#b` gives `#b` and later `=` stay in the value |
| ConfigLoader.ControlsKeys | Firmware/4.x/winter_scripts/config_loader.py:73-79 | a key is in the result exactly when some line assigns it, the empty key not filtered out |
| ConfigLoader.ControlsLastWins | Firmware/4.x/winter_scripts/config_loader.py:73-79 | when several lines assign a key, the last of them gives its value |
| ConfigLoader.ControlsIgnoresLine | Firmware/4.x/winter_scripts/config_loader.py:74-77 | a blank line, a comment line or a line without `=` leaves the result unchanged |
| ConfigLoader.ReadSettingCsv | Firmware/4.x/winter_scripts/config_loader.py:27-43 | a missing file gives the empty dictionary; otherwise the result is the ordered fold of `SETTING -> VALUE` over the rows, kept by the loop invariant |
| ConfigLoader.SettingsKeys | Firmware/4.x/winter_scripts/config_loader.py:36-40 | a key is in the result exactly when it is non-empty and some row has it as `SETTING`, so rows with a missing or empty `SETTING` are skipped |
| ConfigLoader.SettingsLastWins | Firmware/4.x/winter_scripts/config_loader.py:36-40 | a setting's value is the `VALUE` of the last row naming it (`None` when that row has none) |
| Assoc.LastWinsKeys | Firmware/4.x/winter_scripts/config_loader.py:79 | a key is in a dictionary built by assignment exactly when some entry assigns it |
| Assoc.LastWinsValue | Firmware/4.x/winter_scripts/config_loader.py:40 | a key's value is the one given by the last entry assigning it |
| Text.StripSplits | Firmware/4.x/winter_scripts/config_loader.py:74 | `strip()` leaves no whitespace at either end, never lengthens, and removes only whitespace from the two ends |
| Text.StripUnique | Firmware/4.x/winter_scripts/config_loader.py:74 | any split of a string into whitespace, a trimmed middle and whitespace has `strip()` as its middle |
| Text.StripIdempotent | Firmware/4.x/winter_scripts/config_loader.py:79 | stripping twice is stripping once |
| Text.Find | Firmware/4.x/winter_scripts/config_loader.py:78 | `find` returns -1 exactly when the character is absent, otherwise an index holding it with no earlier occurrence |
| Text.FindFirst | Firmware/4.x/winter_scripts/rpicam-test2.py:110 | when the character occurs at some index, `find` returns a non-negative index no later than that one |
| Text.RFindLast | Firmware/4.x/winter_scripts/rpicam-test2.py:111 | when the character occurs at some index, `rfind` returns an index no earlier than that one |
| Text.RFind | Firmware/4.x/winter_scripts/rpicam-test2.py:111 | `rfind` returns -1 exactly when the character is absent, otherwise an index holding it with no later occurrence |
| Text.IntToStringRoundTrip | Firmware/4.x/winter_scripts/rpicam-test2.py:80-82 | `str(i)` is an optional `-` and decimal digits that read back as `i` |
| Text.NatToStringRoundTrip | Firmware/4.x/winter_scripts/rpicam-test2.py:82 | the decimal digits of a natural number read back as that number |
| Argv.Trunc | Firmware/4.x/winter_scripts/rpicam-test2.py:76 | `int(x)` rounds toward zero: it is below a non-negative `x` by less than one, and above a negative `x` by less than one |
| Argv.TimeoutMs | Firmware/4.x/winter_scripts/rpicam-test2.py:76 | the timeout is at least 5000 ms, exactly 5000 for a non-positive shutter, and for a non-negative shutter the whole milliseconds plus 5000, so strictly more than the shutter in ms |
| Argv.LookupFlags | Firmware/4.x/winter_scripts/rpicam-test2.py:78-100 | a flag has a value in a command line exactly when it is one of its flags |
| Argv.PushIf | Firmware/4.x/winter_scripts/rpicam-test2.py:93-100 | appending a pair when an argument is given keeps the tokens before it and adds its flag to the flags |
| Argv.LookupPushIf | Firmware/4.x/winter_scripts/rpicam-test2.py:93-100 | appending a pair changes no flag already present and gives a new flag the appended value |
| RpicamTest2.FixedHeadShape | Firmware/4.x/winter_scripts/rpicam-test2.py:78-84 | the program name followed by the camera, width, height, shutter and EV pairs reads back as those five flags in order |
| RpicamTest2.FixedTailShape | Firmware/4.x/winter_scripts/rpicam-test2.py:85-90 | appending the `-t`, `-o`, quality, metadata and metadata-format pairs to that head gives the ten fixed flags, `-t` giving the timeout and `-o` the output path |
| RpicamTest2.FixedPartShape | Firmware/4.x/winter_scripts/rpicam-test2.py:78-90 | the fixed part is 21 tokens whose flags are camera, width, height, shutter, EV, `-t`, `-o`, quality, metadata and metadata format in that order, `-t` giving the timeout and `-o` the output path |
| RpicamTest2.OptionalNotFixed | Firmware/4.x/winter_scripts/rpicam-test2.py:78-100 | none of the four optional flags is one of the fixed flags |
| RpicamTest2.AppendOptionalFlags | Firmware/4.x/winter_scripts/rpicam-test2.py:92-100 | the optional part keeps the command's start, appends `--nopreview`, `--analoggain`, `--gain`, `--awbgains` in that order exactly for the arguments given, gives each its argument and changes no other flag's value |
| RpicamTest2.OptionalShape | Firmware/4.x/winter_scripts/rpicam-test2.py:92-100 | the four conditional appends add exactly the flags of the arguments given, in order, after the unchanged start |
| RpicamTest2.OptionalLookups | Firmware/4.x/winter_scripts/rpicam-test2.py:92-100 | after the four conditional appends an optional flag reads its argument and any other flag reads what it read before |
| RpicamTest2.OptionalValueOf | Firmware/4.x/winter_scripts/rpicam-test2.py:93-100 | `--nopreview` reads `1` iff asked for, each of the three gain flags reads its argument iff given, and no other flag reads any value |
| RpicamTest2.BuildRpicamCmd | Firmware/4.x/winter_scripts/rpicam-test2.py:73-102 | the command starts with the 21 fixed tokens, its flags are the ten fixed ones followed by the optional ones given, in order, so its length is 21 plus two per optional flag; `-t` reads the timeout with `ms`, `-o` the output path, `--nopreview` `1` iff asked for, and each gain flag its argument iff given |
| RpicamTest2.CommandLookups | Firmware/4.x/winter_scripts/rpicam-test2.py:78-100 | the full command reads `-t` and `-o` as the fixed part does and each optional flag as its argument |
| CaptureManifest.BraceCandidateExists | Firmware/4.x/winter_scripts/rpicam-test2.py:110-112 | the fallback candidate exists exactly when some `{` comes before some `}` |
| CaptureManifest.BraceCandidateShape | Firmware/4.x/winter_scripts/rpicam-test2.py:110-114 | the candidate is the slice of the output from its first `{` to its last `}`, both included, so it starts with `{` and ends with `}` |
| CaptureManifest.ExtractJson | Firmware/4.x/winter_scripts/rpicam-test2.py:105-117 | a decodable output is returned decoded; when the output does not decode but has a brace candidate, the result is the candidate's decoding (`None` if that fails too); with neither the result is `None`, and nothing but the output or the candidate is ever decoded |
| CaptureManifest.ExtractJsonWithoutBraces | Firmware/4.x/winter_scripts/rpicam-test2.py:105-117 | when no `{` precedes a `}`, the result is what decoding the whole output gives |
| CaptureManifest.ReadMetadataFields | Firmware/4.x/winter_scripts/rpicam-test2.py:187-197 | falsy metadata leaves all four values `None`; truthy metadata that is not an object raises `AttributeError`; otherwise each value is the first truthy one among its keys, or the last key's value, and the AWB gains fall back to `None`, so they are never a falsy non-`None` value |
| CaptureManifest.FieldNamesDistinct | Firmware/4.x/winter_scripts/rpicam-test2.py:142-146 | the manifest has fifteen distinct column names |
| CaptureManifest.DryRunRowSchema | Firmware/4.x/winter_scripts/rpicam-test2.py:159-175 | a dry-run row has exactly the fifteen columns, return code `DRY-RUN` and empty standard-error, metadata and brightness fields |
| CaptureManifest.CaptureRowSchema | Firmware/4.x/winter_scripts/rpicam-test2.py:203-219 | a real row has exactly the fifteen columns, the return code, the stripped standard error, and `metadata_json` the `json.dumps` of the metadata, or empty when it is `None` |
| CaptureManifest.RequestFieldNotResult | Firmware/4.x/winter_scripts/rpicam-test2.py:142-146 | no request column is also one of the eight result columns |
| CaptureManifest.CaptureRowRequest | Firmware/4.x/winter_scripts/rpicam-test2.py:203-210 | the seven request columns of a real row are those of its request |
| CaptureManifest.CaptureRowColumns | Firmware/4.x/winter_scripts/rpicam-test2.py:214-218 | the four metadata columns of a real row hold the four metadata values, a `null` one as `None`, and `mean_brightness` the brightness or `None` |
| CaptureManifest.WriteCaptureRow | Firmware/4.x/winter_scripts/rpicam-test2.py:203-219 | the row has exactly the fifteen columns, each holding its request value, the return code, the stripped standard error, the re-encoded metadata or empty, the four metadata values or the brightness |
| CaptureManifest.RecordCapture | Firmware/4.x/winter_scripts/rpicam-test2.py:185-219 | one capture fails with `AttributeError` exactly when the extracted metadata is truthy and not an object; otherwise its row has the fifteen columns, records a brightness (as measured) exactly when the return code is 0, the file exists and the measurement succeeded, `None` otherwise; its metadata columns are all `None` for falsy metadata and otherwise the first-truthy key chains, the AWB gains never a falsy non-`None` value; `metadata_json` re-encodes the extracted metadata |
| CaptureManifest.RowsAgreeOnRequest | Firmware/4.x/winter_scripts/rpicam-test2.py:159-219 | a dry-run row and a real row of the same request agree on the seven request columns |
| Json.FirstTruthy | Firmware/4.x/winter_scripts/rpicam-test2.py:193-197 | an `or` chain yields one of its operands: the first truthy one, or the last when none is truthy, and a truthy value exactly when some operand is truthy |
| Json.OrChain3 | Firmware/4.x/winter_scripts/rpicam-test2.py:193 | a three-operand `or` chain, grouped to the left, is the first-truthy choice |
| ExposureRanges.Warnings | Firmware/4.x/winter_scripts/rpicam-test.py:64-72 | the EV note is raised iff EV < -8 or EV > 8, the long note iff the exposure exceeds 30 s, the short note iff it is below 1/100 s, in that order; long and short never come together, so there are at most two notes, and none exactly when -8 <= EV <= 8 and 1/100 <= exposure <= 30 |
| ExposureRanges.RenderedNotes | Firmware/4.x/winter_scripts/picam2-test.py:63-81 | with a wording that tells the kinds apart, a kind's text is in the notes exactly when that kind is raised |
| RpicamTest.BasePartShape | Firmware/4.x/winter_scripts/rpicam-test.py:86-96 | the base part is 17 tokens whose flags are camera, width, height, shutter, EV, `-t`, `-o` and quality, `-t` giving the timeout and `-o` the output path |
| RpicamTest.CommandShape | Firmware/4.x/winter_scripts/rpicam-test.py:86-102 | with `--nopreview 1` appended the command is 19 tokens with nine flags, `--nopreview` reading `1` |
| RpicamTest.BuildRpicamCmd | Firmware/4.x/winter_scripts/rpicam-test.py:79-103 | the command is the 17 fixed tokens then `--nopreview 1`, whatever `nopreview` is: 19 tokens, `-t` reading the timeout with `ms`, `-o` the output path |
| RpicamTest.NoteTextInjective | Firmware/4.x/winter_scripts/rpicam-test.py:66-71 | the three note texts differ from each other |
| RpicamTest.WarnAboutRanges | Firmware/4.x/winter_scripts/rpicam-test.py:64-72 | the notes are the texts of the raised kinds, in order, and a note's text is present exactly when its condition holds |
| Picam2Test.NoteTextInjective | Firmware/4.x/winter_scripts/picam2-test.py:69-79 | the three note texts differ from each other |
| Picam2Test.WarnAboutRanges | Firmware/4.x/winter_scripts/picam2-test.py:63-81 | the notes are the texts of the raised kinds, in order, and a note's text is present exactly when its condition holds |

## Left out

- The exposure-convergence loop (`rpicam-take-before dymai ctransition.py:251-353`) and its final-capture retry loop (`:437`): a separate script outside the modelled core.
- `linspace` and `frange` (`rpicam-test2.py`, `rpicam-test.py`, `picam2-test.py`): how many elements they yield, and where the sequence ends, depends on float rounding and an `eps` fudge, which reals do not capture.
- `int(round(shutter_s * 1e6))` and `str(x)` for a float: float arithmetic with round-half-to-even and shortest-repr printing. They are parameters of `Argv.Format`.
- Argv.TimeoutMs: computes on reals, so the rounding of `shutter_s * 1000 + 5000` in floating point is not modelled.
- `subprocess.run`, Picamera2 calls, `mkdir`, `append_manifest`'s CSV writing, `time.strftime` timestamps and the file names built from them, `Path.is_file`, and `print`. These are I/O. The timestamp, file name, return code, standard output and error, file existence and measured brightness are inputs.
- `mean_brightness_jpeg` (PIL), `json.loads`, `json.dumps` and the CSV tokenising of `csv.DictReader`: foreign libraries, passed in as inputs or function parameters.
- The loop of `run_sequence` over exposures and EVs, and its early return when `rpicam-still` is missing: orchestration of I/O. The model covers one capture's command, extraction, fallback, gate and row.
- `find_external_file`, `load_camera_settings`, `load_schedule_settings`: filesystem search and path selection.
- `gpio_safe.py`, `sample_capture.py`, `defaults.py`, `parse_args`, `main`: hardware polling, orchestration, constants and argparse plumbing.
- The key order of the dictionaries `read_controls` and `read_setting_csv` return (first-insertion order): they are `map`s, so code that lists their first keys, as `sample_capture.py` does, is not covered.
- The difference between a Python `int` and `float` inside decoded JSON, and NaN: JSON numbers are reals.
- The key order of decoded JSON objects and the positions of duplicate keys: `Json.Object` is a `map`, so two outputs that differ only in key order decode to the same value, and the order `json.dumps` reproduces in `metadata_json` is not modelled.
- Failures to open or read a file other than `FileNotFoundError` (`PermissionError`, `IsADirectoryError`, `UnicodeDecodeError`, `csv.Error`): they propagate out of `read_controls` and `read_setting_csv`, while the model assumes any file that exists can be read.
