/**
 * What `run_sequence` in `rpicam-test2.py` does with one capture besides
 * running it: recover the JSON metadata from `rpicam-still`'s standard
 * output, pick the exposure, gain and white-balance values out of it by key
 * fallback, decide whether a brightness is recorded, and lay out the
 * manifest row.
 */
module CaptureManifest {
  import opened Wrappers
  import opened Text
  import Json

  // ---------------------------------------------------------------- extract_json_from_stdout

  /**
   * The fallback candidate of `extract_json_from_stdout`: the text from the
   * first `{` to the last `}`, both included, provided both exist and the
   * `}` comes after the `{`.
   */
  function BraceCandidate(stdout: string): Option<string>
  {
    var start := Find(stdout, '{');
    var end := RFind(stdout, '}');
    if start != -1 && end != -1 && end > start then Some(stdout[start..end + 1]) else None
  }

  /** There is a candidate exactly when some `{` comes before some `}`. */
  lemma BraceCandidateExists(stdout: string)
    ensures BraceCandidate(stdout).Some? <==>
      exists i, j :: 0 <= i < j < |stdout| && stdout[i] == '{' && stdout[j] == '}'
  {
    if exists i, j :: 0 <= i < j < |stdout| && stdout[i] == '{' && stdout[j] == '}' {
      var i, j :| 0 <= i < j < |stdout| && stdout[i] == '{' && stdout[j] == '}';
      FindFirst(stdout, '{', i);
      RFindLast(stdout, '}', j);
    }
  }

  /**
   * A candidate is the slice of the output from its first `{` to its last
   * `}`, so it starts with `{` and ends with `}`.
   */
  lemma BraceCandidateShape(stdout: string)
    requires BraceCandidate(stdout).Some?
    ensures var c := BraceCandidate(stdout).value; |c| >= 2 && c[0] == '{' && c[|c| - 1] == '}'
    ensures exists i, j ::
      0 <= i < j < |stdout| && BraceCandidate(stdout).value == stdout[i..j + 1] &&
      stdout[i] == '{' && '{' !in stdout[..i] && stdout[j] == '}' && '}' !in stdout[j + 1..]
  {
    var start := Find(stdout, '{');
    var end := RFind(stdout, '}');
    assert BraceCandidate(stdout).value == stdout[start..end + 1];
  }

  /**
   * `extract_json_from_stdout`: the decoding of the whole output if it
   * decodes, otherwise the decoding of the brace candidate if there is one,
   * otherwise nothing. `parse` is `json.loads`, `None` standing for the
   * exception it raises; `None` as the result is Python's `None`.
   */
  function ExtractJson(stdout: string, parse: string -> Option<Json.Value>): (r: Option<Json.Value>)
    ensures parse(stdout).Some? ==> r == parse(stdout)
    ensures r.Some? ==> r == parse(stdout) || (BraceCandidate(stdout).Some? && r == parse(BraceCandidate(stdout).value))
    ensures parse(stdout).None? && BraceCandidate(stdout).Some? ==> r == parse(BraceCandidate(stdout).value)
    ensures parse(stdout).None? && BraceCandidate(stdout).None? ==> r.None?
  {
    var whole := parse(stdout);
    if whole.Some? then whole
    else
      var candidate := BraceCandidate(stdout);
      if candidate.Some? then parse(candidate.value) else None
  }

  /** When no `{` precedes a `}` in the output, nothing but the whole output is ever decoded. */
  lemma ExtractJsonWithoutBraces(stdout: string, parse: string -> Option<Json.Value>)
    requires forall i, j :: 0 <= i < j < |stdout| ==> !(stdout[i] == '{' && stdout[j] == '}')
    ensures ExtractJson(stdout, parse) == parse(stdout)
  {
    BraceCandidateExists(stdout);
  }

  /**
   * The value the script's `metadata` variable holds: Python's `None` when
   * nothing was extracted (a decoded JSON `null` is `None` as well).
   */
  function Metadata(extracted: Option<Json.Value>): Json.Value
  {
    if extracted.Some? then extracted.value else Json.Null
  }

  // ---------------------------------------------------------------- metadata key fallback

  /** The four metadata values a manifest row records. */
  datatype MetadataFields = MetadataFields(exposureUs: Json.Value, analogGain: Json.Value,
                                           digitalGain: Json.Value, awbGains: Json.Value)

  /** The way the capture loop stops: `.get` on truthy metadata that is not a JSON object raises AttributeError. */
  datatype Crash = AttributeError

  /**
   * The key fallback of `run_sequence`: every value stays `None` unless the
   * metadata is truthy; then each value is the first truthy one among its
   * keys, and the last key's value when none is truthy, except that the
   * white-balance gains fall back to `None` rather than to the last key.
   */
  method ReadMetadataFields(metadata: Json.Value) returns (r: Result<MetadataFields, Crash>)
    ensures !Json.Truthy(metadata) ==> r == Success(MetadataFields(Json.Null, Json.Null, Json.Null, Json.Null))
    ensures Json.Truthy(metadata) && !metadata.Object? ==> r == Failure(AttributeError)
    ensures Json.Truthy(metadata) && metadata.Object? ==> (r.Success? &&
      var m := metadata.fields;
      r.value.exposureUs == Json.FirstTruthy([Json.Get(m, "ExposureTime"), Json.Get(m, "exp"), Json.Get(m, "shutter")]) &&
      r.value.analogGain == Json.FirstTruthy([Json.Get(m, "AnalogueGain"), Json.Get(m, "ag")]) &&
      r.value.digitalGain == Json.FirstTruthy([Json.Get(m, "DigitalGain"), Json.Get(m, "dg")]) &&
      r.value.awbGains == Json.FirstTruthy([Json.Get(m, "AwbGains"), Json.Get(m, "awbgains"), Json.Null]))
    ensures r.Success? ==> Json.Truthy(r.value.awbGains) || r.value.awbGains == Json.Null
  {
    var exposureUs := Json.Null;
    var analogGain := Json.Null;
    var digitalGain := Json.Null;
    var awbGains := Json.Null;
    if Json.Truthy(metadata) {
      if !metadata.Object? {
        return Failure(AttributeError);
      }
      var m := metadata.fields;
      exposureUs := Json.Or(Json.Or(Json.Get(m, "ExposureTime"), Json.Get(m, "exp")), Json.Get(m, "shutter"));
      analogGain := Json.Or(Json.Get(m, "AnalogueGain"), Json.Get(m, "ag"));
      digitalGain := Json.Or(Json.Get(m, "DigitalGain"), Json.Get(m, "dg"));
      awbGains := Json.Or(Json.Or(Json.Get(m, "AwbGains"), Json.Get(m, "awbgains")), Json.Null);
      Json.OrChain3(Json.Get(m, "ExposureTime"), Json.Get(m, "exp"), Json.Get(m, "shutter"));
      Json.OrChain3(Json.Get(m, "AwbGains"), Json.Get(m, "awbgains"), Json.Null);
    }
    r := Success(MetadataFields(exposureUs, analogGain, digitalGain, awbGains));
  }

  // ---------------------------------------------------------------- manifest rows

  /** A value in a manifest row, before the CSV writer turns it into text (writing `None` as an empty field). */
  datatype Cell =
    | NoneCell
    | Chars(s: string)
    | Float(x: real)
    | Int(i: int)
    | Decoded(v: Json.Value)

  type Row = map<string, Cell>

  /** The columns that describe what was asked for; both kinds of row fill them alike. */
  const RequestFields: seq<string> :=
    ["timestamp", "filename", "requested_shutter_s", "requested_ev", "requested_analoggain", "requested_gain",
     "requested_awbgains"]

  /** The manifest columns, in order: the request columns, then the result columns. */
  const FieldNames: seq<string> :=
    RequestFields +
    ["rpicam_returncode", "rpicam_stderr", "metadata_json", "metadata_exposure_us", "metadata_analoggain",
     "metadata_digitalgain", "metadata_awbgains", "mean_brightness"]

  /** What one planned capture asked for: its timestamp, output file and requested settings. */
  datatype Request = Request(timestamp: string, filename: string, shutterS: real, ev: real,
                             analoggain: Option<real>, gain: Option<real>, awbgains: Option<string>)

  function FloatCell(x: Option<real>): Cell
  {
    if x.Some? then Float(x.value) else NoneCell
  }

  /** A JSON value as a cell: a decoded `null` is Python's `None`, so it is `NoneCell` like every other `None`. */
  function JsonCell(v: Json.Value): Cell
  {
    if v == Json.Null then NoneCell else Decoded(v)
  }

  function TextCell(x: Option<string>): Cell
  {
    if x.Some? then Chars(x.value) else NoneCell
  }

  /** The seven request columns of a row. */
  function RequestRow(req: Request): Row
  {
    map["timestamp" := Chars(req.timestamp),
        "filename" := Chars(req.filename),
        "requested_shutter_s" := Float(req.shutterS),
        "requested_ev" := Float(req.ev),
        "requested_analoggain" := FloatCell(req.analoggain),
        "requested_gain" := FloatCell(req.gain),
        "requested_awbgains" := TextCell(req.awbgains)]
  }

  /** The placeholder row a dry run writes: return code `DRY-RUN` and every result column empty. */
  function DryRunRow(req: Request): Row
  {
    RequestRow(req)["rpicam_returncode" := Chars("DRY-RUN")]["rpicam_stderr" := Chars("")]["metadata_json" := Chars("")]
      ["metadata_exposure_us" := Chars("")]["metadata_analoggain" := Chars("")]["metadata_digitalgain" := Chars("")]
      ["metadata_awbgains" := Chars("")]["mean_brightness" := Chars("")]
  }

  /**
   * The row of a capture that ran: return code, stripped standard error,
   * the metadata re-encoded by `dump` (`json.dumps`) unless it is `None`,
   * the four metadata values and the brightness.
   */
  function CaptureRow(req: Request, returncode: int, stderr: string, metadata: Json.Value, fields: MetadataFields,
                      meanB: Option<real>, dump: Json.Value -> string): Row
  {
    RequestRow(req)["rpicam_returncode" := Int(returncode)]["rpicam_stderr" := Chars(Strip(stderr))]
      ["metadata_json" := Chars(if metadata != Json.Null then dump(metadata) else "")]
      ["metadata_exposure_us" := JsonCell(fields.exposureUs)]["metadata_analoggain" := JsonCell(fields.analogGain)]
      ["metadata_digitalgain" := JsonCell(fields.digitalGain)]["metadata_awbgains" := JsonCell(fields.awbGains)]
      ["mean_brightness" := FloatCell(meanB)]
  }

  /** The fifteen column names are distinct. */
  lemma FieldNamesDistinct()
    ensures |FieldNames| == 15
    ensures forall i, j :: 0 <= i < j < |FieldNames| ==> FieldNames[i] != FieldNames[j]
  {
  }

  /** A dry-run row has exactly the manifest's columns, with `DRY-RUN` as return code and empty result columns. */
  lemma DryRunRowSchema(req: Request)
    ensures DryRunRow(req).Keys == set f | f in FieldNames
    ensures DryRunRow(req)["rpicam_returncode"] == Chars("DRY-RUN")
    ensures forall f :: f in FieldNames[8..] ==> DryRunRow(req)[f] == Chars("")
  {
  }

  /**
   * A real row has exactly the manifest's columns; the standard error is
   * stored without surrounding whitespace and `metadata_json` is the
   * metadata re-encoded by `dump`, or empty when the metadata is `None`.
   */
  lemma CaptureRowSchema(req: Request, returncode: int, stderr: string, metadata: Json.Value, fields: MetadataFields,
                         meanB: Option<real>, dump: Json.Value -> string)
    ensures var row := CaptureRow(req, returncode, stderr, metadata, fields, meanB, dump);
      row.Keys == set f | f in FieldNames &&
      row["rpicam_returncode"] == Int(returncode) &&
      row["rpicam_stderr"] == Chars(Strip(stderr)) && Trimmed(row["rpicam_stderr"].s) &&
      (metadata == Json.Null ==> row["metadata_json"] == Chars("")) &&
      (metadata != Json.Null ==> row["metadata_json"] == Chars(dump(metadata)))
  {
    StripSplits(stderr);
  }

  /** No request column is a result column: each starts with `t`, `f` or `re`, each result column with `m` or `rp`. */
  lemma RequestFieldNotResult(f: string)
    requires f in RequestFields
    ensures f !in FieldNames[|RequestFields|..]
  {
    assert |f| >= 2 && (f[0] == 't' || f[0] == 'f' || (f[0] == 'r' && f[1] == 'e'));
    forall g | g in FieldNames[|RequestFields|..]
      ensures |g| >= 2 && (g[0] == 'm' || (g[0] == 'r' && g[1] == 'p'))
    {
    }
  }

  /** The request columns of a real row are those of its request. */
  lemma CaptureRowRequest(req: Request, returncode: int, stderr: string, metadata: Json.Value, fields: MetadataFields,
                          meanB: Option<real>, dump: Json.Value -> string)
    ensures var row := CaptureRow(req, returncode, stderr, metadata, fields, meanB, dump);
      forall f :: f in RequestFields ==> f in row && row[f] == RequestRow(req)[f]
  {
    forall f | f in RequestFields {
      RequestFieldNotResult(f);
    }
  }

  /** The metadata and brightness columns of a real row hold the four metadata values and the brightness. */
  lemma CaptureRowColumns(req: Request, returncode: int, stderr: string, metadata: Json.Value, fields: MetadataFields,
                          meanB: Option<real>, dump: Json.Value -> string)
    ensures var row := CaptureRow(req, returncode, stderr, metadata, fields, meanB, dump);
      row["metadata_exposure_us"] == JsonCell(fields.exposureUs) &&
      row["metadata_analoggain"] == JsonCell(fields.analogGain) &&
      row["metadata_digitalgain"] == JsonCell(fields.digitalGain) &&
      row["metadata_awbgains"] == JsonCell(fields.awbGains) &&
      row["mean_brightness"] == FloatCell(meanB)
  {
  }

  /** A dry run and a real capture of the same request agree on every request column. */
  lemma RowsAgreeOnRequest(req: Request, returncode: int, stderr: string, metadata: Json.Value, fields: MetadataFields,
                           meanB: Option<real>, dump: Json.Value -> string)
    ensures forall f :: f in RequestFields ==>
      f in DryRunRow(req) && f in CaptureRow(req, returncode, stderr, metadata, fields, meanB, dump) &&
      DryRunRow(req)[f] == CaptureRow(req, returncode, stderr, metadata, fields, meanB, dump)[f]
  {
    forall f | f in RequestFields {
      RequestFieldNotResult(f);
    }
  }

  // ---------------------------------------------------------------- one capture's record

  /**
   * The row dictionary of a capture that ran, column by column: the request,
   * the return code, the stripped standard error, the re-encoded metadata,
   * the four metadata values and the brightness.
   */
  method WriteCaptureRow(req: Request, returncode: int, stderr: string, metadata: Json.Value, fields: MetadataFields,
                         meanB: Option<real>, dump: Json.Value -> string)
    returns (row: Row)
    ensures row.Keys == set f | f in FieldNames
    ensures forall f :: f in RequestFields ==> f in row && row[f] == RequestRow(req)[f]
    ensures "rpicam_returncode" in row && row["rpicam_returncode"] == Int(returncode)
    ensures "rpicam_stderr" in row && row["rpicam_stderr"] == Chars(Strip(stderr))
    ensures "metadata_json" in row && row["metadata_json"] == Chars(if metadata == Json.Null then "" else dump(metadata))
    ensures "metadata_exposure_us" in row && row["metadata_exposure_us"] == JsonCell(fields.exposureUs)
    ensures "metadata_analoggain" in row && row["metadata_analoggain"] == JsonCell(fields.analogGain)
    ensures "metadata_digitalgain" in row && row["metadata_digitalgain"] == JsonCell(fields.digitalGain)
    ensures "metadata_awbgains" in row && row["metadata_awbgains"] == JsonCell(fields.awbGains)
    ensures "mean_brightness" in row && row["mean_brightness"] == FloatCell(meanB)
  {
    row := CaptureRow(req, returncode, stderr, metadata, fields, meanB, dump);
    CaptureRowSchema(req, returncode, stderr, metadata, fields, meanB, dump);
    CaptureRowRequest(req, returncode, stderr, metadata, fields, meanB, dump);
    CaptureRowColumns(req, returncode, stderr, metadata, fields, meanB, dump);
  }

  /**
   * What `run_sequence` records for one capture that ran: the metadata
   * extracted from the standard output, its four values by key fallback,
   * the brightness, measured only when `rpicam-still` exited with 0 and the
   * output file exists, and the row. `measured` is what
   * `mean_brightness_jpeg` gives for the file; `Failure` is the
   * AttributeError that stops the loop before any row is written.
   */
  method RecordCapture(req: Request, stdout: string, stderr: string, returncode: int, fileExists: bool,
                       measured: Option<real>, parse: string -> Option<Json.Value>, dump: Json.Value -> string)
    returns (r: Result<Row, Crash>)
    ensures var metadata := Metadata(ExtractJson(stdout, parse));
      r.Failure? <==> Json.Truthy(metadata) && !metadata.Object?
    ensures r.Success? ==> r.value.Keys == set f | f in FieldNames
    ensures r.Success? ==> forall f :: f in RequestFields ==> f in r.value && r.value[f] == RequestRow(req)[f]
    ensures r.Success? ==> "rpicam_returncode" in r.value && r.value["rpicam_returncode"] == Int(returncode)
    ensures r.Success? ==> "rpicam_stderr" in r.value && r.value["rpicam_stderr"] == Chars(Strip(stderr))
    ensures r.Success? ==> var metadata := Metadata(ExtractJson(stdout, parse));
      "metadata_json" in r.value && r.value["metadata_json"] == Chars(if metadata == Json.Null then "" else dump(metadata))
    ensures r.Success? ==> ("mean_brightness" in r.value &&
      r.value["mean_brightness"] == (if returncode == 0 && fileExists then FloatCell(measured) else NoneCell))
    ensures r.Success? ==> ("mean_brightness" in r.value &&
      (r.value["mean_brightness"].Float? <==> returncode == 0 && fileExists && measured.Some?))
    ensures var metadata := Metadata(ExtractJson(stdout, parse));
      !Json.Truthy(metadata) ==> (r.Success? &&
        "metadata_exposure_us" in r.value && r.value["metadata_exposure_us"] == NoneCell &&
        "metadata_analoggain" in r.value && r.value["metadata_analoggain"] == NoneCell &&
        "metadata_digitalgain" in r.value && r.value["metadata_digitalgain"] == NoneCell &&
        "metadata_awbgains" in r.value && r.value["metadata_awbgains"] == NoneCell)
    ensures var metadata := Metadata(ExtractJson(stdout, parse));
      Json.Truthy(metadata) && metadata.Object? ==> (r.Success? &&
        var m := metadata.fields;
        "metadata_exposure_us" in r.value && r.value["metadata_exposure_us"] ==
          JsonCell(Json.FirstTruthy([Json.Get(m, "ExposureTime"), Json.Get(m, "exp"), Json.Get(m, "shutter")])) &&
        "metadata_analoggain" in r.value &&
        r.value["metadata_analoggain"] == JsonCell(Json.FirstTruthy([Json.Get(m, "AnalogueGain"), Json.Get(m, "ag")])) &&
        "metadata_digitalgain" in r.value &&
        r.value["metadata_digitalgain"] == JsonCell(Json.FirstTruthy([Json.Get(m, "DigitalGain"), Json.Get(m, "dg")])) &&
        "metadata_awbgains" in r.value && r.value["metadata_awbgains"] ==
          JsonCell(Json.FirstTruthy([Json.Get(m, "AwbGains"), Json.Get(m, "awbgains"), Json.Null])))
    ensures r.Success? ==> ("metadata_awbgains" in r.value &&
      (r.value["metadata_awbgains"] == NoneCell ||
       (r.value["metadata_awbgains"].Decoded? && Json.Truthy(r.value["metadata_awbgains"].v))))
  {
    var metadata := Metadata(ExtractJson(stdout, parse));
    var fields := ReadMetadataFields(metadata);
    if fields.Failure? {
      return Failure(AttributeError);
    }
    var meanB: Option<real> := None;
    if returncode == 0 && fileExists {
      meanB := measured;
    }
    var row := WriteCaptureRow(req, returncode, stderr, metadata, fields.value, meanB, dump);
    r := Success(row);
  }
}
