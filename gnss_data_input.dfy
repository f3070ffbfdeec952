/**
 * The data-source layer of GNSS_data_input.py: three source variants (UART, USB, File),
 * the string-keyed factory that picks one, and the File variant's line parser.
 *
 * The file system is a map from path to the file's lines; a path missing from it is
 * the FileNotFoundError case. Python's `float()` is the parameter `parse`, a partial
 * conversion that yields None where `float()` would raise.
 */
module GnssDataInput {
  import opened Wrappers
  import opened Strings

  /** The two ValueErrors the layer can raise: an unknown source, and a field `float()` rejects. */
  datatype Error = InvalidSourceType | ConversionFailed(field: string)

  /** UARTDataSource, USBDataSource and FileDataSource (which keeps its `filename`). */
  datatype DataSource = UartSource | UsbSource | FileSource(filename: string)

  /** Path to the lines of the file stored there. */
  type FileSystem = map<string, seq<string>>

  /** One parsed line: a Python list of floats. */
  type Record = seq<real>

  /** `GNSSDataSourceFactory.create_data_source`. */
  function CreateDataSource(sourceType: string, sourceParameter: Option<string>): (r: Result<DataSource, Error>)
    ensures r == Success(UartSource) <==> sourceType == "UART"
    ensures r == Success(UsbSource) <==> sourceType == "USB"
    ensures (r.Success? && r.value.FileSource?) <==> sourceType == "File" && sourceParameter.Some?
    ensures r.Success? && r.value.FileSource? ==> r.value.filename == sourceParameter.value
    ensures r.Failure? <==> sourceType !in {"UART", "USB", "File"} || (sourceType == "File" && sourceParameter.None?)
    ensures r.Failure? ==> r.error == InvalidSourceType
  {
    if sourceType == "UART" then Success(UartSource)
    else if sourceType == "USB" then Success(UsbSource)
    else if sourceType == "File" && sourceParameter.Some? then Success(FileSource(sourceParameter.value))
    else Failure(InvalidSourceType)
  }

  /** The source-type string that selects `source` in the factory. */
  function SourceType(source: DataSource): string {
    match source
    case UartSource => "UART"
    case UsbSource => "USB"
    case FileSource(_) => "File"
  }

  /** The parameter the factory needs to rebuild `source`. */
  function SourceParameter(source: DataSource): Option<string> {
    if source.FileSource? then Some(source.filename) else None
  }

  /** Every source the factory can build is rebuilt from its own type and parameter. */
  lemma CreateDataSourceRoundTrip(source: DataSource)
    ensures CreateDataSource(SourceType(source), SourceParameter(source)) == Success(source)
  {
  }

  /** The comma fields of one line, after stripping its surrounding whitespace. */
  function Fields(line: string): seq<string> {
    Split(Strip(line), ',')
  }

  /** Only lines with exactly five comma fields are converted. */
  predicate HasFiveFields(line: string) {
    |Fields(line)| == 5
  }

  /**
   * The list comprehension `[float(value) for value in values]`: converts the fields
   * in order and stops at the first one `parse` rejects.
   */
  function ConvertFields(fields: seq<string>, parse: string -> Option<real>): (r: Result<Record, Error>)
    ensures r.Success? <==> forall k :: 0 <= k < |fields| ==> parse(fields[k]).Some?
    ensures r.Success? ==> |r.value| == |fields| && forall k :: 0 <= k < |fields| ==> parse(fields[k]) == Some(r.value[k])
    ensures r.Failure? ==> exists k :: FirstRejected(fields, parse, k) && r.error == ConversionFailed(fields[k])
  {
    if fields == [] then Success([])
    else
      match parse(fields[0])
      case None => assert FirstRejected(fields, parse, 0); Failure(ConversionFailed(fields[0]))
      case Some(v) =>
        match ConvertFields(fields[1..], parse)
        case Success(rest) => Success([v] + rest)
        case Failure(e) =>
          var k :| FirstRejected(fields[1..], parse, k) && e == ConversionFailed(fields[1..][k]);
          assert FirstRejected(fields, parse, k + 1);
          Failure(e)
  }

  /** `fields[k]` is the first field that `parse` rejects. */
  predicate FirstRejected(fields: seq<string>, parse: string -> Option<real>, k: int) {
    && 0 <= k < |fields|
    && parse(fields[k]).None?
    && forall m :: 0 <= m < k ==> parse(fields[m]).Some?
  }

  /** What the loop body does with one line. */
  datatype LineOutcome = Skipped | Kept(values: Record) | Rejected(error: Error)

  function ParseLine(line: string, parse: string -> Option<real>): LineOutcome {
    var values := Fields(line);
    if |values| != 5 then Skipped
    else
      match ConvertFields(values, parse)
      case Success(v) => Kept(v)
      case Failure(e) => Rejected(e)
  }

  /**
   * The records `read_data` returns for the lines of an existing file, or the error of
   * the first line whose conversion fails. Defined on the last line so that it follows
   * the loop's order.
   */
  function ParseLines(lines: seq<string>, parse: string -> Option<real>): (r: Result<seq<Record>, Error>)
    ensures r.Success? ==> |r.value| <= |lines|
    ensures r.Success? ==> forall k :: 0 <= k < |r.value| ==> |r.value[k]| == 5
  {
    if lines == [] then Success([])
    else
      match ParseLines(lines[..|lines| - 1], parse)
      case Failure(e) => Failure(e)
      case Success(data) =>
        match ParseLine(lines[|lines| - 1], parse)
        case Skipped => Success(data)
        case Kept(v) => Success(data + [v])
        case Rejected(e) => Failure(e)
  }

  /** The positions of the five-field lines, in increasing order. */
  function KeptIndices(lines: seq<string>): (r: seq<nat>)
    ensures |r| <= |lines|
    ensures forall k :: 0 <= k < |r| ==> r[k] < |lines| && HasFiveFields(lines[r[k]])
    ensures forall k, m :: 0 <= k < m < |r| ==> r[k] < r[m]
    ensures forall j :: 0 <= j < |lines| && HasFiveFields(lines[j]) ==> j in r
  {
    if lines == [] then []
    else
      var init := KeptIndices(lines[..|lines| - 1]);
      assert forall j :: 0 <= j < |lines| - 1 ==> lines[..|lines| - 1][j] == lines[j];
      if HasFiveFields(lines[|lines| - 1]) then init + [|lines| - 1] else init
  }

  /** A line has five fields exactly when its stripped text holds four commas. */
  lemma FiveFieldsIffFourCommas(line: string)
    ensures HasFiveFields(line) <==> Count(Strip(line), ',') == 4
  {
  }

  /** A blank line (empty or only whitespace) strips to "", which is one field: it is skipped. */
  lemma BlankLineSkipped(line: string, parse: string -> Option<real>)
    requires AllSpace(line)
    ensures Fields(line) == [""]
    ensures ParseLine(line, parse) == Skipped
  {
    StripSpec(line);
  }

  /** A five-field line all of whose fields `parse` accepts. */
  predicate Convertible(line: string, parse: string -> Option<real>) {
    forall k :: 0 <= k < |Fields(line)| ==> parse(Fields(line)[k]).Some?
  }

  /**
   * The read succeeds exactly when every five-field line converts; it then returns, in
   * file order, one record per five-field line, whose i-th value is the conversion of
   * the line's i-th field. Other lines (blank ones included) contribute nothing.
   */
  lemma {:induction false} ParseLinesContents(lines: seq<string>, parse: string -> Option<real>)
    ensures ParseLines(lines, parse).Success? <==>
      forall j :: 0 <= j < |lines| && HasFiveFields(lines[j]) ==> Convertible(lines[j], parse)
    ensures ParseLines(lines, parse).Success? ==>
      var data, kept := ParseLines(lines, parse).value, KeptIndices(lines);
      && |data| == |kept|
      && forall k, i :: 0 <= k < |data| && 0 <= i < 5 ==>
           parse(Fields(lines[kept[k]])[i]) == Some(data[k][i])
  {
    if lines != [] {
      var init := lines[..|lines| - 1];
      var last := lines[|lines| - 1];
      ParseLinesContents(init, parse);
      assert forall j :: 0 <= j < |init| ==> init[j] == lines[j];
      if ParseLines(init, parse).Success? && ParseLines(lines, parse).Success? {
        var data, kept := ParseLines(lines, parse).value, KeptIndices(lines);
        var data0, kept0 := ParseLines(init, parse).value, KeptIndices(init);
        if HasFiveFields(last) {
          assert data == data0 + [ConvertFields(Fields(last), parse).value];
          assert kept == kept0 + [|lines| - 1];
        } else {
          assert data == data0 && kept == kept0;
        }
      }
    }
  }

  /** Once a prefix of the file has failed, the rest of the file is never read. */
  lemma {:induction false} ParseLinesStopsAtFailure(lines: seq<string>, i: nat, parse: string -> Option<real>)
    requires i <= |lines|
    requires ParseLines(lines[..i], parse).Failure?
    ensures ParseLines(lines, parse) == ParseLines(lines[..i], parse)
    decreases |lines|
  {
    if i < |lines| {
      var init := lines[..|lines| - 1];
      assert init[..i] == lines[..i];
      ParseLinesStopsAtFailure(init, i, parse);
    } else {
      assert lines[..i] == lines;
    }
  }

  /** What `read_data` returns for each variant. */
  function ReadResult(source: DataSource, fs: FileSystem, parse: string -> Option<real>): Result<seq<Record>, Error> {
    match source
    case UartSource => Success([])
    case UsbSource => Success([])
    case FileSource(filename) =>
      if filename in fs then ParseLines(fs[filename], parse) else Success([])
  }

  /**
   * `read_data` of every variant: the UART and USB stubs return an empty list; the File
   * source walks the file line by line, appending one record per five-field line; a
   * missing file gives an empty list, while a failed conversion is not caught.
   */
  method ReadData(source: DataSource, fs: FileSystem, parse: string -> Option<real>) returns (r: Result<seq<Record>, Error>)
    ensures r == ReadResult(source, fs, parse)
  {
    match source
    case UartSource => return Success([]);
    case UsbSource => return Success([]);
    case FileSource(filename) =>
      if filename !in fs {
        return Success([]);
      }
      var lines := fs[filename];
      var data: seq<Record> := [];
      for i := 0 to |lines|
        invariant ParseLines(lines[..i], parse) == Success(data)
      {
        var values := Split(Strip(lines[i]), ',');
        if |values| == 5 {
          var converted := ConvertFields(values, parse);
          if converted.Failure? {
            assert lines[..i + 1][..i] == lines[..i];
            ParseLinesStopsAtFailure(lines, i + 1, parse);
            return Failure(converted.error);
          }
          data := data + [converted.value];
        }
        assert lines[..i + 1][..i] == lines[..i];
      }
      assert lines[..|lines|] == lines;
      return Success(data);
  }

  /**
   * The facts `read_data` promises its caller: UART and USB yield nothing, a missing file
   * yields nothing, and every record of a successful read has exactly five values and
   * comes from a distinct line of the file.
   */
  lemma ReadResultShape(source: DataSource, fs: FileSystem, parse: string -> Option<real>)
    ensures !source.FileSource? ==> ReadResult(source, fs, parse) == Success([])
    ensures source.FileSource? && source.filename !in fs ==> ReadResult(source, fs, parse) == Success([])
    ensures ReadResult(source, fs, parse).Success? ==>
      var data := ReadResult(source, fs, parse).value;
      && (source.FileSource? && source.filename in fs ==> |data| <= |fs[source.filename]|)
      && forall k :: 0 <= k < |data| ==> |data[k]| == 5
  {
  }
}
