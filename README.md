# GNSS-Processing: data sources and per-sample derivations

A Dafny model of the computational core of GNSS-Processing, a Python program that reads
GNSS readings `(time, x, y, roll_deg, pitch_deg)`, derives a heading from consecutive
positions, labels each step Forward, Left or Right, and hands each reading to a 3D plot.

The model has four modules:

- `Wrappers` (`wrappers.dfy`): `Option` and `Result`. They stand in for Python's `None` and for raised exceptions.
- `Strings` (`strings.dfy`): Python's `str.strip()` and `str.split(',')`. `Strip` uses the
  code points for which Python's `str.isspace()` is true. `Split` keeps empty pieces, so
  `""` splits into `[""]`. It is proved to be the inverse of `Join`.
- `GnssDataInput` (`gnss_data_input.dfy`) models `GNSS_data_input.py`:
  - the closed set of sources `UartSource | UsbSource | FileSource(filename)`;
  - the factory `CreateDataSource`;
  - `ReadData`, the imperative line loop of the File source, proved against the
    specification `ParseLines`.
  The file system is a map from path to lines. A missing path is the `FileNotFoundError`
  case. Python's `float()` is a parameter `parse: string -> Option<real>`; `None` stands
  for a `ValueError`.
- `GnssDataProcessing` (`gnss_data_processing.dfy`) models `GNSS_data_processing.py`:
  - `Projection` (`calculate_projection`), `Heading` (`calculate_heading`) and
    `Classify` (the direction expression);
  - `Stream`, the reading loop of `main`, proved against the closed-form `Emissions`;
  - `RunMain`, which chains the factory, `read_data` and the loop.
  `np.tan` and `np.arctan2` are the parameters `tan` and `atan2`. Nothing is assumed about
  them except in the preconditions of three lemmas: `tan(0) == 0` in `ProjectionLevel`
  and `ProjectionMountHeight`, and `atan2(0, 10) == 0` and `atan2(10, 0) == pi / 2` in
  the worked example `EastThenNorthTurnsLeft`. The plot sink is the
  sequence of `Emission(point, direction)` values that `Stream` returns.

The model follows the code as written:
- the UART and USB stubs return an empty list; they do not fail;
- both factory errors are the same `ValueError("Invalid data source type")`;
- the heading difference is not normalised at plus or minus pi;
- there is no check for a singular tangent or for zero displacement;
- the code has no absolute-direction classifier.

## Model

| member | source | states |
|---|---|---|
| `Strings.TrimLeftSpec` | GNSS_data_input.py:34 | stripping the left end keeps the suffix that starts at the first non-whitespace character; everything dropped is whitespace |
| `Strings.TrimRightSpec` | GNSS_data_input.py:34 | stripping the right end keeps the prefix that ends at the last non-whitespace character; everything dropped is whitespace |
| `Strings.StripSpec` | GNSS_data_input.py:34 | `line.strip()` is a slice of the line; only whitespace lies around it; it neither starts nor ends with whitespace; it is empty exactly when the line is blank |
| `Strings.Split` | GNSS_data_input.py:34 | `split(',')` gives one more piece than there are commas, and no piece contains a comma |
| `Strings.JoinSplit` | GNSS_data_input.py:34 | joining the pieces with commas gives back the stripped line, so splitting loses nothing |
| `Strings.SplitJoin` | GNSS_data_input.py:34 | splitting a comma-join of comma-free pieces gives the pieces back |
| `GnssDataInput.CreateDataSource` | GNSS_data_input.py:45-53 | "UART" gives a UART source and "USB" a USB source, whatever the parameter. "File" with a parameter gives a File source whose filename is that parameter. "File" without a parameter, and every other type, raise the ValueError. |
| `GnssDataInput.CreateDataSourceRoundTrip` | GNSS_data_input.py:43-53 | every source variant is produced by the factory from its own type string and parameter |
| `GnssDataInput.ConvertFields` | GNSS_data_input.py:36 | the conversion succeeds exactly when every field parses. It then has one value per field, the i-th value being the parse of the i-th field. Otherwise the error names the first field that fails. |
| `GnssDataInput.FiveFieldsIffFourCommas` | GNSS_data_input.py:34-35 | a line is kept exactly when its stripped text contains four commas |
| `GnssDataInput.BlankLineSkipped` | GNSS_data_input.py:34-35 | a blank or whitespace-only line yields the single field "" and is skipped |
| `GnssDataInput.ParseLines` | GNSS_data_input.py:31-37 | a successful read has at most one record per line, and every record has exactly five values |
| `GnssDataInput.KeptIndices` | GNSS_data_input.py:32-35 | the kept lines are exactly the five-field lines, listed in increasing file order |
| `GnssDataInput.ParseLinesContents` | GNSS_data_input.py:31-37 | the read succeeds exactly when every five-field line fully parses. The records are then one per five-field line, in file order. The i-th value of record k is the parse of field i of the k-th kept line. |
| `GnssDataInput.ParseLinesStopsAtFailure` | GNSS_data_input.py:36-38 | a failed conversion aborts the whole read; it is not caught and lines after it are never read |
| `GnssDataInput.ReadData` | GNSS_data_input.py:10-40 | the loop returns exactly `ReadResult`: UART and USB give `[]`, a missing file gives `[]`, and an existing file gives `ParseLines` of its lines |
| `GnssDataInput.ReadResultShape` | GNSS_data_input.py:11-40 | UART and USB reads are empty and a missing file reads as empty. A successful read returns five-value records, no more of them than the file has lines. |
| `GnssDataProcessing.Projection` | GNSS_data_processing.py:18-31 | the projected point carries the input timestamp unchanged |
| `GnssDataProcessing.ProjectionAxesIndependent` | GNSS_data_processing.py:25-29 | projected_x depends only on x and pitch, and projected_y only on y and roll |
| `GnssDataProcessing.ProjectionMountHeight` | GNSS_data_processing.py:24-29 | each axis is its level projection plus 1500 mm times the tangent of its own tilt (pitch for x, roll for y) |
| `GnssDataProcessing.ProjectionLevel` | GNSS_data_processing.py:21-29 | with zero roll and pitch (and `tan(0) = 0`) the projection is `(time, x, y)` |
| `GnssDataProcessing.HeadingDependsOnDisplacement` | GNSS_data_processing.py:46-54 | the heading reads only fields 1 and 2 of each point and depends only on `(dy, dx)` |
| `GnssDataProcessing.HeadingTranslationInvariant` | GNSS_data_processing.py:46-54 | moving both points by the same offset leaves the heading unchanged |
| `GnssDataProcessing.Classify` | GNSS_data_processing.py:117 | Forward iff the headings are equal, Left iff past < current, Right iff past > current; exactly one applies |
| `GnssDataProcessing.ClassifyDoesNotWrap` | GNSS_data_processing.py:117 | the raw difference is not wrapped: headings that drop by more than pi are labelled Right and headings that rise by more than pi Left, although the shorter turn goes the other way; the turn from pi - 0.1 to -pi + 0.1 is one example |
| `GnssDataProcessing.EmissionsShape` | GNSS_data_processing.py:109-122 | for n readings the sink is called max(0, n-1) times, with readings 2..n in order. The first call has no direction. Every later call is labelled by comparing the previous heading with the current one. |
| `GnssDataProcessing.EastThenNorthTurnsLeft` | GNSS_data_processing.py:109-122 | readings (0,0), (10,0), (10,10) emit the second reading with no direction and the third labelled Left |
| `GnssDataProcessing.Stream` | GNSS_data_processing.py:103-127 | the loop's emissions are exactly `Emissions(data)`. Its window keeps `past_point` equal to the previous reading and `past_heading` equal to the previous heading. Empty data emits nothing and takes `exit(-1)`. |
| `GnssDataProcessing.RunMain` | GNSS_data_processing.py:98-127 | a factory error or a conversion error escapes before anything is emitted; otherwise the run emits `Emissions` of what `read_data` returned, with status `exit(-1)` exactly when that is empty |

## Left out

- Rendering: the body of `plot_module` (GNSS_data_processing.py:75-95) and the scene, arrow and label setup (GNSS_data_processing.py:136-149) are left out. The sink is the returned emission sequence.
- Cadence timing: `time.time()` and `time.sleep` are wall-clock behaviour with nothing to verify.
- Console output: `print("File not found.")` and the printing of caught exceptions are left out.
- The top-level `try/except` around `main()` and both `__main__` example blocks are I/O glue.
- Real file access: the file is its list of lines. OS errors other than a missing file (permissions, directories, decoding) are not modelled.
- Floating point: `float()`, `np.deg2rad`, `np.tan` and `np.arctan2` are modelled over reals; `tan` and `atan2` are uninterpreted parameters, so numeric accuracy, infinities and NaN are not modelled.
- `exit(-1)` is modelled as the status `Exited(-1)`; the process exit code it produces is not modelled.
- `calculate_projection` is not called by `main`; it is modelled as a standalone function.
- Projection: requires exactly five values, so the ValueError that the tuple unpacking at GNSS_data_processing.py:18 raises for any other length is not modelled. `main` never calls `calculate_projection`, and every record from `read_data` has five values.
- Stream: requires every reading to have at least the three fields the heading reads. With a single reading the source reads no field, so this is slightly more than that case needs. Readings from `read_data` always have five fields.
