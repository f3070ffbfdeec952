/**
 * The per-sample derivations of GNSS_data_processing.py and the reading loop of its
 * `main`.
 *
 * A point is the Python tuple/list (time, x, y, roll_deg, pitch_deg) as reals. numpy's
 * `tan` and `arctan2` are the parameters `tan` and `atan2`, about which nothing is known
 * except what a lemma states as its own precondition: `tan(0) == 0` for the level
 * projection and the mount height, and two values of `atan2` for the worked example. The `plot_module` sink is replaced by
 * the sequence of emissions the loop returns.
 */
module GnssDataProcessing {
  import opened Wrappers
  import opened GnssDataInput

  /** Height of the GNSS module above the moving plane, in millimetres. */
  const GnssHeight: real := 1500.0

  /** numpy's `pi`, to the digits Python prints. */
  const Pi: real := 3.141592653589793

  type Point = seq<real>

  /** `np.deg2rad`. */
  function DegToRad(deg: real): real {
    deg * Pi / 180.0
  }

  /** The (time, projected_x, projected_y) tuple `calculate_projection` returns. */
  datatype PlanePoint = PlanePoint(time: real, projectedX: real, projectedY: real)

  /**
   * `calculate_projection`: shifts x by the pitch and y by the roll, each through the
   * tangent of the tilt times the mount height. The point must unpack into five values.
   */
  function Projection(point: Point, tan: real -> real): (r: PlanePoint)
    requires |point| == 5
    ensures r.time == point[0]
  {
    var time, x, y, rollDeg, pitchDeg := point[0], point[1], point[2], point[3], point[4];
    PlanePoint(time, x + GnssHeight * tan(DegToRad(pitchDeg)), y + GnssHeight * tan(DegToRad(rollDeg)))
  }

  /** projected_x depends only on x and pitch, projected_y only on y and roll. */
  lemma ProjectionAxesIndependent(p: Point, q: Point, tan: real -> real)
    requires |p| == 5 && |q| == 5
    ensures p[1] == q[1] && p[4] == q[4] ==> Projection(p, tan).projectedX == Projection(q, tan).projectedX
    ensures p[2] == q[2] && p[3] == q[3] ==> Projection(p, tan).projectedY == Projection(q, tan).projectedY
  {
  }

  /**
   * The mount height: each axis is the level projection of that axis shifted by
   * 1500 mm times the tangent of its own tilt (pitch for x, roll for y).
   */
  lemma ProjectionMountHeight(p: Point, tan: real -> real)
    requires |p| == 5
    requires tan(0.0) == 0.0
    ensures Projection(p, tan).projectedX == Projection(p[4 := 0.0], tan).projectedX + 1500.0 * tan(DegToRad(p[4]))
    ensures Projection(p, tan).projectedY == Projection(p[3 := 0.0], tan).projectedY + 1500.0 * tan(DegToRad(p[3]))
  {
  }

  /** With no roll and no pitch the projection is the point's own (time, x, y). */
  lemma ProjectionLevel(p: Point, tan: real -> real)
    requires |p| == 5 && p[3] == 0.0 && p[4] == 0.0
    requires tan(0.0) == 0.0
    ensures Projection(p, tan) == PlanePoint(p[0], p[1], p[2])
  {
  }

  /** `calculate_heading`: the angle of the displacement from `past` to `current`. */
  function Heading(past: Point, current: Point, atan2: (real, real) -> real): real
    requires |past| >= 3 && |current| >= 3
  {
    var x1, y1 := past[1], past[2];
    var x2, y2 := current[1], current[2];
    atan2(y2 - y1, x2 - x1)
  }

  /** The heading reads only fields 1 and 2 (x, y) and depends only on the displacement. */
  lemma HeadingDependsOnDisplacement(p: Point, c: Point, p': Point, c': Point, atan2: (real, real) -> real)
    requires |p| >= 3 && |c| >= 3 && |p'| >= 3 && |c'| >= 3
    requires c[1] - p[1] == c'[1] - p'[1] && c[2] - p[2] == c'[2] - p'[2]
    ensures Heading(p, c, atan2) == Heading(p', c', atan2)
  {
  }

  /** `p` moved by (dx, dy) in the plane; every other field is kept. */
  function Translate(p: Point, dx: real, dy: real): (r: Point)
    requires |p| >= 3
    ensures |r| == |p|
  {
    p[1 := p[1] + dx][2 := p[2] + dy]
  }

  /** Moving both points by the same offset leaves the heading unchanged. */
  lemma HeadingTranslationInvariant(p: Point, c: Point, dx: real, dy: real, atan2: (real, real) -> real)
    requires |p| >= 3 && |c| >= 3
    ensures Heading(Translate(p, dx, dy), Translate(c, dx, dy), atan2) == Heading(p, c, atan2)
  {
    HeadingDependsOnDisplacement(Translate(p, dx, dy), Translate(c, dx, dy), p, c, atan2);
  }

  datatype Direction = Forward | Left | Right

  /**
   * The direction label of line 117: the sign of the raw difference
   * `past_heading - heading`, with no wrap-around at plus or minus pi.
   */
  function Classify(pastHeading: real, heading: real): (d: Direction)
    ensures d == Forward <==> pastHeading == heading
    ensures d == Left <==> pastHeading < heading
    ensures d == Right <==> pastHeading > heading
  {
    var difference := pastHeading - heading;
    if difference == 0.0 then Forward else if difference < 0.0 then Left else Right
  }

  /**
   * The label follows the raw difference, not the shorter turn: when the headings are
   * more than pi apart, the shorter turn goes the other way round, yet a drop of more
   * than pi is labelled Right and a rise of more than pi Left. For instance, the small
   * counter-clockwise turn from pi - 0.1 to -pi + 0.1 is labelled Right.
   */
  lemma ClassifyDoesNotWrap(pastHeading: real, heading: real)
    ensures pastHeading - heading > Pi ==> Classify(pastHeading, heading) == Right
    ensures heading - pastHeading > Pi ==> Classify(pastHeading, heading) == Left
    ensures Classify(Pi - 0.1, -Pi + 0.1) == Right
  {
  }

  /** What one call of `plot_module` receives: the current point and the direction so far. */
  datatype Emission = Emission(point: Point, direction: Option<Direction>)

  /** How `main` ends: after the last reading, or through `exit(-1)` when there is no data. */
  datatype Status = Completed | Exited(code: int)

  /** Every point has the x and y fields the heading reads. */
  predicate Readable(data: seq<Point>) {
    forall k :: 0 <= k < |data| ==> |data[k]| >= 3
  }

  /** The heading computed on reaching reading `k`, from reading `k - 1`. */
  function HeadingAt(data: seq<Point>, k: int, atan2: (real, real) -> real): real
    requires Readable(data) && 1 <= k < |data|
  {
    Heading(data[k - 1], data[k], atan2)
  }

  /**
   * What the sink receives on reading `k`: that reading, and no direction on the second
   * reading, else the label of the previous heading against the current one.
   */
  function EmissionAt(data: seq<Point>, k: int, atan2: (real, real) -> real): Emission
    requires Readable(data) && 1 <= k < |data|
  {
    Emission(data[k], if k == 1 then None else Some(Classify(HeadingAt(data, k - 1, atan2), HeadingAt(data, k, atan2))))
  }

  /** The whole stream the sink receives: one emission per reading after the first. */
  function Emissions(data: seq<Point>, atan2: (real, real) -> real): seq<Emission>
    requires Readable(data)
  {
    if data == [] then []
    else seq(|data| - 1, k requires 0 <= k < |data| - 1 => EmissionAt(data, k + 1, atan2))
  }

  /**
   * The sink is called max(0, n - 1) times, once per reading after the first and in
   * input order; the first call carries no direction and every later one a label that
   * compares the previous heading with the current one.
   */
  lemma EmissionsShape(data: seq<Point>, atan2: (real, real) -> real)
    requires Readable(data)
    ensures |Emissions(data, atan2)| == if data == [] then 0 else |data| - 1
    ensures forall k :: 0 <= k < |Emissions(data, atan2)| ==> Emissions(data, atan2)[k].point == data[k + 1]
    ensures |data| >= 2 ==> Emissions(data, atan2)[0].direction == None
    ensures forall k :: 1 <= k < |Emissions(data, atan2)| ==>
      var before, now := HeadingAt(data, k, atan2), HeadingAt(data, k + 1, atan2);
      && Emissions(data, atan2)[k].direction.Some?
      && (Emissions(data, atan2)[k].direction == Some(Forward) <==> before == now)
      && (Emissions(data, atan2)[k].direction == Some(Left) <==> before < now)
      && (Emissions(data, atan2)[k].direction == Some(Right) <==> before > now)
  {
  }

  /**
   * Three readings moving east and then north: the sink gets the second reading with no
   * direction, then the third labelled Left, since the heading grows from 0 to pi / 2.
   */
  lemma EastThenNorthTurnsLeft(atan2: (real, real) -> real)
    requires atan2(0.0, 10.0) == 0.0 && atan2(10.0, 0.0) == Pi / 2.0
    ensures var data := [[0.0, 0.0, 0.0, 0.0, 0.0], [1.0, 10.0, 0.0, 0.0, 0.0], [2.0, 10.0, 10.0, 0.0, 0.0]];
      Emissions(data, atan2) == [Emission(data[1], None), Emission(data[2], Some(Left))]
  {
    var data := [[0.0, 0.0, 0.0, 0.0, 0.0], [1.0, 10.0, 0.0, 0.0, 0.0], [2.0, 10.0, 10.0, 0.0, 0.0]];
    assert HeadingAt(data, 1, atan2) == 0.0;
    assert HeadingAt(data, 2, atan2) == Pi / 2.0;
  }

  /**
   * The reading loop of `main`: a two-reading window (`pastPoint`, `pastHeading`) and the
   * last `direction`, with one emission per reading after the first. No data means
   * `exit(-1)` and no emission.
   */
  method Stream(data: seq<Point>, atan2: (real, real) -> real) returns (emitted: seq<Emission>, status: Status)
    requires Readable(data)
    ensures emitted == Emissions(data, atan2)
    ensures status == if data == [] then Exited(-1) else Completed
  {
    if data == [] {
      return [], Exited(-1);
    }
    var pastPoint: Option<Point> := None;
    var pastHeading: Option<real> := None;
    var direction: Option<Direction> := None;
    emitted := [];
    for i := 0 to |data|
      invariant pastPoint == if i == 0 then None else Some(data[i - 1])
      invariant pastHeading == if i < 2 then None else Some(HeadingAt(data, i - 1, atan2))
      invariant direction == if i < 3 then None else Some(Classify(HeadingAt(data, i - 2, atan2), HeadingAt(data, i - 1, atan2)))
      invariant |emitted| == if i == 0 then 0 else i - 1
      invariant forall k :: 0 <= k < |emitted| ==> emitted[k] == EmissionAt(data, k + 1, atan2)
    {
      var currentPoint := data[i];
      if pastPoint.Some? {
        var heading := Heading(pastPoint.value, currentPoint, atan2);
        if pastHeading.Some? {
          direction := Some(Classify(pastHeading.value, heading));
        }
        pastHeading := Some(heading);
        emitted := emitted + [Emission(currentPoint, direction)];
      }
      pastPoint := Some(currentPoint);
    }
    status := Completed;
  }

  /** How a run of `main` ends: an uncaught ValueError, or the loop's emissions and status. */
  datatype RunOutcome = Raised(error: Error) | Ran(emitted: seq<Emission>, status: Status)

  /**
   * `main` without plotting and sleeping: build the source, read it, and run the loop.
   * A ValueError from the factory or from a conversion escapes before anything is emitted.
   */
  method RunMain(sourceType: string, sourceParameter: Option<string>, fs: FileSystem,
                 parse: string -> Option<real>, atan2: (real, real) -> real)
    returns (outcome: RunOutcome)
    ensures CreateDataSource(sourceType, sourceParameter).Failure? ==> outcome == Raised(InvalidSourceType)
    ensures CreateDataSource(sourceType, sourceParameter).Success? ==>
      var read := ReadResult(CreateDataSource(sourceType, sourceParameter).value, fs, parse);
      && (read.Failure? ==> outcome == Raised(read.error))
      && (read.Success? ==> Readable(read.value))
      && (read.Success? ==> outcome == Ran(Emissions(read.value, atan2), if read.value == [] then Exited(-1) else Completed))
  {
    var created := CreateDataSource(sourceType, sourceParameter);
    if created.Failure? {
      return Raised(created.error);
    }
    var read := ReadData(created.value, fs, parse);
    if read.Failure? {
      return Raised(read.error);
    }
    ReadResultShape(created.value, fs, parse);
    var emitted, status := Stream(read.value, atan2);
    return Ran(emitted, status);
  }
}
