/** The structure (point set) table of extrapolate_json and the point-cloud step of convert_sfm_to_parquet. */
module PointCloud {
  import opened SfmTypes

  /** One row of the structure table: the columns x, y and z. */
  datatype Point = Point(x: real, y: real, z: real)

  /** The column names the structure table is built with. */
  const StructureColumns: seq<string> := ["x", "y", "z"]

  /** The coordinate list a point was read from. */
  function Coordinates(p: Point): seq<real> {
    [p.x, p.y, p.z]
  }

  /**
   * The structure table: one row per element of `structure`, its X list spread
   * over the columns x, y, z. A coordinate list that does not have exactly three
   * entries does not fit those three columns.
   */
  function LoadStructure(xs: seq<seq<real>>): (r: Result<seq<Point>>)
    ensures r.Ok? <==> forall i :: 0 <= i < |xs| ==> |xs[i]| == 3
    ensures r.Err? ==> r.error == ValueError
    ensures r.Ok? ==> |r.value| == |xs| && forall i :: 0 <= i < |xs| ==> Coordinates(r.value[i]) == xs[i]
    decreases |xs|
  {
    if |xs| == 0 then
      Ok([])
    else if |xs[0]| != 3 then
      Err(ValueError)
    else
      match LoadStructure(xs[1..])
      case Err(e) => Err(e)
      case Ok(rest) =>
        assert forall i :: 1 <= i < |xs| ==> xs[i] == xs[1..][i - 1];
        Ok([Point(xs[0][0], xs[0][1], xs[0][2])] + rest)
  }

  /** Writing points out as coordinate lists and loading them again gives the same points. */
  lemma LoadStructureRoundTrip(points: seq<Point>)
    ensures LoadStructure(seq(|points|, i requires 0 <= i < |points| => Coordinates(points[i]))) == Ok(points)
  {
    var xs := seq(|points|, i requires 0 <= i < |points| => Coordinates(points[i]));
    assert forall i :: 0 <= i < |xs| ==> |xs[i]| == 3;
    var r := LoadStructure(xs);
    forall i | 0 <= i < |points| ensures r.value[i] == points[i] {
      var a, b := Coordinates(r.value[i]), Coordinates(points[i]);
      assert a == xs[i] == b;
      assert a[0] == b[0] && a[1] == b[1] && a[2] == b[2];
    }
    assert r.value == points;
  }

  /**
   * Line 101 as written: it asks the structure table for a column named "X" and
   * would copy that column's lists into a new x, y, z table.
   */
  function PointCloudAsWritten(structure: seq<Point>): Result<seq<Point>>
  {
    if "X" in StructureColumns then Ok(structure) else Err(KeyError("X"))
  }

  /** The table has no column "X" (column names are case-sensitive), so line 101 always raises. */
  lemma PointCloudAsWrittenRaises(structure: seq<Point>)
    ensures PointCloudAsWritten(structure) == Err(KeyError("X"))
  {
  }
}
