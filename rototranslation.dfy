/** The pose builder: prepare_rototranslation. */
module Rototranslation {
  import opened SfmTypes

  /** One row of the pose table: its identifier, a row-major rotation and the camera center. */
  datatype PoseRecord = PoseRecord(poseId: string, rotation: seq<real>, center: seq<real>)

  /** A 4×4 matrix whose last row is [0, 0, 0, 1]. */
  predicate IsHomogeneous(m: Matrix) {
    IsMatrix(m, 4, 4) && m[3] == [0.0, 0.0, 0.0, 1.0]
  }

  /** The upper-left 3×3 block of a homogeneous matrix, flattened row by row. */
  function RotationOf(m: Matrix): (rotation: seq<real>)
    requires IsHomogeneous(m)
  {
    [m[0][0], m[0][1], m[0][2], m[1][0], m[1][1], m[1][2], m[2][0], m[2][1], m[2][2]]
  }

  /** The last column of a homogeneous matrix without its final 1. */
  function CenterOf(m: Matrix): (center: seq<real>)
    requires IsHomogeneous(m)
  {
    [m[0][3], m[1][3], m[2][3]]
  }

  /**
   * prepare_rototranslation: the rotation fills the upper-left block row-major,
   * the center fills the last column. Lists shorter than 9 and 3 entries fail on
   * an index; entries past those are ignored.
   */
  function PrepareRototranslation(pose: PoseRecord): (r: Result<Matrix>)
    ensures r.Ok? <==> |pose.rotation| >= 9 && |pose.center| >= 3
    ensures r.Err? ==> r.error == IndexError
    ensures r.Ok? ==> IsHomogeneous(r.value)
    ensures r.Ok? ==> forall i, j :: 0 <= i < 3 && 0 <= j < 3 ==> r.value[i][j] == pose.rotation[3 * i + j]
    ensures r.Ok? ==> forall i :: 0 <= i < 3 ==> r.value[i][3] == pose.center[i]
  {
    if |pose.rotation| < 9 || |pose.center| < 3 then
      Err(IndexError)
    else
      var rotation := pose.rotation;
      var transform := pose.center;
      Ok([[rotation[0], rotation[1], rotation[2], transform[0]],
          [rotation[3], rotation[4], rotation[5], transform[1]],
          [rotation[6], rotation[7], rotation[8], transform[2]],
          [0.0, 0.0, 0.0, 1.0]])
  }

  /** Reading the rotation and center back out of the matrix gives the pose's first 9 and 3 entries. */
  lemma RototranslationRoundTrip(pose: PoseRecord)
    requires |pose.rotation| >= 9 && |pose.center| >= 3
    ensures PrepareRototranslation(pose).Ok?
    ensures RotationOf(PrepareRototranslation(pose).value) == pose.rotation[..9]
    ensures CenterOf(PrepareRototranslation(pose).value) == pose.center[..3]
  {
  }

  /** Every homogeneous matrix is what prepare_rototranslation builds from its own block and column. */
  lemma HomogeneousIsPrepared(m: Matrix, poseId: string)
    requires IsHomogeneous(m)
    ensures PrepareRototranslation(PoseRecord(poseId, RotationOf(m), CenterOf(m))) == Ok(m)
  {
    var r := PrepareRototranslation(PoseRecord(poseId, RotationOf(m), CenterOf(m))).value;
    assert r[0] == m[0];
    assert r[1] == m[1];
    assert r[2] == m[2];
    assert r[3] == m[3];
    assert r == m;
  }

  /** The identity rotation with center (1, 2, 3) gives a pure translation. */
  lemma PrepareRototranslationExample(poseId: string)
    ensures PrepareRototranslation(PoseRecord(poseId, [1.0, 0.0, 0.0, 0.0, 1.0, 0.0, 0.0, 0.0, 1.0], [1.0, 2.0, 3.0]))
            == Ok([[1.0, 0.0, 0.0, 1.0], [0.0, 1.0, 0.0, 2.0], [0.0, 0.0, 1.0, 3.0], [0.0, 0.0, 0.0, 1.0]])
  {
  }
}
