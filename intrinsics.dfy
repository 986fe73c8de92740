/** The intrinsic builder: prepare_intrinsic. */
module Intrinsics {
  import opened SfmTypes

  /** One row of the intrinsics table: the principal point (cx, cy) and one focal length. */
  datatype IntrinsicRecord = IntrinsicRecord(principalPoint: seq<real>, focalLength: real)

  /** A 3×3 pinhole camera matrix: zero skew, one focal length on both axes, bottom row [0, 0, 1]. */
  predicate IsPinhole(k: Matrix) {
    IsMatrix(k, 3, 3)
    && k[0][1] == 0.0 && k[1][0] == 0.0 && k[0][0] == k[1][1]
    && k[2] == [0.0, 0.0, 1.0]
  }

  /** The camera parameters a pinhole matrix encodes, as (cx, cy, f). */
  function CameraParameters(k: Matrix): (real, real, real)
    requires IsMatrix(k, 3, 3)
  {
    (k[0][2], k[1][2], k[0][0])
  }

  /**
   * prepare_intrinsic, given the whole intrinsics table: it reads row 0 only.
   * An empty table has no "principalPoint" column at all; a principal point
   * with fewer than two entries fails on its index.
   */
  function PrepareIntrinsic(table: seq<IntrinsicRecord>): (r: Result<Matrix>)
    ensures r.Ok? <==> |table| > 0 && |table[0].principalPoint| >= 2
    ensures |table| == 0 ==> r == Err(KeyError("principalPoint"))
    ensures |table| > 0 && |table[0].principalPoint| < 2 ==> r == Err(IndexError)
    ensures r.Ok? ==> IsPinhole(r.value)
    ensures r.Ok? ==> CameraParameters(r.value)
                      == (table[0].principalPoint[0], table[0].principalPoint[1], table[0].focalLength)
  {
    if |table| == 0 then
      Err(KeyError("principalPoint"))
    else if |table[0].principalPoint| < 2 then
      Err(IndexError)
    else
      var cx := table[0].principalPoint[0];
      var cy := table[0].principalPoint[1];
      var f := table[0].focalLength;
      var s := 0.0;
      Ok([[f, s, cx],
          [0.0, f, cy],
          [0.0, 0.0, 1.0]])
  }

  /** Every pinhole matrix is what prepare_intrinsic builds from its own parameters. */
  lemma PinholeIsPrepared(k: Matrix)
    requires IsPinhole(k)
    ensures PrepareIntrinsic([IntrinsicRecord([k[0][2], k[1][2]], k[0][0])]) == Ok(k)
  {
    var r := PrepareIntrinsic([IntrinsicRecord([k[0][2], k[1][2]], k[0][0])]);
    assert r.value[0] == k[0];
    assert r.value[1] == k[1];
    assert r.value[2] == k[2];
    assert r.value == k;
  }

  /** Rows after the first never influence the matrix. */
  lemma PrepareIntrinsicReadsFirstRow(t1: seq<IntrinsicRecord>, t2: seq<IntrinsicRecord>)
    requires |t1| > 0 && |t2| > 0 && t1[0] == t2[0]
    ensures PrepareIntrinsic(t1) == PrepareIntrinsic(t2)
  {
  }

  /** principalPoint (100, 50) and focal length 800 give [[800, 0, 100], [0, 800, 50], [0, 0, 1]]. */
  lemma PrepareIntrinsicExample()
    ensures PrepareIntrinsic([IntrinsicRecord([100.0, 50.0], 800.0)])
            == Ok([[800.0, 0.0, 100.0], [0.0, 800.0, 50.0], [0.0, 0.0, 1.0]])
  {
  }
}
