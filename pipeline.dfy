/**
 * convert_sfm_to_parquet once its tables are loaded, with line 101 corrected:
 * the point cloud is the x, y, z table of line 31 (as written, line 101 raises
 * KeyError("X"); see PointCloud.PointCloudAsWrittenRaises). Then come the
 * assembled image records, the shuffle and the split. The shuffle is a parameter
 * that may reorder the records in any way but neither adds nor drops any.
 */
module Pipeline {
  import opened SfmTypes
  import opened Intrinsics
  import opened Rototranslation
  import opened PointCloud
  import opened Assembler
  import opened Splitter

  /** What a successful run (line 101 corrected) writes: point_cloud.parquet, train.json and val.json. */
  datatype Conversion = Conversion(pointCloud: seq<Point>, train: seq<ImageRecord>, val: seq<ImageRecord>)

  method ConvertSfm(
    structure: seq<seq<real>>,
    poses: seq<PoseRecord>,
    views: seq<ViewRecord>,
    intrinsics: seq<IntrinsicRecord>,
    shuffle: seq<ImageRecord> -> seq<ImageRecord>)
    returns (r: Result<Conversion>)
    requires forall s :: multiset(shuffle(s)) == multiset(s)
    ensures LoadStructure(structure).Err? ==> r == Err(ValueError)
    ensures LoadStructure(structure).Ok? && Assembled(poses, views, intrinsics).Err?
            ==> r == Err(Assembled(poses, views, intrinsics).error)
    ensures r.Ok? <==> (forall i :: 0 <= i < |structure| ==> |structure[i]| == 3)
                       && (forall i :: 0 <= i < |poses| ==> RecordFor(poses[i], views, intrinsics).Ok?)
    ensures r.Ok? ==> |r.value.pointCloud| == |structure|
                      && forall i :: 0 <= i < |structure| ==> Coordinates(r.value.pointCloud[i]) == structure[i]
    ensures r.Ok? ==> r.value.train + r.value.val == shuffle(Assembled(poses, views, intrinsics).value)
    ensures r.Ok? ==> multiset(r.value.train) + multiset(r.value.val)
                      == multiset(Assembled(poses, views, intrinsics).value)
    ensures r.Ok? ==> |r.value.train| == SplitIndex(|poses|)
                      && |r.value.train| + |r.value.val| == |poses|
  {
    AssembledOk(poses, views, intrinsics);
    var pointCloud := LoadStructure(structure);
    if pointCloud.Err? {
      return Err(pointCloud.error);
    }
    var listImages := AssembleRecords(poses, views, intrinsics);
    if listImages.Err? {
      return Err(listImages.error);
    }
    AssembledRecords(poses, views, intrinsics);
    var shuffled := shuffle(listImages.value);
    var split := SplitAt80(shuffled);
    SplitIsPartition(listImages.value, shuffled);
    r := Ok(Conversion(pointCloud.value, split.train, split.val));
  }
}
