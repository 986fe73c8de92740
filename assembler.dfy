/** The assembler: the loop over the pose table in convert_sfm_to_parquet. */
module Assembler {
  import opened SfmTypes
  import opened Intrinsics
  import opened Rototranslation

  /** One row of the view table, which is indexed by poseId. */
  datatype ViewRecord = ViewRecord(poseId: string, path: string, height: real, width: real)

  /** One output image record, as written to train.json or val.json. */
  datatype ImageRecord = ImageRecord(
    imagePath: string,
    transform: Matrix,   // T_pointcloud_camera
    intrinsics: Matrix,  // camera_intrinsics
    height: real,        // camera_height
    width: real,         // camera_width
    cameraId: int)       // camera_id

  /** The rows `images.loc[id]` selects: every view whose index label is `id`, in table order. */
  function ViewsWithId(views: seq<ViewRecord>, id: string): (r: seq<ViewRecord>)
    ensures forall v :: v in r <==> v in views && v.poseId == id
    ensures |r| <= |views|
  {
    if |views| == 0 then []
    else (if views[0].poseId == id then [views[0]] else []) + ViewsWithId(views[1..], id)
  }

  /**
   * `images.loc[id]` keeps every copy of a row: each view with index label `id`
   * is selected as often as the table holds it, so a poseId that several rows
   * share selects several rows.
   */
  lemma {:induction false} ViewsWithIdCount(views: seq<ViewRecord>, id: string)
    ensures forall v :: multiset(ViewsWithId(views, id))[v] == (if v.poseId == id then multiset(views)[v] else 0)
  {
    if |views| > 0 {
      ViewsWithIdCount(views[1..], id);
      assert views == [views[0]] + views[1..];
    }
  }

  /**
   * One pass of the loop body, as a value. The steps fail in source order: the
   * view lookup (no row with this poseId), the pose matrix, the intrinsic matrix,
   * and last float() of a height that several rows share.
   */
  function RecordFor(pose: PoseRecord, views: seq<ViewRecord>, intrinsics: seq<IntrinsicRecord>): Result<ImageRecord>
  {
    var rows := ViewsWithId(views, pose.poseId);
    if |rows| == 0 then
      Err(KeyError(pose.poseId))
    else
      match PrepareRototranslation(pose)
      case Err(e) => Err(e)
      case Ok(t) =>
        match PrepareIntrinsic(intrinsics)
        case Err(e) => Err(e)
        case Ok(k) =>
          if |rows| > 1 then
            Err(TypeError)
          else
            Ok(ImageRecord(rows[0].path, t, k, rows[0].height, rows[0].width, 0))
  }

  /**
   * A pose yields a record exactly when one view carries its poseId and both
   * matrices can be built; the record then has camera_id 0, the two matrices,
   * and the path and size of that view. The errors come in source order: no
   * view at all is a KeyError on the poseId, then a short rotation or center is
   * an IndexError, then the intrinsics error, and last a poseId that several
   * views share is a TypeError.
   */
  lemma RecordForSpec(pose: PoseRecord, views: seq<ViewRecord>, intrinsics: seq<IntrinsicRecord>)
    ensures var r := RecordFor(pose, views, intrinsics);
            r.Ok? <==> |ViewsWithId(views, pose.poseId)| == 1
                       && PrepareRototranslation(pose).Ok? && PrepareIntrinsic(intrinsics).Ok?
    ensures (forall v :: v in views ==> v.poseId != pose.poseId)
            ==> RecordFor(pose, views, intrinsics) == Err(KeyError(pose.poseId))
    ensures |ViewsWithId(views, pose.poseId)| > 0 && PrepareRototranslation(pose).Err?
            ==> RecordFor(pose, views, intrinsics) == Err(IndexError)
    ensures |ViewsWithId(views, pose.poseId)| > 0 && PrepareRototranslation(pose).Ok?
            && PrepareIntrinsic(intrinsics).Err?
            ==> RecordFor(pose, views, intrinsics) == Err(PrepareIntrinsic(intrinsics).error)
    ensures |ViewsWithId(views, pose.poseId)| > 1 && PrepareRototranslation(pose).Ok?
            && PrepareIntrinsic(intrinsics).Ok?
            ==> RecordFor(pose, views, intrinsics) == Err(TypeError)
    ensures var r := RecordFor(pose, views, intrinsics);
            r.Ok? ==> && r.value.cameraId == 0
                      && r.value.transform == PrepareRototranslation(pose).value
                      && r.value.intrinsics == PrepareIntrinsic(intrinsics).value
                      && ViewsWithId(views, pose.poseId)
                         == [ViewRecord(pose.poseId, r.value.imagePath, r.value.height, r.value.width)]
  {
    var rows := ViewsWithId(views, pose.poseId);
    if |rows| > 0 {
      assert rows[0] in rows;
    }
  }

  /** The view a record is built from is the only row with its poseId and occurs once in the table. */
  lemma RecordForUniqueView(pose: PoseRecord, views: seq<ViewRecord>, intrinsics: seq<IntrinsicRecord>)
    requires RecordFor(pose, views, intrinsics).Ok?
    ensures var r := RecordFor(pose, views, intrinsics).value;
            var view := ViewRecord(pose.poseId, r.imagePath, r.height, r.width);
            && multiset(views)[view] == 1
            && forall v :: v in views && v.poseId == pose.poseId ==> v == view
  {
    RecordForSpec(pose, views, intrinsics);
    ViewsWithIdCount(views, pose.poseId);
    var rows := ViewsWithId(views, pose.poseId);
    assert multiset(rows) == multiset{rows[0]};
    assert multiset(rows)[rows[0]] == 1;
  }

  /**
   * Running passes one after another: the list of their values, or the error of
   * the first pass that fails (an uncaught exception ends the loop).
   */
  function Collect<T>(outcomes: seq<Result<T>>): Result<seq<T>>
    decreases |outcomes|
  {
    if |outcomes| == 0 then
      Ok([])
    else
      match Collect(outcomes[..|outcomes| - 1])
      case Err(e) => Err(e)
      case Ok(done) =>
        match outcomes[|outcomes| - 1]
        case Err(e) => Err(e)
        case Ok(x) => Ok(done + [x])
  }

  /** Collecting succeeds exactly when every pass succeeds. */
  lemma {:induction false} CollectOk<T>(outcomes: seq<Result<T>>)
    ensures Collect(outcomes).Ok? <==> forall i :: 0 <= i < |outcomes| ==> outcomes[i].Ok?
    decreases |outcomes|
  {
    if |outcomes| > 0 {
      var front := outcomes[..|outcomes| - 1];
      CollectOk(front);
      assert forall i :: 0 <= i < |front| ==> front[i] == outcomes[i];
    }
  }

  /** A successful collection holds one value per pass, in order. */
  lemma {:induction false} CollectValues<T>(outcomes: seq<Result<T>>)
    requires Collect(outcomes).Ok?
    ensures |Collect(outcomes).value| == |outcomes|
    ensures forall i :: 0 <= i < |outcomes| ==> Ok(Collect(outcomes).value[i]) == outcomes[i]
    decreases |outcomes|
  {
    if |outcomes| > 0 {
      var n := |outcomes| - 1;
      var front := outcomes[..n];
      CollectValues(front);
      var before := Collect(front).value;
      var all := Collect(outcomes).value;
      assert all == before + [outcomes[n].value];
      forall i | 0 <= i < |outcomes| ensures Ok(all[i]) == outcomes[i] {
        if i < n {
          assert front[i] == outcomes[i];
          assert all[i] == before[i];
        }
      }
    }
  }

  /** A failed collection carries the error of the first pass that fails. */
  lemma {:induction false} CollectFirstError<T>(outcomes: seq<Result<T>>)
    requires Collect(outcomes).Err?
    ensures exists j :: 0 <= j < |outcomes|
                        && (forall i :: 0 <= i < j ==> outcomes[i].Ok?)
                        && outcomes[j] == Err(Collect(outcomes).error)
    decreases |outcomes|
  {
    var n := |outcomes| - 1;
    var front := outcomes[..n];
    assert forall i :: 0 <= i < n ==> front[i] == outcomes[i];
    if Collect(front).Err? {
      CollectFirstError(front);
      var j :| 0 <= j < |front|
               && (forall i :: 0 <= i < j ==> front[i].Ok?)
               && front[j] == Err(Collect(front).error);
      assert outcomes[j] == Err(Collect(outcomes).error);
    } else {
      CollectOk(front);
      assert outcomes[n] == Err(Collect(outcomes).error);
    }
  }

  /** Once a prefix of the passes fails, the whole collection fails with the same error. */
  lemma {:induction false} CollectPrefixErr<T>(outcomes: seq<Result<T>>, k: nat)
    requires k <= |outcomes|
    requires Collect(outcomes[..k]).Err?
    ensures Collect(outcomes) == Collect(outcomes[..k])
    decreases |outcomes| - k
  {
    if k < |outcomes| {
      var longer := outcomes[..|outcomes| - 1];
      assert longer[..k] == outcomes[..k];
      CollectPrefixErr(longer, k);
    } else {
      assert outcomes[..k] == outcomes;
    }
  }

  /** The outcome of the loop body for each pose, in pose-table order. */
  function Outcomes(poses: seq<PoseRecord>, views: seq<ViewRecord>, intrinsics: seq<IntrinsicRecord>): seq<Result<ImageRecord>>
  {
    seq(|poses|, i requires 0 <= i < |poses| => RecordFor(poses[i], views, intrinsics))
  }

  /** The list the loop builds over `poses`, or the first error it raises. */
  function Assembled(poses: seq<PoseRecord>, views: seq<ViewRecord>, intrinsics: seq<IntrinsicRecord>): Result<seq<ImageRecord>>
  {
    Collect(Outcomes(poses, views, intrinsics))
  }

  /** Assembly succeeds exactly when every pose yields a record. */
  lemma AssembledOk(poses: seq<PoseRecord>, views: seq<ViewRecord>, intrinsics: seq<IntrinsicRecord>)
    ensures Assembled(poses, views, intrinsics).Ok?
            <==> forall i :: 0 <= i < |poses| ==> RecordFor(poses[i], views, intrinsics).Ok?
  {
    var outcomes := Outcomes(poses, views, intrinsics);
    CollectOk(outcomes);
    assert forall i :: 0 <= i < |poses| ==> outcomes[i] == RecordFor(poses[i], views, intrinsics);
  }

  /** A successful assembly holds one record per pose, in pose-table order. */
  lemma AssembledRecords(poses: seq<PoseRecord>, views: seq<ViewRecord>, intrinsics: seq<IntrinsicRecord>)
    requires Assembled(poses, views, intrinsics).Ok?
    ensures |Assembled(poses, views, intrinsics).value| == |poses|
    ensures forall i :: 0 <= i < |poses| ==>
              Ok(Assembled(poses, views, intrinsics).value[i]) == RecordFor(poses[i], views, intrinsics)
  {
    var outcomes := Outcomes(poses, views, intrinsics);
    CollectValues(outcomes);
    assert forall i :: 0 <= i < |poses| ==> outcomes[i] == RecordFor(poses[i], views, intrinsics);
  }

  /** When assembly fails, it fails with the error of the first pose that yields no record. */
  lemma AssembledFirstError(poses: seq<PoseRecord>, views: seq<ViewRecord>, intrinsics: seq<IntrinsicRecord>)
    requires Assembled(poses, views, intrinsics).Err?
    ensures exists j :: 0 <= j < |poses|
                        && (forall i :: 0 <= i < j ==> RecordFor(poses[i], views, intrinsics).Ok?)
                        && RecordFor(poses[j], views, intrinsics) == Err(Assembled(poses, views, intrinsics).error)
  {
    var outcomes := Outcomes(poses, views, intrinsics);
    CollectFirstError(outcomes);
    var j :| 0 <= j < |outcomes|
             && (forall i :: 0 <= i < j ==> outcomes[i].Ok?)
             && outcomes[j] == Err(Collect(outcomes).error);
    assert forall i :: 0 <= i < |poses| ==> outcomes[i] == RecordFor(poses[i], views, intrinsics);
    assert RecordFor(poses[j], views, intrinsics) == Err(Assembled(poses, views, intrinsics).error);
  }

  /** Once a prefix of the pose table fails, the whole table fails with the same error. */
  lemma AssembledPrefixErr(poses: seq<PoseRecord>, views: seq<ViewRecord>, intrinsics: seq<IntrinsicRecord>, k: nat)
    requires k <= |poses|
    requires Assembled(poses[..k], views, intrinsics).Err?
    ensures Assembled(poses, views, intrinsics) == Assembled(poses[..k], views, intrinsics)
  {
    var outcomes := Outcomes(poses, views, intrinsics);
    assert Outcomes(poses[..k], views, intrinsics) == outcomes[..k];
    CollectPrefixErr(outcomes, k);
  }

  /**
   * Every assembled record has camera_id 0, the one intrinsic matrix built from
   * the first intrinsics row, its pose's transform, and the path and size of the
   * single view whose poseId is the pose's.
   */
  lemma AssembledRecordAt(poses: seq<PoseRecord>, views: seq<ViewRecord>, intrinsics: seq<IntrinsicRecord>, i: nat)
    requires Assembled(poses, views, intrinsics).Ok? && i < |poses|
    ensures i < |Assembled(poses, views, intrinsics).value|
    ensures var record := Assembled(poses, views, intrinsics).value[i];
            && record.cameraId == 0
            && PrepareIntrinsic(intrinsics).Ok? && record.intrinsics == PrepareIntrinsic(intrinsics).value
            && PrepareRototranslation(poses[i]).Ok? && record.transform == PrepareRototranslation(poses[i]).value
            && ViewRecord(poses[i].poseId, record.imagePath, record.height, record.width) in views
            && ViewsWithId(views, poses[i].poseId)
               == [ViewRecord(poses[i].poseId, record.imagePath, record.height, record.width)]
  {
    AssembledRecords(poses, views, intrinsics);
    RecordForSpec(poses[i], views, intrinsics);
    var record := Assembled(poses, views, intrinsics).value[i];
    assert ViewRecord(poses[i].poseId, record.imagePath, record.height, record.width)
           in ViewsWithId(views, poses[i].poseId);
  }

  /** A pose whose poseId no view carries makes the whole assembly fail. */
  lemma MissingViewFails(poses: seq<PoseRecord>, views: seq<ViewRecord>, intrinsics: seq<IntrinsicRecord>, i: nat)
    requires i < |poses|
    requires forall v :: v in views ==> v.poseId != poses[i].poseId
    ensures Assembled(poses, views, intrinsics).Err?
  {
    RecordForSpec(poses[i], views, intrinsics);
    AssembledOk(poses, views, intrinsics);
  }

  /**
   * The loop of lines 105-118: one fresh record per pose, filled field by field
   * and appended to the list; the first exception ends the conversion.
   */
  method AssembleRecords(poses: seq<PoseRecord>, views: seq<ViewRecord>, intrinsics: seq<IntrinsicRecord>)
    returns (r: Result<seq<ImageRecord>>)
    ensures r == Assembled(poses, views, intrinsics)
  {
    ghost var outcomes := Outcomes(poses, views, intrinsics);
    var listImages: seq<ImageRecord> := [];
    var n := 0;
    while n < |poses|
      invariant n <= |poses|
      invariant Collect(outcomes[..n]) == Ok(listImages)
    {
      var pose := poses[n];
      assert outcomes[..n + 1][..n] == outcomes[..n];
      assert outcomes[n] == RecordFor(pose, views, intrinsics);
      var id := pose.poseId;
      var rows := ViewsWithId(views, id);
      if |rows| == 0 {
        CollectPrefixErr(outcomes, n + 1);
        return Err(KeyError(id));
      }
      var transform := PrepareRototranslation(pose);
      if transform.Err? {
        CollectPrefixErr(outcomes, n + 1);
        return Err(transform.error);
      }
      var cameraIntrinsics := PrepareIntrinsic(intrinsics);
      if cameraIntrinsics.Err? {
        CollectPrefixErr(outcomes, n + 1);
        return Err(cameraIntrinsics.error);
      }
      if |rows| > 1 {
        CollectPrefixErr(outcomes, n + 1);
        return Err(TypeError);
      }
      var newPose := ImageRecord(rows[0].path, transform.value, cameraIntrinsics.value,
                                 rows[0].height, rows[0].width, 0);
      listImages := listImages + [newPose];
      n := n + 1;
    }
    assert outcomes[..n] == outcomes;
    r := Ok(listImages);
  }
}
