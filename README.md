# SfM export converter — verified model

A Dafny model of `tools/prepare_sfm.py`. The script converts a Structure-from-Motion
export (`sfm.json`) into a point cloud plus two JSON manifests of camera records,
split 80/20 into `train` and `val`. The model covers these steps:

- **Intrinsic builder** (`Intrinsics`, `prepare_intrinsic`). It reads row 0 of the
  intrinsics table and builds the 3×3 pinhole matrix `[[f, 0, cx], [0, f, cy], [0, 0, 1]]`.
  The function receives the whole table, so the first `[0]` in lines 53–55 selects
  row 0. Each record therefore holds a flat pair `(cx, cy)` and one scalar focal
  length. An empty table has no `principalPoint` column, which is a `KeyError`. A
  principal point with fewer than two entries is an `IndexError`.
- **Pose builder** (`Rototranslation`, `prepare_rototranslation`). It builds a 4×4
  homogeneous matrix. A flat 9-entry rotation fills the upper-left block row by
  row, the 3-entry center fills the last column, and the last row is `[0, 0, 0, 1]`.
  Shorter lists are an `IndexError`.
- **Structure table** (`PointCloud`, line 31). It builds one `(x, y, z)` row per
  structure point.
- **Assembler** (`Assembler`, lines 105–118). This is a loop over the pose table that
  builds one record per pose, in pose order. It finds the pose's view by `poseId`
  and adds both matrices, the view's path and size, and `camera_id` 0. Errors happen
  in source order:
  - a missing view is a `KeyError` on the poseId;
  - then come the matrix errors;
  - a poseId shared by several views makes `float()` receive a multi-row Series,
    which is a `TypeError`.

  The intrinsic matrix is built inside the loop, so an empty pose table never
  reads the intrinsics.
- **Splitter** (`Splitter`, lines 122–126). It cuts the shuffled list at
  `int(0.8 * n)`, which the model computes as `(4 * n) / 5`.
- **Pipeline** (`Pipeline.ConvertSfm`). It chains the steps above. The shuffle is a
  parameter: any function that keeps every record and adds none.

The matrix entries are only copied, never computed with, so they are modelled as `real`.
Errors are the `Result` values `KeyError`, `IndexError`, `TypeError` and `ValueError`,
named after the Python exceptions they model.

## Model

| member | source | states |
|---|---|---|
| `Intrinsics.PrepareIntrinsic` | tools/prepare_sfm.py:53-60 | succeeds exactly when the table has a row 0 whose principal point has at least two entries; otherwise KeyError("principalPoint") for an empty table and IndexError for a short point; the result is 3×3 with zero skew, `[1][0] == 0`, bottom row `[0,0,1]`, `[0][0] == [1][1] == f`, `[0][2] == cx`, `[1][2] == cy` |
| `Intrinsics.PinholeIsPrepared` | tools/prepare_sfm.py:58-60 | converse: every 3×3 zero-skew matrix with equal focal terms and bottom row `[0,0,1]` is what prepare_intrinsic builds from its own (cx, cy, f) |
| `Intrinsics.PrepareIntrinsicReadsFirstRow` | tools/prepare_sfm.py:53-55 | two tables with the same row 0 give the same matrix; later rows are never read |
| `Intrinsics.PrepareIntrinsicExample` | tools/prepare_sfm.py:58-60 | principal point (100, 50) and focal length 800 give `[[800,0,100],[0,800,50],[0,0,1]]` |
| `Rototranslation.PrepareRototranslation` | tools/prepare_sfm.py:81-93 | succeeds exactly when the rotation has at least 9 entries and the center at least 3, otherwise IndexError; the result is 4×4 with last row `[0,0,0,1]`, `M[i][j] == rotation[3i+j]` and `M[i][3] == center[i]` for i, j < 3 |
| `Rototranslation.RototranslationRoundTrip` | tools/prepare_sfm.py:88-91 | reading the block and the column back out of the matrix gives the first 9 rotation entries and the first 3 center entries |
| `Rototranslation.HomogeneousIsPrepared` | tools/prepare_sfm.py:88-93 | converse: every 4×4 matrix with last row `[0,0,0,1]` is what prepare_rototranslation builds from its own block and column |
| `Rototranslation.PrepareRototranslationExample` | tools/prepare_sfm.py:88-93 | identity rotation with center (1, 2, 3) gives the pure translation matrix |
| `PointCloud.LoadStructure` | tools/prepare_sfm.py:31 | succeeds exactly when every coordinate list has three entries, otherwise ValueError; one row per structure element, in order, each row's (x, y, z) equal to its list |
| `PointCloud.LoadStructureRoundTrip` | tools/prepare_sfm.py:31 | points written as coordinate lists load back as the same points |
| `PointCloud.PointCloudAsWrittenRaises` | tools/prepare_sfm.py:101 | line 101 as written raises KeyError("X") for every structure table, since its columns are x, y, z |
| `Assembler.ViewsWithId` | tools/prepare_sfm.py:111 | the rows `images.loc[id]` selects are exactly the views whose poseId is `id`, and there are no more of them than views; how often each is selected is the next row |
| `Assembler.ViewsWithIdCount` | tools/prepare_sfm.py:111 | each view with poseId `id` is selected as many times as the view table holds it, and no other view is selected |
| `Assembler.RecordForSpec` | tools/prepare_sfm.py:108-116 | one pose yields a record exactly when one view carries its poseId and both matrices build; errors in source order: no such view is KeyError(poseId), then a short rotation or center is IndexError, then the intrinsics error, then several views with the poseId is TypeError; the record has camera_id 0, the pose's transform, the intrinsic matrix, and that view's path, height and width |
| `Assembler.RecordForUniqueView` | tools/prepare_sfm.py:111-116 | the view a record is built from is the only row with the pose's poseId and occurs once in the view table |
| `Assembler.AssembledOk` | tools/prepare_sfm.py:107-118 | assembly succeeds exactly when every pose yields a record |
| `Assembler.AssembledRecords` | tools/prepare_sfm.py:105-118 | a successful assembly has one record per pose, and record i is pose i's record (pose-table order) |
| `Assembler.AssembledFirstError` | tools/prepare_sfm.py:107-118 | a failed assembly carries the error of the first pose that yields no record |
| `Assembler.AssembledPrefixErr` | tools/prepare_sfm.py:107-118 | once a prefix of the pose table fails, the whole run fails with that error (no later pose is reached) |
| `Assembler.AssembledRecordAt` | tools/prepare_sfm.py:109-116 | every assembled record has camera_id 0, the same intrinsic matrix built from row 0, its pose's transform, and the path and size of the single view with its poseId |
| `Assembler.MissingViewFails` | tools/prepare_sfm.py:109-111 | a pose whose poseId no view carries makes the assembly fail |
| `Assembler.AssembleRecords` | tools/prepare_sfm.py:105-118 | the loop that appends one record per pose returns exactly the assembly above, including its first error |
| `Splitter.SplitIndex` | tools/prepare_sfm.py:123 | the split index is the floor of 4n/5: `5k <= 4n < 5k + 5`, and it is at most n |
| `Splitter.SplitAt80` | tools/prepare_sfm.py:123-126 | `train + val` is the shuffled list and `train` has the split-index length |
| `Splitter.SplitIsPartition` | tools/prepare_sfm.py:122-126 | for any permutation of the assembled list, train and val together hold the assembled records as a multiset, `|train| + |val| == n` and `|train| == (4n)/5` |
| `Splitter.SplitDisjoint` | tools/prepare_sfm.py:122-126 | when no assembled record repeats, no record is in both train and val |
| `Splitter.SplitShares` | tools/prepare_sfm.py:123-126 | val holds at least a fifth of the records and is non-empty when n ≥ 1; train holds at most four fifths and is non-empty when n ≥ 2 |
| `Splitter.SplitFiveExample` | tools/prepare_sfm.py:123-126 | five records split into four train and one val |
| `Pipeline.ConvertSfm` | tools/prepare_sfm.py:95-126 | a structure error comes first, then the assembly's first error; it succeeds exactly when every point has three coordinates and every pose yields a record; it then yields one point-cloud row per structure point, `train + val` equals the shuffled records, train and val hold every assembled record, and `|train| == (4n)/5` |

## Findings

| source | as written | input that shows it | evidently intended | confidence | as-written member | corrected member |
|---|---|---|---|---|---|---|
| tools/prepare_sfm.py:101 | reads column `"X"` from the structure table built at line 31, whose columns are `x`, `y`, `z` | any `sfm.json` that loads (lines 27–35 succeed), for example one with a single structure point: the lookup raises KeyError before any record is assembled | the point cloud is the structure table's x, y, z columns | high; not executed | `PointCloud.PointCloudAsWrittenRaises` | `Pipeline.ConvertSfm` |

## Left out

- Reading `sfm.json` and building the DataFrames (lines 27–35) are file I/O and pandas. The model takes the tables already parsed as sequences of records. It does not check for missing top-level keys. It also leaves out the `set_index('poseId')` failure on an empty view table.
- `float(...)` coercion of numeric text (lines 53–55, 85–86, 114–115) is parsing by a foreign routine. All numbers arrive as `real`.
- The pose is re-parsed from `str(...)` with quotes replaced and `json.loads` (line 79). This depends on Python's dict `repr`. A pose arrives already holding its `rotation` and `center` lists.
- Writing `point_cloud.parquet` (line 102) and `train.json` / `val.json` (lines 128–132) is output I/O. On success `ConvertSfm` returns what would be written, reading line 101 as the x, y, z table of line 31. On a failed run it returns only the error. It does not represent that line 102 has already written the point cloud when the assembly fails.
- The randomness of `random.shuffle` (line 122) is not modelled. The shuffle is a parameter that may return any permutation. The model assigns the permuted list to a new variable; it does not reorder the list in place.
- LoadStructure: pandas pads a structure point with fewer than three coordinates with NaN when another point has three. The model reports ValueError for any point that does not have exactly three coordinates.
- SplitIndex: Python computes `int(n * 0.8)` in double precision. This equals `(4 * n) / 5` for every list length below 2^49, and the model uses the integer form for all n.
