/** The 80/20 train/validation split at the end of convert_sfm_to_parquet. */
module Splitter {

  /** The two manifests: train.json and val.json. */
  datatype Split<T> = Split(train: seq<T>, val: seq<T>)

  /**
   * int(n * 0.8): the largest k with 5k <= 4n. The double nearest 0.8 lies just
   * above 0.8, so the floating-point product never rounds below 4n/5.
   */
  function SplitIndex(n: nat): (k: nat)
    ensures k <= n
    ensures 5 * k <= 4 * n < 5 * k + 5
  {
    (4 * n) / 5
  }

  /** list_images[:split] and list_images[split:] of the shuffled list. */
  function SplitAt80<T>(shuffled: seq<T>): (r: Split<T>)
    ensures r.train + r.val == shuffled
    ensures |r.train| == SplitIndex(|shuffled|)
  {
    var split := SplitIndex(|shuffled|);
    Split(shuffled[..split], shuffled[split..])
  }

  /** Whatever order the shuffle chose, train and val together hold every assembled record once. */
  lemma SplitIsPartition<T>(assembled: seq<T>, shuffled: seq<T>)
    requires multiset(shuffled) == multiset(assembled)
    ensures var r := SplitAt80(shuffled);
            && multiset(r.train) + multiset(r.val) == multiset(assembled)
            && |r.train| + |r.val| == |assembled|
            && |r.train| == SplitIndex(|assembled|)
  {
    var r := SplitAt80(shuffled);
    assert multiset(r.train + r.val) == multiset(r.train) + multiset(r.val);
    assert |multiset(shuffled)| == |shuffled| && |multiset(assembled)| == |assembled|;
  }

  /** A sequence without repeated elements holds each value at most once. */
  lemma {:induction false} DistinctOnce<T>(s: seq<T>, x: T)
    requires forall i, j :: 0 <= i < j < |s| ==> s[i] != s[j]
    ensures multiset(s)[x] <= 1
  {
    if |s| > 0 {
      var rest := s[1..];
      assert s == [s[0]] + rest;
      assert forall i, j :: 0 <= i < j < |rest| ==> rest[i] != rest[j] by {
        forall i, j | 0 <= i < j < |rest| ensures rest[i] != rest[j] {
          assert rest[i] == s[i + 1] && rest[j] == s[j + 1];
        }
      }
      DistinctOnce(rest, x);
      if s[0] == x {
        assert x !in rest by {
          forall k | 0 <= k < |rest| ensures rest[k] != x {
            assert rest[k] == s[k + 1];
          }
        }
      }
    }
  }

  /** When no record is repeated, no record lands in both train and val. */
  lemma SplitDisjoint<T>(assembled: seq<T>, shuffled: seq<T>)
    requires forall i, j :: 0 <= i < j < |assembled| ==> assembled[i] != assembled[j]
    requires multiset(shuffled) == multiset(assembled)
    ensures forall x :: x in SplitAt80(shuffled).train ==> x !in SplitAt80(shuffled).val
  {
    var r := SplitAt80(shuffled);
    forall x | x in r.train ensures x !in r.val {
      DistinctOnce(assembled, x);
      assert multiset(shuffled) == multiset(r.train) + multiset(r.val) by {
        assert shuffled == r.train + r.val;
      }
    }
  }

  /**
   * The shares: val gets at least a fifth of the records and is never empty when
   * there is a record; train gets at most four fifths, and a record once there
   * are two.
   */
  lemma SplitShares<T>(shuffled: seq<T>)
    ensures var r := SplitAt80(shuffled);
            && 5 * |r.val| >= |shuffled|
            && 5 * |r.train| <= 4 * |shuffled|
            && (|shuffled| >= 1 ==> |r.val| >= 1)
            && (|shuffled| >= 2 ==> |r.train| >= 1)
  {
  }

  /** Five records split four to one. */
  lemma SplitFiveExample<T>(shuffled: seq<T>)
    requires |shuffled| == 5
    ensures |SplitAt80(shuffled).train| == 4 && |SplitAt80(shuffled).val| == 1
  {
  }
}
