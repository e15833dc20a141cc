/**
 * `groupby('Asset ID')` over a set of rows, in pandas' default mode: rows
 * whose asset is NaN are dropped and the groups come out sorted by asset.
 * Used on each batch (distinct failures per asset) and on the whole table
 * (failure counts per asset).
 */
module AssetGrouper {
  import opened Wrappers
  import opened WorkOrders
  import opened StringOrder
  import opened Sequences

  /** Some row names asset `a`. */
  predicate HasAsset(rows: seq<Record>, a: string)
  {
    exists i :: 0 <= i < |rows| && rows[i].assetId == Some(a)
  }

  /** Some row of asset `a` has failure description `f`. */
  predicate Reports(rows: seq<Record>, a: string, f: string)
  {
    exists i :: 0 <= i < |rows| && rows[i].assetId == Some(a) && rows[i].failureDescription == Some(f)
  }

  /** The row belongs to asset `a` and has a failure description. */
  predicate Failing(r: Record, a: string)
  {
    r.assetId == Some(a) && r.failureDescription.Some?
  }

  /** The positions of the rows of asset `a` that have a failure description. */
  function FailingRows(rows: seq<Record>, a: string): set<int>
  {
    set i | 0 <= i < |rows| && Failing(rows[i], a)
  }

  /** The group keys, in the order `groupby` yields them. */
  function AssetKeys(rows: seq<Record>): seq<string>
  {
    if rows == [] then []
    else
      var keys := AssetKeys(rows[..|rows| - 1]);
      match rows[|rows| - 1].assetId
      case None => keys
      case Some(a) => Insert(keys, a)
  }

  lemma HasAssetLast(rows: seq<Record>, a: string)
    requires rows != []
    ensures HasAsset(rows, a) <==> HasAsset(rows[..|rows| - 1], a) || rows[|rows| - 1].assetId == Some(a)
  {
    var init := rows[..|rows| - 1];
    if HasAsset(rows, a) && rows[|rows| - 1].assetId != Some(a) {
      var i :| 0 <= i < |rows| && rows[i].assetId == Some(a);
      assert init[i] == rows[i];
    }
    if HasAsset(init, a) {
      var i :| 0 <= i < |init| && init[i].assetId == Some(a);
      assert rows[i] == init[i];
    }
  }

  /** One key per distinct non-null asset of the rows, in ascending order. */
  lemma {:induction false} AssetKeysSpec(rows: seq<Record>)
    ensures StrictlyIncreasing(AssetKeys(rows))
    ensures forall a :: a in AssetKeys(rows) <==> HasAsset(rows, a)
  {
    if rows != [] {
      var init := rows[..|rows| - 1];
      AssetKeysSpec(init);
      forall a ensures HasAsset(rows, a) <==> HasAsset(init, a) || rows[|rows| - 1].assetId == Some(a) {
        HasAssetLast(rows, a);
      }
      match rows[|rows| - 1].assetId
      case None =>
      case Some(a) => InsertSpec(AssetKeys(init), a);
    }
  }

  /** `group['Failure Description'].dropna().tolist()` for the group of asset `a`. */
  function Failures(rows: seq<Record>, a: string): seq<string>
  {
    if rows == [] then []
    else
      var last := rows[|rows| - 1];
      Failures(rows[..|rows| - 1], a) + if Failing(last, a) then [last.failureDescription.value] else []
  }

  lemma ReportsLast(rows: seq<Record>, a: string, f: string)
    requires rows != []
    ensures Reports(rows, a, f) <==>
      Reports(rows[..|rows| - 1], a, f) ||
      (rows[|rows| - 1].assetId == Some(a) && rows[|rows| - 1].failureDescription == Some(f))
  {
    var init, n := rows[..|rows| - 1], |rows| - 1;
    if Reports(rows, a, f) && !(rows[n].assetId == Some(a) && rows[n].failureDescription == Some(f)) {
      var i :| 0 <= i < |rows| && rows[i].assetId == Some(a) && rows[i].failureDescription == Some(f);
      assert init[i] == rows[i];
    }
    if Reports(init, a, f) {
      var i :| 0 <= i < |init| && init[i].assetId == Some(a) && init[i].failureDescription == Some(f);
      assert rows[i] == init[i];
    }
  }

  /** The listed failures are exactly the non-null descriptions on the asset's rows. */
  lemma {:induction false} FailuresMembers(rows: seq<Record>, a: string)
    ensures forall f :: f in Failures(rows, a) <==> Reports(rows, a, f)
  {
    if rows != [] {
      FailuresMembers(rows[..|rows| - 1], a);
      forall f ensures f in Failures(rows, a) <==> Reports(rows, a, f) {
        ReportsLast(rows, a, f);
      }
    }
  }

  /** One entry per row of the asset that has a description: duplicates are kept. */
  lemma {:induction false} FailuresCount(rows: seq<Record>, a: string)
    ensures |Failures(rows, a)| == |FailingRows(rows, a)|
  {
    if rows != [] {
      var init, n := rows[..|rows| - 1], |rows| - 1;
      FailuresCount(init, a);
      var extra: set<int> := if Failing(rows[n], a) then {n} else {};
      assert FailingRows(rows, a) == FailingRows(init, a) + extra by {
        forall i ensures i in FailingRows(rows, a) <==> i in FailingRows(init, a) + extra {
          if 0 <= i < n {
            assert rows[i] == init[i];
          }
        }
      }
      assert n !in FailingRows(init, a);
    }
  }

  /**
   * `assets_failure_details` of a batch: for each group, the asset and
   * `dropna().unique().tolist()` of its failure descriptions.
   */
  function GroupBatch(rows: seq<Record>): seq<AssetFailures>
  {
    var keys := AssetKeys(rows);
    seq(|keys|, i requires 0 <= i < |keys| => AssetFailures(keys[i], Dedup(Failures(rows, keys[i]))))
  }

  /** The loop at the top of each batch that appends one entry per group. */
  method GroupFailures(rows: seq<Record>) returns (groups: seq<AssetFailures>)
    ensures groups == GroupBatch(rows)
  {
    var keys := AssetKeys(rows);
    groups := [];
    var i := 0;
    while i < |keys|
      invariant 0 <= i <= |keys|
      invariant |groups| == i
      invariant forall j :: 0 <= j < i ==> groups[j] == AssetFailures(keys[j], Dedup(Failures(rows, keys[j])))
    {
      var failures := Dedup(Failures(rows, keys[i]));
      groups := groups + [AssetFailures(keys[i], failures)];
      i := i + 1;
    }
  }

  /**
   * A batch lists every non-null asset of its rows exactly once, in
   * ascending order of the asset.
   */
  lemma GroupBatchAssets(rows: seq<Record>)
    ensures forall a :: (exists i :: 0 <= i < |GroupBatch(rows)| && GroupBatch(rows)[i].assetId == a) <==> HasAsset(rows, a)
    ensures forall i, j :: 0 <= i < j < |GroupBatch(rows)| ==>
      Less(GroupBatch(rows)[i].assetId, GroupBatch(rows)[j].assetId) &&
      GroupBatch(rows)[i].assetId != GroupBatch(rows)[j].assetId
  {
    var keys, g := AssetKeys(rows), GroupBatch(rows);
    AssetKeysSpec(rows);
    StrictlyIncreasingDistinct(keys);
    forall a ensures (exists i :: 0 <= i < |g| && g[i].assetId == a) <==> a in keys {
      if a in keys {
        var i :| 0 <= i < |keys| && keys[i] == a;
        assert g[i].assetId == a;
      }
    }
  }

  /**
   * The failures listed for an asset of a batch: no duplicates; exactly the
   * non-null descriptions on that asset's rows of the batch; in the order of
   * their first occurrence among those rows.
   */
  lemma GroupBatchFailures(rows: seq<Record>, i: nat)
    requires i < |GroupBatch(rows)|
    ensures Distinct(GroupBatch(rows)[i].failures)
    ensures forall f :: f in GroupBatch(rows)[i].failures <==> Reports(rows, GroupBatch(rows)[i].assetId, f)
    ensures forall p, q :: 0 <= p < q < |GroupBatch(rows)[i].failures| ==>
      var s, fs := Failures(rows, GroupBatch(rows)[i].assetId), GroupBatch(rows)[i].failures;
      fs[p] in s && fs[q] in s && FirstIndex(s, fs[p]) < FirstIndex(s, fs[q])
  {
    var a := GroupBatch(rows)[i].assetId;
    var s := Failures(rows, a);
    assert GroupBatch(rows)[i].failures == Dedup(s);
    DedupDistinct(s);
    DedupMembers(s);
    DedupFirstSeen(s);
    FailuresMembers(rows, a);
  }

  /**
   * `asset_summary`: for each group of the whole table, the asset, how many
   * non-null descriptions it has and the set of distinct ones.
   */
  function AssetStats(rows: seq<Record>): seq<AssetStat>
  {
    var keys := AssetKeys(rows);
    seq(|keys|, i requires 0 <= i < |keys| =>
      AssetStat(keys[i], |Failures(rows, keys[i])|, SetOf(Failures(rows, keys[i]))))
  }

  /** The loop over the whole table that appends one statistic per group. */
  method SummarizeAssets(rows: seq<Record>) returns (stats: seq<AssetStat>)
    ensures stats == AssetStats(rows)
  {
    var keys := AssetKeys(rows);
    stats := [];
    var i := 0;
    while i < |keys|
      invariant 0 <= i <= |keys|
      invariant |stats| == i
      invariant forall j :: 0 <= j < i ==>
        stats[j] == AssetStat(keys[j], |Failures(rows, keys[j])|, SetOf(Failures(rows, keys[j])))
    {
      var failures := Failures(rows, keys[i]);
      var uniqueFailures := SetOf(failures);
      stats := stats + [AssetStat(keys[i], |failures|, uniqueFailures)];
      i := i + 1;
    }
  }

  /** The statistics list every non-null asset of the table exactly once, in ascending order. */
  lemma AssetStatsAssets(rows: seq<Record>)
    ensures forall a :: (exists i :: 0 <= i < |AssetStats(rows)| && AssetStats(rows)[i].assetId == a) <==> HasAsset(rows, a)
    ensures forall i, j :: 0 <= i < j < |AssetStats(rows)| ==>
      Less(AssetStats(rows)[i].assetId, AssetStats(rows)[j].assetId) &&
      AssetStats(rows)[i].assetId != AssetStats(rows)[j].assetId
  {
    var keys, st := AssetKeys(rows), AssetStats(rows);
    AssetKeysSpec(rows);
    StrictlyIncreasingDistinct(keys);
    forall a ensures (exists i :: 0 <= i < |st| && st[i].assetId == a) <==> a in keys {
      if a in keys {
        var i :| 0 <= i < |keys| && keys[i] == a;
        assert st[i].assetId == a;
      }
    }
  }

  /**
   * An asset's `total_failures` counts its rows with a description,
   * duplicates included; `common_failures` is exactly the distinct
   * descriptions on its rows, so it is never larger than the count.
   */
  lemma AssetStatsCounts(rows: seq<Record>, i: nat)
    requires i < |AssetStats(rows)|
    ensures AssetStats(rows)[i].totalFailures == |FailingRows(rows, AssetStats(rows)[i].assetId)|
    ensures forall f :: f in AssetStats(rows)[i].commonFailures <==> Reports(rows, AssetStats(rows)[i].assetId, f)
    ensures |AssetStats(rows)[i].commonFailures| <= AssetStats(rows)[i].totalFailures
  {
    var a := AssetStats(rows)[i].assetId;
    FailuresCount(rows, a);
    FailuresMembers(rows, a);
    SetOfSize(Failures(rows, a));
  }

  /**
   * Every row with an asset is accounted for in the statistics of that
   * asset: the row adds one to its count when it has a description, and its
   * description is among the asset's failures.
   */
  lemma AssetStatsCoverRow(rows: seq<Record>, r: nat)
    requires r < |rows| && rows[r].assetId.Some?
    ensures exists i ::
              && 0 <= i < |AssetStats(rows)|
              && AssetStats(rows)[i].assetId == rows[r].assetId.value
              && (rows[r].failureDescription.Some? ==>
                    r in FailingRows(rows, rows[r].assetId.value) &&
                    rows[r].failureDescription.value in AssetStats(rows)[i].commonFailures)
  {
    var a := rows[r].assetId.value;
    assert HasAsset(rows, a);
    AssetStatsAssets(rows);
    var i :| 0 <= i < |AssetStats(rows)| && AssetStats(rows)[i].assetId == a;
    AssetStatsCounts(rows, i);
    if rows[r].failureDescription.Some? {
      assert Reports(rows, a, rows[r].failureDescription.value);
    }
  }
}
