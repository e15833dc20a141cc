/**
 * The run as a whole: validate the columns, summarize each batch, build and
 * summarize the master prompt, and tally the failures of every asset.
 *
 * The language model is `summarize`, a function from prompt to reply (the
 * model name and temperature are fixed for a run); pandas' text rendering of
 * a batch projected to the given columns is `render`.
 */
module Summarizer {
  import opened Wrappers
  import opened WorkOrders
  import opened ColumnValidator
  import opened Batcher
  import opened AssetGrouper
  import opened PromptBuilder
  import opened Text

  /** The ways a run stops before writing its combined outputs. */
  datatype RunError =
    | MissingColumn(message: string)
    | ZeroDivision

  /** The artifacts of a successful run. */
  datatype Outputs = Outputs(
    batches: seq<BatchSummary>,
    masterSummary: string,
    assetSummary: seq<AssetStat>)

  /** The artifact of batch `i` (counted from 0). */
  function BatchRecord(
    rows: seq<Record>, columns: seq<string>, chunkSize: int, i: nat,
    render: (seq<string>, seq<Record>) -> string, summarize: string -> string): BatchSummary
    requires chunkSize != 0 && i < BatchCount(|rows|, chunkSize)
  {
    var batch := Batches(rows, chunkSize)[i];
    BatchSummary(i + 1, GroupBatch(batch), summarize(BatchPrompt(render(columns, batch))))
  }

  /** `all_batch_summaries` once the batch loop is done. */
  function BatchRecords(
    rows: seq<Record>, columns: seq<string>, chunkSize: int,
    render: (seq<string>, seq<Record>) -> string, summarize: string -> string): seq<BatchSummary>
    requires chunkSize != 0
  {
    var k := BatchCount(|rows|, chunkSize);
    seq(k, i requires 0 <= i < k => BatchRecord(rows, columns, chunkSize, i, render, summarize))
  }

  /** One pass of the batch loop: slice the rows, group them, prompt and summarize. */
  method ProcessBatch(
    rows: seq<Record>, columns: seq<string>, chunkSize: int, batchNum: nat,
    render: (seq<string>, seq<Record>) -> string, summarize: string -> string)
    returns (batchSummary: BatchSummary)
    requires chunkSize != 0 && batchNum < BatchCount(|rows|, chunkSize)
    ensures batchSummary == BatchRecord(rows, columns, chunkSize, batchNum, render, summarize)
  {
    var start := batchNum * chunkSize;
    var end := start + chunkSize;
    BatchAt(rows, chunkSize, batchNum);
    var batchRows := rows[start..end];
    var assetFailures := GroupFailures(batchRows);
    var prompt := BatchPrompt(render(columns, batchRows));
    var summaryText := summarize(prompt);
    batchSummary := BatchSummary(batchNum + 1, assetFailures, summaryText);
  }

  /** The batch loop: one artifact per whole batch, appended in order. */
  method ProcessBatches(
    rows: seq<Record>, columns: seq<string>, chunkSize: int,
    render: (seq<string>, seq<Record>) -> string, summarize: string -> string)
    returns (all: seq<BatchSummary>)
    requires chunkSize != 0
    ensures all == BatchRecords(rows, columns, chunkSize, render, summarize)
  {
    var numChunks := BatchCount(|rows|, chunkSize);
    all := [];
    var batchNum := 0;
    while batchNum < numChunks
      invariant 0 <= batchNum <= numChunks
      invariant |all| == batchNum
      invariant forall k :: 0 <= k < batchNum ==> all[k] == BatchRecord(rows, columns, chunkSize, k, render, summarize)
    {
      var batchSummary := ProcessBatch(rows, columns, chunkSize, batchNum, render, summarize);
      all := all + [batchSummary];
      batchNum := batchNum + 1;
    }
  }

  /** The outputs of a run that passed validation. */
  function RunOutputs(
    table: Table, chunkSize: int,
    render: (seq<string>, seq<Record>) -> string, summarize: string -> string): Outputs
    requires chunkSize != 0
  {
    var batches := BatchRecords(table.rows, ProjectedColumns(table.columns), chunkSize, render, summarize);
    Outputs(batches, summarize(MasterPrompt(batches)), AssetStats(table.rows))
  }

  /**
   * The whole run. A missing required column stops it before anything else,
   * with the message naming the first missing column; a chunk size of zero
   * then stops it at the division; otherwise it yields the batch artifacts,
   * the master summary and the asset statistics.
   */
  method Run(
    table: Table, chunkSize: int,
    render: (seq<string>, seq<Record>) -> string, summarize: string -> string)
    returns (r: Result<Outputs, RunError>)
    ensures FirstMissing(RequiredColumns, table.columns).Some? ==>
      r == Failure(MissingColumn(MissingMessage(FirstMissing(RequiredColumns, table.columns).value)))
    ensures FirstMissing(RequiredColumns, table.columns).None? && chunkSize == 0 ==>
      r == Failure(ZeroDivision)
    ensures FirstMissing(RequiredColumns, table.columns).None? && chunkSize != 0 ==>
      r == Success(RunOutputs(table, chunkSize, render, summarize))
  {
    var checked := CheckColumns(table.columns);
    if checked.Failure? {
      return Failure(MissingColumn(checked.error));
    }
    if chunkSize == 0 {
      return Failure(ZeroDivision);
    }
    var columns := checked.value;
    var batches := ProcessBatches(table.rows, columns, chunkSize, render, summarize);
    var masterSummary := summarize(MasterPrompt(batches));
    var assetSummary := SummarizeAssets(table.rows);
    return Success(Outputs(batches, masterSummary, assetSummary));
  }

  /** One artifact per whole batch, numbered 1, 2, ... without gaps, in processing order. */
  lemma BatchNumbering(
    rows: seq<Record>, columns: seq<string>, chunkSize: int,
    render: (seq<string>, seq<Record>) -> string, summarize: string -> string)
    requires chunkSize != 0
    ensures |BatchRecords(rows, columns, chunkSize, render, summarize)| == BatchCount(|rows|, chunkSize)
    ensures forall k :: 0 <= k < |BatchRecords(rows, columns, chunkSize, render, summarize)| ==>
      BatchRecords(rows, columns, chunkSize, render, summarize)[k].batchNumber == k + 1
    ensures forall j, k :: 0 <= j < k < |BatchRecords(rows, columns, chunkSize, render, summarize)| ==>
      BatchRecords(rows, columns, chunkSize, render, summarize)[j].batchNumber <
      BatchRecords(rows, columns, chunkSize, render, summarize)[k].batchNumber
  {
  }

  /** Each failure the grouping of batch `k` lists is the description of one of that batch's rows. */
  lemma BatchGroupFromOwnRows(rows: seq<Record>, chunkSize: int, k: nat)
    requires chunkSize > 0 && k < BatchCount(|rows|, chunkSize)
    ensures var details := GroupBatch(Batches(rows, chunkSize)[k]);
      forall g, f :: 0 <= g < |details| && f in details[g].failures ==>
        exists r ::
          && k * chunkSize <= r < k * chunkSize + chunkSize
          && r < BatchCount(|rows|, chunkSize) * chunkSize
          && rows[r].assetId == Some(details[g].assetId) && rows[r].failureDescription == Some(f)
  {
    var batch := Batches(rows, chunkSize)[k];
    var details := GroupBatch(batch);
    BatchAt(rows, chunkSize, k);
    var lo, hi := k * chunkSize, BatchCount(|rows|, chunkSize) * chunkSize;
    assert |batch| == chunkSize && lo + chunkSize <= hi <= |rows|;
    forall g, f | 0 <= g < |details| && f in details[g].failures
      ensures exists r ::
                && lo <= r < lo + chunkSize
                && r < hi
                && rows[r].assetId == Some(details[g].assetId) && rows[r].failureDescription == Some(f)
    {
      GroupBatchFailures(batch, g);
      var i :| 0 <= i < |batch| && batch[i].assetId == Some(details[g].assetId) && batch[i].failureDescription == Some(f);
      assert batch[i] == rows[lo + i];
    }
  }

  /**
   * Everything batch `k` reports comes from its own rows: each listed
   * failure of each listed asset is the description of a row at a position
   * in `[k * chunk_size, k * chunk_size + chunk_size)`, which lies before the
   * dropped remainder.
   */
  lemma BatchDetailsFromOwnRows(
    rows: seq<Record>, columns: seq<string>, chunkSize: int,
    render: (seq<string>, seq<Record>) -> string, summarize: string -> string, k: nat)
    requires chunkSize > 0 && k < BatchCount(|rows|, chunkSize)
    ensures var details := BatchRecords(rows, columns, chunkSize, render, summarize)[k].assetsFailureDetails;
      forall g, f :: 0 <= g < |details| && f in details[g].failures ==>
        exists r ::
          && k * chunkSize <= r < k * chunkSize + chunkSize
          && r < BatchCount(|rows|, chunkSize) * chunkSize
          && rows[r].assetId == Some(details[g].assetId) && rows[r].failureDescription == Some(f)
  {
    assert BatchRecords(rows, columns, chunkSize, render, summarize)[k].assetsFailureDetails
      == GroupBatch(Batches(rows, chunkSize)[k]);
    BatchGroupFromOwnRows(rows, chunkSize, k);
  }

  /**
   * A row of the remainder belongs to no batch, yet the asset statistics
   * still count it under its asset.
   */
  lemma RemainderOnlyInStats(rows: seq<Record>, chunkSize: int, r: nat)
    requires chunkSize > 0 && BatchCount(|rows|, chunkSize) * chunkSize <= r < |rows|
    requires rows[r].assetId.Some?
    ensures forall k :: 0 <= k < |Batches(rows, chunkSize)| ==>
      k * chunkSize + |Batches(rows, chunkSize)[k]| <= r
    ensures exists i ::
              && 0 <= i < |AssetStats(rows)|
              && AssetStats(rows)[i].assetId == rows[r].assetId.value
              && (rows[r].failureDescription.Some? ==>
                    r in FailingRows(rows, rows[r].assetId.value) &&
                    rows[r].failureDescription.value in AssetStats(rows)[i].commonFailures)
  {
    forall k | 0 <= k < |Batches(rows, chunkSize)|
      ensures k * chunkSize + |Batches(rows, chunkSize)[k]| <= r
    {
      BatchAt(rows, chunkSize, k);
      BatchFits(|rows|, chunkSize, k);
    }
    AssetStatsCoverRow(rows, r);
  }

  /**
   * The master text holds the batch summaries in batch order: entry `k`
   * is labelled with batch number `k + 1` and carries that batch's summary.
   */
  lemma MasterTextInBatchOrder(
    rows: seq<Record>, columns: seq<string>, chunkSize: int,
    render: (seq<string>, seq<Record>) -> string, summarize: string -> string, k: nat)
    requires chunkSize != 0 && k < BatchCount(|rows|, chunkSize)
    ensures var batches := BatchRecords(rows, columns, chunkSize, render, summarize);
      var o, entry := Offset(Labels(batches), BatchSeparator, k), Labels(batches)[k];
      && o + |entry| <= |MasterText(batches)|
      && MasterText(batches)[o..o + |entry|] ==
           Label(k + 1, summarize(BatchPrompt(render(columns, Batches(rows, chunkSize)[k]))))
  {
    var batches := BatchRecords(rows, columns, chunkSize, render, summarize);
    assert batches[k] == BatchRecord(rows, columns, chunkSize, k, render, summarize);
    assert Labels(batches)[k] == Label(k + 1, batches[k].summary);
    MasterTextAt(batches, k);
  }
}
