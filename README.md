# Work order summarizer: a Dafny model of its data pipeline

`work_order_summarizer.py` reads a table of technician work orders. It checks
that the required columns are there. It cuts the rows into fixed-size
batches and drops a trailing partial batch. For each batch it lists the
distinct failure descriptions of every asset, asks a language model to
summarize the batch, and records the batch number, the asset failure
details and the summary. It then joins the labelled batch summaries into
one master prompt and asks for a master summary. Finally it tallies, over
the whole table, each asset's failure count and its set of distinct failures.

This project models that pipeline and proves what it delivers:

- `ColumnValidator`: the required-column check and the projected column list.
- `Batcher`: Python floor division for the batch count, and the batch slices.
- `AssetGrouper`: pandas `groupby('Asset ID')` with its defaults. Groups
  come in sorted key order and null keys are dropped. It covers the
  per-batch `dropna().unique()` failure lists and the whole-table
  statistics.
- `PromptBuilder`: the batch prompt, the `"Batch N Summary: s"` labels, their
  `"\n\n"` join and the master prompt.
- `Summarizer`: the batch loop, and the run as a whole with its two error
  exits, plus the lemmas that tie the stages together.
- `StringOrder`, `Sequences`, `Decimal` and `Text`: supporting models.
  They cover Python's string order, `unique()`/`set()`, the decimal
  numeral of an `int` in an f-string, and `str.join`.

Cells are `Option<string>`, where `None` is a missing value (NaN). The
language model is a parameter `summarize: string -> string`, fixed for a run
together with its model name and temperature. pandas'
`to_string(index=False)` of a batch projected to the used columns is the
parameter `render`.

The chunk size is an unbounded `int`, as Python's is. A chunk size of 0 makes
line 26 raise `ZeroDivisionError` once validation has passed, and the
model returns the error `ZeroDivision` there. For a negative chunk size,
floor division makes `num_chunks` zero or negative (`25 // -10 == -3`), so
`range(num_chunks)` is empty and the run produces no batches. Both cases are modelled rather than excluded by a precondition.
The group order follows the code: pandas' default `sort=True` orders groups
by key. It is not the first-seen order of identifiers that a reimplementation
might choose.

## Model

| member | source | states |
|---|---|---|
| ColumnValidator.CheckColumns | work_order_summarizer.py:18-25 | The run fails with "Missing required column: c" for the first required column c that is absent, and otherwise yields the projected column list. |
| ColumnValidator.FirstMissing | work_order_summarizer.py:21-23 | No column is reported exactly when every required column is present. A reported column is required and absent. |
| ColumnValidator.FirstMissingIsFirst | work_order_summarizer.py:21-23 | Every required column before the reported one is present, so the message names the first missing column in the given order. |
| ColumnValidator.FirstMissingDependsOnWanted | work_order_summarizer.py:21-23 | Validation depends only on whether each required column is present. |
| ColumnValidator.OptionalColumnIrrelevant | work_order_summarizer.py:19-23 | Adding `Technician Comments` to the table never changes the validation verdict. |
| ColumnValidator.ProjectedColumns | work_order_summarizer.py:25 | The used columns are the four required columns in order, followed by `Technician Comments` if and only if the table has it. |
| Batcher.FloorDiv | work_order_summarizer.py:26 | Python's `//`: the quotient is the floor of `a / b` for either sign of the divisor, `q*b <= a < q*b + b` for a positive one and `q*b >= a > q*b + b` for a negative one. A non-negative number over a negative divisor gives at most 0. |
| Batcher.BatchCount | work_order_summarizer.py:26-29 | The number of passes of `range(len(df) // chunk_size)`: `n / cs` for a positive chunk size, and 0 for a negative one, where `num_chunks` itself is at most 0. |
| Batcher.BatchCountBounds | work_order_summarizer.py:26 | `num_chunks * cs <= n < num_chunks * cs + cs`: whole batches fit, and fewer than `cs` rows remain. |
| Batcher.BatchFits | work_order_summarizer.py:29-31 | The end of every processed batch lies within the covered prefix of the table. |
| Batcher.BatchAt | work_order_summarizer.py:29-32 | Batch i is exactly rows `[i*cs, i*cs+cs)` and has `cs` rows. |
| Batcher.ConcatPrefix | work_order_summarizer.py:29-32 | The first k batches laid end to end are exactly the first `k*cs` rows. |
| Batcher.BatchesPartitionPrefix | work_order_summarizer.py:26-32 | All batches laid end to end are exactly the rows before `num_chunks*cs`: they are contiguous, disjoint and in row order, and fewer than `cs` rows are dropped. |
| StringOrder.LessIrreflexive | work_order_summarizer.py:35 | The group-key order is irreflexive. |
| StringOrder.LessTransitive | work_order_summarizer.py:35 | The group-key order is transitive. |
| StringOrder.LessTotal | work_order_summarizer.py:35 | Any two distinct keys are ordered one way or the other. |
| StringOrder.StrictlyIncreasingDistinct | work_order_summarizer.py:35 | Keys in strictly increasing order are distinct. |
| StringOrder.InsertSpec | work_order_summarizer.py:35 | Inserting a key into a sorted key list keeps it sorted and adds exactly that key. |
| AssetGrouper.AssetKeysSpec | work_order_summarizer.py:35 | The group keys are sorted and are exactly the non-null asset IDs that occur. |
| AssetGrouper.FailuresMembers | work_order_summarizer.py:36 | After `dropna()`, an asset's failure list holds exactly the non-null descriptions of its rows. |
| AssetGrouper.FailuresCount | work_order_summarizer.py:90 | The non-null failure list of an asset has one entry per row of that asset with a non-null description. |
| Sequences.DedupMembers | work_order_summarizer.py:36 | `unique()` keeps exactly the elements of its input. |
| Sequences.DedupDistinct | work_order_summarizer.py:36 | `unique()` leaves no duplicates. |
| Sequences.DedupFirstSeen | work_order_summarizer.py:36 | `unique()` lists elements in the order of their first occurrence. |
| Sequences.DedupLength | work_order_summarizer.py:36 | `unique()` never lengthens its input. |
| Sequences.SetOfSize | work_order_summarizer.py:91 | `set()` of a list has at most as many elements as the list. |
| AssetGrouper.GroupFailures | work_order_summarizer.py:34-40 | The grouping loop yields one entry per group key, with the key and its deduplicated failure list. |
| AssetGrouper.GroupBatchAssets | work_order_summarizer.py:35-40 | The asset failure details name exactly the non-null asset IDs of the batch, each once, in sorted order. |
| AssetGrouper.GroupBatchFailures | work_order_summarizer.py:35-36 | An asset's listed failures are distinct. They are exactly the non-null descriptions of that asset's rows, in first-seen order. |
| AssetGrouper.SummarizeAssets | work_order_summarizer.py:88-96 | The statistics loop yields, per group key, the failure count and the set of distinct failures. |
| AssetGrouper.AssetStatsAssets | work_order_summarizer.py:89 | The statistics name exactly the non-null asset IDs of the table, each once, in sorted order. |
| AssetGrouper.AssetStatsCounts | work_order_summarizer.py:90-95 | `total_failures` counts the asset's rows with a non-null description, duplicates included. `common_failures` is exactly those descriptions, so it is no larger than `total_failures`. |
| AssetGrouper.AssetStatsCoverRow | work_order_summarizer.py:88-96 | Every row with an asset ID is counted under that asset, and its failure, if any, is among the asset's common failures. |
| Decimal.DigitChar | work_order_summarizer.py:73 | A digit value maps to the character of that digit. |
| Decimal.Str | work_order_summarizer.py:73 | The numeral of a batch number is a non-empty run of digits with no leading zero. |
| Decimal.ParseStr | work_order_summarizer.py:73 | The numeral reads back as the number it was made from. |
| Decimal.StrInjective | work_order_summarizer.py:73 | Different batch numbers have different numerals. |
| PromptBuilder.BatchPrompt | work_order_summarizer.py:42-51 | The batch prompt is the fixed introduction, the rendered batch unchanged, then the fixed instructions, and the table can be cut back out of it. |
| PromptBuilder.LabelInjective | work_order_summarizer.py:73 | A label `"Batch N Summary: s"` determines both its batch number and its summary. |
| Text.JoinAt | work_order_summarizer.py:73 | In `sep.join(parts)`, every part sits at its offset, one separator follows every part but the last, and the text ends with the last part. |
| PromptBuilder.MasterTextAt | work_order_summarizer.py:73 | In the master text, each batch's label sits at its offset, `"\n\n"` follows it unless it is the last, and the text holds nothing else. |
| PromptBuilder.MasterPrompt | work_order_summarizer.py:74-79 | The master prompt is the fixed preamble followed by the master text. |
| Summarizer.ProcessBatch | work_order_summarizer.py:29-61 | One pass of the batch loop builds the record of that batch: its 1-based number, the grouping of its own rows, and the summary of its prompt. |
| Summarizer.ProcessBatches | work_order_summarizer.py:27-61 | The batch loop appends, in order, one record per whole batch. |
| Summarizer.Run | work_order_summarizer.py:18-96 | A missing column stops the run with the message for the first missing one. A zero chunk size then stops it at the division. Otherwise it yields the batch records, the summary of the master prompt and the whole-table statistics. |
| Summarizer.BatchNumbering | work_order_summarizer.py:55-61 | There are `num_chunks` records, and record k has batch number k+1, so the numbering is 1-based, gap-free and strictly increasing. |
| Summarizer.BatchGroupFromOwnRows | work_order_summarizer.py:30-40 | Every failure in batch k's grouping is the description of a row of batch k with that asset ID. |
| Summarizer.BatchDetailsFromOwnRows | work_order_summarizer.py:30-61 | Every failure in batch k's record comes from a row at a position in `[k*cs, k*cs+cs)`, which lies before the dropped remainder. |
| Summarizer.RemainderOnlyInStats | work_order_summarizer.py:26-96 | A row at or after `num_chunks*cs` lies after the end of every batch (lines 26-32). The asset statistics still count it under its asset, with its failure among the common failures (lines 88-96). |
| Summarizer.MasterTextInBatchOrder | work_order_summarizer.py:73-79 | Entry k of the master text is `"Batch k+1 Summary: "` followed by the model's summary of batch k's prompt. |

## Left out

- `summarize_with_ollama` (lines 7-10) is the parameter `summarize`. The
  shell command string and its quoting are not modelled. `strip()` counts as
  part of the model's reply. Failures of the external process are not
  modelled.
- `summarize` is a function, so it gives one fixed reply per prompt. The
  model does not capture the sampling of the language model, where two equal
  prompts can get different replies. No property proved here relies on equal
  replies.
- The model name and temperature are not parameters of their own: they are
  fixed inside `summarize` for a run, so floating point is not modelled.
- `to_string(index=False)` (line 44) is the parameter `render`. pandas' table
  layout is not modelled.
- `pd.read_csv`, `os.makedirs`, every file write with `json.dump` and every
  `print` (lines 14, 16, 63-71, 83-86, 98-101) are I/O. The model returns the
  values that would be written.
- Argument parsing (lines 103-111) is not modelled.
- AssetGrouper.AssetStats: `common_failures` is a set, because the iteration
  order of `list(set(...))` is unspecified in Python.
- Cell values are strings or missing. Asset IDs of other types, mixed-type
  group keys and pandas' reading of numbers from CSV are not modelled. Keys
  are ordered as Python orders `str`, element by element.
- Partial output on a fatal error is not modelled. That is the per-batch
  files already written before a later batch's model call fails.
