/**
 * The data the pipeline reads and produces. A table is its list of column
 * names and its rows in file order; a cell that pandas reads as NaN is `None`.
 */
module WorkOrders {
  import opened Wrappers

  type Cell = Option<string>

  /** One work order: a row of the input CSV. */
  datatype Record = Record(
    workOrderId: Cell,
    assetId: Cell,
    failureDescription: Cell,
    resolution: Cell,
    technicianComments: Cell)

  /** The loaded DataFrame: the header's column names and the rows. */
  datatype Table = Table(columns: seq<string>, rows: seq<Record>)

  /** An `assets_failure_details` entry of a batch: an asset and its distinct failures. */
  datatype AssetFailures = AssetFailures(assetId: string, failures: seq<string>)

  /**
   * An `asset_summary` entry: an asset, how many of its rows carry a failure
   * description, and the distinct descriptions (`list(set(...))`, whose order
   * Python leaves unspecified, hence a set).
   */
  datatype AssetStat = AssetStat(assetId: string, totalFailures: nat, commonFailures: set<string>)

  /** One batch artifact: `{batch_number, assets_failure_details, summary}`. */
  datatype BatchSummary = BatchSummary(
    batchNumber: nat,
    assetsFailureDetails: seq<AssetFailures>,
    summary: string)
}
