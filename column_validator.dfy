/** The required-column check and the column projection of the run. */
module ColumnValidator {
  import opened Wrappers

  const RequiredColumns: seq<string> := ["Work Order ID", "Asset ID", "Failure Description", "Resolution"]
  const OptionalColumns: seq<string> := ["Technician Comments"]

  /** The text of the exception raised for a missing required column. */
  function MissingMessage(column: string): string
  {
    "Missing required column: " + column
  }

  /** The first of `wanted`, in order, that is not among `present`. */
  function FirstMissing(wanted: seq<string>, present: seq<string>): (r: Option<string>)
    ensures r.None? <==> forall c :: c in wanted ==> c in present
    ensures r.Some? ==> r.value in wanted && r.value !in present
  {
    if wanted == [] then None
    else if wanted[0] !in present then Some(wanted[0])
    else FirstMissing(wanted[1..], present)
  }

  /** The missing column reported is the earliest one: all before it are present. */
  lemma {:induction false} FirstMissingIsFirst(wanted: seq<string>, present: seq<string>)
    requires FirstMissing(wanted, present).Some?
    ensures exists i ::
              && 0 <= i < |wanted|
              && wanted[i] == FirstMissing(wanted, present).value
              && forall j :: 0 <= j < i ==> wanted[j] in present
  {
    if wanted[0] in present {
      FirstMissingIsFirst(wanted[1..], present);
      var i :| 0 <= i < |wanted[1..]| && wanted[1..][i] == FirstMissing(wanted, present).value &&
        forall j :: 0 <= j < i ==> wanted[1..][j] in present;
      assert wanted[i + 1] == FirstMissing(wanted, present).value;
      forall j | 0 <= j < i + 1 ensures wanted[j] in present {
        if j > 0 {
          assert wanted[j] == wanted[1..][j - 1];
        }
      }
    } else {
      assert wanted[0] == FirstMissing(wanted, present).value;
    }
  }

  /** Validation looks only at whether each wanted column is present. */
  lemma {:induction false} FirstMissingDependsOnWanted(wanted: seq<string>, p1: seq<string>, p2: seq<string>)
    requires forall c :: c in wanted ==> (c in p1 <==> c in p2)
    ensures FirstMissing(wanted, p1) == FirstMissing(wanted, p2)
  {
    if wanted != [] {
      FirstMissingDependsOnWanted(wanted[1..], p1, p2);
    }
  }

  /** Whether `Technician Comments` is present never changes the verdict. */
  lemma OptionalColumnIrrelevant(present: seq<string>)
    ensures FirstMissing(RequiredColumns, present + OptionalColumns) == FirstMissing(RequiredColumns, present)
  {
    FirstMissingDependsOnWanted(RequiredColumns, present + OptionalColumns, present);
  }

  /** The members of `columns` that are among `present`, in the order of `columns`. */
  function Keep(columns: seq<string>, present: seq<string>): seq<string>
  {
    if columns == [] then []
    else (if columns[0] in present then [columns[0]] else []) + Keep(columns[1..], present)
  }

  /** `columns_to_use`: the required columns, then the optional ones the table has. */
  function ProjectedColumns(present: seq<string>): (cols: seq<string>)
    ensures cols == RequiredColumns + if "Technician Comments" in present then ["Technician Comments"] else []
  {
    assert OptionalColumns[0] == "Technician Comments" && OptionalColumns[1..] == [];
    assert Keep(OptionalColumns, present) == if "Technician Comments" in present then ["Technician Comments"] else [];
    RequiredColumns + Keep(OptionalColumns, present)
  }

  /**
   * The loop over the required columns: fails with the message for the first
   * missing one, otherwise yields the projected column list.
   */
  method CheckColumns(present: seq<string>) returns (r: Result<seq<string>, string>)
    ensures FirstMissing(RequiredColumns, present).Some? ==>
      r == Failure(MissingMessage(FirstMissing(RequiredColumns, present).value))
    ensures FirstMissing(RequiredColumns, present).None? ==> r == Success(ProjectedColumns(present))
  {
    var i := 0;
    while i < |RequiredColumns|
      invariant 0 <= i <= |RequiredColumns|
      invariant FirstMissing(RequiredColumns, present) == FirstMissing(RequiredColumns[i..], present)
    {
      var column := RequiredColumns[i];
      if column !in present {
        return Failure(MissingMessage(column));
      }
      assert RequiredColumns[i..][1..] == RequiredColumns[i + 1..];
      i := i + 1;
    }
    return Success(ProjectedColumns(present));
  }
}
