/**
 * The two prompts of a run: the batch prompt around the rendered rows of a
 * batch, and the master prompt over all batch summaries.
 */
module PromptBuilder {
  import opened WorkOrders
  import opened Decimal
  import opened Text

  const BatchIntro: string :=
    "Given these technician work orders with asset IDs, failure descriptions, resolutions, " +
    "and technician comments if present:\n\n"

  const BatchInstructions: string :=
    "\n\nFor each asset:\n" +
    "- Summarize its failure patterns.\n" +
    "- Predict in how many days it might fail again (only if possible from data, between 30-60 days max).\n" +
    "- If data is insufficient to predict failure, explicitly state that.\n" +
    "- Provide actionable recommendations to avoid future failures.\n" +
    "Do not hallucinate or estimate beyond the data provided."

  const MasterPreamble: string :=
    "Here are the summaries of technician work orders batches. " +
    "Generate a comprehensive master summary that captures trends, recurring asset failures, " +
    "and preventive maintenance suggestions based on the data provided only.\n\n"

  const BatchSeparator: string := "\n\n"

  /**
   * The prompt for one batch, around `table`, the batch's rows as pandas
   * renders them: the table is embedded unchanged between the fixed
   * introduction and the fixed instructions, and can be read back out.
   */
  function BatchPrompt(table: string): (p: string)
    ensures |p| == |BatchIntro| + |table| + |BatchInstructions|
    ensures p[..|BatchIntro|] == BatchIntro
    ensures p[|BatchIntro|..|BatchIntro| + |table|] == table
    ensures p[|BatchIntro| + |table|..] == BatchInstructions
  {
    BatchIntro + table + BatchInstructions
  }

  /** `f"Batch {b['batch_number']} Summary: {b['summary']}"`. */
  function Label(batchNumber: nat, summary: string): string
  {
    "Batch " + Str(batchNumber) + " Summary: " + summary
  }

  /** The length of the run of decimal digits that `s` starts with. */
  function DigitRun(s: string): nat
  {
    if s == [] || !IsDigit(s[0]) then 0 else 1 + DigitRun(s[1..])
  }

  lemma {:induction false} DigitRunOfNumeral(d: string, rest: string)
    requires forall i :: 0 <= i < |d| ==> IsDigit(d[i])
    requires rest != [] && !IsDigit(rest[0])
    ensures DigitRun(d + rest) == |d|
  {
    if d != [] {
      assert (d + rest)[1..] == d[1..] + rest;
      DigitRunOfNumeral(d[1..], rest);
    }
  }

  /** A numeral followed by a non-digit splits in one way only. */
  lemma NumeralSplit(d1: string, r1: string, d2: string, r2: string)
    requires forall i :: 0 <= i < |d1| ==> IsDigit(d1[i])
    requires forall i :: 0 <= i < |d2| ==> IsDigit(d2[i])
    requires r1 != [] && !IsDigit(r1[0]) && r2 != [] && !IsDigit(r2[0])
    requires d1 + r1 == d2 + r2
    ensures d1 == d2 && r1 == r2
  {
    DigitRunOfNumeral(d1, r1);
    DigitRunOfNumeral(d2, r2);
    assert d1 == (d1 + r1)[..|d1|] && d2 == (d2 + r2)[..|d2|];
    assert r1 == (d1 + r1)[|d1|..] && r2 == (d2 + r2)[|d2|..];
  }

  /** A label determines its batch number and its summary. */
  lemma LabelInjective(n1: nat, s1: string, n2: nat, s2: string)
    requires Label(n1, s1) == Label(n2, s2)
    ensures n1 == n2 && s1 == s2
  {
    var r1, r2 := " Summary: " + s1, " Summary: " + s2;
    var t1, t2 := Str(n1) + r1, Str(n2) + r2;
    assert Label(n1, s1) == "Batch " + t1 && Label(n2, s2) == "Batch " + t2;
    assert t1 == Label(n1, s1)[6..] == t2;
    NumeralSplit(Str(n1), r1, Str(n2), r2);
    StrInjective(n1, n2);
    assert s1 == r1[10..] && s2 == r2[10..];
  }

  /** The labelled summaries, one per batch and in batch order. */
  function Labels(batches: seq<BatchSummary>): seq<string>
  {
    seq(|batches|, i requires 0 <= i < |batches| => Label(batches[i].batchNumber, batches[i].summary))
  }

  /** `all_summaries_text`: the labelled summaries joined with blank lines. */
  function MasterText(batches: seq<BatchSummary>): string
  {
    Join(Labels(batches), BatchSeparator)
  }

  /**
   * The labelled summary of batch `k` sits at its offset in the master text,
   * followed by a blank line unless it is the last one; the text holds
   * nothing else.
   */
  lemma MasterTextAt(batches: seq<BatchSummary>, k: nat)
    requires k < |batches|
    ensures var labels, o := Labels(batches), Offset(Labels(batches), BatchSeparator, k);
      && o + |labels[k]| <= |MasterText(batches)|
      && MasterText(batches)[o..o + |labels[k]|] == Label(batches[k].batchNumber, batches[k].summary)
      && (k + 1 < |batches| ==>
            && o + |labels[k]| + 2 <= |MasterText(batches)|
            && MasterText(batches)[o + |labels[k]|..o + |labels[k]| + 2] == "\n\n")
      && (k + 1 == |batches| ==> |MasterText(batches)| == o + |labels[k]|)
  {
    JoinAt(Labels(batches), BatchSeparator, k);
  }

  /** The master prompt: the fixed preamble, then the master text. */
  function MasterPrompt(batches: seq<BatchSummary>): (p: string)
    ensures |p| == |MasterPreamble| + |MasterText(batches)|
    ensures p[..|MasterPreamble|] == MasterPreamble && p[|MasterPreamble|..] == MasterText(batches)
  {
    MasterPreamble + MasterText(batches)
  }
}
