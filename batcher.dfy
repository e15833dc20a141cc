/**
 * Splitting the table into batches: `num_chunks = len(df) // chunk_size`
 * batches of `chunk_size` consecutive rows each; rows after the last whole
 * batch are never batched.
 */
module Batcher {
  import opened WorkOrders

  /** Python's `a // b`: the quotient rounded towards negative infinity. */
  function FloorDiv(a: int, b: int): (q: int)
    requires b != 0
    ensures b > 0 ==> q * b <= a < q * b + b
    ensures b < 0 ==> q * b >= a > q * b + b
    ensures b < 0 && a >= 0 ==> q <= 0
  {
    if b > 0 then a / b else (-a) / (-b)
  }

  /**
   * How many batches `range(len(df) // chunk_size)` runs over: the number of
   * whole batches for a positive size, none for a negative one.
   */
  function BatchCount(n: nat, chunkSize: int): (k: nat)
    requires chunkSize != 0
    ensures chunkSize > 0 ==> k == n / chunkSize
    ensures chunkSize < 0 ==> k == 0
  {
    var q := FloorDiv(n, chunkSize);
    if q > 0 then q else 0
  }

  /**
   * The batches take up as many whole multiples of `chunk_size` as fit; the
   * rows left over, fewer than `chunk_size`, form the dropped remainder.
   */
  lemma BatchCountBounds(n: nat, chunkSize: int)
    requires chunkSize > 0
    ensures BatchCount(n, chunkSize) * chunkSize <= n < BatchCount(n, chunkSize) * chunkSize + chunkSize
  {
    var q := FloorDiv(n, chunkSize);
    assert q == BatchCount(n, chunkSize);
  }

  lemma MulMonotone(a: int, b: int, c: int)
    requires a <= b && c >= 0
    ensures a * c <= b * c
  {
  }

  lemma BatchFits(n: nat, chunkSize: int, i: nat)
    requires chunkSize > 0 && i < BatchCount(n, chunkSize)
    ensures i * chunkSize + chunkSize <= BatchCount(n, chunkSize) * chunkSize <= n
  {
    var k := BatchCount(n, chunkSize);
    BatchCountBounds(n, chunkSize);
    MulMonotone(i + 1, k, chunkSize);
    assert (i + 1) * chunkSize == i * chunkSize + chunkSize;
  }

  /** `df.iloc[start:end]` for batch `i`: rows `[i * chunk_size, i * chunk_size + chunk_size)`. */
  function Slice(rows: seq<Record>, chunkSize: int, i: nat): seq<Record>
    requires chunkSize > 0 && i < BatchCount(|rows|, chunkSize)
  {
    BatchFits(|rows|, chunkSize, i);
    rows[i * chunkSize..i * chunkSize + chunkSize]
  }

  /** The batches the loop visits, in order. */
  function Batches(rows: seq<Record>, chunkSize: int): seq<seq<Record>>
    requires chunkSize != 0
  {
    var k := BatchCount(|rows|, chunkSize);
    seq(k, i requires 0 <= i < k => Slice(rows, chunkSize, i))
  }

  /**
   * Batch `i` is rows `[i * chunk_size, i * chunk_size + chunk_size)` of the
   * table, a full `chunk_size` rows, all before the dropped remainder.
   */
  lemma BatchAt(rows: seq<Record>, chunkSize: int, i: nat)
    requires chunkSize > 0 && i < BatchCount(|rows|, chunkSize)
    ensures i < |Batches(rows, chunkSize)|
    ensures i * chunkSize + chunkSize <= BatchCount(|rows|, chunkSize) * chunkSize <= |rows|
    ensures Batches(rows, chunkSize)[i] == rows[i * chunkSize..i * chunkSize + chunkSize]
    ensures |Batches(rows, chunkSize)[i]| == chunkSize
  {
    BatchFits(|rows|, chunkSize, i);
    assert Batches(rows, chunkSize)[i] == Slice(rows, chunkSize, i);
  }

  /** The rows of `bss` laid end to end. */
  function Concat(bss: seq<seq<Record>>): seq<Record>
  {
    if bss == [] then [] else Concat(bss[..|bss| - 1]) + bss[|bss| - 1]
  }

  lemma MulStep(k: nat, c: int)
    requires k > 0
    ensures (k - 1) * c + c == k * c
  {
  }

  lemma {:induction false} ConcatPrefix(rows: seq<Record>, chunkSize: int, k: nat)
    requires chunkSize > 0 && k <= BatchCount(|rows|, chunkSize)
    ensures k * chunkSize <= |rows|
    ensures Concat(Batches(rows, chunkSize)[..k]) == rows[..k * chunkSize]
  {
    var bs := Batches(rows, chunkSize);
    if k == 0 {
      assert bs[..0] == [];
    } else {
      ConcatPrefix(rows, chunkSize, k - 1);
      BatchAt(rows, chunkSize, k - 1);
      var lo, hi := (k - 1) * chunkSize, k * chunkSize;
      MulStep(k, chunkSize);
      assert lo + chunkSize == hi;
      assert bs[..k][..k - 1] == bs[..k - 1] && bs[..k][k - 1] == rows[lo..hi];
      assert rows[..hi] == rows[..lo] + rows[lo..hi];
    }
  }

  /**
   * The batches, laid end to end, are exactly the table's first
   * `num_chunks * chunk_size` rows: contiguous, in row order, each row once,
   * and what remains (fewer than `chunk_size` rows) is in no batch.
   */
  lemma BatchesPartitionPrefix(rows: seq<Record>, chunkSize: int)
    requires chunkSize > 0
    ensures Concat(Batches(rows, chunkSize)) == rows[..BatchCount(|rows|, chunkSize) * chunkSize]
    ensures |rows| - BatchCount(|rows|, chunkSize) * chunkSize < chunkSize
  {
    var bs := Batches(rows, chunkSize);
    BatchCountBounds(|rows|, chunkSize);
    ConcatPrefix(rows, chunkSize, |bs|);
    assert bs[..|bs|] == bs;
  }
}
