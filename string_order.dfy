/**
 * Python's ordering of `str` values: lexicographic by code point, a proper
 * prefix sorting before its extensions. `DataFrame.groupby` sorts its group
 * keys by this order, and `Insert` keeps a list of keys sorted by it.
 */
module StringOrder {

  /** `a < b` on Python strings. */
  predicate Less(a: string, b: string)
    decreases |a|
  {
    if |a| == 0 then |b| > 0
    else if |b| == 0 then false
    else if a[0] == b[0] then Less(a[1..], b[1..])
    else a[0] < b[0]
  }

  lemma {:induction false} LessIrreflexive(a: string)
    ensures !Less(a, a)
    decreases |a|
  {
    if |a| > 0 {
      LessIrreflexive(a[1..]);
    }
  }

  lemma {:induction false} LessTransitive(a: string, b: string, c: string)
    requires Less(a, b) && Less(b, c)
    ensures Less(a, c)
    decreases |a|
  {
    if |a| > 0 && a[0] == b[0] && b[0] == c[0] {
      LessTransitive(a[1..], b[1..], c[1..]);
    }
  }

  lemma {:induction false} LessTotal(a: string, b: string)
    requires a != b
    ensures Less(a, b) || Less(b, a)
    decreases |a|
  {
    if |a| > 0 && |b| > 0 && a[0] == b[0] {
      assert a == [a[0]] + a[1..] && b == [b[0]] + b[1..];
      LessTotal(a[1..], b[1..]);
    }
  }

  /** Every earlier element is smaller than every later one. */
  predicate StrictlyIncreasing(xs: seq<string>)
  {
    forall i, j :: 0 <= i < j < |xs| ==> Less(xs[i], xs[j])
  }

  lemma StrictlyIncreasingDistinct(xs: seq<string>)
    requires StrictlyIncreasing(xs)
    ensures forall i, j :: 0 <= i < j < |xs| ==> xs[i] != xs[j]
  {
    forall i, j | 0 <= i < j < |xs| ensures xs[i] != xs[j] {
      LessIrreflexive(xs[i]);
    }
  }

  /** Adds `k` to a sorted list of distinct keys unless it is already there. */
  function Insert(xs: seq<string>, k: string): seq<string>
  {
    if xs == [] then [k]
    else if k == xs[0] then xs
    else if Less(k, xs[0]) then [k] + xs
    else [xs[0]] + Insert(xs[1..], k)
  }

  lemma {:induction false} InsertSpec(xs: seq<string>, k: string)
    requires StrictlyIncreasing(xs)
    ensures StrictlyIncreasing(Insert(xs, k))
    ensures forall x :: x in Insert(xs, k) <==> x in xs || x == k
  {
    if xs == [] || k == xs[0] {
    } else if Less(k, xs[0]) {
      forall j | 0 < j < |xs| ensures Less(k, xs[j]) {
        LessTransitive(k, xs[0], xs[j]);
      }
    } else {
      LessTotal(k, xs[0]);
      var rest := Insert(xs[1..], k);
      InsertSpec(xs[1..], k);
      assert forall x :: x in xs[1..] ==> Less(xs[0], x);
      assert forall j :: 0 <= j < |rest| ==> Less(xs[0], rest[j]) by {
        forall j | 0 <= j < |rest| ensures Less(xs[0], rest[j]) {
          assert rest[j] in rest;
        }
      }
      assert xs == [xs[0]] + xs[1..];
    }
  }
}
