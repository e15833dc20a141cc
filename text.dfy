/** Python's `sep.join(parts)` and where each part lands in the result. */
module Text {

  function Join(parts: seq<string>, sep: string): string
  {
    if |parts| == 0 then ""
    else if |parts| == 1 then parts[0]
    else parts[0] + sep + Join(parts[1..], sep)
  }

  /** Where `parts[k]` starts in the joined text: every earlier part and one separator after each. */
  function Offset(parts: seq<string>, sep: string, k: nat): nat
    requires k <= |parts|
  {
    if k == 0 then 0 else |parts[0]| + |sep| + Offset(parts[1..], sep, k - 1)
  }

  lemma SliceAfterPrefix(a: string, b: string, x: nat, y: nat)
    requires x <= y <= |b|
    ensures (a + b)[|a| + x..|a| + y] == b[x..y]
  {
    assert forall i :: 0 <= i < y - x ==> (a + b)[|a| + x..|a| + y][i] == b[x..y][i];
  }

  lemma SliceBeforeSuffix(a: string, b: string, x: nat, y: nat)
    requires x <= y <= |a|
    ensures (a + b)[x..y] == a[x..y]
  {
    assert forall i :: 0 <= i < y - x ==> (a + b)[x..y][i] == a[x..y][i];
  }

  lemma JoinCons(parts: seq<string>, sep: string)
    requires |parts| > 1
    ensures Join(parts, sep) == (parts[0] + sep) + Join(parts[1..], sep)
    ensures |parts[0] + sep| == |parts[0]| + |sep|
  {
  }

  lemma {:induction false} OffsetNext(parts: seq<string>, sep: string, k: nat)
    requires k < |parts|
    ensures Offset(parts, sep, k + 1) == Offset(parts, sep, k) + |parts[k]| + |sep|
  {
    if k > 0 {
      OffsetNext(parts[1..], sep, k - 1);
    }
  }

  /** Part `k` sits at its offset; after the last part the text ends. */
  lemma {:induction false} JoinPart(parts: seq<string>, sep: string, k: nat)
    requires k < |parts|
    ensures Offset(parts, sep, k) + |parts[k]| <= |Join(parts, sep)|
    ensures Join(parts, sep)[Offset(parts, sep, k)..Offset(parts, sep, k) + |parts[k]|] == parts[k]
    ensures k + 1 == |parts| ==> |Join(parts, sep)| == Offset(parts, sep, k) + |parts[k]|
  {
    if |parts| == 1 {
      assert Join(parts, sep) == parts[0];
    } else if k == 0 {
      JoinCons(parts, sep);
      assert Join(parts, sep)[..|parts[0]|] == parts[0];
    } else {
      var rest := parts[1..];
      JoinCons(parts, sep);
      JoinPart(rest, sep, k - 1);
      var o := Offset(rest, sep, k - 1);
      assert rest[k - 1] == parts[k];
      SliceAfterPrefix(parts[0] + sep, Join(rest, sep), o, o + |parts[k]|);
    }
  }

  /** Between part `k` and part `k + 1` stands exactly one separator. */
  lemma {:induction false} JoinSeparator(parts: seq<string>, sep: string, k: nat)
    requires k + 1 < |parts|
    ensures Offset(parts, sep, k) + |parts[k]| + |sep| <= |Join(parts, sep)|
    ensures Join(parts, sep)[Offset(parts, sep, k) + |parts[k]|..Offset(parts, sep, k) + |parts[k]| + |sep|] == sep
  {
    var rest, head := parts[1..], parts[0] + sep;
    JoinCons(parts, sep);
    if k == 0 {
      SliceBeforeSuffix(head, Join(rest, sep), |parts[0]|, |head|);
      assert head[|parts[0]|..|head|] == sep;
    } else {
      JoinSeparator(rest, sep, k - 1);
      var o := Offset(rest, sep, k - 1) + |rest[k - 1]|;
      assert Offset(parts, sep, k) + |parts[k]| == |head| + o;
      SliceAfterPrefix(head, Join(rest, sep), o, o + |sep|);
    }
  }

  /**
   * The joined text is the parts in order with one separator between
   * neighbours and nothing else: part `k` sits at `Offset(parts, sep, k)`,
   * a separator follows it unless it is the last part, and the text ends
   * with the last part.
   */
  lemma JoinAt(parts: seq<string>, sep: string, k: nat)
    requires k < |parts|
    ensures Offset(parts, sep, k) + |parts[k]| <= |Join(parts, sep)|
    ensures Join(parts, sep)[Offset(parts, sep, k)..Offset(parts, sep, k) + |parts[k]|] == parts[k]
    ensures k + 1 < |parts| ==>
      Offset(parts, sep, k + 1) == Offset(parts, sep, k) + |parts[k]| + |sep| &&
      Offset(parts, sep, k + 1) <= |Join(parts, sep)| &&
      Join(parts, sep)[Offset(parts, sep, k) + |parts[k]|..Offset(parts, sep, k + 1)] == sep
    ensures k + 1 == |parts| ==> |Join(parts, sep)| == Offset(parts, sep, k) + |parts[k]|
  {
    JoinPart(parts, sep, k);
    if k + 1 < |parts| {
      OffsetNext(parts, sep, k);
      JoinSeparator(parts, sep, k);
    }
  }
}
