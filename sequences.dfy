/**
 * Generic sequence operations behind the pandas calls of the pipeline:
 * `unique()` (first-seen de-duplication) and `set(...)`.
 */
module Sequences {

  /** No element occurs twice. */
  predicate Distinct<T(==)>(s: seq<T>)
  {
    forall i, j :: 0 <= i < j < |s| ==> s[i] != s[j]
  }

  /** The position of the first occurrence of `x` in `s`. */
  function FirstIndex<T(==)>(s: seq<T>, x: T): (r: nat)
    requires x in s
    ensures r < |s| && s[r] == x
    ensures forall j :: 0 <= j < r ==> s[j] != x
  {
    if s[0] == x then 0 else 1 + FirstIndex(s[1..], x)
  }

  lemma FirstIndexOfPrefix<T>(s: seq<T>, t: seq<T>, x: T)
    requires x in s
    ensures x in s + t && FirstIndex(s + t, x) == FirstIndex(s, x)
  {
    assert (s + t)[FirstIndex(s, x)] == x;
  }

  /**
   * The elements of `s` with repeats removed, each kept at its first
   * occurrence: what pandas `Series.unique()` returns.
   */
  function Dedup<T(==)>(s: seq<T>): seq<T>
  {
    if s == [] then []
    else
      var d := Dedup(s[..|s| - 1]);
      if s[|s| - 1] in d then d else d + [s[|s| - 1]]
  }

  lemma {:induction false} DedupMembers<T>(s: seq<T>)
    ensures forall x :: x in Dedup(s) ==> x in s
    ensures forall x :: x in s ==> x in Dedup(s)
  {
    if s != [] {
      var init := s[..|s| - 1];
      DedupMembers(init);
      assert s == init + [s[|s| - 1]];
    }
  }

  lemma {:induction false} DedupDistinct<T>(s: seq<T>)
    ensures Distinct(Dedup(s))
  {
    if s != [] {
      DedupDistinct(s[..|s| - 1]);
    }
  }

  lemma FirstIndexOfNew<T>(s: seq<T>, x: T)
    requires x !in s
    ensures x in s + [x] && FirstIndex(s + [x], x) == |s|
  {
    assert (s + [x])[|s|] == x;
  }

  /** The kept elements appear in the order of their first occurrences in `s`. */
  lemma {:induction false} DedupFirstSeen<T>(s: seq<T>)
    ensures forall i, j :: 0 <= i < j < |Dedup(s)| ==>
      Dedup(s)[i] in s && Dedup(s)[j] in s &&
      FirstIndex(s, Dedup(s)[i]) < FirstIndex(s, Dedup(s)[j])
  {
    if s == [] {
      assert Dedup(s) == [];
    } else {
      var init, last := s[..|s| - 1], s[|s| - 1];
      assert s == init + [last];
      DedupFirstSeen(init);
      DedupMembers(init);
      var d := Dedup(init);
      if last in d {
        assert Dedup(s) == d;
        forall i, j | 0 <= i < j < |Dedup(s)|
          ensures Dedup(s)[i] in s && Dedup(s)[j] in s && FirstIndex(s, Dedup(s)[i]) < FirstIndex(s, Dedup(s)[j])
        {
          assert d[i] in d && d[j] in d;
          FirstIndexOfPrefix(init, [last], d[i]);
          FirstIndexOfPrefix(init, [last], d[j]);
        }
      } else {
        assert Dedup(s) == d + [last];
        FirstIndexOfNew(init, last);
        forall i, j | 0 <= i < j < |Dedup(s)|
          ensures Dedup(s)[i] in s && Dedup(s)[j] in s && FirstIndex(s, Dedup(s)[i]) < FirstIndex(s, Dedup(s)[j])
        {
          assert Dedup(s)[i] == d[i] && d[i] in d;
          FirstIndexOfPrefix(init, [last], d[i]);
          if j < |d| {
            assert Dedup(s)[j] == d[j] && d[j] in d;
            FirstIndexOfPrefix(init, [last], d[j]);
          } else {
            assert Dedup(s)[j] == last;
          }
        }
      }
    }
  }

  lemma {:induction false} DedupLength<T>(s: seq<T>)
    ensures |Dedup(s)| <= |s|
  {
    if s != [] {
      DedupLength(s[..|s| - 1]);
    }
  }

  /** The elements of `s` as a set: Python's `set(s)`. */
  function SetOf<T>(s: seq<T>): set<T>
  {
    set x | x in s
  }

  lemma {:induction false} SetOfSize<T>(s: seq<T>)
    ensures |SetOf(s)| <= |s|
  {
    if s != [] {
      var init := s[..|s| - 1];
      SetOfSize(init);
      assert s == init + [s[|s| - 1]];
      assert SetOf(s) == SetOf(init) + {s[|s| - 1]};
    }
  }
}
