/** Operations on slices of strings that the task model relies on:
    Go's byte-wise string order and `sort.Strings`, and the two ways the
    core appends strings not seen before (`MergeContext`'s loops and
    `DeduplicateStrings`). */
module StringSlices {

  /** Lexicographic order on strings, character by character (for ASCII and
      UTF-8 this is Go's byte-wise `<=` on strings). */
  predicate LessEq(a: string, b: string)
    decreases |a|
  {
    if |a| == 0 then true
    else if |b| == 0 then false
    else a[0] < b[0] || (a[0] == b[0] && LessEq(a[1..], b[1..]))
  }

  lemma {:induction false} LessEqTotal(a: string, b: string)
    ensures LessEq(a, b) || LessEq(b, a)
    decreases |a|
  {
    if |a| > 0 && |b| > 0 && a[0] == b[0] {
      LessEqTotal(a[1..], b[1..]);
    }
  }

  lemma {:induction false} LessEqTransitive(a: string, b: string, c: string)
    requires LessEq(a, b) && LessEq(b, c)
    ensures LessEq(a, c)
    decreases |a|
  {
    if |a| > 0 && |b| > 0 && |c| > 0 && a[0] == b[0] && b[0] == c[0] {
      LessEqTransitive(a[1..], b[1..], c[1..]);
    }
  }

  predicate Sorted(s: seq<string>) {
    forall i, j :: 0 <= i < j < |s| ==> LessEq(s[i], s[j])
  }

  predicate NoDuplicates(s: seq<string>) {
    forall i, j :: 0 <= i < j < |s| ==> s[i] != s[j]
  }

  /** Inserts `x` into a sorted sequence, before the first element it does
      not exceed. */
  function Insert(x: string, s: seq<string>): (r: seq<string>)
    requires Sorted(s)
    ensures Sorted(r)
    ensures multiset(r) == multiset(s) + multiset{x}
    decreases |s|
  {
    if |s| == 0 then [x]
    else if LessEq(x, s[0]) then
      assert forall j :: 0 <= j < |s| ==> LessEq(x, s[j]) by {
        forall j | 0 <= j < |s| ensures LessEq(x, s[j]) {
          if j > 0 { LessEqTransitive(x, s[0], s[j]); }
        }
      }
      [x] + s
    else
      var t := Insert(x, s[1..]);
      assert s == [s[0]] + s[1..];
      LessEqTotal(x, s[0]);
      assert forall j :: 0 <= j < |t| ==> LessEq(s[0], t[j]) by {
        forall j | 0 <= j < |t| ensures LessEq(s[0], t[j]) {
          assert t[j] in multiset(t);
          if t[j] != x {
            assert t[j] in multiset(s[1..]);
            var k :| 0 <= k < |s[1..]| && s[1..][k] == t[j];
            assert s[k + 1] == t[j];
          }
        }
      }
      [s[0]] + t
  }

  /** `sort.Strings`: the same strings, in ascending order. */
  function SortStrings(s: seq<string>): (r: seq<string>)
    ensures Sorted(r)
    ensures multiset(r) == multiset(s)
    decreases |s|
  {
    if |s| == 0 then []
    else
      assert s == [s[0]] + s[1..];
      Insert(s[0], SortStrings(s[1..]))
  }

  /** Sorting a sequence that is already sorted gives it back unchanged. */
  lemma {:induction false} SortSortedIsIdentity(s: seq<string>)
    requires Sorted(s)
    ensures SortStrings(s) == s
    decreases |s|
  {
    if |s| > 0 {
      SortSortedIsIdentity(s[1..]);
      if |s| > 1 {
        assert LessEq(s[0], s[1..][0]);
      }
      assert s == [s[0]] + s[1..];
    }
  }

  /** Starting from `base`, appends each entry of `extra`, in order, that is
      not yet present. */
  function AppendMissing(base: seq<string>, extra: seq<string>): (r: seq<string>)
    ensures |base| <= |r| && r[..|base|] == base
    ensures forall x :: x in r <==> x in base || x in extra
    ensures forall j, k :: 0 <= j < k < |r| && |base| <= k ==> r[j] != r[k]
    decreases |extra|
  {
    if |extra| == 0 then base
    else
      var init := extra[..|extra| - 1];
      var acc := AppendMissing(base, init);
      var x := extra[|extra| - 1];
      assert forall y :: y in extra <==> y in init || y == x by {
        assert extra == init + [x];
      }
      if x in acc then
        acc
      else
        var r := acc + [x];
        assert forall j :: 0 <= j < |acc| ==> r[j] == acc[j];
        assert r[..|base|] == acc[..|base|];
        r
  }

  /** `DeduplicateStrings`: the first occurrence of every string, in order. */
  function DeduplicateStrings(s: seq<string>): (r: seq<string>)
    ensures forall x :: x in r <==> x in s
    ensures NoDuplicates(r)
  {
    AppendMissing([], s)
  }

  /** Deduplicating a sorted sequence keeps it sorted. */
  lemma {:induction false} DeduplicateKeepsSorted(s: seq<string>)
    requires Sorted(s)
    ensures Sorted(DeduplicateStrings(s))
    decreases |s|
  {
    if |s| > 0 {
      var init := s[..|s| - 1];
      var x := s[|s| - 1];
      assert s == init + [x];
      DeduplicateKeepsSorted(init);
      var acc := AppendMissing([], init);
      assert forall y :: y in acc ==> LessEq(y, x) by {
        forall y | y in acc ensures LessEq(y, x) {
          var k :| 0 <= k < |init| && init[k] == y;
        }
      }
    }
  }

  /** Deduplicating a sequence without duplicates gives it back unchanged. */
  lemma DeduplicateDistinctIsIdentity(s: seq<string>)
    requires NoDuplicates(s)
    ensures DeduplicateStrings(s) == s
  {
    AppendMissingDistinct(s);
  }

  lemma {:induction false} AppendMissingDistinct(s: seq<string>)
    requires NoDuplicates(s)
    ensures AppendMissing([], s) == s
    decreases |s|
  {
    if |s| > 0 {
      var init := s[..|s| - 1];
      var x := s[|s| - 1];
      assert x !in init by {
        forall k | 0 <= k < |init| ensures init[k] != x {
          assert s[k] != s[|s| - 1];
        }
      }
      assert NoDuplicates(init);
      AppendMissingDistinct(init);
      assert s == init + [x];
    }
  }
}
