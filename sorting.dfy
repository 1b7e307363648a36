/**
 * `prioritized_tasks.sort(key=lambda x: x["priority_score"], reverse=True)`
 * (task_prioritizer.py, line 242): an in-place stable sort, highest score
 * first; records with equal scores keep their original order.
 */
module Sorting {
  import opened Records

  /** Scores never increase from left to right. */
  predicate NonIncreasing(s: seq<TaskRecord>) {
    forall i, j :: 0 <= i < j < |s| ==> s[i].priorityScore >= s[j].priorityScore
  }

  /** The records with score `x`, in their order in `s`. */
  function WithScore(s: seq<TaskRecord>, x: real): (r: seq<TaskRecord>)
    ensures |r| <= |s|
  {
    if s == [] then []
    else (if s[0].priorityScore == x then [s[0]] else []) + WithScore(s[1..], x)
  }

  /** Each group of equal scores appears in `s` in the same order as in `orig`: the sort is stable. */
  ghost predicate SameTies(s: seq<TaskRecord>, orig: seq<TaskRecord>) {
    forall x :: WithScore(s, x) == WithScore(orig, x)
  }

  lemma {:induction false} WithScoreAppend(a: seq<TaskRecord>, b: seq<TaskRecord>, x: real)
    ensures WithScore(a + b, x) == WithScore(a, x) + WithScore(b, x)
  {
    if a == [] {
      assert a + b == b;
    } else {
      var h := if a[0].priorityScore == x then [a[0]] else [];
      assert (a + b)[0] == a[0];
      assert (a + b)[1..] == a[1..] + b;
      WithScoreAppend(a[1..], b, x);
      calc {
        WithScore(a + b, x);
        h + WithScore(a[1..] + b, x);
        h + (WithScore(a[1..], x) + WithScore(b, x));
        (h + WithScore(a[1..], x)) + WithScore(b, x);
        WithScore(a, x) + WithScore(b, x);
      }
    }
  }

  lemma SameTiesTrans(a: seq<TaskRecord>, b: seq<TaskRecord>, c: seq<TaskRecord>)
    requires SameTies(a, b) && SameTies(b, c)
    ensures SameTies(a, c)
  {
    forall x ensures WithScore(a, x) == WithScore(c, x) {
      assert WithScore(a, x) == WithScore(b, x);
    }
  }

  /** Swapping two neighbours with different scores leaves every score group as it was. */
  lemma SwapKeepsTies(s: seq<TaskRecord>, j: nat)
    requires 0 < j < |s| && s[j - 1].priorityScore != s[j].priorityScore
    ensures SameTies(s[..j - 1] + [s[j], s[j - 1]] + s[j + 1..], s)
  {
    var t := s[..j - 1] + [s[j], s[j - 1]] + s[j + 1..];
    forall x ensures WithScore(t, x) == WithScore(s, x) {
      assert s == s[..j - 1] + [s[j - 1], s[j]] + s[j + 1..];
      WithScoreAppend(s[..j - 1] + [s[j - 1], s[j]], s[j + 1..], x);
      WithScoreAppend(s[..j - 1], [s[j - 1], s[j]], x);
      WithScoreAppend(s[..j - 1] + [s[j], s[j - 1]], s[j + 1..], x);
      WithScoreAppend(s[..j - 1], [s[j], s[j - 1]], x);
      assert [s[j - 1], s[j]][1..] == [s[j]];
      assert [s[j], s[j - 1]][1..] == [s[j - 1]];
    }
  }

  /** `s` with its neighbours at j - 1 and j exchanged. */
  function Swapped(s: seq<TaskRecord>, j: nat): (r: seq<TaskRecord>)
    requires 0 < j < |s|
    ensures |r| == |s| && r[j - 1] == s[j] && r[j] == s[j - 1]
    ensures forall k :: 0 <= k < |s| && k != j - 1 && k != j ==> r[k] == s[k]
  {
    s[..j - 1] + [s[j], s[j - 1]] + s[j + 1..]
  }

  /** A swap permutes the records. */
  lemma SwappedPermutes(s: seq<TaskRecord>, j: nat)
    requires 0 < j < |s|
    ensures multiset(Swapped(s, j)) == multiset(s)
  {
    assert s == s[..j - 1] + [s[j - 1], s[j]] + s[j + 1..];
  }

  /** Exchange a[j - 1] and a[j], two records with different scores. */
  method SwapDown(a: array<TaskRecord>, j: nat)
    requires 0 < j < a.Length && a[j - 1].priorityScore != a[j].priorityScore
    modifies a
    ensures a[j - 1] == old(a[j]) && a[j] == old(a[j - 1])
    ensures forall k :: 0 <= k < a.Length && k != j - 1 && k != j ==> a[k] == old(a[k])
    ensures multiset(a[..]) == multiset(old(a[..]))
    ensures SameTies(a[..], old(a[..]))
  {
    ghost var before := a[..];
    SwapKeepsTies(before, j);
    SwappedPermutes(before, j);
    a[j - 1], a[j] := a[j], a[j - 1];
    assert a[..] == Swapped(before, j);
  }

  /** a[..i + 1] is ordered except that the record at `j` may outrank those before it. */
  predicate OrderedBut(s: seq<TaskRecord>, i: nat, j: nat)
    requires i < |s|
  {
    forall p, q :: 0 <= p < q <= i && q != j ==> s[p].priorityScore >= s[q].priorityScore
  }

  /** Moving the out-of-place record one step left keeps the rest ordered. */
  lemma OrderedButSwap(s: seq<TaskRecord>, i: nat, j: nat)
    requires 0 < j <= i < |s| && OrderedBut(s, i, j)
    requires s[j - 1].priorityScore < s[j].priorityScore
    ensures OrderedBut(Swapped(s, j), i, j - 1)
  {
  }

  /** When the out-of-place record no longer outranks its left neighbour, the prefix is sorted. */
  lemma OrderedButDone(s: seq<TaskRecord>, i: nat, j: nat)
    requires j <= i < |s| && OrderedBut(s, i, j)
    requires j == 0 || s[j - 1].priorityScore >= s[j].priorityScore
    ensures NonIncreasing(s[..i + 1])
  {
  }

  /**
   * One pass of the insertion sort: move a[i] left past every record with a
   * strictly lower score, so that a[..i + 1] is sorted.
   */
  method InsertLast(a: array<TaskRecord>, i: nat)
    requires i < a.Length && NonIncreasing(a[..i])
    modifies a
    ensures NonIncreasing(a[..i + 1])
    ensures multiset(a[..]) == multiset(old(a[..]))
    ensures SameTies(a[..], old(a[..]))
  {
    var j := i;
    while 0 < j && a[j - 1].priorityScore < a[j].priorityScore
      invariant 0 <= j <= i
      invariant OrderedBut(a[..], i, j)
      invariant multiset(a[..]) == multiset(old(a[..]))
      invariant SameTies(a[..], old(a[..]))
    {
      ghost var before := a[..];
      OrderedButSwap(before, i, j);
      SwapDown(a, j);
      assert a[..] == Swapped(before, j);
      SameTiesTrans(a[..], before, old(a[..]));
      j := j - 1;
    }
    OrderedButDone(a[..], i, j);
  }

  /** Insertion sort by adjacent swaps; a swap happens only between a lower and a strictly higher score. */
  method SortByScore(a: array<TaskRecord>)
    modifies a
    ensures NonIncreasing(a[..])
    ensures multiset(a[..]) == multiset(old(a[..]))
    ensures SameTies(a[..], old(a[..]))
  {
    for i := 0 to a.Length
      invariant NonIncreasing(a[..i])
      invariant multiset(a[..]) == multiset(old(a[..]))
      invariant SameTies(a[..], old(a[..]))
    {
      ghost var before := a[..];
      InsertLast(a, i);
      SameTiesTrans(a[..], before, old(a[..]));
    }
    assert a[..a.Length] == a[..];
  }

  lemma WithScoreMember(s: seq<TaskRecord>, x: real)
    ensures WithScore(s, x) != [] <==> exists k :: 0 <= k < |s| && s[k].priorityScore == x
  {
    if s != [] {
      WithScoreMember(s[1..], x);
      if s[0].priorityScore != x {
        assert (exists k :: 0 <= k < |s[1..]| && s[1..][k].priorityScore == x) ==> (exists k :: 0 <= k < |s| && s[k].priorityScore == x) by {
          forall k | 0 <= k < |s[1..]| && s[1..][k].priorityScore == x ensures exists k :: 0 <= k < |s| && s[k].priorityScore == x {
            assert s[k + 1] == s[1..][k];
          }
        }
        assert (exists k :: 0 <= k < |s| && s[k].priorityScore == x) ==> (exists k :: 0 <= k < |s[1..]| && s[1..][k].priorityScore == x) by {
          forall k | 0 <= k < |s| && s[k].priorityScore == x ensures exists k :: 0 <= k < |s[1..]| && s[1..][k].priorityScore == x {
            assert k != 0;
            assert s[1..][k - 1] == s[k];
          }
        }
      }
    }
  }

  lemma NonEmptyHasGroup(s: seq<TaskRecord>)
    ensures s != [] ==> WithScore(s, s[0].priorityScore) != []
  {
  }

  /** Two non-increasing sequences with the same score groups start with the same record. */
  lemma SameFirst(a: seq<TaskRecord>, b: seq<TaskRecord>)
    requires NonIncreasing(a) && NonIncreasing(b) && SameTies(a, b) && a != []
    ensures b != [] && a[0] == b[0]
  {
    var x := a[0].priorityScore;
    WithScoreMember(a, x);
    assert WithScore(b, x) != [];
    WithScoreMember(b, x);
    var y := b[0].priorityScore;
    WithScoreMember(b, y);
    assert WithScore(a, y) != [];
    WithScoreMember(a, y);
    assert x == y;
    assert WithScore(a, x) == [a[0]] + WithScore(a[1..], x);
    assert WithScore(b, x) == [b[0]] + WithScore(b[1..], x);
    assert WithScore(a, x)[0] == a[0] && WithScore(b, x)[0] == b[0];
  }

  /** Removing the same first record from both keeps the score groups equal. */
  lemma SameTiesTails(a: seq<TaskRecord>, b: seq<TaskRecord>)
    requires a != [] && b != [] && a[0] == b[0] && SameTies(a, b)
    ensures SameTies(a[1..], b[1..])
  {
    var x := a[0].priorityScore;
    forall z ensures WithScore(a[1..], z) == WithScore(b[1..], z) {
      assert WithScore(a, z) == WithScore(b, z);
      assert WithScore(a, z) == (if x == z then [a[0]] else []) + WithScore(a[1..], z);
      assert WithScore(b, z) == (if x == z then [b[0]] else []) + WithScore(b[1..], z);
      if z == x {
        assert WithScore(a, z)[1..] == WithScore(a[1..], z);
        assert WithScore(b, z)[1..] == WithScore(b[1..], z);
      } else {
        assert [] + WithScore(a[1..], z) == WithScore(a[1..], z);
        assert [] + WithScore(b[1..], z) == WithScore(b[1..], z);
      }
    }
  }

  /**
   * The three postconditions of `SortByScore` fix its result: two
   * non-increasing sequences with the same score groups are equal. So the
   * method computes exactly Python's stable descending sort.
   */
  lemma {:induction false} StableSortUnique(a: seq<TaskRecord>, b: seq<TaskRecord>)
    requires NonIncreasing(a) && NonIncreasing(b) && SameTies(a, b)
    ensures a == b
    decreases |a|
  {
    if a == [] {
      NonEmptyHasGroup(b);
    } else {
      SameFirst(a, b);
      SameTiesTails(a, b);
      assert NonIncreasing(a[1..]) && NonIncreasing(b[1..]);
      StableSortUnique(a[1..], b[1..]);
      assert a == [a[0]] + a[1..];
      assert b == [b[0]] + b[1..];
    }
  }
}
