/**
 Longest common subsequences, as the line diff (internal/acl/diff.go) and the policy draft
 (ui/src/lib/policyDraft.ts) compute them: a table of suffix lengths filled from the end, then
 one greedy walk over it. Both programs break ties the same way, so the walk is defined once.
 */
module Lcs {

  /** The length the table holds at row i, column j: the LCS of a[i..] and b[j..]. */
  ghost function Len<T>(a: seq<T>, b: seq<T>, i: nat, j: nat): nat
    requires i <= |a| && j <= |b|
    decreases |a| - i + |b| - j
  {
    if i == |a| || j == |b| then 0
    else if a[i] == b[j] then Len(a, b, i + 1, j + 1) + 1
    else if Len(a, b, i + 1, j) >= Len(a, b, i, j + 1) then Len(a, b, i + 1, j)
    else Len(a, b, i, j + 1)
  }

  /** One cell from its neighbours, as the loop fills it. */
  lemma LenStep<T>(a: seq<T>, b: seq<T>, i: nat, j: nat)
    requires i < |a| && j < |b|
    ensures Len(a, b, i, j) == if a[i] == b[j] then Len(a, b, i + 1, j + 1) + 1
                               else if Len(a, b, i + 1, j) >= Len(a, b, i, j + 1) then Len(a, b, i + 1, j)
                                   else Len(a, b, i, j + 1)
  {
  }

  /** A common subsequence of a[i..] and b[j..], given by the positions it occupies in both. */
  ghost predicate Matching<T>(a: seq<T>, b: seq<T>, i: nat, j: nat, ps: seq<(nat, nat)>) {
    && (forall k :: 0 <= k < |ps| ==> i <= ps[k].0 < |a| && j <= ps[k].1 < |b| && a[ps[k].0] == b[ps[k].1])
    && (forall k, l :: 0 <= k < l < |ps| ==> ps[k].0 < ps[l].0 && ps[k].1 < ps[l].1)
  }

  /** No common subsequence is longer than the table says. */
  lemma {:induction false} Bound<T>(a: seq<T>, b: seq<T>, i: nat, j: nat, ps: seq<(nat, nat)>)
    requires i <= |a| && j <= |b|
    requires Matching(a, b, i, j, ps)
    ensures |ps| <= Len(a, b, i, j)
    decreases |a| - i + |b| - j
  {
    if ps == [] {
      return;
    }
    assert i <= ps[0].0 < |a| && j <= ps[0].1 < |b|;
    if a[i] == b[j] {
      Bound(a, b, i + 1, j + 1, ps[1..]);
    } else if ps[0].0 > i {
      Bound(a, b, i + 1, j, ps);
    } else {
      Bound(a, b, i, j + 1, ps);
    }
  }

  /** The pairs the greedy walk keeps from (i, j) on. */
  ghost function Walk<T>(a: seq<T>, b: seq<T>, i: nat, j: nat): seq<(nat, nat)>
    requires i <= |a| && j <= |b|
    decreases |a| - i + |b| - j
  {
    if i == |a| || j == |b| then []
    else if a[i] == b[j] then [(i, j)] + Walk(a, b, i + 1, j + 1)
    else if Len(a, b, i + 1, j) >= Len(a, b, i, j + 1) then Walk(a, b, i + 1, j)
    else Walk(a, b, i, j + 1)
  }

  lemma WalkStep<T>(a: seq<T>, b: seq<T>, i: nat, j: nat)
    requires i < |a| && j < |b|
    ensures Walk(a, b, i, j) == if a[i] == b[j] then [(i, j)] + Walk(a, b, i + 1, j + 1)
                                else if Len(a, b, i + 1, j) >= Len(a, b, i, j + 1) then Walk(a, b, i + 1, j)
                                    else Walk(a, b, i, j + 1)
  {
    hide Len;
  }

  lemma WalkEnd<T>(a: seq<T>, b: seq<T>, i: nat, j: nat)
    requires i <= |a| && j <= |b| && (i == |a| || j == |b|)
    ensures Walk(a, b, i, j) == [] && Len(a, b, i, j) == 0
  {
  }

  lemma MatchingMore<T>(a: seq<T>, b: seq<T>, i: nat, j: nat, ps: seq<(nat, nat)>)
    requires i < |a| && j < |b| && a[i] == b[j] && Matching(a, b, i + 1, j + 1, ps)
    ensures Matching(a, b, i, j, [(i, j)] + ps)
  {
  }

  /** The walk keeps a common subsequence, and a longest one. */
  lemma {:induction false} WalkIsLongest<T>(a: seq<T>, b: seq<T>, i: nat, j: nat)
    requires i <= |a| && j <= |b|
    ensures Matching(a, b, i, j, Walk(a, b, i, j))
    ensures |Walk(a, b, i, j)| == Len(a, b, i, j)
    decreases |a| - i + |b| - j
  {
    if i == |a| || j == |b| {
      WalkEnd(a, b, i, j);
    } else {
      LenStep(a, b, i, j);
      WalkStep(a, b, i, j);
      if a[i] == b[j] {
        WalkIsLongest(a, b, i + 1, j + 1);
        MatchingMore(a, b, i, j, Walk(a, b, i + 1, j + 1));
      } else if Len(a, b, i + 1, j) >= Len(a, b, i, j + 1) {
        WalkIsLongest(a, b, i + 1, j);
        hide Len, Walk;
      } else {
        WalkIsLongest(a, b, i, j + 1);
        hide Len, Walk;
      }
    }
  }

  /**
   Among all longest common subsequences the walk finds the one that starts earliest in b.
   Exchange argument: a longest one using a[i] at an earlier column could otherwise be put in
   front of the walk's, making it longer still.
   */
  lemma LenEnd<T>(a: seq<T>, b: seq<T>, i: nat, j: nat)
    requires i <= |a| && j <= |b|
    ensures i == |a| || j == |b| ==> Len(a, b, i, j) == 0
  {
  }

  /** A common subsequence of less is one of more. */
  lemma Shrinks<T>(a: seq<T>, b: seq<T>, i: nat, j: nat)
    requires i <= |a| && j < |b|
    ensures Len(a, b, i, j + 1) <= Len(a, b, i, j)
  {
    WalkIsLongest(a, b, i, j + 1);
    Bound(a, b, i, j, Walk(a, b, i, j + 1));
  }

  lemma {:induction false} WalkStartsEarliest<T>(a: seq<T>, b: seq<T>, i: nat, j: nat, ps: seq<(nat, nat)>)
    requires i <= |a| && j <= |b|
    requires Matching(a, b, i, j, ps) && |ps| == Len(a, b, i, j) > 0
    ensures Walk(a, b, i, j) != [] && Walk(a, b, i, j)[0].1 <= ps[0].1
    decreases |a| - i + |b| - j
  {
    hide Len, Walk;
    InRange(a, b, i, j, ps);
    LenStep(a, b, i, j);
    WalkStep(a, b, i, j);
    if a[i] == b[j] {
    } else if Len(a, b, i + 1, j) >= Len(a, b, i, j + 1) {
      if ps[0].0 > i {
        WalkStartsEarliest(a, b, i + 1, j, ps);
      } else {
        Exchange(a, b, i, j, ps[0]);
      }
    } else {
      if ps[0].1 == j {
        Bound(a, b, i + 1, j, ps);
      }
      WalkStartsEarliest(a, b, i, j + 1, ps);
    }
  }

  lemma InRange<T>(a: seq<T>, b: seq<T>, i: nat, j: nat, ps: seq<(nat, nat)>)
    requires Matching(a, b, i, j, ps) && ps != []
    ensures i <= ps[0].0 < |a| && j <= ps[0].1 < |b|
  {
  }

  /** A match of row i at an earlier column than the walk's first could be put in front of it. */
  lemma Exchange<T>(a: seq<T>, b: seq<T>, i: nat, j: nat, p: (nat, nat))
    requires i < |a| && j <= p.1 < |b| && p.0 == i && a[i] == b[p.1]
    requires Len(a, b, i, j) == Len(a, b, i + 1, j) > 0
    ensures Walk(a, b, i + 1, j) != [] && Walk(a, b, i + 1, j)[0].1 <= p.1
  {
    hide Len, Walk;
    var w := Walk(a, b, i + 1, j);
    WalkIsLongest(a, b, i + 1, j);
    if p.1 < w[0].1 {
      assert Matching(a, b, i, j, [p] + w);
      Bound(a, b, i, j, [p] + w);
    }
  }

  // ----- The table

  /** Row r of the table is filled from column `from` on. */
  ghost predicate RowFilled<T>(t: array2<nat>, a: seq<T>, b: seq<T>, r: nat, from: nat)
    requires t.Length0 == |a| + 1 && t.Length1 == |b| + 1
    requires r <= |a|
    reads t
  {
    forall c :: from <= c <= |b| ==> t[r, c] == Len(a, b, r, c)
  }

  method FillRow<T(==)>(t: array2<nat>, a: seq<T>, b: seq<T>, i: nat)
    requires t.Length0 == |a| + 1 && t.Length1 == |b| + 1
    requires i < |a|
    requires t[i, |b|] == 0 && RowFilled(t, a, b, i + 1, 0)
    modifies t
    ensures RowFilled(t, a, b, i, 0)
    ensures forall r, c :: 0 <= r <= |a| && 0 <= c <= |b| && r != i ==> t[r, c] == old(t[r, c])
  {
    var j := |b|;
    while j > 0
      invariant 0 <= j <= |b|
      invariant RowFilled(t, a, b, i, j)
      invariant forall r, c :: 0 <= r <= |a| && 0 <= c <= |b| && r != i ==> t[r, c] == old(t[r, c])
    {
      j := j - 1;
      if a[i] == b[j] {
        t[i, j] := t[i + 1, j + 1] + 1;
      } else if t[i + 1, j] >= t[i, j + 1] {
        t[i, j] := t[i + 1, j];
      } else {
        t[i, j] := t[i, j + 1];
      }
    }
  }

  /** The dynamic program: every cell ends up holding the length of the LCS of its two suffixes. */
  method FillTable<T(==)>(a: seq<T>, b: seq<T>) returns (t: array2<nat>)
    ensures t.Length0 == |a| + 1 && t.Length1 == |b| + 1
    ensures forall r :: 0 <= r <= |a| ==> RowFilled(t, a, b, r, 0)
  {
    t := new nat[|a| + 1, |b| + 1]((i, j) => 0);
    var i := |a|;
    while i > 0
      invariant 0 <= i <= |a|
      invariant forall r :: 0 <= r < i ==> t[r, |b|] == 0
      invariant forall r :: i <= r <= |a| ==> RowFilled(t, a, b, r, 0)
    {
      i := i - 1;
      label before:
      FillRow(t, a, b, i);
      forall r | i < r <= |a| ensures RowFilled(t, a, b, r, 0) {
        assert old@before(RowFilled(t, a, b, r, 0));
      }
    }
  }
}
