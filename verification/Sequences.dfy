/** Facts about sequences that several models use. */
module Sequences {
  /** Putting one element in at a position. */
  function InsertAt<T>(xs: seq<T>, j: nat, x: T): seq<T>
    requires j <= |xs|
  {
    xs[..j] + [x] + xs[j..]
  }

  lemma Inserted<T>(xs: seq<T>, j: nat, x: T)
    requires j <= |xs|
    ensures multiset(InsertAt(xs, j, x)) == multiset(xs) + multiset{x}
  {
    assert xs == xs[..j] + xs[j..];
  }

  lemma InsertedAt<T>(xs: seq<T>, j: nat, x: T)
    requires j <= |xs|
    ensures |InsertAt(xs, j, x)| == |xs| + 1
    ensures forall k :: 0 <= k <= |xs| ==>
              InsertAt(xs, j, x)[k] == if k < j then xs[k] else if k == j then x else xs[k - 1]
  {
  }

  /** Lists with the same elements and the same head have tails with the same elements. */
  lemma SameTails<T>(x: seq<T>, y: seq<T>)
    requires x != [] && y != [] && x[0] == y[0] && multiset(x) == multiset(y)
    ensures multiset(x[1..]) == multiset(y[1..])
  {
    assert x == [x[0]] + x[1..] && y == [y[0]] + y[1..];
    assert multiset(x[1..]) == multiset(x) - multiset{x[0]};
    assert multiset(y[1..]) == multiset(y) - multiset{y[0]};
  }

  // ----- What a filter leaves

  ghost predicate PickedBy<T>(out: seq<T>, xs: seq<T>, from: seq<nat>, keep: T -> bool) {
    && |from| == |out| && (forall i, j :: 0 <= i < j < |from| ==> from[i] < from[j])
    && (forall i :: 0 <= i < |from| ==> from[i] < |xs| && out[i] == xs[from[i]] && keep(out[i]))
    && forall k :: 0 <= k < |xs| && keep(xs[k]) ==> k in from
  }

  /** `out` has every place of `xs` that is to be kept, once and in order. */
  ghost predicate Selects<T>(out: seq<T>, xs: seq<T>, keep: T -> bool) {
    exists from :: PickedBy(out, xs, from, keep)
  }

  lemma SelectsNone<T>(keep: T -> bool)
    ensures Selects([], [], keep)
  {
    assert PickedBy([], [], [], keep);
  }

  lemma SelectsSnoc<T>(out: seq<T>, xs: seq<T>, x: T, keep: T -> bool)
    requires Selects(out, xs, keep)
    ensures Selects(out + if keep(x) then [x] else [], xs + [x], keep)
  {
    var before :| PickedBy(out, xs, before, keep);
    var n := |xs|;
    var from := before + if keep(x) then [n] else [];
    var more, ys := out + if keep(x) then [x] else [], xs + [x];
    forall k | 0 <= k < |ys| && keep(ys[k]) ensures k in from {
      if k < n {
        assert ys[k] == xs[k] && k in before;
      } else {
        assert from[|before|] == n;
      }
    }
    assert PickedBy(more, ys, from, keep);
  }

  lemma SelectsSame<T>(out: seq<T>, xs: seq<T>, keep: T -> bool, also: T -> bool)
    requires Selects(out, xs, keep) && forall x :: x in xs ==> keep(x) == also(x)
    ensures Selects(out, xs, also)
  {
    var from :| PickedBy(out, xs, from, keep);
    assert PickedBy(out, xs, from, also);
  }

  lemma {:induction false} SelectsAll<T>(xs: seq<T>, keep: T -> bool)
    requires forall x :: x in xs ==> keep(x)
    ensures Selects(xs, xs, keep)
  {
    if xs == [] {
      SelectsNone(keep);
    } else {
      var init, x := xs[..|xs| - 1], xs[|xs| - 1];
      SelectsAll(init, keep);
      SelectsSnoc(init, init, x, keep);
      assert init + [x] == xs;
    }
  }

  // ----- Places in a list of lists

  ghost predicate Earlier(x: (nat, nat), y: (nat, nat)) {
    x.0 < y.0 || (x.0 == y.0 && x.1 < y.1)
  }

  ghost predicate Rising(from: seq<(nat, nat)>) {
    forall i, j :: 0 <= i < j < |from| ==> Earlier(from[i], from[j])
  }

  ghost function Paired(n: nat, turn: seq<nat>): seq<(nat, nat)> {
    seq(|turn|, i requires 0 <= i < |turn| => (n, turn[i]))
  }

  lemma PairedIn(n: nat, turn: seq<nat>, at: (nat, nat))
    ensures at in Paired(n, turn) <==> at.0 == n && at.1 in turn
  {
    if at.0 == n && at.1 in turn {
      var i :| 0 <= i < |turn| && turn[i] == at.1;
      assert Paired(n, turn)[i] == at;
    }
  }

  lemma RisingOn(before: seq<(nat, nat)>, n: nat, turn: seq<nat>)
    requires Rising(before) && forall i :: 0 <= i < |before| ==> before[i].0 < n
    requires forall i, j :: 0 <= i < j < |turn| ==> turn[i] < turn[j]
    ensures Rising(before + Paired(n, turn)) && Rising(before + [])
  {
    assert before + [] == before;
  }
}
