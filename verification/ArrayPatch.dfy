/**
 How a policy draft turns a changed array into patch operations and replays them
 (arrayOperations and unchangedPairs in ui/src/lib/policyDraft.ts).
 */
module ArrayPatch {
  import opened Sequences
  import Lcs

  /** One operation on an array, addressed by index; Append is the "-" address. */
  datatype Edit<T> = Replace(index: nat, value: T) | Remove(index: nat) | Append(value: T)

  /** What applySchemaOperation does to an array; an index past the end changes nothing. */
  function Apply<T>(edit: Edit<T>, xs: seq<T>): seq<T> {
    match edit
    case Replace(i, v) => if i < |xs| then xs[i := v] else xs
    case Remove(i) => if i < |xs| then xs[..i] + xs[i + 1..] else xs
    case Append(v) => xs + [v]
  }

  function ApplyAll<T>(edits: seq<Edit<T>>, xs: seq<T>): seq<T> {
    if edits == [] then xs else ApplyAll(edits[1..], Apply(edits[0], xs))
  }

  lemma ApplyHead<T>(edits: seq<Edit<T>>, xs: seq<T>)
    requires edits != []
    ensures ApplyAll(edits, xs) == ApplyAll(edits[1..], Apply(edits[0], xs))
  {
    hide Apply;
  }

  lemma ApplyNone<T>(xs: seq<T>)
    ensures ApplyAll([], xs) == xs
  {
  }

  lemma {:induction false} ApplyConcat<T>(x: seq<Edit<T>>, y: seq<Edit<T>>, xs: seq<T>)
    ensures ApplyAll(x + y, xs) == ApplyAll(y, ApplyAll(x, xs))
  {
    hide *;
    if x == [] {
      ApplyNone(xs);
      assert x + y == y;
    } else {
      ApplyHead(x, xs);
      ApplyHead(x + y, xs);
      ApplyConcat(x[1..], y, Apply(x[0], xs));
      assert (x + y)[1..] == x[1..] + y;
    }
  }

  // ----- unchangedPairs

  /** The unchanged pairs are the greedy walk over the LCS table. */
  method UnchangedPairs<T(==)>(before: seq<T>, after: seq<T>) returns (pairs: seq<(nat, nat)>)
    ensures pairs == Lcs.Walk(before, after, 0, 0)
  {
    var lengths := Lcs.FillTable(before, after);
    pairs := [];
    var i, j := 0, 0;
    while i < |before| && j < |after|
      modifies {}
      invariant i <= |before| && j <= |after|
      invariant pairs + Lcs.Walk(before, after, i, j) == Lcs.Walk(before, after, 0, 0)
    {
      assert Lcs.RowFilled(lengths, before, after, i, 0) && Lcs.RowFilled(lengths, before, after, i + 1, 0);
      if before[i] == after[j] {
        pairs := pairs + [(i, j)];
        i, j := i + 1, j + 1;
      } else if lengths[i + 1, j] >= lengths[i, j + 1] {
        i := i + 1;
      } else {
        j := j + 1;
      }
    }
  }

  // ----- The gaps between unchanged pairs

  function Min(x: int, y: int): int { if x < y then x else y }

  /** Increasing pairs inside [p0, b) x [n0, a), as the walk gives them. */
  ghost predicate Rising(pairs: seq<(nat, nat)>, p0: nat, n0: nat, b: nat, a: nat) {
    if pairs == [] then p0 <= b && n0 <= a
    else p0 <= pairs[0].0 < b && n0 <= pairs[0].1 < a && Rising(pairs[1..], pairs[0].0 + 1, pairs[0].1 + 1, b, a)
  }

  /** Where the gap that starts at (p0, n0) ends: at the next pair, or at the ends of both arrays. */
  function GapEnd(pairs: seq<(nat, nat)>, b: nat, a: nat): (nat, nat) {
    if pairs == [] then (b, a) else pairs[0]
  }

  /** How many elements of the gap are replaced in place. */
  function Shared(pairs: seq<(nat, nat)>, p0: nat, n0: nat, b: nat, a: nat): nat
    requires Rising(pairs, p0, n0, b, a)
  {
    var (p, n) := GapEnd(pairs, b, a);
    Min(p - p0, n - n0)
  }

  /** Replacements from index p on. */
  function ReplaceRun<T>(p: nat, news: seq<T>): seq<Edit<T>> {
    seq(|news|, k requires 0 <= k < |news| => Replace(p + k, news[k]))
  }

  /** Removals of the indices below `hi`, down to `lo`. */
  function RemoveRun<T>(lo: nat, hi: nat): seq<Edit<T>>
    requires lo <= hi
  {
    seq(hi - lo, k requires 0 <= k < hi - lo => Remove(hi - 1 - k))
  }

  function AppendRun<T>(xs: seq<T>): seq<Edit<T>> {
    seq(|xs|, k requires 0 <= k < |xs| => Append(xs[k]))
  }

  ghost function Replacements<T>(pairs: seq<(nat, nat)>, p0: nat, n0: nat, b: nat, after: seq<T>): seq<Edit<T>>
    requires Rising(pairs, p0, n0, b, |after|)
  {
    ReplaceRun(p0, after[n0..n0 + Shared(pairs, p0, n0, b, |after|)]) +
    if pairs == [] then [] else Replacements(pairs[1..], pairs[0].0 + 1, pairs[0].1 + 1, b, after)
  }

  /** The removals of every gap, first gap first. */
  ghost function Removals<T>(pairs: seq<(nat, nat)>, p0: nat, n0: nat, b: nat, a: nat): seq<Edit<T>>
    requires Rising(pairs, p0, n0, b, a)
  {
    RemoveRun(p0 + Shared(pairs, p0, n0, b, a), GapEnd(pairs, b, a).0) +
    if pairs == [] then [] else Removals(pairs[1..], pairs[0].0 + 1, pairs[0].1 + 1, b, a)
  }

  /** The same removals with the last gap first: indices only go down. */
  ghost function RemovalsDown<T>(pairs: seq<(nat, nat)>, p0: nat, n0: nat, b: nat, a: nat): seq<Edit<T>>
    requires Rising(pairs, p0, n0, b, a)
  {
    (if pairs == [] then [] else RemovalsDown(pairs[1..], pairs[0].0 + 1, pairs[0].1 + 1, b, a)) +
    RemoveRun(p0 + Shared(pairs, p0, n0, b, a), GapEnd(pairs, b, a).0)
  }

  /** The new elements that did not fit in their gap. */
  ghost function Extras<T>(pairs: seq<(nat, nat)>, p0: nat, n0: nat, b: nat, after: seq<T>): seq<T>
    requires Rising(pairs, p0, n0, b, |after|)
  {
    after[n0 + Shared(pairs, p0, n0, b, |after|)..GapEnd(pairs, b, |after|).1] +
    if pairs == [] then [] else Extras(pairs[1..], pairs[0].0 + 1, pairs[0].1 + 1, b, after)
  }

  /** The new elements that are written in place, with the unchanged ones between them. */
  ghost function InPlace<T>(pairs: seq<(nat, nat)>, p0: nat, n0: nat, b: nat, after: seq<T>): seq<T>
    requires Rising(pairs, p0, n0, b, |after|)
  {
    after[n0..n0 + Shared(pairs, p0, n0, b, |after|)] +
    if pairs == [] then [] else [after[pairs[0].1]] + InPlace(pairs[1..], pairs[0].0 + 1, pairs[0].1 + 1, b, after)
  }

  /** before[p0..] once the replacements are made and nothing is removed yet. */
  ghost function Replaced<T>(pairs: seq<(nat, nat)>, p0: nat, n0: nat, before: seq<T>, after: seq<T>): seq<T>
    requires Rising(pairs, p0, n0, |before|, |after|)
  {
    var s := Shared(pairs, p0, n0, |before|, |after|);
    after[n0..n0 + s] + before[p0 + s..GapEnd(pairs, |before|, |after|).0] +
    if pairs == [] then [] else [before[pairs[0].0]] + Replaced(pairs[1..], pairs[0].0 + 1, pairs[0].1 + 1, before,
        after)
  }

  // ----- Replaying the three kinds of operation

  lemma ReplaceRunHead<T>(p: nat, news: seq<T>)
    ensures |ReplaceRun(p, news)| == |news|
    ensures news != [] ==>
              ReplaceRun(p, news)[0] == Replace(p, news[0]) && ReplaceRun(p, news)[1..] == ReplaceRun(p + 1, news[1..])
  {
  }

  lemma ReplaceMiddle<T>(u: seq<T>, old_: seq<T>, v: seq<T>, x: T)
    requires old_ != []
    ensures Apply(Replace(|u|, x), u + old_ + v) == (u + [x]) + old_[1..] + v
  {
    var xs := u + old_ + v;
    assert xs[|u| := x] == (u + [x]) + old_[1..] + v;
  }

  lemma {:induction false} ReplaceRunApplies<T>(u: seq<T>, old_: seq<T>, v: seq<T>, news: seq<T>)
    requires |old_| == |news|
    ensures ApplyAll(ReplaceRun(|u|, news), u + old_ + v) == u + news + v
    decreases |old_|
  {
    hide *;
    ReplaceRunHead(|u|, news);
    if old_ == [] {
      ApplyNone(u + old_ + v);
      assert ReplaceRun(|u|, news) == [] && old_ == news;
    } else {
      ApplyHead(ReplaceRun(|u|, news), u + old_ + v);
      ReplaceMiddle(u, old_, v, news[0]);
      ReplaceRunApplies(u + [news[0]], old_[1..], v, news[1..]);
      HeadMoves(u, news);
    }
  }

  lemma HeadMoves<T>(u: seq<T>, xs: seq<T>)
    requires xs != []
    ensures u + [xs[0]] + xs[1..] == u + xs
  {
  }

  lemma RemoveRunHead<T>(lo: nat, hi: nat)
    requires lo <= hi
    ensures var run: seq<Edit<T>> := RemoveRun(lo, hi);
            && |run| == hi - lo
            && (lo < hi ==> run[0] == Remove(hi - 1) && run[1..] == RemoveRun<T>(lo, hi - 1))
  {
  }

  lemma RemoveOne<T>(x: seq<T>, y: T, z: seq<T>)
    ensures Apply(Remove(|x|), x + [y] + z) == x + z
  {
    var xs := x + [y] + z;
    assert xs[..|x|] == x && xs[|x| + 1..] == z;
  }

  lemma Regrouped<T>(u: seq<T>, x: seq<T>, y: T, v: seq<T>)
    ensures u + (x + [y]) + v == (u + x) + [y] + v
  {
  }

  lemma RemoveMiddle<T>(u: seq<T>, old_: seq<T>, v: seq<T>)
    requires old_ != []
    ensures Apply(Remove(|u| + |old_| - 1), u + old_ + v) == u + old_[..|old_| - 1] + v
  {
    hide *;
    var init, x := old_[..|old_| - 1], old_[|old_| - 1];
    assert old_ == init + [x];
    Regrouped(u, init, x, v);
    RemoveOne(u + init, x, v);
  }

  lemma {:induction false} RemoveRunApplies<T>(u: seq<T>, old_: seq<T>, v: seq<T>)
    ensures ApplyAll(RemoveRun(|u|, |u| + |old_|), u + old_ + v) == u + v
    decreases |old_|
  {
    hide *;
    var run: seq<Edit<T>> := RemoveRun(|u|, |u| + |old_|);
    RemoveRunHead<T>(|u|, |u| + |old_|);
    if old_ == [] {
      ApplyNone(u + old_ + v);
      assert run == [] && u + old_ == u;
    } else {
      ApplyHead(run, u + old_ + v);
      RemoveMiddle(u, old_, v);
      RemoveRunApplies(u, old_[..|old_| - 1], v);
    }
  }

  lemma {:induction false} AppendRunApplies<T>(xs: seq<T>, extras: seq<T>)
    ensures ApplyAll(AppendRun(extras), xs) == xs + extras
    decreases |extras|
  {
    if extras != [] {
      AppendRunApplies(xs + [extras[0]], extras[1..]);
      assert AppendRun(extras)[1..] == AppendRun(extras[1..]);
      assert xs + [extras[0]] + extras[1..] == xs + extras;
    }
  }

  lemma Assoc<T>(x: seq<T>, y: seq<T>, z: seq<T>)
    ensures (x + y) + z == x + (y + z)
  {
  }

  lemma Regroup<T>(u: seq<T>, x: seq<T>, y: seq<T>, z: seq<T>, rest: seq<T>)
    ensures (u + x + y + z) + rest == u + (x + y + (z + rest))
    ensures (u + x + y) + (z + rest) == u + (x + y + (z + rest))
    ensures (u + x) + (y + (z + rest)) == (u + x + y + z) + rest
    ensures u + x + y + (z + rest) == u + (x + y + (z + rest))
    ensures (u + x) + (z + rest) == u + (x + (z + rest))
  {
  }

  lemma NothingMore<T>(xs: seq<T>)
    ensures xs + [] == xs && [] + xs == xs
  {
  }

  lemma LastShared(p0: nat, n0: nat, b: nat, a: nat)
    requires p0 <= b && n0 <= a
    ensures Rising([], p0, n0, b, a) && Shared([], p0, n0, b, a) == Min(b - p0, a - n0)
  {
  }

  lemma LastOps<T>(p0: nat, n0: nat, b: nat, after: seq<T>)
    requires p0 <= b && n0 <= |after|
    ensures Rising([], p0, n0, b, |after|)
    ensures Replacements([], p0, n0, b, after) == ReplaceRun(p0, after[n0..n0 + Shared([], p0, n0, b, |after|)])
    ensures RemovalsDown<T>([], p0, n0, b, |after|) == RemoveRun<T>(p0 + Shared([], p0, n0, b, |after|), b)
  {
    hide ReplaceRun, RemoveRun;
    NothingMore(ReplaceRun(p0, after[n0..n0 + Shared([], p0, n0, b, |after|)]));
    NothingMore(RemoveRun<T>(p0 + Shared([], p0, n0, b, |after|), b));
  }

  lemma LastTexts<T>(p0: nat, n0: nat, before: seq<T>, after: seq<T>)
    requires p0 <= |before| && n0 <= |after|
    ensures Rising([], p0, n0, |before|, |after|)
    ensures InPlace([], p0, n0, |before|, after) == after[n0..n0 + Shared([], p0, n0, |before|, |after|)]
    ensures Extras([], p0, n0, |before|, after) == after[n0 + Shared([], p0, n0, |before|, |after|)..]
  {
    var s := Shared([], p0, n0, |before|, |after|);
    NothingMore(after[n0..n0 + s]);
    NothingMore(after[n0 + s..|after|]);
    assert after[n0 + s..|after|] == after[n0 + s..];
  }

  lemma LastReplaced<T>(p0: nat, n0: nat, before: seq<T>, after: seq<T>)
    requires p0 <= |before| && n0 <= |after|
    ensures Rising([], p0, n0, |before|, |after|)
    ensures Replaced([], p0, n0, before, after) ==
            after[n0..n0 + Shared([], p0, n0, |before|, |after|)] + before[p0 + Shared([], p0, n0, |before|, |after|)..]
  {
    var s := Shared([], p0, n0, |before|, |after|);
    assert before[p0 + s..|before|] == before[p0 + s..];
    NothingMore(after[n0..n0 + s] + before[p0 + s..]);
  }

  lemma UnfoldLast<T>(p0: nat, n0: nat, before: seq<T>, after: seq<T>)
    requires p0 <= |before| && n0 <= |after|
    ensures var s := Shared([], p0, n0, |before|, |after|);
            && n0 + s <= |after| && p0 + s <= |before|
            && var news, gone := after[n0..n0 + s], before[p0 + s..];
            && |news| == s
            && Replacements([], p0, n0, |before|, after) == ReplaceRun(p0, news)
            && RemovalsDown<T>([], p0, n0, |before|, |after|) == RemoveRun<T>(p0 + s, |before|)
            && Replaced([], p0, n0, before, after) == news + gone
            && InPlace([], p0, n0, |before|, after) == news
            && Extras([], p0, n0, |before|, after) == after[n0 + s..]
  {
    hide *;
    LastShared(p0, n0, |before|, |after|);
    LastOps(p0, n0, |before|, after);
    LastTexts(p0, n0, before, after);
    LastReplaced(p0, n0, before, after);
    MinIs(|before| - p0, |after| - n0);
  }

  lemma MinIs(x: int, y: int)
    ensures Min(x, y) == if x < y then x else y
  {
  }

  lemma UnfoldPair<T>(pairs: seq<(nat, nat)>, p0: nat, n0: nat, before: seq<T>, after: seq<T>)
    requires pairs != [] && Rising(pairs, p0, n0, |before|, |after|)
    ensures var (p, n) := pairs[0];
            var s := Shared(pairs, p0, n0, |before|, |after|);
            var news, gone, rest := after[n0..n0 + s], before[p0 + s..p], pairs[1..];
            && p0 <= p0 + s <= p < |before| && n0 <= n0 + s <= n < |after| && Rising(rest, p + 1, n + 1, |before|,
                |after|)
            && Replacements(pairs, p0, n0, |before|, after) == ReplaceRun(p0, news) +
                Replacements(rest, p + 1, n + 1, |before|, after)
            && RemovalsDown<T>(pairs, p0, n0, |before|, |after|)
               == RemovalsDown<T>(rest, p + 1, n + 1, |before|, |after|) + RemoveRun<T>(p0 + s, p)
            && Replaced(pairs, p0, n0, before, after) == news + gone +
                ([before[p]] + Replaced(rest, p + 1, n + 1, before, after))
            && InPlace(pairs, p0, n0, |before|, after) == news +
                ([after[n]] + InPlace(rest, p + 1, n + 1, |before|, after))
            && Extras(pairs, p0, n0, |before|, after) == after[n0 + s..n] + Extras(rest, p + 1, n + 1, |before|, after)
  {
  }

  lemma {:induction false} ReplacementsApply<T>(u: seq<T>, pairs: seq<(nat, nat)>, n0: nat, before: seq<T>,
      after: seq<T>)
    requires Rising(pairs, |u|, n0, |before|, |after|)
    ensures ApplyAll(Replacements(pairs, |u|, n0, |before|, after), u + before[|u|..]) == u +
              Replaced(pairs, |u|, n0, before, after)
    decreases |pairs|
  {
    hide *;
    var p0 := |u|;
    if pairs == [] {
      RisingBounds(pairs, p0, n0, |before|, |after|);
      UnfoldLast(p0, n0, before, after);
      var s := Shared(pairs, p0, n0, |before|, |after|);
      var news, gone := after[n0..n0 + s], before[p0 + s..];
      ReplaceRunApplies(u, before[p0..p0 + s], gone, news);
      assert before[p0..] == before[p0..p0 + s] + gone;
      Assoc(u, before[p0..p0 + s], gone);
      Assoc(u, news, gone);
    } else {
      UnfoldPair(pairs, p0, n0, before, after);
      var (p, n) := pairs[0];
      var s := Shared(pairs, p0, n0, |before|, |after|);
      var news, gone, same := after[n0..n0 + s], before[p0 + s..p], [before[p]];
      var u' := u + news + gone + same;
      var rest := Replacements(pairs[1..], p + 1, n + 1, |before|, after);
      ReplaceRunApplies(u, before[p0..p0 + s], before[p0 + s..], news);
      assert before[p0..] == before[p0..p0 + s] + before[p0 + s..];
      Assoc(u, before[p0..p0 + s], before[p0 + s..]);
      ApplyConcat(ReplaceRun(p0, news), rest, u + before[p0..]);
      ReplacementsApply(u', pairs[1..], n + 1, before, after);
      assert before[p0 + s..] == gone + (same + before[p + 1..]);
      Regroup(u, news, gone, same, before[p + 1..]);
      Regroup(u, news, gone, same, Replaced(pairs[1..], p + 1, n + 1, before, after));
    }
  }

  lemma RisingBounds(pairs: seq<(nat, nat)>, p0: nat, n0: nat, b: nat, a: nat)
    requires Rising(pairs, p0, n0, b, a)
    ensures p0 <= b && n0 <= a
  {
  }

  lemma {:induction false} RemovalsApply<T>(u: seq<T>, pairs: seq<(nat, nat)>, n0: nat, before: seq<T>, after: seq<T>)
    requires Rising(pairs, |u|, n0, |before|, |after|)
    requires Agree(pairs, before, after)
    ensures ApplyAll(RemovalsDown(pairs, |u|, n0, |before|, |after|), u + Replaced(pairs, |u|, n0, before, after))
            == u + InPlace(pairs, |u|, n0, |before|, after)
    decreases |pairs|
  {
    hide *;
    var p0 := |u|;
    if pairs == [] {
      RisingBounds(pairs, p0, n0, |before|, |after|);
      UnfoldLast(p0, n0, before, after);
      var s := Shared(pairs, p0, n0, |before|, |after|);
      var news, gone := after[n0..n0 + s], before[p0 + s..];
      RemoveRunApplies(u + news, gone, []);
      assert u + news + gone + [] == u + (news + gone);
      assert u + news + [] == u + news;
    } else {
      UnfoldPair(pairs, p0, n0, before, after);
      AgreeTail(pairs, before, after);
      var (p, n) := pairs[0];
      var s := Shared(pairs, p0, n0, |before|, |after|);
      var news, gone, same := after[n0..n0 + s], before[p0 + s..p], [before[p]];
      var u' := u + news + gone + same;
      var tail, tail' := InPlace(pairs[1..], p + 1, n + 1, |before|, after), Replaced(pairs[1..], p + 1, n + 1,
          before, after);
      RemovalsApply(u', pairs[1..], n + 1, before, after);
      ApplyConcat(RemovalsDown(pairs[1..], p + 1, n + 1, |before|, |after|), RemoveRun(p0 + s, p), u +
          Replaced(pairs, p0, n0, before, after));
      RemoveRunApplies(u + news, gone, same + tail);
      Regroup(u, news, gone, same, tail');
      Regroup(u, news, gone, same, tail);
    }
  }

  ghost predicate Agree<T>(pairs: seq<(nat, nat)>, before: seq<T>, after: seq<T>) {
    forall k :: 0 <= k < |pairs| ==>
        pairs[k].0 < |before| && pairs[k].1 < |after| && before[pairs[k].0] == after[pairs[k].1]
  }

  lemma AgreeTail<T>(pairs: seq<(nat, nat)>, before: seq<T>, after: seq<T>)
    requires Agree(pairs, before, after) && pairs != []
    ensures pairs[0].0 < |before| && pairs[0].1 < |after| && before[pairs[0].0] == after[pairs[0].1]
    ensures Agree(pairs[1..], before, after)
  {
  }

  // ----- The removals' order

  ghost predicate Down<T>(edits: seq<Edit<T>>) {
    && (forall k :: 0 <= k < |edits| ==> edits[k].Remove?)
    && (forall k, l :: 0 <= k < l < |edits| ==> edits[k].index >= edits[l].index)
  }

  lemma InsertDown<T>(xs: seq<Edit<T>>, j: nat, e: Edit<T>)
    requires Down(xs) && e.Remove? && j <= |xs|
    requires forall k :: 0 <= k < j ==> xs[k].index >= e.index
    requires j < |xs| ==> e.index >= xs[j].index
    ensures Down(xs[..j] + [e] + xs[j..])
    ensures multiset(xs[..j] + [e] + xs[j..]) == multiset(xs) + multiset{e}
  {
    Inserted(xs, j, e);
    InsertedAt(xs, j, e);
    var more := InsertAt(xs, j, e);
    assert more == xs[..j] + [e] + xs[j..];
    hide InsertAt;
    forall k, l | 0 <= k < l < |more| ensures more[k].index >= more[l].index {
      assert j < |xs| && j < l ==> xs[j].index >= xs[l - 1].index;
    }
  }

  /** removals.sort((left, right) => right - left): any list with the same operations, highest index first. */
  method SortDown<T>(edits: seq<Edit<T>>) returns (sorted: seq<Edit<T>>)
    requires forall k :: 0 <= k < |edits| ==> edits[k].Remove?
    ensures Down(sorted) && multiset(sorted) == multiset(edits)
  {
    sorted := [];
    for i := 0 to |edits|
      invariant Down(sorted) && multiset(sorted) == multiset(edits[..i])
    {
      var j := 0;
      while j < |sorted| && sorted[j].index >= edits[i].index
        invariant j <= |sorted|
        invariant forall k :: 0 <= k < j ==> sorted[k].index >= edits[i].index
      {
        j := j + 1;
      }
      InsertDown(sorted, j, edits[i]);
      assert edits[..i + 1] == edits[..i] + [edits[i]];
      sorted := sorted[..j] + [edits[i]] + sorted[j..];
    }
    assert edits[..|edits|] == edits;
  }

  lemma DownHead<T>(x: seq<Edit<T>>, y: seq<Edit<T>>)
    requires Down(x) && Down(y) && multiset(x) == multiset(y) && x != [] && y != []
    ensures x[0] == y[0] && Down(x[1..]) && Down(y[1..])
  {
    assert x[0] in multiset(y) && y[0] in multiset(x);
  }

  lemma {:induction false} DownIsUnique<T>(x: seq<Edit<T>>, y: seq<Edit<T>>)
    requires Down(x) && Down(y) && multiset(x) == multiset(y)
    ensures x == y
  {
    hide *;
    assert |multiset(x)| == |x| && |multiset(y)| == |y|;
    if x != [] {
      DownHead(x, y);
      SameTails(x, y);
      DownIsUnique(x[1..], y[1..]);
      assert x == [x[0]] + x[1..] && y == [y[0]] + y[1..];
    }
  }

  /** A list of removals going down, of indices in [lo, hi) only. */
  ghost predicate DownIn<T>(edits: seq<Edit<T>>, lo: nat, hi: nat) {
    Down(edits) && forall k :: 0 <= k < |edits| ==> lo <= edits[k].index < hi
  }

  lemma DownConcat<T>(x: seq<Edit<T>>, y: seq<Edit<T>>, lo: nat, mid: nat, hi: nat)
    requires lo <= mid <= hi && DownIn(x, mid, hi) && DownIn(y, lo, mid)
    ensures DownIn(x + y, lo, hi)
  {
  }

  lemma RunDown<T>(from: nat, lo: nat, hi: nat)
    requires from <= lo <= hi
    ensures DownIn(RemoveRun<T>(lo, hi), from, hi)
  {
  }

  lemma {:induction false} RemovalsSorted<T>(pairs: seq<(nat, nat)>, p0: nat, n0: nat, before: seq<T>, after: seq<T>)
    requires Rising(pairs, p0, n0, |before|, |after|)
    ensures DownIn(RemovalsDown<T>(pairs, p0, n0, |before|, |after|), p0, |before|)
    ensures multiset(Removals<T>(pairs, p0, n0, |before|, |after|)) ==
              multiset(RemovalsDown<T>(pairs, p0, n0, |before|, |after|))
    decreases |pairs|
  {
    hide *;
    RisingBounds(pairs, p0, n0, |before|, |after|);
    UnfoldRemovals<T>(pairs, p0, n0, |before|, |after|);
    if pairs == [] {
      UnfoldLast(p0, n0, before, after);
      RunDown<T>(p0, p0 + Shared(pairs, p0, n0, |before|, |after|), |before|);
    } else {
      UnfoldPair(pairs, p0, n0, before, after);
      var (p, n) := pairs[0];
      var s := Shared(pairs, p0, n0, |before|, |after|);
      RemovalsSorted(pairs[1..], p + 1, n + 1, before, after);
      RunDown<T>(p0, p0 + s, p);
      DownWiden(RemoveRun<T>(p0 + s, p), p0, p, p + 1);
      DownConcat(RemovalsDown<T>(pairs[1..], p + 1, n + 1, |before|, |after|), RemoveRun<T>(p0 + s, p), p0, p + 1,
          |before|);
    }
  }

  lemma DownWiden<T>(xs: seq<Edit<T>>, lo: nat, mid: nat, hi: nat)
    requires DownIn(xs, lo, mid) && mid <= hi
    ensures DownIn(xs, lo, hi)
  {
  }

  lemma UnfoldRemovals<T>(pairs: seq<(nat, nat)>, p0: nat, n0: nat, b: nat, a: nat)
    requires Rising(pairs, p0, n0, b, a)
    ensures p0 + Shared(pairs, p0, n0, b, a) <= GapEnd(pairs, b, a).0
    ensures pairs == [] ==>
              GapEnd(pairs, b, a).0 == b
              && Removals<T>(pairs, p0, n0, b, a) == RemoveRun<T>(p0 + Shared(pairs, p0, n0, b, a), b)
    ensures pairs != [] ==> GapEnd(pairs, b, a) == pairs[0] && Rising(pairs[1..], pairs[0].0 + 1, pairs[0].1 + 1, b, a)
    ensures pairs != [] ==> Removals<T>(pairs, p0, n0, b, a) ==
                            RemoveRun<T>(p0 + Shared(pairs, p0, n0, b, a), pairs[0].0) +
                            Removals<T>(pairs[1..], pairs[0].0 + 1, pairs[0].1 + 1, b, a)
  {
  }

  // ----- arrayOperations

  /** The three loops over one gap. */
  method GapOperations<T>(after: seq<T>, previousStart: nat, previousEnd: nat, nextStart: nat, nextEnd: nat)
    returns (replacements: seq<Edit<T>>, removals: seq<Edit<T>>, additions: seq<Edit<T>>)
    requires previousStart <= previousEnd && nextStart <= nextEnd <= |after|
    ensures var shared := Min(previousEnd - previousStart, nextEnd - nextStart);
            && replacements == ReplaceRun(previousStart, after[nextStart..nextStart + shared])
            && removals == RemoveRun<T>(previousStart + shared, previousEnd)
            && additions == AppendRun(after[nextStart + shared..nextEnd])
  {
    var shared := Min(previousEnd - previousStart, nextEnd - nextStart);
    replacements, removals, additions := [], [], [];
    ghost var replaceRun := ReplaceRun(previousStart, after[nextStart..nextStart + shared]);
    for index := 0 to shared
      invariant |replaceRun| == shared && replacements == replaceRun[..index]
    {
      ReplaceRunAt(previousStart, after[nextStart..nextStart + shared], index);
      TakeMore(replaceRun, index);
      replacements := replacements + [Replace(previousStart + index, after[nextStart + index])];
    }
    ghost var removeRun: seq<Edit<T>> := RemoveRun(previousStart + shared, previousEnd);
    var length := previousEnd - previousStart;
    for index := length downto shared
      invariant |removeRun| == length - shared && removals == removeRun[..length - index]
    {
      RemoveRunAt<T>(previousStart + shared, previousEnd, length - index - 1);
      TakeMore(removeRun, length - index - 1);
      removals := removals + [Remove(previousStart + index)];
    }
    ghost var appendRun := AppendRun(after[nextStart + shared..nextEnd]);
    for index := shared to nextEnd - nextStart
      invariant |appendRun| == nextEnd - nextStart - shared && additions == appendRun[..index - shared]
    {
      AppendRunAt(after[nextStart + shared..nextEnd], index - shared);
      TakeMore(appendRun, index - shared);
      additions := additions + [Append(after[nextStart + index])];
    }
  }

  lemma TakeMore<T>(xs: seq<T>, k: nat)
    requires k < |xs|
    ensures xs[..k + 1] == xs[..k] + [xs[k]]
  {
  }

  lemma ReplaceRunAt<T>(p: nat, news: seq<T>, k: nat)
    requires k < |news|
    ensures ReplaceRun(p, news)[k] == Replace(p + k, news[k])
  {
  }

  lemma RemoveRunAt<T>(lo: nat, hi: nat, k: nat)
    requires lo <= hi && k < hi - lo
    ensures RemoveRun<T>(lo, hi)[k] == Remove(hi - 1 - k)
  {
  }

  lemma AppendRunAt<T>(xs: seq<T>, k: nat)
    requires k < |xs|
    ensures AppendRun(xs)[k] == Append(xs[k])
  {
  }

  lemma AppendRunConcat<T>(x: seq<T>, y: seq<T>)
    ensures AppendRun(x + y) == AppendRun(x) + AppendRun(y)
  {
  }

  /** The greedy pairs rise and agree, so they split both arrays into gaps. */
  lemma {:induction false} WalkRises<T>(before: seq<T>, after: seq<T>, i: nat, j: nat, p0: nat, n0: nat)
    requires p0 <= i <= |before| && n0 <= j <= |after|
    ensures Rising(Lcs.Walk(before, after, i, j), p0, n0, |before|, |after|)
    ensures Agree(Lcs.Walk(before, after, i, j), before, after)
    decreases |before| - i + |after| - j
  {
    if i == |before| || j == |after| {
    } else if before[i] == after[j] {
      WalkRises(before, after, i + 1, j + 1, i + 1, j + 1);
    } else if Lcs.Len(before, after, i + 1, j) >= Lcs.Len(before, after, i, j + 1) {
      WalkRises(before, after, i + 1, j, p0, n0);
    } else {
      WalkRises(before, after, i, j + 1, p0, n0);
    }
  }

  /** The operations for a whole array, as the walk's gaps call for them. */
  ghost function Operations<T>(pairs: seq<(nat, nat)>, before: seq<T>, after: seq<T>): seq<Edit<T>>
    requires Rising(pairs, 0, 0, |before|, |after|)
  {
    Replacements(pairs, 0, 0, |before|, after) + RemovalsDown<T>(pairs, 0, 0, |before|, |after|) +
    AppendRun(Extras(pairs, 0, 0, |before|, after))
  }

  method ArrayOperations<T(==)>(before: seq<T>, after: seq<T>) returns (ops: seq<Edit<T>>)
    ensures Rising(Lcs.Walk(before, after, 0, 0), 0, 0, |before|, |after|)
    ensures ops == Operations(Lcs.Walk(before, after, 0, 0), before, after)
  {
    hide *;
    var pairs := UnchangedPairs(before, after);
    WalkRises(before, after, 0, 0, 0, 0);
    var replacements: seq<Edit<T>>, removals: seq<Edit<T>>, additions: seq<Edit<T>> := [], [], [];
    var previousStart, nextStart := 0, 0;
    ghost var b, a := |before|, |after|;
    for k := 0 to |pairs|
      invariant Rising(pairs[k..], previousStart, nextStart, b, a)
      invariant replacements + Replacements(pairs[k..], previousStart, nextStart, b, after) ==
                  Replacements(pairs, 0, 0, b, after)
      invariant removals + Removals(pairs[k..], previousStart, nextStart, b, a) == Removals(pairs, 0, 0, b, a)
      invariant additions + AppendRun(Extras(pairs[k..], previousStart, nextStart, b, after)) ==
                  AppendRun(Extras(pairs, 0, 0, b, after))
    {
      UnfoldGap(pairs[k..], previousStart, nextStart, before, after);
      assert pairs[k..][1..] == pairs[k + 1..];
      var (previousIndex, nextIndex) := pairs[k];
      var replace, remove, add := GapOperations(after, previousStart, previousIndex, nextStart, nextIndex);
      replacements, removals, additions := replacements + replace, removals + remove, additions + add;
      previousStart, nextStart := previousIndex + 1, nextIndex + 1;
    }
    assert pairs[|pairs|..] == [];
    RisingBounds([], previousStart, nextStart, b, a);
    UnfoldLastGap(previousStart, nextStart, before, after);
    var replace, remove, add := GapOperations(after, previousStart, |before|, nextStart, |after|);
    RemovalsSorted(pairs, 0, 0, before, after);
    DownFacts(RemovalsDown<T>(pairs, 0, 0, b, a), removals + remove, b);
    var sorted := SortDown(removals + remove);
    DownIsUnique(sorted, RemovalsDown(pairs, 0, 0, b, a));
    ops := replacements + replace + sorted + (additions + add);
    UnfoldOperations(pairs, before, after);
  }

  lemma UnfoldOperations<T>(pairs: seq<(nat, nat)>, before: seq<T>, after: seq<T>)
    requires Rising(pairs, 0, 0, |before|, |after|)
    ensures Operations(pairs, before, after) ==
            Replacements(pairs, 0, 0, |before|, after) + RemovalsDown<T>(pairs, 0, 0, |before|, |after|) +
            AppendRun(Extras(pairs, 0, 0, |before|, after))
  {
  }

  lemma DownFacts<T>(xs: seq<Edit<T>>, ys: seq<Edit<T>>, hi: nat)
    requires DownIn(xs, 0, hi) && multiset(xs) == multiset(ys)
    ensures Down(xs)
    ensures forall k :: 0 <= k < |ys| ==> ys[k].Remove?
  {
    forall k | 0 <= k < |ys| ensures ys[k].Remove? {
      assert ys[k] in multiset(ys);
      assert ys[k] in multiset(xs);
    }
  }

  /** One gap's share of the three lists, as GapOperations computes it. */
  lemma UnfoldGap<T>(pairs: seq<(nat, nat)>, p0: nat, n0: nat, before: seq<T>, after: seq<T>)
    requires pairs != [] && Rising(pairs, p0, n0, |before|, |after|)
    ensures var b, a := |before|, |after|;
            var (p, n) := pairs[0];
            && p0 <= p <= b && n0 <= n <= a
            && Rising(pairs[1..], p + 1, n + 1, b, a)
            && var s := Min(p - p0, n - n0);
            && 0 <= s && p0 + s <= p && n0 + s <= n
            && Replacements(pairs, p0, n0, b, after) == ReplaceRun(p0, after[n0..n0 + s]) +
                Replacements(pairs[1..], p + 1, n + 1, b, after)
            && Removals<T>(pairs, p0, n0, b, a) == RemoveRun<T>(p0 + s, p) + Removals<T>(pairs[1..], p + 1, n + 1, b, a)
            && AppendRun(Extras(pairs, p0, n0, b, after)) ==
               AppendRun(after[n0 + s..n]) + AppendRun(Extras(pairs[1..], p + 1, n + 1, b, after))
  {
    hide *;
    UnfoldPair(pairs, p0, n0, before, after);
    UnfoldRemovals<T>(pairs, p0, n0, |before|, |after|);
    var (p, n) := pairs[0];
    SharedIsMin(pairs, p0, n0, |before|, |after|);
    var s := Shared(pairs, p0, n0, |before|, |after|);
    AppendRunConcat(after[n0 + s..n], Extras(pairs[1..], p + 1, n + 1, |before|, after));
  }

  lemma UnfoldLastGap<T>(p0: nat, n0: nat, before: seq<T>, after: seq<T>)
    requires p0 <= |before| && n0 <= |after|
    ensures var b, a := |before|, |after|;
            var s := Min(b - p0, a - n0);
            && 0 <= s && p0 + s <= b && n0 + s <= a
            && Replacements([], p0, n0, b, after) == ReplaceRun(p0, after[n0..n0 + s])
            && Removals<T>([], p0, n0, b, a) == RemoveRun<T>(p0 + s, b)
            && Extras([], p0, n0, b, after) == after[n0 + s..a]
  {
    hide *;
    UnfoldLast(p0, n0, before, after);
    SharedIsMin([], p0, n0, |before|, |after|);
    UnfoldRemovals<T>([], p0, n0, |before|, |after|);
  }

  lemma SharedIsMin(pairs: seq<(nat, nat)>, p0: nat, n0: nat, b: nat, a: nat)
    requires Rising(pairs, p0, n0, b, a)
    ensures var (p, n) := if pairs == [] then (b, a) else pairs[0];
            Shared(pairs, p0, n0, b, a) == Min(p - p0, n - n0)
    ensures pairs == [] ==> GapEnd(pairs, b, a) == (b, a)
  {
  }

  // ----- Replaying arrayOperations

  /** What replaying gives: everything written in place, then the elements that did not fit. */
  lemma ReplayGives<T>(pairs: seq<(nat, nat)>, before: seq<T>, after: seq<T>)
    requires pairs == Lcs.Walk(before, after, 0, 0)
    requires Rising(pairs, 0, 0, |before|, |after|)
    ensures ApplyAll(Operations(pairs, before, after), before) ==
            InPlace(pairs, 0, 0, |before|, after) + Extras(pairs, 0, 0, |before|, after)
  {
    WalkRises(before, after, 0, 0, 0, 0);
    hide *;
    var replace, remove := Replacements(pairs, 0, 0, |before|, after), RemovalsDown<T>(pairs, 0, 0, |before|, |after|);
    var append := AppendRun(Extras(pairs, 0, 0, |before|, after));
    UnfoldOperations(pairs, before, after);
    ApplyConcat(replace + remove, append, before);
    ApplyConcat(replace, remove, before);
    ReplacementsApply([], pairs, 0, before, after);
    RemovalsApply([], pairs, 0, before, after);
    assert [] + before[0..] == before;
    assert [] + Replaced(pairs, 0, 0, before, after) == Replaced(pairs, 0, 0, before, after);
    assert [] + InPlace(pairs, 0, 0, |before|, after) == InPlace(pairs, 0, 0, |before|, after);
    AppendRunApplies(InPlace(pairs, 0, 0, |before|, after), Extras(pairs, 0, 0, |before|, after));
  }

  /** The elements of one gap and of the rest. */
  lemma GapSums<T>(pairs: seq<(nat, nat)>, p0: nat, n0: nat, before: seq<T>, after: seq<T>)
    returns (s: nat)
    requires pairs != [] && Rising(pairs, p0, n0, |before|, |after|)
    ensures n0 + s <= pairs[0].1 < |after| && Rising(pairs[1..], pairs[0].0 + 1, pairs[0].1 + 1, |before|, |after|)
    ensures multiset(InPlace(pairs, p0, n0, |before|, after)) ==
            multiset(after[n0..n0 + s]) + (multiset{after[pairs[0].1]} +
                multiset(InPlace(pairs[1..], pairs[0].0 + 1, pairs[0].1 + 1, |before|, after)))
    ensures multiset(Extras(pairs, p0, n0, |before|, after)) ==
            multiset(after[n0 + s..pairs[0].1]) + multiset(Extras(pairs[1..], pairs[0].0 + 1, pairs[0].1 + 1,
                |before|, after))
  {
    hide *;
    UnfoldPair(pairs, p0, n0, before, after);
    s := Shared(pairs, p0, n0, |before|, |after|);
    Sum(after[n0..n0 + s], [after[pairs[0].1]] + InPlace(pairs[1..], pairs[0].0 + 1, pairs[0].1 + 1, |before|, after));
    SumHead(after[pairs[0].1], InPlace(pairs[1..], pairs[0].0 + 1, pairs[0].1 + 1, |before|, after));
    Sum(after[n0 + s..pairs[0].1], Extras(pairs[1..], pairs[0].0 + 1, pairs[0].1 + 1, |before|, after));
  }

  lemma Sum<T>(x: seq<T>, y: seq<T>)
    ensures multiset(x + y) == multiset(x) + multiset(y)
  {
  }

  lemma SumHead<T>(x: T, y: seq<T>)
    ensures multiset([x] + y) == multiset{x} + multiset(y)
  {
  }

  lemma SumSlices<T>(xs: seq<T>, i: nat, j: nat, k: nat)
    requires i <= j <= k < |xs|
    ensures multiset(xs[i..]) == multiset(xs[i..j]) + multiset(xs[j..k]) + (multiset{xs[k]} + multiset(xs[k + 1..]))
  {
    assert xs[i..] == xs[i..j] + (xs[j..k] + ([xs[k]] + xs[k + 1..]));
    Sum(xs[i..j], xs[j..k] + ([xs[k]] + xs[k + 1..]));
    Sum(xs[j..k], [xs[k]] + xs[k + 1..]);
    SumHead(xs[k], xs[k + 1..]);
  }

  lemma Rearrange<T>(a: multiset<T>, x: multiset<T>, m: multiset<T>, e: multiset<T>, r: multiset<T>, t: multiset<T>)
    requires m + r == t
    ensures (a + (x + m)) + (e + r) == a + e + (x + t)
  {
  }

  lemma TailRises(pairs: seq<(nat, nat)>, p0: nat, n0: nat, b: nat, a: nat)
    requires pairs != [] && Rising(pairs, p0, n0, b, a)
    ensures pairs[0].1 < a && Rising(pairs[1..], pairs[0].0 + 1, pairs[0].1 + 1, b, a)
  {
  }

  lemma OneGap<T>(p0: nat, n0: nat, before: seq<T>, after: seq<T>)
    requires p0 <= |before| && n0 <= |after|
    ensures Rising([], p0, n0, |before|, |after|)
    ensures multiset(InPlace([], p0, n0, |before|, after)) + multiset(Extras([], p0, n0, |before|, after)) ==
              multiset(after[n0..])
  {
    hide *;
    LastShared(p0, n0, |before|, |after|);
    UnfoldLast(p0, n0, before, after);
    var s := Shared([], p0, n0, |before|, |after|);
    Sum(after[n0..n0 + s], after[n0 + s..]);
    assert after[n0..] == after[n0..n0 + s] + after[n0 + s..];
  }

  lemma {:induction false} SameElements<T>(pairs: seq<(nat, nat)>, p0: nat, n0: nat, before: seq<T>, after: seq<T>)
    requires Rising(pairs, p0, n0, |before|, |after|)
    ensures n0 <= |after|
    ensures multiset(InPlace(pairs, p0, n0, |before|, after)) + multiset(Extras(pairs, p0, n0, |before|, after)) ==
              multiset(after[n0..])
    decreases |pairs|
  {
    hide *;
    RisingBounds(pairs, p0, n0, |before|, |after|);
    if pairs == [] {
      OneGap(p0, n0, before, after);
    } else {
      TailRises(pairs, p0, n0, |before|, |after|);
      SameElements(pairs[1..], pairs[0].0 + 1, pairs[0].1 + 1, before, after);
      var s := GapSums(pairs, p0, n0, before, after);
      SumSlices(after, n0, n0 + s, pairs[0].1);
      Rearrange(multiset(after[n0..n0 + s]), multiset{after[pairs[0].1]},
                multiset(InPlace(pairs[1..], pairs[0].0 + 1, pairs[0].1 + 1, |before|, after)),
                multiset(after[n0 + s..pairs[0].1]),
                multiset(Extras(pairs[1..], pairs[0].0 + 1, pairs[0].1 + 1, |before|, after)),
                multiset(after[pairs[0].1 + 1..]));
    }
  }

  /** Replaying the operations never loses, adds or changes an element: only the order can differ. */
  lemma ReplayPermutes<T>(before: seq<T>, after: seq<T>)
    ensures Rising(Lcs.Walk(before, after, 0, 0), 0, 0, |before|, |after|)
    ensures multiset(ApplyAll(Operations(Lcs.Walk(before, after, 0, 0), before, after), before)) == multiset(after)
  {
    var pairs := Lcs.Walk(before, after, 0, 0);
    WalkRises(before, after, 0, 0, 0, 0);
    hide *;
    ReplayGives(pairs, before, after);
    SameElements(pairs, 0, 0, before, after);
    Sum(InPlace(pairs, 0, 0, |before|, after), Extras(pairs, 0, 0, |before|, after));
    assert after[0..] == after;
  }

  /** No gap but the last has more new elements than old ones. */
  predicate Fits(pairs: seq<(nat, nat)>, p0: nat, n0: nat) {
    pairs == [] || (pairs[0].1 - n0 <= pairs[0].0 - p0 && Fits(pairs[1..], pairs[0].0 + 1, pairs[0].1 + 1))
  }

  lemma {:induction false} FittingReplays<T>(pairs: seq<(nat, nat)>, p0: nat, n0: nat, before: seq<T>, after: seq<T>)
    requires Rising(pairs, p0, n0, |before|, |after|) && Fits(pairs, p0, n0)
    ensures n0 <= |after|
    ensures InPlace(pairs, p0, n0, |before|, after) + Extras(pairs, p0, n0, |before|, after) == after[n0..]
    decreases |pairs|
  {
    hide *;
    RisingBounds(pairs, p0, n0, |before|, |after|);
    if pairs == [] {
      UnfoldLast(p0, n0, before, after);
    } else {
      UnfoldPair(pairs, p0, n0, before, after);
      UnfoldFits(pairs, p0, n0, |before|, |after|);
      var (p, n) := pairs[0];
      FittingReplays(pairs[1..], p + 1, n + 1, before, after);
      var core, extras := InPlace(pairs[1..], p + 1, n + 1, |before|, after), Extras(pairs[1..], p + 1, n + 1,
          |before|, after);
      Assoc(after[n0..n], [after[n]], core);
      assert after[n0..] == after[n0..n] + [after[n]] + after[n + 1..];
      assert after[n0..n] + ([after[n]] + core) + ([] + extras) == after[n0..n] + [after[n]] + (core + extras);
    }
  }

  lemma UnfoldFits(pairs: seq<(nat, nat)>, p0: nat, n0: nat, b: nat, a: nat)
    requires pairs != [] && Rising(pairs, p0, n0, b, a)
    ensures var (p, n) := pairs[0];
            var s := Shared(pairs, p0, n0, b, a);
            && (Fits(pairs, p0, n0) <==> s == n - n0 && Fits(pairs[1..], p + 1, n + 1))
            && s <= n - n0
  {
  }

  lemma {:induction false} WalkTail<T>(before: seq<T>, after: seq<T>, i: nat, j: nat)
    requires i <= |before| && j <= |after| && Lcs.Walk(before, after, i, j) != []
    ensures var pairs := Lcs.Walk(before, after, i, j);
            pairs[0].0 < |before| && pairs[0].1 < |after| && pairs[1..] == Lcs.Walk(before, after, pairs[0].0 + 1,
                pairs[0].1 + 1)
    decreases |before| - i + |after| - j
  {
    if before[i] == after[j] {
    } else if Lcs.Len(before, after, i + 1, j) >= Lcs.Len(before, after, i, j + 1) {
      WalkTail(before, after, i + 1, j);
    } else {
      WalkTail(before, after, i, j + 1);
    }
  }

  /** Where the unchanged elements end up, as pairs of an old index and an index of the result. */
  ghost function Landed(pairs: seq<(nat, nat)>, p0: nat, n0: nat, b: nat, a: nat, q: nat): seq<(nat, nat)>
    requires Rising(pairs, p0, n0, b, a)
  {
    if pairs == [] then []
    else
      var at := q + Shared(pairs, p0, n0, b, a);
      [(pairs[0].0, at)] + Landed(pairs[1..], pairs[0].0 + 1, pairs[0].1 + 1, b, a, at + 1)
  }

  lemma UnfoldLanded(pairs: seq<(nat, nat)>, p0: nat, n0: nat, b: nat, a: nat, q: nat)
    requires pairs != [] && Rising(pairs, p0, n0, b, a)
    ensures Rising(pairs[1..], pairs[0].0 + 1, pairs[0].1 + 1, b, a)
    ensures var at := q + Shared(pairs, p0, n0, b, a);
            Landed(pairs, p0, n0, b, a, q) == [(pairs[0].0, at)] + Landed(pairs[1..], pairs[0].0 + 1, pairs[0].1 + 1,
                b, a, at + 1)
  {
  }

  lemma PrependMatch<T>(before: seq<T>, t: seq<T>, p0: nat, q: nat, p: nat, at: nat, rest: seq<(nat, nat)>)
    requires p0 <= p < |before| && q <= at < |t| && before[p] == t[at]
    requires Lcs.Matching(before, t, p + 1, at + 1, rest)
    ensures Lcs.Matching(before, t, p0, q, [(p, at)] + rest)
  {
  }

  lemma {:induction false} LandedMatches<T>(pairs: seq<(nat, nat)>, p0: nat, n0: nat, before: seq<T>, after: seq<T>,
      t: seq<T>, q: nat)
    requires Rising(pairs, p0, n0, |before|, |after|) && Agree(pairs, before, after)
    requires q + |InPlace(pairs, p0, n0, |before|, after)| <= |t|
    requires t[q..q + |InPlace(pairs, p0, n0, |before|, after)|] == InPlace(pairs, p0, n0, |before|, after)
    ensures Lcs.Matching(before, t, p0, q, Landed(pairs, p0, n0, |before|, |after|, q))
    ensures |Landed(pairs, p0, n0, |before|, |after|, q)| == |pairs|
    decreases |pairs|
  {
    hide *;
    if pairs == [] {
      LandedNone(before, t, p0, n0, |before|, |after|, q);
    } else {
      UnfoldPair(pairs, p0, n0, before, after);
      UnfoldLanded(pairs, p0, n0, |before|, |after|, q);
      AgreeTail(pairs, before, after);
      var (p, n) := pairs[0];
      var s := Shared(pairs, p0, n0, |before|, |after|);
      var tail := InPlace(pairs[1..], p + 1, n + 1, |before|, after);
      Cut(t, q, after[n0..n0 + s], after[n], tail);
      LandedMatches(pairs[1..], p + 1, n + 1, before, after, t, q + s + 1);
      PrependMatch(before, t, p0, q, p, q + s, Landed(pairs[1..], p + 1, n + 1, |before|, |after|, q + s + 1));
    }
  }

  lemma LandedNone<T>(before: seq<T>, t: seq<T>, p0: nat, n0: nat, b: nat, a: nat, q: nat)
    requires Rising([], p0, n0, b, a)
    ensures Landed([], p0, n0, b, a, q) == []
    ensures Lcs.Matching(before, t, p0, q, [])
  {
  }

  lemma Cut<T>(t: seq<T>, q: nat, x: seq<T>, y: T, z: seq<T>)
    requires q + |x + ([y] + z)| <= |t| && t[q..q + |x + ([y] + z)|] == x + ([y] + z)
    ensures t[q + |x|] == y
    ensures t[q + |x| + 1..q + |x| + 1 + |z|] == z
  {
    var w := t[q..q + |x + ([y] + z)|];
    assert w[|x|] == y;
    assert w[|x| + 1..] == z;
  }

  /**
   A replay that gives exactly `after` has no overfull gap before the last. Otherwise the first
   unchanged element after such a gap lands earlier in the result than the greedy walk put it,
   although the walk starts as early as any longest common subsequence can.
   */
  lemma {:induction false} ExactFits<T>(pairs: seq<(nat, nat)>, p0: nat, n0: nat, before: seq<T>, after: seq<T>)
    requires p0 <= |before| && n0 <= |after| && pairs == Lcs.Walk(before, after, p0, n0)
    requires Rising(pairs, p0, n0, |before|, |after|) && Agree(pairs, before, after)
    requires InPlace(pairs, p0, n0, |before|, after) + Extras(pairs, p0, n0, |before|, after) == after[n0..]
    ensures Fits(pairs, p0, n0)
    decreases |pairs|
  {
    hide *;
    if pairs == [] {
      FitsNone(p0, n0);
    } else {
      NotOverfull(pairs, p0, n0, before, after);
      UnfoldPair(pairs, p0, n0, before, after);
      UnfoldFits(pairs, p0, n0, |before|, |after|);
      var (p, n) := pairs[0];
      assert after[n..n] == [];
      SameTail(after, n0, n, InPlace(pairs[1..], p + 1, n + 1, |before|, after), Extras(pairs[1..], p + 1, n + 1,
          |before|, after));
      AgreeTail(pairs, before, after);
      WalkTail(before, after, p0, n0);
      ExactFits(pairs[1..], p + 1, n + 1, before, after);
    }
  }

  lemma FitsNone(p0: nat, n0: nat)
    ensures Fits([], p0, n0)
  {
  }

  lemma SameTail<T>(after: seq<T>, n0: nat, n: nat, core: seq<T>, extras: seq<T>)
    requires n0 <= n < |after|
    requires after[n0..n] + ([after[n]] + core) + ([] + extras) == after[n0..]
    ensures core + extras == after[n + 1..]
  {
    var whole := after[n0..n] + ([after[n]] + core) + ([] + extras);
    assert whole[n - n0 + 1..] == core + extras;
    assert after[n0..][n - n0 + 1..] == after[n + 1..];
  }

  lemma NotOverfull<T>(pairs: seq<(nat, nat)>, p0: nat, n0: nat, before: seq<T>, after: seq<T>)
    requires p0 <= |before| && n0 <= |after| && pairs == Lcs.Walk(before, after, p0, n0) && pairs != []
    requires Rising(pairs, p0, n0, |before|, |after|) && Agree(pairs, before, after)
    requires InPlace(pairs, p0, n0, |before|, after) + Extras(pairs, p0, n0, |before|, after) == after[n0..]
    ensures pairs[0].1 <= n0 + Shared(pairs, p0, n0, |before|, |after|)
  {
    hide *;
    var core := InPlace(pairs, p0, n0, |before|, after);
    assert after[n0..][..|core|] == core;
    assert after[n0..n0 + |core|] == core;
    LandedMatches(pairs, p0, n0, before, after, after, n0);
    UnfoldLanded(pairs, p0, n0, |before|, |after|, n0);
    Lcs.WalkIsLongest(before, after, p0, n0);
    Lcs.WalkStartsEarliest(before, after, p0, n0, Landed(pairs, p0, n0, |before|, |after|, n0));
  }

  /** Replaying gives exactly `after` if and only if no gap but the last has more new elements than old ones. */
  lemma ReplayExact<T>(before: seq<T>, after: seq<T>)
    ensures Rising(Lcs.Walk(before, after, 0, 0), 0, 0, |before|, |after|)
    ensures ApplyAll(Operations(Lcs.Walk(before, after, 0, 0), before, after), before) == after
            <==> Fits(Lcs.Walk(before, after, 0, 0), 0, 0)
  {
    var pairs := Lcs.Walk(before, after, 0, 0);
    WalkRises(before, after, 0, 0, 0, 0);
    hide *;
    ReplayGives(pairs, before, after);
    assert after[0..] == after;
    if Fits(pairs, 0, 0) {
      FittingReplays(pairs, 0, 0, before, after);
    } else if InPlace(pairs, 0, 0, |before|, after) + Extras(pairs, 0, 0, |before|, after) == after {
      ExactFits(pairs, 0, 0, before, after);
    }
  }

  /** The smallest kind of draft that is replayed out of order: [a, b, c] becoming [b, b, c]. */
  lemma ReplayOutOfOrder<T>(a: T, b: T, c: T)
    requires a != b && b != c && a != c
    ensures var before, after := [a, b, c], [b, b, c];
            var pairs := Lcs.Walk(before, after, 0, 0);
            && Rising(pairs, 0, 0, 3, 3)
            && !Fits(pairs, 0, 0)
            && ApplyAll(Operations(pairs, before, after), before) != after
  {
    var before, after := [a, b, c], [b, b, c];
    ReplayExact(before, after);
    assert Lcs.Len(before, after, 2, 2) == 1;
    assert Lcs.Len(before, after, 2, 1) == 1 && Lcs.Len(before, after, 1, 2) == 1;
    assert Lcs.Len(before, after, 2, 0) == 1 && Lcs.Len(before, after, 1, 1) == 2 && Lcs.Len(before, after, 0, 2) == 1;
    assert Lcs.Len(before, after, 1, 0) == 2 && Lcs.Len(before, after, 0, 1) == 2;
    assert Lcs.Walk(before, after, 0, 0) == Lcs.Walk(before, after, 1, 0);
    assert Lcs.Walk(before, after, 1, 0)[0] == (1, 0);
    assert Lcs.Walk(before, after, 2, 1)[0] == (2, 2) by {
      assert Lcs.Len(before, after, 3, 1) == 0;
    }
  }
}
