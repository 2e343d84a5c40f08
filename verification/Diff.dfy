/** The line diff shown before a policy is saved (internal/acl/diff.go). */
module Diff {
  import Lcs
  import opened Common
  import opened Strings

  datatype Op = Equal(text: string) | Delete(text: string) | Insert(text: string)

  // ----- What a script of operations means

  /** The old lines a script reads. */
  ghost function Olds(ops: seq<Op>): seq<string> {
    if ops == [] then []
    else
      var last := ops[|ops| - 1];
      Olds(ops[..|ops| - 1]) + if last.Insert? then [] else [last.text]
  }

  /** The new lines a script writes. */
  ghost function News(ops: seq<Op>): seq<string> {
    if ops == [] then []
    else
      var last := ops[|ops| - 1];
      News(ops[..|ops| - 1]) + if last.Delete? then [] else [last.text]
  }

  /** How many lines a script keeps. */
  ghost function Kept(ops: seq<Op>): nat {
    if ops == [] then 0
    else Kept(ops[..|ops| - 1]) + if ops[|ops| - 1].Equal? then 1 else 0
  }

  /** How many lines a script inserts or deletes. */
  ghost function Edits(ops: seq<Op>): int {
    |ops| - Kept(ops)
  }

  lemma Snoc(ops: seq<Op>, op: Op)
    ensures Olds(ops + [op]) == Olds(ops) + if op.Insert? then [] else [op.text]
    ensures News(ops + [op]) == News(ops) + if op.Delete? then [] else [op.text]
    ensures Kept(ops + [op]) == Kept(ops) + if op.Equal? then 1 else 0
  {
    assert (ops + [op])[..|ops|] == ops;
  }

  lemma {:induction false} Concat(x: seq<Op>, y: seq<Op>)
    ensures Olds(x + y) == Olds(x) + Olds(y)
    ensures News(x + y) == News(x) + News(y)
    ensures Kept(x + y) == Kept(x) + Kept(y)
  {
    hide *;
    if y == [] {
      assert x + y == x;
      NoOps();
    } else {
      var init, op := y[..|y| - 1], y[|y| - 1];
      Concat(x, init);
      Snoc(x + init, op);
      Snoc(init, op);
      assert y == init + [op];
      assert x + y == (x + init) + [op];
    }
  }

  lemma NoOps()
    ensures Olds([]) == [] && News([]) == [] && Kept([]) == 0
  {
  }

  /** Every op is on one side or on both, so the sides and the kept lines count the script. */
  lemma {:induction false} Sizes(ops: seq<Op>)
    ensures |Olds(ops)| + |News(ops)| == |ops| + Kept(ops)
    ensures Kept(ops) <= |ops|
  {
    if ops != [] {
      Sizes(ops[..|ops| - 1]);
    }
  }

  /** The kept lines of a script, as positions on both sides. */
  ghost function Pairs(ops: seq<Op>): seq<(nat, nat)> {
    if ops == [] then []
    else
      var init := ops[..|ops| - 1];
      Pairs(init) + if ops[|ops| - 1].Equal? then [(|Olds(init)|, |News(init)|)] else []
  }

  lemma {:induction false} PairsMatch(ops: seq<Op>)
    ensures Lcs.Matching(Olds(ops), News(ops), 0, 0, Pairs(ops))
    ensures |Pairs(ops)| == Kept(ops)
  {
    if ops != [] {
      PairsMatch(ops[..|ops| - 1]);
    }
  }

  // ----- diffLines

  /** Where lines are replaced, the old ones come before the new ones. */
  ghost predicate DeletesFirst(ops: seq<Op>) {
    forall k :: 0 < k < |ops| ==> !(ops[k - 1].Insert? && ops[k].Delete?)
  }

  ghost predicate EndsInsert(ops: seq<Op>) {
    ops != [] && ops[|ops| - 1].Insert?
  }

  /**
   The script diffLines returns rewrites a to b, keeps a longest common subsequence, and deletes before it
   inserts.
   */
  method DiffLines(a: seq<string>, b: seq<string>) returns (ops: seq<Op>)
    ensures Olds(ops) == a && News(ops) == b
    ensures Kept(ops) == Lcs.Len(a, b, 0, 0)
    ensures DeletesFirst(ops)
  {
    var n, m := |a|, |b|;
    var lcs := Lcs.FillTable(a, b);
    ops := [];
    NoOps();
    hide Olds, News, Kept, Lcs.Len;
    var i, j := 0, 0;
    while i < n && j < m
      modifies {}
      invariant 0 <= i <= n && 0 <= j <= m
      invariant Olds(ops) == a[..i] && News(ops) == b[..j]
      invariant Kept(ops) + Lcs.Len(a, b, i, j) == Lcs.Len(a, b, 0, 0)
      invariant DeletesFirst(ops)
      invariant EndsInsert(ops) && i < n ==> j > 0 && Lcs.Len(a, b, i + 1, j - 1) < Lcs.Len(a, b, i, j)
    {
      if EndsInsert(ops) {
        Lcs.Shrinks(a, b, i + 1, j - 1);
      }
      assert lcs[i + 1, j] == Lcs.Len(a, b, i + 1, j) && lcs[i, j + 1] == Lcs.Len(a, b, i, j + 1) by {
        assert Lcs.RowFilled(lcs, a, b, i, 0) && Lcs.RowFilled(lcs, a, b, i + 1, 0);
      }
      Lcs.LenStep(a, b, i, j);
      var op := if a[i] == b[j] then Equal(a[i]) else if lcs[i + 1, j] >= lcs[i, j + 1] then Delete(a[i])
          else Insert(b[j]);
      Snoc(ops, op);
      ops := ops + [op];
      i, j := if op.Insert? then i else i + 1, if op.Delete? then j else j + 1;
    }
    Lcs.WalkEnd(a, b, i, j);
    Lcs.LenEnd(a, b, i, j);
    ops := AppendRest(a, b, i, j, ops);
  }

  /** The lines left on one side once the other is used up. */
  method AppendRest(a: seq<string>, b: seq<string>, from: nat, to: nat, script: seq<Op>) returns (ops: seq<Op>)
    requires from <= |a| && to <= |b|
    requires Olds(script) == a[..from] && News(script) == b[..to]
    requires DeletesFirst(script) && (from < |a| ==> !EndsInsert(script))
    ensures DeletesFirst(ops)
    ensures Olds(ops) == a && News(ops) == b && Kept(ops) == Kept(script)
  {
    ops := script;
    for i := from to |a|
      invariant Olds(ops) == a[..i] && News(ops) == b[..to] && Kept(ops) == Kept(script)
      invariant DeletesFirst(ops) && (i < |a| ==> !EndsInsert(ops))
    {
      Snoc(ops, Delete(a[i]));
      ops := ops + [Delete(a[i])];
    }
    for j := to to |b|
      invariant Olds(ops) == a && News(ops) == b[..j] && Kept(ops) == Kept(script) && DeletesFirst(ops)
    {
      Snoc(ops, Insert(b[j]));
      ops := ops + [Insert(b[j])];
    }
  }

  /** No script from a to b makes fewer insertions and deletions than one keeping Len lines. */
  lemma FewestEdits(a: seq<string>, b: seq<string>, ops: seq<Op>, other: seq<Op>)
    requires Olds(ops) == a && News(ops) == b && Kept(ops) == Lcs.Len(a, b, 0, 0)
    requires Olds(other) == a && News(other) == b
    ensures Kept(other) <= Kept(ops) && Edits(ops) <= Edits(other)
  {
    PairsMatch(other);
    Lcs.Bound(a, b, 0, 0, Pairs(other));
    Sizes(ops);
    Sizes(other);
  }

  // ----- Unified: grouping a script into hunks

  datatype Hunk = Hunk(oldStart: int, oldLines: int, newStart: int, newLines: int, lines: seq<string>)

  function Render(op: Op): string {
    match op
    case Equal(text) => " " + text
    case Delete(text) => "-" + text
    case Insert(text) => "+" + text
  }

  function RenderAll(ops: seq<Op>): seq<string> {
    seq(|ops|, i requires 0 <= i < |ops| => Render(ops[i]))
  }

  /** The hunk whose lines are exactly ops[s..e], with the counts and start numbers they call for. */
  ghost function HunkOf(ops: seq<Op>, s: nat, e: nat): Hunk
    requires s <= e <= |ops|
  {
    Hunk(1 + |Olds(ops[..s])|, |Olds(ops[s..e])|, 1 + |News(ops[..s])|, |News(ops[s..e])|, RenderAll(ops[s..e]))
  }

  ghost predicate AllEqual(ops: seq<Op>, s: nat, e: nat) {
    forall y :: s <= y < e && y < |ops| ==> ops[y].Equal?
  }

  /** A run of more than `context` (three) equal ops starts at x. */
  ghost predicate LongRun(ops: seq<Op>, x: nat) {
    x + 4 <= |ops| && ops[x].Equal? && ops[x + 1].Equal? && ops[x + 2].Equal? && ops[x + 3].Equal?
  }

  /** Where the ops not yet taken by a hunk begin, before hunk k. */
  ghost function GapStart(ranges: seq<(nat, nat)>, k: nat): nat
    requires k <= |ranges|
  {
    if k == 0 then 0 else ranges[k - 1].1
  }

  /** [s, e) opens with its first change, preceded by three equal lines or by all there are since `gap`. */
  ghost predicate Led(ops: seq<Op>, gap: nat, s: nat, e: nat) {
    exists c :: s <= c < e && c < |ops| && Leads(ops, gap, s, c)
  }

  ghost predicate Leads(ops: seq<Op>, gap: nat, s: nat, c: nat)
    requires s <= c < |ops|
  {
    && !ops[c].Equal?
    && AllEqual(ops, s, c)
    && (c - s == 3 || (c - s < 3 && s == gap))
  }

  /**
   [s, e) is what one hunk shows when everything before `gap` is shown already: only equal ops
   are skipped before it, no long run starts inside it before its last op, and it ends at the
   end of the script or on the first line of a long run.
   */
  ghost predicate RangeOk(ops: seq<Op>, gap: nat, s: nat, e: nat) {
    && gap <= s < e <= |ops|
    && AllEqual(ops, gap, s)
    && Led(ops, gap, s, e)
    && (forall x :: s <= x < e - 1 ==> !LongRun(ops, x))
    && (e == |ops| || LongRun(ops, e - 1))
  }

  /** `hunks` shows `ranges` of the script, one hunk each. */
  ghost predicate Shown(ops: seq<Op>, hunks: seq<Hunk>, ranges: seq<(nat, nat)>) {
    && |hunks| == |ranges|
    && (hunks != [] ==>
          var k := |hunks| - 1;
          && Shown(ops, hunks[..k], ranges[..k])
          && RangeOk(ops, GapStart(ranges, k), ranges[k].0, ranges[k].1)
          && hunks[k] == HunkOf(ops, ranges[k].0, ranges[k].1))
  }

  /** `hunks` shows all changes of `ops`. */
  ghost predicate Shows(ops: seq<Op>, hunks: seq<Hunk>, ranges: seq<(nat, nat)>) {
    Shown(ops, hunks, ranges) && AllEqual(ops, GapStart(ranges, |ranges|), |ops|)
  }

  method TrailingEqual(ops: seq<Op>, from: nat) returns (n: nat)
    requires from < |ops|
    ensures from + n <= |ops| && AllEqual(ops, from, from + n)
    ensures from + n < |ops| ==> !ops[from + n].Equal?
    ensures n > 3 <==> LongRun(ops, from)
  {
    n := 0;
    var i := from;
    while i < |ops| && ops[i].Equal?
      invariant from <= i <= |ops| && n == i - from
      invariant AllEqual(ops, from, i)
    {
      n := n + 1;
      i := i + 1;
    }
  }

  lemma {:induction false} EqualSides(ops: seq<Op>)
    requires AllEqual(ops, 0, |ops|)
    ensures Olds(ops) == News(ops) && |Olds(ops)| == |ops|
  {
    if ops != [] {
      EqualSides(ops[..|ops| - 1]);
    }
  }

  /** A hunk with one more line. */
  function AddLine(h: Hunk, op: Op): Hunk {
    h.(oldLines := h.oldLines + if op.Insert? then 0 else 1,
       newLines := h.newLines + if op.Delete? then 0 else 1,
       lines := h.lines + [Render(op)])
  }

  lemma Grow(ops: seq<Op>, s: nat, i: nat)
    requires s <= i < |ops|
    ensures HunkOf(ops, s, i + 1) == AddLine(HunkOf(ops, s, i), ops[i])
  {
    assert ops[s..i + 1] == ops[s..i] + [ops[i]];
    Snoc(ops[s..i], ops[i]);
  }

  /** The window of context lines kept while no hunk is open. */
  lemma ContextWindow(ops: seq<Op>, p: nat, i: nat)
    requires p <= i <= |ops| && AllEqual(ops, p, i)
    ensures HunkOf(ops, p, i) ==
            Hunk(1 + |Olds(ops[..i])| - (i - p), i - p, 1 + |News(ops[..i])| - (i - p), i - p, RenderAll(ops[p..i]))
  {
    assert ops[..i] == ops[..p] + ops[p..i];
    Concat(ops[..p], ops[p..i]);
    EqualSides(ops[p..i]);
  }

  lemma NextPrefix(ops: seq<Op>, i: nat)
    requires i < |ops|
    ensures |Olds(ops[..i + 1])| == |Olds(ops[..i])| + if ops[i].Insert? then 0 else 1
    ensures |News(ops[..i + 1])| == |News(ops[..i])| + if ops[i].Delete? then 0 else 1
    ensures Kept(ops[..i + 1]) == Kept(ops[..i]) + if ops[i].Equal? then 1 else 0
  {
    assert ops[..i + 1] == ops[..i] + [ops[i]];
    Snoc(ops[..i], ops[i]);
  }

  lemma AddHunk(ops: seq<Op>, hunks: seq<Hunk>, ranges: seq<(nat, nat)>, s: nat, e: nat)
    requires Shown(ops, hunks, ranges)
    requires RangeOk(ops, GapStart(ranges, |ranges|), s, e)
    ensures Shown(ops, hunks + [HunkOf(ops, s, e)], ranges + [(s, e)])
    ensures GapStart(ranges + [(s, e)], |ranges| + 1) == e
  {
    var h := HunkOf(ops, s, e);
    assert (hunks + [h])[..|hunks|] == hunks;
    assert (ranges + [(s, e)])[..|ranges|] == ranges;
  }

  /** No hunk is open at i: [p, i) is the context remembered in case a change follows. */
  ghost predicate ClosedAt(ops: seq<Op>, gap: nat, p: nat, i: nat) {
    && gap <= p <= i <= |ops|
    && AllEqual(ops, gap, i)
    && (i - p == 3 || (i - p < 3 && p == gap))
  }

  /** The open hunk covers [s, i). */
  ghost predicate OpenAt(ops: seq<Op>, gap: nat, s: nat, i: nat) {
    && gap <= s < i <= |ops|
    && AllEqual(ops, gap, s)
    && Led(ops, gap, s, i)
    && (forall x :: s <= x < i ==> !LongRun(ops, x))
  }

  lemma OpenHunk(ops: seq<Op>, gap: nat, p: nat, i: nat)
    requires ClosedAt(ops, gap, p, i) && i < |ops| && !ops[i].Equal?
    ensures OpenAt(ops, gap, p, i + 1)
  {
    assert Leads(ops, gap, p, i);
  }

  lemma StayOpen(ops: seq<Op>, gap: nat, s: nat, i: nat)
    requires OpenAt(ops, gap, s, i) && i < |ops|
    ensures Led(ops, gap, s, i + 1)
    ensures !LongRun(ops, i) ==> OpenAt(ops, gap, s, i + 1)
    ensures LongRun(ops, i) ==> RangeOk(ops, gap, s, i + 1) && ClosedAt(ops, i + 1, i + 1, i + 1)
  {
    var c :| s <= c < i && c < |ops| && Leads(ops, gap, s, c);
    assert s <= c < i + 1;
  }

  /** The variables of Unified's loop. */
  datatype Grouping = Grouping(
    hunks: seq<Hunk>, hunk: Option<Hunk>, pending: seq<string>, oldNum: int, newNum: int, added: int, removed: int)

  /** What the loop knows before op i; `from` starts the open hunk, or the pending context. */
  ghost predicate Counted(ops: seq<Op>, i: nat, g: Grouping)
    requires i <= |ops|
  {
    && g.oldNum == 1 + |Olds(ops[..i])|
    && g.newNum == 1 + |News(ops[..i])|
    && g.added == |News(ops[..i])| - Kept(ops[..i])
    && g.removed == |Olds(ops[..i])| - Kept(ops[..i])
  }

  ghost predicate Grouped(ops: seq<Op>, i: nat, g: Grouping, ranges: seq<(nat, nat)>, from: nat) {
    var gap := GapStart(ranges, |ranges|);
    && i <= |ops|
    && Shown(ops, g.hunks, ranges)
    && Counted(ops, i, g)
    && (g.hunk.None? ==> ClosedAt(ops, gap, from, i) && g.pending == RenderAll(ops[from..i]))
    && (g.hunk.Some? ==> OpenAt(ops, gap, from, i) && g.hunk.value == HunkOf(ops, from, i))
  }

  lemma SlideWindow(ops: seq<Op>, from: nat, i: nat)
    requires from <= i < |ops|
    ensures RenderAll(ops[from..i]) + [Render(ops[i])] == RenderAll(ops[from..i + 1])
    ensures |RenderAll(ops[from..i + 1])| == i + 1 - from
    ensures RenderAll(ops[from..i + 1])[1..] == RenderAll(ops[from + 1..i + 1])
  {
    assert ops[from..i + 1] == ops[from..i] + [ops[i]];
    assert ops[from..i + 1][1..] == ops[from + 1..i + 1];
  }

  /** An equal line outside any hunk is remembered as context; only three are kept. */
  method Remember(ops: seq<Op>, i: nat, old_: Grouping, ghost ranges: seq<(nat, nat)>, ghost start: nat)
    returns (g: Grouping, ghost from: nat)
    requires Grouped(ops, i, old_, ranges, start) && i < |ops| && ops[i].Equal? && old_.hunk.None?
    ensures Grouped(ops, i + 1, g, ranges, from)
  {
    hide Olds, News, Kept, HunkOf, Led, Shown, LongRun;
    NextPrefix(ops, i);
    SlideWindow(ops, start, i);
    from := start;
    var pending := old_.pending + [Render(ops[i])];
    if |pending| > 3 {
      pending := pending[1..];
      from := from + 1;
    }
    g := old_.(pending := pending, oldNum := old_.oldNum + 1, newNum := old_.newNum + 1);
  }

  /** An equal line inside a hunk; the hunk ends here if more than three follow in a row. */
  method Continue(ops: seq<Op>, i: nat, old_: Grouping, ghost before: seq<(nat, nat)>, ghost start: nat)
    returns (g: Grouping, ghost ranges: seq<(nat, nat)>, ghost from: nat)
    requires Grouped(ops, i, old_, before, start) && i < |ops| && ops[i].Equal? && old_.hunk.Some?
    ensures Grouped(ops, i + 1, g, ranges, from)
  {
    hide Olds, News, Kept, HunkOf, Led, Shown;
    NextPrefix(ops, i);
    Grow(ops, start, i);
    StayOpen(ops, GapStart(before, |before|), start, i);
    ranges, from := before, start;
    g := old_.(hunk := Some(AddLine(old_.hunk.value, ops[i])), oldNum := old_.oldNum + 1, newNum := old_.newNum + 1);
    var run := TrailingEqual(ops, i);
    if run > 3 {
      AddHunk(ops, g.hunks, before, start, i + 1);
      g := g.(hunks := g.hunks + [g.hunk.value], hunk := None, pending := []);
      ranges, from := before + [(start, i + 1)], i + 1;
    }
  }

  /** A changed line, which opens a hunk with the remembered context if none is open. */
  method Change(ops: seq<Op>, i: nat, old_: Grouping, ghost ranges: seq<(nat, nat)>, ghost from: nat)
      returns (g: Grouping)
    requires Grouped(ops, i, old_, ranges, from) && i < |ops| && !ops[i].Equal?
    ensures Grouped(ops, i + 1, g, ranges, from)
  {
    hide Olds, News, Kept, Led, Shown;
    NextPrefix(ops, i);
    Grow(ops, from, i);
    g := old_;
    if g.hunk.None? {
      OpenHunk(ops, GapStart(ranges, |ranges|), from, i);
      ContextWindow(ops, from, i);
      var n := |g.pending|;
      g := g.(hunk := Some(Hunk(g.oldNum - n, n, g.newNum - n, n, g.pending)), pending := []);
    } else {
      StayOpen(ops, GapStart(ranges, |ranges|), from, i);
    }
    g := g.(hunk := Some(AddLine(g.hunk.value, ops[i])));
    if ops[i].Delete? {
      g := g.(removed := g.removed + 1, oldNum := g.oldNum + 1);
    } else {
      g := g.(added := g.added + 1, newNum := g.newNum + 1);
    }
  }

  /** The final flush: a hunk still open ends with the script. */
  method Flush(ops: seq<Op>, g: Grouping, ghost before: seq<(nat, nat)>, ghost from: nat)
    returns (hunks: seq<Hunk>, ghost ranges: seq<(nat, nat)>)
    requires Grouped(ops, |ops|, g, before, from)
    ensures Shows(ops, hunks, ranges)
    ensures g.added == |News(ops)| - Kept(ops) && g.removed == |Olds(ops)| - Kept(ops)
  {
    assert ops[..|ops|] == ops;
    hunks, ranges := g.hunks, before;
    if g.hunk.Some? {
      AddHunk(ops, g.hunks, before, from, |ops|);
      hunks, ranges := g.hunks + [g.hunk.value], before + [(from, |ops|)];
    }
  }

  /**
   The loop of Unified: hunks are opened at a change, with up to three remembered context
   lines, and closed on the first line of a run of more than three equal lines.
   */
  method Group(ops: seq<Op>) returns (hunks: seq<Hunk>, added: int, removed: int, ghost ranges: seq<(nat, nat)>)
    ensures Shows(ops, hunks, ranges)
    ensures added == |News(ops)| - Kept(ops) && removed == |Olds(ops)| - Kept(ops)
  {
    var g := Grouping([], None, [], 1, 1, 0, 0);
    ghost var from := 0;
    ranges := [];
    for i := 0 to |ops|
      invariant Grouped(ops, i, g, ranges, from)
    {
      if ops[i].Equal? && g.hunk.None? {
        g, from := Remember(ops, i, g, ranges, from);
      } else if ops[i].Equal? {
        g, ranges, from := Continue(ops, i, g, ranges, from);
      } else {
        g := Change(ops, i, g, ranges, from);
      }
    }
    hunks, ranges := Flush(ops, g, ranges, from);
    added, removed := g.added, g.removed;
  }

  // ----- What the hunks mean

  /** The old lines a hunk shows. */
  function OldSide(lines: seq<string>): seq<string> {
    if lines == [] then []
    else
      var last := lines[|lines| - 1];
      OldSide(lines[..|lines| - 1]) + if last != "" && (last[0] == ' ' || last[0] == '-') then [last[1..]] else []
  }

  /** The new lines a hunk shows. */
  function NewSide(lines: seq<string>): seq<string> {
    if lines == [] then []
    else
      var last := lines[|lines| - 1];
      NewSide(lines[..|lines| - 1]) + if last != "" && (last[0] == ' ' || last[0] == '+') then [last[1..]] else []
  }

  /**
   Applying one hunk the way `patch` does, trusting nothing: the header must fit what has been
   read and written so far, and its lines must be the ones found in the file. Gives the position
   read up to and the lines written.
   */
  function PatchHunk(file: seq<string>, h: Hunk, read: nat, written: nat): (r: Option<(nat, seq<string>)>)
    requires read <= |file|
    ensures r.Some? ==> r.value.0 <= |file|
  {
    var start := h.oldStart - 1;
    if !(read <= start && 0 <= h.oldLines && start + h.oldLines <= |file|) then None
    else if file[start..start + h.oldLines] != OldSide(h.lines) then None
    else if h.newStart != 1 + written + (start - read) || h.newLines != |NewSide(h.lines)| then None
    else Some((start + h.oldLines, file[read..start] + NewSide(h.lines)))
  }

  /** Applying hunks one after the other. */
  function Patch(file: seq<string>, hunks: seq<Hunk>, read: nat, written: nat): Option<seq<string>>
    requires read <= |file|
    decreases |hunks|
  {
    if hunks == [] then Some(file[read..])
    else
      match PatchHunk(file, hunks[0], read, written)
      case None => None
      case Some((next, lines)) =>
        match Patch(file, hunks[1..], next, written + |lines|)
        case None => None
        case Some(rest) => Some(lines + rest)
  }

  lemma {:induction false} Sides(ops: seq<Op>)
    ensures OldSide(RenderAll(ops)) == Olds(ops) && NewSide(RenderAll(ops)) == News(ops)
  {
    if ops != [] {
      var k := |ops| - 1;
      Sides(ops[..k]);
      assert RenderAll(ops)[..k] == RenderAll(ops[..k]);
      assert RenderAll(ops)[k][1..] == ops[k].text;
    }
  }

  /** Every hunk of a shown script shows its own range. */
  lemma {:induction false} ShownAt(ops: seq<Op>, hunks: seq<Hunk>, ranges: seq<(nat, nat)>, k: nat)
    requires Shown(ops, hunks, ranges) && k < |hunks|
    ensures RangeOk(ops, GapStart(ranges, k), ranges[k].0, ranges[k].1)
    ensures hunks[k] == HunkOf(ops, ranges[k].0, ranges[k].1)
  {
    var last := |hunks| - 1;
    if k < last {
      ShownAt(ops, hunks[..last], ranges[..last], k);
      assert GapStart(ranges[..last], k) == GapStart(ranges, k);
    }
  }

  /** The lines up to y are those up to x and those in between. */
  lemma Between(ops: seq<Op>, x: nat, y: nat)
    requires x <= y <= |ops|
    ensures Olds(ops[..y]) == Olds(ops[..x]) + Olds(ops[x..y])
    ensures News(ops[..y]) == News(ops[..x]) + News(ops[x..y])
    ensures Olds(ops[x..]) == Olds(ops[x..y]) + Olds(ops[y..])
    ensures News(ops[x..]) == News(ops[x..y]) + News(ops[y..])
  {
    assert ops[..y] == ops[..x] + ops[x..y];
    Concat(ops[..x], ops[x..y]);
    assert ops[x..] == ops[x..y] + ops[y..];
    Concat(ops[x..y], ops[y..]);
  }

  lemma Whole(ops: seq<Op>, x: nat)
    requires x <= |ops|
    ensures Olds(ops) == Olds(ops[..x]) + Olds(ops[x..]) && News(ops) == News(ops[..x]) + News(ops[x..])
  {
    assert ops == ops[..x] + ops[x..];
    Concat(ops[..x], ops[x..]);
  }

  lemma PatchStep(file: seq<string>, h: Hunk, pre: seq<string>, gap: seq<string>, olds: seq<string>, rest: seq<string>,
                  written: nat, news: seq<string>)
    requires file == pre + gap + olds + rest
    requires h.oldStart == 1 + |pre| + |gap| && h.oldLines == |olds| && OldSide(h.lines) == olds
    requires h.newStart == 1 + written + |gap| && h.newLines == |news| && NewSide(h.lines) == news
    ensures PatchHunk(file, h, |pre|, written) == Some((|pre| + |gap| + |olds|, gap + news))
  {
    var start := |pre| + |gap|;
    assert file[start..start + |olds|] == olds;
    assert file[|pre|..start] == gap;
  }

  lemma PatchJoin(file: seq<string>, hunks: seq<Hunk>, read: nat, written: nat, next: nat, lines: seq<string>,
      rest: seq<string>)
    requires hunks != [] && read <= |file| && next <= |file|
    requires PatchHunk(file, hunks[0], read, written) == Some((next, lines))
    requires Patch(file, hunks[1..], next, written + |lines|) == Some(rest)
    ensures Patch(file, hunks, read, written) == Some(lines + rest)
  {
  }

  lemma PatchEnd(ops: seq<Op>, gap: nat)
    requires gap <= |ops| && AllEqual(ops, gap, |ops|)
    ensures |Olds(ops[..gap])| <= |Olds(ops)|
    ensures Patch(Olds(ops), [], |Olds(ops[..gap])|, |News(ops[..gap])|) == Some(News(ops[gap..]))
  {
    Whole(ops, gap);
    EqualSides(ops[gap..]);
  }

  lemma {:induction false} PatchFrom(ops: seq<Op>, hunks: seq<Hunk>, ranges: seq<(nat, nat)>, k: nat, gap: nat)
    requires Shows(ops, hunks, ranges) && k <= |hunks| && gap == GapStart(ranges, k) <= |ops|
    ensures |Olds(ops[..gap])| <= |Olds(ops)|
    ensures Patch(Olds(ops), hunks[k..], |Olds(ops[..gap])|, |News(ops[..gap])|) == Some(News(ops[gap..]))
    decreases |hunks| - k
  {
    hide Olds, News, Patch, HunkOf, Led, LongRun;
    if k == |hunks| {
      PatchEnd(ops, gap);
    } else {
      ShownAt(ops, hunks, ranges, k);
      var (s, e) := ranges[k];
      PatchFrom(ops, hunks, ranges, k + 1, e);
      PatchOne(ops, hunks[k], gap, s, e);
      assert hunks[k..][1..] == hunks[k + 1..];
      PatchJoin(Olds(ops), hunks[k..], |Olds(ops[..gap])|, |News(ops[..gap])|, |Olds(ops[..e])|, News(ops[gap..e]),
          News(ops[e..]));
    }
  }

  lemma PatchOne(ops: seq<Op>, h: Hunk, gap: nat, s: nat, e: nat)
    requires gap <= s <= e <= |ops| && AllEqual(ops, gap, s) && h == HunkOf(ops, s, e)
    ensures |Olds(ops[..gap])| <= |Olds(ops)|
    ensures PatchHunk(Olds(ops), h, |Olds(ops[..gap])|, |News(ops[..gap])|) ==
              Some((|Olds(ops[..e])|, News(ops[gap..e])))
    ensures |News(ops[..e])| == |News(ops[..gap])| + |News(ops[gap..e])|
    ensures News(ops[gap..]) == News(ops[gap..e]) + News(ops[e..])
  {
    hide Olds, News, PatchHunk, OldSide, NewSide;
    var pre, g, o := Olds(ops[..gap]), Olds(ops[gap..s]), Olds(ops[s..e]);
    assert Olds(ops) == pre + g + o + Olds(ops[e..]) && |Olds(ops[..s])| == |pre| + |g|
        && |Olds(ops[..e])| == |pre| + |g| + |o| by {
      Whole(ops, e);
      Between(ops, gap, s);
      Between(ops, s, e);
    }
    assert |News(ops[..s])| == |News(ops[..gap])| + |g| && News(ops[gap..e]) == g + News(ops[s..e]) by {
      EqualSides(ops[gap..s]);
      Between(ops, gap, s);
      assert ops[gap..e] == ops[gap..s] + ops[s..e];
      Concat(ops[gap..s], ops[s..e]);
    }
    Between(ops, gap, e);
    Sides(ops[s..e]);
    PatchStep(Olds(ops), h, pre, g, o, Olds(ops[e..]), |News(ops[..gap])|, News(ops[s..e]));
  }

  /** Applying the hunks of a script to its old lines gives its new lines. */
  lemma HunksApply(ops: seq<Op>, hunks: seq<Hunk>, ranges: seq<(nat, nat)>)
    requires Shows(ops, hunks, ranges)
    ensures Patch(Olds(ops), hunks, 0, 0) == Some(News(ops))
  {
    PatchFrom(ops, hunks, ranges, 0, 0);
    assert hunks[0..] == hunks && ops[0..] == ops && ops[..0] == [];
  }

  lemma {:induction false} RangesInOrder(ops: seq<Op>, hunks: seq<Hunk>, ranges: seq<(nat, nat)>, k: nat, l: nat)
    requires Shown(ops, hunks, ranges) && k < l < |hunks|
    ensures ranges[k].1 <= ranges[l].0
    decreases l
  {
    ShownAt(ops, hunks, ranges, l);
    if k < l - 1 {
      RangesInOrder(ops, hunks, ranges, k, l - 1);
      ShownAt(ops, hunks, ranges, l - 1);
    }
  }

  /** Hunks come in order and never overlap, on either side. */
  lemma HunksInOrder(ops: seq<Op>, hunks: seq<Hunk>, ranges: seq<(nat, nat)>, k: nat, l: nat)
    requires Shows(ops, hunks, ranges) && k < l < |hunks|
    ensures hunks[k].oldStart + hunks[k].oldLines <= hunks[l].oldStart
    ensures hunks[k].newStart + hunks[k].newLines <= hunks[l].newStart
  {
    RangesInOrder(ops, hunks, ranges, k, l);
    ShownAt(ops, hunks, ranges, k);
    ShownAt(ops, hunks, ranges, l);
    Apart(ops, ranges[k].0, ranges[k].1, ranges[l].0);
  }

  lemma Apart(ops: seq<Op>, s: nat, e: nat, t: nat)
    requires s <= e <= t <= |ops|
    ensures |Olds(ops[..s])| + |Olds(ops[s..e])| <= |Olds(ops[..t])|
    ensures |News(ops[..s])| + |News(ops[s..e])| <= |News(ops[..t])|
  {
    Between(ops, s, e);
    Between(ops, e, t);
  }

  /** Every change is in some hunk. */
  lemma {:induction false} Covered(ops: seq<Op>, hunks: seq<Hunk>, ranges: seq<(nat, nat)>, i: nat) returns (k: nat)
    requires Shown(ops, hunks, ranges) && i < GapStart(ranges, |ranges|) && i < |ops| && !ops[i].Equal?
    ensures k < |ranges| && ranges[k].0 <= i < ranges[k].1
  {
    var last := |ranges| - 1;
    if ranges[last].0 <= i {
      k := last;
    } else {
      assert GapStart(ranges[..last], last) == GapStart(ranges, last);
      k := Covered(ops, hunks[..last], ranges[..last], i);
    }
  }

  ghost predicate Together(ranges: seq<(nat, nat)>, i: nat, j: nat) {
    exists k :: 0 <= k < |ranges| && ranges[k].0 <= i && j < ranges[k].1
  }

  /** Two changes share a hunk if and only if every run of equal lines between them has at most three. */
  lemma SameHunk(ops: seq<Op>, hunks: seq<Hunk>, ranges: seq<(nat, nat)>, i: nat, j: nat)
    requires Shows(ops, hunks, ranges)
    requires i < j < |ops| && !ops[i].Equal? && !ops[j].Equal?
    ensures Together(ranges, i, j) <==> forall x :: i < x && x + 4 <= j ==> !LongRun(ops, x)
  {
    hide Olds, News, HunkOf, Led;
    if Together(ranges, i, j) {
      var k :| 0 <= k < |ranges| && ranges[k].0 <= i && j < ranges[k].1;
      ShownAt(ops, hunks, ranges, k);
    } else {
      var k := Covered(ops, hunks, ranges, i);
      ShownAt(ops, hunks, ranges, k);
      var x := ranges[k].1 - 1;
      assert LongRun(ops, x) && i < x && x + 4 <= j;
    }
  }

  // ----- Unified

  datatype Diff = Diff(hunks: seq<Hunk>, added: int, removed: int, identical: bool)

  function SplitLines(s: string): seq<string> {
    if s == "" then []
    else Split(if HasSuffix(s, "\n") then s[..|s| - 1] else s, '\n')
  }

  /** What lines there are: none in no text, none with a line break, and together they are the text again. */
  lemma LinesOfText(s: string)
    ensures s == "" <==> SplitLines(s) == []
    ensures forall l :: l in SplitLines(s) ==> '\n' !in l
    ensures s != "" ==> s == Join(SplitLines(s), '\n') + if s[|s| - 1] == '\n' then "\n" else ""
  {
    hide Split, Join;
    var body := if HasSuffix(s, "\n") then s[..|s| - 1] else s;
    JoinSplit(body, '\n');
    SplitClean(body, '\n');
    assert s == body + if HasSuffix(s, "\n") then "\n" else "";
  }

  /** The same text, or texts that differ only in whether the last line is ended. */
  ghost predicate SameText(x: string, y: string) {
    || x == y
    || (x != "" && x[|x| - 1] != '\n' && y == x + "\n")
    || (y != "" && y[|y| - 1] != '\n' && x == y + "\n")
  }

  lemma Ended(x: string)
    requires x != "" && x[|x| - 1] != '\n'
    ensures SplitLines(x + "\n") == SplitLines(x)
  {
    hide Split;
    var ended := x + "\n";
    assert HasSuffix(ended, "\n") && ended[..|ended| - 1] == x;
  }

  lemma SameLines(x: string, y: string)
    ensures SplitLines(x) == SplitLines(y) <==> SameText(x, y)
  {
    LinesOfText(x);
    LinesOfText(y);
    if SameText(x, y) && x != y {
      if x != "" && x[|x| - 1] != '\n' && y == x + "\n" {
        Ended(x);
      } else {
        Ended(y);
      }
    }
    hide SplitLines, Join;
  }

  lemma {:induction false} LenSelf(a: seq<string>, i: nat)
    requires i <= |a|
    ensures Lcs.Len(a, a, i, i) == |a| - i
    decreases |a| - i
  {
    if i < |a| {
      LenSelf(a, i + 1);
    }
  }

  lemma {:induction false} KeepsAll(ops: seq<Op>)
    requires Kept(ops) == |ops|
    ensures AllEqual(ops, 0, |ops|)
  {
    if ops != [] {
      Sizes(ops[..|ops| - 1]);
      KeepsAll(ops[..|ops| - 1]);
    }
  }

  /** There are no hunks exactly when the two texts have the same lines. */
  lemma NoHunks(a: seq<string>, b: seq<string>, ops: seq<Op>, hunks: seq<Hunk>, ranges: seq<(nat, nat)>)
    requires Olds(ops) == a && News(ops) == b && Kept(ops) == Lcs.Len(a, b, 0, 0)
    requires Shows(ops, hunks, ranges)
    ensures hunks == [] <==> a == b
  {
    if hunks == [] {
      EqualSides(ops);
    } else {
      ShownAt(ops, hunks, ranges, 0);
      assert !AllEqual(ops, 0, |ops|);
      if a == b {
        LenSelf(a, 0);
        Sizes(ops);
        KeepsAll(ops);
      }
    }
  }

  /**
   The diff of two texts: its hunks turn the old lines into the new ones, they come from a
   script with the fewest edits, whose insertions and deletions are counted, and there are none exactly
   when the texts differ at most in how the last line ends. The patched lines are the new text.
   */
  method Unified(oldText: string, newText: string) returns (d: Diff, ghost ops: seq<Op>, ghost ranges: seq<(nat, nat)>)
    ensures d.identical <==> oldText == newText
    ensures Olds(ops) == SplitLines(oldText) && News(ops) == SplitLines(newText)
    ensures Kept(ops) == Lcs.Len(SplitLines(oldText), SplitLines(newText), 0, 0) && DeletesFirst(ops)
    ensures Shows(ops, d.hunks, ranges)
    ensures Patch(SplitLines(oldText), d.hunks, 0, 0) == Some(SplitLines(newText))
    ensures d.hunks == [] <==> SameText(oldText, newText)
    ensures newText != "" ==>
              newText == Join(Patch(SplitLines(oldText), d.hunks, 0, 0).value, '\n') +
                  if newText[|newText| - 1] == '\n' then "\n" else ""
    ensures d.added == |SplitLines(newText)| - Kept(ops) && d.removed == |SplitLines(oldText)| - Kept(ops)
  {
    SameLines(oldText, newText);
    LinesOfText(newText);
    var oldLines, newLines := SplitLines(oldText), SplitLines(newText);
    if oldText == newText {
      d := Diff([], 0, 0, true);
      ops := seq(|oldLines|, i requires 0 <= i < |oldLines| => Equal(oldLines[i]));
      ranges := [];
      EqualScript(oldLines, ops);
      LenSelf(oldLines, 0);
      return;
    }
    var script := DiffLines(oldLines, newLines);
    var hunks, added, removed;
    hunks, added, removed, ranges := Group(script);
    HunksApply(script, hunks, ranges);
    NoHunks(oldLines, newLines, script, hunks, ranges);
    d, ops := Diff(hunks, added, removed, false), script;
  }

  lemma {:induction false} EqualScript(a: seq<string>, ops: seq<Op>)
    requires |ops| == |a| && forall i :: 0 <= i < |a| ==> ops[i] == Equal(a[i])
    ensures Olds(ops) == a && News(ops) == a && Kept(ops) == |a|
  {
    if a != [] {
      EqualScript(a[..|a| - 1], ops[..|a| - 1]);
    }
  }
}
