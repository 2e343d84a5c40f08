/** Which version is newer (internal/agent/version.go; Semantic Versioning 2.0.0, sections 2 and 9 to 11). */
module Semver {
  import opened Common
  import opened Strings
  import opened Decimals

  datatype Semver = Semver(core: seq<int>, pre: seq<string>)

  /** The first number that does not fit an int. */
  const TOO_BIG := 0x8000_0000_0000_0000

  // ----- The library

  /** strconv.Atoi: an optional sign, then digits, within the range of a 64-bit int. */
  function Atoi(s: string): Option<int> {
    if s == "" then None
    else
      var digits := if s[0] == '-' || s[0] == '+' then s[1..] else s;
      if digits == "" || !AllDigits(digits) then None
      else
        var n: int := if s[0] == '-' then -(NumberOf(digits) as int) else NumberOf(digits);
        if -TOO_BIG <= n < TOO_BIG then Some(n) else None
  }

  /** strings.Cut: what is before the first `sep` and what is after it, if there is one. */
  function Cut(s: string, sep: char): (string, Option<string>) {
    if s == "" then ("", None)
    else if s[0] == sep then ("", Some(s[1..]))
    else
      var (before, after) := Cut(s[1..], sep);
      ([s[0]] + before, after)
  }

  function CmpInt(a: int, b: int): int {
    if a < b then -1 else if a > b then 1 else 0
  }

  /** Digits are read as their number, with a sign or without, as long as it fits 64 bits. */
  lemma AtoiReads(digits: string)
    requires digits != "" && AllDigits(digits)
    ensures var n: int := NumberOf(digits);
            && (Atoi(digits) == Atoi("+" + digits) == if n < 0x8000_0000_0000_0000 then Some(n) else None)
            && (Atoi("-" + digits) == if n <= 0x8000_0000_0000_0000 then Some(-n) else None)
  {
    assert ("+" + digits)[1..] == digits && ("-" + digits)[1..] == digits;
  }

  // ----- Parsing

  function TrimV(v: string): string {
    if HasPrefix(v, "v") then v[1..] else v
  }

  /** The numbers of a core, or nothing as soon as one is not a number from 0 up. */
  function Numbers(parts: seq<string>): Option<seq<int>> {
    if parts == [] then Some([])
    else
      match Numbers(parts[..|parts| - 1])
      case None => None
      case Some(ns) =>
        var n := Atoi(parts[|parts| - 1]);
        if n.None? || n.value < 0 then None else Some(ns + [n.value])
  }

  function Parsed(v: string): (r: Option<Semver>)
    ensures r.Some? ==> |r.value.core| == 3
  {
    var (core, pre) := Cut(Cut(TrimV(v), '+').0, '-');
    var parts := Split(core, '.');
    if |parts| != 3 then None
    else
      NumbersLength(parts);
      match Numbers(parts)
      case None => None
      case Some(ns) =>
        if pre == Some("") then None
        else Some(Semver(ns, if pre.None? then [] else Split(pre.value, '.')))
  }

  lemma {:induction false} NumbersLength(parts: seq<string>)
    ensures Numbers(parts).Some? ==> |Numbers(parts).value| == |parts| && forall n <- Numbers(parts).value :: n >= 0
  {
    if parts != [] {
      NumbersLength(parts[..|parts| - 1]);
    }
  }

  method ParseSemver(version: string) returns (r: Option<Semver>)
    ensures r == Parsed(version)
  {
    hide Atoi;
    var v := TrimV(version);
    v := Cut(v, '+').0;
    var (core, pre) := Cut(v, '-');
    var parts := Split(core, '.');
    if |parts| != 3 {
      return None;
    }
    var numbers: seq<int> := [];
    for i := 0 to |parts|
      invariant Numbers(parts[..i]) == Some(numbers)
    {
      assert parts[..i + 1][..i] == parts[..i];
      var n := Atoi(parts[i]);
      if n.None? || n.value < 0 {
        NotNumbers(parts, i + 1);
        return None;
      }
      numbers := numbers + [n.value];
    }
    assert parts[..|parts|] == parts;
    if pre == Some("") {
      return None;
    }
    return Some(Semver(numbers, if pre.None? then [] else Split(pre.value, '.')));
  }

  lemma {:induction false} NotNumbers(parts: seq<string>, i: nat)
    requires i <= |parts| && Numbers(parts[..i]).None?
    ensures Numbers(parts).None?
    decreases |parts|
  {
    if i < |parts| {
      assert parts[..|parts| - 1][..i] == parts[..i];
      NotNumbers(parts[..|parts| - 1], i);
    } else {
      assert parts[..i] == parts;
    }
  }

  // ----- Comparing

  /** One identifier against another: numbers below texts. */
  function CompareId(a: string, b: string): (c: int)
    ensures -1 <= c <= 1
  {
    var x, y := Atoi(a), Atoi(b);
    if x.Some? && y.Some? then CmpInt(x.value, y.value)
    else if x.Some? then -1
    else if y.Some? then 1
    else Compare(a, b)
  }

  function ComparePre(a: seq<string>, b: seq<string>): (c: int)
    ensures -1 <= c <= 1
  {
    if a == [] || b == [] then CmpInt(|a|, |b|)
    else if CompareId(a[0], b[0]) != 0 then CompareId(a[0], b[0])
    else ComparePre(a[1..], b[1..])
  }

  function CompareCore(a: seq<int>, b: seq<int>): (c: int)
    requires |a| == |b|
    ensures -1 <= c <= 1
  {
    if a == [] then 0 else if a[0] != b[0] then CmpInt(a[0], b[0]) else CompareCore(a[1..], b[1..])
  }

  function CompareTails(a: seq<string>, b: seq<string>): (c: int)
    ensures -1 <= c <= 1
  {
    if a == [] && b == [] then 0
    else if a == [] then 1
    else if b == [] then -1
    else ComparePre(a, b)
  }

  function CompareVersions(a: Semver, b: Semver): (c: int)
    requires |a.core| == |b.core|
    ensures -1 <= c <= 1
  {
    if CompareCore(a.core, b.core) != 0 then CompareCore(a.core, b.core) else CompareTails(a.pre, b.pre)
  }

  method CompareSemver(a: Semver, b: Semver) returns (c: int)
    requires |a.core| == |b.core| == 3
    ensures c == CompareVersions(a, b)
  {
    hide CompareId;
    for i := 0 to |a.core|
      invariant CompareCore(a.core, b.core) == CompareCore(a.core[i..], b.core[i..])
    {
      if a.core[i] != b.core[i] {
        return CmpInt(a.core[i], b.core[i]);
      }
      assert a.core[i..][1..] == a.core[i + 1..] && b.core[i..][1..] == b.core[i + 1..];
    }
    if a.pre == [] && b.pre == [] {
      return 0;
    } else if a.pre == [] {
      return 1;
    } else if b.pre == [] {
      return -1;
    }
    var i := 0;
    while i < |a.pre| && i < |b.pre|
      invariant i <= |a.pre| && i <= |b.pre|
      invariant ComparePre(a.pre, b.pre) == ComparePre(a.pre[i..], b.pre[i..])
    {
      var d := CompareId(a.pre[i], b.pre[i]);
      if d != 0 {
        return d;
      }
      assert a.pre[i..][1..] == a.pre[i + 1..] && b.pre[i..][1..] == b.pre[i + 1..];
      i := i + 1;
    }
    return CmpInt(|a.pre|, |b.pre|);
  }

  // ----- A total preorder

  lemma IdFlip(a: string, b: string)
    ensures CompareId(a, b) == -CompareId(b, a)
  {
    CompareFlip(a, b);
  }

  lemma IdTrans(a: string, b: string, c: string)
    requires CompareId(a, b) <= 0 && CompareId(b, c) <= 0
    ensures CompareId(a, c) <= 0 && (CompareId(a, c) == 0 ==> CompareId(a, b) == 0 && CompareId(b, c) == 0)
  {
    hide Atoi, Compare;
    if Compare(a, b) <= 0 && Compare(b, c) <= 0 {
      CompareTrans(a, b, c);
    }
  }

  lemma {:induction false} PreFlip(a: seq<string>, b: seq<string>)
    ensures ComparePre(a, b) == -ComparePre(b, a)
  {
    hide CompareId;
    if a != [] && b != [] {
      IdFlip(a[0], b[0]);
      PreFlip(a[1..], b[1..]);
    }
  }

  lemma {:induction false} PreTrans(a: seq<string>, b: seq<string>, c: seq<string>)
    requires ComparePre(a, b) <= 0 && ComparePre(b, c) <= 0
    ensures ComparePre(a, c) <= 0 && (ComparePre(a, c) == 0 ==> ComparePre(a, b) == 0 && ComparePre(b, c) == 0)
  {
    hide CompareId;
    if a != [] && b != [] && c != [] {
      IdTrans(a[0], b[0], c[0]);
      IdTies(a[0], b[0], c[0]);
      if CompareId(a[0], b[0]) == 0 && CompareId(b[0], c[0]) == 0 {
        PreTrans(a[1..], b[1..], c[1..]);
      }
    }
  }

  lemma IdTies(a: string, b: string, c: string)
    ensures CompareId(a, b) == 0 && CompareId(b, c) == 0 ==> CompareId(a, c) == 0
  {
    hide Atoi, Compare;
    CompareZero(a, b);
    CompareZero(b, c);
    CompareZero(a, c);
  }

  lemma {:induction false} CoreOrder(a: seq<int>, b: seq<int>, c: seq<int>)
    requires |a| == |b| == |c|
    ensures CompareCore(a, b) == -CompareCore(b, a)
    ensures CompareCore(a, b) <= 0 && CompareCore(b, c) <= 0 ==>
              CompareCore(a, c) <= 0 && (CompareCore(a, c) == 0 ==> CompareCore(a, b) == 0 && CompareCore(b, c) == 0)
    ensures CompareCore(a, b) == 0 && CompareCore(b, c) == 0 ==> CompareCore(a, c) == 0
  {
    if a != [] {
      CoreOrder(a[1..], b[1..], c[1..]);
    }
  }

  /** Comparing the other way round gives the opposite, so every two versions are ordered. */
  lemma Total(a: Semver, b: Semver)
    requires |a.core| == |b.core|
    ensures CompareVersions(a, b) == -CompareVersions(b, a)
  {
    hide CompareCore, ComparePre;
    CoreOrder(a.core, b.core, a.core);
    PreFlip(a.pre, b.pre);
  }

  lemma Transitive(a: Semver, b: Semver, c: Semver)
    requires |a.core| == |b.core| == |c.core|
    requires CompareVersions(a, b) <= 0 && CompareVersions(b, c) <= 0
    ensures CompareVersions(a, c) <= 0
    ensures CompareVersions(a, c) == 0 ==> CompareVersions(a, b) == 0 && CompareVersions(b, c) == 0
  {
    hide CompareCore, ComparePre;
    CoreOrder(a.core, b.core, c.core);
    if ComparePre(a.pre, b.pre) <= 0 && ComparePre(b.pre, c.pre) <= 0 {
      PreTrans(a.pre, b.pre, c.pre);
    }
  }

  // ----- Section 11

  predicate DigitsOnly(id: string) {
    id != "" && AllDigits(id)
  }

  /** Identifiers consisting of digits are numbers; the others are texts. */
  datatype Rank = Num(n: int) | Alpha(text: string)

  function RankOf(id: string): Rank {
    if DigitsOnly(id) then Num(NumberOf(id)) else Alpha(id)
  }

  predicate RankLess(x: Rank, y: Rank) {
    match (x, y)
    case (Num(m), Num(n)) => m < n
    case (Num(_), Alpha(_)) => true
    case (Alpha(_), Num(_)) => false
    case (Alpha(s), Alpha(t)) => Less(s, t)
  }

  /** The first difference decides; with none, the shorter list is lower. */
  ghost predicate PreBelow(a: seq<string>, b: seq<string>) {
    exists i :: 0 <= i <= |a| && i <= |b| && SameRanks(a, b, i) &&
      ((i == |a| && i < |b|) || (i < |a| && i < |b| && RankLess(RankOf(a[i]), RankOf(b[i]))))
  }

  ghost predicate SameRanks(a: seq<string>, b: seq<string>, n: int) {
    n <= |a| && n <= |b| && forall k :: 0 <= k < n ==> RankOf(a[k]) == RankOf(b[k])
  }

  ghost predicate CoreBelow(a: seq<int>, b: seq<int>)
    requires |a| == |b|
  {
    exists i :: 0 <= i < |a| && a[i] < b[i] && a[..i] == b[..i]
  }

  /**
   Precedence: major, minor and patch first; then a pre-release is below its release; then identifier by
   identifier.
   */
  ghost predicate Precedes(a: Semver, b: Semver)
    requires |a.core| == |b.core|
  {
    CoreBelow(a.core, b.core) ||
    (a.core == b.core && ((a.pre != [] && b.pre == []) || (a.pre != [] && b.pre != [] && PreBelow(a.pre, b.pre))))
  }

  /** The characters of an identifier. */
  predicate IdChars(id: string) {
    id != "" && forall i :: 0 <= i < |id| ==>
        IsDigit(id[i]) || 'a' <= id[i] <= 'z' || 'A' <= id[i] <= 'Z' || id[i] == '-'
  }

  /** The program ranks the identifier as section 11 does: it is a number exactly when it is all digits. */
  predicate Plain(id: string) {
    Atoi(id).Some? <==> DigitsOnly(id)
  }

  predicate AllPlain(pre: seq<string>) {
    forall i :: 0 <= i < |pre| ==> Plain(pre[i])
  }

  /**
   Not plain are a hyphen before a number, which the program takes for a negative number, and a number
   out of range.
   */
  lemma PlainMeans(id: string)
    requires IdChars(id)
    ensures !Plain(id) <==>
            || (DigitsOnly(id) && NumberOf(id) >= TOO_BIG)
            || (id[0] == '-' && DigitsOnly(id[1..]) && NumberOf(id[1..]) <= TOO_BIG)
  {
  }

  lemma PlainIds(a: string, b: string)
    requires Plain(a) && Plain(b)
    ensures CompareId(a, b) < 0 <==> RankLess(RankOf(a), RankOf(b))
    ensures CompareId(a, b) == 0 <==> RankOf(a) == RankOf(b)
  {
    hide Compare;
    CompareZero(a, b);
    AtoiOfDigits(a);
    AtoiOfDigits(b);
  }

  lemma AtoiOfDigits(id: string)
    ensures DigitsOnly(id) && Atoi(id).Some? ==> Atoi(id).value == NumberOf(id)
  {
  }

  lemma {:induction false} PreAgrees(a: seq<string>, b: seq<string>)
    requires AllPlain(a) && AllPlain(b)
    ensures ComparePre(a, b) < 0 <==> PreBelow(a, b)
  {
    hide CompareId, Plain, RankOf, RankLess;
    if a == [] || b == [] {
      if a == [] && b != [] {
        assert SameRanks(a, b, 0);
      }
    } else {
      PlainIds(a[0], b[0]);
      PreAgrees(a[1..], b[1..]);
      if CompareId(a[0], b[0]) < 0 {
        assert SameRanks(a, b, 0);
      } else if CompareId(a[0], b[0]) == 0 {
        PreShift(a, b);
      } else {
        forall i | 0 < i && SameRanks(a, b, i) ensures RankOf(a[0]) == RankOf(b[0]) {
        }
      }
    }
  }

  lemma PreShift(a: seq<string>, b: seq<string>)
    requires a != [] && b != [] && RankOf(a[0]) == RankOf(b[0])
    ensures PreBelow(a, b) <==> PreBelow(a[1..], b[1..])
  {
    hide RankOf;
    RankIrreflexive(RankOf(a[0]));
    if PreBelow(a, b) {
      var i :| 0 <= i <= |a| && i <= |b| && SameRanks(a, b, i) &&
        ((i == |a| && i < |b|) || (i < |a| && i < |b| && RankLess(RankOf(a[i]), RankOf(b[i]))));
      assert SameRanks(a[1..], b[1..], i - 1);
    }
    if PreBelow(a[1..], b[1..]) {
      var i :| 0 <= i <= |a[1..]| && i <= |b[1..]| && SameRanks(a[1..], b[1..], i) &&
        ((i == |a[1..]| && i < |b[1..]|) || (i < |a[1..]| && i < |b[1..]|
            && RankLess(RankOf(a[1..][i]), RankOf(b[1..][i]))));
      assert SameRanks(a, b, i + 1);
    }
  }

  lemma RankIrreflexive(x: Rank)
    ensures !RankLess(x, x)
  {
    if x.Alpha? {
      CompareZero(x.text, x.text);
    }
  }

  lemma CoreShift(a: seq<int>, b: seq<int>)
    requires |a| == |b| && a != [] && a[0] == b[0]
    ensures CoreBelow(a, b) <==> CoreBelow(a[1..], b[1..])
  {
    if CoreBelow(a[1..], b[1..]) {
      var i :| 0 <= i < |a[1..]| && a[1..][i] < b[1..][i] && a[1..][..i] == b[1..][..i];
      assert a[..i + 1] == [a[0]] + a[1..][..i] && b[..i + 1] == [b[0]] + b[1..][..i];
      assert a[i + 1] < b[i + 1];
    }
    if CoreBelow(a, b) {
      var i :| 0 <= i < |a| && a[i] < b[i] && a[..i] == b[..i];
      assert a[1..][..i - 1] == a[..i][1..] && b[1..][..i - 1] == b[..i][1..];
      assert a[1..][i - 1] < b[1..][i - 1];
    }
  }

  lemma CoreFirst(a: seq<int>, b: seq<int>)
    requires |a| == |b| && a != [] && a[0] != b[0]
    ensures CoreBelow(a, b) <==> a[0] < b[0]
  {
    if a[0] < b[0] {
      assert a[..0] == b[..0];
    }
    if CoreBelow(a, b) {
      var i :| 0 <= i < |a| && a[i] < b[i] && a[..i] == b[..i];
      assert i == 0 || a[..i][0] == b[..i][0];
    }
  }

  lemma {:induction false} CoreAgrees(a: seq<int>, b: seq<int>)
    requires |a| == |b|
    ensures CompareCore(a, b) < 0 <==> CoreBelow(a, b)
    ensures CompareCore(a, b) == 0 <==> a == b
  {
    if a == [] {
    } else if a[0] == b[0] {
      CoreAgrees(a[1..], b[1..]);
      CoreShift(a, b);
      hide CoreBelow;
      assert a == [a[0]] + a[1..] && b == [b[0]] + b[1..];
    } else {
      CoreFirst(a, b);
    }
  }

  /** On plain versions the program's order is the precedence of section 11. */
  lemma AgreesWithSection11(a: Semver, b: Semver)
    requires |a.core| == |b.core| && AllPlain(a.pre) && AllPlain(b.pre)
    ensures CompareVersions(a, b) < 0 <==> Precedes(a, b)
  {
    hide CompareCore, ComparePre, CoreBelow, PreBelow, Plain;
    CoreAgrees(a.core, b.core);
    PreAgrees(a.pre, b.pre);
  }

  /**
   And on no others: a version with an identifier that is not plain is ordered against section 11
   with respect to some version that is.
   */
  lemma PlainIsNeeded(a: Semver) returns (b: Semver)
    requires !AllPlain(a.pre) && forall i :: 0 <= i < |a.pre| ==> IdChars(a.pre[i])
    ensures b.core == a.core && AllPlain(b.pre) && forall i :: 0 <= i < |b.pre| ==> IdChars(b.pre[i])
    ensures (CompareVersions(a, b) < 0) != Precedes(a, b)
  {
    var i := FirstOdd(a.pre);
    PlainMeans(a.pre[i]);
    var last := if a.pre[i][0] == '-' then "5" else "-";
    OddAgainst(a.pre[i]);
    b := Semver(a.core, a.pre[..i] + [last]);
    hide Plain, CompareId, RankOf, RankLess, IdChars;
    CoreSame(a.core);
    ComparePrefix(a.pre, b.pre, i);
    if CompareId(a.pre[i], last) < 0 {
      NotBelow(a.pre, b.pre, i);
    } else {
      assert SameRanks(a.pre, b.pre, i);
    }
  }

  lemma {:induction false} FirstOdd(pre: seq<string>) returns (i: nat)
    requires !AllPlain(pre)
    ensures i < |pre| && !Plain(pre[i]) && AllPlain(pre[..i])
  {
    hide Plain;
    if AllPlain(pre[..|pre| - 1]) {
      i := |pre| - 1;
    } else {
      i := FirstOdd(pre[..|pre| - 1]);
      assert pre[..|pre| - 1][..i] == pre[..i];
    }
  }

  /** Against these two the program and section 11 disagree about an identifier that is not plain. */
  lemma OddAgainst(id: string)
    requires IdChars(id) && !Plain(id)
    ensures var last := if id[0] == '-' then "5" else "-";
            && Plain(last) && IdChars(last)
            && CompareId(id, last) != 0 && (CompareId(id, last) < 0) != RankLess(RankOf(id), RankOf(last))
            && !(RankOf(id) == RankOf(last))
  {
    PlainMeans(id);
    assert "5"[..0] == "";
    assert NumberOf("5") == 5;
    assert Atoi("5") == Some(5) && Atoi("-") == None;
  }

  lemma {:induction false} CoreSame(core: seq<int>)
    ensures CompareCore(core, core) == 0 && !CoreBelow(core, core)
  {
    CoreAgrees(core, core);
  }

  lemma {:induction false} ComparePrefix(a: seq<string>, b: seq<string>, i: nat)
    requires i < |a| && i < |b| && a[..i] == b[..i] && CompareId(a[i], b[i]) != 0
    ensures ComparePre(a, b) == CompareId(a[i], b[i])
    decreases i
  {
    hide CompareId;
    if i > 0 {
      assert a[0] == a[..i][0] && b[0] == b[..i][0];
      IdFlip(a[0], a[0]);
      assert a[1..][..i - 1] == a[..i][1..] && b[1..][..i - 1] == b[..i][1..];
      ComparePrefix(a[1..], b[1..], i - 1);
    }
  }

  lemma NotBelow(a: seq<string>, b: seq<string>, i: nat)
    requires i < |a| && |b| == i + 1 && a[..i] == b[..i]
    requires !RankLess(RankOf(a[i]), RankOf(b[i])) && RankOf(a[i]) != RankOf(b[i])
    ensures !PreBelow(a, b)
  {
    hide RankOf, RankLess;
    forall j | 0 <= j <= |a| && j <= |b| && SameRanks(a, b, j)
      ensures !((j == |a| && j < |b|) || (j < |a| && j < |b| && RankLess(RankOf(a[j]), RankOf(b[j]))))
    {
      if j < i {
        assert a[j] == a[..i][j] && b[j] == b[..i][j];
        RankIrreflexive(RankOf(a[j]));
      }
    }
  }

  // ----- Well-formed texts

  function Dotted(ids: seq<string>): string {
    Join(ids, '.')
  }

  /** `1.2.3-rc.1+build`, with or without a leading v. */
  function Format(lead: bool, major: nat, minor: nat, patch: nat, pre: seq<string>, build: Option<string>): string {
    (if lead then "v" else "") + Dotted([Decimal(major), Decimal(minor), Decimal(patch)]) +
    (if pre == [] then "" else "-" + Dotted(pre)) + (match build case None => "" case Some(b) => "+" + b)
  }

  lemma {:induction false} CutAt(x: string, sep: char, y: string)
    requires sep !in x
    ensures Cut(x + [sep] + y, sep) == (x, Some(y))
  {
    var s := x + [sep] + y;
    if x == "" {
      assert s[1..] == y;
    } else {
      CutAt(x[1..], sep, y);
      assert s[1..] == x[1..] + [sep] + y && [x[0]] + x[1..] == x;
    }
  }

  lemma {:induction false} CutNone(x: string, sep: char)
    requires sep !in x
    ensures Cut(x, sep) == (x, None)
  {
    if x != "" {
      CutNone(x[1..], sep);
      assert [x[0]] + x[1..] == x;
    }
  }

  lemma DigitsApart(n: nat)
    ensures forall c <- Decimal(n) :: c != '.' && c != '-' && c != '+' && c != 'v'
    ensures n < TOO_BIG ==> Atoi(Decimal(n)) == Some(n)
    ensures Decimal(n) != ""
  {
    DecimalReads(n);
  }

  lemma {:induction false} JoinApart(ids: seq<string>, c: char)
    requires c != '.' && forall id <- ids :: c !in id
    ensures c !in Dotted(ids)
  {
    if |ids| > 1 {
      JoinApart(ids[1..], c);
    }
  }

  lemma IdApart(id: string)
    requires IdChars(id)
    ensures '+' !in id && '.' !in id
  {
  }

  function Tail(pre: seq<string>): string {
    if pre == [] then "" else "-" + Dotted(pre)
  }

  function Meta(build: Option<string>): string {
    match build case None => "" case Some(b) => "+" + b
  }

  lemma FormatParts(lead: bool, major: nat, minor: nat, patch: nat, pre: seq<string>, build: Option<string>)
    ensures Format(lead, major, minor, patch, pre, build) ==
            (if lead then "v" else "") + Dotted([Decimal(major), Decimal(minor), Decimal(patch)]) +
                (Tail(pre) + Meta(build))
  {
    hide Decimal, Dotted;
  }

  /** Build metadata is cut off. */
  lemma MetaCut(body: string, build: Option<string>)
    requires '+' !in body
    ensures Cut(body + Meta(build), '+').0 == body
  {
    hide Cut;
    match build {
      case None =>
        CutNone(body, '+');
        assert body + "" == body;
      case Some(b) =>
        CutAt(body, '+', b);
        assert body + ("+" + b) == body + ['+'] + b;
    }
  }

  lemma PreCut(core: string, pre: seq<string>)
    requires '-' !in core
    ensures Cut(core + Tail(pre), '-') == (core, if pre == [] then None else Some(Dotted(pre)))
  {
    hide Cut, Dotted;
    if pre == [] {
      CutNone(core, '-');
      assert core + "" == core;
    } else {
      CutAt(core, '-', Dotted(pre));
      assert core + ("-" + Dotted(pre)) == core + ['-'] + Dotted(pre);
    }
  }

  lemma ParsedFrom(v: string, core: string, pre: seq<string>, ns: seq<int>)
    requires Cut(Cut(TrimV(v), '+').0, '-') == (core, if pre == [] then None else Some(Dotted(pre)))
    requires |Split(core, '.')| == 3 && Numbers(Split(core, '.')) == Some(ns) && |ns| == 3
    requires pre != [] ==> Split(Dotted(pre), '.') == pre && Dotted(pre) != ""
    ensures Parsed(v) == Some(Semver(ns, pre))
  {
    hide Cut, Dotted, Split, Numbers, TrimV;
  }

  lemma {:induction false} CutJoins(s: string, sep: char)
    ensures var (before, after) := Cut(s, sep);
            sep !in before && s == before + if after.None? then "" else [sep] + after.value
  {
    if s != "" && s[0] != sep {
      CutJoins(s[1..], sep);
    }
  }

  /** A text that a number starts from 0 up is plain digits, when it holds no sign. */
  lemma AtoiPlain(s: string)
    requires Atoi(s).Some? && '+' !in s && '-' !in s
    ensures s != "" && AllDigits(s) && NumberOf(s) == Atoi(s).value && NumberOf(s) < 0x8000_0000_0000_0000
  {
    assert s[0] in s;
  }

  lemma NumbersAt(x: string, y: string, z: string)
    requires Numbers([x, y, z]).Some?
    ensures Atoi(x).Some? && Atoi(y).Some? && Atoi(z).Some?
    ensures Numbers([x, y, z]).value == [Atoi(x).value, Atoi(y).value, Atoi(z).value]
  {
    hide Atoi;
    NumbersLast([], x);
    NumbersLast([x], y);
    NumbersLast([x, y], z);
    assert [] + [x] == [x] && [x] + [y] == [x, y] && [x, y] + [z] == [x, y, z];
  }

  lemma NumbersLast(init: seq<string>, s: string)
    ensures Numbers([]) == Some([])
    ensures Numbers(init + [s]) ==
              if Numbers(init).None? || Atoi(s).None? || Atoi(s).value < 0 then None
              else Some(Numbers(init).value + [Atoi(s).value])
  {
    hide Atoi;
    assert (init + [s])[..|init|] == init;
  }

  predicate Number(s: string) {
    s != "" && AllDigits(s) && NumberOf(s) < 0x8000_0000_0000_0000
  }

  lemma ThreeParts(core: string) returns (x: string, y: string, z: string)
    requires |Split(core, '.')| == 3 && Numbers(Split(core, '.')).Some? && '+' !in core && '-' !in core
    ensures core == x + "." + y + "." + z && Number(x) && Number(y) && Number(z)
    ensures Numbers(Split(core, '.')) == Some([NumberOf(x), NumberOf(y), NumberOf(z)])
  {
    var parts := Split(core, '.');
    x, y, z := parts[0], parts[1], parts[2];
    assert parts == [x, y, z];
    JoinSplit(core, '.');
    ThreeJoined(x, y, z);
    NumbersAt(x, y, z);
    hide Atoi, Split, Join, Numbers;
    AtoiPlain(x);
    AtoiPlain(y);
    AtoiPlain(z);
  }

  lemma ThreeJoined(x: string, y: string, z: string)
    ensures Join([x, y, z], '.') == x + "." + y + "." + z
  {
    assert [x, y, z][1..] == [y, z] && [y, z][1..] == [z];
    assert Join([y, z], '.') == y + ['.'] + Join([z], '.');
    assert Join([x, y, z], '.') == x + ['.'] + Join([y, z], '.');
    assert x + ['.'] + (y + ['.'] + z) == x + "." + y + "." + z;
  }

  /**
   What is read as a version is three numbers in range between dots, after a "v" or not, then perhaps a
   hyphen with a text that is not empty, then perhaps a plus sign with any text; and it is read as that.
   */
  lemma ReadIsWritten(v: string) returns (x: string, y: string, z: string, pre: Option<string>, build: Option<string>)
    requires Parsed(v).Some?
    ensures Number(x) && Number(y) && Number(z) && pre != Some("")
    ensures v == (if HasPrefix(v, "v") then "v" else "") + (x + "." + y + "." + z) +
              (if pre.Some? then "-" + pre.value else "") + if build.Some? then "+" + build.value else ""
    ensures Parsed(v) == Some(Semver([NumberOf(x), NumberOf(y), NumberOf(z)],
              if pre.None? then [] else Split(pre.value, '.')))
  {
    hide Cut, Numbers, Split, NumberOf;
    var body := TrimV(v);
    CutJoins(body, '+');
    build := Cut(body, '+').1;
    var rest := Cut(body, '+').0;
    CutJoins(rest, '-');
    var core := Cut(rest, '-').0;
    pre := Cut(rest, '-').1;
    assert core + (if pre.None? then "" else ['-'] + pre.value) == rest;
    forall c | c in core ensures c in rest {
    }
    x, y, z := ThreeParts(core);
    Written(v, body, rest, core, pre, build);
  }

  lemma Written(v: string, body: string, rest: string, core: string, pre: Option<string>, build: Option<string>)
    requires body == TrimV(v)
    requires body == rest + if build.None? then "" else "+" + build.value
    requires rest == core + if pre.None? then "" else "-" + pre.value
    ensures v == (if HasPrefix(v, "v") then "v" else "") + core +
              (if pre.Some? then "-" + pre.value else "") + if build.Some? then "+" + build.value else ""
  {
    var lead := if HasPrefix(v, "v") then "v" else "";
    assert v == lead + body;
    assert lead + (rest + if build.None? then "" else "+" + build.value) ==
        lead + rest + if build.None? then "" else "+" + build.value;
    assert lead + (core + if pre.None? then "" else "-" + pre.value) ==
        lead + core + if pre.None? then "" else "-" + pre.value;
  }

  /** Every well-formed version in range is read as what it says; build metadata is ignored. */
  lemma ParsesFormat(lead: bool, major: nat, minor: nat, patch: nat, pre: seq<string>, build: Option<string>)
    requires major < TOO_BIG && minor < TOO_BIG && patch < TOO_BIG && forall id <- pre :: IdChars(id)
    ensures Parsed(Format(lead, major, minor, patch, pre, build)) == Some(Semver([major, minor, patch], pre))
  {
    hide *;
    var core := Dotted([Decimal(major), Decimal(minor), Decimal(patch)]);
    CoreReads(major, minor, patch);
    TailReads(pre);
    FormatParts(lead, major, minor, patch, pre, build);
    Leads(lead, core, Tail(pre) + Meta(build));
    PlainBody(core, pre);
    assert core + (Tail(pre) + Meta(build)) == core + Tail(pre) + Meta(build);
    MetaCut(core + Tail(pre), build);
    PreCut(core, pre);
    ParsedFrom(Format(lead, major, minor, patch, pre, build), core, pre, [major, minor, patch]);
  }

  lemma Leads(lead: bool, core: string, rest: string)
    requires core != "" && core[0] != 'v'
    ensures TrimV((if lead then "v" else "") + core + rest) == core + rest
  {
    var s := (if lead then "v" else "") + core + rest;
    if lead {
      assert s[1..] == core + rest;
      assert "v" <= s;
    } else {
      assert s == core + rest;
      assert s[0] == core[0];
    }
  }

  lemma PlainBody(core: string, pre: seq<string>)
    requires '+' !in core && '+' !in Dotted(pre)
    ensures '+' !in core + Tail(pre)
  {
    hide Dotted;
  }

  lemma TailReads(pre: seq<string>)
    requires forall id <- pre :: IdChars(id)
    ensures '+' !in Dotted(pre)
    ensures pre != [] ==> Split(Dotted(pre), '.') == pre && Dotted(pre) != ""
  {
    forall id | id in pre ensures '+' !in id && '.' !in id {
      IdApart(id);
    }
    JoinApart(pre, '+');
    if pre != [] {
      SplitJoin(pre, '.');
      assert pre[0] in pre;
      assert pre[0] != "";
    }
  }

  lemma CoreReads(major: nat, minor: nat, patch: nat)
    requires major < TOO_BIG && minor < TOO_BIG && patch < TOO_BIG
    ensures var core := Dotted([Decimal(major), Decimal(minor), Decimal(patch)]);
            && core != "" && core[0] != 'v' && '+' !in core && '-' !in core
            && |Split(core, '.')| == 3 && Numbers(Split(core, '.')) == Some([major, minor, patch])
  {
    var parts := [Decimal(major), Decimal(minor), Decimal(patch)];
    DigitsApart(major);
    DigitsApart(minor);
    DigitsApart(patch);
    hide Decimal, Atoi, Numbers, Split;
    ThreeNumbers(parts[0], parts[1], parts[2], major, minor, patch);
    JoinApart(parts, '+');
    JoinApart(parts, '-');
    SplitJoin(parts, '.');
    StartsWith(parts);
    assert parts[0][0] in Decimal(major);
  }

  lemma StartsWith(parts: seq<string>)
    requires |parts| > 1 && parts[0] != ""
    ensures Dotted(parts) != "" && Dotted(parts)[0] == parts[0][0]
  {
  }

  lemma ThreeNumbers(x: string, y: string, z: string, a: int, b: int, c: int)
    requires a >= 0 && b >= 0 && c >= 0 && Atoi(x) == Some(a) && Atoi(y) == Some(b) && Atoi(z) == Some(c)
    ensures Numbers([x, y, z]) == Some([a, b, c])
  {
    hide Atoi;
    assert [] + [x] == [x] && [x] + [y] == [x, y] && [x, y] + [z] == [x, y, z];
    assert [] + [a] == [a] && [a] + [b] == [a, b] && [a, b] + [c] == [a, b, c];
    NumbersSnoc([], x, [], a);
    NumbersSnoc([x], y, [a], b);
    NumbersSnoc([x, y], z, [a, b], c);
  }

  lemma NumbersSnoc(parts: seq<string>, x: string, ns: seq<int>, n: int)
    requires Numbers(parts) == Some(ns) && Atoi(x) == Some(n) && n >= 0
    ensures Numbers(parts + [x]) == Some(ns + [n])
  {
    hide Atoi;
    assert (parts + [x])[..|parts|] == parts;
  }

  // ----- Updates

  function Downgrade(running: string, offered: string): bool {
    match Parsed(running)
    case None => false
    case Some(r) =>
      match Parsed(offered)
      case None => true
      case Some(o) => CompareVersions(o, r) < 0
  }

  method IsDowngrade(running: string, offered: string) returns (down: bool)
    ensures down == Downgrade(running, offered)
  {
    hide Parsed, CompareVersions;
    var r := ParseSemver(running);
    if r.None? {
      return false;
    }
    var o := ParseSemver(offered);
    if o.None? {
      return true;
    }
    var c := CompareSemver(o.value, r.value);
    return c < 0;
  }

  /**
   An offer that cannot be read, or that is lower, is a downgrade; the same version never is; and over a version
   that cannot be read nothing is. On plain versions lower is what section 11 says.
   */
  lemma DowngradeMeans(running: string, offered: string)
    ensures Downgrade(running, offered) <==>
              && Parsed(running).Some?
              && (Parsed(offered).None? || CompareVersions(Parsed(offered).value, Parsed(running).value) < 0)
    ensures Parsed(running) == Parsed(offered) ==> !Downgrade(running, offered)
    ensures Parsed(running).Some? && Parsed(offered).Some? && AllPlain(Parsed(running).value.pre)
            && AllPlain(Parsed(offered).value.pre) ==>
              (Downgrade(running, offered) <==> Precedes(Parsed(offered).value, Parsed(running).value))
  {
    hide Parsed, CompareVersions, Precedes, AllPlain;
    if Parsed(running).Some? {
      Total(Parsed(running).value, Parsed(running).value);
      if Parsed(offered).Some? && AllPlain(Parsed(running).value.pre) && AllPlain(Parsed(offered).value.pre) {
        AgreesWithSection11(Parsed(offered).value, Parsed(running).value);
      }
    }
  }

  /** Each version of the chain was accepted over the one before it. */
  ghost predicate Accepted(chain: seq<string>) {
    forall i :: 0 < i < |chain| ==> !Downgrade(chain[i - 1], chain[i])
  }

  /** From a real version, a chain of accepted updates only ever holds real versions, and never ends below its start. */
  lemma {:induction false} NeverBelowStart(chain: seq<string>)
    requires chain != [] && Accepted(chain) && Parsed(chain[0]).Some?
    ensures var end := Parsed(chain[|chain| - 1]);
            end.Some? && CompareVersions(Parsed(chain[0]).value, end.value) <= 0
  {
    hide Parsed, CompareVersions;
    var n := |chain| - 1;
    if n == 0 {
      Total(Parsed(chain[0]).value, Parsed(chain[0]).value);
    } else {
      assert chain[..n][0] == chain[0];
      NeverBelowStart(chain[..n]);
      var a, b := Parsed(chain[0]).value, Parsed(chain[n - 1]).value;
      assert !Downgrade(chain[n - 1], chain[n]);
      var c := Parsed(chain[n]).value;
      Total(b, c);
      Transitive(a, b, c);
    }
  }
}
