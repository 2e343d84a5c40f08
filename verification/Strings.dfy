/** The string functions of the two standard libraries that the models call. */
module Strings {

  /** Splitting at every occurrence of one character, as strings.Split and String.split do. */
  function Split(s: string, sep: char): (parts: seq<string>)
    ensures parts != []
  {
    if s == "" then [""]
    else
      var rest := Split(s[1..], sep);
      if s[0] == sep then [""] + rest else [[s[0]] + rest[0]] + rest[1..]
  }

  /** The parts with one separator between each two. */
  function Join(parts: seq<string>, sep: char): string {
    if parts == [] then ""
    else if |parts| == 1 then parts[0]
    else parts[0] + [sep] + Join(parts[1..], sep)
  }

  /** Joining undoes splitting. */
  lemma {:induction false} JoinSplit(s: string, sep: char)
    ensures Join(Split(s, sep), sep) == s
  {
    if s != "" {
      JoinSplit(s[1..], sep);
    }
  }

  /** Splitting undoes joining, provided no part contains the separator. */
  lemma {:induction false} SplitJoin(parts: seq<string>, sep: char)
    requires parts != []
    requires forall p :: p in parts ==> sep !in p
    ensures Split(Join(parts, sep), sep) == parts
  {
    SplitPlain(parts[0], sep);
    if |parts| > 1 {
      SplitJoin(parts[1..], sep);
      SplitAppend(parts[0], Join(parts[1..], sep), sep);
      assert parts[0] + [sep] + Join(parts[1..], sep) == parts[0] + ([sep] + Join(parts[1..], sep));
    }
  }

  lemma {:induction false} SplitPlain(s: string, sep: char)
    requires sep !in s
    ensures Split(s, sep) == [s]
  {
    if s != "" {
      SplitPlain(s[1..], sep);
      assert [s[0]] + s[1..] == s;
    }
  }

  lemma {:induction false} SplitAppend(x: string, y: string, sep: char)
    requires sep !in x
    ensures Split(x + [sep] + y, sep) == [x] + Split(y, sep)
  {
    var s := x + [sep] + y;
    if x == "" {
      assert s[1..] == y;
    } else {
      SplitAppend(x[1..], y, sep);
      assert s[1..] == x[1..] + [sep] + y;
      assert [x[0]] + x[1..] == x;
    }
  }

  lemma SplitStep(s: string, sep: char)
    requires s != ""
    ensures var rest := Split(s[1..], sep);
            Split(s, sep) == if s[0] == sep then [""] + rest else [[s[0]] + rest[0]] + rest[1..]
  {
  }

  lemma Prepended(c: char, rest: seq<string>, other: seq<string>, sep: char)
    requires rest != []
    ensures (if c == sep then [""] + (rest + other) else [[c] + (rest + other)[0]] + (rest + other)[1..]) ==
            (if c == sep then [""] + rest else [[c] + rest[0]] + rest[1..]) + other
  {
    assert (rest + other)[1..] == rest[1..] + other;
  }

  /** Splitting two texts with a separator between them splits both. */
  lemma {:induction false} SplitBoth(x: string, y: string, sep: char)
    ensures Split(x + [sep] + y, sep) == Split(x, sep) + Split(y, sep)
  {
    hide *;
    var s := x + [sep] + y;
    SplitStep(s, sep);
    if x == "" {
      assert s[1..] == y;
      SplitEmpty(sep);
    } else {
      SplitBoth(x[1..], y, sep);
      assert s[1..] == x[1..] + [sep] + y;
      SplitStep(x, sep);
      Prepended(x[0], Split(x[1..], sep), Split(y, sep), sep);
    }
  }

  lemma SplitEmpty(sep: char)
    ensures Split("", sep) == [""]
  {
  }

  /** No part holds the separator. */
  lemma {:induction false} SplitClean(s: string, sep: char)
    ensures forall p :: p in Split(s, sep) ==> sep !in p
  {
    if s != "" {
      SplitClean(s[1..], sep);
      var rest := Split(s[1..], sep);
      assert rest[0] in rest;
      assert forall p :: p in rest[1..] ==> p in rest;
    }
  }

  predicate HasPrefix(s: string, prefix: string) {
    prefix <= s
  }

  predicate HasSuffix(s: string, suffix: string) {
    |suffix| <= |s| && s[|s| - |suffix|..] == suffix
  }

  /** strings.Contains. */
  predicate Contains(s: string, sub: string) {
    sub <= s || (s != "" && Contains(s[1..], sub))
  }

  lemma {:induction false} ContainsAt(pre: string, sub: string, post: string)
    ensures Contains(pre + sub + post, sub)
  {
    if pre == "" {
      assert pre + sub + post == sub + post;
    } else {
      ContainsAt(pre[1..], sub, post);
      assert (pre + sub + post)[1..] == pre[1..] + sub + post;
    }
  }

  // ----- The byte order used by sort.Strings and strings.Compare

  /** Three-way comparison of two strings, element by element. */
  function Compare(s: string, t: string): (c: int)
    ensures -1 <= c <= 1
  {
    if s == "" || t == "" then (if s == t then 0 else if s == "" then -1 else 1)
    else if s[0] != t[0] then (if s[0] < t[0] then -1 else 1)
    else Compare(s[1..], t[1..])
  }

  lemma {:induction false} CompareZero(s: string, t: string)
    ensures Compare(s, t) == 0 <==> s == t
  {
    if s != "" && t != "" && s[0] == t[0] {
      CompareZero(s[1..], t[1..]);
      assert s == [s[0]] + s[1..] && t == [t[0]] + t[1..];
    }
  }

  lemma {:induction false} CompareFlip(s: string, t: string)
    ensures Compare(s, t) == -Compare(t, s)
  {
    if s != "" && t != "" && s[0] == t[0] {
      CompareFlip(s[1..], t[1..]);
    }
  }

  lemma {:induction false} CompareTrans(s: string, t: string, u: string)
    requires Compare(s, t) <= 0 && Compare(t, u) <= 0
    ensures Compare(s, u) <= 0
    ensures Compare(s, u) == 0 ==> Compare(s, t) == 0 && Compare(t, u) == 0
  {
    if s != "" && t != "" && u != "" && s[0] == t[0] == u[0] {
      CompareTrans(s[1..], t[1..], u[1..]);
    }
  }

  predicate Less(s: string, t: string) {
    Compare(s, t) < 0
  }

  /** They agree up to k, and there s ends or has the lower character. */
  ghost predicate PartsAt(s: string, t: string, k: int) {
    0 <= k <= |s| && k < |t| && s[..k] == t[..k] && (k == |s| || s[k] < t[k])
  }

  lemma {:induction false} LessMeans(s: string, t: string)
    ensures Less(s, t) <==> exists k :: PartsAt(s, t, k)
  {
    if s != "" && t != "" && s[0] == t[0] {
      LessMeans(s[1..], t[1..]);
      if k :| PartsAt(s[1..], t[1..], k) {
        assert s[..k + 1] == [s[0]] + s[1..][..k] && t[..k + 1] == [t[0]] + t[1..][..k];
        assert PartsAt(s, t, k + 1);
      }
      if k :| PartsAt(s, t, k) {
        assert k > 0;
        assert s[1..][..k - 1] == s[..k][1..] && t[1..][..k - 1] == t[..k][1..];
        assert PartsAt(s[1..], t[1..], k - 1);
      }
    } else if s == "" || t == "" || s[0] < t[0] {
      assert t != "" ==> PartsAt(s, t, 0);
    }
  }
}
