/** Pointers into a policy document (internal/acl/patch.go, ui/src/lib/policyDraft.ts; RFC 6901 sections 3 and 4). */
module Pointer {
  import opened Strings

  // ----- Replacing one character, as strings.ReplaceAll and replaceAll do

  function ReplaceChar(s: string, c: char, sub: string): string {
    if s == "" then ""
    else (if s[0] == c then sub else [s[0]]) + ReplaceChar(s[1..], c, sub)
  }

  /** Replacing the two-character text `~d`, left to right, without overlap. */
  function ReplaceTilde(s: string, d: char, sub: char): string {
    if |s| < 2 then s
    else if s[0] == '~' && s[1] == d then [sub] + ReplaceTilde(s[2..], d, sub)
    else [s[0]] + ReplaceTilde(s[1..], d, sub)
  }

  function EscapeToken(s: string): string {
    ReplaceChar(ReplaceChar(s, '~', "~0"), '/', "~1")
  }

  function Unescape(s: string): string {
    ReplaceTilde(ReplaceTilde(s, '1', '/'), '0', '~')
  }

  /** A pointer: every segment escaped, each after a slash. */
  function PointerTo(segments: seq<string>): string {
    if segments == [] then ""
    else PointerTo(segments[..|segments| - 1]) + "/" + EscapeToken(segments[|segments| - 1])
  }

  method Pointer(segments: seq<string>) returns (b: string)
    ensures b == PointerTo(segments)
  {
    hide EscapeToken;
    b := "";
    for i := 0 to |segments|
      invariant b == PointerTo(segments[..i])
    {
      assert segments[..i + 1][..i] == segments[..i];
      b := b + "/";
      b := b + EscapeToken(segments[i]);
    }
    assert segments[..|segments|] == segments;
  }

  // ----- One token

  /** Half way: only the slashes are written out. */
  lemma {:induction false} EscapedTwice(s: string)
    ensures EscapeToken(s) ==
            if s == "" then ""
            else (if s[0] == '~' then "~0" else if s[0] == '/' then "~1" else [s[0]]) + EscapeToken(s[1..])
  {
    if s != "" && s[0] == '~' {
      var rest := ReplaceChar(s[1..], '~', "~0");
      assert ("~0" + rest)[1..] == "0" + rest;
      assert ("0" + rest)[1..] == rest;
      assert ReplaceChar("0" + rest, '/', "~1") == "0" + ReplaceChar(rest, '/', "~1");
    } else if s != "" {
      var rest := ReplaceChar(s[1..], '~', "~0");
      assert ([s[0]] + rest)[1..] == rest;
    }
  }

  lemma {:induction false} NoSlash(s: string)
    ensures '/' !in EscapeToken(s)
  {
    EscapedTwice(s);
    if s != "" {
      NoSlash(s[1..]);
    }
  }

  /** Undoing the slashes leaves exactly the escaped tildes. */
  lemma {:induction false} SlashesBack(s: string)
    ensures ReplaceTilde(EscapeToken(s), '1', '/') == ReplaceChar(s, '~', "~0")
  {
    EscapedTwice(s);
    if s != "" {
      SlashesBack(s[1..]);
      var rest := EscapeToken(s[1..]);
      hide EscapeToken;
      if s[0] == '~' {
        TildeThen("0" + rest, '1', '/');
        Ordinary('0', rest, '1', '/');
        assert "~0" + rest == "~" + ("0" + rest);
        assert "0" + ReplaceChar(s[1..], '~', "~0") == ['0'] + ReplaceChar(s[1..], '~', "~0");
      } else if s[0] == '/' {
        assert ("~1" + rest)[2..] == rest;
      } else {
        Ordinary(s[0], rest, '1', '/');
      }
    }
  }

  /** A character that is no tilde stands for itself. */
  lemma Ordinary(c: char, rest: string, d: char, sub: char)
    requires c != '~'
    ensures ReplaceTilde([c] + rest, d, sub) == [c] + ReplaceTilde(rest, d, sub)
  {
    assert ([c] + rest)[1..] == rest;
    if rest == "" {
      assert [c] + rest == [c];
    }
  }

  lemma TildeThen(rest: string, d: char, sub: char)
    requires rest != "" && rest[0] != d
    ensures ReplaceTilde("~" + rest, d, sub) == "~" + ReplaceTilde(rest, d, sub)
  {
    assert ("~" + rest)[1..] == rest;
  }

  lemma {:induction false} TildesBack(s: string)
    ensures ReplaceTilde(ReplaceChar(s, '~', "~0"), '0', '~') == s
  {
    if s != "" {
      TildesBack(s[1..]);
      var rest := ReplaceChar(s[1..], '~', "~0");
      if s[0] == '~' {
        assert ("~0" + rest)[2..] == rest;
      } else {
        Ordinary(s[0], rest, '0', '~');
      }
      assert s == [s[0]] + s[1..];
    }
  }

  /** What was escaped reads back as it was. */
  lemma TokenRoundTrip(s: string)
    ensures Unescape(EscapeToken(s)) == s
  {
    SlashesBack(s);
    TildesBack(s);
  }

  // ----- The whole pointer

  function Escaped(segments: seq<string>): seq<string> {
    seq(|segments|, i requires 0 <= i < |segments| => EscapeToken(segments[i]))
  }

  function Unescaped(parts: seq<string>): seq<string> {
    seq(|parts|, i requires 0 <= i < |parts| => Unescape(parts[i]))
  }

  /** The reader: drop the first slash, split, unescape. */
  function Segments(pointer: string): seq<string>
    requires pointer != ""
  {
    Unescaped(Split(pointer[1..], '/'))
  }

  lemma {:induction false} PointerIsJoined(segments: seq<string>)
    requires segments != []
    ensures PointerTo(segments) == "/" + Join(Escaped(segments), '/')
  {
    hide EscapeToken;
    var init, last := segments[..|segments| - 1], segments[|segments| - 1];
    if init == [] {
      assert PointerTo(init) == "";
      assert Escaped(segments) == [EscapeToken(last)];
      JoinOne(EscapeToken(last));
      assert "" + "/" + EscapeToken(last) == "/" + EscapeToken(last);
    } else {
      PointerIsJoined(init);
      assert Escaped(segments) == Escaped(init) + [EscapeToken(last)];
      JoinSnoc(Escaped(init), EscapeToken(last));
      assert "/" + Join(Escaped(init), '/') + "/" + EscapeToken(last) == "/" + (Join(Escaped(init), '/') + "/" +
          EscapeToken(last));
    }
  }

  lemma JoinOne(x: string)
    ensures Join([x], '/') == x
  {
  }

  lemma {:induction false} JoinSnoc(xs: seq<string>, x: string)
    requires xs != []
    ensures Join(xs + [x], '/') == Join(xs, '/') + "/" + x
  {
    if |xs| == 1 {
      assert (xs + [x])[1..] == [x];
    } else {
      JoinSnoc(xs[1..], x);
      assert (xs + [x])[1..] == xs[1..] + [x];
    }
  }

  /** For every non-empty list of segments, whatever they contain: reading the pointer gives the segments. */
  lemma PointerRoundTrip(segments: seq<string>)
    requires segments != []
    ensures Segments(PointerTo(segments)) == segments
  {
    PointerIsJoined(segments);
    var parts := Escaped(segments);
    hide EscapeToken, Unescape, PointerTo;
    forall i | 0 <= i < |parts| ensures '/' !in parts[i] {
      NoSlash(segments[i]);
    }
    SplitJoin(parts, '/');
    assert ("/" + Join(parts, '/'))[1..] == Join(parts, '/');
    forall i | 0 <= i < |parts| ensures Unescape(parts[i]) == segments[i] {
      TokenRoundTrip(segments[i]);
    }
  }

  /** Different segment lists have different pointers. */
  lemma PointerInjective(x: seq<string>, y: seq<string>)
    requires x != [] && y != [] && PointerTo(x) == PointerTo(y)
    ensures x == y
  {
    hide *;
    PointerRoundTrip(x);
    PointerRoundTrip(y);
  }
}
