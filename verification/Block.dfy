/**
 The managed block inside an authorized_keys file (internal/sshsync/block.go). A file is a string
 whose characters stand for its bytes.
 */
module Block {
  import opened Common
  import opened Strings
  import opened Key

  /** The dash is its three UTF-8 bytes. */
  function BeginMarker(): string { "# BEGIN headboard (managed \U{E2}\U{80}\U{94} do not edit)" }

  function EndMarker(): string { "# END headboard" }

  datatype BlockError = BrokenBlock | DuplicateBlock

  // ----- Lines of a file

  /** The length of the first line, without its line break. */
  function LineEnd(s: string): (k: nat)
    ensures k <= |s|
    ensures forall i :: 0 <= i < k ==> s[i] != '\n'
    ensures k < |s| ==> s[k] == '\n'
  {
    if s == "" || s[0] == '\n' then 0 else 1 + LineEnd(s[1..])
  }

  function FirstLine(s: string): string {
    s[..LineEnd(s)]
  }

  /** What follows the first line and its line break. */
  function Rest(s: string): (r: string)
    ensures s != "" ==> |r| < |s|
  {
    if LineEnd(s) < |s| then s[LineEnd(s) + 1..] else ""
  }

  /** Some whole line of s is m. */
  predicate HasLine(s: string, m: string)
    decreases |s|
  {
    s != "" && (FirstLine(s) == m || HasLine(Rest(s), m))
  }

  /** The text before the first line that is m. */
  function Before(s: string, m: string): string
    requires HasLine(s, m)
    decreases |s|
  {
    if FirstLine(s) == m then "" else FirstLine(s) + "\n" + Before(Rest(s), m)
  }

  /** The text after the first line that is m. */
  function After(s: string, m: string): string
    requires HasLine(s, m)
    decreases |s|
  {
    if FirstLine(s) == m then Rest(s) else After(Rest(s), m)
  }

  /** The lines of a text; a final line break starts no further line. */
  function Lines(s: string): seq<string>
    decreases |s|
  {
    if s == "" then [] else [FirstLine(s)] + Lines(Rest(s))
  }

  /** Lines written out, each with its line break. */
  function LinesText(lines: seq<string>): string {
    if lines == [] then "" else lines[0] + "\n" + LinesText(lines[1..])
  }

  /** Nothing, or whole lines. */
  predicate Closed(s: string) {
    s == "" || s[|s| - 1] == '\n'
  }

  // ----- Where the block is

  /** A file read as text before the block, the block's body, and text after it. */
  datatype Parsed = NoBlock | Managed(pre: string, body: string, post: string) | Bad(error: BlockError)

  /**
   The file's one block starts at its only begin line and stops at the first end line after it.
   */
  function Parse(s: string): Parsed {
    if !HasLine(s, BeginMarker()) then NoBlock
    else
      var tail := After(s, BeginMarker());
      if HasLine(tail, BeginMarker()) then Bad(DuplicateBlock)
      else if !HasLine(tail, EndMarker()) then Bad(BrokenBlock)
      else Managed(Before(s, BeginMarker()), Before(tail, EndMarker()), After(tail, EndMarker()))
  }

  function BlockText(lines: seq<string>): string {
    BeginMarker() + "\n" + LinesText(lines) + EndMarker() + "\n"
  }

  /** A file ending in whole lines: one line break is added where the last line has none. */
  function Terminated(s: string): string {
    if s != "" && !HasSuffix(s, "\n") then s + "\n" else s
  }

  /** The file with its block set to `lines`. */
  function Replace(s: string, lines: seq<string>): Result<string, BlockError> {
    match Parse(s)
    case Bad(e) => Err(e)
    case NoBlock => Ok(Terminated(s) + BlockText(lines))
    case Managed(pre, _, post) => Ok(pre + BlockText(lines) + post)
  }

  /** Everything but the block, as it reads once a block is present. */
  function Outside(s: string): string {
    match Parse(s)
    case Managed(pre, _, post) => pre + post
    case _ => Terminated(s)
  }

  /** The lines inside the block. */
  function Managing(s: string): seq<string> {
    match Parse(s)
    case Managed(_, body, _) => Lines(body)
    case _ => []
  }

  // ----- The two functions of the program

  lemma FirstAndRest(s: string)
    requires s != ""
    ensures s == FirstLine(s) + "\n" + Rest(s) || (s == FirstLine(s) && Rest(s) == "")
    ensures LineEnd(s) < |s| ==> s == FirstLine(s) + "\n" + Rest(s)
    ensures |Rest(s)| < |s| && s[|s| - |Rest(s)|..] == Rest(s)
  {
  }

  lemma Peel(s: string, m: string)
    requires s != ""
    ensures HasLine(s, m) <==> FirstLine(s) == m || HasLine(Rest(s), m)
    ensures FirstLine(s) == m ==> Before(s, m) == "" && After(s, m) == Rest(s)
    ensures FirstLine(s) != m && HasLine(s, m) ==>
              && After(s, m) == After(Rest(s), m)
              && |Before(s, m)| == |s| - |Rest(s)| + |Before(Rest(s), m)|
              && Before(s, m) == FirstLine(s) + "\n" + Before(Rest(s), m)
  {
  }

  lemma {:induction false} Sizes(s: string, m: string)
    requires HasLine(s, m)
    ensures |Before(s, m)| + |After(s, m)| < |s|
    ensures s[..|Before(s, m)|] == Before(s, m)
    ensures s[|s| - |After(s, m)|..] == After(s, m)
    decreases |s|
  {
    hide *;
    NotEmpty(s, m);
    FirstAndRest(s);
    Peel(s, m);
    if FirstLine(s) != m {
      var first, rest := FirstLine(s) + "\n", Rest(s);
      NotEmpty(rest, m);
      Sizes(rest, m);
      SuffixOf(s, rest, After(rest, m));
      assert s == first + rest;
      assert s[..|first| + |Before(rest, m)|] == first + rest[..|Before(rest, m)|];
    }
  }

  lemma NotEmpty(s: string, m: string)
    requires HasLine(s, m)
    ensures s != ""
  {
  }

  lemma SuffixOf(s: string, t: string, u: string)
    requires |u| <= |t| <= |s| && s[|s| - |t|..] == t && t[|t| - |u|..] == u
    ensures s[|s| - |u|..] == u
  {
    assert s[|s| - |t|..][|t| - |u|..] == s[|s| - |u|..];
  }

  /** What findBlock has seen once `rest` is all that is left. */
  ghost predicate Scanned(s: string, rest: string, begin: int, end: int, blocks: int) {
    |rest| <= |s| &&
    if blocks == 0 then
      && begin == -1 && end == -1
      && HasLine(s, BeginMarker()) == HasLine(rest, BeginMarker())
      && (HasLine(s, BeginMarker()) ==>
            && |Before(s, BeginMarker())| == |s| - |rest| + |Before(rest, BeginMarker())|
            && After(s, BeginMarker()) == After(rest, BeginMarker()))
    else
      && blocks == 1
      && HasLine(s, BeginMarker()) && begin == |Before(s, BeginMarker())|
      && var tail := After(s, BeginMarker());
         && HasLine(tail, BeginMarker()) == HasLine(rest, BeginMarker())
         && (end < 0 ==>
               && end == -1
               && HasLine(tail, EndMarker()) == HasLine(rest, EndMarker())
               && (HasLine(tail, EndMarker()) ==> After(tail, EndMarker()) == After(rest, EndMarker())))
         && (end >= 0 ==> HasLine(tail, EndMarker()) && end == |s| - |After(tail, EndMarker())|)
  }

  lemma MarkersDiffer()
    ensures BeginMarker() != EndMarker()
  {
    assert BeginMarker()[2] == 'B' && EndMarker()[2] == 'E';
  }

  /** One more line read. */
  lemma ScanLine(s: string, rest: string, begin: int, end: int, blocks: int)
    requires Scanned(s, rest, begin, end, blocks) && rest != ""
    ensures var line := FirstLine(rest);
            if line == BeginMarker() then
              && (blocks == 0 ==> Scanned(s, Rest(rest), |s| - |rest|, end, 1))
              && (blocks > 0 ==> Parse(s) == Bad(DuplicateBlock))
            else if line == EndMarker() && begin >= 0 && end < 0 then Scanned(s, Rest(rest), begin,
                |s| - |Rest(rest)|, blocks)
            else Scanned(s, Rest(rest), begin, end, blocks)
  {
    hide BeginMarker, EndMarker, LineEnd, FirstLine, Rest, HasLine, Before, After;
    MarkersDiffer();
    FirstAndRest(rest);
    Peel(rest, BeginMarker());
    Peel(rest, EndMarker());
  }

  lemma ScanStart(s: string)
    ensures Scanned(s, s, -1, -1, 0)
  {
  }

  lemma ScanRange(s: string, rest: string, begin: int, end: int, blocks: int)
    requires Scanned(s, rest, begin, end, blocks)
    ensures 0 <= blocks <= 1 && (blocks == 0 <==> begin < 0)
  {
  }

  lemma ScanEnd(s: string, begin: int, end: int, blocks: int)
    requires Scanned(s, "", begin, end, blocks)
    ensures begin < 0 ==> Parse(s) == NoBlock && begin == -1 && end == -1
    ensures begin >= 0 && end < 0 ==> Parse(s) == Bad(BrokenBlock)
    ensures begin >= 0 && end >= 0 ==>
              Parse(s).Managed? && begin == |Parse(s).pre| && end == |s| - |Parse(s).post| && begin < end
  {
    if HasLine(s, BeginMarker()) {
      Sizes(s, BeginMarker());
      if HasLine(After(s, BeginMarker()), EndMarker()) {
        Sizes(After(s, BeginMarker()), EndMarker());
      }
    }
  }

  /** The byte range of the block, or -1, -1 when there is none. */
  method FindBlock(s: string) returns (begin: int, end: int, err: Option<BlockError>)
    ensures match Parse(s)
            case Bad(e) => begin == -1 && end == -1 && err == Some(e)
            case NoBlock => begin == -1 && end == -1 && err == None
            case Managed(pre, body, post) => begin == |pre| && end == |s| - |post| && begin < end && err == None
  {
    hide HasLine, Before, After, BeginMarker, EndMarker, Parse, Scanned, LineEnd;
    begin, end, err := -1, -1, None;
    var blocks, off := 0, 0;
    ghost var rest := s;
    ScanStart(s);
    while off < |s|
      invariant 0 <= off
      invariant rest == if off < |s| then s[off..] else ""
      invariant Scanned(s, rest, begin, end, blocks)
      decreases |s| - off
    {
      ScanLine(s, rest, begin, end, blocks);
      ScanRange(s, rest, begin, end, blocks);
      var lineEnd := off + LineEnd(s[off..]);
      var line := s[off..lineEnd];
      assert line == FirstLine(rest);
      if line == BeginMarker() {
        blocks := blocks + 1;
        if blocks > 1 {
          return -1, -1, Some(DuplicateBlock);
        }
        begin := off;
      } else if line == EndMarker() {
        if begin >= 0 && end < 0 {
          end := if lineEnd + 1 < |s| then lineEnd + 1 else |s|;
        }
      }
      off := lineEnd + 1;
      rest := Rest(rest);
    }
    ScanEnd(s, begin, end, blocks);
    if begin >= 0 && end < 0 {
      return -1, -1, Some(BrokenBlock);
    }
  }

  /** The existing file with its managed block set to `lines`. */
  method ReplaceBlock(existing: string, lines: seq<string>) returns (r: Result<string, BlockError>)
    ensures r == Replace(existing, lines)
  {
    var b := BeginMarker() + "\n";
    assert LinesText(lines[..0]) == "";
    ReplaceParts(existing, lines);
    hide *;
    for k := 0 to |lines|
      invariant b == BeginMarker() + "\n" + LinesText(lines[..k])
    {
      LinesTextSnoc(lines[..k], lines[k]);
      assert lines[..k + 1] == lines[..k] + [lines[k]];
      assert BeginMarker() + "\n" + LinesText(lines[..k]) + (lines[k] + "\n") == BeginMarker() + "\n" +
          (LinesText(lines[..k]) + (lines[k] + "\n"));
      b := b + (lines[k] + "\n");
    }
    assert lines[..|lines|] == lines;
    b := b + EndMarker() + "\n";

    var begin, end, err := FindBlock(existing);
    if err.Some? {
      return Err(err.value);
    }
    if begin < 0 {
      var text := existing;
      if text != "" && !HasSuffix(text, "\n") {
        text := text + "\n";
      }
      return Ok(text + b);
    }
    return Ok(existing[..begin] + b + existing[end..]);
  }

  lemma ReplaceParts(s: string, lines: seq<string>)
    ensures BlockText(lines) == BeginMarker() + "\n" + LinesText(lines) + EndMarker() + "\n"
    ensures Terminated(s) == if s != "" && !HasSuffix(s, "\n") then s + "\n" else s
    ensures match Parse(s)
            case Bad(e) => Replace(s, lines) == Err(e)
            case NoBlock => Replace(s, lines) == Ok(Terminated(s) + BlockText(lines))
            case Managed(pre, body, post) =>
              && |pre| + |post| < |s| && s[..|pre|] == pre && s[|s| - |post|..] == post
              && Replace(s, lines) == Ok(pre + BlockText(lines) + post)
  {
    hide HasLine, Before, After, BeginMarker, EndMarker, LinesText, LineEnd;
    if Parse(s).Managed? {
      Sizes(s, BeginMarker());
      var tail := After(s, BeginMarker());
      Sizes(tail, EndMarker());
      var post := After(tail, EndMarker());
      SuffixOf(s, tail, post);
    }
  }

  lemma {:induction false} LinesTextSnoc(lines: seq<string>, line: string)
    ensures LinesText(lines + [line]) == LinesText(lines) + (line + "\n")
  {
    if lines != [] {
      LinesTextSnoc(lines[1..], line);
      assert (lines + [line])[1..] == lines[1..] + [line];
    }
  }

  // ----- What rewriting does to a file

  /** Lines that cannot be mistaken for a marker or for two lines. */
  ghost predicate Plain(lines: seq<string>) {
    forall k :: 0 <= k < |lines| ==> '\n' !in lines[k] && lines[k] != BeginMarker() && lines[k] != EndMarker()
  }

  /** The agent's check on each line is enough for the block to be read back. */
  lemma SafeIsPlain(lines: seq<string>)
    requires SafeLines(lines)
    ensures Plain(lines)
  {
    forall k | 0 <= k < |lines| ensures '\n' !in lines[k] && lines[k] != BeginMarker() && lines[k] != EndMarker() {
      assert SafeLine(lines[k]);
      SafeLineStart(lines[k]);
      assert BeginMarker()[0] == '#' && EndMarker()[0] == '#';
    }
  }

  lemma {:induction false} LineEndOf(line: string, t: string)
    requires '\n' !in line
    ensures LineEnd(line + "\n" + t) == |line|
  {
    var s := line + "\n" + t;
    if line == "" {
      assert s[0] == '\n';
    } else {
      LineEndOf(line[1..], t);
      assert s[1..] == line[1..] + "\n" + t;
    }
  }

  lemma FirstLineOf(line: string, t: string)
    requires '\n' !in line
    ensures FirstLine(line + "\n" + t) == line && Rest(line + "\n" + t) == t
  {
    LineEndOf(line, t);
  }

  lemma ClosedFirst(s: string)
    requires Closed(s) && s != ""
    ensures '\n' !in FirstLine(s) && s == FirstLine(s) + "\n" + Rest(s) && Closed(Rest(s)) && |Rest(s)| < |s|
  {
    FirstAndRest(s);
  }

  /** Whole lines in front add their own lines and nothing else. */
  lemma {:induction false} Prepend(pre: string, t: string, m: string)
    requires Closed(pre)
    ensures HasLine(pre + t, m) <==> HasLine(pre, m) || HasLine(t, m)
    ensures !HasLine(pre, m) && HasLine(t, m) ==>
              Before(pre + t, m) == pre + Before(t, m) && After(pre + t, m) == After(t, m)
    decreases |pre|
  {
    hide *;
    if pre == "" {
      assert pre + t == t;
      NoLine(m);
      assert HasLine(t, m) ==> pre + Before(t, m) == Before(t, m);
    } else {
      ClosedFirst(pre);
      var first, rest := FirstLine(pre), Rest(pre);
      assert pre + t == first + "\n" + (rest + t);
      FirstLineOf(first, rest + t);
      Peel(pre, m);
      Peel(pre + t, m);
      Prepend(rest, t, m);
      if !HasLine(pre, m) && HasLine(t, m) {
        assert pre + Before(t, m) == first + "\n" + (rest + Before(t, m));
      }
    }
  }

  lemma NoLine(m: string)
    ensures !HasLine("", m)
  {
  }

  lemma {:induction false} LinesTextReads(lines: seq<string>, m: string)
    requires forall k :: 0 <= k < |lines| ==> '\n' !in lines[k] && lines[k] != m
    ensures Closed(LinesText(lines)) && !HasLine(LinesText(lines), m)
    ensures Lines(LinesText(lines)) == lines
    decreases |lines|
  {
    if lines != [] {
      FirstLineOf(lines[0], LinesText(lines[1..]));
      LinesTextReads(lines[1..], m);
    }
  }

  lemma {:induction false} BeforeClosed(s: string, m: string)
    requires HasLine(s, m)
    ensures Closed(Before(s, m)) && !HasLine(Before(s, m), m)
    decreases |s|
  {
    if FirstLine(s) != m {
      BeforeClosed(Rest(s), m);
      FirstLineOf(FirstLine(s), Before(Rest(s), m));
    }
  }

  lemma {:induction false} AfterHasNo(s: string, m: string, other: string)
    requires HasLine(s, m) && !HasLine(s, other)
    ensures !HasLine(After(s, m), other)
    decreases |s|
  {
    if FirstLine(s) != m {
      AfterHasNo(Rest(s), m, other);
    }
  }

  /** An unfinished last line is finished; which lines there are stays the same. */
  lemma {:induction false} FinishLines(s: string, m: string)
    requires s != "" && s[|s| - 1] != '\n'
    ensures Closed(s + "\n") && (HasLine(s + "\n", m) <==> HasLine(s, m))
    decreases |s|
  {
    hide LineEnd, FirstLine, Rest, Closed, HasLine;
    FirstAndRest(s);
    LineCases(s);
    if LineEnd(s) < |s| {
      FinishLines(Rest(s), m);
      assert s + "\n" == FirstLine(s) + "\n" + (Rest(s) + "\n");
      FirstLineOf(FirstLine(s), Rest(s) + "\n");
    } else {
      assert s + "\n" == s + "\n" + "";
      FirstLineOf(s, "");
    }
    HasLineCases(s, m);
    HasLineCases(s + "\n", m);
    HasLineCases("", m);
    ClosedAtBreak(s);
  }

  lemma ClosedAtBreak(s: string)
    ensures Closed(s + "\n")
  {
  }

  lemma LineCases(s: string)
    ensures LineEnd(s) < |s| ==> s == FirstLine(s) + "\n" + Rest(s) && |Rest(s)| < |s| && '\n' !in FirstLine(s)
    ensures LineEnd(s) < |s| && s[|s| - 1] != '\n' ==> Rest(s) != "" && Rest(s)[|Rest(s)| - 1] == s[|s| - 1]
    ensures LineEnd(s) == |s| ==> FirstLine(s) == s && Rest(s) == "" && '\n' !in s
  {
  }

  lemma HasLineCases(s: string, m: string)
    ensures HasLine(s, m) <==> s != "" && (FirstLine(s) == m || HasLine(Rest(s), m))
  {
    hide LineEnd, FirstLine, Rest;
  }

  lemma TerminatedLines(s: string, m: string)
    ensures Closed(Terminated(s)) && (HasLine(Terminated(s), m) <==> HasLine(s, m))
  {
    hide LineEnd, HasLine;
    if s != "" && s[|s| - 1] != '\n' {
      FinishLines(s, m);
    }
  }

  /** Any file around a block of plain lines parses back into its three parts. */
  lemma ParseBlock(pre: string, lines: seq<string>, post: string)
    requires Closed(pre) && !HasLine(pre, BeginMarker()) && !HasLine(post, BeginMarker())
    requires Plain(lines)
    ensures Parse(pre + BlockText(lines) + post) == Managed(pre, LinesText(lines), post)
    ensures Lines(LinesText(lines)) == lines
  {
    hide HasLine, Before, After, LinesText, FirstLine, Rest, LineEnd, Lines, Closed;
    var body := LinesText(lines);
    var tail := body + (EndMarker() + "\n" + post);
    var s := pre + BlockText(lines) + post;
    assert s == pre + (BeginMarker() + "\n" + tail);
    NoBreaks();
    MarkersDiffer();
    FirstLineOf(BeginMarker(), tail);
    FirstLineOf(EndMarker(), post);
    LinesTextReads(lines, BeginMarker());
    LinesTextReads(lines, EndMarker());
    hide BeginMarker, EndMarker;
    Peel(BeginMarker() + "\n" + tail, BeginMarker());
    Peel(EndMarker() + "\n" + post, EndMarker());
    Peel(EndMarker() + "\n" + post, BeginMarker());
    Prepend(pre, BeginMarker() + "\n" + tail, BeginMarker());
    Prepend(body, EndMarker() + "\n" + post, BeginMarker());
    Prepend(body, EndMarker() + "\n" + post, EndMarker());
    assert pre + "" == pre && body + "" == body;
  }

  lemma NoBreaks()
    ensures '\n' !in BeginMarker() && '\n' !in EndMarker()
  {
  }

  /** What is outside the block always allows a block. */
  lemma AroundBlock(s: string)
    ensures match Parse(s)
            case Managed(pre, _, post) => Closed(pre) && !HasLine(pre, BeginMarker()) && !HasLine(post, BeginMarker())
            case NoBlock => Closed(Terminated(s)) && !HasLine(Terminated(s), BeginMarker())
            case Bad(_) => true
  {
    hide Before, After, LineEnd, FirstLine, Rest, BeginMarker, EndMarker, Terminated, Closed, HasLine;
    match Parse(s)
    case Managed(pre, _, post) =>
      BeforeClosed(s, BeginMarker());
      AfterHasNo(After(s, BeginMarker()), EndMarker(), BeginMarker());
    case NoBlock =>
      TerminatedLines(s, BeginMarker());
    case Bad(_) =>
  }

  /**
   A successful rewrite: its block reads back as the lines given, and what is outside the block is
   what was there before, with one line break added where a file without a block lacked it.
   */
  lemma Rewritten(s: string, lines: seq<string>)
    requires Plain(lines)
    ensures Replace(s, lines).Ok? <==> !Parse(s).Bad?
    ensures Replace(s, lines).Ok? ==>
              var r := Replace(s, lines).value;
              && Parse(r).Managed? && Managing(r) == lines
              && Outside(r) == Outside(s)
              && Parse(r).pre == (if Parse(s).Managed? then Parse(s).pre else Terminated(s))
              && Parse(r).post == (if Parse(s).Managed? then Parse(s).post else "")
  {
    hide HasLine, Before, After, LinesText, FirstLine, Rest, LineEnd, Lines, Closed, Plain, BeginMarker, EndMarker,
        Parse, BlockText;
    AroundBlock(s);
    NoLine(BeginMarker());
    match Parse(s)
    case Managed(pre, _, post) =>
      ParseBlock(pre, lines, post);
    case NoBlock =>
      ParseBlock(Terminated(s), lines, "");
      assert Terminated(s) + BlockText(lines) + "" == Terminated(s) + BlockText(lines);
      assert Terminated(s) + "" == Terminated(s);
    case Bad(_) =>
  }

  /** Only the last rewrite counts. */
  lemma ReplaceTwice(s: string, x: seq<string>, y: seq<string>)
    requires SafeLines(x) && Replace(s, x).Ok?
    ensures Replace(Replace(s, x).value, y) == Replace(s, y)
  {
    SafeIsPlain(x);
    hide HasLine, Before, After, LinesText, FirstLine, Rest, LineEnd, Lines, Closed, Plain, BeginMarker, EndMarker,
        Parse, BlockText;
    Rewritten(s, x);
    assert Terminated(s) + BlockText(y) + "" == Terminated(s) + BlockText(y);
  }

  /** Rewriting with the lines already there changes nothing, so the agent can skip the write. */
  lemma ReplaceIdempotent(s: string, x: seq<string>)
    requires SafeLines(x) && Replace(s, x).Ok?
    ensures Replace(Replace(s, x).value, x) == Replace(s, x)
  {
    ReplaceTwice(s, x, x);
  }

  /** A block can be written exactly when the file has at most one begin line, with an end line after it. */
  lemma Writable(s: string, x: seq<string>)
    ensures Replace(s, x).Err? <==>
            HasLine(s, BeginMarker()) && (HasLine(After(s, BeginMarker()), BeginMarker())
                || !HasLine(After(s, BeginMarker()), EndMarker()))
  {
    hide LineEnd, FirstLine, Rest, BeginMarker, EndMarker;
  }
}
