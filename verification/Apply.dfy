/** Making targets match what Headboard sent (internal/agent/apply.go). */
module Apply {
  import opened Common
  import opened Strings
  import opened Block
  import opened Key
  import opened Desired

  /** A target as the agent found it running. */
  datatype Discovered = Discovered(ref: string, hostname: string, ips: seq<string>)

  datatype Warning = Warning(ref: string, unixUser: string)

  datatype Outcomes = Outcomes(applied: seq<Pair>, cleared: seq<Pair>, mismatched: seq<string>, warnings: seq<Warning>)

  // ----- What the host may answer

  /** `getent passwd`: a sane record, no such user, or anything else. */
  datatype Probe = Found | NoSuchUser | ProbeFailed

  /** The look for an authorized_keys left behind by a user that is gone. */
  datatype Leftover = Gone | Remains | LookFailed

  /** A write may fail before or after the rename that makes it visible. */
  datatype Write = Written | Refused | WrittenThenFailed

  /** How one pair's commands turn out during one call of Apply. */
  datatype Reply = Reply(probe: Probe, leftover: Leftover, readable: bool, write: Write)

  type Files = map<Pair, string>

  /** An absent file reads as empty. */
  function FileAt(files: Files, p: Pair): string {
    if p in files then files[p] else ""
  }

  function Put(files: Files, p: Pair, text: string): Files {
    if FileAt(files, p) == text then files else files[p := text]
  }

  /** What is run on a target, with a user's name in its arguments. */
  datatype Deed = LookUp | LookForLeftover | ReadFile | ReplaceFile

  datatype Command = Command(pair: Pair, deed: Deed)

  /** Commands run since the log was `was` are about one pair, and its user's name is well formed. */
  ghost predicate OnlyFor(was: seq<Command>, ran: seq<Command>, p: Pair) {
    was <= ran && forall i :: |was| <= i < |ran| ==> ran[i].pair == p && ValidUnixUser(p.unixUser)
  }

  /** The machines an agent reaches: their files, how commands on each pair turn out, and what has been run. */
  class Host {
    var files: Files
    var ran: seq<Command>
    const replies: Pair -> Reply

    constructor (files: Files, replies: Pair -> Reply)
      ensures this.files == files && this.replies == replies && ran == []
    {
      this.files := files;
      this.replies := replies;
      ran := [];
    }

    /** passwd: the name is checked before anything runs with it. */
    method Passwd(p: Pair) returns (r: Probe)
      modifies this`ran
      ensures r == if ValidUnixUser(p.unixUser) then replies(p).probe else ProbeFailed
      ensures r != ProbeFailed ==> ValidUnixUser(p.unixUser)
      ensures ran == old(ran) + if ValidUnixUser(p.unixUser) then [Command(p, LookUp)] else []
      ensures OnlyFor(old(ran), ran, p)
    {
      if !ValidUnixUser(p.unixUser) {
        return ProbeFailed;
      }
      ran := ran + [Command(p, LookUp)];
      return replies(p).probe;
    }

    /** keysRemain, when the look itself works: whether nothing is left behind. */
    method NothingLeft(p: Pair) returns (gone: bool)
      requires ValidUnixUser(p.unixUser)
      modifies this`ran
      ensures gone <==> replies(p).leftover == Gone
      ensures ran == old(ran) + [Command(p, LookForLeftover)]
      ensures OnlyFor(old(ran), ran, p)
    {
      ran := ran + [Command(p, LookForLeftover)];
      gone := replies(p).leftover == Gone;
    }

    method ReadKeys(p: Pair) returns (r: Option<string>)
      requires ValidUnixUser(p.unixUser)
      modifies this`ran
      ensures r == if replies(p).readable then Some(FileAt(files, p)) else None
      ensures ran == old(ran) + [Command(p, ReadFile)]
      ensures OnlyFor(old(ran), ran, p)
    {
      ran := ran + [Command(p, ReadFile)];
      if !replies(p).readable {
        return None;
      }
      return Some(FileAt(files, p));
    }

    method WriteKeys(p: Pair, text: string) returns (ok: bool)
      requires ValidUnixUser(p.unixUser)
      modifies this
      ensures ok <==> replies(p).write == Written
      ensures files == if replies(p).write == Refused then old(files) else old(files)[p := text]
      ensures ran == old(ran) + [Command(p, ReplaceFile)]
      ensures OnlyFor(old(ran), ran, p)
    {
      ran := ran + [Command(p, ReplaceFile)];
      if replies(p).write != Refused {
        files := files[p := text];
      }
      ok := replies(p).write == Written;
    }
  }

  // ----- One pair

  /** A rewrite of one file: its new text, and whether the program saw it succeed. */
  function RewriteFile(text: string, lines: seq<string>, onlyIfManaged: bool, reply: Reply): (string, bool) {
    if !reply.readable then (text, false)
    else if onlyIfManaged && !Contains(text, BeginMarker()) then (text, true)
    else
      match Replace(text, lines)
      case Err(_) => (text, false)
      case Ok(next) =>
        if next == text then (text, true)
        else if reply.write == Refused then (text, false)
        else (next, reply.write == Written)
  }

  /** Writing one user's lines. */
  function WriteFile(text: string, unixUser: string, lines: seq<string>, reply: Reply): (string, bool) {
    if !SafeLines(lines) || !ValidUnixUser(unixUser) || reply.probe != Found then (text, false)
    else RewriteFile(text, lines, false, reply)
  }

  /** Clearing one user's block. A user that is gone counts as cleared only if no file is left behind. */
  function ClearFile(text: string, unixUser: string, reply: Reply): (string, bool) {
    if !ValidUnixUser(unixUser) || reply.probe == ProbeFailed then (text, false)
    else if reply.probe == NoSuchUser then (text, reply.leftover == Gone)
    else RewriteFile(text, [], true, reply)
  }

  /**
   Writing works exactly for safe lines, a user that is found and a file that can be read and whose block can
   be told; it succeeds when the file was right already or the write went through to the end, and the file
   is the new one unless the write was refused.
   */
  lemma WriteMeans(text: string, unixUser: string, lines: seq<string>, reply: Reply)
    ensures var (after, ok) := WriteFile(text, unixUser, lines, reply);
            var next := Replace(text, lines);
            var there := ValidUnixUser(unixUser) && reply.probe == Found && reply.readable;
            var able := SafeLines(lines) && there && next.Ok?;
            && (ok <==> able && (next.value == text || reply.write == Written))
            && after == if able && reply.write != Refused then next.value else text
  {
    hide Replace, BeginMarker, SafeLines, ValidUnixUser;
  }

  /**
   Clearing touches the file only where the user is found, the file can be read and there is a block to be
   told. Beside that it succeeds for a user that is gone with nothing left behind, or a file without a block;
   a look-up that fails clears nothing.
   */
  lemma ClearMeans(text: string, unixUser: string, reply: Reply)
    ensures var (after, ok) := ClearFile(text, unixUser, reply);
            var next := Replace(text, []);
            var there := ValidUnixUser(unixUser) && reply.probe == Found && reply.readable;
            var block := Contains(text, BeginMarker());
            && (ok <==>
                  || (ValidUnixUser(unixUser) && reply.probe == NoSuchUser && reply.leftover == Gone)
                  || (there && (!block || (next.Ok? && (next.value == text || reply.write == Written)))))
            && after == if there && block && next.Ok? && reply.write != Refused then next.value else text
  {
    hide Replace, BeginMarker, ValidUnixUser, Contains;
  }

  method Rewrite(h: Host, p: Pair, lines: seq<string>, onlyIfManaged: bool) returns (ok: bool)
    requires ValidUnixUser(p.unixUser)
    modifies h
    ensures OnlyFor(old(h.ran), h.ran, p)
    ensures var (text, done) := RewriteFile(FileAt(old(h.files), p), lines, onlyIfManaged, h.replies(p));
            h.files == Put(old(h.files), p, text) && ok == done
  {
    hide BeginMarker, Replace, ValidUnixUser;
    var existing := h.ReadKeys(p);
    if existing.None? {
      return false;
    }
    if onlyIfManaged && !Contains(existing.value, BeginMarker()) {
      return true;
    }
    var next := ReplaceBlock(existing.value, lines);
    if next.Err? {
      return false;
    }
    if next.value == existing.value {
      return true;
    }
    ok := h.WriteKeys(p, next.value);
  }

  method UnsafeLine(lines: seq<string>) returns (unsafe: bool)
    ensures unsafe <==> !SafeLines(lines)
  {
    for k := 0 to |lines|
      invariant forall i :: 0 <= i < k ==> SafeLine(lines[i])
    {
      if !SafeLine(lines[k]) {
        return true;
      }
    }
    return false;
  }

  method WriteUser(h: Host, p: Pair, lines: seq<string>) returns (ok: bool)
    modifies h
    ensures var (text, done) := WriteFile(FileAt(old(h.files), p), p.unixUser, lines, h.replies(p));
            h.files == Put(old(h.files), p, text) && ok == done
    ensures OnlyFor(old(h.ran), h.ran, p)
  {
    hide ValidUnixUser, RewriteFile;
    var unsafe := UnsafeLine(lines);
    if unsafe {
      return false;
    }
    var pw := h.Passwd(p);
    if pw != Found {
      return false;
    }
    ok := Rewrite(h, p, lines, false);
  }

  method ClearUser(h: Host, p: Pair) returns (ok: bool)
    modifies h
    ensures var (text, done) := ClearFile(FileAt(old(h.files), p), p.unixUser, h.replies(p));
            h.files == Put(old(h.files), p, text) && ok == done
    ensures OnlyFor(old(h.ran), h.ran, p)
  {
    hide ValidUnixUser, RewriteFile;
    var pw := h.Passwd(p);
    match pw {
      case NoSuchUser => ok := h.NothingLeft(p);
      case Found => ok := Rewrite(h, p, [], true);
      case ProbeFailed => ok := false;
    }
  }

  // ----- Whether a target is touched at all

  datatype Gate = Proceed | Skip | Mismatch

  /** What the agent knows of each running target; a repeated ref keeps the last. */
  function Running(discovered: seq<Discovered>): map<string, Discovered> {
    if discovered == [] then map[]
    else
      var last := discovered[|discovered| - 1];
      Running(discovered[..|discovered| - 1])[last.ref := last]
  }

  /** A target that cannot be read is skipped; one that is not the approved machine is a mismatch. */
  function GateOf(ref: string, expectIp: string, expectLabel: string, running: map<string, Discovered>): Gate {
    if ref !in running then Skip
    else
      var d := running[ref];
      if expectIp != "" && d.ips == [] then Skip
      else if expectLabel != "" && d.hostname == "" then Skip
      else if expectLabel != "" && d.hostname != expectLabel then Mismatch
      else if expectIp != "" && expectIp !in d.ips then Mismatch
      else Proceed
  }

  /** What was found last under a ref; later finds replace earlier ones. */
  ghost predicate FoundLast(discovered: seq<Discovered>, ref: string, d: Discovered) {
    exists i :: 0 <= i < |discovered| && discovered[i] == d && d.ref == ref
                && forall j :: i < j < |discovered| ==> discovered[j].ref != ref
  }

  lemma {:induction false} RunningFinds(discovered: seq<Discovered>, ref: string)
    ensures ref in Running(discovered) <==> exists i :: 0 <= i < |discovered| && discovered[i].ref == ref
    ensures ref in Running(discovered) ==> FoundLast(discovered, ref, Running(discovered)[ref])
  {
    if discovered != [] {
      var n := |discovered| - 1;
      RunningFinds(discovered[..n], ref);
      if discovered[n].ref == ref {
        assert FoundLast(discovered, ref, discovered[n]);
      } else if ref in Running(discovered) {
        var i :| 0 <= i < n && discovered[i] == Running(discovered)[ref] && discovered[i].ref == ref
                 && forall j :: i < j < n ==> discovered[j].ref != ref;
        assert FoundLast(discovered, ref, discovered[i]);
      }
    }
  }

  /** Everything that is to be compared could be read. */
  predicate Readable(d: Discovered, expectIp: string, expectLabel: string) {
    (expectIp != "" ==> d.ips != []) && (expectLabel != "" ==> d.hostname != "")
  }

  /** It has the approved address and the approved host name, as far as they were recorded. */
  predicate AsApproved(d: Discovered, expectIp: string, expectLabel: string) {
    (expectIp != "" ==> expectIp in d.ips) && (expectLabel != "" ==> d.hostname == expectLabel)
  }

  /** Skipped: not running, or unreadable. Mismatch: read, and another machine. Otherwise it is worked on. */
  lemma GateMeans(ref: string, expectIp: string, expectLabel: string, running: map<string, Discovered>)
    ensures var gate := GateOf(ref, expectIp, expectLabel, running);
            && (gate == Skip <==> ref !in running || !Readable(running[ref], expectIp, expectLabel))
            && (gate == Proceed <==>
                  ref in running && Readable(running[ref], expectIp, expectLabel)
                  && AsApproved(running[ref], expectIp, expectLabel))
  {
  }

  // ----- The work of one call, in order

  datatype Item =
    | Skipped(ref: string) | Mismatched(ref: string)
    | WriteItem(pair: Pair, lines: seq<string>) | ClearItem(pair: Pair)

  ghost predicate SortedNames(names: seq<string>, of_: set<string>) {
    Ascending(names) && multiset(names) == multiset(of_)
  }

  lemma {:induction false} SortedNamesExist(of_: set<string>) returns (names: seq<string>)
    ensures SortedNames(names, of_)
    decreases |of_|
  {
    if of_ == {} {
      names := [];
    } else {
      var x :| x in of_;
      var rest := SortedNamesExist(of_ - {x});
      names := InsertSorted(rest, x);
      assert multiset(of_) == multiset(of_ - {x}) + multiset{x};
    }
  }

  lemma InsertSorted(names: seq<string>, x: string) returns (more: seq<string>)
    requires Ascending(names)
    ensures Ascending(more) && multiset(more) == multiset(names) + multiset{x}
  {
    hide Ascending, Compare;
    var j := 0;
    while j < |names| && Compare(names[j], x) <= 0
      invariant j <= |names|
      invariant forall k :: 0 <= k < j ==> Compare(names[k], x) <= 0
    {
      j := j + 1;
    }
    if j < |names| {
      CompareFlip(names[j], x);
    }
    InsertName(names, j, x);
    more := names[..j] + [x] + names[j..];
  }

  /** The user names of a target in the order they are written. */
  ghost function UserOrder(users: set<string>): (names: seq<string>)
    ensures SortedNames(names, users)
  {
    assert exists names :: SortedNames(names, users) by {
      var names := SortedNamesExist(users);
    }
    var names :| SortedNames(names, users);
    names
  }

  ghost function WriteItems(ref: string, users: map<string, seq<string>>, names: seq<string>): seq<Item>
    requires forall u :: u in names ==> u in users
  {
    seq(|names|, k requires 0 <= k < |names| => WriteItem(Pair(ref, names[k]), users[names[k]]))
  }

  ghost function ClearItems(ref: string, names: seq<string>): seq<Item> {
    seq(|names|, k requires 0 <= k < |names| => ClearItem(Pair(ref, names[k])))
  }

  lemma InOrder(users: set<string>)
    ensures forall u :: u in UserOrder(users) <==> u in users
  {
    assert forall u :: u in UserOrder(users) <==> u in multiset(UserOrder(users));
  }

  /** One target's share of the work. */
  ghost function TargetWork(t: Target, running: map<string, Discovered>): seq<Item> {
    match GateOf(t.ref, t.expectIp, t.expectLabel, running)
    case Skip => [Skipped(t.ref)]
    case Mismatch => [Mismatched(t.ref)]
    case Proceed =>
      InOrder(t.users.Keys); WriteItems(t.ref, t.users, UserOrder(t.users.Keys)) + ClearItems(t.ref, t.clear)
  }

  ghost function Work(targets: seq<Target>, running: map<string, Discovered>): seq<Item> {
    if targets == [] then []
    else Work(targets[..|targets| - 1], running) + TargetWork(targets[|targets| - 1], running)
  }

  datatype Progress = Progress(files: Files, report: Outcomes)

  /** One item: the file it changes, and the line it adds to the report. */
  ghost function Step(s: Progress, item: Item, replies: Pair -> Reply): Progress {
    match item
    case Skipped(ref) => s.(report := s.report.(warnings := s.report.warnings + [Warning(ref, "")]))
    case Mismatched(ref) =>
      s.(report := s.report.(mismatched := s.report.mismatched + [ref], warnings := s.report.warnings +
          [Warning(ref, "")]))
    case WriteItem(p, lines) =>
      var (text, ok) := WriteFile(FileAt(s.files, p), p.unixUser, lines, replies(p));
      Progress(Put(s.files, p, text),
               if ok then s.report.(applied := s.report.applied + [p])
               else s.report.(warnings := s.report.warnings + [Warning(p.ref, p.unixUser)]))
    case ClearItem(p) =>
      var (text, ok) := ClearFile(FileAt(s.files, p), p.unixUser, replies(p));
      Progress(Put(s.files, p, text),
               if ok then s.report.(cleared := s.report.cleared + [p])
               else s.report.(warnings := s.report.warnings + [Warning(p.ref, p.unixUser)]))
  }

  const NOTHING := Outcomes([], [], [], [])

  ghost function Run(files: Files, work: seq<Item>, replies: Pair -> Reply): Progress {
    if work == [] then Progress(files, NOTHING)
    else Step(Run(files, work[..|work| - 1], replies), work[|work| - 1], replies)
  }

  lemma RunSnoc(files: Files, work: seq<Item>, item: Item, replies: Pair -> Reply)
    ensures Run(files, work + [item], replies) == Step(Run(files, work, replies), item, replies)
  {
    assert (work + [item])[..|work|] == work;
  }

  // ----- What is run

  /** Commands run since the log was `was` are about users these targets name, on targets whose gate is open. */
  ghost predicate CalledFor(was: seq<Command>, ran: seq<Command>, targets: seq<Target>,
      running: map<string, Discovered>) {
    was <= ran && forall i :: |was| <= i < |ran| ==> IsCalled(ran[i], targets, running)
  }

  ghost predicate IsCalled(c: Command, targets: seq<Target>, running: map<string, Discovered>) {
    exists t :: t in targets && Calls(t, c.pair, running)
  }

  ghost predicate Calls(t: Target, p: Pair, running: map<string, Discovered>) {
    && p.ref == t.ref && (p.unixUser in t.users || p.unixUser in t.clear) && ValidUnixUser(p.unixUser)
    && GateOf(t.ref, t.expectIp, t.expectLabel, running) == Proceed
  }

  /** The same for one target and a part of its users. */
  ghost predicate RanFor(was: seq<Command>, ran: seq<Command>, ref: string, users: seq<string>) {
    was <= ran && forall i :: |was| <= i < |ran| ==>
      ran[i].pair.ref == ref && ran[i].pair.unixUser in users && ValidUnixUser(ran[i].pair.unixUser)
  }

  lemma RanNothing(ran: seq<Command>, ref: string, users: seq<string>)
    ensures RanFor(ran, ran, ref, users)
  {
  }

  lemma CalledNothing(ran: seq<Command>, running: map<string, Discovered>)
    ensures CalledFor(ran, ran, [], running)
  {
  }

  lemma SameNames(names: seq<string>, users: set<string>)
    requires multiset(names) == multiset(users)
    ensures forall u :: u in names ==> u in users
  {
    forall u | u in names ensures u in users {
      assert u in multiset(names);
    }
  }

  lemma RanOne(was: seq<Command>, mid: seq<Command>, ran: seq<Command>, ref: string, users: seq<string>, p: Pair)
    requires RanFor(was, mid, ref, users) && OnlyFor(mid, ran, p) && p.ref == ref && p.unixUser in users
    ensures RanFor(was, ran, ref, users)
  {
    hide ValidUnixUser;
    forall i | |was| <= i < |ran|
      ensures ran[i].pair.ref == ref && ran[i].pair.unixUser in users && ValidUnixUser(ran[i].pair.unixUser)
    {
      if i < |mid| {
        assert ran[i] == mid[i];
      }
    }
  }

  lemma RanTarget(was: seq<Command>, mid: seq<Command>, ran: seq<Command>, t: Target, users: seq<string>,
      running: map<string, Discovered>)
    requires RanFor(was, mid, t.ref, users) && RanFor(mid, ran, t.ref, t.clear)
    requires GateOf(t.ref, t.expectIp, t.expectLabel, running) == Proceed && forall u :: u in users ==> u in t.users
    ensures CalledFor(was, ran, [t], running)
  {
    hide ValidUnixUser, GateOf;
    forall i | |was| <= i < |ran| ensures Calls(t, ran[i].pair, running) {
      if i < |mid| {
        assert ran[i] == mid[i];
      }
    }
    assert t in [t];
  }

  lemma CalledSnoc(was: seq<Command>, mid: seq<Command>, ran: seq<Command>, targets: seq<Target>, t: Target,
      running: map<string, Discovered>)
    requires CalledFor(was, mid, targets, running) && CalledFor(mid, ran, [t], running)
    ensures CalledFor(was, ran, targets + [t], running)
  {
    hide Calls;
    forall i | |was| <= i < |ran| ensures IsCalled(ran[i], targets + [t], running) {
      if i < |mid| {
        assert ran[i] == mid[i] && IsCalled(mid[i], targets, running);
        var x :| x in targets && Calls(x, mid[i].pair, running);
        assert x in targets + [t];
      } else {
        assert IsCalled(ran[i], [t], running);
        var x :| x in [t] && Calls(x, ran[i].pair, running);
        assert x in targets + [t];
      }
    }
  }

  // ----- Apply

  method IndexRunning(discovered: seq<Discovered>) returns (running: map<string, Discovered>)
    ensures running == Running(discovered)
  {
    running := map[];
    for i := 0 to |discovered|
      invariant running == Running(discovered[..i])
    {
      assert discovered[..i + 1][..i] == discovered[..i];
      running := running[discovered[i].ref := discovered[i]];
    }
    assert discovered[..|discovered|] == discovered;
  }

  /** The keys of a map as a list, in whatever order the map gives them. */
  method KeyList(users: set<string>) returns (names: seq<string>)
    ensures multiset(names) == multiset(users)
  {
    names := [];
    var left := users;
    while left != {}
      invariant left <= users && multiset(names) == multiset(users - left)
      decreases left
    {
      var u :| u in left;
      assert users - (left - {u}) == (users - left) + {u};
      names := names + [u];
      left := left - {u};
    }
    assert users - left == users;
  }

  /** The first inner loop: the target's users, in name order. */
  method ApplyUsers(h: Host, t: Target, users: seq<string>, r: Outcomes, ghost before: Files, ghost done: seq<Item>)
      returns (report: Outcomes)
    requires forall u :: u in users ==> u in t.users
    requires Progress(h.files, r) == Run(before, done, h.replies)
    modifies h
    ensures Progress(h.files, report) == Run(before, done + WriteItems(t.ref, t.users, users), h.replies)
    ensures RanFor(old(h.ran), h.ran, t.ref, users)
  {
    hide Run, FileAt, Put, WriteFile, ClearFile, OnlyFor, RanFor;
    RanNothing(h.ran, t.ref, users);
    report := r;
    ghost var writes := WriteItems(t.ref, t.users, users);
    assert done + writes[..0] == done;
    for k := 0 to |users|
      invariant Progress(h.files, report) == Run(before, done + writes[..k], h.replies)
      invariant RanFor(old(h.ran), h.ran, t.ref, users)
    {
      var p := Pair(t.ref, users[k]);
      ghost var mid := h.ran;
      RunSnoc(before, done + writes[..k], WriteItem(p, t.users[users[k]]), h.replies);
      assert done + writes[..k + 1] == done + writes[..k] + [WriteItem(p, t.users[users[k]])];
      var ok := WriteUser(h, p, t.users[users[k]]);
      RanOne(old(h.ran), mid, h.ran, t.ref, users, p);
      if !ok {
        report := report.(warnings := report.warnings + [Warning(t.ref, users[k])]);
        continue;
      }
      report := report.(applied := report.applied + [p]);
    }
    assert writes[..|users|] == writes;
  }

  /** The second inner loop: the target's clears. */
  method ApplyClears(h: Host, t: Target, r: Outcomes, ghost before: Files, ghost done: seq<Item>)
      returns (report: Outcomes)
    requires Progress(h.files, r) == Run(before, done, h.replies)
    modifies h
    ensures Progress(h.files, report) == Run(before, done + ClearItems(t.ref, t.clear), h.replies)
    ensures RanFor(old(h.ran), h.ran, t.ref, t.clear)
  {
    hide Run, FileAt, Put, WriteFile, ClearFile, OnlyFor, RanFor;
    RanNothing(h.ran, t.ref, t.clear);
    report := r;
    ghost var clears := ClearItems(t.ref, t.clear);
    assert done + clears[..0] == done;
    for k := 0 to |t.clear|
      invariant Progress(h.files, report) == Run(before, done + clears[..k], h.replies)
      invariant RanFor(old(h.ran), h.ran, t.ref, t.clear)
    {
      var p := Pair(t.ref, t.clear[k]);
      ghost var mid := h.ran;
      RunSnoc(before, done + clears[..k], ClearItem(p), h.replies);
      assert done + clears[..k + 1] == done + clears[..k] + [ClearItem(p)];
      var ok := ClearUser(h, p);
      RanOne(old(h.ran), mid, h.ran, t.ref, t.clear, p);
      if !ok {
        report := report.(warnings := report.warnings + [Warning(t.ref, t.clear[k])]);
        continue;
      }
      report := report.(cleared := report.cleared + [p]);
    }
    assert clears[..|t.clear|] == clears;
  }

  /** One target: skipped, reported as a mismatch, or worked through user by user. */
  method ApplyTarget(h: Host, t: Target, running: map<string, Discovered>, r: Outcomes, ghost before: Files,
      ghost done: seq<Item>)
    returns (report: Outcomes)
    requires Progress(h.files, r) == Run(before, done, h.replies)
    modifies h
    ensures Progress(h.files, report) == Run(before, done + TargetWork(t, running), h.replies)
    ensures CalledFor(old(h.ran), h.ran, [t], running)
  {
    hide Run, FileAt, Put, WriteFile, ClearFile, WriteItems, ClearItems, GateOf, RanFor, Calls;
    report := r;
    var gate := GateOf(t.ref, t.expectIp, t.expectLabel, running);
    if gate == Skip {
      RunSnoc(before, done, Skipped(t.ref), h.replies);
      return report.(warnings := report.warnings + [Warning(t.ref, "")]);
    }
    if gate == Mismatch {
      RunSnoc(before, done, Mismatched(t.ref), h.replies);
      return report.(mismatched := report.mismatched + [t.ref], warnings := report.warnings + [Warning(t.ref, "")]);
    }
    var users := KeyList(t.users.Keys);
    users := SortStrings(users);
    AscendingUnique(users, UserOrder(t.users.Keys));
    InOrder(t.users.Keys);
    SameNames(users, t.users.Keys);
    report := ApplyUsers(h, t, users, report, before, done);
    ghost var mid := h.ran;
    ghost var writes := WriteItems(t.ref, t.users, users);
    report := ApplyClears(h, t, report, before, done + writes);
    RanTarget(old(h.ran), mid, h.ran, t, users, running);
    assert done + writes + ClearItems(t.ref, t.clear) == done + (writes + ClearItems(t.ref, t.clear));
  }

  lemma WorkSnoc(targets: seq<Target>, t: Target, running: map<string, Discovered>)
    ensures Work(targets + [t], running) == Work(targets, running) + TargetWork(t, running)
  {
    hide TargetWork;
    assert (targets + [t])[..|targets|] == targets;
  }

  lemma NoTargets(files: Files, running: map<string, Discovered>, replies: Pair -> Reply)
    ensures Run(files, Work([], running), replies) == Progress(files, NOTHING)
  {
  }

  method Apply(h: Host, discovered: seq<Discovered>, targets: seq<Target>) returns (r: Outcomes)
    modifies h
    ensures Progress(h.files, r) == Run(old(h.files), Work(targets, Running(discovered)), h.replies)
    ensures CalledFor(old(h.ran), h.ran, targets, Running(discovered))
  {
    hide CalledFor, Run, Work, Running;
    r := NOTHING;
    var running := IndexRunning(discovered);
    CalledNothing(h.ran, running);
    NoTargets(h.files, running, h.replies);
    assert targets[..0] == [];
    for i := 0 to |targets|
      invariant Progress(h.files, r) == Run(old(h.files), Work(targets[..i], running), h.replies)
      invariant CalledFor(old(h.ran), h.ran, targets[..i], running)
    {
      ghost var mid := h.ran;
      WorkSnoc(targets[..i], targets[i], running);
      assert targets[..i + 1] == targets[..i] + [targets[i]];
      r := ApplyTarget(h, targets[i], running, r, old(h.files), Work(targets[..i], running));
      CalledSnoc(old(h.ran), mid, h.ran, targets[..i], targets[i], running);
    }
    assert targets[..|targets|] == targets;
  }

  // ----- What the work does, pair by pair

  ghost predicate About(item: Item, p: Pair) {
    (item.WriteItem? || item.ClearItem?) && item.pair == p
  }

  /** No pair is worked on twice. */
  ghost predicate Distinct(work: seq<Item>) {
    forall i, j, p :: 0 <= i < j < |work| && About(work[i], p) ==> !About(work[j], p)
  }

  /** What one item makes of a file. */
  ghost function Effect(item: Item, text: string, reply: Reply): (string, bool)
    requires item.WriteItem? || item.ClearItem?
  {
    if item.WriteItem? then WriteFile(text, item.pair.unixUser, item.lines, reply)
        else ClearFile(text, item.pair.unixUser, reply)
  }

  lemma RunStep(files: Files, work: seq<Item>, replies: Pair -> Reply)
    requires work != []
    ensures Run(files, work, replies) == Step(Run(files, work[..|work| - 1], replies), work[|work| - 1], replies)
  {
    hide Step;
  }

  /** An item about another pair changes neither the file nor the place in the report. */
  lemma StepElsewhere(s: Progress, item: Item, replies: Pair -> Reply, p: Pair)
    requires !About(item, p)
    ensures var t := Step(s, item, replies);
            FileAt(t.files, p) == FileAt(s.files, p) && (p in t.report.applied <==> p in s.report.applied)
                && (p in t.report.cleared <==> p in s.report.cleared)
  {
    hide WriteFile, ClearFile;
  }

  lemma StepAbout(s: Progress, item: Item, replies: Pair -> Reply)
    requires item.WriteItem? || item.ClearItem?
    requires item.pair !in s.report.applied && item.pair !in s.report.cleared
    ensures var p, t := item.pair, Step(s, item, replies);
            var (text, ok) := Effect(item, FileAt(s.files, p), replies(p));
            && FileAt(t.files, p) == text
            && (p in t.report.applied <==> item.WriteItem? && ok)
            && (p in t.report.cleared <==> item.ClearItem? && ok)
  {
    hide WriteFile, ClearFile;
  }

  lemma StepWarns(s: Progress, item: Item, replies: Pair -> Reply)
    ensures Step(s, item, replies).report.warnings == [] <==>
            s.report.warnings == [] && (item.WriteItem? || item.ClearItem?)
                && Effect(item, FileAt(s.files, item.pair), replies(item.pair)).1
  {
    hide WriteFile, ClearFile, FileAt, Put;
  }

  lemma {:induction false} Untouched(files: Files, work: seq<Item>, replies: Pair -> Reply, p: Pair)
    requires forall i :: 0 <= i < |work| ==> !About(work[i], p)
    ensures var end := Run(files, work, replies);
            FileAt(end.files, p) == FileAt(files, p) && p !in end.report.applied && p !in end.report.cleared
  {
    hide Step, FileAt, About;
    if work != [] {
      var init, last := work[..|work| - 1], work[|work| - 1];
      Untouched(files, init, replies, p);
      RunStep(files, work, replies);
      assert !About(work[|work| - 1], p);
      StepElsewhere(Run(files, init, replies), last, replies, p);
    }
  }

  /** The one item about a pair decides its file and what is reported of it. */
  lemma {:induction false} TouchedOnce(files: Files, work: seq<Item>, replies: Pair -> Reply, i: nat)
    requires Distinct(work) && i < |work| && (work[i].WriteItem? || work[i].ClearItem?)
    ensures var p, end := work[i].pair, Run(files, work, replies);
            var (text, ok) := Effect(work[i], FileAt(files, p), replies(p));
            && FileAt(end.files, p) == text
            && (p in end.report.applied <==> work[i].WriteItem? && ok)
            && (p in end.report.cleared <==> work[i].ClearItem? && ok)
    decreases |work|
  {
    hide Run, Step, FileAt, Effect;
    var p, last := work[i].pair, |work| - 1;
    assert About(work[i], p);
    RunStep(files, work, replies);
    if i < last {
      assert !About(work[last], p);
      TouchedOnce(files, work[..last], replies, i);
      StepElsewhere(Run(files, work[..last], replies), work[last], replies, p);
    } else {
      Untouched(files, work[..last], replies, p);
      StepAbout(Run(files, work[..last], replies), work[last], replies);
    }
  }

  /** There is no warning exactly when every item is a pair and every pair succeeds. */
  lemma {:induction false} NoWarnings(files: Files, work: seq<Item>, replies: Pair -> Reply)
    requires Distinct(work)
    ensures Run(files, work, replies).report.warnings == [] <==>
            forall i :: 0 <= i < |work| ==>
              (work[i].WriteItem? || work[i].ClearItem?) && Effect(work[i], FileAt(files, work[i].pair),
                  replies(work[i].pair)).1
    decreases |work|
  {
    hide Step, FileAt, Effect;
    if work != [] {
      var last := |work| - 1;
      NoWarnings(files, work[..last], replies);
      RunStep(files, work, replies);
      StepWarns(Run(files, work[..last], replies), work[last], replies);
      if work[last].WriteItem? || work[last].ClearItem? {
        assert About(work[last], work[last].pair);
        Untouched(files, work[..last], replies, work[last].pair);
      }
    }
  }

  /** Mismatches are reported exactly for the targets that are one. */
  lemma {:induction false} MismatchesReported(files: Files, work: seq<Item>, replies: Pair -> Reply, ref: string)
    ensures ref in Run(files, work, replies).report.mismatched <==> Mismatched(ref) in work
  {
    hide WriteFile, ClearFile;
    if work != [] {
      var init, last := work[..|work| - 1], work[|work| - 1];
      MismatchesReported(files, init, replies, ref);
      assert work == init + [last];
    }
  }

  // ----- What the goals call for

  /** Goals as the server sends them: nothing is both written and cleared, nothing cleared twice. */
  ghost predicate Sound(goals: map<string, Goal>) {
    forall ref, u :: ref in goals && u in goals[ref].clear ==> goals[ref].clear[u] == 1 && u !in goals[ref].users
  }

  ghost function GoalGate(goals: map<string, Goal>, running: map<string, Discovered>, ref: string): Gate
    requires ref in goals
  {
    GateOf(ref, goals[ref].expectIp, goals[ref].expectLabel, running)
  }

  /** The items the goals call for. */
  ghost predicate Due(goals: map<string, Goal>, running: map<string, Discovered>, item: Item) {
    match item
    case Skipped(ref) => ref in goals && GoalGate(goals, running, ref) == Skip
    case Mismatched(ref) => ref in goals && GoalGate(goals, running, ref) == Mismatch
    case WriteItem(p, lines) =>
      p.ref in goals && GoalGate(goals, running, p.ref) == Proceed && p.unixUser in goals[p.ref].users
          && lines == goals[p.ref].users[p.unixUser]
    case ClearItem(p) =>
      p.ref in goals && GoalGate(goals, running, p.ref) == Proceed && p.unixUser in goals[p.ref].clear
  }

  ghost function RefOf(item: Item): string {
    match item
    case Skipped(ref) => ref
    case Mismatched(ref) => ref
    case WriteItem(p, _) => p.ref
    case ClearItem(p) => p.ref
  }

  lemma TargetDue(t: Target, goals: map<string, Goal>, running: map<string, Discovered>, item: Item)
    requires t.ref in goals && goals[t.ref] == GoalOf(t)
    ensures item in TargetWork(t, running) <==> RefOf(item) == t.ref && Due(goals, running, item)
  {
    hide Ascending;
    InOrder(t.users.Keys);
    if GoalGate(goals, running, t.ref) == Proceed {
      var names := UserOrder(t.users.Keys);
      var writes, clears := WriteItems(t.ref, t.users, names), ClearItems(t.ref, t.clear);
      assert TargetWork(t, running) == writes + clears;
      if RefOf(item) == t.ref && Due(goals, running, item) {
        match item {
          case WriteItem(p, lines) =>
            var k :| 0 <= k < |names| && names[k] == p.unixUser;
            assert writes[k] == item;
          case ClearItem(p) =>
            var k :| 0 <= k < |t.clear| && t.clear[k] == p.unixUser;
            assert clears[k] == item;
        }
      }
    }
  }

  /** The work is exactly what the goals call for, in some order. */
  lemma {:induction false} WorkIsDue(targets: seq<Target>, goals: map<string, Goal>,
      running: map<string, Discovered>, item: Item)
    requires forall t :: t in targets ==> t.ref in goals && goals[t.ref] == GoalOf(t)
    ensures item in Work(targets, running) <==>
              Due(goals, running, item) && exists t :: t in targets && t.ref == RefOf(item)
  {
    hide Due, TargetWork, RefOf;
    if targets != [] {
      var init, last := targets[..|targets| - 1], targets[|targets| - 1];
      WorkIsDue(init, goals, running, item);
      TargetDue(last, goals, running, item);
      assert targets == init + [last];
    }
  }

  lemma NoRepeats(names: seq<string>, i: nat, j: nat)
    requires i < j < |names| && multiset(names)[names[i]] <= 1
    ensures names[i] != names[j]
  {
    assert names == names[..j] + [names[j]] + names[j + 1..];
    assert names[i] in names[..j];
  }

  lemma DistinctConcat(x: seq<Item>, y: seq<Item>)
    requires Distinct(x) && Distinct(y)
    requires forall a, b, p :: a in x && b in y && About(a, p) ==> !About(b, p)
    ensures Distinct(x + y)
  {
  }

  lemma TargetDistinct(t: Target, goals: map<string, Goal>, running: map<string, Discovered>)
    requires t.ref in goals && goals[t.ref] == GoalOf(t) && Sound(goals)
    ensures Distinct(TargetWork(t, running))
  {
    hide Ascending, GateOf;
    if GoalGate(goals, running, t.ref) == Proceed {
      InOrder(t.users.Keys);
      var names := UserOrder(t.users.Keys);
      var writes, clears := WriteItems(t.ref, t.users, names), ClearItems(t.ref, t.clear);
      forall i, j, p | 0 <= i < j < |writes| && About(writes[i], p) ensures !About(writes[j], p) {
        NoRepeats(names, i, j);
      }
      forall i, j, p | 0 <= i < j < |clears| && About(clears[i], p) ensures !About(clears[j], p) {
        assert t.clear[i] in goals[t.ref].clear;
        NoRepeats(t.clear, i, j);
      }
      forall a, b, p | a in writes && b in clears && About(a, p) ensures !About(b, p) {
        assert a.pair.unixUser in t.users && b.pair.unixUser in goals[t.ref].clear;
      }
      DistinctConcat(writes, clears);
    }
  }

  lemma {:induction false} WorkDistinct(targets: seq<Target>, goals: map<string, Goal>,
      running: map<string, Discovered>)
    requires forall t :: t in targets ==> t.ref in goals && goals[t.ref] == GoalOf(t)
    requires ByRef(targets) && Sound(goals)
    ensures Distinct(Work(targets, running))
  {
    hide TargetWork, GoalOf, Sound, Less, Distinct;
    if targets == [] {
      DistinctNone();
    } else {
      var init, last := targets[..|targets| - 1], targets[|targets| - 1];
      WorkDistinct(init, goals, running);
      TargetDistinct(last, goals, running);
      var x, y := Work(init, running), TargetWork(last, running);
      forall a, b, p | a in x && b in y && About(a, p) ensures !About(b, p) {
        WorkIsDue(init, goals, running, a);
        TargetDue(last, goals, running, b);
        var t :| t in init && t.ref == RefOf(a);
        EarlierRef(targets, t);
      }
      DistinctConcat(x, y);
    }
  }

  lemma DistinctNone()
    ensures Distinct([])
  {
  }

  lemma EarlierRef(targets: seq<Target>, t: Target)
    requires ByRef(targets) && targets != [] && t in targets[..|targets| - 1]
    ensures t.ref != targets[|targets| - 1].ref
  {
    hide Less;
    LessIrreflexive(t.ref);
  }

  /** The new text of a pair's file, and whether the pair is reported as applied or cleared. */
  ghost function PairEffect(goals: map<string, Goal>, running: map<string, Discovered>, p: Pair, text: string,
      reply: Reply): (string, bool, bool) {
    if p.ref !in goals || GoalGate(goals, running, p.ref) != Proceed then (text, false, false)
    else
      var g := goals[p.ref];
      if p.unixUser in g.users then
        var (next, ok) := WriteFile(text, p.unixUser, g.users[p.unixUser], reply);
        (next, ok, false)
      else if p.unixUser in g.clear then
        var (next, ok) := ClearFile(text, p.unixUser, reply);
        (next, false, ok)
      else (text, false, false)
  }

  /** Every target can be read and is the approved machine, and every pair in it succeeds. */
  ghost predicate AllDone(goals: map<string, Goal>, running: map<string, Discovered>, files: Files,
      replies: Pair -> Reply) {
    && (forall ref :: ref in goals ==> GoalGate(goals, running, ref) == Proceed)
    && (forall ref, u :: ref in goals && u in goals[ref].users ==>
          PairEffect(goals, running, Pair(ref, u), FileAt(files, Pair(ref, u)), replies(Pair(ref, u))).1)
    && (forall ref, u :: ref in goals && u in goals[ref].clear ==>
          PairEffect(goals, running, Pair(ref, u), FileAt(files, Pair(ref, u)), replies(Pair(ref, u))).2)
  }

  /**
   What one call of Apply does, whatever order the targets and users come in: each pair's file and
   its place in the report depend on that pair alone, a mismatched target is reported and left
   alone, and a call without warnings has written and cleared everything.
   */
  lemma ApplyMeans(targets: seq<Target>, goals: map<string, Goal>, running: map<string, Discovered>, files: Files,
      replies: Pair -> Reply)
    requires Lists(targets, goals) && Sound(goals)
    ensures var end := Run(files, Work(targets, running), replies);
            && (forall p :: PairDone(end, goals, running, files, replies, p))
            && (forall ref :: ref in end.report.mismatched <==>
                  ref in goals && GoalGate(goals, running, ref) == Mismatch)
            && (end.report.warnings == [] <==> AllDone(goals, running, files, replies))
  {
    var work := Work(targets, running);
    hide Run, Ascending, Work, WriteFile, ClearFile, FileAt, GateOf, TargetWork;
    forall t | t in targets ensures t.ref in goals && goals[t.ref] == GoalOf(t) {
    }
    WorkDistinct(targets, goals, running);
    forall item ensures item in work <==> Due(goals, running, item) {
      WorkIsDue(targets, goals, running, item);
      if Due(goals, running, item) {
        var i :| 0 <= i < |targets| && targets[i].ref == RefOf(item);
        assert targets[i] in targets;
      }
    }
    forall p ensures PairDone(Run(files, work, replies), goals, running, files, replies, p) {
      PairMeans(work, goals, running, files, replies, p);
    }
    forall ref ensures ref in Run(files, work, replies).report.mismatched <==>
        ref in goals && GoalGate(goals, running, ref) == Mismatch {
      MismatchesReported(files, work, replies, ref);
      assert Mismatched(ref) in work <==> Due(goals, running, Mismatched(ref));
    }
    NoWarnings(files, work, replies);
    WarningsMean(work, goals, running, files, replies);
  }

  /** The item fails, and this is its warning: for a whole target without a user, for a pair with its user. */
  ghost predicate WarnsOf(item: Item, files: Files, replies: Pair -> Reply, w: Warning) {
    match item
    case Skipped(ref) => w == Warning(ref, "")
    case Mismatched(ref) => w == Warning(ref, "")
    case WriteItem(p, _) => !Effect(item, FileAt(files, p), replies(p)).1 && w == Warning(p.ref, p.unixUser)
    case ClearItem(p) => !Effect(item, FileAt(files, p), replies(p)).1 && w == Warning(p.ref, p.unixUser)
  }

  lemma StepWarning(s: Progress, item: Item, files: Files, replies: Pair -> Reply, w: Warning)
    requires (item.WriteItem? || item.ClearItem?) ==> FileAt(s.files, item.pair) == FileAt(files, item.pair)
    ensures w in Step(s, item, replies).report.warnings <==>
              w in s.report.warnings || WarnsOf(item, files, replies, w)
  {
    hide WriteFile, ClearFile, FileAt, Put;
  }

  lemma {:induction false} WarnedBy(files: Files, work: seq<Item>, replies: Pair -> Reply, w: Warning)
    requires Distinct(work)
    ensures w in Run(files, work, replies).report.warnings <==>
              exists item :: item in work && WarnsOf(item, files, replies, w)
  {
    hide Step, WarnsOf, FileAt;
    if work != [] {
      var init, last := work[..|work| - 1], work[|work| - 1];
      WarnedBy(files, init, replies, w);
      RunStep(files, work, replies);
      if last.WriteItem? || last.ClearItem? {
        assert About(last, last.pair);
        Untouched(files, init, replies, last.pair);
      }
      StepWarning(Run(files, init, replies), last, files, replies, w);
      assert work == init + [last];
    }
  }

  /** There is a warning for exactly each target that is not worked on and each pair whose item fails. */
  lemma Warned(targets: seq<Target>, goals: map<string, Goal>, running: map<string, Discovered>, files: Files,
      replies: Pair -> Reply, w: Warning)
    requires Lists(targets, goals) && Sound(goals)
    ensures w in Run(files, Work(targets, running), replies).report.warnings <==>
              exists item :: Due(goals, running, item) && WarnsOf(item, files, replies, w)
  {
    var work := Work(targets, running);
    hide Run, Ascending, Work, FileAt, TargetWork, WarnsOf, Due;
    forall t | t in targets ensures t.ref in goals && goals[t.ref] == GoalOf(t) {
    }
    WorkDistinct(targets, goals, running);
    forall item ensures item in work <==> Due(goals, running, item) {
      WorkIsDue(targets, goals, running, item);
      DueRef(goals, running, item);
      if Due(goals, running, item) {
        var i :| 0 <= i < |targets| && targets[i].ref == RefOf(item);
        assert targets[i] in targets;
      }
    }
    WarnedBy(files, work, replies, w);
  }

  lemma DueRef(goals: map<string, Goal>, running: map<string, Discovered>, item: Item)
    ensures Due(goals, running, item) ==> RefOf(item) in goals
  {
  }

  ghost predicate PairDone(end: Progress, goals: map<string, Goal>, running: map<string, Discovered>, files: Files,
      replies: Pair -> Reply, p: Pair) {
    var (text, applied, cleared) := PairEffect(goals, running, p, FileAt(files, p), replies(p));
    FileAt(end.files, p) == text && (p in end.report.applied <==> applied) && (p in end.report.cleared <==> cleared)
  }

  lemma PairMeans(work: seq<Item>, goals: map<string, Goal>, running: map<string, Discovered>, files: Files,
      replies: Pair -> Reply, p: Pair)
    requires Distinct(work) && Sound(goals)
    requires forall item :: item in work <==> Due(goals, running, item)
    ensures PairDone(Run(files, work, replies), goals, running, files, replies, p)
  {
    hide Run, WriteFile, ClearFile, FileAt, GateOf, Distinct;
    if i :| 0 <= i < |work| && About(work[i], p) {
      assert work[i] in work;
      TouchedOnce(files, work, replies, i);
    } else {
      Untouched(files, work, replies, p);
      if p.ref in goals && GoalGate(goals, running, p.ref) == Proceed {
        var g := goals[p.ref];
        assert p.unixUser in g.users ==> Due(goals, running, WriteItem(p, g.users[p.unixUser]));
        assert p.unixUser in g.clear ==> Due(goals, running, ClearItem(p));
        assert p.unixUser in g.users ==> About(WriteItem(p, g.users[p.unixUser]), p);
        assert About(ClearItem(p), p);
      }
    }
  }

  lemma WarningsMean(work: seq<Item>, goals: map<string, Goal>, running: map<string, Discovered>, files: Files,
      replies: Pair -> Reply)
    requires Sound(goals)
    requires forall item :: item in work <==> Due(goals, running, item)
    ensures AllDone(goals, running, files, replies) <==>
            forall i :: 0 <= i < |work| ==>
              (work[i].WriteItem? || work[i].ClearItem?) && Effect(work[i], FileAt(files, work[i].pair),
                  replies(work[i].pair)).1
  {
    hide WriteFile, ClearFile, FileAt, GateOf;
    if AllDone(goals, running, files, replies) {
      forall i | 0 <= i < |work|
        ensures (work[i].WriteItem? || work[i].ClearItem?) && Effect(work[i], FileAt(files, work[i].pair),
                  replies(work[i].pair)).1
      {
        assert work[i] in work;
        var ref := RefOf(work[i]);
        assert GoalGate(goals, running, ref) == Proceed;
        assert Pair(ref, work[i].pair.unixUser) == work[i].pair;
      }
    } else {
      if ref :| ref in goals && GoalGate(goals, running, ref) != Proceed {
        assert Due(goals, running, Skipped(ref)) || Due(goals, running, Mismatched(ref));
      } else if ref, u :| ref in goals && u in goals[ref].users && !PairEffect(goals, running, Pair(ref, u),
          FileAt(files, Pair(ref, u)), replies(Pair(ref, u))).1 {
        assert Due(goals, running, WriteItem(Pair(ref, u), goals[ref].users[u]));
      } else {
        var ref, u :| ref in goals && u in goals[ref].clear && !PairEffect(goals, running, Pair(ref, u),
            FileAt(files, Pair(ref, u)), replies(Pair(ref, u))).2;
        assert Due(goals, running, ClearItem(Pair(ref, u)));
      }
    }
  }

  // ----- What a rewrite leaves of a file

  lemma {:induction false} LineIsContained(s: string, m: string)
    requires HasLine(s, m)
    ensures Contains(s, m)
    decreases |s|
  {
    hide LineEnd;
    if FirstLine(s) == m {
      assert s == "" + m + s[|m|..];
      ContainsAt("", m, s[|m|..]);
    } else {
      LineIsContained(Rest(s), m);
      FirstAndRest(s);
      ContainsLater(FirstLine(s) + "\n", Rest(s), m);
    }
  }

  lemma {:induction false} ContainsLater(pre: string, s: string, m: string)
    requires Contains(s, m)
    ensures Contains(pre + s, m)
  {
    if pre == "" {
      assert pre + s == s;
    } else {
      ContainsLater(pre[1..], s, m);
      assert (pre + s)[1..] == pre[1..] + s;
    }
  }

  /** A file whose block, if any, holds no line, and whose block can be found. */
  predicate NoKeys(text: string) {
    !Parse(text).Bad? && Managing(text) == []
  }

  /** Every rewrite, however it ends: the file as it was, or the block set and the rest kept. */
  lemma RewriteKeeps(text: string, lines: seq<string>, onlyIfManaged: bool, reply: Reply)
    requires SafeLines(lines)
    ensures var (next, ok) := RewriteFile(text, lines, onlyIfManaged, reply);
            && (next == text || (Outside(next) == Outside(text) && Managing(next) == lines && Parse(next).Managed?))
            && (ok && !onlyIfManaged ==>
                  Outside(next) == Outside(text) && Managing(next) == lines && Parse(next).Managed?)
            && (ok && onlyIfManaged && lines == [] ==> NoKeys(next))
            && (reply.write != WrittenThenFailed && !ok ==> next == text)
  {
    hide HasLine, BlockText, Contains, BeginMarker, EndMarker, SafeLines, Lines, Plain;
    SafeIsPlain(lines);
    Rewritten(text, lines);
    if onlyIfManaged && !Contains(text, BeginMarker()) && HasLine(text, BeginMarker()) {
      LineIsContained(text, BeginMarker());
    }
  }

  /** One operation on one file: an apply with some lines, or a clear, whatever the host answers. */
  datatype FileOp = Set(lines: seq<string>, reply: Reply) | Unset(reply: Reply)

  function FileAfter(text: string, unixUser: string, ops: seq<FileOp>): string {
    if ops == [] then text
    else
      var before := FileAfter(text, unixUser, ops[..|ops| - 1]);
      match ops[|ops| - 1]
      case Set(lines, reply) => WriteFile(before, unixUser, lines, reply).0
      case Unset(reply) => ClearFile(before, unixUser, reply).0
  }

  /**
   Over any run of applies and clears, a file is untouched, or everything outside its block is
   what it was, apart from one line break where the block was appended to an unfinished line.
   */
  lemma {:induction false} OutsideKept(text: string, unixUser: string, ops: seq<FileOp>)
    ensures var end := FileAfter(text, unixUser, ops);
            end == text || (Outside(end) == Outside(text) && Parse(end).Managed?)
  {
    hide RewriteFile, Outside, Parse, SafeLines, ValidUnixUser;
    if ops != [] {
      OutsideKept(text, unixUser, ops[..|ops| - 1]);
      var before := FileAfter(text, unixUser, ops[..|ops| - 1]);
      match ops[|ops| - 1]
      case Set(lines, reply) =>
        if SafeLines(lines) {
          RewriteKeeps(before, lines, false, reply);
        }
      case Unset(reply) =>
        NoLinesSafe();
        RewriteKeeps(before, [], true, reply);
    }
  }

  lemma NoLinesSafe()
    ensures SafeLines([])
  {
  }

  /** What a pair's file holds after its item succeeds, or fails without having written. */
  lemma PairHolds(goals: map<string, Goal>, running: map<string, Discovered>, p: Pair, text: string, reply: Reply)
    ensures var (next, applied, cleared) := PairEffect(goals, running, p, text, reply);
            && (applied ==>
                  && p.ref in goals && p.unixUser in goals[p.ref].users
                  && Managing(next) == goals[p.ref].users[p.unixUser] && Parse(next).Managed?)
            && (cleared ==> p.ref in goals && p.unixUser in goals[p.ref].clear)
            && (cleared && !(reply.probe == NoSuchUser && reply.leftover == Gone) ==> NoKeys(next))
            && (cleared && reply.probe == NoSuchUser ==> next == text && reply.leftover == Gone)
            && (!applied && !cleared && reply.write != WrittenThenFailed ==> next == text)
            && (applied || cleared ==> ValidUnixUser(p.unixUser))
  {
    hide RewriteFile, Outside, Parse, SafeLines, ValidUnixUser, GateOf, NoKeys, Managing;
    if p.ref in goals && p.unixUser in goals[p.ref].users && SafeLines(goals[p.ref].users[p.unixUser]) {
      RewriteKeeps(text, goals[p.ref].users[p.unixUser], false, reply);
    }
    NoLinesSafe();
    RewriteKeeps(text, [], true, reply);
  }

  // ----- Any goals can be listed

  lemma {:induction false} SortMultiset(m: multiset<string>) returns (names: seq<string>)
    ensures Ascending(names) && multiset(names) == m
    decreases |m|
  {
    if m == multiset{} {
      names := [];
    } else {
      var x :| x in m;
      var rest := SortMultiset(m - multiset{x});
      names := InsertSorted(rest, x);
    }
  }

  lemma Position(out: seq<Target>, ref: string) returns (j: nat)
    requires ByRef(out) && forall t :: t in out ==> t.ref != ref
    ensures j <= |out|
    ensures forall k :: 0 <= k < j ==> Less(out[k].ref, ref)
    ensures j < |out| ==> Less(ref, out[j].ref)
  {
    hide ByRef;
    j := 0;
    while j < |out| && Less(out[j].ref, ref)
      invariant j <= |out|
      invariant forall k :: 0 <= k < j ==> Less(out[k].ref, ref)
    {
      j := j + 1;
    }
    if j < |out| {
      assert out[j] in out;
      CompareFlip(out[j].ref, ref);
      CompareZero(out[j].ref, ref);
    }
  }

  /** `out` lists the goals of `refs` only. */
  ghost predicate Part(out: seq<Target>, goals: map<string, Goal>, refs: set<string>) {
    && ByRef(out)
    && (forall t :: t in out ==> t.ref in refs && t.ref in goals && GoalOf(t) == goals[t.ref] && Ascending(t.clear))
    && (forall ref :: ref in refs ==> exists t :: t in out && t.ref == ref)
  }

  lemma PartMore(rest: seq<Target>, goals: map<string, Goal>, refs: set<string>, t: Target, out: seq<Target>)
    requires Part(rest, goals, refs - {t.ref}) && t.ref in refs && t.ref in goals && GoalOf(t) == goals[t.ref]
               && Ascending(t.clear)
    requires ByRef(out) && forall x :: x in out <==> x in rest || x == t
    ensures Part(out, goals, refs)
  {
    hide Ascending, ByRef, GoalOf;
    forall ref | ref in refs ensures exists x :: x in out && x.ref == ref {
      if ref == t.ref {
        assert t in out;
      } else {
        assert ref in refs - {t.ref};
        var x :| x in rest && x.ref == ref;
        assert x in out;
      }
    }
  }

  lemma {:induction false} ListsExist(goals: map<string, Goal>, refs: set<string>) returns (out: seq<Target>)
    requires refs <= goals.Keys
    ensures Part(out, goals, refs)
    decreases |refs|
  {
    if refs == {} {
      out := [];
    } else {
      var ref :| ref in refs;
      var rest := ListsExist(goals, refs - {ref});
      var g := goals[ref];
      var clear := SortMultiset(g.clear);
      var t := Target(ref, g.expectIp, g.expectLabel, g.users, clear);
      hide Ascending, ByRef;
      var j := Position(rest, ref);
      InsertByRef(rest, j, t);
      out := rest[..j] + [t] + rest[j..];
      PartMore(rest, goals, refs, t, out);
    }
  }

  /** The goals as the list the server sends. */
  ghost function ListOf(goals: map<string, Goal>): (out: seq<Target>)
    ensures Lists(out, goals)
  {
    assert exists out :: Lists(out, goals) by {
      var out := ListsExist(goals, goals.Keys);
      assert Lists(out, goals) by {
        ListedBy(out, goals);
      }
    }
    var out :| Lists(out, goals);
    out
  }

  lemma ListedBy(out: seq<Target>, goals: map<string, Goal>)
    requires Part(out, goals, goals.Keys)
    ensures Lists(out, goals)
  {
    hide Ascending, Less, GoalOf;
    forall ref | ref in goals ensures exists i :: 0 <= i < |out| && out[i].ref == ref {
      var t :| t in out && t.ref == ref;
    }
  }
}
