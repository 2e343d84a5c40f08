/**
 The agent's poll loop and the request it makes (internal/agent/loop.go, internal/api/ssh_agent_sync.go,
 ssh_access.go).
 */
module Loop {
  import opened Common
  import opened Desired
  import opened Store
  import opened Snapshot
  import opened SyncApi
  import opened Apply
  import opened Protocol
  import Convergence

  // ----- The handler

  datatype Answer = Unauthorized | Unavailable | NotModified | Fresh(tag: ETag, targets: seq<Target>)

  /** The rows of one read of the tables, as the queries list them. */
  datatype QueryRows = QueryRows(bindings: seq<Binding>, assigns: seq<Assignment>, keys: seq<StoredKey>,
      managed: seq<Row>)

  ghost function RowsAsListed(t: Tables): QueryRows {
    QueryRows(Listing(t.targets.Values), Listing(t.assigns), StoredKeys(t.keys), Listing(t.managed))
  }

  /** What a request may be told, from the server's state alone. */
  ghost predicate Answers(a: Answer, db: Db, watch: Watch, boot: string, hostsOf: HostsOf, id: int, ask: Option<ETag>) {
    if id !in db.agents then a == Unauthorized
    else if !Connected(watch) then a == Unavailable
    else
      var tag := ETag(db.rev, watch.snap.value.revision, boot);
      if ask == Some(tag) then a == NotModified
      else
        match GoalsOf(db.tables, SeenOf(watch.snap.value.content), hostsOf, id)
        case None => a == Unavailable
        case Some(goals) => a.Fresh? && a.tag == tag && Lists(a.targets, goals)
  }

  class Headboard {
    const store: SshStore
    const watcher: Watcher
    const boot: string
    const hostsOf: HostsOf

    constructor (store: SshStore, watcher: Watcher, boot: string, hostsOf: HostsOf)
      ensures this.store == store && this.watcher == watcher && this.boot == boot && this.hostsOf == hostsOf
    {
      this.store, this.watcher, this.boot, this.hostsOf := store, watcher, boot, hostsOf;
    }

    /** loadSSHState: the policy's hosts, the live users, and the rows; nothing when the policy cannot be read. */
    method LoadState(content: Fetched, rows: QueryRows) returns (w: Option<World>)
      requires rows == RowsAsListed(store.State().tables)
      ensures w == WorldSeen(store.State().tables, SeenOf(content), hostsOf)
    {
      hide LiveUsers;
      var servers := hostsOf(content.policy);
      if servers.None? {
        return None;
      }
      return Some(World(servers.value, LiveUsers(content.users), rows.bindings, rows.assigns, rows.keys, rows.managed));
    }

    /** sync: the snapshot, then the revision, then the tables. */
    method Sync(id: int, ask: Option<ETag>, rows: QueryRows) returns (a: Answer)
      requires rows == RowsAsListed(store.State().tables)
      ensures Answers(a, store.State(), watcher.State(), boot, hostsOf, id, ask)
    {
      hide Goals, SeenOf, WorldSeen, GoalsOf, RowsAsListed, Lists;
      if id !in store.agents {
        return Unauthorized;
      }
      if watcher.failed || watcher.snap.None? {
        return Unavailable;
      }
      var snap := watcher.snap.value;
      var tag := ETag(store.rev, snap.revision, boot);
      if ask == Some(tag) {
        return NotModified;
      }
      GoalsSeen(store.State().tables, SeenOf(snap.content), hostsOf, id);
      var w := LoadState(snap.content, rows);
      if w.None? {
        return Unavailable;
      }
      var wild := MakesNoSense(w.value);
      if wild {
        return Unavailable;
      }
      var targets := Desired.Desired(id, w.value);
      return Fresh(tag, targets);
    }
  }

  method MakesNoSense(w: World) returns (wild: bool)
    ensures wild <==> Implausible(w)
  {
    if w.servers == [] && w.bindings != [] {
      return true;
    }
    return w.users == map[] && w.assigns != [];
  }

  ghost function WorldSeen(t: Tables, seen: Seen, hostsOf: HostsOf): Option<World> {
    match hostsOf(seen.policy)
    case None => None
    case Some(servers) => Some(WorldOf(t, seen, servers))
  }

  lemma GoalsSeen(t: Tables, seen: Seen, hostsOf: HostsOf, id: int)
    ensures var w := WorldSeen(t, seen, hostsOf);
            GoalsOf(t, seen, hostsOf, id) == if w.None? || Implausible(w.value) then None else Some(Goals(w.value, id))
  {
    hide Goals, WorldOf, Implausible;
  }

  // ----- Once

  /** The machine of the protocol, seen from one agent and the server it talks to. */
  ghost predicate Mirrors(s: System, hb: Headboard, h: Host, id: int, etag: Option<ETag>)
    reads hb.store, hb.watcher, h
  {
    && s.db == hb.store.State() && s.watch == hb.watcher.State() && s.boot == hb.boot
    && id in s.agents && s.agents[id] == Agent(etag, Idle, h.files)
  }

  /** A cycle whose report never arrives. */
  ghost function LostCycle(s: System, id: int, force: bool, discovered: seq<Discovered>, replies: Pair -> Reply,
      hostsOf: HostsOf): (end: System)
    requires id in s.agents
    ensures id in end.agents && end.watch == s.watch && end.boot == s.boot
  {
    var t := WorkNext(LoadTablesNext(ReadRevisionNext(BeginNext(s, id, force), id), id, hostsOf), id, discovered,
        replies);
    WithAgent(t, id, t.agents[id].(phase := Idle))
  }

  /** What the cycle makes of the server and of the agent, by what it was answered. */
  ghost predicate Turned(s: System, t: System, a: Answer, id: int, discovered: seq<Discovered>,
      replies: Pair -> Reply, arrives: bool)
    requires id in s.agents && id in t.agents
  {
    var agent := s.agents[id];
    match a
    case Fresh(tag, targets) =>
      var end := Run(agent.files, Apply.Work(targets, Running(discovered)), replies);
      if arrives then
        && t.db == OrSame(s.db, Record(s.db, id, Checked(ReportOf(end.report))))
        && t.agents[id] == Agent(if end.report.warnings == [] then Some(tag) else agent.tag, Idle, end.files)
      else t.db == s.db && t.agents[id] == Agent(agent.tag, Idle, end.files)
    case _ => t.db == s.db && t.agents[id] == agent
  }

  /** An answer with targets. */
  lemma FreshTurns(s: System, a: Answer, id: int, force: bool, discovered: seq<Discovered>, replies: Pair -> Reply,
      hostsOf: HostsOf)
    requires id in s.agents && s.agents[id].phase == Idle && a.Fresh?
    requires Answers(a, s.db, s.watch, s.boot, hostsOf, id, if force then None else s.agents[id].tag)
    ensures Turned(s, Convergence.Cycle(s, id, force, discovered, replies, hostsOf), a, id, discovered, replies, true)
    ensures Turned(s, LostCycle(s, id, force, discovered, replies, hostsOf), a, id, discovered, replies, false)
  {
    hide GoalsOf, SeenOf, Record, Run, Apply.Work, Running, Checked, Lists;
    var goals := GoalsOf(s.db.tables, SeenOf(s.watch.snap.value.content), hostsOf, id).value;
    ListsUnique(a.targets, ListOf(goals), goals);
    Recorded(s.db, id, Checked(ReportOf(Run(s.agents[id].files, Apply.Work(a.targets, Running(discovered)),
        replies).report)));
  }

  /** Any other answer leaves everything as it was. */
  lemma OtherTurns(s: System, a: Answer, id: int, force: bool, discovered: seq<Discovered>, replies: Pair -> Reply,
      hostsOf: HostsOf)
    requires id in s.agents && s.agents[id].phase == Idle && !a.Fresh?
    requires Answers(a, s.db, s.watch, s.boot, hostsOf, id, if force then None else s.agents[id].tag)
    ensures Turned(s, Convergence.Cycle(s, id, force, discovered, replies, hostsOf), a, id, discovered, replies, true)
    ensures Turned(s, LostCycle(s, id, force, discovered, replies, hostsOf), a, id, discovered, replies, false)
  {
    hide GoalsOf, SeenOf, Record, Run, Apply.Work, Running, Lists;
    if a.NotModified? {
      Convergence.EmptyReport(s.db, id);
    }
  }

  lemma CycleTurns(s: System, a: Answer, id: int, force: bool, discovered: seq<Discovered>, replies: Pair -> Reply,
      hostsOf: HostsOf)
    requires id in s.agents && s.agents[id].phase == Idle
    requires Answers(a, s.db, s.watch, s.boot, hostsOf, id, if force then None else s.agents[id].tag)
    ensures Turned(s, Convergence.Cycle(s, id, force, discovered, replies, hostsOf), a, id, discovered, replies, true)
    ensures Turned(s, LostCycle(s, id, force, discovered, replies, hostsOf), a, id, discovered, replies, false)
  {
    hide *;
    if a.Fresh? {
      FreshTurns(s, a, id, force, discovered, replies, hostsOf);
    } else {
      OtherTurns(s, a, id, force, discovered, replies, hostsOf);
    }
  }

  lemma Recorded(db: Db, id: int, r: Report)
    requires id in db.agents
    ensures Record(db, id, r).Ok?
  {
  }

  /** The server knows the agent, is connected, and the tag is current or there is an answer. */
  ghost predicate Attended(s: System, id: int, ask: Option<ETag>, hostsOf: HostsOf) {
    && id in s.db.agents && s.watch.snap.Some? && !s.watch.failed
    && (ask == Some(ETag(s.db.rev, s.watch.snap.value.revision, s.boot))
        || GoalsOf(s.db.tables, SeenOf(s.watch.snap.value.content), hostsOf, id).Some?)
  }

  lemma AttendedMeans(s: System, a: Answer, id: int, ask: Option<ETag>, hostsOf: HostsOf)
    requires Answers(a, s.db, s.watch, s.boot, hostsOf, id, ask)
    ensures Attended(s, id, ask, hostsOf) <==> a.NotModified? || a.Fresh?
  {
    hide GoalsOf, SeenOf, Lists;
  }

  /** An agent process: its etag is what Run carries from one cycle to the next. */
  class Process {
    var etag: Option<ETag>
    const h: Host
    const id: int

    constructor (h: Host, id: int)
      ensures this.h == h && this.id == id && etag == None
    {
      this.h, this.id, etag := h, id, None;
    }

    /** One cycle. The new tag is returned only when the report arrived and nothing was skipped. */
    method Once(hb: Headboard, discovered: Option<seq<Discovered>>, force: bool, rows: QueryRows, arrives: bool,
        ghost s: System) returns (next: Option<ETag>, ok: bool)
      requires Mirrors(s, hb, h, id, etag) && rows == RowsAsListed(hb.store.State().tables)
      modifies hb.store, h
      ensures discovered.None? ==> !ok && Mirrors(s, hb, h, id, next)
      ensures discovered.Some? && arrives ==>
                Mirrors(Convergence.Cycle(s, id, force, discovered.value, h.replies, hb.hostsOf), hb, h, id, next)
      ensures discovered.Some? && !arrives ==>
                !ok && Mirrors(LostCycle(s, id, force, discovered.value, h.replies, hb.hostsOf), hb, h, id, next)
      ensures !ok ==> next == etag
      ensures ok <==> discovered.Some? && arrives && Attended(s, id, if force then None else etag, hb.hostsOf)
    {
      hide Answers, Run, Apply.Work, Convergence.Cycle, LostCycle, Checked, Record, RowsAsListed, Attended;
      next, ok := etag, false;
      if discovered.None? {
        return;
      }
      var ask := if force then None else etag;
      var a := hb.Sync(id, ask, rows);
      CycleTurns(s, a, id, force, discovered.value, h.replies, hb.hostsOf);
      AttendedMeans(s, a, id, ask, hb.hostsOf);
      match a {
        case Unauthorized => return;
        case Unavailable => return;
        case NotModified =>
          if !arrives {
            return;
          }
          ok := true;
          Convergence.EmptyReport(s.db, id);
          var err := ReportHandler(hb.store, id, Report([], [], []));
        case Fresh(tag, targets) =>
          var r := Apply.Apply(h, discovered.value, targets);
          if !arrives {
            return;
          }
          var err := ReportHandler(hb.store, id, Report(r.applied, r.cleared, r.mismatched));
          ok := true;
          if r.warnings != [] {
            return;
          }
          next := Some(tag);
      }
    }
  }

  // ----- Run

  /** How one call of Once ended. */
  datatype Outcome = Rejected | Failed | Succeeded(tag: Option<ETag>)

  /** One turn of the loop: when it started and ended, how, and the random number drawn after it. */
  datatype Turn = Turn(started: int, ended: int, outcome: Outcome, drawn: nat)

  datatype Pace = Pace(etag: Option<ETag>, lastFull: Option<int>, wait: nat)

  /** Five minutes, in milliseconds. */
  const LONGEST := 300_000

  function Min(a: nat, b: nat): nat {
    if a < b then a else b
  }

  /** A full sync is due when none succeeded within fullEvery. */
  function Forced(p: Pace, now: int, fullEvery: nat): bool {
    p.lastFull.None? || now - p.lastFull.value >= fullEvery
  }

  function TurnNext(p: Pace, t: Turn, interval: nat, fullEvery: nat): Pace {
    match t.outcome
    case Rejected => p
    case Failed => p.(wait := Min(p.wait * 2, LONGEST))
    case Succeeded(tag) => Pace(tag, if Forced(p, t.started, fullEvery) then Some(t.ended) else p.lastFull, interval)
  }

  function PaceAfter(turns: seq<Turn>, interval: nat, fullEvery: nat): Pace {
    if turns == [] then Pace(None, None, interval)
    else TurnNext(PaceAfter(turns[..|turns| - 1], interval, fullEvery), turns[|turns| - 1], interval, fullEvery)
  }

  /** Up to a fifth of the interval is added to every pause. */
  function Jitter(drawn: nat, interval: nat): (j: nat)
    ensures j <= interval / 5
  {
    drawn % (interval / 5 + 1)
  }

  /** How long a turn is followed by waiting, apart from jitter. */
  function Pause(p: Pace, t: Turn, interval: nat): int {
    if t.outcome.Failed? then p.wait
    else if interval - (t.ended - t.started) > 0 then interval - (t.ended - t.started) else 0
  }

  lemma OneMoreTurn(turns: seq<Turn>, t: Turn, interval: nat, fullEvery: nat)
    ensures PaceAfter(turns + [t], interval, fullEvery) ==
            TurnNext(PaceAfter(turns, interval, fullEvery), t, interval, fullEvery)
  {
    hide TurnNext;
    assert (turns + [t])[..|turns|] == turns;
  }

  lemma NoTurns(interval: nat, fullEvery: nat)
    ensures PaceAfter([], interval, fullEvery) == Pace(None, None, interval)
  {
  }

  /** The loop over the turns it is given; it ends early at a rejected token. */
  method RunLoop(turns: seq<Turn>, interval: nat, fullEvery: nat) returns (p: Pace, done: nat, pauses: seq<int>)
    ensures done <= |turns| && |pauses| == done
    ensures forall k :: 0 <= k < done ==> !turns[k].outcome.Rejected?
    ensures done < |turns| ==> turns[done].outcome.Rejected?
    ensures p == PaceAfter(turns[..done], interval, fullEvery)
    ensures forall k :: 0 <= k < done ==>
              pauses[k] == Pause(PaceAfter(turns[..k + 1], interval, fullEvery), turns[k], interval) +
                  Jitter(turns[k].drawn, interval)
  {
    hide PaceAfter, Jitter;
    var etag: Option<ETag> := None;
    var lastFull: Option<int> := None;
    var wait := interval;
    done, pauses := 0, [];
    NoTurns(interval, fullEvery);
    assert turns[..0] == [];
    while done < |turns|
      invariant done <= |turns| && |pauses| == done
      invariant forall k :: 0 <= k < done ==> !turns[k].outcome.Rejected?
      invariant Pace(etag, lastFull, wait) == PaceAfter(turns[..done], interval, fullEvery)
      invariant forall k :: 0 <= k < done ==>
                  pauses[k] == Pause(PaceAfter(turns[..k + 1], interval, fullEvery), turns[k], interval) +
                      Jitter(turns[k].drawn, interval)
    {
      var t := turns[done];
      var force := lastFull.None? || t.started - lastFull.value >= fullEvery;
      OneMoreTurn(turns[..done], t, interval, fullEvery);
      assert turns[..done + 1] == turns[..done] + [t];
      match t.outcome {
        case Rejected =>
          return Pace(etag, lastFull, wait), done, pauses;
        case Failed =>
          wait := Min(wait * 2, LONGEST);
        case Succeeded(tag) =>
          etag, wait := tag, interval;
          if force {
            lastFull := Some(t.ended);
          }
      }
      var pause: int := wait;
      if !t.outcome.Failed? {
        pause := if interval - (t.ended - t.started) > 0 then interval - (t.ended - t.started) else 0;
      }
      pauses, done := pauses + [pause + Jitter(t.drawn, interval)], done + 1;
    }
    p := Pace(etag, lastFull, wait);
  }

  function Power(n: nat): nat {
    if n == 0 then 1 else 2 * Power(n - 1)
  }

  /** n failures in a row since the last success, or since the start. */
  ghost predicate FailedLast(turns: seq<Turn>, n: nat) {
    && n <= |turns|
    && (forall k :: |turns| - n <= k < |turns| ==> turns[k].outcome.Failed?)
    && (n < |turns| ==> turns[|turns| - n - 1].outcome.Succeeded?)
  }

  lemma Twice(a: nat, b: nat)
    ensures a * (2 * b) == a * b * 2
  {
  }

  /** The wait doubles with every failure in a row, up to five minutes, and a success resets it to the interval. */
  lemma {:induction false} BackoffDoubles(turns: seq<Turn>, n: nat, interval: nat, fullEvery: nat)
    requires FailedLast(turns, n)
    ensures PaceAfter(turns, interval, fullEvery).wait == if n == 0 then interval else Min(interval * Power(n), LONGEST)
    decreases n
  {
    if n > 0 {
      var init := turns[..|turns| - 1];
      BackoffDoubles(init, n - 1, interval, fullEvery);
      assert turns[|turns| - 1].outcome.Failed?;
      Twice(interval, Power(n - 1));
    }
  }

  /** Apart from jitter, a pause is at most five minutes after a failure and at most the interval after a success. */
  lemma PauseBound(turns: seq<Turn>, n: nat, interval: nat, fullEvery: nat)
    requires FailedLast(turns, n) && turns != [] && turns[|turns| - 1].ended >= turns[|turns| - 1].started
    ensures var last := turns[|turns| - 1];
            0 <= Pause(PaceAfter(turns, interval, fullEvery), last, interval) <= (if n > 0 then LONGEST else interval)
  {
    hide PaceAfter, Power;
    BackoffDoubles(turns, n, interval, fullEvery);
  }

  /**
   After a success the next turn starts an interval after the start of this one, or at once when it took
   longer; after a failure it waits out the backoff from the end. Up to a fifth of the interval comes on top.
   */
  lemma NextStart(turns: seq<Turn>, n: nat, interval: nat, fullEvery: nat)
    requires FailedLast(turns, n) && turns != []
    ensures var last := turns[|turns| - 1];
            var pause := Pause(PaceAfter(turns, interval, fullEvery), last, interval);
            && (n == 0 ==> last.ended + pause == if last.ended >= last.started + interval then last.ended
                  else last.started + interval)
            && (n > 0 ==> pause == if interval * Power(n) < 5 * 60 * 1000 then interval * Power(n) else 5 * 60 * 1000)
            && 0 <= 5 * Jitter(last.drawn, interval) <= interval
  {
    hide PaceAfter, Power;
    BackoffDoubles(turns, n, interval, fullEvery);
  }

  /** Every pause up to a fifth of the interval can be drawn. */
  lemma JitterReaches(extra: nat, interval: nat)
    requires 5 * extra <= interval
    ensures Jitter(extra, interval) == extra
  {
    var fifth := interval / 5;
    assert extra <= fifth;
    Small(extra, fifth + 1);
  }

  lemma Small(a: nat, m: nat)
    requires a < m
    ensures a % m == a
  {
  }

  /** The tag sent next is the one of the last success; failures keep it. */
  lemma {:induction false} FailuresKeepTag(turns: seq<Turn>, n: nat, interval: nat, fullEvery: nat)
    requires FailedLast(turns, n)
    ensures PaceAfter(turns, interval, fullEvery).etag == if n < |turns| then turns[|turns| - n - 1].outcome.tag
              else None
    decreases n
  {
    if n > 0 {
      FailuresKeepTag(turns[..|turns| - 1], n - 1, interval, fullEvery);
      assert turns[|turns| - 1].outcome.Failed?;
    }
  }

  /** The turn that last succeeded with a full sync. */
  ghost predicate WasFull(turns: seq<Turn>, k: nat, interval: nat, fullEvery: nat)
    requires k < |turns|
  {
    turns[k].outcome.Succeeded? && Forced(PaceAfter(turns[..k], interval, fullEvery), turns[k].started, fullEvery)
  }

  /** A turn is forced exactly when no full sync succeeded, or the last one ended fullEvery ago or more. */
  lemma {:induction false} ForcedMeans(turns: seq<Turn>, now: int, interval: nat, fullEvery: nat)
    requires forall i, j :: 0 <= i < j < |turns| ==> turns[i].ended <= turns[j].ended
    ensures Forced(PaceAfter(turns, interval, fullEvery), now, fullEvery) <==>
            forall k :: 0 <= k < |turns| && WasFull(turns, k, interval, fullEvery) ==> now - turns[k].ended >= fullEvery
    ensures var p := PaceAfter(turns, interval, fullEvery);
            p.lastFull.Some? ==>
              exists k :: 0 <= k < |turns| && WasFull(turns, k, interval, fullEvery)
                          && p.lastFull.value == turns[k].ended
  {
    if turns != [] {
      var n := |turns| - 1;
      var init := turns[..n];
      ForcedMeans(init, now, interval, fullEvery);
      forall k | 0 <= k < n ensures WasFull(turns, k, interval, fullEvery) <==> WasFull(init, k, interval, fullEvery) {
        assert init[..k] == turns[..k];
      }
      var before := PaceAfter(init, interval, fullEvery);
      if before.lastFull.Some? {
        var k :| 0 <= k < n && WasFull(init, k, interval, fullEvery) && before.lastFull.value == init[k].ended;
        assert WasFull(turns, k, interval, fullEvery);
      }
    }
  }
}
