/** Two undisturbed cycles reach a fixpoint (internal/agent/loop.go and everything it calls). */
module Convergence {
  import opened Common
  import opened Strings
  import opened Block
  import opened Key
  import opened Desired
  import opened Store
  import opened Snapshot
  import opened SyncApi
  import opened Apply
  import opened Protocol
  import Adoption
  import Tracking

  /** One call of Loop.Once with nothing in between: the machine's steps, one after another. */
  ghost function Cycle(s: System, id: int, force: bool, discovered: seq<Discovered>, replies: Pair -> Reply,
      hostsOf: HostsOf): (t: System)
    requires id in s.agents
    ensures id in t.agents && t.watch == s.watch && t.boot == s.boot
  {
    AdoptNext(DeliverNext(WorkNext(LoadTablesNext(ReadRevisionNext(BeginNext(s, id, force), id), id, hostsOf), id,
        discovered, replies), id), id)
  }

  lemma CycleUnfolds(s: System, id: int, force: bool, discovered: seq<Discovered>, replies: Pair -> Reply,
      hostsOf: HostsOf)
    requires id in s.agents
    ensures Cycle(s, id, force, discovered, replies, hostsOf) ==
            AdoptNext(DeliverNext(WorkNext(LoadTablesNext(ReadRevisionNext(BeginNext(s, id, force), id), id,
                hostsOf), id, discovered, replies), id), id)
  {
    hide BeginNext, ReadRevisionNext, LoadTablesNext, WorkNext, DeliverNext, AdoptNext;
  }

  // ----- What the server would answer now

  ghost function Now(s: System, id: int, hostsOf: HostsOf): Option<GoalMap> {
    if s.watch.snap.None? then None
    else GoalsOf(s.db.tables, SeenOf(s.watch.snap.value.content), hostsOf, id)
  }

  ghost predicate FrozenNow(s: System, id: int, hostsOf: HostsOf, ref: string)
    requires s.watch.snap.Some?
  {
    match hostsOf(s.watch.snap.value.content.policy)
    case None => false
    case Some(servers) => ref in Frozen(Listing(s.db.tables.targets.Values), Ips(servers), id)
  }

  /** A registered agent between cycles, and a server that is up to date and makes sense. */
  ghost predicate Ready(s: System, id: int, hostsOf: HostsOf) {
    && id in s.agents && s.agents[id].phase == Idle && id in s.db.agents
    && Connected(s.watch) && Now(s, id, hostsOf).Some?
    && Valid(s.db) && Tracking.RefsValid(s.db.tables)
  }

  /** Every target is the approved machine, and every command on it can succeed. */
  ghost predicate Healthy(goals: GoalMap, running: map<string, Discovered>, files: Files, replies: Pair -> Reply) {
    && (forall ref :: ref in goals ==> GoalGate(goals, running, ref) == Proceed)
    && (forall ref, u :: ref in goals && u in goals[ref].users ==>
          SafeLines(goals[ref].users[u]) && Reachable(files, replies, Pair(ref, u)))
    && (forall ref, u :: ref in goals && u in goals[ref].clear ==>
          Reachable(files, replies, Pair(ref, u)) || Vanished(replies, Pair(ref, u)))
  }

  ghost predicate Reachable(files: Files, replies: Pair -> Reply, p: Pair) {
    && ValidUnixUser(p.unixUser) && replies(p).probe == Found && replies(p).readable && replies(p).write == Written
    && !Parse(FileAt(files, p)).Bad?
  }

  ghost predicate Vanished(replies: Pair -> Reply, p: Pair) {
    ValidUnixUser(p.unixUser) && replies(p).probe == NoSuchUser && replies(p).leftover == Gone
  }

  /** Files and rows are exactly what the goals ask for, and nothing is left to clear. */
  ghost predicate Settled(s: System, id: int, hostsOf: HostsOf)
    requires Ready(s, id, hostsOf)
  {
    var goals := Now(s, id, hostsOf).value;
    && (forall ref :: ref in goals ==> goals[ref].clear == multiset{})
    && (forall ref, u :: ref in goals && u in goals[ref].users ==> Holds(s.agents[id].files, Pair(ref, u),
        goals[ref].users[u]))
    && (forall ref, u :: !FrozenNow(s, id, hostsOf, ref) ==>
          (Row(id, ref, u) in s.db.tables.managed <==> ref in goals && u in goals[ref].users))
  }

  ghost predicate Holds(files: Files, p: Pair, lines: seq<string>) {
    Managing(FileAt(files, p)) == lines && Parse(FileAt(files, p)).Managed?
  }

  // ----- The cycle, step by step

  /** A cycle that is answered: work on the current goals, record, adopt if clean. */
  lemma FullCycle(s: System, id: int, force: bool, discovered: seq<Discovered>, replies: Pair -> Reply,
      hostsOf: HostsOf)
    requires Ready(s, id, hostsOf)
    requires force || s.agents[id].tag != Some(TagOf(s, s.watch.snap.value))
    ensures var goals, tag := Now(s, id, hostsOf).value, TagOf(s, s.watch.snap.value);
            var (files, report, clean) := WorkOn(s.agents[id].files, Some(goals), discovered, replies);
            var t := Cycle(s, id, force, discovered, replies, hostsOf);
            && Record(s.db, id, Checked(report)).Ok?
            && t.db == Record(s.db, id, Checked(report)).value
            && t.watch == s.watch && t.boot == s.boot && id in t.agents
            && t.agents[id] == Agent(if clean then Some(tag) else s.agents[id].tag, Idle, files)
  {
    hide GoalsOf, SeenOf, WorkOn, Record, Checked, Valid, Tracking.RefsValid;
    var goals := Now(s, id, hostsOf).value;
    var (files, report, clean) := WorkOn(s.agents[id].files, Some(goals), discovered, replies);
    Tracking.RecordUnfolds(s.db, id, Checked(report));
  }

  lemma IdleAsk(s: System, id: int, hostsOf: HostsOf)
    requires Ready(s, id, hostsOf) && s.agents[id].tag == Some(TagOf(s, s.watch.snap.value))
    ensures ReadRevisionNext(BeginNext(s, id, false), id) ==
              WithAgent(s, id, s.agents[id].(phase := Answered(TagOf(s, s.watch.snap.value), None)))
  {
    hide GoalsOf, SeenOf, Valid, Tracking.RefsValid;
  }

  lemma IdleAct(s: System, id: int, tag: ETag, discovered: seq<Discovered>, replies: Pair -> Reply, hostsOf: HostsOf)
    requires id in s.agents && s.agents[id].phase == Idle && s.agents[id].tag == Some(tag) && id in s.db.agents
    ensures var t := WithAgent(s, id, s.agents[id].(phase := Answered(tag, None)));
            AdoptNext(DeliverNext(WorkNext(LoadTablesNext(t, id, hostsOf), id, discovered, replies), id), id) == s
  {
    hide GoalsOf, SeenOf, Record;
    EmptyReport(s.db, id);
    var a := s.agents[id];
    var t := WithAgent(s, id, a.(phase := Answered(tag, None)));
    var d := DeliverNext(WorkNext(LoadTablesNext(t, id, hostsOf), id, discovered, replies), id);
    assert d == WithAgent(s, id, a.(phase := Reported(tag, None, true)));
    assert AdoptNext(d, id) == WithAgent(s, id, a);
  }

  /** A cycle that is told 304 changes nothing at all. */
  lemma IdleCycle(s: System, id: int, discovered: seq<Discovered>, replies: Pair -> Reply, hostsOf: HostsOf)
    requires Ready(s, id, hostsOf) && s.agents[id].tag == Some(TagOf(s, s.watch.snap.value))
    ensures ReadRevisionNext(BeginNext(s, id, false), id).agents[id].phase == Answered(TagOf(s, s.watch.snap.value),
              None)
    ensures Cycle(s, id, false, discovered, replies, hostsOf) == s
  {
    hide *;
    ReadyAgent(s, id, hostsOf);
    IdleAsk(s, id, hostsOf);
    IdleAct(s, id, TagOf(s, s.watch.snap.value), discovered, replies, hostsOf);
    CycleUnfolds(s, id, false, discovered, replies, hostsOf);
    AskedPhase(s, id, s.agents[id].(phase := Answered(TagOf(s, s.watch.snap.value), None)));
  }

  lemma AskedPhase(s: System, id: int, a: Agent)
    ensures id in WithAgent(s, id, a).agents && WithAgent(s, id, a).agents[id] == a
  {
  }

  lemma EmptyReport(db: Db, id: int)
    ensures Record(db, id, Checked(Report([], [], []))) == Ok(db)
  {
    assert Suspend(db.tables.targets, id, []) == db.tables.targets;
    assert db.tables.managed + Rows(id, []) - Rows(id, []) == db.tables.managed;
  }

  // ----- The first cycle

  lemma WriteSucceeds(text: string, unixUser: string, lines: seq<string>, reply: Reply)
    requires ValidUnixUser(unixUser) && SafeLines(lines) && reply.probe == Found && reply.readable
               && reply.write == Written && !Parse(text).Bad?
    ensures WriteFile(text, unixUser, lines, reply).1
  {
    hide Parse, SafeLines, BlockText, Strings.Contains, ValidUnixUser, BeginMarker, Terminated;
  }

  lemma ClearSucceeds(text: string, unixUser: string, reply: Reply)
    requires ValidUnixUser(unixUser)
    requires (reply.probe == Found && reply.readable && reply.write == Written && !Parse(text).Bad?)
               || (reply.probe == NoSuchUser && reply.leftover == Gone)
    ensures ClearFile(text, unixUser, reply).1
  {
    hide Parse, BlockText, Strings.Contains, ValidUnixUser, BeginMarker, Terminated;
  }

  lemma HealthyDone(goals: GoalMap, running: map<string, Discovered>, files: Files, replies: Pair -> Reply)
    requires Healthy(goals, running, files, replies) && Sound(goals)
    ensures AllDone(goals, running, files, replies)
  {
    hide GateOf, Parse, SafeLines, ValidUnixUser, WriteFile, ClearFile, FileAt;
    forall ref, u | ref in goals && u in goals[ref].users
      ensures PairEffect(goals, running, Pair(ref, u), FileAt(files, Pair(ref, u)), replies(Pair(ref, u))).1
    {
      WriteSucceeds(FileAt(files, Pair(ref, u)), u, goals[ref].users[u], replies(Pair(ref, u)));
    }
    forall ref, u | ref in goals && u in goals[ref].clear
      ensures PairEffect(goals, running, Pair(ref, u), FileAt(files, Pair(ref, u)), replies(Pair(ref, u))).2
    {
      ClearSucceeds(FileAt(files, Pair(ref, u)), u, replies(Pair(ref, u)));
    }
  }

  /** Clean work reports exactly the pairs of the goals. */
  lemma ReportExact(files: Files, goals: GoalMap, discovered: seq<Discovered>, replies: Pair -> Reply)
    requires Sound(goals) && AllDone(goals, Running(discovered), files, replies)
    ensures var (end, report, clean) := WorkOn(files, Some(goals), discovered, replies);
            && clean && report.mismatched == []
            && (forall p :: p in report.applied <==> p.ref in goals && p.unixUser in goals[p.ref].users)
            && (forall p :: p in report.cleared <==> p.ref in goals && p.unixUser in goals[p.ref].clear)
            && (forall p :: p in report.applied || p in report.cleared ==> ValidUnixUser(p.unixUser))
            && (forall p :: p in report.applied ==> Holds(end, p, goals[p.ref].users[p.unixUser]))
            && (forall p :: FileAt(end, p) == PairEffect(goals, Running(discovered), p, FileAt(files, p), replies(p)).0)
  {
    hide Run, Apply.Work, GateOf, FileAt, WriteFile, ClearFile, Managing, NoKeys, Parse, Lists, ValidUnixUser;
    var running := Running(discovered);
    var end := Run(files, Apply.Work(ListOf(goals), running), replies);
    ApplyMeans(ListOf(goals), goals, running, files, replies);
    forall p
      ensures p in end.report.applied <==> p.ref in goals && p.unixUser in goals[p.ref].users
      ensures p in end.report.cleared <==> p.ref in goals && p.unixUser in goals[p.ref].clear
      ensures p in end.report.applied || p in end.report.cleared ==> ValidUnixUser(p.unixUser)
      ensures p in end.report.applied ==> Holds(end.files, p, goals[p.ref].users[p.unixUser])
      ensures FileAt(end.files, p) == PairEffect(goals, running, p, FileAt(files, p), replies(p)).0
    {
      assert PairDone(end, goals, running, files, replies, p);
      PairHolds(goals, running, p, FileAt(files, p), replies(p));
      assert p == Pair(p.ref, p.unixUser);
    }
    Adoption.SomeIn(end.report.mismatched);
  }

  /** Recording such a report: rows follow the goals, bindings stay. */
  lemma RowsFollow(db: Db, id: int, goals: GoalMap, report: Report)
    requires id in db.agents && report.mismatched == []
    requires forall ref :: ref in goals ==> ValidRef(ref)
    requires forall p :: p in report.applied <==> p.ref in goals && p.unixUser in goals[p.ref].users
    requires forall p :: p in report.cleared <==> p.ref in goals && p.unixUser in goals[p.ref].clear
    requires forall p :: p in report.applied || p in report.cleared ==> ValidUnixUser(p.unixUser)
    ensures var after := Record(db, id, Checked(report));
            && after.Ok? && after.value.agents == db.agents && after.value.lastKey == db.lastKey
            && after.value.tables == db.tables.(managed := after.value.tables.managed)
            && (forall m: Row :: m.agentId != id ==> (m in after.value.tables.managed <==> m in db.tables.managed))
            && (forall ref, u :: Row(id, ref, u) in after.value.tables.managed <==>
                  !(ref in goals && u in goals[ref].clear) && (Row(id, ref, u) in db.tables.managed
                      || (ref in goals && u in goals[ref].users)))
            && (after.value.tables == db.tables && Rows(id, report.cleared) == {} ==> after.value == db)
  {
    hide ValidUnixUser, ValidRef, Rows, AcceptedPairs;
    var r := Checked(report);
    assert Suspend(db.tables.targets, id, []) == db.tables.targets;
    forall ref, u
      ensures Row(id, ref, u) in Rows(id, r.applied) <==> ref in goals && u in goals[ref].users
      ensures Row(id, ref, u) in Rows(id, r.cleared) <==> ref in goals && u in goals[ref].clear
    {
      Tracking.RowOf(id, r.applied, Pair(ref, u));
      Tracking.RowOf(id, r.cleared, Pair(ref, u));
      AcceptedMeans(report.applied, Pair(ref, u));
      AcceptedMeans(report.cleared, Pair(ref, u));
    }
    forall m: Row | m.agentId != id ensures m !in Rows(id, r.applied) && m !in Rows(id, r.cleared) {
      Tracking.OthersRows(id, r.applied, m);
      Tracking.OthersRows(id, r.cleared, m);
    }
    NothingNew(db, id, report);
  }

  lemma FewerRows(id: int, ps: seq<Pair>, qs: seq<Pair>)
    requires forall p :: p in ps ==> p in qs
    ensures Rows(id, ps) <= Rows(id, qs)
  {
  }

  lemma NothingNew(db: Db, id: int, report: Report)
    requires id in db.agents && report.mismatched == []
    ensures var after := Record(db, id, Checked(report));
            after.Ok? && (after.value.tables == db.tables && Rows(id, report.cleared) == {} ==> after.value == db)
  {
    hide AcceptedPairs;
    var r := Checked(report);
    assert Suspend(db.tables.targets, id, []) == db.tables.targets;
    var after := Record(db, id, r).value;
    if Rows(id, report.cleared) == {} && after.tables == db.tables {
      forall p | p in r.cleared ensures p in report.cleared {
        AcceptedMeans(report.cleared, p);
      }
      FewerRows(id, r.cleared, report.cleared);
      assert Rows(id, r.cleared) == {};
      assert Rows(id, r.applied) <= db.tables.managed;
    }
  }

  /** The goals once rows follow them: the same users on the same machines, and nothing to clear. */
  ghost predicate SameButCleared(before: GoalMap, after: GoalMap) {
    forall ref :: ref in after ==> ref in before && after[ref] == before[ref].(clear := multiset{})
  }

  lemma GoalsFollow(w: World, v: World, id: int)
    requires v == w.(managed := v.managed)
    requires var goals := Goals(w, id);
             forall ref, u :: Row(id, ref, u) in v.managed <==>
               !(ref in goals && u in goals[ref].clear) && (Row(id, ref, u) in w.managed
                   || (ref in goals && u in goals[ref].users))
    ensures var before, after, frozen := Goals(w, id), Goals(v, id), Frozen(w.bindings, Ips(w.servers), id);
            && SameButCleared(before, after)
            && (forall ref, u :: ref in before && u in before[ref].users ==> ref in after)
            && (forall ref, u :: ref !in frozen ==>
                  (Row(id, ref, u) in v.managed <==> ref in after && u in after[ref].users))
  {
    hide UsersOf, Ips, Frozen, ActiveRefs, ManagedRefs, Cleared, ActiveFor;
    var before, after, frozen := Goals(w, id), Goals(v, id), Frozen(w.bindings, Ips(w.servers), id);
    forall ref, u | ref !in frozen && Row(id, ref, u) in v.managed ensures ref in before && u in before[ref].users {
      if !(ref in before && u in before[ref].users) {
        RowsAccounted(w, Row(id, ref, u));
      }
    }
    forall ref | ref in after ensures ref in before && after[ref] == before[ref].(clear := multiset{}) {
      StillNamed(w, v, id, ref);
      SameBase(w, v, id, ref);
      forall u ensures u !in after[ref].clear {
        ClearsAreRows(v, id, ref, u);
      }
      NoneIn(after[ref].clear);
    }
    forall ref, u | ref in before && u in before[ref].users ensures ref in after {
      HasUsers(w, id, ref, u);
      ActiveNamed(v, id, ref);
    }
    forall ref, u | ref in after && u in after[ref].users ensures Row(id, ref, u) in v.managed {
      assert u in before[ref].users;
      ClearsAreRows(w, id, ref, u);
    }
  }

  lemma NoneIn(m: multiset<string>)
    ensures m == multiset{} || exists u :: u in m
  {
    if m != multiset{} {
      var u :| u in m;
    }
  }

  lemma SameBase(w: World, v: World, id: int, ref: string)
    requires v == w.(managed := v.managed) && ref in Goals(w, id) && ref in Goals(v, id)
    ensures Goals(v, id)[ref] == Goals(w, id)[ref].(clear := Goals(v, id)[ref].clear)
  {
    hide UsersOf, Ips, Frozen, ActiveRefs, ManagedRefs, Cleared, ActiveFor;
  }

  lemma HasUsers(w: World, id: int, ref: string, u: string)
    requires ref in Goals(w, id) && u in Goals(w, id)[ref].users
    ensures ref in ActiveRefs(w.bindings, Ips(w.servers), id)
  {
    hide UsersOf, Ips, Frozen, ActiveRefs, ManagedRefs, Cleared, ActiveFor;
    NotActive(w.bindings, Ips(w.servers), id, ref);
  }

  lemma ActiveNamed(v: World, id: int, ref: string)
    requires ref in ActiveRefs(v.bindings, Ips(v.servers), id)
    ensures ref in Goals(v, id)
  {
    hide UsersOf, Ips, Frozen, ActiveRefs, ManagedRefs, Cleared, ActiveFor;
  }

  /** A ref named after the rows follow was named before. */
  lemma StillNamed(w: World, v: World, id: int, ref: string)
    requires v == w.(managed := v.managed) && ref in Goals(v, id)
    requires forall u :: Row(id, ref, u) in v.managed ==> Row(id, ref, u) in w.managed || ref in Goals(w, id)
    ensures ref in Goals(w, id)
  {
    hide UsersOf, Ips, Frozen, ActiveRefs, Cleared, ActiveFor;
    var frozen := Frozen(w.bindings, Ips(w.servers), id);
    if ref !in ActiveRefs(w.bindings, Ips(w.servers), id) {
      var m :| m in v.managed && m.agentId == id && m.targetRef !in frozen && m.targetRef == ref;
      assert m == Row(id, ref, m.unixUser);
    }
  }

  /** After the first cycle everything holds, whatever held before. */
  lemma FirstCycle(s: System, id: int, discovered: seq<Discovered>, replies: Pair -> Reply, hostsOf: HostsOf,
      force: bool)
    requires Ready(s, id, hostsOf) && (force || s.agents[id].tag != Some(TagOf(s, s.watch.snap.value)))
    requires AllDone(Now(s, id, hostsOf).value, Running(discovered), s.agents[id].files, replies)
    ensures var t := Cycle(s, id, force, discovered, replies, hostsOf);
            && Ready(t, id, hostsOf) && Settled(t, id, hostsOf)
            && t.watch == s.watch && t.boot == s.boot
            && t.agents[id].tag == Some(TagOf(s, s.watch.snap.value))
            && SameButCleared(Now(s, id, hostsOf).value, Now(t, id, hostsOf).value)
            && (Settled(s, id, hostsOf) ==> t.db == s.db)
            && (forall p :: FileAt(t.agents[id].files, p) ==
                  PairEffect(Now(s, id, hostsOf).value, Running(discovered), p, FileAt(s.agents[id].files, p),
                      replies(p)).0)
  {
    hide *;
    ReadyAgent(s, id, hostsOf);
    var t, goals := Cycle(s, id, force, discovered, replies, hostsOf), Now(s, id, hostsOf).value;
    FitNow(s, id, hostsOf);
    FullCycle(s, id, force, discovered, replies, hostsOf);
    var (files, report, clean) := WorkOn(s.agents[id].files, Some(goals), discovered, replies);
    ReportExact(s.agents[id].files, goals, discovered, replies);
    RowsFollow(s.db, id, goals, report);
    Tracking.RecordValid(s.db, id, report);
    RecordKeepsValid(s.db, id, Checked(report));
    NowFollows(s, t, id, hostsOf, goals);
    Unchanged(s, t, id, hostsOf, goals, report);
    BecomesSettled(s, t, id, hostsOf, goals);
  }

  lemma RecordKeepsValid(db: Db, id: int, r: Report)
    requires Valid(db) && Record(db, id, r).Ok?
    ensures Valid(Record(db, id, r).value)
  {
    hide Valid, Record;
    WritesKeepValid(db, OpRecord(id, r));
  }

  lemma ReadyAgent(s: System, id: int, hostsOf: HostsOf)
    requires Ready(s, id, hostsOf)
    ensures id in s.agents && s.agents[id].phase == Idle && id in s.db.agents && Valid(s.db)
              && Tracking.RefsValid(s.db.tables) && Now(s, id, hostsOf).Some? && s.watch.snap.Some?
              && Connected(s.watch)
  {
    hide GoalsOf, SeenOf, Valid, Tracking.RefsValid;
  }

  lemma FitNow(s: System, id: int, hostsOf: HostsOf)
    requires Ready(s, id, hostsOf)
    ensures Sound(Now(s, id, hostsOf).value) && forall ref :: ref in Now(s, id, hostsOf).value ==> ValidRef(ref)
  {
    hide GoalsOf, SeenOf, Valid, Tracking.RefsValid, ValidRef, Sound;
    Tracking.GoalsFit(s.db.tables, SeenOf(s.watch.snap.value.content), hostsOf, id);
  }

  lemma NowFollows(s: System, t: System, id: int, hostsOf: HostsOf, goals: GoalMap)
    requires Now(s, id, hostsOf) == Some(goals) && t.watch == s.watch
    requires t.db.tables == s.db.tables.(managed := t.db.tables.managed)
    requires forall ref, u :: Row(id, ref, u) in t.db.tables.managed <==>
               !(ref in goals && u in goals[ref].clear) && (Row(id, ref, u) in s.db.tables.managed
                   || (ref in goals && u in goals[ref].users))
    ensures Now(t, id, hostsOf).Some? && SameButCleared(goals, Now(t, id, hostsOf).value)
    ensures forall ref, u :: ref in goals && u in goals[ref].users ==> ref in Now(t, id, hostsOf).value
    ensures s.watch.snap.Some? && forall ref, u :: !FrozenNow(t, id, hostsOf, ref) ==>
              (Row(id, ref, u) in t.db.tables.managed <==>
                  ref in Now(t, id, hostsOf).value && u in Now(t, id, hostsOf).value[ref].users)
  {
    hide Goals, SameButCleared, Frozen, Ips, LiveUsers;
    var seen := SeenOf(s.watch.snap.value.content);
    var servers := hostsOf(seen.policy).value;
    GoalsFollow(WorldOf(s.db.tables, seen, servers), WorldOf(t.db.tables, seen, servers), id);
  }

  lemma BecomesSettled(s: System, t: System, id: int, hostsOf: HostsOf, goals: GoalMap)
    requires Ready(s, id, hostsOf) && Now(s, id, hostsOf) == Some(goals) && t.watch == s.watch
    requires id in t.agents && t.agents[id].phase == Idle && id in t.db.agents && Tracking.RefsValid(t.db.tables)
               && Valid(t.db)
    requires Now(t, id, hostsOf).Some? && SameButCleared(goals, Now(t, id, hostsOf).value)
    requires s.watch.snap.Some? && forall ref, u :: !FrozenNow(t, id, hostsOf, ref) ==>
              (Row(id, ref, u) in t.db.tables.managed <==>
                  ref in Now(t, id, hostsOf).value && u in Now(t, id, hostsOf).value[ref].users)
    requires forall p: Pair :: p.ref in goals && p.unixUser in goals[p.ref].users ==>
               Holds(t.agents[id].files, p, goals[p.ref].users[p.unixUser])
    ensures Ready(t, id, hostsOf) && Settled(t, id, hostsOf)
  {
    hide GoalsOf, SeenOf, Valid, Tracking.RefsValid, Holds, FrozenNow;
    var after := Now(t, id, hostsOf).value;
    forall ref, u | ref in after && u in after[ref].users ensures Holds(t.agents[id].files, Pair(ref, u),
        after[ref].users[u]) {
      assert Pair(ref, u).ref in goals;
    }
  }

  /** Recording what is already on record changes nothing, not even the revision. */
  lemma Unchanged(s: System, t: System, id: int, hostsOf: HostsOf, goals: GoalMap, report: Report)
    requires Ready(s, id, hostsOf) && Now(s, id, hostsOf) == Some(goals)
    requires id in s.db.agents && report.mismatched == []
    requires Record(s.db, id, Checked(report)).Ok? && t.db == Record(s.db, id, Checked(report)).value
    requires t.db.tables == s.db.tables.(managed := t.db.tables.managed)
    requires forall p :: p in report.cleared <==> p.ref in goals && p.unixUser in goals[p.ref].clear
    requires forall m: Row :: m.agentId != id ==> (m in t.db.tables.managed <==> m in s.db.tables.managed)
    requires forall ref, u :: Row(id, ref, u) in t.db.tables.managed <==>
               !(ref in goals && u in goals[ref].clear) && (Row(id, ref, u) in s.db.tables.managed
                   || (ref in goals && u in goals[ref].users))
    requires t.db.tables == s.db.tables && Rows(id, report.cleared) == {} ==> t.db == s.db
    ensures Settled(s, id, hostsOf) ==> t.db == s.db
  {
    hide GoalsOf, SeenOf, Valid, Tracking.RefsValid, Holds, FrozenNow, Record, Checked;
    if Settled(s, id, hostsOf) {
      forall ref, u | ref in goals && u in goals[ref].users ensures Row(id, ref, u) in s.db.tables.managed {
        NotFrozen(s, id, hostsOf, ref, u);
      }
      forall m ensures m in t.db.tables.managed <==> m in s.db.tables.managed {
        assert m == Row(m.agentId, m.targetRef, m.unixUser);
      }
      assert t.db.tables.managed == s.db.tables.managed;
      NoRows(id, report.cleared);
    }
  }

  lemma NoRows(id: int, ps: seq<Pair>)
    requires forall p :: p !in ps
    ensures Rows(id, ps) == {}
  {
  }

  /** A target that is written to is not frozen: an agent has one binding to it. */
  lemma NotFrozen(s: System, id: int, hostsOf: HostsOf, ref: string, u: string)
    requires Ready(s, id, hostsOf) && ref in Now(s, id, hostsOf).value && u in Now(s, id, hostsOf).value[ref].users
    ensures !FrozenNow(s, id, hostsOf, ref)
  {
    hide Goals, Frozen, Ips, LiveUsers, Valid, Tracking.RefsValid, Implausible;
    var seen := SeenOf(s.watch.snap.value.content);
    var servers := hostsOf(seen.policy).value;
    var w := WorldOf(s.db.tables, seen, servers);
    HasUsers(w, id, ref, u);
    NotActive(w.bindings, Ips(servers), id, ref);
    OneBinding(s.db, w.bindings, Ips(servers), id, ref);
  }

  lemma OneBinding(db: Db, bindings: seq<Binding>, ips: map<string, string>, id: int, ref: string)
    requires Valid(db) && forall b :: b in bindings <==> b in db.tables.targets.Values
    requires ref in ActiveRefs(bindings, ips, id)
    ensures ref !in Frozen(bindings, ips, id)
  {
    var b :| b in bindings && b.agentId == id && StateOf(b, ips) == Active && b.targetRef == ref;
    var h :| h in db.tables.targets && db.tables.targets[h] == b;
    forall c | c in bindings && c.agentId == id && c.targetRef == ref ensures c == b {
      var k :| k in db.tables.targets && db.tables.targets[k] == c;
      assert h != k ==> !SameTarget(db.tables.targets[h], db.tables.targets[k]);
    }
  }

  // ----- The second cycle

  /** One pair, again, on the goals that are left. */
  lemma PairAgain(before: GoalMap, after: GoalMap, running: map<string, Discovered>, p: Pair, text: string,
      reply: Reply)
    requires SameButCleared(before, after) && p.ref in after && GoalGate(before, running, p.ref) == Proceed
    requires p.unixUser in after[p.ref].users ==> PairEffect(before, running, p, text, reply).1
    ensures var next := PairEffect(before, running, p, text, reply).0;
            PairEffect(after, running, p, next, reply) == (next, p.unixUser in after[p.ref].users, false)
  {
    hide GateOf, WriteFile, ClearFile;
    if p.unixUser in after[p.ref].users {
      WrittenAgain(text, p.unixUser, before[p.ref].users[p.unixUser], reply);
    }
  }

  /** What succeeded once succeeds again on the goals that are left. */
  lemma SecondDone(before: GoalMap, after: GoalMap, running: map<string, Discovered>, files: Files, end: Files,
      replies: Pair -> Reply)
    requires AllDone(before, running, files, replies) && SameButCleared(before, after)
    requires forall p :: FileAt(end, p) == PairEffect(before, running, p, FileAt(files, p), replies(p)).0
    ensures AllDone(after, running, end, replies)
    ensures forall p :: PairEffect(after, running, p, FileAt(end, p), replies(p)).0 == FileAt(end, p)
  {
    forall p: Pair
      ensures PairEffect(after, running, p, FileAt(end, p), replies(p)).0 == FileAt(end, p)
      ensures p.ref in after && p.unixUser in after[p.ref].users ==>
                PairEffect(after, running, p, FileAt(end, p), replies(p)).1
    {
      hide GateOf, FileAt, WriteFile, ClearFile;
      if p.ref in after {
        assert Pair(p.ref, p.unixUser) == p;
        PairAgain(before, after, running, p, FileAt(files, p), replies(p));
      }
    }
    hide GateOf, FileAt, WriteFile, ClearFile, PairEffect;
  }

  lemma WrittenAgain(text: string, unixUser: string, lines: seq<string>, reply: Reply)
    requires WriteFile(text, unixUser, lines, reply).1
    ensures var next := WriteFile(text, unixUser, lines, reply).0;
              WriteFile(next, unixUser, lines, reply) == (next, true)
  {
    hide Parse, BlockText, Contains, ValidUnixUser, BeginMarker, Terminated, SafeLines, Replace;
    ReplaceIdempotent(text, lines);
  }

  /**
   Two cycles with nobody else acting, on a host where every command can succeed: from any state,
   every active pair's block holds exactly the desired lines, unfrozen rows are exactly the desired
   pairs, nothing is left to clear, the second cycle moves no revision, and from then on the agent
   is told 304 and a cycle changes nothing.
   */
  lemma Converges(s: System, id: int, hostsOf: HostsOf, discovered: seq<Discovered>, replies: Pair -> Reply,
      force: bool)
    requires Ready(s, id, hostsOf)
    requires Healthy(Now(s, id, hostsOf).value, Running(discovered), s.agents[id].files, replies)
    ensures var one := Cycle(s, id, true, discovered, replies, hostsOf);
            && Ready(one, id, hostsOf) && Settled(one, id, hostsOf)
            && var two := Cycle(one, id, force, discovered, replies, hostsOf);
            && Ready(two, id, hostsOf) && Settled(two, id, hostsOf)
            && two.db == one.db
            && (forall p :: FileAt(two.agents[id].files, p) == FileAt(one.agents[id].files, p))
            && ReadRevisionNext(BeginNext(two, id, false), id).agents[id].phase ==
                Answered(TagOf(two, two.watch.snap.value), None)
            && forall d, r :: Cycle(two, id, false, d, r, hostsOf) == two
  {
    hide *;
    ReadyAgent(s, id, hostsOf);
    var goals := Now(s, id, hostsOf).value;
    FitNow(s, id, hostsOf);
    HealthyDone(goals, Running(discovered), s.agents[id].files, replies);
    FirstCycle(s, id, discovered, replies, hostsOf, true);
    var one := Cycle(s, id, true, discovered, replies, hostsOf);
    ReadyAgent(one, id, hostsOf);
    var tag := TagOf(one, one.watch.snap.value);
    if !force && one.agents[id].tag == Some(tag) {
      IdleCycle(one, id, discovered, replies, hostsOf);
    } else {
      SecondDone(goals, Now(one, id, hostsOf).value, Running(discovered), s.agents[id].files, one.agents[id].files,
          replies);
      FirstCycle(one, id, discovered, replies, hostsOf, force);
    }
    var two := Cycle(one, id, force, discovered, replies, hostsOf);
    ReadyAgent(two, id, hostsOf);
    SameTag(one, two);
    forall d, r ensures Cycle(two, id, false, d, r, hostsOf) == two {
      IdleCycle(two, id, d, r, hostsOf);
    }
    IdleCycle(two, id, discovered, replies, hostsOf);
  }

  lemma SameTag(s: System, t: System)
    requires s.watch.snap.Some? && t.watch == s.watch && t.boot == s.boot && t.db == s.db
    ensures TagOf(t, t.watch.snap.value) == TagOf(s, s.watch.snap.value)
  {
  }
}
