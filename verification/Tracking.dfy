/** No block is left behind (internal/agent/apply.go, internal/agent/retire.go, internal/store/ssh.go). */
module Tracking {
  import opened Common
  import opened Block
  import opened Key
  import opened Desired
  import opened Store
  import opened Snapshot
  import opened SyncApi
  import opened Apply
  import opened Protocol
  import Uninstall = Retire
  import Adoption

  // ----- The claim

  /** The file of a pair holds keys in a block, or a block that cannot be found. */
  ghost predicate KeysAt(s: System, id: int, p: Pair)
    requires id in s.agents
  {
    !NoKeys(FileAt(s.agents[id].files, p))
  }

  ghost predicate OnRecord(s: System, id: int, p: Pair) {
    Row(id, p.ref, p.unixUser) in s.db.tables.managed
  }

  /** Named in a report that is still on its way. */
  ghost predicate Pending(ph: Phase, p: Pair) {
    ph.Worked? && p in ph.report.applied
  }

  /** Wherever the agent left keys, the server knows or is about to be told. */
  ghost predicate Tracked(s: System, id: int)
    requires id in s.agents
  {
    forall p :: KeysAt(s, id, p) ==> OnRecord(s, id, p) || Pending(s.agents[id].phase, p)
  }

  /** Everything left with a registered agent is tracked. */
  ghost predicate AllTracked(s: System) {
    forall id :: id in s.agents && id in s.db.agents ==> Tracked(s, id)
  }

  // ----- What the handlers check

  /** A bound ref is well formed, only well-formed pairs of a report count, and agent ids are not used again. */
  ghost predicate Guarded(s: System, e: Event) {
    e.Write? ==> GuardedWrite(s, e.op)
  }

  ghost predicate GuardedWrite(s: System, op: Op) {
    match op
    case OpRecord(_, r) => forall p :: p in r.applied || p in r.cleared ==> Accepted(p)
    case OpRetire(_, cleared) => forall p :: p in cleared ==> Accepted(p)
    case OpApprove(b) => ValidRef(b.targetRef)
    case OpCreateAgent(id) => id !in s.agents
    case _ => true
  }

  ghost predicate GuardedRun(s: System, events: seq<Event>, hostsOf: HostsOf) {
    events != [] ==>
      && GuardedRun(s, events[..|events| - 1], hostsOf)
      && Guarded(Play(s, events[..|events| - 1], hostsOf), events[|events| - 1])
  }

  // ----- Where track is lost

  /** A write that puts keys where there were none, and fails after its rename. */
  ghost predicate Strands(goals: GoalMap, running: map<string, Discovered>, p: Pair, text: string, reply: Reply) {
    && p.ref in goals && GoalGate(goals, running, p.ref) == Proceed
    && p.unixUser in goals[p.ref].users && goals[p.ref].users[p.unixUser] != []
    && SafeLines(goals[p.ref].users[p.unixUser]) && ValidUnixUser(p.unixUser)
    && reply.probe == Found && reply.readable && reply.write == WrittenThenFailed
    && NoKeys(text)
  }

  /** A clear that counts as done though keys remain: the user is reported gone, and nothing is found under its home. */
  ghost predicate Spares(goals: GoalMap, running: map<string, Discovered>, p: Pair, text: string, reply: Reply) {
    && p.ref in goals && GoalGate(goals, running, p.ref) == Proceed
    && p.unixUser in goals[p.ref].clear && ValidUnixUser(p.unixUser)
    && reply.probe == NoSuchUser && reply.leftover == Gone
    && !NoKeys(text)
  }

  /** A file the server is about to hear is clear still holds keys. */
  ghost predicate FalselyClear(s: System, id: int, cleared: seq<Pair>)
    requires id in s.agents
  {
    exists p :: p in cleared && Accepted(p) && KeysAt(s, id, p)
  }

  /** The report alone names some keys. */
  ghost predicate OnlyReported(s: System, id: int)
    requires id in s.agents
  {
    s.agents[id].phase.Worked? &&
    exists p :: p in s.agents[id].phase.report.applied && KeysAt(s, id, p) && !OnRecord(s, id, p)
  }

  /** Some row of the agent is not among the pairs it names as cleared. */
  ghost predicate RowKept(s: System, id: int, cleared: seq<Pair>) {
    exists ref, u :: Row(id, ref, u) in s.db.tables.managed && !(Pair(ref, u) in cleared && Accepted(Pair(ref, u)))
  }

  /** A file that is called clear holds keys, and no report on its way names it as written. */
  ghost predicate Unbacked(s: System, id: int, cleared: seq<Pair>)
    requires id in s.agents
  {
    exists p :: p in cleared && KeysAt(s, id, p) && !Pending(s.agents[id].phase, p)
  }

  /** A report or a retirement that reaches the server out of turn: late, twice, or not from that agent's own cycle. */
  ghost predicate WriteLoses(s: System, op: Op) {
    match op
    case OpRecord(id, r) => id in s.agents && id in s.db.agents && Unbacked(s, id, r.cleared)
    case OpRetire(id, cleared) =>
      id in s.agents && id in s.db.agents && Unbacked(s, id, cleared)
      && !(Mine(s.db.tables.managed, id) <= Rows(id, cleared))
    case _ => false
  }

  /** The events after which keys are left that the server neither knows nor is about to be told of. */
  ghost predicate Loses(s: System, e: Event) {
    match e
    case Write(op) => WriteLoses(s, op)
    case Join(id, files) =>
      id !in s.agents && id in s.db.agents && exists p :: !NoKeys(FileAt(files, p)) && !OnRecord(s, id, p)
    case Edit(id, p, text) =>
      id in s.agents && id in s.db.agents && !NoKeys(text) && !OnRecord(s, id, p) && !Pending(s.agents[id].phase, p)
    case Work(id, discovered, replies) =>
      id in s.agents && id in s.db.agents && WorkStrands(s, id, discovered, replies)
    case Deliver(id) =>
      id in s.agents && id in s.db.agents && s.agents[id].phase.Worked?
      && FalselyClear(s, id, s.agents[id].phase.report.cleared)
    case Leave(id) =>
      id in s.agents && id in s.db.agents && s.agents[id].phase.Emptied?
      && RowKept(s, id, s.agents[id].phase.cleared) && FalselyClear(s, id, s.agents[id].phase.cleared)
    case Abandon(id) => id in s.agents && id in s.db.agents && OnlyReported(s, id)
    case AgentRestart(id) => id in s.agents && id in s.db.agents && OnlyReported(s, id)
    case _ => false
  }

  ghost predicate WorkStrands(s: System, id: int, discovered: seq<Discovered>, replies: Pair -> Reply)
    requires id in s.agents
  {
    var a := s.agents[id];
    a.phase.Answered? && a.phase.goals.Some? &&
    exists p :: !OnRecord(s, id, p) && Strands(a.phase.goals.value, Running(discovered), p, FileAt(a.files, p),
        replies(p))
  }

  // ----- The invariant

  /** Refs the server may be asked to store are the ones it accepts in reports. */
  ghost predicate RefsValid(t: Tables) {
    && (forall h :: h in t.targets ==> ValidRef(t.targets[h].targetRef))
    && (forall m :: m in t.managed ==> ValidRef(m.targetRef))
  }

  ghost predicate Fit(goals: GoalMap) {
    Sound(goals) && forall ref :: ref in goals ==> ValidRef(ref)
  }

  ghost predicate PhaseOk(ph: Phase, id: int) {
    match ph
    case Answered(_, goals) => goals.Some? ==> Fit(goals.value)
    case Worked(_, _, report, _) => forall p :: p in report.applied ==> Accepted(p)
    case Listed(rows) => forall m :: m in rows ==> m.agentId == id && ValidRef(m.targetRef)
    case _ => true
  }

  /** What guarded events keep, whether or not track is lost. */
  ghost predicate Grounded(s: System) {
    RefsValid(s.db.tables) && forall id :: id in s.agents ==> PhaseOk(s.agents[id].phase, id)
  }

  // ----- Goals

  lemma GoalsFit(t: Tables, seen: Seen, hostsOf: HostsOf, id: int)
    requires RefsValid(t)
    ensures GoalsOf(t, seen, hostsOf, id).Some? ==> Fit(GoalsOf(t, seen, hostsOf, id).value)
  {
    hide ValidRef, Implausible, Ips, StateOf, Frozen, UsersOf, Cleared, ActiveFor, Sound, LiveUsers;
    Adoption.AnswersSound(t, seen, hostsOf, id);
    if GoalsOf(t, seen, hostsOf, id).Some? {
      var w := WorldOf(t, seen, hostsOf(seen.policy).value);
      var goals := Goals(w, id);
      forall ref | ref in goals ensures ValidRef(ref) {
        if b :| b in w.bindings && b.agentId == id && StateOf(b, Ips(w.servers)) == Active && b.targetRef == ref {
          assert b in t.targets.Values;
        } else {
          var m :| m in w.managed && m.agentId == id && m.targetRef == ref;
        }
      }
    }
  }

  // ----- Work

  /** A write leaves keys where there were none without success exactly when it fails after its rename. */
  lemma WriteStrands(text: string, unixUser: string, lines: seq<string>, reply: Reply)
    requires NoKeys(text)
    ensures var (next, ok) := WriteFile(text, unixUser, lines, reply);
            !NoKeys(next) && !ok <==>
              && lines != [] && SafeLines(lines) && ValidUnixUser(unixUser)
              && reply.probe == Found && reply.readable && reply.write == WrittenThenFailed
  {
    hide Outside, SafeLines, ValidUnixUser, BlockText, HasLine, Lines, Plain, Terminated;
    if SafeLines(lines) {
      SafeIsPlain(lines);
      Rewritten(text, lines);
    }
  }

  lemma ClearStrands(text: string, unixUser: string, reply: Reply)
    requires NoKeys(text)
    ensures NoKeys(ClearFile(text, unixUser, reply).0)
  {
    hide RewriteFile, Outside, ValidUnixUser, Parse, Managing;
    NoLinesSafe();
    RewriteKeeps(text, [], true, reply);
    EmptyBlock(RewriteFile(text, [], true, reply).0);
  }

  lemma EmptyBlock(text: string)
    ensures Managing(text) == [] && Parse(text).Managed? ==> NoKeys(text)
  {
    hide Managing;
  }

  lemma StrandsMeans(goals: GoalMap, running: map<string, Discovered>, p: Pair, text: string, reply: Reply)
    ensures var (next, applied, _) := PairEffect(goals, running, p, text, reply);
            Strands(goals, running, p, text, reply) <==> NoKeys(text) && !NoKeys(next) && !applied
  {
    hide WriteFile, ClearFile, SafeLines, ValidUnixUser, GateOf, NoKeys;
    if NoKeys(text) {
      ClearStrands(text, p.unixUser, reply);
      if p.ref in goals && p.unixUser in goals[p.ref].users {
        WriteStrands(text, p.unixUser, goals[p.ref].users[p.unixUser], reply);
      }
    }
  }

  /** What a call of Apply leaves at one pair: keys it did not report are old ones, or were stranded there. */
  lemma WorkAt(files: Files, goals: GoalMap, discovered: seq<Discovered>, replies: Pair -> Reply, p: Pair)
    requires Sound(goals)
    ensures var (end, report, _) := WorkOn(files, Some(goals), discovered, replies);
            && (NoKeys(FileAt(files, p)) && !NoKeys(FileAt(end, p)) && p !in report.applied <==>
                  Strands(goals, Running(discovered), p, FileAt(files, p), replies(p)))
            && (p in report.applied ==> p.ref in goals && p.unixUser in goals[p.ref].users && ValidUnixUser(p.unixUser))
  {
    hide Run, Apply.Work, Sound, GateOf, FileAt, WriteFile, ClearFile, NoKeys, Parse, Lists, Managing, ValidUnixUser,
         Strands;
    var running := Running(discovered);
    var end := Run(files, Apply.Work(ListOf(goals), running), replies);
    ApplyMeans(ListOf(goals), goals, running, files, replies);
    assert PairDone(end, goals, running, files, replies, p);
    StrandsMeans(goals, running, p, FileAt(files, p), replies(p));
    PairHolds(goals, running, p, FileAt(files, p), replies(p));
  }

  lemma SparesMeans(goals: GoalMap, running: map<string, Discovered>, p: Pair, text: string, reply: Reply)
    requires Sound(goals)
    ensures var (next, _, cleared) := PairEffect(goals, running, p, text, reply);
            Spares(goals, running, p, text, reply) <==> cleared && !NoKeys(next)
  {
    hide WriteFile, RewriteFile, ValidUnixUser, GateOf, NoKeys;
    PairHolds(goals, running, p, text, reply);
  }

  /** What a call of Apply names as cleared with keys left: exactly the pairs the host spared. */
  lemma ClearedAt(files: Files, goals: GoalMap, discovered: seq<Discovered>, replies: Pair -> Reply, p: Pair)
    requires Sound(goals)
    ensures var (end, report, _) := WorkOn(files, Some(goals), discovered, replies);
            && (p in report.cleared && !NoKeys(FileAt(end, p)) <==>
                  Spares(goals, Running(discovered), p, FileAt(files, p), replies(p)))
            && (p in report.cleared ==> p.ref in goals && p.unixUser in goals[p.ref].clear && ValidUnixUser(p.unixUser))
  {
    hide Run, Apply.Work, Sound, GateOf, FileAt, WriteFile, ClearFile, NoKeys, Parse, Lists, Managing, ValidUnixUser,
         Spares;
    var running := Running(discovered);
    var end := Run(files, Apply.Work(ListOf(goals), running), replies);
    ApplyMeans(ListOf(goals), goals, running, files, replies);
    assert PairDone(end, goals, running, files, replies, p);
    SparesMeans(goals, running, p, FileAt(files, p), replies(p));
    PairHolds(goals, running, p, FileAt(files, p), replies(p));
  }

  lemma NoWork(files: Files, discovered: seq<Discovered>, replies: Pair -> Reply)
    ensures WorkOn(files, None, discovered, replies) == (files, Report([], [], []), true)
  {
  }

  // ----- Reports and retirements

  lemma RowOf(id: int, ps: seq<Pair>, p: Pair)
    ensures Row(id, p.ref, p.unixUser) in Rows(id, ps) <==> p in ps
  {
    if Row(id, p.ref, p.unixUser) in Rows(id, ps) {
      var q :| q in ps && Row(id, q.ref, q.unixUser) == Row(id, p.ref, p.unixUser);
      assert q == p;
    }
    if p in ps {
      assert Row(id, p.ref, p.unixUser) in Rows(id, ps);
    }
  }

  lemma NoRows(id: int)
    ensures Rows(id, []) == {}
  {
  }

  lemma OthersRows(id: int, ps: seq<Pair>, m: Row)
    requires m.agentId != id
    ensures m !in Rows(id, ps)
  {
  }

  lemma RecordUnfolds(db: Db, id: int, r: Report)
    requires id in db.agents
    ensures var after := Record(db, id, r);
            && after.Ok? && after.value.agents == db.agents
            && after.value.tables.managed == db.tables.managed + Rows(id, r.applied) - Rows(id, r.cleared)
            && after.value.tables.targets.Keys == db.tables.targets.Keys
            && forall h :: h in db.tables.targets ==>
                after.value.tables.targets[h].targetRef == db.tables.targets[h].targetRef
  {
    hide Rows;
  }

  lemma RecordValid(db: Db, id: int, r: Report)
    requires id in db.agents && RefsValid(db.tables)
    ensures RefsValid(Record(db, id, Checked(r)).value.tables)
  {
    hide ValidRef, Record, ValidUnixUser, AcceptedPairs;
    RecordUnfolds(db, id, Checked(r));
    forall m | m in Record(db, id, Checked(r)).value.tables.managed ensures ValidRef(m.targetRef) {
      if m !in db.tables.managed {
        var p :| p in AcceptedPairs(r.applied) && m == Row(id, p.ref, p.unixUser);
        AcceptedMeans(r.applied, p);
      }
    }
  }

  lemma RetireUnfolds(db: Db, id: int, cleared: seq<Pair>)
    requires id in db.agents
    ensures var after := OrSameLeft(db, RetireAgent(db, id, cleared));
            && (id !in after.agents <==> Mine(db.tables.managed, id) <= Rows(id, cleared))
            && after.agents == db.agents - (if Mine(db.tables.managed, id) <= Rows(id, cleared) then {id} else {})
            && after.tables.managed == db.tables.managed - Rows(id, cleared)
            && after.tables.targets.Keys <= db.tables.targets.Keys
            && forall h :: h in after.tables.targets ==> after.tables.targets[h] == db.tables.targets[h]
  {
    var left := Mine(db.tables.managed - Rows(id, cleared), id);
    if Mine(db.tables.managed, id) <= Rows(id, cleared) {
      assert left == {};
    } else {
      var m :| m in Mine(db.tables.managed, id) && m !in Rows(id, cleared);
      assert m in left;
    }
  }

  // ----- Every event keeps the base

  /** One agent moves, the server does not. */
  lemma GroundedMoves(s: System, t: System, id: int)
    requires Grounded(s) && t.db == s.db && id in t.agents
    requires t.agents.Keys == s.agents.Keys + {id} && forall k :: k in s.agents && k != id ==>
               t.agents[k] == s.agents[k]
    requires PhaseOk(t.agents[id].phase, id)
    ensures Grounded(t)
  {
    hide RefsValid, PhaseOk;
  }

  lemma GroundedWork(s: System, id: int, discovered: seq<Discovered>, replies: Pair -> Reply)
    requires Grounded(s) && id in s.agents
    ensures Grounded(WorkNext(s, id, discovered, replies))
  {
    hide RefsValid, NoKeys, FileAt, WorkOn, Strands, ValidRef, ValidUnixUser, Sound;
    var a, t := s.agents[id], WorkNext(s, id, discovered, replies);
    if a.phase.Answered? {
      assert PhaseOk(a.phase, id);
      if a.phase.goals.Some? {
        forall p | p in t.agents[id].phase.report.applied ensures Accepted(p) {
          WorkAt(a.files, a.phase.goals.value, discovered, replies, p);
        }
      } else {
        NoWork(a.files, discovered, replies);
      }
      GroundedMoves(s, t, id);
    }
  }

  lemma GroundedLoad(s: System, id: int, hostsOf: HostsOf)
    requires Grounded(s) && id in s.agents
    ensures Grounded(LoadTablesNext(s, id, hostsOf))
  {
    hide RefsValid, GoalsOf, SeenOf, Fit, Accepted;
    var a, t := s.agents[id], LoadTablesNext(s, id, hostsOf);
    if a.phase.Tagged? {
      GoalsFit(s.db.tables, SeenOf(a.phase.snap.content), hostsOf, id);
      GroundedMoves(s, t, id);
    }
  }

  lemma GroundedDeliver(s: System, id: int)
    requires Grounded(s) && id in s.agents
    ensures Grounded(DeliverNext(s, id))
  {
    hide RefsValid, Record, Accepted, Fit, ValidRef;
    if s.agents[id].phase.Worked? && id in s.db.agents {
      RecordUnfolds(s.db, id, Checked(s.agents[id].phase.report));
      RecordValid(s.db, id, s.agents[id].phase.report);
    }
  }

  lemma GroundedLeave(s: System, id: int)
    requires Grounded(s) && id in s.agents
    ensures Grounded(LeaveNext(s, id))
  {
    hide RetireAgent, Rows, Accepted, Fit, ValidRef, Mine, AcceptedPairs;
    if s.agents[id].phase.Emptied? && id in s.db.agents {
      RetireUnfolds(s.db, id, AcceptedPairs(s.agents[id].phase.cleared));
    }
  }

  lemma GroundedList(s: System, id: int)
    requires Grounded(s) && id in s.agents
    ensures Grounded(ListManagedNext(s, id))
  {
    hide Fit, Accepted, ValidRef;
  }

  lemma GroundedSimple(s: System, t: System)
    requires Grounded(s) && MovesOn(s, t)
    ensures Grounded(t)
  {
    hide RefsValid, Fit, Accepted;
    forall k | k in t.agents ensures PhaseOk(t.agents[k].phase, k) {
      assert PhaseOk(s.agents[k].phase, k);
    }
  }

  lemma GroundedWrite(s: System, op: Op)
    requires Grounded(s) && GuardedWrite(s, op)
    ensures Grounded(s.(db := Do(s.db, op)))
  {
    hide Do, PhaseOk, RefsValid;
    match op
    case OpRecord(id, r) => RecordKeepsRefs(s.db, id, r);
    case OpRetire(id, cleared) => RetireOthers(s.db, id, cleared);
    case _ => GuardedRows(s, op);
  }

  lemma RecordKeepsRefs(db: Db, id: int, r: Report)
    requires RefsValid(db.tables) && forall p :: p in r.applied || p in r.cleared ==> Accepted(p)
    ensures RefsValid(Do(db, OpRecord(id, r)).tables)
  {
    hide ValidRef, ValidUnixUser;
  }

  /** Whoever retires, the rows of others stay, and nothing is added. */
  lemma RetireOthers(db: Db, id: int, cleared: seq<Pair>)
    ensures var after := Do(db, OpRetire(id, cleared));
            && after.agents <= db.agents && after.tables.managed <= db.tables.managed
            && (forall m :: m in db.tables.managed && m.agentId != id ==> m in after.tables.managed)
    ensures RefsValid(db.tables) ==> RefsValid(Do(db, OpRetire(id, cleared)).tables)
  {
    hide ValidRef;
  }

  /** Whatever is recorded, the rows of others stay. */
  lemma RecordOthers(db: Db, id: int, r: Report)
    ensures var after := Do(db, OpRecord(id, r));
            && after.agents == db.agents
            && (forall m :: m in db.tables.managed && m.agentId != id ==> m in after.tables.managed)
  {
    hide Suspend;
  }

  lemma GuardedRows(s: System, op: Op)
    requires GuardedWrite(s, op) && RefsValid(s.db.tables) && !op.OpRecord? && !op.OpRetire?
    ensures var db := Do(s.db, op);
            && RefsValid(db.tables)
            && (forall k :: k in s.agents && k in db.agents ==> k in s.db.agents)
            && forall k, r, u :: k in s.agents && k in db.agents && Row(k, r, u) in s.db.tables.managed ==>
                 Row(k, r, u) in db.tables.managed
  {
    hide ValidRef, FilterKeys, SameTarget, Rows, Suspend;
  }

  /** Agents move on, or drop a request, without touching files, rows or reports. */
  ghost predicate MovesOn(s: System, t: System) {
    && t.db == s.db && t.agents.Keys == s.agents.Keys
    && forall k :: k in s.agents ==>
         t.agents[k].files == s.agents[k].files && PhaseMoves(s.agents[k].phase, t.agents[k].phase)
  }

  ghost predicate PhaseMoves(from: Phase, to: Phase) {
    to == from || (!from.Worked? && !to.Worked? && !to.Listed? && !to.Emptied? && !(to.Answered? && to.goals.Some?))
  }

  lemma RestartMoves(s: System, boot: string)
    ensures MovesOn(s, RestartNext(s, boot))
  {
  }

  lemma BeginMoves(s: System, id: int, force: bool)
    requires id in s.agents
    ensures MovesOn(s, BeginNext(s, id, force))
  {
  }

  lemma ReadMoves(s: System, id: int)
    requires id in s.agents
    ensures MovesOn(s, ReadRevisionNext(s, id))
  {
  }

  lemma AdoptMoves(s: System, id: int)
    requires id in s.agents
    ensures MovesOn(s, AdoptNext(s, id))
  {
  }

  lemma PollMoves(s: System, fetched: Option<Fetched>)
    ensures MovesOn(s, PollNext(s, fetched))
  {
    hide Polled, SeenOf;
  }

  lemma StaysPut(s: System)
    ensures MovesOn(s, s)
  {
  }

  lemma QuietMoves(s: System, e: Event, hostsOf: HostsOf)
    requires e.Poll? || e.Restart? || e.Begin? || e.ReadRevision? || e.Adopt?
    ensures MovesOn(s, Next(s, e, hostsOf))
  {
    hide *;
    Adoption.NextUnfolds(s, e, hostsOf);
    match e
    case Poll(fetched) => PollMoves(s, fetched);
    case Restart(boot) => RestartMoves(s, boot);
    case Begin(id, force) => if id in s.agents { BeginMoves(s, id, force); } else { StaysPut(s); }
    case ReadRevision(id) => if id in s.agents { ReadMoves(s, id); } else { StaysPut(s); }
    case Adopt(id) => if id in s.agents { AdoptMoves(s, id); } else { StaysPut(s); }
    case _ =>
  }

  lemma GroundedStep(s: System, e: Event, hostsOf: HostsOf)
    requires Grounded(s) && Guarded(s, e)
    ensures Grounded(Next(s, e, hostsOf))
  {
    hide *;
    Adoption.NextUnfolds(s, e, hostsOf);
    GuardedUnfolds(s, e);
    if !(e.Write? || e.Poll? || e.Restart? || e.Join?) && e.agentId !in s.agents {
      return;
    }
    if e.Poll? || e.Restart? || e.Begin? || e.ReadRevision? || e.Adopt? {
      QuietMoves(s, e, hostsOf);
      GroundedSimple(s, Next(s, e, hostsOf));
      return;
    }
    match e
    case Write(op) => GroundedWrite(s, op);
    case Join(id, files) => if id !in s.agents { GroundedIdle(s, id, Agent(None, Idle, files)); }
    case LoadTables(id) => GroundedLoad(s, id, hostsOf);
    case Work(id, discovered, replies) => GroundedWork(s, id, discovered, replies);
    case Deliver(id) => GroundedDeliver(s, id);
    case ListManaged(id) => GroundedList(s, id);
    case ClearManaged(id, discovered, replies) => GroundedClear(s, id, discovered, replies);
    case Leave(id) => GroundedLeave(s, id);
    case Abandon(id) => GroundedIdle(s, id, s.agents[id].(phase := Idle));
    case AgentRestart(id) => GroundedIdle(s, id, Agent(None, Idle, s.agents[id].files));
    case Edit(id, p, text) => GroundedEdit(s, id, p, text);
  }

  lemma GroundedIdle(s: System, id: int, a: Agent)
    requires Grounded(s) && a.phase == Idle
    ensures Grounded(WithAgent(s, id, a))
  {
    hide RefsValid, Fit, Accepted;
  }

  lemma GroundedEdit(s: System, id: int, p: Pair, text: string)
    requires Grounded(s) && id in s.agents
    ensures Grounded(WithAgent(s, id, s.agents[id].(files := Put(s.agents[id].files, p, text))))
  {
    hide RefsValid, PhaseOk, Put;
  }

  lemma GroundedClear(s: System, id: int, discovered: seq<Discovered>, replies: Pair -> Reply)
    requires Grounded(s) && id in s.agents
    ensures Grounded(ClearManagedNext(s, id, discovered, replies))
  {
    hide RefsValid, Fit, Accepted, WorkOn;
  }

  lemma GuardedUnfolds(s: System, e: Event)
    requires Guarded(s, e)
    ensures e.Write? ==> GuardedWrite(s, e.op)
  {
  }

  // ----- Event by event, exactly where track is lost

  /** One agent moves, the server does not. */
  lemma OneAgentMoves(s: System, t: System, id: int)
    requires AllTracked(s) && t.db == s.db && id in t.agents
    requires t.agents.Keys == s.agents.Keys + {id} && forall k :: k in s.agents && k != id ==>
               t.agents[k] == s.agents[k]
    ensures AllTracked(t) <==> (id in t.db.agents ==> Tracked(t, id))
  {
    hide NoKeys, FileAt;
    forall k | k in t.agents && k != id && k in t.db.agents ensures Tracked(t, k) {
      assert Tracked(s, k);
    }
  }

  /** Files stay, rows stay, and no report is dropped. */
  lemma Calm(s: System, t: System)
    requires AllTracked(s) && t.agents.Keys == s.agents.Keys
    requires forall k :: k in s.agents ==>
               t.agents[k].files == s.agents[k].files && (t.agents[k].phase == s.agents[k].phase
                   || !s.agents[k].phase.Worked?)
    requires forall k :: k in s.agents && k in t.db.agents ==> k in s.db.agents
    requires forall k, r, u :: k in s.agents && k in t.db.agents && Row(k, r, u) in s.db.tables.managed ==>
               Row(k, r, u) in t.db.tables.managed
    ensures AllTracked(t)
  {
    hide NoKeys, FileAt;
    forall k | k in t.agents && k in t.db.agents ensures Tracked(t, k) {
      assert Tracked(s, k);
      forall p | KeysAt(t, k, p) ensures OnRecord(t, k, p) || Pending(t.agents[k].phase, p) {
        assert KeysAt(s, k, p);
      }
    }
  }

  lemma WriteExact(s: System, op: Op)
    requires Grounded(s) && AllTracked(s) && GuardedWrite(s, op)
    ensures AllTracked(s.(db := Do(s.db, op))) <==> !WriteLoses(s, op)
  {
    hide Do, PhaseOk, RefsValid, AllTracked, Unbacked, Rows, Mine;
    match op
    case OpRecord(id, r) => RecordExact(s, id, r);
    case OpRetire(id, cleared) => RetireExact(s, id, cleared);
    case _ =>
      GuardedRows(s, op);
      Calm(s, s.(db := Do(s.db, op)));
  }

  /** Agents other than the one named keep what they had. */
  lemma OthersTracked(s: System, t: System, id: int)
    requires AllTracked(s) && t.agents == s.agents && t.db.agents <= s.db.agents
    requires forall m :: m in s.db.tables.managed && m.agentId != id ==> m in t.db.tables.managed
    ensures AllTracked(t) <==> (id in t.agents && id in t.db.agents ==> Tracked(t, id))
  {
    hide NoKeys, FileAt;
    forall k | k in t.agents && k in t.db.agents && k != id ensures Tracked(t, k) {
      assert Tracked(s, k);
      forall p | KeysAt(t, k, p) ensures OnRecord(t, k, p) || Pending(t.agents[k].phase, p) {
        assert KeysAt(s, k, p);
      }
    }
  }

  /** Rows of cleared pairs go, the others stay: what is left untracked. */
  lemma OutOfTurn(s: System, t: System, id: int, cleared: seq<Pair>)
    requires AllTracked(s) && t.agents == s.agents && id in s.agents && id in s.db.agents
    requires forall p :: p in cleared ==> !OnRecord(t, id, p)
    requires forall p :: OnRecord(s, id, p) && p !in cleared ==> OnRecord(t, id, p)
    ensures Tracked(t, id) <==> !Unbacked(s, id, cleared)
  {
    hide NoKeys, FileAt, OnRecord;
    assert Tracked(s, id);
    forall p ensures KeysAt(t, id, p) <==> KeysAt(s, id, p) {
    }
    if Unbacked(s, id, cleared) {
      var p :| p in cleared && KeysAt(s, id, p) && !Pending(s.agents[id].phase, p);
      assert KeysAt(t, id, p) && !OnRecord(t, id, p);
    } else {
      forall p | KeysAt(t, id, p) ensures OnRecord(t, id, p) || Pending(t.agents[id].phase, p) {
        assert KeysAt(s, id, p);
      }
    }
  }

  lemma RecordExact(s: System, id: int, r: Report)
    requires AllTracked(s)
    ensures AllTracked(s.(db := Do(s.db, OpRecord(id, r)))) <==> !WriteLoses(s, OpRecord(id, r))
  {
    hide AllTracked, Record, Unbacked, Tracked, Rows;
    var t := s.(db := Do(s.db, OpRecord(id, r)));
    RecordOthers(s.db, id, r);
    OthersTracked(s, t, id);
    if id in s.agents && id in s.db.agents {
      RecordUnfolds(s.db, id, r);
      forall p
        ensures p in r.cleared ==> !OnRecord(t, id, p)
        ensures OnRecord(s, id, p) && p !in r.cleared ==> OnRecord(t, id, p)
      {
        RowOf(id, r.applied, p);
        RowOf(id, r.cleared, p);
      }
      OutOfTurn(s, t, id, r.cleared);
    }
  }

  lemma RetireExact(s: System, id: int, cleared: seq<Pair>)
    requires AllTracked(s)
    ensures AllTracked(s.(db := Do(s.db, OpRetire(id, cleared)))) <==> !WriteLoses(s, OpRetire(id, cleared))
  {
    hide AllTracked, RetireAgent, Unbacked, Tracked, Rows, Mine;
    var t := s.(db := Do(s.db, OpRetire(id, cleared)));
    RetireOthers(s.db, id, cleared);
    OthersTracked(s, t, id);
    if id in s.agents && id in s.db.agents {
      RetireUnfolds(s.db, id, cleared);
      forall p
        ensures p in cleared ==> !OnRecord(t, id, p)
        ensures OnRecord(s, id, p) && p !in cleared ==> OnRecord(t, id, p)
      {
        RowOf(id, cleared, p);
      }
      OutOfTurn(s, t, id, cleared);
    }
  }

  lemma QuietExact(s: System, e: Event, hostsOf: HostsOf)
    requires AllTracked(s) && (e.Poll? || e.Restart? || e.Begin? || e.ReadRevision? || e.Adopt?)
    ensures AllTracked(Next(s, e, hostsOf))
  {
    hide Next, AllTracked;
    QuietMoves(s, e, hostsOf);
    Calm(s, Next(s, e, hostsOf));
  }

  lemma LoadExact(s: System, id: int, hostsOf: HostsOf)
    requires AllTracked(s) && id in s.agents
    ensures AllTracked(LoadTablesNext(s, id, hostsOf))
  {
    hide GoalsOf, SeenOf, AllTracked;
    Calm(s, LoadTablesNext(s, id, hostsOf));
  }

  lemma ListExact(s: System, id: int)
    requires AllTracked(s) && id in s.agents
    ensures AllTracked(ListManagedNext(s, id))
  {
    hide AllTracked, Mine;
    Calm(s, ListManagedNext(s, id));
  }

  lemma WorkExact(s: System, id: int, discovered: seq<Discovered>, replies: Pair -> Reply)
    requires Grounded(s) && AllTracked(s) && id in s.agents
    ensures AllTracked(WorkNext(s, id, discovered, replies)) <==>
            !(id in s.db.agents && WorkStrands(s, id, discovered, replies))
  {
    hide NoKeys, FileAt, WorkOn, Strands, RefsValid, ValidRef, Sound, ValidUnixUser;
    var a, t := s.agents[id], WorkNext(s, id, discovered, replies);
    if a.phase.Answered? {
      OneAgentMoves(s, t, id);
      if a.phase.goals.Some? {
        assert PhaseOk(a.phase, id);
        forall p
          ensures KeysAt(t, id, p) && !KeysAt(s, id, p) && !Pending(t.agents[id].phase, p) <==>
                  Strands(a.phase.goals.value, Running(discovered), p, FileAt(a.files, p), replies(p))
        {
          WorkAt(a.files, a.phase.goals.value, discovered, replies, p);
        }
        WorkTracks(s, t, id, discovered, replies);
      } else {
        NoWork(a.files, discovered, replies);
        Calm(s, t);
      }
    }
  }

  lemma WorkTracks(s: System, t: System, id: int, discovered: seq<Discovered>, replies: Pair -> Reply)
    requires AllTracked(s) && id in s.agents && id in t.agents && t.db == s.db
    requires s.agents[id].phase.Answered? && s.agents[id].phase.goals.Some?
    requires var a := s.agents[id];
             forall p :: KeysAt(t, id, p) && !KeysAt(s, id, p) && !Pending(t.agents[id].phase, p) <==>
               Strands(a.phase.goals.value, Running(discovered), p, FileAt(a.files, p), replies(p))
    ensures (id in t.db.agents ==> Tracked(t, id)) <==> !(id in s.db.agents && WorkStrands(s, id, discovered, replies))
  {
    hide NoKeys, FileAt, Strands;
    var a := s.agents[id];
    if id in s.db.agents {
      assert Tracked(s, id);
      if WorkStrands(s, id, discovered, replies) {
        var p :| !OnRecord(s, id, p) && Strands(a.phase.goals.value, Running(discovered), p, FileAt(a.files, p),
            replies(p));
        assert KeysAt(t, id, p) && !OnRecord(t, id, p);
      } else {
        forall p | KeysAt(t, id, p) ensures OnRecord(t, id, p) || Pending(t.agents[id].phase, p) {
          assert KeysAt(s, id, p) ==> OnRecord(s, id, p);
          assert !Strands(a.phase.goals.value, Running(discovered), p, FileAt(a.files, p), replies(p))
              || OnRecord(s, id, p);
        }
      }
    }
  }

  /** Clearing never adds keys. */
  lemma ClearExact(s: System, id: int, discovered: seq<Discovered>, replies: Pair -> Reply)
    requires AllTracked(s) && id in s.agents
    ensures AllTracked(ClearManagedNext(s, id, discovered, replies))
  {
    hide NoKeys, FileAt, WorkOn;
    var a, t := s.agents[id], ClearManagedNext(s, id, discovered, replies);
    if a.phase.Listed? {
      Uninstall.LeaveSound(a.phase.rows);
      OneAgentMoves(s, t, id);
      if id in s.db.agents {
        assert Tracked(s, id);
        forall p | KeysAt(t, id, p) ensures OnRecord(t, id, p) {
          WorkAt(a.files, Uninstall.LeaveGoals(a.phase.rows), discovered, replies, p);
          assert KeysAt(s, id, p);
        }
      }
    }
  }

  lemma DeliverExact(s: System, id: int)
    requires Grounded(s) && AllTracked(s) && id in s.agents
    ensures AllTracked(DeliverNext(s, id)) <==> !Loses(s, Deliver(id))
  {
    hide RefsValid, NoKeys, FileAt, Record, Rows, Accepted;
    var a, t := s.agents[id], DeliverNext(s, id);
    if a.phase.Worked? && id in s.db.agents {
      var r := Checked(a.phase.report);
      RecordUnfolds(s.db, id, r);
      assert PhaseOk(a.phase, id);
      forall k | k in t.agents && k in t.db.agents && k != id ensures Tracked(t, k) {
        OthersStay(s, t, k, id, r);
      }
      forall p ensures OnRecord(t, id, p) <==>
          (OnRecord(s, id, p) || (p in a.phase.report.applied)) && !(p in a.phase.report.cleared && Accepted(p)) {
        RowOf(id, r.applied, p);
        RowOf(id, r.cleared, p);
        AcceptedMeans(a.phase.report.applied, p);
        AcceptedMeans(a.phase.report.cleared, p);
      }
      Recorded(s, t, id);
    } else if a.phase.Worked? {
      OneAgentMoves(s, t, id);
    }
  }

  lemma OthersStay(s: System, t: System, k: int, id: int, r: Report)
    requires AllTracked(s) && k != id && k in s.agents && k in t.agents && k in s.db.agents
               && t.agents[k] == s.agents[k]
    requires t.db.tables.managed == s.db.tables.managed + Rows(id, r.applied) - Rows(id, r.cleared)
    ensures Tracked(t, k)
  {
    hide NoKeys, FileAt, Rows;
    assert Tracked(s, k);
    forall p | KeysAt(t, k, p) ensures OnRecord(t, k, p) || Pending(t.agents[k].phase, p) {
      assert KeysAt(s, k, p);
      OthersRows(id, r.cleared, Row(k, p.ref, p.unixUser));
    }
  }

  lemma Recorded(s: System, t: System, id: int)
    requires AllTracked(s) && id in s.agents && id in s.db.agents && s.agents[id].phase.Worked?
    requires id in t.agents && t.agents[id].files == s.agents[id].files && t.agents[id].phase.Reported?
    requires var r := s.agents[id].phase.report;
             forall p :: OnRecord(t, id, p) <==>
                 (OnRecord(s, id, p) || p in r.applied) && !(p in r.cleared && Accepted(p))
    ensures Tracked(t, id) <==> !FalselyClear(s, id, s.agents[id].phase.report.cleared)
  {
    hide NoKeys, FileAt, Accepted, OnRecord;
    assert Tracked(s, id);
    forall p ensures KeysAt(t, id, p) <==> KeysAt(s, id, p) {
    }
    if FalselyClear(s, id, s.agents[id].phase.report.cleared) {
      var p :| p in s.agents[id].phase.report.cleared && Accepted(p) && KeysAt(s, id, p);
      assert KeysAt(t, id, p) && !OnRecord(t, id, p);
    } else {
      forall p | KeysAt(t, id, p) ensures OnRecord(t, id, p) {
        assert KeysAt(s, id, p);
      }
    }
  }

  lemma LeaveExact(s: System, id: int)
    requires Grounded(s) && AllTracked(s) && id in s.agents
    ensures AllTracked(LeaveNext(s, id)) <==> !Loses(s, Leave(id))
  {
    hide RefsValid, NoKeys, FileAt, RetireAgent, Rows, Accepted, Mine;
    var a, t := s.agents[id], LeaveNext(s, id);
    if a.phase.Emptied? && id in s.db.agents {
      var cleared := AcceptedPairs(a.phase.cleared);
      RetireUnfolds(s.db, id, cleared);
      AllRows(s.db.tables.managed, id, a.phase.cleared);
      NoRows(id);
      assert t.db.tables.managed == s.db.tables.managed + Rows(id, []) - Rows(id, cleared);
      forall k | k in t.agents && k in t.db.agents && k != id ensures Tracked(t, k) {
        OthersStay(s, t, k, id, Report([], cleared, []));
      }
      forall p ensures OnRecord(t, id, p) <==> OnRecord(s, id, p) && !(p in a.phase.cleared && Accepted(p)) {
        RowOf(id, cleared, p);
        AcceptedMeans(a.phase.cleared, p);
      }
      Retired(s, t, id);
    } else if a.phase.Emptied? {
      OneAgentMoves(s, t, id);
    }
  }

  lemma Retired(s: System, t: System, id: int)
    requires AllTracked(s) && id in s.agents && id in s.db.agents && s.agents[id].phase.Emptied?
    requires id in t.agents && t.agents[id].files == s.agents[id].files && t.agents[id].phase == Idle
    requires forall p :: OnRecord(t, id, p) <==> OnRecord(s, id, p) && !(p in s.agents[id].phase.cleared && Accepted(p))
    ensures Tracked(t, id) <==> !FalselyClear(s, id, s.agents[id].phase.cleared)
  {
    hide NoKeys, FileAt, Accepted, OnRecord;
    assert Tracked(s, id);
    forall p ensures KeysAt(t, id, p) <==> KeysAt(s, id, p) {
    }
    if FalselyClear(s, id, s.agents[id].phase.cleared) {
      var p :| p in s.agents[id].phase.cleared && Accepted(p) && KeysAt(s, id, p);
      assert KeysAt(t, id, p) && !OnRecord(t, id, p);
    } else {
      forall p | KeysAt(t, id, p) ensures OnRecord(t, id, p) {
        assert KeysAt(s, id, p);
      }
    }
  }

  lemma AllRows(managed: set<Row>, id: int, cleared: seq<Pair>)
    ensures Mine(managed, id) <= Rows(id, AcceptedPairs(cleared)) <==>
            forall ref, u :: Row(id, ref, u) in managed ==> Pair(ref, u) in cleared && Accepted(Pair(ref, u))
  {
    hide Accepted, Rows;
    forall ref, u ensures Row(id, ref, u) in Rows(id, AcceptedPairs(cleared)) <==>
        Pair(ref, u) in cleared && Accepted(Pair(ref, u)) {
      RowOf(id, AcceptedPairs(cleared), Pair(ref, u));
      AcceptedMeans(cleared, Pair(ref, u));
    }
    if forall ref, u :: Row(id, ref, u) in managed ==> Pair(ref, u) in cleared && Accepted(Pair(ref, u)) {
      forall m | m in Mine(managed, id) ensures m in Rows(id, AcceptedPairs(cleared)) {
        assert m == Row(id, m.targetRef, m.unixUser);
      }
    } else {
      var ref, u :| Row(id, ref, u) in managed && !(Pair(ref, u) in cleared && Accepted(Pair(ref, u)));
      assert Row(id, ref, u) in Mine(managed, id);
    }
  }

  lemma DropExact(s: System, id: int, a: Agent)
    requires AllTracked(s) && id in s.agents && a.files == s.agents[id].files && a.phase == Idle
    ensures AllTracked(WithAgent(s, id, a)) <==> !(id in s.db.agents && OnlyReported(s, id))
  {
    hide NoKeys, FileAt, OnRecord;
    var t := WithAgent(s, id, a);
    OneAgentMoves(s, t, id);
    forall p ensures KeysAt(t, id, p) <==> KeysAt(s, id, p) {
    }
    forall p ensures OnRecord(t, id, p) <==> OnRecord(s, id, p) {
      SameRecord(s, t, id, p);
    }
    if id in s.db.agents {
      assert Tracked(s, id);
      if OnlyReported(s, id) {
        var p :| p in s.agents[id].phase.report.applied && KeysAt(s, id, p) && !OnRecord(s, id, p);
        assert KeysAt(t, id, p) && !OnRecord(t, id, p);
      } else {
        forall p | KeysAt(t, id, p) ensures OnRecord(t, id, p) {
          assert KeysAt(s, id, p);
        }
      }
    }
  }

  lemma SameRecord(s: System, t: System, id: int, p: Pair)
    requires t.db == s.db
    ensures OnRecord(t, id, p) <==> OnRecord(s, id, p)
  {
  }

  lemma EditExact(s: System, id: int, p: Pair, text: string)
    requires AllTracked(s) && id in s.agents
    ensures AllTracked(WithAgent(s, id, s.agents[id].(files := Put(s.agents[id].files, p, text)))) <==>
              !Loses(s, Edit(id, p, text))
  {
    hide NoKeys;
    var a := s.agents[id];
    var t := WithAgent(s, id, a.(files := Put(a.files, p, text)));
    OneAgentMoves(s, t, id);
    assert KeysAt(t, id, p) <==> !NoKeys(text);
    if id in s.db.agents {
      assert Tracked(s, id);
      forall q | q != p && KeysAt(t, id, q) ensures OnRecord(t, id, q) || Pending(t.agents[id].phase, q) {
        assert KeysAt(s, id, q);
      }
    }
  }

  lemma JoinExact(s: System, id: int, files: Files)
    requires AllTracked(s) && id !in s.agents
    ensures AllTracked(WithAgent(s, id, Agent(None, Idle, files))) <==> !Loses(s, Join(id, files))
  {
    hide NoKeys, FileAt;
    var t := WithAgent(s, id, Agent(None, Idle, files));
    OneAgentMoves(s, t, id);
    forall p ensures KeysAt(t, id, p) <==> !NoKeys(FileAt(files, p)) {
    }
    if id in s.db.agents && Loses(s, Join(id, files)) {
      var p :| !NoKeys(FileAt(files, p)) && !OnRecord(s, id, p);
      assert KeysAt(t, id, p);
    }
  }

  /** Every other event keeps track. */
  lemma LosesUnfolds(s: System, e: Event)
    ensures !(e.Write? || e.Join? || e.Edit? || e.Work? || e.Deliver? || e.Leave? || e.Abandon? || e.AgentRestart?) ==>
              !Loses(s, e)
    ensures e.Write? ==> (Loses(s, e) <==> WriteLoses(s, e.op))
    ensures e.Join? && e.agentId in s.agents ==> !Loses(s, e)
    ensures !(e.Write? || e.Poll? || e.Restart? || e.Join?) && e.agentId !in s.agents ==> !Loses(s, e)
    ensures e.Work? && e.agentId in s.agents ==>
              (Loses(s, e) <==> e.agentId in s.db.agents && WorkStrands(s, e.agentId, e.discovered, e.replies))
    ensures (e.Abandon? || e.AgentRestart?) && e.agentId in s.agents ==>
              (Loses(s, e) <==> e.agentId in s.db.agents && OnlyReported(s, e.agentId))
  {
    hide WorkStrands, OnlyReported, FalselyClear, RowKept, NoKeys, WriteLoses;
  }

  /** From a state in which everything is tracked: track is lost exactly at the events that lose it. */
  lemma TrackStep(s: System, e: Event, hostsOf: HostsOf)
    requires Grounded(s) && AllTracked(s) && Guarded(s, e)
    ensures AllTracked(Next(s, e, hostsOf)) <==> !Loses(s, e)
  {
    hide *;
    Adoption.NextUnfolds(s, e, hostsOf);
    GuardedUnfolds(s, e);
    LosesUnfolds(s, e);
    if !(e.Write? || e.Poll? || e.Restart? || e.Join?) && e.agentId !in s.agents {
      return;
    }
    if e.Poll? || e.Restart? || e.Begin? || e.ReadRevision? || e.Adopt? {
      QuietExact(s, e, hostsOf);
      return;
    }
    match e
    case Write(op) => WriteExact(s, op);
    case Join(id, files) => if id !in s.agents { JoinExact(s, id, files); }
    case LoadTables(id) => LoadExact(s, id, hostsOf);
    case Work(id, discovered, replies) => WorkExact(s, id, discovered, replies);
    case Deliver(id) => DeliverExact(s, id);
    case ListManaged(id) => ListExact(s, id);
    case ClearManaged(id, discovered, replies) => ClearExact(s, id, discovered, replies);
    case Leave(id) => LeaveExact(s, id);
    case Abandon(id) => DropExact(s, id, s.agents[id].(phase := Idle));
    case AgentRestart(id) => DropExact(s, id, Agent(None, Idle, s.agents[id].files));
    case Edit(id, p, text) => EditExact(s, id, p, text);
  }

  // ----- What is spared

  /** An agent at work on these goals spares some pair. */
  ghost predicate SparesSome(a: Agent, goals: GoalMap, discovered: seq<Discovered>, replies: Pair -> Reply) {
    exists p :: Spares(goals, Running(discovered), p, FileAt(a.files, p), replies(p))
  }

  lemma SparedIsFalse(s: System, t: System, id: int, goals: GoalMap, discovered: seq<Discovered>,
      replies: Pair -> Reply, cleared: seq<Pair>)
    requires id in s.agents && id in t.agents && Sound(goals) && forall ref :: ref in goals ==> ValidRef(ref)
    requires var (end, report, _) := WorkOn(s.agents[id].files, Some(goals), discovered, replies);
             t.agents[id].files == end && report.cleared == cleared
    ensures FalselyClear(t, id, cleared) <==> SparesSome(s.agents[id], goals, discovered, replies)
  {
    hide NoKeys, FileAt, WorkOn, Spares, ValidRef, Sound, ValidUnixUser;
    var a := s.agents[id];
    forall p
      ensures p in cleared && KeysAt(t, id, p) <==>
              Spares(goals, Running(discovered), p, FileAt(a.files, p), replies(p))
      ensures p in cleared ==> Accepted(p)
    {
      ClearedAt(a.files, goals, discovered, replies, p);
    }
    if SparesSome(a, goals, discovered, replies) {
      var p :| Spares(goals, Running(discovered), p, FileAt(a.files, p), replies(p));
      assert p in cleared && KeysAt(t, id, p);
    }
  }

  /** After a leaving agent has cleared: a pair it names still holds keys exactly when the host spared one. */
  lemma LeavingSpares(s: System, id: int, discovered: seq<Discovered>, replies: Pair -> Reply)
    requires Grounded(s) && id in s.agents && s.agents[id].phase.Listed?
    ensures var t := ClearManagedNext(s, id, discovered, replies);
            t.agents[id].phase.Emptied? &&
            (FalselyClear(t, id, t.agents[id].phase.cleared) <==>
               SparesSome(s.agents[id], Uninstall.LeaveGoals(s.agents[id].phase.rows), discovered, replies))
  {
    hide WorkOn, FalselyClear, SparesSome, ValidRef, RefsValid, Sound;
    var t, rows := ClearManagedNext(s, id, discovered, replies), s.agents[id].phase.rows;
    assert PhaseOk(s.agents[id].phase, id);
    Uninstall.LeaveSound(rows);
    SparedIsFalse(s, t, id, Uninstall.LeaveGoals(rows), discovered, replies, t.agents[id].phase.cleared);
  }

  /** The same for the report of an ordinary cycle. */
  lemma WorkSpares(s: System, id: int, discovered: seq<Discovered>, replies: Pair -> Reply)
    requires Grounded(s) && id in s.agents && s.agents[id].phase.Answered? && s.agents[id].phase.goals.Some?
    ensures var t := WorkNext(s, id, discovered, replies);
            t.agents[id].phase.Worked? &&
            (FalselyClear(t, id, t.agents[id].phase.report.cleared) <==>
               SparesSome(s.agents[id], s.agents[id].phase.goals.value, discovered, replies))
  {
    hide WorkOn, FalselyClear, SparesSome, ValidRef, RefsValid, Sound;
    var t := WorkNext(s, id, discovered, replies);
    assert PhaseOk(s.agents[id].phase, id);
    SparedIsFalse(s, t, id, s.agents[id].phase.goals.value, discovered, replies, t.agents[id].phase.report.cleared);
  }

  // ----- Leaving

  /**
   What the server makes of an uninstall: it deletes the agent exactly when every row it has for
   it is named as cleared; and then no file the agent reaches holds keys in a block, unless one it
   named as cleared does.
   */
  ghost predicate LeavesNothing(t: System, id: int)
    requires id in t.agents && t.agents[id].phase.Emptied?
  {
    var after := LeaveNext(t, id);
    && (id !in after.db.agents <==> !RowKept(t, id, t.agents[id].phase.cleared))
    && (id !in after.db.agents ==>
          ((forall p :: NoKeys(FileAt(after.agents[id].files, p))) <==>
              !FalselyClear(t, id, t.agents[id].phase.cleared)))
  }

  lemma LeavingStep(t: System, id: int)
    requires AllTracked(t) && id in t.agents && id in t.db.agents && t.agents[id].phase.Emptied?
    ensures LeavesNothing(t, id)
  {
    hide RefsValid, NoKeys, FileAt, RetireAgent, Accepted, Rows, Mine;
    var cleared := AcceptedPairs(t.agents[id].phase.cleared);
    RetireUnfolds(t.db, id, cleared);
    AllRows(t.db.tables.managed, id, t.agents[id].phase.cleared);
    if !RowKept(t, id, t.agents[id].phase.cleared) {
      AllCleared(t, id);
    }
  }

  lemma AllCleared(t: System, id: int)
    requires AllTracked(t) && id in t.agents && id in t.db.agents && t.agents[id].phase.Emptied?
    requires !RowKept(t, id, t.agents[id].phase.cleared)
    ensures (forall p :: NoKeys(FileAt(t.agents[id].files, p))) <==> !FalselyClear(t, id, t.agents[id].phase.cleared)
  {
    hide NoKeys, FileAt, Accepted;
    assert Tracked(t, id);
    if !FalselyClear(t, id, t.agents[id].phase.cleared) {
      forall p ensures NoKeys(FileAt(t.agents[id].files, p)) {
        assert Pair(p.ref, p.unixUser) == p;
        assert KeysAt(t, id, p) ==> OnRecord(t, id, p);
      }
    } else {
      var p :| p in t.agents[id].phase.cleared && Accepted(p) && KeysAt(t, id, p);
      assert !NoKeys(FileAt(t.agents[id].files, p));
    }
  }

  /**
   An uninstall from start to end: if the server deletes the agent, no file it reaches holds keys,
   unless the host spared a pair of it.
   */
  lemma ClearThenLeave(s: System, id: int, discovered: seq<Discovered>, replies: Pair -> Reply)
    requires Grounded(s) && AllTracked(s) && id in s.agents && id in s.db.agents && s.agents[id].phase.Listed?
    ensures var after := LeaveNext(ClearManagedNext(s, id, discovered, replies), id);
            id !in after.db.agents ==>
              ((forall p :: NoKeys(FileAt(after.agents[id].files, p))) <==>
                 !SparesSome(s.agents[id], Uninstall.LeaveGoals(s.agents[id].phase.rows), discovered, replies))
  {
    hide *;
    ClearExact(s, id, discovered, replies);
    LeavingSpares(s, id, discovered, replies);
    var t := ClearManagedNext(s, id, discovered, replies);
    StillRegistered(s, id, discovered, replies);
    LeavingStep(t, id);
    LeavesUnfolds(t, id);
  }

  lemma StillRegistered(s: System, id: int, discovered: seq<Discovered>, replies: Pair -> Reply)
    requires id in s.agents
    ensures ClearManagedNext(s, id, discovered, replies).db == s.db
  {
    hide WorkOn;
  }

  lemma LeavesUnfolds(t: System, id: int)
    requires id in t.agents && t.agents[id].phase.Emptied? && LeavesNothing(t, id)
    ensures id !in LeaveNext(t, id).db.agents <==> !RowKept(t, id, t.agents[id].phase.cleared)
    ensures id !in LeaveNext(t, id).db.agents ==>
              ((forall p :: NoKeys(FileAt(LeaveNext(t, id).agents[id].files, p))) <==>
                 !FalselyClear(t, id, t.agents[id].phase.cleared))
  {
    hide LeaveNext, RowKept, FalselyClear, NoKeys, FileAt;
  }

  // ----- Inputs

  const KEY := "ssh-dss A"
  const ROOT := Pair("105", "root")

  /** One target, one user, one key. */
  const ONE_GOAL: GoalMap := map["105" := Goal("", "web", map["root" := [KEY]], multiset{})]

  const ONE_TARGET := [Discovered("105", "web", ["100.64.0.5"])]

  function Answering(write: Apply.Write): Pair -> Reply {
    p => Reply(Found, Gone, true, write)
  }

  /** Agent 1 has the answer in hand; nothing is on record and no file holds keys. */
  ghost function InHandOnly(): System {
    System(
      Db(3, {1}, 0, Tables([], {}, map[], {})), Watch(None, false), "a", {"a"}, map[],
      map[1 := Agent(None, Answered(ETag(3, 1, "a"), Some(ONE_GOAL)), map[])], {}, {})
  }

  lemma {:induction false} NoSpaceKept(start: string, rest: string)
    requires ' ' !in start
    ensures BeforeSpace(start + rest) == start + BeforeSpace(rest)
  {
    if start == "" {
      assert start + rest == rest;
    } else {
      NoSpaceKept(start[1..], rest);
      assert (start + rest)[1..] == start[1..] + rest;
    }
  }

  lemma KeyIsSafe()
    ensures SafeLines([KEY])
  {
    NoSpaceKept("ssh-", "dss A");
    assert "ssh-" + "dss A" == KEY;
  }

  lemma EmptyHasNone()
    ensures Parse("") == NoBlock && NoKeys("")
  {
  }

  lemma InHandTracked()
    ensures Grounded(InHandOnly()) && AllTracked(InHandOnly())
  {
    EmptyHasNone();
    hide NoKeys;
    assert ValidRef("105");
  }

  lemma OneProceeds()
    ensures GoalGate(ONE_GOAL, Running(ONE_TARGET), "105") == Proceed
  {
    assert ONE_TARGET[..0] == [];
    assert Running(ONE_TARGET) == map["105" := ONE_TARGET[0]];
  }

  /** A write that fails after its rename leaves keys that nobody knows of. */
  lemma FailureStrands(hostsOf: HostsOf)
    ensures AllTracked(InHandOnly())
    ensures !AllTracked(Next(InHandOnly(), Work(1, ONE_TARGET, Answering(WrittenThenFailed)), hostsOf))
  {
    hide Next, AllTracked, Grounded, GoalGate, SafeLines, NoKeys, Running;
    var s, e := InHandOnly(), Work(1, ONE_TARGET, Answering(WrittenThenFailed));
    InHandTracked();
    KeyIsSafe();
    EmptyHasNone();
    OneProceeds();
    assert !OnRecord(s, 1, ROOT);
    assert Strands(ONE_GOAL, Running(ONE_TARGET), ROOT, FileAt(map[], ROOT), e.replies(ROOT));
    assert WorkStrands(s, 1, ONE_TARGET, e.replies);
    TrackStep(s, e, hostsOf);
  }

  /** So does a write that succeeds, when its report never arrives. */
  lemma LostReport(hostsOf: HostsOf)
    ensures var t := Next(InHandOnly(), Work(1, ONE_TARGET, Answering(Written)), hostsOf);
            && AllTracked(t) && ROOT in t.agents[1].phase.report.applied
            && !AllTracked(Next(t, Abandon(1), hostsOf))
  {
    hide Next, AllTracked, Grounded, GoalGate, SafeLines, NoKeys, Running, WorkOn;
    var s, e := InHandOnly(), Work(1, ONE_TARGET, Answering(Written));
    InHandTracked();
    Adoption.NextUnfolds(s, e, hostsOf);
    GroundedStep(s, e, hostsOf);
    TrackStep(s, e, hostsOf);
    var t := Next(s, e, hostsOf);
    WrittenOnce(e.replies);
    assert OnlyReported(t, 1);
    TrackStep(t, Abandon(1), hostsOf);
  }

  lemma WrittenOnce(replies: Pair -> Reply)
    requires replies == Answering(Written)
    ensures var (files, report, _) := WorkOn(map[], Some(ONE_GOAL), ONE_TARGET, replies);
            ROOT in report.applied && !NoKeys(FileAt(files, ROOT))
  {
    hide Run, Apply.Work, GoalGate, RewriteFile, Parse, Lists, Managing, SafeLines, Running;
    var running := Running(ONE_TARGET);
    KeyIsSafe();
    OneProceeds();
    ApplyMeans(ListOf(ONE_GOAL), ONE_GOAL, running, map[], replies);
    assert PairDone(Run(map[], Apply.Work(ListOf(ONE_GOAL), running), replies), ONE_GOAL, running, map[], replies,
        ROOT);
    FirstWrite(replies(ROOT));
    PairHolds(ONE_GOAL, running, ROOT, FileAt(map[], ROOT), replies(ROOT));
  }

  lemma FirstWrite(reply: Reply)
    requires reply == Reply(Found, Gone, true, Written)
    ensures RewriteFile("", [KEY], false, reply).1
  {
    EmptyHasNone();
  }

  // ----- A user reported gone

  /** The block is there, and no such user any more; its home was elsewhere, so nothing is found under /home. */
  ghost function RootGone(): Pair -> Reply {
    p => Reply(NoSuchUser, Gone, true, Written)
  }

  ghost function KeyFile(): string {
    match Block.Replace("", [KEY]) case Ok(text) => text case Err(_) => ""
  }

  lemma KeyFileHas()
    ensures !NoKeys(KeyFile())
  {
    hide Managing, Outside, Terminated;
    EmptyHasNone();
    KeyIsSafe();
    SafeIsPlain([KEY]);
    Rewritten("", [KEY]);
  }

  ghost function RootHeld(phase: Phase): System {
    System(
      Db(3, {1}, 0, Tables([], {}, map[], {Row(1, "105", "root")})), Watch(None, false), "a", {"a"}, map[],
      map[1 := Agent(None, phase, map[ROOT := KeyFile()])], {}, {})
  }

  const CLEAR_ROOT: GoalMap := map["105" := Goal("", "", map[], multiset{"root"})]

  lemma RootHeldTracked(phase: Phase)
    requires phase == Answered(ETag(3, 1, "a"), Some(CLEAR_ROOT)) || phase == Listed({Row(1, "105", "root")})
    ensures Grounded(RootHeld(phase)) && AllTracked(RootHeld(phase))
  {
    EmptyHasNone();
    hide NoKeys;
    assert ValidRef("105");
    forall p | KeysAt(RootHeld(phase), 1, p) ensures OnRecord(RootHeld(phase), 1, p) {
      assert p == ROOT;
    }
  }

  lemma LeaveRoot()
    ensures Uninstall.LeaveGoals({Row(1, "105", "root")}) == CLEAR_ROOT
  {
    var rows := {Row(1, "105", "root")};
    assert Row(1, "105", "root") in rows;
    assert Uninstall.RefsOf(rows) == {"105"};
    assert Uninstall.UsersOn(rows, "105") == {"root"};
    var users: set<string> := {"root"};
    assert multiset(users) == multiset{"root"};
    var goals := Uninstall.LeaveGoals(rows);
    assert goals.Keys == CLEAR_ROOT.Keys;
    assert goals["105"] == Goal("", "", map[], multiset{"root"});
  }

  lemma RootSpared(replies: Pair -> Reply)
    requires replies == RootGone()
    ensures Spares(CLEAR_ROOT, Running(ONE_TARGET), ROOT, KeyFile(), replies(ROOT))
  {
    hide NoKeys, KeyFile;
    KeyFileHas();
    assert ONE_TARGET[..0] == [];
    assert Running(ONE_TARGET) == map["105" := ONE_TARGET[0]];
  }

  /** Recording that report drops the row, and the keys stay. */
  lemma GoneStrands(hostsOf: HostsOf)
    ensures var s := RootHeld(Answered(ETag(3, 1, "a"), Some(CLEAR_ROOT)));
            var t := Next(s, Work(1, ONE_TARGET, RootGone()), hostsOf);
            AllTracked(t) && !AllTracked(Next(t, Deliver(1), hostsOf))
  {
    hide Next, AllTracked, Grounded, Spares, Running, WorkOn, FileAt, KeyFile, Strands, FalselyClear;
    var s, e := RootHeld(Answered(ETag(3, 1, "a"), Some(CLEAR_ROOT))), Work(1, ONE_TARGET, RootGone());
    RootHeldTracked(s.agents[1].phase);
    Adoption.NextUnfolds(s, e, hostsOf);
    GroundedStep(s, e, hostsOf);
    NoWrites(s, e.discovered, e.replies);
    TrackStep(s, e, hostsOf);
    var t := Next(s, e, hostsOf);
    RootSpared(e.replies);
    RootFile(s);
    assert SparesSome(s.agents[1], CLEAR_ROOT, ONE_TARGET, e.replies);
    WorkSpares(s, 1, ONE_TARGET, e.replies);
    TrackStep(t, Deliver(1), hostsOf);
  }

  lemma RootFile(s: System)
    requires 1 in s.agents && s.agents[1].files == map[ROOT := KeyFile()]
    ensures FileAt(s.agents[1].files, ROOT) == KeyFile()
  {
  }

  lemma NoWrites(s: System, discovered: seq<Discovered>, replies: Pair -> Reply)
    requires 1 in s.agents && s.agents[1].phase == Answered(ETag(3, 1, "a"), Some(CLEAR_ROOT))
    ensures !WorkStrands(s, 1, discovered, replies)
  {
    hide NoKeys, FileAt, GoalGate, SafeLines;
  }

  /** An uninstall after which the server has deleted the agent, and the keys stay. */
  lemma RetiredWithKeys()
    ensures var s := RootHeld(Listed({Row(1, "105", "root")}));
            var after := LeaveNext(ClearManagedNext(s, 1, ONE_TARGET, RootGone()), 1);
            && AllTracked(s) && 1 !in after.db.agents
            && exists p :: !NoKeys(FileAt(after.agents[1].files, p))
  {
    hide AllTracked, Grounded, Spares, Running, WorkOn, FileAt, KeyFile, LeaveNext, NoKeys, SparesSome, FalselyClear;
    var rows := {Row(1, "105", "root")};
    var s := RootHeld(Listed(rows));
    RootHeldTracked(s.agents[1].phase);
    LeaveRoot();
    RootSpared(RootGone());
    RootFile(s);
    SomeSpared(s.agents[1], CLEAR_ROOT, ONE_TARGET, RootGone(), ROOT);
    ClearedAt(s.agents[1].files, CLEAR_ROOT, ONE_TARGET, RootGone(), ROOT);
    var t := ClearManagedNext(s, 1, ONE_TARGET, RootGone());
    StillRegistered(s, 1, ONE_TARGET, RootGone());
    assert ROOT in t.agents[1].phase.cleared;
    OnlyRoot(t);
    ClearExact(s, 1, ONE_TARGET, RootGone());
    LeavingStep(t, 1);
    LeavesUnfolds(t, 1);
    ClearThenLeave(s, 1, ONE_TARGET, RootGone());
  }

  lemma SomeSpared(a: Agent, goals: GoalMap, discovered: seq<Discovered>, replies: Pair -> Reply, p: Pair)
    requires Spares(goals, Running(discovered), p, FileAt(a.files, p), replies(p))
    ensures SparesSome(a, goals, discovered, replies)
  {
  }

  lemma OnlyRoot(t: System)
    requires t.db.tables.managed == {Row(1, "105", "root")} && 1 in t.agents && t.agents[1].phase.Emptied?
    requires ROOT in t.agents[1].phase.cleared
    ensures !RowKept(t, 1, t.agents[1].phase.cleared)
  {
    assert ValidRef("105");
  }
}
