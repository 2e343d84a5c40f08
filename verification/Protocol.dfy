/**
 The sync protocol as one machine: the server's tables and snapshots, requests in flight, and the
 agents with their files (internal/api/ssh_agent_sync.go, internal/agent/loop.go, and what they call).
 */
module Protocol {
  import opened Common
  import opened Desired
  import opened Store
  import opened Snapshot
  import opened SyncApi
  import opened Apply
  import Uninstall = Retire

  type GoalMap = map<string, Goal>

  /**
   One cycle of Loop.Once, cut where others may run in between. The handler takes the snapshot,
   then reads the revision, then the tables; the agent works, reports, and only then adopts a tag.
   An uninstall lists what is on record, clears it, and asks to be deleted.
   */
  datatype Phase =
    | Idle
    | Snapped(ask: Option<ETag>, snap: Snap)
    | Tagged(snap: Snap, tag: ETag)
    | Answered(tag: ETag, goals: Option<GoalMap>)
    | Worked(tag: ETag, goals: Option<GoalMap>, report: Report, clean: bool)
    | Reported(tag: ETag, goals: Option<GoalMap>, clean: bool)
    | Listed(rows: set<Row>)
    | Emptied(cleared: seq<Pair>)

  datatype Agent = Agent(tag: Option<ETag>, phase: Phase, files: Files)

  /** History: an answer given to an agent under a tag. */
  datatype Served = Served(agentId: int, tag: ETag, goals: GoalMap)

  /** History: an answer an agent carried out without a warning, with what its recorded report named. */
  datatype Done = Done(agentId: int, tag: ETag, goals: GoalMap, report: Report)

  datatype System = System(
    db: Db, watch: Watch, boot: string, boots: set<string>, installed: map<nat, Seen>,
    agents: map<int, Agent>, served: set<Served>, done: set<Done>)

  datatype Event =
    | Write(op: Op)
    | Poll(fetched: Option<Fetched>)
    | Restart(boot: string)
    | Begin(agentId: int, force: bool)
    | ReadRevision(agentId: int)
    | LoadTables(agentId: int)
    | Work(agentId: int, discovered: seq<Discovered>, replies: Pair -> Reply)
    | Deliver(agentId: int)
    | Adopt(agentId: int)
    | ListManaged(agentId: int)
    | ClearManaged(agentId: int, discovered: seq<Discovered>, replies: Pair -> Reply)
    | Leave(agentId: int)
    | Abandon(agentId: int)
    | AgentRestart(agentId: int)
    | Edit(agentId: int, pair: Pair, text: string)
    | Join(agentId: int, files: Files)

  ghost function TagOf(s: System, snap: Snap): ETag {
    ETag(s.db.rev, snap.revision, s.boot)
  }

  ghost function WithAgent(s: System, id: int, a: Agent): System {
    s.(agents := s.agents[id := a])
  }

  ghost function ReportOf(o: Outcomes): Report {
    Report(o.applied, o.cleared, o.mismatched)
  }

  /** What Apply makes of an answer: the files, the report, and whether there was no warning. A 304 gives no work. */
  ghost function WorkOn(files: Files, goals: Option<GoalMap>, discovered: seq<Discovered>,
      replies: Pair -> Reply): (Files, Report, bool) {
    match goals
    case None => (files, Report([], [], []), true)
    case Some(g) =>
      var end := Run(files, Apply.Work(ListOf(g), Running(discovered)), replies);
      (end.files, ReportOf(end.report), end.report.warnings == [])
  }

  // ----- The events, one function each; an event that does not apply changes nothing

  ghost function PollNext(s: System, fetched: Option<Fetched>): System {
    var w := Polled(s.watch, fetched);
    s.(watch := w, installed := if w.snap.Some?
        then s.installed[w.snap.value.revision := SeenOf(w.snap.value.content)] else s.installed)
  }

  ghost function DropRequests(agents: map<int, Agent>): map<int, Agent> {
    map id <- agents :: if agents[id].phase.Snapped? || agents[id].phase.Tagged? then agents[id].(phase := Idle)
        else agents[id]
  }

  /** A new server process: no snapshot yet, a boot id never used before, requests in flight lost. */
  ghost function RestartNext(s: System, boot: string): System {
    if boot in s.boots then s
    else s.(watch := Watch(None, false), boot := boot, boots := s.boots + {boot}, installed := map[],
        agents := DropRequests(s.agents))
  }

  ghost function BeginNext(s: System, id: int, force: bool): (t: System)
    requires id in s.agents
    ensures id in t.agents && t.watch == s.watch && t.boot == s.boot
  {
    var a := s.agents[id];
    if a.phase != Idle || id !in s.db.agents || s.watch.snap.None? || s.watch.failed then s
    else WithAgent(s, id, a.(phase := Snapped(if force then None else a.tag, s.watch.snap.value)))
  }

  ghost function ReadRevisionNext(s: System, id: int): (t: System)
    requires id in s.agents
    ensures id in t.agents && t.watch == s.watch && t.boot == s.boot
  {
    var a := s.agents[id];
    if !a.phase.Snapped? then s
    else
      var tag := TagOf(s, a.phase.snap);
      WithAgent(s, id, a.(phase := if a.phase.ask == Some(tag) then Answered(tag, None) else Tagged(a.phase.snap, tag)))
  }

  ghost function LoadTablesNext(s: System, id: int, hostsOf: HostsOf): (t: System)
    requires id in s.agents
    ensures id in t.agents && t.watch == s.watch && t.boot == s.boot
  {
    var a := s.agents[id];
    if !a.phase.Tagged? then s
    else
      match GoalsOf(s.db.tables, SeenOf(a.phase.snap.content), hostsOf, id)
      case None => WithAgent(s, id, a.(phase := Idle))
      case Some(goals) =>
        WithAgent(s, id, a.(phase := Answered(a.phase.tag, Some(goals)))).(served := s.served +
            {Served(id, a.phase.tag, goals)})
  }

  ghost function WorkNext(s: System, id: int, discovered: seq<Discovered>, replies: Pair -> Reply): (t: System)
    requires id in s.agents
    ensures id in t.agents && t.watch == s.watch && t.boot == s.boot
  {
    var a := s.agents[id];
    if !a.phase.Answered? then s
    else
      var (files, report, clean) := WorkOn(a.files, a.phase.goals, discovered, replies);
      WithAgent(s, id, a.(files := files, phase := Worked(a.phase.tag, a.phase.goals, report, clean)))
  }

  /** The report reaches the server, which records it or fails. */
  ghost function DeliverNext(s: System, id: int): (t: System)
    requires id in s.agents
    ensures id in t.agents && t.watch == s.watch && t.boot == s.boot
  {
    var a := s.agents[id];
    if !a.phase.Worked? then s
    else if id !in s.db.agents then WithAgent(s, id, a.(phase := Idle))
    else
      match Record(s.db, id, Checked(a.phase.report))
      case Err(_) => WithAgent(s, id, a.(phase := Idle))
      case Ok(db) =>
        var news := if a.phase.clean && a.phase.goals.Some?
            then {Done(id, a.phase.tag, a.phase.goals.value, a.phase.report)} else {};
        WithAgent(s, id, a.(phase := Reported(a.phase.tag, a.phase.goals, a.phase.clean))).(db := db,
            done := s.done + news)
  }

  /** The end of Once: the new tag is adopted only when nothing was skipped. */
  ghost function AdoptNext(s: System, id: int): (t: System)
    requires id in s.agents
    ensures id in t.agents && t.watch == s.watch && t.boot == s.boot
  {
    var a := s.agents[id];
    if !a.phase.Reported? then s
    else WithAgent(s, id, a.(phase := Idle, tag := if a.phase.clean then Some(a.phase.tag) else a.tag))
  }

  ghost function ListManagedNext(s: System, id: int): (t: System)
    requires id in s.agents
    ensures id in t.agents && t.watch == s.watch && t.boot == s.boot
  {
    var a := s.agents[id];
    if a.phase != Idle || id !in s.db.agents then s
    else WithAgent(s, id, a.(phase := Listed(Mine(s.db.tables.managed, id))))
  }

  ghost function ClearManagedNext(s: System, id: int, discovered: seq<Discovered>, replies: Pair -> Reply): (t: System)
    requires id in s.agents
    ensures id in t.agents && t.watch == s.watch && t.boot == s.boot
  {
    var a := s.agents[id];
    if !a.phase.Listed? then s
    else
      var (files, report, _) := WorkOn(a.files, Some(Uninstall.LeaveGoals(a.phase.rows)), discovered, replies);
      WithAgent(s, id, a.(files := files, phase := Emptied(report.cleared)))
  }

  /** The server deletes the agent if nothing it wrote is left on record. */
  ghost function LeaveNext(s: System, id: int): (t: System)
    requires id in s.agents
    ensures id in t.agents && t.watch == s.watch && t.boot == s.boot
  {
    var a := s.agents[id];
    if !a.phase.Emptied? then s
    else if id !in s.db.agents then WithAgent(s, id, a.(phase := Idle))
    else WithAgent(s.(db := OrSameLeft(s.db, RetireAgent(s.db, id, AcceptedPairs(a.phase.cleared)))), id,
        a.(phase := Idle))
  }

  ghost function Next(s: System, e: Event, hostsOf: HostsOf): System {
    if !(e.Write? || e.Poll? || e.Restart? || e.Join?) && e.agentId !in s.agents then s
    else
      match e
      case Write(op) => s.(db := Do(s.db, op))
      case Poll(fetched) => PollNext(s, fetched)
      case Restart(boot) => RestartNext(s, boot)
      case Join(id, files) => if id in s.agents then s else WithAgent(s, id, Agent(None, Idle, files))
      case Begin(id, force) => BeginNext(s, id, force)
      case ReadRevision(id) => ReadRevisionNext(s, id)
      case LoadTables(id) => LoadTablesNext(s, id, hostsOf)
      case Work(id, discovered, replies) => WorkNext(s, id, discovered, replies)
      case Deliver(id) => DeliverNext(s, id)
      case Adopt(id) => AdoptNext(s, id)
      case ListManaged(id) => ListManagedNext(s, id)
      case ClearManaged(id, discovered, replies) => ClearManagedNext(s, id, discovered, replies)
      case Leave(id) => LeaveNext(s, id)
      case Abandon(id) => WithAgent(s, id, s.agents[id].(phase := Idle))
      case AgentRestart(id) => WithAgent(s, id, Agent(None, Idle, s.agents[id].files))
      case Edit(id, pair, text) => WithAgent(s, id, s.agents[id].(files := Put(s.agents[id].files, pair, text)))
  }

  ghost function Play(s: System, events: seq<Event>, hostsOf: HostsOf): System {
    if events == [] then s
    else Next(Play(s, events[..|events| - 1], hostsOf), events[|events| - 1], hostsOf)
  }

  /**
   When nothing is answered: a request gets in only from a registered agent, while the last poll succeeded; one
   whose answer makes no sense ends; and an agent the server no longer knows changes nothing there.
   */
  lemma Refusals(s: System, id: int, force: bool, hostsOf: HostsOf)
    requires id in s.agents
    ensures var idle := s.(agents := s.agents[id := s.agents[id].(phase := Idle)]);
            && (BeginNext(s, id, force) != s ==>
                  s.agents[id].phase == Idle && id in s.db.agents && s.watch.snap.Some? && !s.watch.failed)
            && (s.agents[id].phase.Tagged?
                && GoalsOf(s.db.tables, SeenOf(s.agents[id].phase.snap.content), hostsOf, id).None? ==>
                  LoadTablesNext(s, id, hostsOf) == idle)
            && (id !in s.db.agents ==>
                  && ListManagedNext(s, id) == s
                  && (s.agents[id].phase.Worked? ==> DeliverNext(s, id) == idle)
                  && (s.agents[id].phase.Emptied? ==> LeaveNext(s, id) == idle))
  {
    hide GoalsOf, Record, RetireAgent;
  }

  /** A server that has served nobody yet. */
  ghost predicate Start(s: System) {
    && s.watch == Watch(None, false) && s.boots == {s.boot} && s.installed == map[]
    && s.agents == map[] && s.served == {} && s.done == {}
    && Valid(s.db)
  }

  // ----- 304

  /** The snapshot of a request is one this process installed. */
  ghost predicate KnownSnap(s: System, snap: Snap) {
    snap.revision in s.installed && s.installed[snap.revision] == SeenOf(snap.content)
  }

  /** A tag of this process never runs ahead of the tables or of the snapshots. */
  ghost predicate KnownTag(s: System, tag: ETag) {
    tag.boot in s.boots && (tag.boot == s.boot ==> tag.rev <= s.db.rev && tag.snapRev in s.installed)
  }

  /** A tag that is still current was served with what the tables hold now. */
  ghost predicate FreshAnswer(s: System, v: Served, hostsOf: HostsOf) {
    && KnownTag(s, v.tag)
    && (v.tag.boot == s.boot && v.tag.rev == s.db.rev ==>
          GoalsOf(s.db.tables, s.installed[v.tag.snapRev], hostsOf, v.agentId) == Some(v.goals))
  }

  ghost predicate KnownPhase(s: System, p: Phase) {
    match p
    case Snapped(_, snap) => KnownSnap(s, snap)
    case Tagged(snap, tag) => KnownSnap(s, snap) && KnownTag(s, tag) && tag.snapRev == snap.revision
        && tag.boot == s.boot
    case _ => true
  }

  ghost predicate ServerInv(s: System, hostsOf: HostsOf) {
    && Valid(s.db)
    && s.boot in s.boots
    && (s.watch.snap.Some? ==> KnownSnap(s, s.watch.snap.value) && forall r :: r in s.installed ==>
        r <= s.watch.snap.value.revision)
    && (s.watch.snap.None? ==> s.installed == map[])
    && (forall id :: id in s.agents ==> KnownPhase(s, s.agents[id].phase))
    && (forall v :: v in s.served ==> FreshAnswer(s, v, hostsOf))
  }

  // ----- Adoption

  ghost predicate WasServed(s: System, id: int, tag: ETag, goals: GoalMap) {
    Served(id, tag, goals) in s.served
  }

  /** Some answer under this tag was carried out in full and recorded. */
  ghost predicate CarriedOut(s: System, id: int, tag: ETag) {
    exists d :: d in s.done && d.agentId == id && d.tag == tag
  }

  /** The report of a carried-out answer names every pair to write and every pair to clear. */
  ghost predicate Complete(goals: GoalMap, report: Report) {
    && (forall ref, u :: ref in goals && u in goals[ref].users ==> Pair(ref, u) in report.applied)
    && (forall ref, u :: ref in goals && u in goals[ref].clear ==> Pair(ref, u) in report.cleared)
    && report.mismatched == []
  }

  /** An answer in hand was served under its tag; a 304 repeats a tag the agent has already adopted. */
  ghost predicate InHand(s: System, id: int, tag: ETag, goals: Option<GoalMap>)
    requires id in s.agents
  {
    match goals
    case Some(g) => WasServed(s, id, tag, g)
    case None => s.agents[id].tag == Some(tag)
  }

  ghost predicate AgentOk(s: System, id: int)
    requires id in s.agents
  {
    var a := s.agents[id];
    && (a.tag.Some? ==> CarriedOut(s, id, a.tag.value))
    && match a.phase
       case Snapped(ask, _) => ask.Some? ==> a.tag == ask
       case Answered(tag, goals) => InHand(s, id, tag, goals)
       case Worked(tag, goals, report, clean) =>
         InHand(s, id, tag, goals) && (clean && goals.Some? ==> Complete(goals.value, report))
       case Reported(tag, goals, clean) =>
         InHand(s, id, tag, goals) && (clean && goals.Some? ==> CarriedOut(s, id, tag))
       case _ => true
  }

  ghost predicate AgentInv(s: System) {
    && (forall id :: id in s.agents ==> AgentOk(s, id))
    && (forall d :: d in s.done ==> WasServed(s, d.agentId, d.tag, d.goals) && Complete(d.goals, d.report))
    && (forall v :: v in s.served ==> Sound(v.goals))
  }

  // ----- The server side of every event

  /** Any write, or any report, leaves still-current tags describing the tables. */
  lemma WriteKeeps(s: System, op: Op, hostsOf: HostsOf)
    requires ServerInv(s, hostsOf)
    ensures ServerInv(s.(db := Do(s.db, op)), hostsOf)
  {
    WritesBump(s.db, op);
    WritesKeepValid(s.db, op);
    hide Do, GoalsOf, Valid, SeenOf;
    var t := s.(db := Do(s.db, op));
    forall v | v in t.served ensures FreshAnswer(t, v, hostsOf) {
      assert FreshAnswer(s, v, hostsOf);
    }
    forall id | id in t.agents ensures KnownPhase(t, t.agents[id].phase) {
      assert KnownPhase(s, s.agents[id].phase);
    }
  }

  /** Polls: a snapshot revision, once installed, keeps standing for the same policy and users. */
  lemma PollKeeps(s: System, fetched: Option<Fetched>, hostsOf: HostsOf)
    requires ServerInv(s, hostsOf)
    ensures ServerInv(PollNext(s, fetched), hostsOf)
  {
    var t := PollNext(s, fetched);
    if s.watch.snap.Some? {
      RevisionIdentifies(s.watch, fetched);
    }
    hide GoalsOf, Valid, SeenOf, Changed;
    forall r | r in s.installed ensures r in t.installed && t.installed[r] == s.installed[r] {
    }
    forall v | v in t.served ensures FreshAnswer(t, v, hostsOf) {
      assert FreshAnswer(s, v, hostsOf);
    }
    forall id | id in t.agents ensures KnownPhase(t, t.agents[id].phase) {
      assert KnownPhase(s, s.agents[id].phase);
    }
  }

  lemma RestartKeeps(s: System, boot: string, hostsOf: HostsOf)
    requires ServerInv(s, hostsOf)
    ensures ServerInv(RestartNext(s, boot), hostsOf)
  {
    hide GoalsOf, Valid, SeenOf;
    var t := RestartNext(s, boot);
    forall v | v in t.served ensures FreshAnswer(t, v, hostsOf) {
      assert FreshAnswer(s, v, hostsOf);
    }
    forall id | id in t.agents ensures KnownPhase(t, t.agents[id].phase) {
      assert KnownPhase(s, s.agents[id].phase);
    }
  }

  /** Changing one agent without touching the server. */
  lemma SetKeeps(s: System, id: int, a: Agent, hostsOf: HostsOf)
    requires ServerInv(s, hostsOf) && KnownPhase(s, a.phase)
    ensures ServerInv(WithAgent(s, id, a), hostsOf)
  {
    hide GoalsOf, Valid, SeenOf;
    var t := WithAgent(s, id, a);
    forall v | v in t.served ensures FreshAnswer(t, v, hostsOf) {
      assert FreshAnswer(s, v, hostsOf);
    }
    forall k | k in t.agents ensures KnownPhase(t, t.agents[k].phase) {
      assert k != id ==> KnownPhase(s, s.agents[k].phase);
    }
  }

  /** The tables are read after the revision: what is served is either what the tag says, or newer than the tag. */
  lemma LoadKeeps(s: System, id: int, hostsOf: HostsOf)
    requires ServerInv(s, hostsOf) && id in s.agents
    ensures ServerInv(LoadTablesNext(s, id, hostsOf), hostsOf)
  {
    hide GoalsOf, Valid, SeenOf;
    var a := s.agents[id];
    if a.phase.Tagged? {
      match GoalsOf(s.db.tables, SeenOf(a.phase.snap.content), hostsOf, id)
      case None => SetKeeps(s, id, a.(phase := Idle), hostsOf);
      case Some(goals) =>
        SetKeeps(s, id, a.(phase := Answered(a.phase.tag, Some(goals))), hostsOf);
        assert KnownPhase(s, a.phase);
        var t := LoadTablesNext(s, id, hostsOf);
        forall v | v in t.served ensures FreshAnswer(t, v, hostsOf) {
          assert v in s.served ==> FreshAnswer(s, v, hostsOf);
        }
    }
  }

  lemma DeliverKeeps(s: System, id: int, hostsOf: HostsOf)
    requires ServerInv(s, hostsOf) && id in s.agents
    ensures ServerInv(DeliverNext(s, id), hostsOf)
  {
    var a := s.agents[id];
    if a.phase.Worked? && id in s.db.agents {
      var op := OpRecord(id, Checked(a.phase.report));
      assert OrSame(s.db, Record(s.db, id, Checked(a.phase.report))) == Do(s.db, op);
      WriteKeeps(s, op, hostsOf);
      hide GoalsOf, Valid, SeenOf, Record, Do;
      match Record(s.db, id, Checked(a.phase.report))
      case Err(_) => SetKeeps(s, id, a.(phase := Idle), hostsOf);
      case Ok(db) =>
        SetKeeps(s.(db := db), id, a.(phase := Reported(a.phase.tag, a.phase.goals, a.phase.clean)), hostsOf);
        DoneIrrelevant(WithAgent(s.(db := db), id, a.(phase := Reported(a.phase.tag, a.phase.goals, a.phase.clean))),
            DeliverNext(s, id).done, hostsOf);
    } else if a.phase.Worked? {
      SetKeeps(s, id, a.(phase := Idle), hostsOf);
    }
  }

  lemma DoneIrrelevant(s: System, done: set<Done>, hostsOf: HostsOf)
    requires ServerInv(s, hostsOf)
    ensures ServerInv(s.(done := done), hostsOf)
  {
    hide GoalsOf, Valid, SeenOf;
    forall v | v in s.served ensures FreshAnswer(s.(done := done), v, hostsOf) {
      assert FreshAnswer(s, v, hostsOf);
    }
    forall k | k in s.agents ensures KnownPhase(s.(done := done), s.agents[k].phase) {
      assert KnownPhase(s, s.agents[k].phase);
    }
  }

  lemma ServerStep(s: System, e: Event, hostsOf: HostsOf)
    requires ServerInv(s, hostsOf)
    ensures ServerInv(Next(s, e, hostsOf), hostsOf)
  {
    hide GoalsOf, Valid, SeenOf, WorkOn, Do, Record, ServerInv, Polled;
    if !(e.Write? || e.Poll? || e.Restart? || e.Join?) && e.agentId !in s.agents {
      return;
    }
    match e
    case Write(op) => WriteKeeps(s, op, hostsOf);
    case Poll(fetched) => PollKeeps(s, fetched, hostsOf);
    case Restart(boot) => RestartKeeps(s, boot, hostsOf);
    case LoadTables(id) => LoadKeeps(s, id, hostsOf);
    case Deliver(id) => DeliverKeeps(s, id, hostsOf);
    case Begin(id, force) => BeginKeeps(s, id, force, hostsOf);
    case ReadRevision(id) => ReadKeeps(s, id, hostsOf);
    case Join(id, files) => SetKeeps(s, id, Agent(None, Idle, files), hostsOf);
    case Work(id, discovered, replies) =>
      var (files, report, clean) := WorkOn(s.agents[id].files, if s.agents[id].phase.Answered?
          then s.agents[id].phase.goals else None, discovered, replies);
      if s.agents[id].phase.Answered? {
        SetKeeps(s, id, s.agents[id].(files := files, phase := Worked(s.agents[id].phase.tag,
            s.agents[id].phase.goals, report, clean)), hostsOf);
      }
    case Adopt(id) =>
      var a := s.agents[id];
      if a.phase.Reported? {
        SetKeeps(s, id, a.(phase := Idle, tag := if a.phase.clean then Some(a.phase.tag) else a.tag), hostsOf);
      }
    case ListManaged(id) => SetKeeps(s, id, s.agents[id].(phase := Listed(Mine(s.db.tables.managed, id))), hostsOf);
    case ClearManaged(id, discovered, replies) => ClearKeeps(s, id, discovered, replies, hostsOf);
    case Leave(id) => LeaveKeeps(s, id, hostsOf);
    case Abandon(id) => SetKeeps(s, id, s.agents[id].(phase := Idle), hostsOf);
    case AgentRestart(id) => SetKeeps(s, id, Agent(None, Idle, s.agents[id].files), hostsOf);
    case Edit(id, pair, text) =>
      EditKeeps(s, id, pair, text, hostsOf);
  }

  lemma ClearKeeps(s: System, id: int, discovered: seq<Discovered>, replies: Pair -> Reply, hostsOf: HostsOf)
    requires ServerInv(s, hostsOf) && id in s.agents
    ensures ServerInv(ClearManagedNext(s, id, discovered, replies), hostsOf)
  {
    hide GoalsOf, Valid, SeenOf, WorkOn;
    var a := s.agents[id];
    if a.phase.Listed? {
      var (files, report, clean) := WorkOn(a.files, Some(Uninstall.LeaveGoals(a.phase.rows)), discovered, replies);
      SetKeeps(s, id, a.(files := files, phase := Emptied(report.cleared)), hostsOf);
    }
  }

  lemma LeaveKeeps(s: System, id: int, hostsOf: HostsOf)
    requires ServerInv(s, hostsOf) && id in s.agents
    ensures ServerInv(LeaveNext(s, id), hostsOf)
  {
    var a := s.agents[id];
    if a.phase.Emptied? {
      var op := OpRetire(id, AcceptedPairs(a.phase.cleared));
      assert OrSameLeft(s.db, RetireAgent(s.db, id, AcceptedPairs(a.phase.cleared))) == Do(s.db, op);
      WriteKeeps(s, op, hostsOf);
      hide GoalsOf, Valid, SeenOf, RetireAgent, Do;
      SetKeeps(s.(db := Do(s.db, op)), id, a.(phase := Idle), hostsOf);
      SetKeeps(s, id, a.(phase := Idle), hostsOf);
    }
  }

  lemma EditKeeps(s: System, id: int, pair: Pair, text: string, hostsOf: HostsOf)
    requires ServerInv(s, hostsOf) && id in s.agents
    ensures ServerInv(WithAgent(s, id, s.agents[id].(files := Put(s.agents[id].files, pair, text))), hostsOf)
  {
    assert KnownPhase(s, s.agents[id].phase);
    SetKeeps(s, id, s.agents[id].(files := Put(s.agents[id].files, pair, text)), hostsOf);
  }

  lemma BeginKeeps(s: System, id: int, force: bool, hostsOf: HostsOf)
    requires ServerInv(s, hostsOf) && id in s.agents
    ensures ServerInv(BeginNext(s, id, force), hostsOf)
  {
    hide GoalsOf, Valid, SeenOf;
    if BeginNext(s, id, force) != s {
      SetKeeps(s, id, s.agents[id].(phase := Snapped(if force then None else s.agents[id].tag, s.watch.snap.value)),
          hostsOf);
    }
  }

  lemma ReadKeeps(s: System, id: int, hostsOf: HostsOf)
    requires ServerInv(s, hostsOf) && id in s.agents
    ensures ServerInv(ReadRevisionNext(s, id), hostsOf)
  {
    hide GoalsOf, Valid, SeenOf;
    var a := s.agents[id];
    if a.phase.Snapped? {
      assert KnownPhase(s, a.phase);
      var tag := TagOf(s, a.phase.snap);
      SetKeeps(s, id, a.(phase := if a.phase.ask == Some(tag) then Answered(tag, None)
          else Tagged(a.phase.snap, tag)), hostsOf);
    }
  }

  lemma {:induction false} ServerRun(s: System, events: seq<Event>, hostsOf: HostsOf)
    requires ServerInv(s, hostsOf)
    ensures ServerInv(Play(s, events, hostsOf), hostsOf)
  {
    hide ServerInv, Next;
    if events != [] {
      ServerRun(s, events[..|events| - 1], hostsOf);
      ServerStep(Play(s, events[..|events| - 1], hostsOf), events[|events| - 1], hostsOf);
    }
  }

  lemma StartsWell(s: System, hostsOf: HostsOf)
    requires Start(s)
    ensures ServerInv(s, hostsOf) && AgentInv(s)
  {
  }

  /**
   304 is sound (section 13.1.2 of RFC 9110). In every run with restarts, polls, writes and other
   requests in between: if a request of agent `id` is about to be told 304 for a tag it was once
   served under, then what it was served is exactly what it would be served now.
   */
  lemma NotModifiedSound(s: System, events: seq<Event>, hostsOf: HostsOf, id: int, goals: GoalMap)
    requires Start(s)
    requires var t := Play(s, events, hostsOf);
             && id in t.agents && t.agents[id].phase.Snapped?
             && t.agents[id].phase.ask == Some(TagOf(t, t.agents[id].phase.snap))
             && WasServed(t, id, TagOf(t, t.agents[id].phase.snap), goals)
    ensures var t := Play(s, events, hostsOf);
            && GoalsOf(t.db.tables, SeenOf(t.agents[id].phase.snap.content), hostsOf, id) == Some(goals)
            && (t.watch.snap.Some? && t.watch.snap.value.revision == t.agents[id].phase.snap.revision ==>
                  GoalsOf(t.db.tables, SeenOf(t.watch.snap.value.content), hostsOf, id) == Some(goals))
  {
    StartsWell(s, hostsOf);
    ServerRun(s, events, hostsOf);
    hide GoalsOf, Valid, SeenOf, Play;
    var t := Play(s, events, hostsOf);
    assert KnownPhase(t, t.agents[id].phase);
    assert FreshAnswer(t, Served(id, TagOf(t, t.agents[id].phase.snap), goals), hostsOf);
  }
}
