/** Which runs leave keys behind, by their events and host answers (internal/agent/apply.go, retire.go, loop.go). */
module Stranding {
  import opened Common
  import opened Desired
  import opened Key
  import opened Store
  import opened Snapshot
  import opened SyncApi
  import opened Apply
  import opened Protocol
  import opened Tracking
  import Uninstall = Retire
  import Admin
  import Adoption

  // ----- What is named as cleared

  /** The agent has a report or a list of cleared pairs in hand. */
  predicate Reporting(ph: Phase) {
    ph.Worked? || ph.Emptied?
  }

  /** It names this pair as cleared. */
  predicate Named(ph: Phase, p: Pair) {
    (ph.Worked? && p in ph.report.cleared) || (ph.Emptied? && p in ph.cleared)
  }

  ghost predicate SparesOne(a: Agent, goals: GoalMap, discovered: seq<Discovered>, replies: Pair -> Reply, p: Pair) {
    Spares(goals, Running(discovered), p, FileAt(a.files, p), replies(p))
  }

  predicate OwnWork(t: System, e: Event, id: int) {
    id in t.agents && e.Work? && e.agentId == id && t.agents[id].phase.Answered?
  }

  predicate OwnClear(t: System, e: Event, id: int) {
    id in t.agents && e.ClearManaged? && e.agentId == id && t.agents[id].phase.Listed?
  }

  /** What one event makes of it: work decides anew, an edit of the file decides anew, the rest changes nothing. */
  ghost predicate SparedNext(t: System, e: Event, id: int, p: Pair, before: bool) {
    if id !in t.agents then false
    else if OwnWork(t, e, id) then
      t.agents[id].phase.goals.Some?
      && SparesOne(t.agents[id], t.agents[id].phase.goals.value, e.discovered, e.replies, p)
    else if OwnClear(t, e, id) then
      SparesOne(t.agents[id], Uninstall.LeaveGoals(t.agents[id].phase.rows), e.discovered, e.replies, p)
    else if e.Edit? && e.agentId == id && e.pair == p then !NoKeys(e.text) && Named(t.agents[id].phase, p)
    else before
  }

  /**
   In the agent's last work the host spared the pair, and nobody has taken the keys out since; or
   somebody has put keys into the file after the agent named it as cleared.
   */
  ghost predicate Spared(s: System, events: seq<Event>, hostsOf: HostsOf, id: int, p: Pair)
    decreases |events|
  {
    events != [] &&
    var init, e := events[..|events| - 1], events[|events| - 1];
    SparedNext(Play(s, init, hostsOf), e, id, p, Spared(s, init, hostsOf, id, p))
  }

  /** At this agent and pair, the events and answers say what the files and the report show. */
  ghost predicate Agrees(a: Agent, p: Pair, spared: bool) {
    Reporting(a.phase) ==> (spared <==> Named(a.phase, p) && !NoKeys(FileAt(a.files, p)))
  }

  // ----- One event

  lemma WorkAgrees(s: System, id: int, discovered: seq<Discovered>, replies: Pair -> Reply, p: Pair)
    requires Grounded(s) && id in s.agents && s.agents[id].phase.Answered?
    ensures var a := s.agents[id];
            Agrees(WorkNext(s, id, discovered, replies).agents[id], p,
                   a.phase.goals.Some? && SparesOne(a, a.phase.goals.value, discovered, replies, p))
  {
    hide WorkOn, Spares, NoKeys, FileAt, RefsValid, Sound;
    var a := s.agents[id];
    assert PhaseOk(a.phase, id);
    if a.phase.goals.Some? {
      ClearedAt(a.files, a.phase.goals.value, discovered, replies, p);
    } else {
      NoWork(a.files, discovered, replies);
    }
  }

  lemma ClearAgrees(s: System, id: int, discovered: seq<Discovered>, replies: Pair -> Reply, p: Pair)
    requires id in s.agents && s.agents[id].phase.Listed?
    ensures var a := s.agents[id];
            Agrees(ClearManagedNext(s, id, discovered, replies).agents[id], p,
                   SparesOne(a, Uninstall.LeaveGoals(a.phase.rows), discovered, replies, p))
  {
    hide WorkOn, Spares, NoKeys, FileAt;
    Uninstall.LeaveSound(s.agents[id].phase.rows);
    ClearedAt(s.agents[id].files, Uninstall.LeaveGoals(s.agents[id].phase.rows), discovered, replies, p);
  }

  lemma EditAgrees(a: Agent, q: Pair, text: string, p: Pair, spared: bool)
    requires Agrees(a, p, spared)
    ensures Agrees(a.(files := Put(a.files, q, text)), p,
                   if q == p then !NoKeys(text) && Named(a.phase, p) else spared)
  {
    hide NoKeys;
  }

  /** The agent is as it was, or has nothing to report. */
  ghost predicate Same(s: System, t: System, id: int) {
    id in t.agents && Reporting(t.agents[id].phase) ==>
      id in s.agents && t.agents[id].phase == s.agents[id].phase && t.agents[id].files == s.agents[id].files
  }

  lemma MovedSame(s: System, t: System, id: int)
    requires MovesOn(s, t)
    ensures Same(s, t, id)
  {
  }

  lemma ElsewhereSame(s: System, k: int, a: Agent, id: int)
    requires k != id || (k in s.agents && a == s.agents[k]) || !Reporting(a.phase)
    ensures forall db, done, served ::
              Same(s, WithAgent(s, k, a).(db := db, done := done, served := served), id)
  {
  }

  lemma DeliverSame(s: System, k: int, id: int)
    requires k in s.agents
    ensures Same(s, DeliverNext(s, k), id)
  {
    hide Record;
  }

  lemma LoadSame(s: System, k: int, hostsOf: HostsOf, id: int)
    requires k in s.agents
    ensures Same(s, LoadTablesNext(s, k, hostsOf), id)
  {
    hide GoalsOf;
  }

  lemma LeaveSame(s: System, k: int, id: int)
    requires k in s.agents
    ensures Same(s, LeaveNext(s, k), id)
  {
    hide RetireAgent;
  }

  lemma ListSame(s: System, k: int, id: int)
    requires k in s.agents
    ensures Same(s, ListManagedNext(s, k), id)
  {
  }

  lemma WorkSame(s: System, k: int, discovered: seq<Discovered>, replies: Pair -> Reply, id: int)
    requires k in s.agents && (k != id || !s.agents[k].phase.Answered?)
    ensures Same(s, WorkNext(s, k, discovered, replies), id)
  {
    hide WorkOn;
  }

  lemma ClearSame(s: System, k: int, discovered: seq<Discovered>, replies: Pair -> Reply, id: int)
    requires k in s.agents && (k != id || !s.agents[k].phase.Listed?)
    ensures Same(s, ClearManagedNext(s, k, discovered, replies), id)
  {
    hide WorkOn;
  }

  lemma SetSame(s: System, k: int, a: Agent, id: int)
    requires k != id || a.phase == Idle
    ensures Same(s, WithAgent(s, k, a), id)
  {
  }

  lemma UnmovedSame(s: System, t: System, id: int)
    requires t.agents == s.agents
    ensures Same(s, t, id)
  {
  }

  /** Any event but the agent's own work, or an edit of its files. */
  lemma OthersSame(s: System, e: Event, hostsOf: HostsOf, id: int)
    requires e.Work? && e.agentId == id && id in s.agents ==> !s.agents[id].phase.Answered?
    requires e.ClearManaged? && e.agentId == id && id in s.agents ==> !s.agents[id].phase.Listed?
    requires e.Edit? ==> e.agentId != id
    ensures Same(s, Next(s, e, hostsOf), id)
  {
    hide *;
    Adoption.NextUnfolds(s, e, hostsOf);
    if !(e.Write? || e.Poll? || e.Restart? || e.Join?) && e.agentId !in s.agents {
      UnmovedSame(s, Next(s, e, hostsOf), id);
      return;
    }
    if e.Poll? || e.Restart? || e.Begin? || e.ReadRevision? || e.Adopt? {
      QuietMoves(s, e, hostsOf);
      MovedSame(s, Next(s, e, hostsOf), id);
      return;
    }
    match e
    case Write(op) => UnmovedSame(s, Next(s, e, hostsOf), id);
    case Join(k, files) =>
      if k in s.agents {
        UnmovedSame(s, Next(s, e, hostsOf), id);
      } else {
        SetSame(s, k, Agent(None, Idle, files), id);
      }
    case LoadTables(k) => LoadSame(s, k, hostsOf, id);
    case Work(k, discovered, replies) => WorkSame(s, k, discovered, replies, id);
    case Deliver(k) => DeliverSame(s, k, id);
    case ListManaged(k) => ListSame(s, k, id);
    case ClearManaged(k, discovered, replies) => ClearSame(s, k, discovered, replies, id);
    case Leave(k) => LeaveSame(s, k, id);
    case Abandon(k) => SetSame(s, k, s.agents[k].(phase := Idle), id);
    case AgentRestart(k) => SetSame(s, k, Agent(None, Idle, s.agents[k].files), id);
    case Edit(k, p, text) => SetSame(s, k, s.agents[k].(files := Put(s.agents[k].files, p, text)), id);
  }

  // ----- Runs

  lemma StartsTracked(s: System)
    requires Start(s) && RefsValid(s.db.tables)
    ensures Grounded(s) && AllTracked(s)
  {
    hide RefsValid;
  }

  lemma {:induction false} GroundedRun(s: System, events: seq<Event>, hostsOf: HostsOf)
    requires Grounded(s) && GuardedRun(s, events, hostsOf)
    ensures Grounded(Play(s, events, hostsOf))
  {
    hide Grounded, Next, Guarded;
    if events != [] {
      GroundedRun(s, events[..|events| - 1], hostsOf);
      GroundedStep(Play(s, events[..|events| - 1], hostsOf), events[|events| - 1], hostsOf);
    }
  }

  ghost predicate AgreesAt(t: System, id: int, p: Pair, spared: bool) {
    id in t.agents ==> Agrees(t.agents[id], p, spared)
  }

  lemma SameAgrees(s: System, t: System, id: int, p: Pair, spared: bool)
    requires Same(s, t, id) && AgreesAt(s, id, p, spared) && id in s.agents
    ensures AgreesAt(t, id, p, spared)
  {
    hide NoKeys, FileAt;
  }

  lemma NewAgrees(s: System, t: System, id: int, p: Pair, spared: bool)
    requires Same(s, t, id) && id !in s.agents
    ensures AgreesAt(t, id, p, spared)
  {
    hide NoKeys, FileAt;
  }

  lemma SparedUnfolds(t: System, e: Event, id: int, p: Pair, before: bool)
    ensures var next := SparedNext(t, e, id, p, before);
            && (id !in t.agents ==> !next)
            && (OwnWork(t, e, id) ==>
                  (next <==> t.agents[id].phase.goals.Some?
                             && SparesOne(t.agents[id], t.agents[id].phase.goals.value, e.discovered, e.replies, p)))
            && (OwnClear(t, e, id) ==>
                  var goals := Uninstall.LeaveGoals(t.agents[id].phase.rows);
                  (next <==> SparesOne(t.agents[id], goals, e.discovered, e.replies, p)))
            && (id in t.agents && e.Edit? && e.agentId == id ==>
                  (next <==> if e.pair == p then !NoKeys(e.text) && Named(t.agents[id].phase, p) else before))
            && (id in t.agents && !OwnWork(t, e, id) && !OwnClear(t, e, id) && !(e.Edit? && e.agentId == id) ==>
                  (next <==> before))
  {
    hide SparesOne, NoKeys, Named;
  }

  lemma OwnStep(t: System, e: Event, hostsOf: HostsOf, id: int, p: Pair, before: bool)
    requires Grounded(t) && id in t.agents && Agrees(t.agents[id], p, before)
    requires OwnWork(t, e, id) || OwnClear(t, e, id) || (e.Edit? && e.agentId == id)
    ensures AgreesAt(Next(t, e, hostsOf), id, p, SparedNext(t, e, id, p, before))
  {
    hide Next, Grounded, Agrees, SparesOne, NoKeys, Put, Named, WorkNext, ClearManagedNext, SparedNext;
    Adoption.NextUnfolds(t, e, hostsOf);
    SparedUnfolds(t, e, id, p, before);
    if OwnWork(t, e, id) {
      WorkAgrees(t, id, e.discovered, e.replies, p);
    } else if OwnClear(t, e, id) {
      ClearAgrees(t, id, e.discovered, e.replies, p);
    } else {
      EditAgrees(t.agents[id], e.pair, e.text, p, before);
    }
  }

  lemma OtherStep(t: System, e: Event, hostsOf: HostsOf, id: int, p: Pair, before: bool)
    requires AgreesAt(t, id, p, before)
    requires !OwnWork(t, e, id) && !OwnClear(t, e, id) && !(e.Edit? && e.agentId == id && id in t.agents)
    ensures AgreesAt(Next(t, e, hostsOf), id, p, SparedNext(t, e, id, p, before))
  {
    hide Next, Agrees, NoKeys, SparedNext, Same;
    SparedUnfolds(t, e, id, p, before);
    if e.Edit? && e.agentId == id {
      Adoption.NextUnfolds(t, e, hostsOf);
      UnmovedSame(t, Next(t, e, hostsOf), id);
    } else {
      OthersSame(t, e, hostsOf, id);
    }
    if id in t.agents {
      SameAgrees(t, Next(t, e, hostsOf), id, p, before);
    } else {
      NewAgrees(t, Next(t, e, hostsOf), id, p, false);
    }
  }

  lemma SparedStep(t: System, e: Event, hostsOf: HostsOf, id: int, p: Pair, before: bool)
    requires Grounded(t) && AgreesAt(t, id, p, before)
    ensures AgreesAt(Next(t, e, hostsOf), id, p, SparedNext(t, e, id, p, before))
  {
    hide Next, Grounded, Agrees, SparedNext;
    if OwnWork(t, e, id) || OwnClear(t, e, id) || (e.Edit? && e.agentId == id && id in t.agents) {
      OwnStep(t, e, hostsOf, id, p, before);
    } else {
      OtherStep(t, e, hostsOf, id, p, before);
    }
  }

  /**
   Over every run: a pair an agent is about to name as cleared still holds keys if and only if the
   host spared it in the work reported, or somebody put keys there since.
   */
  lemma {:induction false} SparedMeans(s: System, events: seq<Event>, hostsOf: HostsOf, id: int, p: Pair)
    requires Start(s) && RefsValid(s.db.tables) && GuardedRun(s, events, hostsOf)
    ensures var t := Play(s, events, hostsOf);
            id in t.agents && Reporting(t.agents[id].phase) ==>
              (Spared(s, events, hostsOf, id, p) <==> Named(t.agents[id].phase, p) && KeysAt(t, id, p))
  {
    SparedAgrees(s, events, hostsOf, id, p);
    hide Play, Spared, NoKeys, FileAt, Named;
  }

  lemma {:induction false} SparedAgrees(s: System, events: seq<Event>, hostsOf: HostsOf, id: int, p: Pair)
    requires Start(s) && RefsValid(s.db.tables) && GuardedRun(s, events, hostsOf)
    ensures AgreesAt(Play(s, events, hostsOf), id, p, Spared(s, events, hostsOf, id, p))
  {
    hide Next, RefsValid, Grounded, Agrees, SparesOne, NoKeys, Named, Guarded;
    if events != [] {
      var init, e := events[..|events| - 1], events[|events| - 1];
      StartsTracked(s);
      GroundedRun(s, init, hostsOf);
      SparedAgrees(s, init, hostsOf, id, p);
      SparedStep(Play(s, init, hostsOf), e, hostsOf, id, p, Spared(s, init, hostsOf, id, p));
    }
  }

  // ----- Where a run loses track

  /** Some pair the agent names as cleared was spared. */
  ghost predicate SparedSome(s: System, events: seq<Event>, hostsOf: HostsOf, id: int) {
    exists p :: Accepted(p) && Spared(s, events, hostsOf, id, p)
  }

  /** The k-th event loses track; what a report is wrong about is said by the events and answers before it. */
  ghost predicate LosesAt(s: System, events: seq<Event>, k: nat, hostsOf: HostsOf) {
    k < |events| &&
    var t, e := Play(s, events[..k], hostsOf), events[k];
    match e
    case Deliver(id) =>
      id in t.agents && id in t.db.agents && t.agents[id].phase.Worked? && SparedSome(s, events[..k], hostsOf, id)
    case Leave(id) =>
      id in t.agents && id in t.db.agents && t.agents[id].phase.Emptied?
      && RowKept(t, id, t.agents[id].phase.cleared) && SparedSome(s, events[..k], hostsOf, id)
    case _ => Loses(t, e)
  }

  lemma FalselyIsSpared(s: System, events: seq<Event>, hostsOf: HostsOf, id: int, cleared: seq<Pair>)
    requires Start(s) && RefsValid(s.db.tables) && GuardedRun(s, events, hostsOf)
    requires var t := Play(s, events, hostsOf);
             && id in t.agents && (t.agents[id].phase.Worked? || t.agents[id].phase.Emptied?)
             && var ph := t.agents[id].phase;
                cleared == if ph.Worked? then ph.report.cleared else ph.cleared
    ensures FalselyClear(Play(s, events, hostsOf), id, cleared) <==> SparedSome(s, events, hostsOf, id)
  {
    hide Play, Spared, Start, RefsValid, GuardedRun, Accepted, KeysAt;
    var t := Play(s, events, hostsOf);
    forall p ensures Spared(s, events, hostsOf, id, p) <==> p in cleared && KeysAt(t, id, p) {
      SparedMeans(s, events, hostsOf, id, p);
    }
  }

  lemma LosesIs(s: System, events: seq<Event>, k: nat, hostsOf: HostsOf)
    requires Start(s) && RefsValid(s.db.tables) && GuardedRun(s, events, hostsOf) && k < |events|
    ensures LosesAt(s, events, k, hostsOf) <==> Loses(Play(s, events[..k], hostsOf), events[k])
  {
    hide Play, Spared, Start, RefsValid, GuardedRun, SparedSome, FalselyClear, RowKept, WriteLoses, WorkStrands,
         OnlyReported, NoKeys, OnRecord;
    var t, e := Play(s, events[..k], hostsOf), events[k];
    GuardedPrefix(s, events, k, hostsOf);
    if e.Deliver? && e.agentId in t.agents && t.agents[e.agentId].phase.Worked? {
      FalselyIsSpared(s, events[..k], hostsOf, e.agentId, t.agents[e.agentId].phase.report.cleared);
    }
    if e.Leave? && e.agentId in t.agents && t.agents[e.agentId].phase.Emptied? {
      FalselyIsSpared(s, events[..k], hostsOf, e.agentId, t.agents[e.agentId].phase.cleared);
    }
  }

  lemma {:induction false} GuardedPrefix(s: System, events: seq<Event>, k: nat, hostsOf: HostsOf)
    requires GuardedRun(s, events, hostsOf) && k <= |events|
    ensures GuardedRun(s, events[..k], hostsOf)
    ensures k < |events| ==> Guarded(Play(s, events[..k], hostsOf), events[k])
  {
    hide Guarded, Play;
    if k < |events| {
      GuardedPrefix(s, events[..|events| - 1], k, hostsOf);
      assert events[..|events| - 1][..k] == events[..k];
    } else {
      assert events[..k] == events;
    }
  }

  /** One step of a run that has been tracked so far. */
  lemma StepOfRun(s: System, events: seq<Event>, k: nat, hostsOf: HostsOf)
    requires Start(s) && RefsValid(s.db.tables) && GuardedRun(s, events, hostsOf) && k < |events|
    requires AllTracked(Play(s, events[..k], hostsOf))
    ensures AllTracked(Play(s, events[..k + 1], hostsOf)) <==> !LosesAt(s, events, k, hostsOf)
  {
    hide Grounded, Guarded, GuardedRun, AllTracked, Loses, Next, LosesAt, Start, RefsValid;
    StartsTracked(s);
    GuardedPrefix(s, events, k, hostsOf);
    GroundedRun(s, events[..k], hostsOf);
    TrackStep(Play(s, events[..k], hostsOf), events[k], hostsOf);
    LosesIs(s, events, k, hostsOf);
    assert events[..k + 1][..k] == events[..k];
  }

  lemma {:induction false} TrackRun(s: System, events: seq<Event>, k: nat, hostsOf: HostsOf)
    requires Start(s) && RefsValid(s.db.tables) && GuardedRun(s, events, hostsOf) && k <= |events|
    requires forall j :: 0 <= j < k ==> !LosesAt(s, events, j, hostsOf)
    ensures AllTracked(Play(s, events[..k], hostsOf))
    decreases k
  {
    hide Grounded, GuardedRun, AllTracked, LosesAt, Next, Start, RefsValid;
    if k > 0 {
      TrackRun(s, events, k - 1, hostsOf);
      StepOfRun(s, events, k - 1, hostsOf);
    } else {
      StartsTracked(s);
    }
  }

  // ----- The results, exactly

  /**
   Over every run, with any number of agents, failures, restarts and admin changes: at every point
   the keys each registered agent left in a file are on record or in the report it is sending, if
   and only if no event of the run loses track.
   */
  lemma TrackedThroughout(s: System, events: seq<Event>, hostsOf: HostsOf)
    requires Start(s) && RefsValid(s.db.tables) && GuardedRun(s, events, hostsOf)
    ensures (forall k :: 0 <= k <= |events| ==> AllTracked(Play(s, events[..k], hostsOf))) <==>
            (forall k :: 0 <= k < |events| ==> !LosesAt(s, events, k, hostsOf))
  {
    hide Start, RefsValid, GuardedRun, AllTracked, LosesAt, Play;
    if forall k :: 0 <= k < |events| ==> !LosesAt(s, events, k, hostsOf) {
      forall k | 0 <= k <= |events| ensures AllTracked(Play(s, events[..k], hostsOf)) {
        TrackRun(s, events, k, hostsOf);
      }
    } else {
      var k :| 0 <= k < |events| && LosesAt(s, events, k, hostsOf);
      if AllTracked(Play(s, events[..k], hostsOf)) {
        StepOfRun(s, events, k, hostsOf);
        assert !AllTracked(Play(s, events[..k + 1], hostsOf));
      }
    }
  }

  lemma NothingUntracked(s: System, events: seq<Event>, hostsOf: HostsOf, id: int, p: Pair)
    requires Start(s) && RefsValid(s.db.tables) && GuardedRun(s, events, hostsOf)
    requires forall k :: 0 <= k < |events| ==> !LosesAt(s, events, k, hostsOf)
    requires var t := Play(s, events, hostsOf); id in t.agents && id in t.db.agents && KeysAt(t, id, p)
    ensures var t := Play(s, events, hostsOf); OnRecord(t, id, p) || Pending(t.agents[id].phase, p)
  {
    hide Play, Start, GuardedRun, RefsValid, NoKeys, LosesAt;
    TrackedThroughout(s, events, hostsOf);
    assert events[..|events|] == events;
    assert Tracked(Play(s, events, hostsOf), id);
  }

  /**
   What the server makes of an uninstall: it deletes the agent exactly when every row it has for it
   is named as cleared; and then no file the agent reaches holds keys in a block, exactly when no
   pair it names was spared.
   */
  lemma RetiredLeavesNothing(s: System, events: seq<Event>, hostsOf: HostsOf, id: int)
    requires Start(s) && RefsValid(s.db.tables) && GuardedRun(s, events, hostsOf)
    requires forall k :: 0 <= k < |events| ==> !LosesAt(s, events, k, hostsOf)
    requires var t := Play(s, events, hostsOf); id in t.agents && id in t.db.agents && t.agents[id].phase.Emptied?
    ensures var t := Play(s, events, hostsOf);
            var after := LeaveNext(t, id);
            && (id !in after.db.agents <==> !RowKept(t, id, t.agents[id].phase.cleared))
            && (id !in after.db.agents ==>
                  ((forall q :: NoKeys(FileAt(after.agents[id].files, q))) <==> !SparedSome(s, events, hostsOf, id)))
  {
    hide *;
    var t := Play(s, events, hostsOf);
    TrackedThroughout(s, events, hostsOf);
    assert events[..|events|] == events;
    LeavingStep(t, id);
    LeavesUnfolds(t, id);
    FalselyIsSpared(s, events, hostsOf, id, t.agents[id].phase.cleared);
  }

  // ----- Orderly runs

  predicate ReportedGone(reply: Reply) {
    reply.probe == NoSuchUser && reply.leftover == Gone
  }

  /** Where a user is reported gone with nothing under its home, the file holds no keys. */
  ghost predicate GoneIsGone(a: Agent, goals: GoalMap, replies: Pair -> Reply) {
    forall p: Pair :: p.ref in goals && p.unixUser in goals[p.ref].clear && ReportedGone(replies(p)) ==>
      NoKeys(FileAt(a.files, p))
  }

  /** Only a pair already on record has a write that fails after its rename. */
  ghost predicate FirstWritesFinish(s: System, id: int, goals: GoalMap, replies: Pair -> Reply) {
    forall p: Pair :: p.ref in goals && p.unixUser in goals[p.ref].users && replies(p).write == WrittenThenFailed ==>
      OnRecord(s, id, p)
  }

  /** A report is given up only if all it names as written is on record already. */
  ghost predicate NothingNew(s: System, id: int)
    requires id in s.agents
  {
    s.agents[id].phase.Worked? ==> forall p :: p in s.agents[id].phase.report.applied ==> OnRecord(s, id, p)
  }

  /** Nobody plants a block, no report comes out of turn to take rows away, and hosts answer truly. */
  ghost predicate Orderly(s: System, e: Event) {
    match e
    case Write(op) => (op.OpRecord? ==> op.report.cleared == []) && (op.OpRetire? ==> op.cleared == [])
    case Join(_, files) => forall p :: NoKeys(FileAt(files, p))
    case Edit(id, p, text) => id in s.agents ==> NoKeys(text) || KeysAt(s, id, p)
    case Work(id, _, replies) =>
      id in s.agents && s.agents[id].phase.Answered? && s.agents[id].phase.goals.Some? ==>
        var goals := s.agents[id].phase.goals.value;
        GoneIsGone(s.agents[id], goals, replies) && FirstWritesFinish(s, id, goals, replies)
    case ClearManaged(id, _, replies) =>
      id in s.agents && s.agents[id].phase.Listed? ==>
        GoneIsGone(s.agents[id], Uninstall.LeaveGoals(s.agents[id].phase.rows), replies)
    case Abandon(id) => id in s.agents ==> NothingNew(s, id)
    case AgentRestart(id) => id in s.agents ==> NothingNew(s, id)
    case _ => true
  }

  ghost predicate OrderlyRun(s: System, events: seq<Event>, hostsOf: HostsOf) {
    events != [] ==>
      && OrderlyRun(s, events[..|events| - 1], hostsOf)
      && Orderly(Play(s, events[..|events| - 1], hostsOf), events[|events| - 1])
  }

  lemma {:induction false} OrderlyPrefix(s: System, events: seq<Event>, k: nat, hostsOf: HostsOf)
    requires OrderlyRun(s, events, hostsOf) && k <= |events|
    ensures OrderlyRun(s, events[..k], hostsOf)
    ensures k < |events| ==> Orderly(Play(s, events[..k], hostsOf), events[k])
  {
    hide Orderly, Play;
    if k < |events| {
      OrderlyPrefix(s, events[..|events| - 1], k, hostsOf);
      assert events[..|events| - 1][..k] == events[..k];
    } else {
      assert events[..k] == events;
    }
  }

  lemma OrderlySparesNone(t: System, e: Event, id: int, p: Pair)
    requires Orderly(t, e)
    requires id in t.agents && Reporting(t.agents[id].phase) && Named(t.agents[id].phase, p) ==> !KeysAt(t, id, p)
    ensures !SparedNext(t, e, id, p, false)
  {
    hide NoKeys, FileAt, ValidUnixUser, GoalGate;
  }

  /** In an orderly run nothing is spared. */
  lemma {:induction false} NoneSpared(s: System, events: seq<Event>, hostsOf: HostsOf, id: int, p: Pair)
    requires Start(s) && RefsValid(s.db.tables) && GuardedRun(s, events, hostsOf) && OrderlyRun(s, events, hostsOf)
    ensures !Spared(s, events, hostsOf, id, p)
  {
    hide Start, RefsValid, Orderly, SparedNext, Guarded, KeysAt, Named;
    if events != [] {
      var init, e := events[..|events| - 1], events[|events| - 1];
      NoneSpared(s, init, hostsOf, id, p);
      SparedMeans(s, init, hostsOf, id, p);
      OrderlySparesNone(Play(s, init, hostsOf), e, id, p);
    }
  }

  lemma OrderlyKeeps(t: System, e: Event)
    requires Orderly(t, e) && AllTracked(t) && !e.Deliver? && !e.Leave?
    ensures !Loses(t, e)
  {
    hide NoKeys, FileAt, SafeLines, ValidUnixUser, GoalGate;
    if e.Edit? && e.agentId in t.agents && e.agentId in t.db.agents {
      assert Tracked(t, e.agentId);
    }
  }

  lemma OrderlyNeverLoses(s: System, events: seq<Event>, k: nat, hostsOf: HostsOf)
    requires Start(s) && RefsValid(s.db.tables) && GuardedRun(s, events, hostsOf) && OrderlyRun(s, events, hostsOf)
    requires k < |events| && AllTracked(Play(s, events[..k], hostsOf))
    ensures !LosesAt(s, events, k, hostsOf)
  {
    hide Start, RefsValid, GuardedRun, OrderlyRun, AllTracked, Orderly, Spared, Loses, Play, Accepted;
    OrderlyPrefix(s, events, k, hostsOf);
    GuardedPrefix(s, events, k, hostsOf);
    forall id, p ensures !Spared(s, events[..k], hostsOf, id, p) {
      NoneSpared(s, events[..k], hostsOf, id, p);
    }
    if !events[k].Deliver? && !events[k].Leave? {
      OrderlyKeeps(Play(s, events[..k], hostsOf), events[k]);
    }
  }

  lemma {:induction false} OrderlyTracked(s: System, events: seq<Event>, k: nat, hostsOf: HostsOf)
    requires Start(s) && RefsValid(s.db.tables) && GuardedRun(s, events, hostsOf) && OrderlyRun(s, events, hostsOf)
    requires k <= |events|
    ensures AllTracked(Play(s, events[..k], hostsOf))
    ensures k < |events| ==> !LosesAt(s, events, k, hostsOf)
    decreases k
  {
    hide Start, RefsValid, GuardedRun, OrderlyRun, AllTracked, LosesAt, Next;
    if k > 0 {
      OrderlyTracked(s, events, k - 1, hostsOf);
      StepOfRun(s, events, k - 1, hostsOf);
    } else {
      StartsTracked(s);
    }
    if k < |events| {
      OrderlyNeverLoses(s, events, k, hostsOf);
    }
  }

  /**
   Nothing stranded. In a run in which reports that name new writes arrive, nobody plants a block or
   reports out of turn, first writes do not fail after their rename, and a user reported gone has no
   keys left: whatever else happens, keys left with a registered agent are on record or being
   reported, and when the server deletes an uninstalling agent, which it does exactly when every row
   is named as cleared, no file the agent reaches holds keys.
   */
  lemma OrderlyLeavesNothing(s: System, events: seq<Event>, hostsOf: HostsOf, id: int, p: Pair)
    requires Start(s) && RefsValid(s.db.tables) && GuardedRun(s, events, hostsOf) && OrderlyRun(s, events, hostsOf)
    requires var t := Play(s, events, hostsOf); id in t.agents && id in t.db.agents
    ensures var t := Play(s, events, hostsOf);
            KeysAt(t, id, p) ==> OnRecord(t, id, p) || Pending(t.agents[id].phase, p)
    ensures var t := Play(s, events, hostsOf);
            var after := LeaveNext(t, id);
            t.agents[id].phase.Emptied? ==>
              && (id !in after.db.agents <==> !RowKept(t, id, t.agents[id].phase.cleared))
              && (id !in after.db.agents ==> NoKeys(FileAt(after.agents[id].files, p)))
  {
    hide *;
    var t := Play(s, events, hostsOf);
    forall k | 0 <= k < |events| ensures !LosesAt(s, events, k, hostsOf) {
      OrderlyTracked(s, events, k, hostsOf);
    }
    if KeysAt(t, id, p) {
      NothingUntracked(s, events, hostsOf, id, p);
    }
    if t.agents[id].phase.Emptied? {
      RetiredLeavesNothing(s, events, hostsOf, id);
      NoneSome(s, events, hostsOf, id);
    }
  }

  lemma NoneSome(s: System, events: seq<Event>, hostsOf: HostsOf, id: int)
    requires Start(s) && RefsValid(s.db.tables) && GuardedRun(s, events, hostsOf) && OrderlyRun(s, events, hostsOf)
    ensures !SparedSome(s, events, hostsOf, id)
  {
    hide Start, RefsValid, GuardedRun, OrderlyRun, Spared, Accepted;
    forall p ensures !Spared(s, events, hostsOf, id, p) {
      NoneSpared(s, events, hostsOf, id, p);
    }
  }

  // ----- Revoking

  /**
   Revoking an agent without force, on what the tables then hold: wherever it left keys they are
   being reported, so an agent that is not in the middle of a cycle has left none.
   */
  lemma RevokedLeavesNothing(s: System, id: int, seen: Seen, servers: seq<Server>, p: Pair)
    requires AllTracked(s) && id in s.agents && id in s.db.agents
    requires Admin.Unneeded(WorldOf(s.db.tables, seen, servers), id) && KeysAt(s, id, p)
    ensures Pending(s.agents[id].phase, p)
  {
    hide Admin.Unneeded, NoKeys, FileAt;
    Admin.UnneededHasNoRows(s.db.tables, seen, servers, id);
    assert Tracked(s, id);
    assert OnRecord(s, id, p) ==> Row(id, p.ref, p.unixUser) in Mine(s.db.tables.managed, id);
  }
}
