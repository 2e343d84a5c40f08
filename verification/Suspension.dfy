/** What a reported mismatch stops (internal/sshsync/desired.go, internal/store/ssh.go, internal/agent/apply.go). */
module Suspension {
  import opened Common
  import opened Desired
  import opened Store
  import opened Snapshot
  import opened SyncApi
  import opened Apply
  import opened Protocol

  /** The binding of `host` to target `ref` of agent `a` is suspended. */
  ghost predicate Held(db: Db, host: string, a: int, ref: string) {
    host in db.tables.targets && SameTarget(db.tables.targets[host], Binding(host, a, ref, "", "", true))
        && db.tables.targets[host].suspended
  }

  /** The writes that re-approve the host or remove its binding. */
  predicate Lifts(op: Op, host: string, a: int) {
    match op
    case OpApprove(b) => b.hostName == host
    case OpDeleteTarget(h) => h == host
    case OpDeleteHost(h) => h == host
    case OpDeleteAgent(id) => id == a
    case OpRetire(id, _) => id == a
    case _ => false
  }

  lemma WriteHolds(db: Db, op: Op, host: string, a: int, ref: string)
    requires Held(db, host, a, ref) && !Lifts(op, host, a)
    ensures Held(Do(db, op), host, a, ref)
  {
    hide FilterKeys, Rows, Mine;
  }

  // ----- What the goals say of a held target

  lemma {:induction false} IpsNames(servers: seq<Server>, host: string)
    ensures host in Ips(servers) <==> exists sv :: sv in servers && sv.name == host
  {
    if servers != [] {
      var init, last := servers[..|servers| - 1], servers[|servers| - 1];
      IpsNames(init, host);
      assert servers == init + [last];
    }
  }

  /** Clears and nothing else, on whatever machine answers to the ref. */
  ghost predicate ClearOnly(g: Goal) {
    g.expectIp == "" && g.expectLabel == "" && g.users == map[] && g.clear != multiset{}
  }

  lemma HeldStates(db: Db, host: string, a: int, ref: string, ips: map<string, string>, bindings: seq<Binding>)
    requires Valid(db) && Held(db, host, a, ref)
    requires forall b :: b in bindings <==> b in db.tables.targets.Values
    ensures ref !in ActiveRefs(bindings, ips, a)
    ensures ref in Frozen(bindings, ips, a) <==> host in ips
  {
    var mine := db.tables.targets[host];
    forall b | b in bindings && b.agentId == a && b.targetRef == ref ensures b == mine {
      var h :| h in db.tables.targets && db.tables.targets[h] == b;
      assert h != host ==> !SameTarget(db.tables.targets[h], db.tables.targets[host]);
    }
    assert mine in db.tables.targets.Values;
    assert StateOf(mine, ips) == if host in ips then Suspended else Orphan;
  }

  /**
   While a binding is held, an answer names its ref exactly when the host has left the policy and
   rows are still recorded for the ref; then the answer only clears them.
   */
  lemma HeldGoals(db: Db, host: string, a: int, ref: string, seen: Seen, hostsOf: HostsOf)
    requires Valid(db) && Held(db, host, a, ref)
    requires GoalsOf(db.tables, seen, hostsOf, a).Some?
    ensures var goals, servers := GoalsOf(db.tables, seen, hostsOf, a).value, hostsOf(seen.policy).value;
            && (ref in goals <==> (forall sv :: sv in servers ==> sv.name != host) && exists u ::
                Row(a, ref, u) in db.tables.managed)
            && (ref in goals ==> ClearOnly(goals[ref]))
  {
    hide Valid, Held, Implausible, Ips, ActiveRefs, Frozen, Cleared, ActiveFor, UsersOf, SameTarget;
    var servers := hostsOf(seen.policy).value;
    var w := WorldOf(db.tables, seen, servers);
    var goals, ips := Goals(w, a), Ips(servers);
    IpsNames(servers, host);
    HeldStates(db, host, a, ref, ips, w.bindings);
    NotActive(w.bindings, ips, a, ref);
    RowsOfRef(w.managed, db.tables.managed, a, ref, Frozen(w.bindings, ips, a));
    if ref in goals {
      var u :| Row(a, ref, u) in db.tables.managed;
      ClearsAreRows(w, a, ref, u);
      assert u in goals[ref].clear;
    }
  }

  lemma RowsOfRef(listed: seq<Row>, managed: set<Row>, a: int, ref: string, frozen: set<string>)
    requires forall m :: m in listed <==> m in managed
    ensures ref in ManagedRefs(listed, a, frozen) <==> ref !in frozen && exists u :: Row(a, ref, u) in managed
  {
    if u :| Row(a, ref, u) in managed {
      assert Row(a, ref, u) in listed;
    }
    if ref in ManagedRefs(listed, a, frozen) {
      var m :| m in listed && m.agentId == a && m.targetRef !in frozen && m.targetRef == ref;
      assert m == Row(a, ref, m.unixUser);
    }
  }

  /** Agent 1's binding of "web" to "105" is suspended, and a block of root is on record there. */
  ghost function SuspendedHost(): Db {
    Db(5, {1}, 0, Tables([], {}, map["web" := Binding("web", 1, "105", "100.64.0.1", "web", true)],
        {Row(1, "105", "root")}))
  }

  /** With "web" gone from the policy, the next answer names the target after all, to clear it. */
  lemma HeldNamed(seen: Seen, hostsOf: HostsOf)
    requires hostsOf(seen.policy) == Some([Server("db", "100.64.0.2")])
    ensures var db := SuspendedHost();
            && Valid(db) && Held(db, "web", 1, "105")
            && GoalsOf(db.tables, seen, hostsOf, 1).Some?
            && "105" in GoalsOf(db.tables, seen, hostsOf, 1).value
            && ClearOnly(GoalsOf(db.tables, seen, hostsOf, 1).value["105"])
  {
    hide Goals, ClearOnly;
    var db := SuspendedHost();
    assert Valid(db) && Held(db, "web", 1, "105");
    assert GoalsOf(db.tables, seen, hostsOf, 1).Some?;
    assert Row(1, "105", "root") in db.tables.managed;
    HeldGoals(db, "web", 1, "105", seen, hostsOf);
  }

  // ----- Runs

  /** A write that lifts the suspension, or the agent leaving. */
  ghost predicate EventLifts(e: Event, host: string, a: int) {
    (e.Write? && Lifts(e.op, host, a)) || (e.Leave? && e.agentId == a)
  }

  ghost predicate NeverLifted(events: seq<Event>, host: string, a: int) {
    forall e :: e in events ==> !EventLifts(e, host, a)
  }

  /** Answers given since `before` name the ref only to clear it. */
  ghost predicate OnlyCleared(s: System, before: set<Served>, a: int, ref: string) {
    forall v :: v in s.served && v !in before && v.agentId == a && ref in v.goals ==> ClearOnly(v.goals[ref])
  }

  ghost predicate Silent(s: System, before: set<Served>, host: string, a: int, ref: string) {
    Valid(s.db) && Held(s.db, host, a, ref) && OnlyCleared(s, before, a, ref)
  }

  lemma SilentLoad(s: System, id: int, hostsOf: HostsOf, before: set<Served>, host: string, a: int, ref: string)
    requires Silent(s, before, host, a, ref) && id in s.agents
    ensures Silent(LoadTablesNext(s, id, hostsOf), before, host, a, ref)
  {
    hide Valid, Held, GoalsOf, ClearOnly, SeenOf;
    var p := s.agents[id].phase;
    if p.Tagged? && GoalsOf(s.db.tables, SeenOf(p.snap.content), hostsOf, id).Some? && id == a {
      HeldGoals(s.db, host, a, ref, SeenOf(p.snap.content), hostsOf);
    }
  }

  lemma SilentDb(s: System, t: System, op: Op, before: set<Served>, host: string, a: int, ref: string)
    requires Silent(s, before, host, a, ref) && !Lifts(op, host, a)
    requires t.db == Do(s.db, op) && t.served == s.served
    ensures Silent(t, before, host, a, ref)
  {
    hide Valid, Held, Do, ClearOnly;
    WriteHolds(s.db, op, host, a, ref);
    WritesKeepValid(s.db, op);
  }

  lemma SilentDeliver(s: System, id: int, before: set<Served>, host: string, a: int, ref: string)
    requires Silent(s, before, host, a, ref) && id in s.agents
    ensures Silent(DeliverNext(s, id), before, host, a, ref)
  {
    hide Valid, Held, ClearOnly, Record, Checked;
    if s.agents[id].phase.Worked? {
      SilentDb(s, s.(db := Do(s.db, OpRecord(id, Checked(s.agents[id].phase.report)))),
          OpRecord(id, Checked(s.agents[id].phase.report)), before, host, a, ref);
    }
  }

  lemma SilentLeave(s: System, id: int, before: set<Served>, host: string, a: int, ref: string)
    requires Silent(s, before, host, a, ref) && id in s.agents && id != a
    ensures Silent(LeaveNext(s, id), before, host, a, ref)
  {
    hide Valid, Held, ClearOnly, RetireAgent, AcceptedPairs;
    if s.agents[id].phase.Emptied? {
      var op := OpRetire(id, AcceptedPairs(s.agents[id].phase.cleared));
      SilentDb(s, s.(db := Do(s.db, op)), op, before, host, a, ref);
    }
  }

  lemma SilentStep(s: System, e: Event, hostsOf: HostsOf, before: set<Served>, host: string, a: int, ref: string)
    requires Silent(s, before, host, a, ref) && !EventLifts(e, host, a)
    ensures Silent(Next(s, e, hostsOf), before, host, a, ref)
  {
    hide Valid, Held, ClearOnly, Do, LoadTablesNext, DeliverNext, LeaveNext, Polled, WorkOn, Lifts, Mine;
    match e
    case Write(op) => SilentDb(s, Next(s, e, hostsOf), op, before, host, a, ref);
    case LoadTables(id) => if id in s.agents { SilentLoad(s, id, hostsOf, before, host, a, ref); }
    case Deliver(id) => if id in s.agents { SilentDeliver(s, id, before, host, a, ref); }
    case Leave(id) => if id in s.agents { SilentLeave(s, id, before, host, a, ref); }
    case _ =>
  }

  lemma {:induction false} SilentRun(s: System, events: seq<Event>, hostsOf: HostsOf, before: set<Served>,
      host: string, a: int, ref: string)
    requires Silent(s, before, host, a, ref) && NeverLifted(events, host, a)
    ensures Silent(Play(s, events, hostsOf), before, host, a, ref)
  {
    hide Silent, Next, EventLifts;
    if events != [] {
      var init, last := events[..|events| - 1], events[|events| - 1];
      assert last in events && forall e :: e in init ==> e in events;
      SilentRun(s, init, hostsOf, before, host, a, ref);
      SilentStep(Play(s, init, hostsOf), last, hostsOf, before, host, a, ref);
    }
  }

  /**
   A recorded mismatch holds over whole runs: whatever else happens, until the host is re-approved
   or its binding removed, no new answer to the agent writes to that ref, and one names it only as
   the last lemma says.
   */
  lemma HeldOverRuns(s: System, events: seq<Event>, hostsOf: HostsOf, host: string, a: int, ref: string)
    requires Valid(s.db) && Held(s.db, host, a, ref) && NeverLifted(events, host, a)
    ensures var t := Play(s, events, hostsOf);
            Held(t.db, host, a, ref) && Valid(t.db) && OnlyCleared(t, s.served, a, ref)
  {
    hide Valid, Held, Play, NeverLifted;
    SilentRun(s, events, hostsOf, s.served, host, a, ref);
  }

  // ----- While the host stays in the policy, nothing at all

  ghost predicate HostIn(content: Fetched, hostsOf: HostsOf, host: string) {
    hostsOf(content.policy).Some? ==> exists sv :: sv in hostsOf(content.policy).value && sv.name == host
  }

  /** Every policy the server works with still has the host. */
  ghost predicate StaysIn(s: System, hostsOf: HostsOf, host: string) {
    && (s.watch.snap.Some? ==> HostIn(s.watch.snap.value.content, hostsOf, host))
    && forall id :: id in s.agents ==>
         (s.agents[id].phase.Snapped? || s.agents[id].phase.Tagged? ==>
             HostIn(s.agents[id].phase.snap.content, hostsOf, host))
  }

  ghost predicate PolicyKeeps(events: seq<Event>, hostsOf: HostsOf, host: string) {
    forall e :: e in events && e.Poll? && e.fetched.Some? ==> HostIn(e.fetched.value, hostsOf, host)
  }

  ghost predicate NeverNamed(s: System, before: set<Served>, a: int, ref: string) {
    forall v :: v in s.served && v !in before && v.agentId == a ==> ref !in v.goals
  }

  lemma NamedStep(s: System, e: Event, hostsOf: HostsOf, before: set<Served>, host: string, a: int, ref: string)
    requires Valid(s.db) && Held(s.db, host, a, ref)
    requires StaysIn(s, hostsOf, host) && NeverNamed(s, before, a, ref)
    requires e.Poll? && e.fetched.Some? ==> HostIn(e.fetched.value, hostsOf, host)
    ensures StaysIn(Next(s, e, hostsOf), hostsOf, host) && NeverNamed(Next(s, e, hostsOf), before, a, ref)
  {
    hide Valid, Held, HostIn, Do, GoalsOf, WorkOn, Record, RetireAgent, SeenOf, Changed;
    if e.LoadTables? && e.agentId in s.agents {
      var p := s.agents[e.agentId].phase;
      if p.Tagged? && GoalsOf(s.db.tables, SeenOf(p.snap.content), hostsOf, e.agentId).Some? && e.agentId == a {
        HeldGoals(s.db, host, a, ref, SeenOf(p.snap.content), hostsOf);
        PolicySeen(p.snap.content, hostsOf, host, s.db.tables, a);
      }
    }
  }

  lemma PolicySeen(content: Fetched, hostsOf: HostsOf, host: string, t: Tables, a: int)
    requires HostIn(content, hostsOf, host) && GoalsOf(t, SeenOf(content), hostsOf, a).Some?
    ensures hostsOf(SeenOf(content).policy).Some?
    ensures exists sv :: sv in hostsOf(SeenOf(content).policy).value && sv.name == host
  {
    hide Goals, Implausible, WorldOf, LiveUsers;
  }

  lemma {:induction false} NamedRun(s: System, events: seq<Event>, hostsOf: HostsOf, before: set<Served>,
      host: string, a: int, ref: string)
    requires Valid(s.db) && Held(s.db, host, a, ref) && NeverLifted(events, host, a)
    requires StaysIn(s, hostsOf, host) && PolicyKeeps(events, hostsOf, host) && before == s.served
    ensures var t := Play(s, events, hostsOf); StaysIn(t, hostsOf, host) && NeverNamed(t, before, a, ref)
  {
    hide Valid, Held, StaysIn, Next, EventLifts, HostIn, OnlyCleared;
    if events != [] {
      var init, last := events[..|events| - 1], events[|events| - 1];
      assert last in events && forall e :: e in init ==> e in events;
      NamedRun(s, init, hostsOf, before, host, a, ref);
      HeldOverRuns(s, init, hostsOf, host, a, ref);
      NamedStep(Play(s, init, hostsOf), last, hostsOf, before, host, a, ref);
    }
  }

  // ----- From the mismatch to the suspension

  /** A target that is not the approved machine: none of its files changes, and the report says so. */
  lemma MismatchTouchesNothing(files: Files, goals: GoalMap, discovered: seq<Discovered>, replies: Pair -> Reply,
      ref: string)
    requires Sound(goals) && ref in goals && GoalGate(goals, Running(discovered), ref) == Mismatch
    ensures var (end, report, clean) := WorkOn(files, Some(goals), discovered, replies);
            ref in report.mismatched && !clean && forall u :: FileAt(end, Pair(ref, u)) == FileAt(files, Pair(ref, u))
  {
    hide Run, Apply.Work, Sound, GateOf, FileAt, WriteFile, ClearFile, Lists;
    var running := Running(discovered);
    var end := Run(files, Apply.Work(ListOf(goals), running), replies);
    ApplyMeans(ListOf(goals), goals, running, files, replies);
    forall u ensures FileAt(end.files, Pair(ref, u)) == FileAt(files, Pair(ref, u)) {
      assert PairDone(end, goals, running, files, replies, Pair(ref, u));
    }
  }

  /** A ref an answer does not name has no file changed. */
  lemma UnnamedUntouched(files: Files, goals: GoalMap, discovered: seq<Discovered>, replies: Pair -> Reply, ref: string)
    requires Sound(goals) && ref !in goals
    ensures forall u :: FileAt(WorkOn(files, Some(goals), discovered, replies).0, Pair(ref, u)) ==
              FileAt(files, Pair(ref, u))
  {
    hide Run, Apply.Work, Sound, GateOf, FileAt, WriteFile, ClearFile, Lists;
    var running := Running(discovered);
    var end := Run(files, Apply.Work(ListOf(goals), running), replies);
    ApplyMeans(ListOf(goals), goals, running, files, replies);
    forall u ensures FileAt(end.files, Pair(ref, u)) == FileAt(files, Pair(ref, u)) {
      assert PairDone(end, goals, running, files, replies, Pair(ref, u));
    }
  }

  /** A mismatch the server receives holds the binding of that ref from then on. */
  lemma MismatchHolds(s: System, a: int, host: string, ref: string)
    requires a in s.agents && s.agents[a].phase.Worked? && ref in s.agents[a].phase.report.mismatched
               && a in s.db.agents
    requires host in s.db.tables.targets && SameTarget(s.db.tables.targets[host], Binding(host, a, ref, "", "", true))
    ensures Held(DeliverNext(s, a).db, host, a, ref)
  {
    hide Rows, AcceptedPairs;
  }

  /**
   The whole arc. Once the server has recorded a mismatch of (a, ref), then in any run that neither
   re-approves the host nor removes its binding or the agent, no answer to the agent writes to the
   ref; and if the host stays in the policy, none names it at all.
   */
  lemma MismatchSilences(s: System, a: int, host: string, ref: string, events: seq<Event>, hostsOf: HostsOf)
    requires Valid(s.db) && a in s.agents && s.agents[a].phase.Worked? && ref in s.agents[a].phase.report.mismatched
               && a in s.db.agents
    requires host in s.db.tables.targets && SameTarget(s.db.tables.targets[host], Binding(host, a, ref, "", "", true))
    requires NeverLifted(events, host, a)
    ensures var t := DeliverNext(s, a);
            && OnlyCleared(Play(t, events, hostsOf), t.served, a, ref)
            && (StaysIn(t, hostsOf, host) && PolicyKeeps(events, hostsOf, host) ==>
                NeverNamed(Play(t, events, hostsOf), t.served, a, ref))
  {
    hide *;
    var t := DeliverNext(s, a);
    MismatchHolds(s, a, host, ref);
    DeliverValid(s, a);
    HeldOverRuns(t, events, hostsOf, host, a, ref);
    if StaysIn(t, hostsOf, host) && PolicyKeeps(events, hostsOf, host) {
      NamedRun(t, events, hostsOf, t.served, host, a, ref);
    }
  }

  lemma DeliverValid(s: System, id: int)
    requires Valid(s.db) && id in s.agents
    ensures Valid(DeliverNext(s, id).db)
  {
    hide Valid, Record, Checked;
    if s.agents[id].phase.Worked? {
      WritesKeepValid(s.db, OpRecord(id, Checked(s.agents[id].phase.report)));
    }
  }

  // ----- What counts as a mismatch

  /**
   A target is reported as a mismatch exactly when it is running, all there is to compare could be
   read, and the address or the host name is another. One that is not running or cannot be read is
   skipped: it is not reported, and none of its files changes.
   */
  lemma MismatchExact(files: Files, goals: GoalMap, discovered: seq<Discovered>, replies: Pair -> Reply, ref: string)
    requires Sound(goals)
    ensures var report := WorkOn(files, Some(goals), discovered, replies).1;
            ref in report.mismatched <==>
              ref in goals && exists d :: FoundLast(discovered, ref, d)
                                          && Readable(d, goals[ref].expectIp, goals[ref].expectLabel)
                                          && !AsApproved(d, goals[ref].expectIp, goals[ref].expectLabel)
  {
    hide Run, Apply.Work, Sound, GateOf, FileAt, Lists, Running, FoundLast, Readable, AsApproved;
    var running := Running(discovered);
    ApplyMeans(ListOf(goals), goals, running, files, replies);
    RunningFinds(discovered, ref);
    LastOnly(discovered, ref);
    if ref in goals {
      GateMeans(ref, goals[ref].expectIp, goals[ref].expectLabel, running);
    }
  }

  lemma LastOnly(discovered: seq<Discovered>, ref: string)
    ensures forall d :: FoundLast(discovered, ref, d) ==> ref in Running(discovered) && Running(discovered)[ref] == d
  {
    RunningFinds(discovered, ref);
    hide Running;
    forall d | FoundLast(discovered, ref, d) ensures ref in Running(discovered) && Running(discovered)[ref] == d {
      var i :| 0 <= i < |discovered| && discovered[i] == d && d.ref == ref
               && forall j :: i < j < |discovered| ==> discovered[j].ref != ref;
      var k :| 0 <= k < |discovered| && discovered[k] == Running(discovered)[ref]
               && Running(discovered)[ref].ref == ref && forall j :: k < j < |discovered| ==> discovered[j].ref != ref;
      assert i == k;
    }
  }

  /** A file that changes is on a target found with the expected address and host name. */
  lemma ChangedIsExpected(files: Files, goals: GoalMap, discovered: seq<Discovered>, replies: Pair -> Reply, p: Pair)
    requires Sound(goals) && FileAt(WorkOn(files, Some(goals), discovered, replies).0, p) != FileAt(files, p)
    ensures p.ref in goals
    ensures exists d ::
              FoundLast(discovered, p.ref, d) && AsApproved(d, goals[p.ref].expectIp, goals[p.ref].expectLabel)
  {
    hide Run, Apply.Work, Sound, GateOf, FileAt, WriteFile, ClearFile, Lists, Running, FoundLast, AsApproved, Readable;
    var running := Running(discovered);
    var end := Run(files, Apply.Work(ListOf(goals), running), replies);
    ApplyMeans(ListOf(goals), goals, running, files, replies);
    assert PairDone(end, goals, running, files, replies, p);
    RunningFinds(discovered, p.ref);
    GateMeans(p.ref, goals[p.ref].expectIp, goals[p.ref].expectLabel, running);
  }

  /** A report never suspends the binding of a target that was not running or could not be read. */
  lemma UnreadableStays(s: System, id: int, discovered: seq<Discovered>, replies: Pair -> Reply, host: string)
    requires id in s.agents && s.agents[id].phase.Answered? && s.agents[id].phase.goals.Some?
    requires Sound(s.agents[id].phase.goals.value) && host in s.db.tables.targets
    requires var b, goals := s.db.tables.targets[host], s.agents[id].phase.goals.value;
             b.agentId == id && b.targetRef in goals ==>
               forall d :: FoundLast(discovered, b.targetRef, d) ==>
                 !Readable(d, goals[b.targetRef].expectIp, goals[b.targetRef].expectLabel)
    ensures var after := DeliverNext(WorkNext(s, id, discovered, replies), id).db.tables.targets;
            host in after && after[host] == s.db.tables.targets[host]
  {
    hide WorkOn, Sound, FoundLast, Readable, AsApproved, Rows, AcceptedPairs;
    var a, b := s.agents[id], s.db.tables.targets[host];
    MismatchExact(a.files, a.phase.goals.value, discovered, replies, b.targetRef);
    var t := WorkNext(s, id, discovered, replies);
    assert b.agentId == id ==> b.targetRef !in t.agents[id].phase.report.mismatched;
  }
}
