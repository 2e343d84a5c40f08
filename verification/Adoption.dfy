/** Which entity tags an agent may hold (internal/agent/loop.go, internal/api/ssh_agent_sync.go). */
module Adoption {
  import opened Common
  import opened Strings
  import opened Block
  import opened Desired
  import opened Store
  import opened Snapshot
  import opened SyncApi
  import opened Apply
  import opened Protocol

  // ----- What the server sends is sound

  lemma {:induction false} ClearedCount(managed: seq<Row>, agentId: int, frozen: set<string>, ref: string,
      kept: set<string>, u: string)
    ensures multiset(Cleared(managed, agentId, frozen, ref, kept))[u] ==
            if ref !in frozen && u !in kept then multiset(managed)[Row(agentId, ref, u)] else 0
  {
    if managed != [] {
      var init, last := managed[..|managed| - 1], managed[|managed| - 1];
      ClearedCount(init, agentId, frozen, ref, kept, u);
      assert managed == init + [last];
    }
  }

  lemma GoalsSound(w: World, agentId: int)
    requires forall m :: multiset(w.managed)[m] <= 1
    ensures Sound(Goals(w, agentId))
  {
    hide UsersOf, Ips, Frozen, ActiveRefs, ManagedRefs, Cleared, ActiveFor, Base;
    var goals := Goals(w, agentId);
    forall ref, u | ref in goals && u in goals[ref].clear ensures goals[ref].clear[u] == 1 && u !in goals[ref].users {
      ClearedCount(w.managed, agentId, Frozen(w.bindings, Ips(w.servers), agentId), ref,
          Base(w, agentId, ref).users.Keys, u);
    }
  }

  /** A pair in an answer is written or cleared but not both, and cleared once. */
  lemma AnswersSound(t: Tables, seen: Seen, hostsOf: HostsOf, agentId: int)
    ensures GoalsOf(t, seen, hostsOf, agentId).Some? ==> Sound(GoalsOf(t, seen, hostsOf, agentId).value)
  {
    hide Goals, Sound, Implausible;
    if GoalsOf(t, seen, hostsOf, agentId).Some? {
      var w := WorldOf(t, seen, hostsOf(seen.policy).value);
      forall m ensures multiset(w.managed)[m] <= 1 {
        assert multiset(w.managed) == multiset(t.managed);
      }
      GoalsSound(w, agentId);
    }
  }

  // ----- What clean work means

  /**
   A call of Apply without a warning: complete, every file to write holds exactly its lines, and
   every file to clear holds no keys or is that of a user reported gone, left as it was.
   */
  lemma CleanWork(files: Files, goals: GoalMap, discovered: seq<Discovered>, replies: Pair -> Reply)
    requires Sound(goals) && WorkOn(files, Some(goals), discovered, replies).2
    ensures var (end, report, _) := WorkOn(files, Some(goals), discovered, replies);
            && Complete(goals, report)
            && (forall ref, u :: ref in goals && u in goals[ref].users ==>
                  Managing(FileAt(end, Pair(ref, u))) == goals[ref].users[u])
            && (forall ref, u :: ref in goals && u in goals[ref].clear ==>
                  ClearedOrGone(files, end, Pair(ref, u), replies(Pair(ref, u))))
  {
    hide Run, Apply.Work, Sound, GateOf, FileAt, WriteFile, ClearFile, Managing, NoKeys, Parse, Lists;
    var running := Running(discovered);
    var end := Run(files, Apply.Work(ListOf(goals), running), replies);
    ApplyMeans(ListOf(goals), goals, running, files, replies);
    assert AllDone(goals, running, files, replies);
    forall ref, u | ref in goals && u in goals[ref].users
      ensures Pair(ref, u) in end.report.applied && Managing(FileAt(end.files, Pair(ref, u))) == goals[ref].users[u]
    {
      var p := Pair(ref, u);
      assert PairDone(end, goals, running, files, replies, p);
      PairHolds(goals, running, p, FileAt(files, p), replies(p));
    }
    forall ref, u | ref in goals && u in goals[ref].clear
      ensures Pair(ref, u) in end.report.cleared
      ensures ClearedOrGone(files, end.files, Pair(ref, u), replies(Pair(ref, u)))
    {
      var p := Pair(ref, u);
      assert PairDone(end, goals, running, files, replies, p);
      PairHolds(goals, running, p, FileAt(files, p), replies(p));
    }
    SomeIn(end.report.mismatched);
  }

  /** What a pair named as cleared comes to. */
  ghost predicate ClearedOrGone(files: Files, end: Files, p: Pair, reply: Reply) {
    if reply.probe == NoSuchUser then reply.leftover == Gone && FileAt(end, p) == FileAt(files, p)
        else NoKeys(FileAt(end, p))
  }

  lemma SomeIn(refs: seq<string>)
    ensures refs == [] || exists ref :: ref in refs
  {
    if refs != [] {
      assert refs[0] in refs;
    }
  }

  // ----- The invariant, event by event

  /** History only grows, so an agent that did not move is still as it should be. */
  lemma StillOk(s: System, t: System, id: int)
    requires id in s.agents && id in t.agents && t.agents[id] == s.agents[id] && AgentOk(s, id)
    requires s.served <= t.served && s.done <= t.done
    ensures AgentOk(t, id)
  {
    hide Complete;
    if s.agents[id].tag.Some? {
      StillCarriedOut(s, t, id, s.agents[id].tag.value);
    }
    if s.agents[id].phase.Reported? && s.agents[id].phase.clean && s.agents[id].phase.goals.Some? {
      StillCarriedOut(s, t, id, s.agents[id].phase.tag);
    }
  }

  lemma StillCarriedOut(s: System, t: System, id: int, tag: ETag)
    requires CarriedOut(s, id, tag) && s.done <= t.done
    ensures CarriedOut(t, id, tag)
  {
    var d :| d in s.done && d.agentId == id && d.tag == tag;
    assert d in t.done;
  }

  /** An agent that drops its request and keeps its tag. */
  lemma IdleOk(s: System, t: System, id: int)
    requires id in s.agents && id in t.agents && AgentOk(s, id)
    requires t.agents[id].phase == Idle && (t.agents[id].tag == s.agents[id].tag || t.agents[id].tag == None)
    requires s.served <= t.served && s.done <= t.done
    ensures AgentOk(t, id)
  {
    hide Complete;
    if t.agents[id].tag.Some? {
      StillCarriedOut(s, t, id, s.agents[id].tag.value);
    }
  }

  /** All agents but one stay as they are, and so does the history. */
  lemma OneMoves(s: System, t: System, id: int)
    requires AgentInv(s) && t.served == s.served && t.done == s.done
    requires t.agents.Keys == s.agents.Keys + {id} && forall k :: k in s.agents && k != id ==>
               t.agents[k] == s.agents[k]
    requires AgentOk(t, id)
    ensures AgentInv(t)
  {
    hide AgentOk, Complete, Sound;
    forall k | k in t.agents ensures AgentOk(t, k) {
      if k != id {
        StillOk(s, t, k);
      }
    }
  }

  lemma RestartOk(s: System, boot: string)
    requires AgentInv(s)
    ensures AgentInv(RestartNext(s, boot))
  {
    hide Complete, Sound, AgentOk;
    var t := RestartNext(s, boot);
    forall k | k in t.agents ensures AgentOk(t, k) {
      if t.agents[k] == s.agents[k] {
        StillOk(s, t, k);
      } else {
        IdleOk(s, t, k);
      }
    }
  }

  lemma BeginOk(s: System, id: int, force: bool)
    requires AgentInv(s) && id in s.agents
    ensures AgentInv(BeginNext(s, id, force))
  {
    hide Complete, Sound;
    var t := BeginNext(s, id, force);
    if t != s {
      assert AgentOk(s, id);
      assert s.agents[id].tag.Some? ==> CarriedOut(t, id, s.agents[id].tag.value);
      OneMoves(s, t, id);
    }
  }

  lemma ReadOk(s: System, id: int)
    requires AgentInv(s) && id in s.agents
    ensures AgentInv(ReadRevisionNext(s, id))
  {
    hide Complete, Sound;
    var t := ReadRevisionNext(s, id);
    if t != s {
      assert AgentOk(s, id);
      assert s.agents[id].tag.Some? ==> CarriedOut(t, id, s.agents[id].tag.value);
      OneMoves(s, t, id);
    }
  }

  lemma LoadOk(s: System, id: int, hostsOf: HostsOf)
    requires AgentInv(s) && id in s.agents
    ensures AgentInv(LoadTablesNext(s, id, hostsOf))
  {
    hide Complete, Sound, GoalsOf, SeenOf;
    var t, a := LoadTablesNext(s, id, hostsOf), s.agents[id];
    if a.phase.Tagged? {
      assert AgentOk(s, id);
      AnswersSound(s.db.tables, SeenOf(a.phase.snap.content), hostsOf, id);
      forall k | k in t.agents ensures AgentOk(t, k) {
        if k != id {
          StillOk(s, t, k);
        } else if a.tag.Some? {
          StillCarriedOut(s, t, k, a.tag.value);
        }
      }
    }
  }

  lemma WorkOk(s: System, id: int, discovered: seq<Discovered>, replies: Pair -> Reply)
    requires AgentInv(s) && id in s.agents
    ensures AgentInv(WorkNext(s, id, discovered, replies))
  {
    hide Complete, Sound, WorkOn;
    var t, a := WorkNext(s, id, discovered, replies), s.agents[id];
    if a.phase.Answered? {
      assert AgentOk(s, id);
      if a.phase.goals.Some? && WorkOn(a.files, a.phase.goals, discovered, replies).2 {
        CleanWork(a.files, a.phase.goals.value, discovered, replies);
      }
      if a.tag.Some? {
        StillCarriedOut(s, t, id, a.tag.value);
      }
      OneMoves(s, t, id);
    }
  }

  lemma DeliverOk(s: System, id: int)
    requires AgentInv(s) && id in s.agents
    ensures AgentInv(DeliverNext(s, id))
  {
    hide Complete, Sound, Record, Checked;
    var t, a := DeliverNext(s, id), s.agents[id];
    if t != s {
      assert AgentOk(s, id);
      forall k | k in t.agents ensures AgentOk(t, k) {
        if k != id {
          StillOk(s, t, k);
        } else if t.agents[id].phase.Idle? {
          IdleOk(s, t, id);
        } else {
          if a.tag.Some? {
            StillCarriedOut(s, t, k, a.tag.value);
          }
          if a.phase.clean && a.phase.goals.Some? {
            assert Done(id, a.phase.tag, a.phase.goals.value, a.phase.report) in t.done;
          }
        }
      }
    }
  }

  /** Only here is a tag taken over: it was carried out, or it is the tag already held. */
  lemma AdoptOk(s: System, id: int)
    requires AgentInv(s) && id in s.agents
    ensures AgentInv(AdoptNext(s, id))
  {
    hide Complete, Sound;
    var t, a := AdoptNext(s, id), s.agents[id];
    if a.phase.Reported? {
      assert AgentOk(s, id);
      if t.agents[id].tag.Some? {
        StillCarriedOut(s, t, id, t.agents[id].tag.value);
      }
      OneMoves(s, t, id);
    }
  }

  lemma EditOk(s: System, id: int, files: Files)
    requires AgentInv(s) && id in s.agents
    ensures AgentInv(WithAgent(s, id, s.agents[id].(files := files)))
  {
    hide Complete, Sound;
    var t, a := WithAgent(s, id, s.agents[id].(files := files)), s.agents[id];
    assert AgentOk(s, id);
    if a.tag.Some? {
      StillCarriedOut(s, t, id, a.tag.value);
    }
    if a.phase.Reported? && a.phase.clean && a.phase.goals.Some? {
      StillCarriedOut(s, t, id, a.phase.tag);
    }
    OneMoves(s, t, id);
  }

  lemma DbIrrelevant(s: System, t: System)
    requires AgentInv(s) && t.agents == s.agents && t.served == s.served && t.done == s.done
    ensures AgentInv(t)
  {
    hide Complete, Sound, AgentOk;
    forall k | k in t.agents ensures AgentOk(t, k) {
      StillOk(s, t, k);
    }
  }

  lemma AgentStep(s: System, e: Event, hostsOf: HostsOf)
    requires AgentInv(s)
    ensures AgentInv(Next(s, e, hostsOf))
  {
    hide *;
    NextUnfolds(s, e, hostsOf);
    if !(e.Write? || e.Poll? || e.Restart? || e.Join?) && e.agentId !in s.agents {
      return;
    }
    match e
    case Write(op) => DbIrrelevant(s, Next(s, e, hostsOf));
    case Poll(fetched) => PollIrrelevant(s, fetched);
    case Restart(boot) => RestartOk(s, boot);
    case Join(id, files) => JoinOk(s, id, files);
    case Begin(id, force) => BeginOk(s, id, force);
    case ReadRevision(id) => ReadOk(s, id);
    case LoadTables(id) => LoadOk(s, id, hostsOf);
    case Work(id, discovered, replies) => WorkOk(s, id, discovered, replies);
    case Deliver(id) => DeliverOk(s, id);
    case Adopt(id) => AdoptOk(s, id);
    case ListManaged(id) => LeavingOk(s, id, ListManagedNext(s, id));
    case ClearManaged(id, discovered, replies) => LeavingOk(s, id, ClearManagedNext(s, id, discovered, replies));
    case Leave(id) => LeavingOk(s, id, LeaveNext(s, id));
    case Abandon(id) => BackToIdle(s, id, s.agents[id].(phase := Idle));
    case AgentRestart(id) => BackToIdle(s, id, Agent(None, Idle, s.agents[id].files));
    case Edit(id, pair, text) => EditOk(s, id, Put(s.agents[id].files, pair, text));
  }

  lemma NextUnfolds(s: System, e: Event, hostsOf: HostsOf)
    ensures !(e.Write? || e.Poll? || e.Restart? || e.Join?) && e.agentId !in s.agents ==> Next(s, e, hostsOf) == s
    ensures e.Write? ==> Next(s, e, hostsOf) == s.(db := Do(s.db, e.op))
    ensures e.Poll? ==> Next(s, e, hostsOf) == PollNext(s, e.fetched)
    ensures e.Restart? ==> Next(s, e, hostsOf) == RestartNext(s, e.boot)
    ensures e.Join? ==> Next(s, e, hostsOf) == if e.agentId in s.agents then s
              else WithAgent(s, e.agentId, Agent(None, Idle, e.files))
    ensures e.Begin? && e.agentId in s.agents ==> Next(s, e, hostsOf) == BeginNext(s, e.agentId, e.force)
    ensures e.ReadRevision? && e.agentId in s.agents ==> Next(s, e, hostsOf) == ReadRevisionNext(s, e.agentId)
    ensures e.LoadTables? && e.agentId in s.agents ==> Next(s, e, hostsOf) == LoadTablesNext(s, e.agentId, hostsOf)
    ensures e.Work? && e.agentId in s.agents ==> Next(s, e, hostsOf) == WorkNext(s, e.agentId, e.discovered, e.replies)
    ensures e.Deliver? && e.agentId in s.agents ==> Next(s, e, hostsOf) == DeliverNext(s, e.agentId)
    ensures e.Adopt? && e.agentId in s.agents ==> Next(s, e, hostsOf) == AdoptNext(s, e.agentId)
    ensures e.ListManaged? && e.agentId in s.agents ==> Next(s, e, hostsOf) == ListManagedNext(s, e.agentId)
    ensures e.ClearManaged? && e.agentId in s.agents ==>
              Next(s, e, hostsOf) == ClearManagedNext(s, e.agentId, e.discovered, e.replies)
    ensures e.Leave? && e.agentId in s.agents ==> Next(s, e, hostsOf) == LeaveNext(s, e.agentId)
    ensures e.Abandon? && e.agentId in s.agents ==>
              Next(s, e, hostsOf) == WithAgent(s, e.agentId, s.agents[e.agentId].(phase := Idle))
    ensures e.AgentRestart? && e.agentId in s.agents ==>
              Next(s, e, hostsOf) == WithAgent(s, e.agentId, Agent(None, Idle, s.agents[e.agentId].files))
    ensures e.Edit? && e.agentId in s.agents ==>
              Next(s, e, hostsOf) ==
                  WithAgent(s, e.agentId, s.agents[e.agentId].(files := Put(s.agents[e.agentId].files, e.pair, e.text)))
  {
    hide PollNext, RestartNext, BeginNext, ReadRevisionNext, LoadTablesNext, WorkNext, DeliverNext, AdoptNext,
        ListManagedNext, ClearManagedNext, LeaveNext, Do, Put;
  }

  lemma PollIrrelevant(s: System, fetched: Option<Fetched>)
    requires AgentInv(s)
    ensures AgentInv(PollNext(s, fetched))
  {
    hide AgentInv, Polled, SeenOf;
    DbIrrelevant(s, PollNext(s, fetched));
  }

  /** An uninstall keeps the tag. */
  lemma LeavingOk(s: System, id: int, t: System)
    requires AgentInv(s) && id in s.agents
    requires t == ListManagedNext(s, id) || t == LeaveNext(s, id)
             || exists d, replies :: t == ClearManagedNext(s, id, d, replies)
    ensures AgentInv(t)
  {
    hide Complete, Sound, WorkOn, RetireAgent, AcceptedPairs, Mine;
    if t != s {
      assert AgentOk(s, id);
      if t.agents[id].tag.Some? {
        StillCarriedOut(s, t, id, t.agents[id].tag.value);
      }
      OneMoves(s, t, id);
    }
  }

  lemma JoinOk(s: System, id: int, files: Files)
    requires AgentInv(s)
    ensures id in s.agents || AgentInv(WithAgent(s, id, Agent(None, Idle, files)))
  {
    hide Complete, Sound;
    if id !in s.agents {
      OneMoves(s, WithAgent(s, id, Agent(None, Idle, files)), id);
    }
  }

  lemma BackToIdle(s: System, id: int, a: Agent)
    requires AgentInv(s) && id in s.agents && a.phase == Idle && (a.tag == s.agents[id].tag || a.tag == None)
    ensures AgentInv(WithAgent(s, id, a))
  {
    hide AgentOk;
    IdleOk(s, WithAgent(s, id, a), id);
    OneMoves(s, WithAgent(s, id, a), id);
  }

  lemma {:induction false} AgentRun(s: System, events: seq<Event>, hostsOf: HostsOf)
    requires AgentInv(s)
    ensures AgentInv(Play(s, events, hostsOf))
  {
    hide AgentInv, Next;
    if events != [] {
      AgentRun(s, events[..|events| - 1], hostsOf);
      AgentStep(Play(s, events[..|events| - 1], hostsOf), events[|events| - 1], hostsOf);
    }
  }

  /**
   At every point of every run, the tag an agent holds was served to it with goals it carried out
   in full, in a report the server recorded: every pair to write named as applied, every pair to
   clear named as cleared, and no target a mismatch.
   */
  lemma AdoptedWasCarriedOut(s: System, events: seq<Event>, hostsOf: HostsOf, id: int)
    returns (d: Done)
    requires Start(s)
    requires var t := Play(s, events, hostsOf); id in t.agents && t.agents[id].tag.Some?
    ensures var t := Play(s, events, hostsOf);
            && d in t.done && d.agentId == id && d.tag == t.agents[id].tag.value
            && WasServed(t, id, d.tag, d.goals) && Complete(d.goals, d.report)
  {
    StartsWell(s, hostsOf);
    AgentRun(s, events, hostsOf);
    hide Play, Complete, Sound;
    var t := Play(s, events, hostsOf);
    assert AgentOk(t, id);
    d :| d in t.done && d.agentId == id && d.tag == t.agents[id].tag.value;
  }

  /**
   The two together: an agent that is told 304 has, at some point, carried out and reported exactly
   what the server would send it now.
   */
  lemma NotModifiedMeansDone(s: System, events: seq<Event>, hostsOf: HostsOf, id: int)
    returns (d: Done)
    requires Start(s)
    requires var t := Play(s, events, hostsOf);
             && id in t.agents && t.agents[id].phase.Snapped?
             && t.agents[id].phase.ask == Some(TagOf(t, t.agents[id].phase.snap))
    ensures var t := Play(s, events, hostsOf);
            && d in t.done && d.agentId == id && Complete(d.goals, d.report)
            && GoalsOf(t.db.tables, SeenOf(t.agents[id].phase.snap.content), hostsOf, id) == Some(d.goals)
  {
    hide Play, Complete, Sound, GoalsOf, SeenOf;
    HeldAsk(s, events, hostsOf, id);
    d := AdoptedWasCarriedOut(s, events, hostsOf, id);
    NotModifiedSound(s, events, hostsOf, id, d.goals);
  }

  lemma HeldAsk(s: System, events: seq<Event>, hostsOf: HostsOf, id: int)
    requires Start(s)
    requires var t := Play(s, events, hostsOf);
             id in t.agents && t.agents[id].phase.Snapped? && t.agents[id].phase.ask.Some?
    ensures var t := Play(s, events, hostsOf); t.agents[id].tag == t.agents[id].phase.ask
  {
    StartsWell(s, hostsOf);
    AgentRun(s, events, hostsOf);
    hide Play, Complete, Sound;
    assert AgentOk(Play(s, events, hostsOf), id);
  }
}
