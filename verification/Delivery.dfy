/**
 What a binding delivers, from the tables to the file: which hosts stand where they were approved, what an
 approval does, and which machine's files a call may change (internal/sshsync/desired.go,
 internal/store/ssh.go, internal/agent/apply.go).
 */
module Delivery {
  import opened Common
  import opened Sequences
  import opened Strings
  import opened Desired
  import opened Store
  import opened Snapshot
  import opened SyncApi
  import opened Apply
  import opened Approval
  import opened Protocol
  import Key
  import Adoption
  import Revocation
  import Suspension

  // ----- Where a host stands

  ghost predicate LastNamed(servers: seq<Server>, i: int, host: string) {
    0 <= i < |servers| && servers[i].name == host && forall j :: i < j < |servers| ==> servers[j].name != host
  }

  /** The policy's last server of that name has the address. */
  ghost predicate StandsAt(servers: seq<Server>, host: string, ip: string) {
    exists i :: LastNamed(servers, i, host) && servers[i].ip == ip
  }

  ghost predicate InPolicy(servers: seq<Server>, host: string) {
    exists i :: 0 <= i < |servers| && servers[i].name == host
  }

  lemma {:induction false} LastOfName(servers: seq<Server>, host: string)
    ensures host in Ips(servers) <==> InPolicy(servers, host)
    ensures host in Ips(servers) ==> StandsAt(servers, host, Ips(servers)[host])
  {
    if servers != [] {
      var n := |servers| - 1;
      LastOfName(servers[..n], host);
      if servers[n].name == host {
        assert LastNamed(servers, n, host);
      } else if host in Ips(servers) {
        var i :| LastNamed(servers[..n], i, host) && servers[..n][i].ip == Ips(servers)[host];
        assert LastNamed(servers, i, host);
      } else if i :| 0 <= i < |servers| && servers[i].name == host {
        assert servers[..n][i].name == host;
      }
    }
  }

  lemma AddressOf(servers: seq<Server>, host: string, ip: string)
    ensures host in Ips(servers) && Ips(servers)[host] == ip <==> StandsAt(servers, host, ip)
  {
    LastOfName(servers, host);
    hide Ips;
    if StandsAt(servers, host, ip) {
      var i :| LastNamed(servers, i, host) && servers[i].ip == ip;
      assert InPolicy(servers, host);
      var k :| LastNamed(servers, k, host) && servers[k].ip == Ips(servers)[host];
      assert i == k;
    }
  }

  /** Delivered: neither suspended nor moved. Orphan: gone from the policy, whatever else. */
  lemma StateMeans(b: Binding, servers: seq<Server>)
    ensures StateOf(b, Ips(servers)) == Active <==> !b.suspended && StandsAt(servers, b.hostName, b.approvedIp)
    ensures StateOf(b, Ips(servers)) == Orphan <==> !InPolicy(servers, b.hostName)
  {
    hide Ips;
    LastOfName(servers, b.hostName);
    AddressOf(servers, b.hostName, b.approvedIp);
  }

  // ----- The answer, binding by binding

  /** A live person is assigned to the unix user on the host. */
  ghost predicate HasPerson(t: Tables, people: map<nat, string>, host: string, u: string) {
    exists x :: x in t.assigns && x.hostName == host && x.unixUser == u && x.userId in people
  }

  /** What an answer holds for the target of one binding. */
  ghost predicate Answers(goals: map<string, Goal>, t: Tables, seen: Seen, servers: seq<Server>, b: Binding) {
    if !b.suspended && StandsAt(servers, b.hostName, b.approvedIp) then
      && b.targetRef in goals
      && goals[b.targetRef].expectIp == b.approvedIp && goals[b.targetRef].expectLabel == b.approvedLabel
      && (forall u :: u in goals[b.targetRef].users <==> HasPerson(t, seen.users, b.hostName, u))
      && forall u :: u in goals[b.targetRef].clear <==>
           Row(b.agentId, b.targetRef, u) in t.managed && !HasPerson(t, seen.users, b.hostName, u)
    else if InPolicy(servers, b.hostName) then
      b.targetRef !in goals
    else
      && (b.targetRef in goals <==> exists u :: Row(b.agentId, b.targetRef, u) in t.managed)
      && (b.targetRef in goals ==>
            && goals[b.targetRef].expectIp == "" && goals[b.targetRef].expectLabel == ""
            && goals[b.targetRef].users == map[]
            && forall u :: u in goals[b.targetRef].clear <==> Row(b.agentId, b.targetRef, u) in t.managed)
  }

  lemma PeopleOf(t: Tables, people: map<nat, string>, host: string, listed: seq<Assignment>, u: string)
    requires forall x :: x in listed <==> x in t.assigns
    ensures u in UnixUsers(listed, host, people) <==> HasPerson(t, people, host, u)
  {
    if u in UnixUsers(listed, host, people) {
      var x :| x in listed && x.hostName == host && x.userId in people && x.unixUser == u;
    }
    if HasPerson(t, people, host, u) {
      var x :| x in t.assigns && x.hostName == host && x.unixUser == u && x.userId in people;
      assert x in listed;
    }
  }

  lemma ActiveAnswers(db: Db, seen: Seen, servers: seq<Server>, h: string)
    requires Valid(db) && h in db.tables.targets && StateOf(db.tables.targets[h], Ips(servers)) == Active
    ensures var b := db.tables.targets[h];
            Answers(Goals(WorldOf(db.tables, seen, servers), b.agentId), db.tables, seen, servers, b)
  {
    hide Ips, StateOf, Cleared, LinesFor, ActiveFor, ActiveRefs, Frozen, ManagedRefs, KeysInOrder, SameTarget, StandsAt,
        InPolicy, UnixUsers, HasPerson;
    var b := db.tables.targets[h];
    var w := WorldOf(db.tables, seen, servers);
    StateMeans(b, servers);
    Revocation.TheBinding(db, servers, b.agentId, b.targetRef, h);
    NotActive(w.bindings, Ips(servers), b.agentId, b.targetRef);
    NotFrozen(db, w.bindings, Ips(servers), h);
    var goal := Goals(w, b.agentId)[b.targetRef];
    forall u ensures u in goal.users <==> HasPerson(db.tables, seen.users, h, u) {
      PeopleOf(db.tables, seen.users, h, w.assigns, u);
    }
    forall u ensures u in goal.clear <==>
        Row(b.agentId, b.targetRef, u) in db.tables.managed && !HasPerson(db.tables, seen.users, h, u) {
      ClearsAreRows(w, b.agentId, b.targetRef, u);
    }
  }

  lemma NotFrozen(db: Db, bindings: seq<Binding>, ips: map<string, string>, h: string)
    requires Valid(db) && h in db.tables.targets && forall b :: b in bindings <==> b in db.tables.targets.Values
    ensures var b := db.tables.targets[h];
            && (b.targetRef in Frozen(bindings, ips, b.agentId) <==> StateOf(b, ips) == Suspended)
            && (b.targetRef in ActiveRefs(bindings, ips, b.agentId) <==> StateOf(b, ips) == Active)
  {
    hide StateOf, KeysInOrder;
    var mine := db.tables.targets[h];
    forall b | b in bindings && b.agentId == mine.agentId && b.targetRef == mine.targetRef ensures b == mine {
      var g :| g in db.tables.targets && db.tables.targets[g] == b;
      assert g != h ==> !SameTarget(db.tables.targets[g], db.tables.targets[h]);
    }
    assert mine in bindings;
  }

  lemma OtherAnswers(db: Db, seen: Seen, servers: seq<Server>, h: string)
    requires Valid(db) && h in db.tables.targets && StateOf(db.tables.targets[h], Ips(servers)) != Active
    ensures var b := db.tables.targets[h];
            Answers(Goals(WorldOf(db.tables, seen, servers), b.agentId), db.tables, seen, servers, b)
  {
    hide Ips, StateOf, Cleared, LinesFor, ActiveFor, ActiveRefs, Frozen, ManagedRefs, KeysInOrder, SameTarget, StandsAt,
        InPolicy, UnixUsers, HasPerson;
    var b := db.tables.targets[h];
    var w := WorldOf(db.tables, seen, servers);
    StateMeans(b, servers);
    NotActive(w.bindings, Ips(servers), b.agentId, b.targetRef);
    NotFrozen(db, w.bindings, Ips(servers), h);
    Suspension.RowsOfRef(w.managed, db.tables.managed, b.agentId, b.targetRef,
        Frozen(w.bindings, Ips(servers), b.agentId));
    var goals := Goals(w, b.agentId);
    if b.targetRef in goals {
      forall u ensures u in goals[b.targetRef].clear <==> Row(b.agentId, b.targetRef, u) in db.tables.managed {
        ClearsAreRows(w, b.agentId, b.targetRef, u);
      }
    }
  }

  /**
   What an answer holds for the target of a binding: its approved address and host name and the people
   assigned while it stands, nothing at all while it is suspended or has moved, and only what is left
   to clear once its host is gone.
   */
  lemma BindingAnswered(db: Db, seen: Seen, hostsOf: HostsOf, h: string)
    requires Valid(db) && h in db.tables.targets
    requires GoalsOf(db.tables, seen, hostsOf, db.tables.targets[h].agentId).Some?
    ensures var b := db.tables.targets[h];
            Answers(GoalsOf(db.tables, seen, hostsOf, b.agentId).value, db.tables, seen, hostsOf(seen.policy).value, b)
  {
    hide Goals, Ips, StateOf, Answers, Implausible, Valid;
    var servers := hostsOf(seen.policy).value;
    if StateOf(db.tables.targets[h], Ips(servers)) == Active {
      ActiveAnswers(db, seen, servers, h);
    } else {
      OtherAnswers(db, seen, servers, h);
    }
  }

  /**
   Only the approved machine is touched. If one call on the server's answer changes a file of a delivered
   target, the target found under that ref holds the approved address and has the approved host name,
   as far as they were recorded.
   */
  lemma ChangedIsApproved(db: Db, seen: Seen, hostsOf: HostsOf, h: string, files: Files, found: seq<Discovered>,
      replies: Pair -> Reply, u: string)
    requires Valid(db) && h in db.tables.targets
    requires var b := db.tables.targets[h];
             && !b.suspended && GoalsOf(db.tables, seen, hostsOf, b.agentId).Some?
             && StandsAt(hostsOf(seen.policy).value, h, b.approvedIp)
    requires var b := db.tables.targets[h];
             var p := Pair(b.targetRef, u);
             var after := WorkOn(files, GoalsOf(db.tables, seen, hostsOf, b.agentId), found, replies).0;
             FileAt(after, p) != FileAt(files, p)
    ensures var b := db.tables.targets[h];
            exists d :: FoundLast(found, b.targetRef, d)
                        && (b.approvedIp != "" ==> b.approvedIp in d.ips)
                        && (b.approvedLabel != "" ==> d.hostname == b.approvedLabel)
  {
    hide GoalsOf, WorkOn, FileAt, FoundLast, StandsAt, InPolicy, KeysInOrder, SameTarget, HasPerson;
    var b := db.tables.targets[h];
    BindingAnswered(db, seen, hostsOf, h);
    Adoption.AnswersSound(db.tables, seen, hostsOf, b.agentId);
    Suspension.ChangedIsExpected(files, GoalsOf(db.tables, seen, hostsOf, b.agentId).value, found, replies,
        Pair(b.targetRef, u));
  }

  /** There is no answer exactly when the policy cannot be read, or it or the user list lost everything bound to it. */
  lemma NoAnswer(t: Tables, seen: Seen, hostsOf: HostsOf, a: int)
    ensures GoalsOf(t, seen, hostsOf, a).None? <==>
              || hostsOf(seen.policy).None?
              || (hostsOf(seen.policy).value == [] && t.targets != map[])
              || (seen.users == map[] && t.assigns != {})
  {
    hide Goals;
    if hostsOf(seen.policy).Some? {
      var w := WorldOf(t, seen, hostsOf(seen.policy).value);
      assert w.bindings == [] <==> t.targets == map[] by {
        assert |multiset(w.bindings)| == |w.bindings|;
        assert t.targets != map[] ==> exists h :: h in t.targets && t.targets[h] in t.targets.Values;
      }
      assert w.assigns == [] <==> t.assigns == {} by {
        assert forall x :: x in w.assigns <==> x in t.assigns;
        assert w.assigns != [] ==> w.assigns[0] in t.assigns;
      }
    }
  }

  // ----- The lines of one unix user

  /** The assignment at `at.0` puts the key at `at.1` into the file of the unix user on the host. */
  ghost predicate Brings(assigns: seq<Assignment>, host: string, u: string, people: map<nat, string>,
      keys: seq<StoredKey>, at: (nat, nat)) {
    && at.0 < |assigns| && assigns[at.0].hostName == host && assigns[at.0].unixUser == u
    && at.1 < |keys| && keys[at.1].userId == assigns[at.0].userId && assigns[at.0].userId in people
  }

  /** `lines` has one line for each place that brings one, in order. */
  ghost predicate InOrderFrom(lines: seq<string>, from: seq<(nat, nat)>, assigns: seq<Assignment>, host: string,
      u: string, people: map<nat, string>, keys: seq<StoredKey>) {
    AllPlaces(from, assigns, host, u, people, keys) && WrittenFrom(lines, from, people, keys)
  }

  ghost predicate AllPlaces(from: seq<(nat, nat)>, assigns: seq<Assignment>, host: string, u: string,
      people: map<nat, string>, keys: seq<StoredKey>) {
    Rising(from) && forall at :: at in from <==> Brings(assigns, host, u, people, keys, at)
  }

  ghost predicate WrittenFrom(lines: seq<string>, from: seq<(nat, nat)>, people: map<nat, string>,
      keys: seq<StoredKey>) {
    |from| == |lines| && forall i :: 0 <= i < |from| ==> LineAt(lines[i], from[i], people, keys)
  }

  ghost predicate LineAt(line: string, at: (nat, nat), people: map<nat, string>, keys: seq<StoredKey>) {
    && at.1 < |keys| && keys[at.1].userId in people
    && line == Key.Line(keys[at.1].line, people[keys[at.1].userId], keys[at.1].comment)
  }

  /** `turn` lists the places of one live person's keys, in order. */
  ghost predicate InTurn(turn: seq<nat>, keys: seq<StoredKey>, people: map<nat, string>, id: nat) {
    && (forall i, j :: 0 <= i < j < |turn| ==> turn[i] < turn[j])
    && (forall i :: 0 <= i < |turn| ==> turn[i] < |keys| && keys[turn[i]].userId == id && id in people)
    && forall k :: 0 <= k < |keys| && keys[k].userId == id && id in people ==> k in turn
  }

  lemma OneTurnMore(before: seq<nat>, keys: seq<StoredKey>, people: map<nat, string>, id: nat)
    returns (turn: seq<nat>)
    requires keys != [] && InTurn(before, keys[..|keys| - 1], people, id)
    ensures InTurn(turn, keys, people, id)
    ensures turn == before + if keys[|keys| - 1].userId == id && id in people then [|keys| - 1] else []
  {
    var n := |keys| - 1;
    turn := before + if keys[n].userId == id && id in people then [n] else [];
    forall i | 0 <= i < |before| ensures turn[i] < n && keys[turn[i]].userId == id {
      assert keys[..n][before[i]].userId == id;
    }
    assert forall i, j :: 0 <= i < j < |turn| ==> turn[i] < turn[j];
    forall k | 0 <= k < |keys| && keys[k].userId == id && id in people ensures k in turn {
      if k < n {
        assert keys[..n][k].userId == id;
        assert k in before;
      } else {
        assert turn[|before|] == n;
      }
    }
  }

  /** One line for each place in turn. */
  ghost predicate InTurnWritten(lines: seq<string>, turn: seq<nat>, people: map<nat, string>, keys: seq<StoredKey>) {
    |turn| == |lines| && forall i :: 0 <= i < |turn| ==> LineAt(lines[i], (0, turn[i]), people, keys)
  }

  lemma LinesOfLast(keys: seq<StoredKey>, people: map<nat, string>, id: nat)
    requires keys != []
    ensures var k := keys[|keys| - 1];
            LinesOf(keys, people, id) == LinesOf(keys[..|keys| - 1], people, id) +
                if k.userId == id && id in people then [Key.Line(k.line, people[id], k.comment)] else []
  {
  }

  lemma OneLineMore(lines: seq<string>, turn: seq<nat>, people: map<nat, string>, keys: seq<StoredKey>)
    requires keys != [] && InTurnWritten(lines, turn, people, keys[..|keys| - 1])
    ensures InTurnWritten(lines, turn, people, keys)
    ensures var k := keys[|keys| - 1];
            k.userId in people ==>
              InTurnWritten(lines + [Key.Line(k.line, people[k.userId], k.comment)], turn + [|keys| - 1], people, keys)
  {
    hide Key.Line;
    forall i | 0 <= i < |turn| ensures LineAt(lines[i], (0, turn[i]), people, keys) {
      assert LineAt(lines[i], (0, turn[i]), people, keys[..|keys| - 1]);
    }
  }

  lemma {:induction false} KeysInTurn(keys: seq<StoredKey>, people: map<nat, string>, id: nat)
    returns (turn: seq<nat>)
    ensures InTurn(turn, keys, people, id) && InTurnWritten(LinesOf(keys, people, id), turn, people, keys)
  {
    if keys == [] {
      turn := [];
    } else {
      hide LinesOf, InTurn, InTurnWritten, Key.Line;
      var n := |keys| - 1;
      var before := KeysInTurn(keys[..n], people, id);
      turn := OneTurnMore(before, keys, people, id);
      LinesOfLast(keys, people, id);
      OneLineMore(LinesOf(keys[..n], people, id), before, people, keys);
      assert before + [] == before;
    }
  }

  /** The places of one assignment more. */
  lemma OneMorePlaces(assigns: seq<Assignment>, host: string, u: string, people: map<nat, string>,
      keys: seq<StoredKey>, before: seq<(nat, nat)>, turn: seq<nat>)
    returns (more: seq<(nat, nat)>)
    requires assigns != [] && InTurn(turn, keys, people, assigns[|assigns| - 1].userId)
    requires AllPlaces(before, assigns[..|assigns| - 1], host, u, people, keys)
    ensures more == if Assigned(assigns[|assigns| - 1], host, u, people) then Paired(|assigns| - 1, turn) else []
    ensures AllPlaces(before + more, assigns, host, u, people, keys)
  {
    var n := |assigns| - 1;
    more := if Assigned(assigns[n], host, u, people) then Paired(n, turn) else [];
    OnlyBefore(assigns, host, u, people, keys, before);
    PlacesAt(assigns, host, u, people, keys, turn);
    PlacesMore(assigns, host, u, people, keys);
    RisingOn(before, n, turn);
    hide Brings, InTurn, Rising, Paired, Assigned;
    assert forall at :: at in before + more <==> at in before || at in more;
  }

  /** Lines with their places, continued. */
  lemma LinesJoin(x: seq<string>, from: seq<(nat, nat)>, y: seq<string>, more: seq<(nat, nat)>,
      people: map<nat, string>, keys: seq<StoredKey>)
    requires WrittenFrom(x, from, people, keys) && WrittenFrom(y, more, people, keys)
    ensures WrittenFrom(x + y, from + more, people, keys)
  {
    hide LineAt;
  }

  lemma OwnWritten(mine: seq<string>, n: nat, turn: seq<nat>, people: map<nat, string>, keys: seq<StoredKey>)
    requires |turn| == |mine| && forall i :: 0 <= i < |turn| ==> LineAt(mine[i], (0, turn[i]), people, keys)
    ensures WrittenFrom(mine, Paired(n, turn), people, keys) && WrittenFrom([], [], people, keys)
  {
    forall i | 0 <= i < |turn| ensures LineAt(mine[i], (n, turn[i]), people, keys) {
      SameLine(mine[i], n, turn[i], people, keys);
    }
    hide LineAt;
  }

  /** Each line of a unix user, once, in the order of the assignments and then of the keys. */
  lemma {:induction false} LinesInOrder(assigns: seq<Assignment>, host: string, u: string, people: map<nat, string>,
      keys: seq<StoredKey>)
    returns (from: seq<(nat, nat)>)
    ensures InOrderFrom(LinesFor(assigns, host, u, people, keys), from, assigns, host, u, people, keys)
  {
    if assigns == [] {
      from := [];
      NoneBrings(host, u, people, keys);
    } else {
      hide LinesOf, LinesFor, LineAt, AllPlaces, WrittenFrom, InTurn, Assigned, Paired;
      var n := |assigns| - 1;
      var before := LinesInOrder(assigns[..n], host, u, people, keys);
      var turn := KeysInTurn(keys, people, assigns[n].userId);
      var more := OneMorePlaces(assigns, host, u, people, keys, before, turn);
      var mine := OwnLines(assigns, host, u, people, keys);
      OwnWritten(LinesOf(keys, people, assigns[n].userId), n, turn, people, keys);
      LinesJoin(LinesFor(assigns[..n], host, u, people, keys), before, mine, more, people, keys);
      from := before + more;
    }
  }

  /** The lines the last assignment adds. */
  lemma OwnLines(assigns: seq<Assignment>, host: string, u: string, people: map<nat, string>, keys: seq<StoredKey>)
    returns (mine: seq<string>)
    requires assigns != []
    ensures var a := assigns[|assigns| - 1];
            mine == if Assigned(a, host, u, people) then LinesOf(keys, people, a.userId) else []
    ensures LinesFor(assigns, host, u, people, keys) ==
              LinesFor(assigns[..|assigns| - 1], host, u, people, keys) + mine
  {
    hide LinesOf;
    var a := assigns[|assigns| - 1];
    mine := if Assigned(a, host, u, people) then LinesOf(keys, people, a.userId) else [];
  }

  lemma SameLine(line: string, n: nat, k: nat, people: map<nat, string>, keys: seq<StoredKey>)
    ensures LineAt(line, (0, k), people, keys) ==> LineAt(line, (n, k), people, keys)
  {
  }

  lemma NoneBrings(host: string, u: string, people: map<nat, string>, keys: seq<StoredKey>)
    ensures InOrderFrom(LinesFor([], host, u, people, keys), [], [], host, u, people, keys)
  {
  }

  lemma OnlyBefore(assigns: seq<Assignment>, host: string, u: string, people: map<nat, string>, keys: seq<StoredKey>,
      before: seq<(nat, nat)>)
    requires assigns != []
    requires forall at :: at in before <==> Brings(assigns[..|assigns| - 1], host, u, people, keys, at)
    ensures forall i :: 0 <= i < |before| ==> before[i].0 < |assigns| - 1
  {
    forall i | 0 <= i < |before| ensures before[i].0 < |assigns| - 1 {
      assert before[i] in before;
    }
  }

  lemma PlacesMore(assigns: seq<Assignment>, host: string, u: string, people: map<nat, string>, keys: seq<StoredKey>)
    requires assigns != []
    ensures forall at: (nat, nat) :: Brings(assigns[..|assigns| - 1], host, u, people, keys, at) <==>
              Brings(assigns, host, u, people, keys, at) && at.0 < |assigns| - 1
    ensures forall at: (nat, nat) :: Brings(assigns, host, u, people, keys, at) ==> at.0 < |assigns|
  {
  }

  lemma PlacesAt(assigns: seq<Assignment>, host: string, u: string, people: map<nat, string>, keys: seq<StoredKey>,
      turn: seq<nat>)
    requires assigns != [] && InTurn(turn, keys, people, assigns[|assigns| - 1].userId)
    ensures forall at: (nat, nat) | at.0 == |assigns| - 1 ::
              Brings(assigns, host, u, people, keys, at) <==>
                Assigned(assigns[|assigns| - 1], host, u, people) && at in Paired(|assigns| - 1, turn)
    ensures forall at :: at in Paired(|assigns| - 1, turn) ==> at.0 == |assigns| - 1
    ensures forall i, j :: 0 <= i < j < |turn| ==> turn[i] < turn[j]
  {
    var n := |assigns| - 1;
    forall at: (nat, nat) | at.0 == n && Brings(assigns, host, u, people, keys, at) ensures at in Paired(n, turn) {
      var i :| 0 <= i < |turn| && turn[i] == at.1;
      assert Paired(n, turn)[i] == at;
    }
  }

  // ----- Approval

  /** Re-approving a host lifts its suspension and touches nothing else; two hosts cannot share a target. */
  lemma ApprovalLifts(db: Db, b: Binding)
    ensures Approve(db, b).Ok? <==>
              && b.agentId in db.agents
              && forall h :: h in db.tables.targets && h != b.hostName ==>
                   !(db.tables.targets[h].agentId == b.agentId && db.tables.targets[h].targetRef == b.targetRef)
    ensures Approve(db, b).Ok? ==>
              var after := Approve(db, b).value;
              && after.tables.targets.Keys == db.tables.targets.Keys + {b.hostName}
              && after.tables.targets[b.hostName] ==
                   Binding(b.hostName, b.agentId, b.targetRef, b.approvedIp, b.approvedLabel, false)
              && (forall h :: h in db.tables.targets && h != b.hostName ==>
                    after.tables.targets[h] == db.tables.targets[h])
              && after.tables == db.tables.(targets := after.tables.targets)
              && after == db.(tables := after.tables, rev := db.rev + 1)
    ensures Approve(db, b).Err? ==>
              (Approve(db, b).error == NoSuchAgent <==> b.agentId !in db.agents)
  {
  }

  /** An approved host that stands at the approved address is in the next answer, with the people assigned to it. */
  lemma ApprovedIsDelivered(db: Db, b: Binding, seen: Seen, hostsOf: HostsOf)
    requires Valid(db) && Approve(db, b).Ok? && GoalsOf(Approve(db, b).value.tables, seen, hostsOf, b.agentId).Some?
    requires StandsAt(hostsOf(seen.policy).value, b.hostName, b.approvedIp)
    ensures var goals := GoalsOf(Approve(db, b).value.tables, seen, hostsOf, b.agentId).value;
            && b.targetRef in goals
            && goals[b.targetRef].expectIp == b.approvedIp && goals[b.targetRef].expectLabel == b.approvedLabel
            && forall u :: u in goals[b.targetRef].users <==> HasPerson(db.tables, seen.users, b.hostName, u)
  {
    hide GoalsOf, StandsAt, InPolicy, Valid;
    ApprovalLifts(db, b);
    assert Do(db, OpApprove(b)) == Approve(db, b).value;
    WritesKeepValid(db, OpApprove(b));
    hide Approve;
    BindingAnswered(Approve(db, b).value, seen, hostsOf, b.hostName);
  }
}
