/** Uninstalling an agent (internal/agent/retire.go, internal/api/ssh_agent_sync.go). */
module Retire {
  import opened Common
  import opened Desired
  import opened Store
  import opened SyncApi
  import opened Apply

  // ----- What a leaving agent must clear

  ghost function RefsOf(rows: set<Row>): set<string> {
    set m <- rows :: m.targetRef
  }

  ghost function UsersOn(rows: set<Row>, ref: string): set<string> {
    set m <- rows | m.targetRef == ref :: m.unixUser
  }

  /** One clear-only target per ref, with no address or label to check. */
  ghost function LeaveGoals(rows: set<Row>): map<string, Goal> {
    map ref <- RefsOf(rows) :: Goal("", "", map[], multiset(UsersOn(rows, ref)))
  }

  ghost function PairsOf(rows: set<Row>): set<Pair> {
    set m <- rows :: Pair(m.targetRef, m.unixUser)
  }

  lemma PairsMean(rows: set<Row>, p: Pair)
    ensures p in PairsOf(rows) <==> exists a :: Row(a, p.ref, p.unixUser) in rows
  {
    if p in PairsOf(rows) {
      var m :| m in rows && Pair(m.targetRef, m.unixUser) == p;
      assert m == Row(m.agentId, p.ref, p.unixUser);
    }
    if a :| Row(a, p.ref, p.unixUser) in rows {
      assert Pair(Row(a, p.ref, p.unixUser).targetRef, Row(a, p.ref, p.unixUser).unixUser) in PairsOf(rows);
    }
  }

  lemma LeaveSound(rows: set<Row>)
    ensures Sound(LeaveGoals(rows))
  {
  }

  /** A pair is to be cleared exactly when it is recorded. */
  lemma LeaveClears(rows: set<Row>, agentId: int, p: Pair)
    requires forall m :: m in rows ==> m.agentId == agentId
    ensures Row(agentId, p.ref, p.unixUser) in rows <==>
              p.ref in LeaveGoals(rows) && p.unixUser in LeaveGoals(rows)[p.ref].clear
  {
    if p.ref in LeaveGoals(rows) && p.unixUser in LeaveGoals(rows)[p.ref].clear {
      assert p.unixUser in UsersOn(rows, p.ref);
      var m :| m in rows && m.targetRef == p.ref && m.unixUser == p.unixUser;
      assert m == Row(agentId, p.ref, p.unixUser);
    }
  }

  // ----- Grouping

  function UsersIn(wrote: seq<Pair>, ref: string): seq<string> {
    if wrote == [] then []
    else
      var p := wrote[|wrote| - 1];
      UsersIn(wrote[..|wrote| - 1], ref) + if p.ref == ref then [p.unixUser] else []
  }

  lemma {:induction false} UsersCounted(wrote: seq<Pair>, ref: string, u: string)
    ensures multiset(UsersIn(wrote, ref))[u] == multiset(wrote)[Pair(ref, u)]
  {
    if wrote != [] {
      UsersCounted(wrote[..|wrote| - 1], ref, u);
      assert wrote == wrote[..|wrote| - 1] + [wrote[|wrote| - 1]];
    }
  }

  lemma UsersListed(wrote: seq<Pair>, rows: set<Row>, agentId: int, ref: string)
    requires forall m :: m in rows ==> m.agentId == agentId
    requires multiset(wrote) == multiset(PairsOf(rows))
    ensures multiset(UsersIn(wrote, ref)) == multiset(UsersOn(rows, ref))
    ensures ref in RefsOf(rows) <==> exists p :: p in wrote && p.ref == ref
  {
    forall u ensures multiset(UsersIn(wrote, ref))[u] == multiset(UsersOn(rows, ref))[u] {
      UsersCounted(wrote, ref, u);
      if u in UsersOn(rows, ref) {
        var m :| m in rows && m.targetRef == ref && m.unixUser == u;
        assert Pair(ref, u) in PairsOf(rows);
      }
    }
    forall p ensures p in wrote <==> p in PairsOf(rows) {
      assert p in wrote <==> p in multiset(wrote);
    }
    if ref in RefsOf(rows) {
      var m :| m in rows && m.targetRef == ref;
      assert Pair(m.targetRef, m.unixUser) in PairsOf(rows);
    }
  }

  function UsersRead(byRef: map<string, seq<string>>, ref: string): seq<string> {
    if ref in byRef then byRef[ref] else []
  }

  ghost predicate Grouped(byRef: map<string, seq<string>>, wrote: seq<Pair>) {
    && byRef.Keys == (set p <- wrote :: p.ref)
    && forall ref :: UsersRead(byRef, ref) == UsersIn(wrote, ref)
  }

  lemma UsersInSnoc(wrote: seq<Pair>, p: Pair, ref: string)
    ensures UsersIn(wrote + [p], ref) == if p.ref == ref then UsersIn(wrote, ref) + [p.unixUser]
              else UsersIn(wrote, ref)
  {
    assert (wrote + [p])[..|wrote|] == wrote;
    assert UsersIn(wrote, ref) + [] == UsersIn(wrote, ref);
  }

  lemma GroupedSnoc(byRef: map<string, seq<string>>, wrote: seq<Pair>, p: Pair)
    requires Grouped(byRef, wrote)
    ensures Grouped(byRef[p.ref := UsersRead(byRef, p.ref) + [p.unixUser]], wrote + [p])
  {
    hide UsersIn;
    assert forall x :: x in wrote + [p] <==> x in wrote || x == p;
    var after := byRef[p.ref := UsersRead(byRef, p.ref) + [p.unixUser]];
    forall ref ensures UsersRead(after, ref) == UsersIn(wrote + [p], ref) {
      UsersInSnoc(wrote, p, ref);
    }
    assert after.Keys == (set q <- wrote :: q.ref) + {p.ref};
  }

  /** The users written on each ref, in the order the server lists them. */
  method ByRefs(wrote: seq<Pair>) returns (byRef: map<string, seq<string>>)
    ensures Grouped(byRef, wrote)
  {
    byRef := map[];
    assert Grouped(byRef, []);
    hide Grouped;
    for i := 0 to |wrote|
      invariant Grouped(byRef, wrote[..i])
    {
      var p := wrote[i];
      assert wrote[..i + 1] == wrote[..i] + [p];
      GroupedSnoc(byRef, wrote[..i], p);
      byRef := byRef[p.ref := UsersRead(byRef, p.ref) + [p.unixUser]];
    }
    assert wrote[..|wrote|] == wrote;
  }

  method Group(wrote: seq<Pair>, ghost rows: set<Row>, ghost agentId: int) returns (targets: seq<Target>)
    requires forall m :: m in rows ==> m.agentId == agentId
    requires multiset(wrote) == multiset(PairsOf(rows))
    ensures Lists(targets, LeaveGoals(rows))
  {
    var byRef := ByRefs(wrote);
    hide UsersIn, UsersOn, RefsOf;
    forall ref
      ensures multiset(UsersIn(wrote, ref)) == multiset(UsersOn(rows, ref)) && (ref in byRef <==> ref in RefsOf(rows))
    {
      UsersListed(wrote, rows, agentId, ref);
    }
    var bare := map ref <- byRef :: Target(ref, "", "", map[], byRef[ref]);
    targets := SortTargets(bare);
    Listed(targets, bare, LeaveGoals(rows));
  }

  // ----- The requests

  /** The blocks the server has on record for the agent. */
  method ManagedHandler(store: SshStore, agentId: int) returns (wrote: seq<Pair>)
    ensures multiset(wrote) == multiset(PairsOf(Mine(store.managed, agentId)))
  {
    wrote := [];
    var left := Mine(store.managed, agentId);
    ghost var all := left;
    assert PairsOf(all - left) == {};
    while left != {}
      modifies {}
      invariant left <= all && multiset(wrote) == multiset(PairsOf(all - left))
      decreases left
    {
      var m :| m in left;
      var p := Pair(m.targetRef, m.unixUser);
      assert all - (left - {m}) == (all - left) + {m};
      assert PairsOf(all - (left - {m})) == PairsOf(all - left) + {p};
      assert p !in PairsOf(all - left);
      wrote := wrote + [p];
      left := left - {m};
    }
    assert all - left == all;
  }

  /** Clear everything the server has on record, then ask to be deleted. */
  method Retire(store: SshStore, h: Host, agentId: int, discovered: seq<Discovered>)
    returns (report: Outcomes, left: Result<set<Row>, StoreError>)
    modifies store, h
    ensures var rows := Mine(old(store.managed), agentId);
            Progress(h.files, report) == Run(old(h.files), Work(ListOf(LeaveGoals(rows)), Running(discovered)),
                h.replies)
    ensures var spec := RetireAgent(old(store.State()), agentId, AcceptedPairs(report.cleared));
            && store.State() == OrSameLeft(old(store.State()), spec)
            && left == (match spec case Ok((_, rest)) => Ok(rest) case Err(e) => Err(e))
  {
    hide Run, Work, AcceptedPairs, Running, LeaveGoals, Lists;
    ghost var rows := Mine(store.managed, agentId);
    var wrote := ManagedHandler(store, agentId);
    var targets := Group(wrote, rows, agentId);
    ListsUnique(targets, ListOf(LeaveGoals(rows)), LeaveGoals(rows));
    report := Apply.Apply(h, discovered, targets);
    left := RetireHandler(store, agentId, report.cleared);
  }
}
