/** The agent's endpoints (internal/api/ssh_agent_sync.go, ssh_access.go). */
module SyncApi {
  import opened Common
  import opened Sequences
  import opened Desired
  import opened Store
  import opened Snapshot
  import Key

  /** The entity tag: the tables' revision, the snapshot's revision, and the server process. */
  datatype ETag = ETag(rev: nat, snapRev: nat, boot: string)

  /** Reading the policy's hosts: the servers it names, or nothing when it cannot be parsed. */
  type HostsOf = string -> Option<seq<Server>>

  /** A table's rows in the order the query lists them, which depends on the table alone. */
  ghost function Listing<T(!new)>(rows: set<T>): (out: seq<T>)
    ensures forall x :: x in out <==> x in rows
    ensures multiset(out) == multiset(rows)
  {
    if rows == {} then []
    else
      var x :| x in rows;
      assert rows == {x} + (rows - {x});
      [x] + Listing(rows - {x})
  }

  ghost function StoredKeys(keys: seq<KeyRow>): seq<StoredKey> {
    seq(|keys|, i requires 0 <= i < |keys| => keys[i].key)
  }

  /** loadSSHState: everything Desired reads. */
  ghost function WorldOf(t: Tables, seen: Seen, servers: seq<Server>): World {
    World(servers, seen.users, Listing(t.targets.Values), Listing(t.assigns), StoredKeys(t.keys), Listing(t.managed))
  }

  /** A world that would revoke everything at once is refused. */
  ghost predicate Implausible(w: World) {
    (w.servers == [] && w.bindings != []) || (w.users == map[] && w.assigns != [])
  }

  /** What the server would answer an agent with: nothing when the hosts cannot be read or make no sense. */
  ghost function GoalsOf(t: Tables, seen: Seen, hostsOf: HostsOf, agentId: int): Option<map<string, Goal>> {
    match hostsOf(seen.policy)
    case None => None
    case Some(servers) =>
      var w := WorldOf(t, seen, servers);
      if Implausible(w) then None else Some(Goals(w, agentId))
  }

  // ----- The handlers that change the store

  /** Only well-formed pairs of a report count. */
  predicate Accepted(p: Pair) {
    Key.ValidUnixUser(p.unixUser) && Key.ValidRef(p.ref)
  }

  function AcceptedPairs(ps: seq<Pair>): seq<Pair> {
    if ps == [] then []
    else AcceptedPairs(ps[..|ps| - 1]) + if Accepted(ps[|ps| - 1]) then [ps[|ps| - 1]] else []
  }

  method Pairs(ps: seq<Pair>) returns (out: seq<Pair>)
    ensures out == AcceptedPairs(ps)
  {
    out := [];
    for i := 0 to |ps|
      invariant out == AcceptedPairs(ps[..i])
    {
      assert ps[..i + 1][..i] == ps[..i];
      if Key.ValidUnixUser(ps[i].unixUser) && Key.ValidRef(ps[i].ref) {
        out := out + [ps[i]];
      }
    }
    assert ps[..|ps|] == ps;
  }

  lemma {:induction false} AcceptedMeans(ps: seq<Pair>, p: Pair)
    ensures p in AcceptedPairs(ps) <==> p in ps && Accepted(p)
  {
    if ps != [] {
      var init, last := ps[..|ps| - 1], ps[|ps| - 1];
      AcceptedMeans(init, p);
      assert ps == init + [last];
    }
  }

  /** The pairs with a well-formed user name and target ref stay, in order. */
  lemma {:induction false} AcceptedInOrder(ps: seq<Pair>)
    ensures Selects(AcceptedPairs(ps), ps, (p: Pair) => Key.ValidUnixUser(p.unixUser) && Key.ValidRef(p.ref))
  {
    hide Key.ValidUnixUser, Key.ValidRef;
    var fine := (p: Pair) => Key.ValidUnixUser(p.unixUser) && Key.ValidRef(p.ref);
    if ps == [] {
      SelectsNone(fine);
    } else {
      var init, last := ps[..|ps| - 1], ps[|ps| - 1];
      AcceptedInOrder(init);
      SelectsSnoc(AcceptedPairs(init), init, last, fine);
      assert init + [last] == ps;
    }
  }

  /** The report as the store sees it. */
  function Checked(r: Report): Report {
    Report(AcceptedPairs(r.applied), AcceptedPairs(r.cleared), r.mismatched)
  }

  method ReportHandler(store: SshStore, agentId: int, r: Report) returns (err: Option<StoreError>)
    modifies store
    ensures var spec := Record(old(store.State()), agentId, Checked(r));
            store.State() == OrSame(old(store.State()), spec) && (err == if spec.Ok? then None else Some(spec.error))
  {
    var applied := Pairs(r.applied);
    var cleared := Pairs(r.cleared);
    err := store.RecordSSHReport(agentId, Report(applied, cleared, r.mismatched));
  }

  method RetireHandler(store: SshStore, agentId: int, cleared: seq<Pair>) returns (r: Result<set<Row>, StoreError>)
    modifies store
    ensures var spec := RetireAgent(old(store.State()), agentId, AcceptedPairs(cleared));
            && store.State() == OrSameLeft(old(store.State()), spec)
            && r == (match spec case Ok((_, left)) => Ok(left) case Err(e) => Err(e))
  {
    var ps := Pairs(cleared);
    r := store.RetireSSHAgent(agentId, ps);
  }
}
