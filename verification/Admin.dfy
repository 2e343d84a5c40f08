/**
 The administrator's SSH handlers (internal/api/ssh_keys.go, ssh_access.go, ssh_agents.go, users.go).

 Each asks for sudo, checks its input against the snapshot, and makes one write.
 */
module Admin {
  import opened Common
  import opened Desired
  import opened Store
  import opened Snapshot
  import opened SyncApi
  import Auth = Sessions
  import Key

  datatype Refusal = SudoNeeded | Unavailable | NoSuchThing | BadInput | InUse | StoreRefused(error: StoreError)

  /** What ParseKey makes of pasted text. */
  datatype ParsedKey = ParsedKey(line: string, fingerprint: string)

  // ----- What every handler keeps

  /** Keys are stored parsed and with a cleaned label, and people are assigned to well-formed user names only. */
  ghost predicate WellStored(t: Tables) {
    && (forall k :: k in t.keys ==> Stored(k.key))
    && (forall a :: a in t.assigns ==> Key.ValidUnixUser(a.unixUser))
  }

  /** One write by a caller past requireSudo, or nothing; what is stored stays well formed. */
  ghost predicate Handled(before: Db, after: Db, op: Op, ok: bool, allowed: bool) {
    && (if ok then allowed && after == Do(before, op) else after == before)
    && (WellStored(before.tables) ==> WellStored(after.tables))
  }

  lemma RemovalsKeep(db: Db, op: Op)
    requires op.OpDeleteKey? || op.OpDeleteHost? || op.OpDeleteUser? || op.OpDeleteTarget? || op.OpDeleteAgent?
             || op.OpCreateAgent?
    ensures WellStored(db.tables) ==> WellStored(Do(db, op).tables)
  {
    hide Stored, Key.ValidUnixUser, FilterKeys;
    if op.OpDeleteKey? {
      FilterKept(db.tables.keys, (k: KeyRow) => k.id != op.id);
    }
    if op.OpDeleteUser? {
      FilterKept(db.tables.keys, (k: KeyRow) => k.key.userId != op.user);
    }
  }

  // ----- Keys

  predicate UserExists(users: seq<User>, id: nat) {
    exists u <- users :: u.id == id
  }

  method AddKeyHandler(store: SshStore, p: Option<Auth.Principal>, now: int, snap: Option<Fetched>, userId: nat,
      parsed: Option<ParsedKey>, comment: string)
    returns (r: Result<StoredKey, Refusal>)
    requires parsed.Some? ==> Key.Canonical(parsed.value.line)
    modifies store
    ensures r.Ok? ==>
              && snap.Some? && (exists k :: 0 <= k < |snap.value.users| && snap.value.users[k].id == userId)
              && parsed.Some? && r.value.userId == userId
              && r.value.line == parsed.value.line && Key.CleanLabel(comment) == Ok(r.value.comment)
              && Handled(old(store.State()), store.State(), OpAddKey(parsed.value.fingerprint, r.value), true,
                         Auth.Allowed(p, Auth.ManageSSH, now))
    ensures r.Ok? <==>
              && Auth.Allowed(p, Auth.ManageSSH, now) && snap.Some? && parsed.Some?
              && (exists k :: 0 <= k < |snap.value.users| && snap.value.users[k].id == userId)
              && Key.CleanLabel(comment).Ok?
              && forall k :: k in old(store.keys) ==> k.fingerprint != parsed.value.fingerprint
    ensures r.Err? ==> store.State() == old(store.State())
    ensures store.State() != old(store.State()) ==> p.Some? && Auth.ManageSSH in p.value.user.caps
  {
    hide Key.CleanLabel, Key.Canonical, Key.ValidUnixUser, Auth.NeedsPin;
    Auth.AllowedMeans(p, Auth.ManageSSH, now);
    if p.None? || !Auth.RequireSudo(p.value, Auth.ManageSSH, now) {
      return Err(SudoNeeded);
    }
    if snap.None? {
      return Err(Unavailable);
    }
    if !UserExists(snap.value.users, userId) {
      return Err(NoSuchThing);
    }
    if parsed.None? {
      return Err(BadInput);
    }
    var clean := Key.CleanLabel(comment);
    if clean.Err? {
      return Err(BadInput);
    }
    var key := StoredKey(userId, parsed.value.line, clean.value);
    var err := store.AddSSHKey(parsed.value.fingerprint, key);
    if err.Some? {
      return Err(StoreRefused(err.value));
    }
    return Ok(key);
  }

  method DeleteKeyHandler(store: SshStore, p: Option<Auth.Principal>, now: int, id: nat) returns (r: Option<Refusal>)
    modifies store
    ensures Handled(old(store.State()), store.State(), OpDeleteKey(id), r.None?, Auth.Allowed(p, Auth.ManageSSH, now))
    ensures Auth.Allowed(p, Auth.ManageSSH, now) ==> (r.None? <==> exists k :: k in old(store.keys) && k.id == id)
    ensures store.State() != old(store.State()) ==> p.Some? && Auth.ManageSSH in p.value.user.caps
  {
    hide Auth.NeedsPin, FilterKeys;
    Auth.AllowedMeans(p, Auth.ManageSSH, now);
    RemovalsKeep(store.State(), OpDeleteKey(id));
    if p.None? || !Auth.RequireSudo(p.value, Auth.ManageSSH, now) {
      return Some(SudoNeeded);
    }
    var err := store.DeleteSSHKey(id);
    if err.Some? {
      return Some(StoreRefused(err.value));
    }
    return None;
  }

  // ----- Rows, bindings, hosts

  /** setSSHRow: a well-formed user on a server of the policy, and only people who exist. */
  method SetRowHandler(store: SshStore, p: Option<Auth.Principal>, now: int, ips: Option<map<string, string>>,
      users: map<nat, string>, host: string, unixUser: string, ids: seq<nat>)
    returns (r: Option<Refusal>)
    modifies store
    ensures Handled(old(store.State()), store.State(), OpSetRow(host, unixUser, ids), r.None?,
                    Auth.Allowed(p, Auth.ManageSSH, now))
    ensures r.None? <==>
              && Auth.Allowed(p, Auth.ManageSSH, now) && Key.ValidUnixUser(unixUser)
              && ips.Some? && host in ips.value && forall k :: 0 <= k < |ids| ==> ids[k] in users
    ensures store.State() != old(store.State()) ==> p.Some? && Auth.ManageSSH in p.value.user.caps
  {
    hide Auth.NeedsPin, Key.ValidUnixUser, Stored;
    Auth.AllowedMeans(p, Auth.ManageSSH, now);
    if p.None? || !Auth.RequireSudo(p.value, Auth.ManageSSH, now) {
      return Some(SudoNeeded);
    }
    if !Key.ValidUnixUser(unixUser) {
      return Some(BadInput);
    }
    if ips.None? {
      return Some(Unavailable);
    }
    if host !in ips.value {
      return Some(NoSuchThing);
    }
    for i := 0 to |ids|
      modifies {}
      invariant forall k :: 0 <= k < i ==> ids[k] in users
    {
      if ids[i] !in users {
        return Some(BadInput);
      }
    }
    store.SetSSHRow(host, unixUser, ids);
    return None;
  }

  method UnbindHandler(store: SshStore, p: Option<Auth.Principal>, now: int, host: string) returns (r: Option<Refusal>)
    modifies store
    ensures Handled(old(store.State()), store.State(), OpDeleteTarget(host), r.None?,
                    Auth.Allowed(p, Auth.ManageSSH, now))
    ensures Auth.Allowed(p, Auth.ManageSSH, now) ==> (r.None? <==> host in old(store.targets))
    ensures store.State() != old(store.State()) ==> p.Some? && Auth.ManageSSH in p.value.user.caps
  {
    hide Auth.NeedsPin;
    Auth.AllowedMeans(p, Auth.ManageSSH, now);
    RemovalsKeep(store.State(), OpDeleteTarget(host));
    if p.None? || !Auth.RequireSudo(p.value, Auth.ManageSSH, now) {
      return Some(SudoNeeded);
    }
    var err := store.DeleteSSHTarget(host);
    if err.Some? {
      return Some(StoreRefused(err.value));
    }
    return None;
  }

  /** removeSSHOrphan: only a host that has left the policy is forgotten. */
  method RemoveOrphanHandler(store: SshStore, p: Option<Auth.Principal>, now: int, ips: Option<map<string, string>>,
      host: string)
    returns (r: Option<Refusal>)
    modifies store
    ensures Handled(old(store.State()), store.State(), OpDeleteHost(host), r.None?,
                    Auth.Allowed(p, Auth.ManageSSH, now))
    ensures r.None? <==> Auth.Allowed(p, Auth.ManageSSH, now) && ips.Some? && host !in ips.value
    ensures store.State() != old(store.State()) ==> p.Some? && Auth.ManageSSH in p.value.user.caps
  {
    hide Auth.NeedsPin;
    Auth.AllowedMeans(p, Auth.ManageSSH, now);
    RemovalsKeep(store.State(), OpDeleteHost(host));
    if p.None? || !Auth.RequireSudo(p.value, Auth.ManageSSH, now) {
      return Some(SudoNeeded);
    }
    if ips.None? {
      return Some(Unavailable);
    }
    if host in ips.value {
      return Some(InUse);
    }
    store.DeleteSSHHost(host);
    return None;
  }

  function Owns(n: Node, id: nat): bool {
    n.userId == Some(id)
  }

  /** deleteTailnetUser: refused while the user owns devices; upstream first, then the keys and rows here. */
  method DeleteUserHandler(store: SshStore, p: Option<Auth.Principal>, now: int, snap: Option<Fetched>, id: nat,
      upstream: bool)
    returns (r: Option<Refusal>)
    modifies store
    ensures Handled(old(store.State()), store.State(), OpDeleteUser(id), r.None?,
                    Auth.Allowed(p, Auth.ManageUsers, now))
    ensures r.None? <==>
              && Auth.Allowed(p, Auth.ManageUsers, now) && snap.Some? && upstream
              && forall k :: 0 <= k < |snap.value.nodes| ==> snap.value.nodes[k].userId != Some(id)
    ensures r.None? ==>
              && (forall k :: k in store.keys <==> k in old(store.keys) && k.key.userId != id)
              && (forall x :: x in store.assigns <==> x in old(store.assigns) && x.userId != id)
              && store.targets == old(store.targets) && store.managed == old(store.managed)
              && store.agents == old(store.agents) && store.rev == old(store.rev) + 1
    ensures store.State() != old(store.State()) ==> p.Some? && Auth.ManageUsers in p.value.user.caps
  {
    hide Auth.NeedsPin, FilterKeys;
    Auth.AllowedMeans(p, Auth.ManageUsers, now);
    FilterKept(store.keys, (k: KeyRow) => k.key.userId != id);
    RemovalsKeep(store.State(), OpDeleteUser(id));
    if p.None? || !Auth.RequireSudo(p.value, Auth.ManageUsers, now) {
      return Some(SudoNeeded);
    }
    if snap.None? {
      return Some(Unavailable);
    }
    var nodes := snap.value.nodes;
    var owned := 0;
    for i := 0 to |nodes|
      modifies {}
      invariant owned >= 0 && (owned == 0 <==> forall k :: 0 <= k < i ==> !Owns(nodes[k], id))
    {
      if Owns(nodes[i], id) {
        owned := owned + 1;
      }
    }
    if owned > 0 {
      return Some(InUse);
    }
    if !upstream {
      return Some(Unavailable);
    }
    store.DeleteSSHUser(id);
    return None;
  }

  // ----- Agents

  method CreateAgentHandler(store: SshStore, p: Option<Auth.Principal>, now: int, id: int) returns (r: Option<Refusal>)
    modifies store
    ensures Handled(old(store.State()), store.State(), OpCreateAgent(id), r.None?, Auth.Allowed(p, Auth.ManageSSH, now))
    ensures r.None? <==> Auth.Allowed(p, Auth.ManageSSH, now)
    ensures store.State() != old(store.State()) ==> p.Some? && Auth.ManageSSH in p.value.user.caps
  {
    hide Auth.NeedsPin;
    Auth.AllowedMeans(p, Auth.ManageSSH, now);
    RemovalsKeep(store.State(), OpCreateAgent(id));
    if p.None? || !Auth.RequireSudo(p.value, Auth.ManageSSH, now) {
      return Some(SudoNeeded);
    }
    store.CreateSSHAgent(id);
    return None;
  }

  /** Nothing is bound to the agent and nothing is left for it to clear, as the server reads it. */
  ghost predicate Unneeded(w: World, id: int) {
    && (forall b :: b in w.bindings ==> b.agentId != id)
    && forall ref :: ref in Goals(w, id) ==> Goals(w, id)[ref].clear == multiset{}
  }

  method CountBindings(bindings: seq<Binding>, id: int) returns (n: nat)
    ensures n == 0 <==> forall b :: b in bindings ==> b.agentId != id
  {
    n := 0;
    for i := 0 to |bindings|
      invariant n == 0 <==> forall k :: 0 <= k < i ==> bindings[k].agentId != id
    {
      if bindings[i].agentId == id {
        n := n + 1;
      }
    }
  }

  method CountClears(id: int, w: World) returns (n: nat)
    ensures n == 0 <==> forall ref :: ref in Goals(w, id) ==> Goals(w, id)[ref].clear == multiset{}
  {
    hide Goals, Ascending;
    var targets := Desired.Desired(id, w);
    n := 0;
    for i := 0 to |targets|
      invariant n == 0 <==> forall k :: 0 <= k < i ==> targets[k].clear == []
    {
      n := n + |targets[i].clear|;
    }
    ClearsListed(targets, Goals(w, id));
  }

  lemma ClearsListed(targets: seq<Target>, goals: map<string, Goal>)
    requires Lists(targets, goals)
    ensures (forall k :: 0 <= k < |targets| ==> targets[k].clear == []) <==>
            forall ref :: ref in goals ==> goals[ref].clear == multiset{}
  {
    hide Ascending;
    forall k | 0 <= k < |targets| ensures targets[k].clear == [] <==> goals[targets[k].ref].clear == multiset{} {
      assert GoalOf(targets[k]) == goals[targets[k].ref];
      assert |multiset(targets[k].clear)| == |targets[k].clear|;
    }
  }

  /**
   revokeSSHAgent, with the state as it was read before; unless forced, only an agent that is no
   longer needed goes. The rows handed back are those the delete removed.
   */
  method RevokeHandler(store: SshStore, p: Option<Auth.Principal>, now: int, w: Option<World>, known: set<int>, id: int,
      force: bool)
    returns (r: Result<set<Row>, Refusal>)
    modifies store
    ensures Handled(old(store.State()), store.State(), OpDeleteAgent(id), r.Ok?, Auth.Allowed(p, Auth.ManageSSH, now))
    ensures r.Ok? ==> w.Some? && (force || Unneeded(w.value, id)) && r.value == Mine(old(store.managed), id)
    ensures r.Ok? <==>
              && Auth.Allowed(p, Auth.ManageSSH, now) && w.Some? && id in known && (force || Unneeded(w.value, id))
              && id in old(store.agents)
    ensures store.State() != old(store.State()) ==> p.Some? && Auth.ManageSSH in p.value.user.caps
  {
    hide Auth.NeedsPin, Goals;
    Auth.AllowedMeans(p, Auth.ManageSSH, now);
    RemovalsKeep(store.State(), OpDeleteAgent(id));
    if p.None? || !Auth.RequireSudo(p.value, Auth.ManageSSH, now) {
      return Err(SudoNeeded);
    }
    if w.None? {
      return Err(Unavailable);
    }
    if id !in known {
      return Err(NoSuchThing);
    }
    var bindings := CountBindings(w.value.bindings, id);
    var clears := CountClears(id, w.value);
    if !force && (bindings > 0 || clears > 0) {
      return Err(InUse);
    }
    var gone := store.DeleteSSHAgent(id);
    match gone
    case Err(e) => return Err(StoreRefused(e));
    case Ok(rows) => return Ok(rows);
  }

  /** An agent that is no longer needed has no row: there is no block it is known to have left. */
  lemma UnneededHasNoRows(t: Tables, seen: Seen, servers: seq<Server>, id: int)
    requires Unneeded(WorldOf(t, seen, servers), id)
    ensures Mine(t.managed, id) == {}
  {
    hide StateOf, Ips, Cleared, UsersOf, ActiveFor;
    var w := WorldOf(t, seen, servers);
    if m :| m in Mine(t.managed, id) {
      assert m in w.managed;
      RowsAccounted(w, m);
      NotActive(w.bindings, Ips(servers), id, m.targetRef);
    }
  }

  /** Every line the server sends from well-stored tables passes the agent's own check. */
  lemma SentLinesSafe(t: Tables, seen: Seen, servers: seq<Server>, id: int, ref: string, u: string)
    requires WellStored(t)
    requires var goals := Goals(WorldOf(t, seen, servers), id); ref in goals && u in goals[ref].users
    ensures Key.SafeLines(Goals(WorldOf(t, seen, servers), id)[ref].users[u])
  {
    hide Goals, Stored, Key.SafeLine, Key.ValidUnixUser;
    var w := WorldOf(t, seen, servers);
    forall key | key in w.keys ensures Stored(key) {
      var i :| 0 <= i < |t.keys| && StoredKeys(t.keys)[i] == key;
      assert t.keys[i] in t.keys;
    }
    GoalsSafe(w, id, ref, u);
  }
}
