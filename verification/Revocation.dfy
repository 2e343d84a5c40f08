/**
 What the tables grant, and what each admin write gives or takes (internal/store/ssh.go,
 internal/sshsync/desired.go).
 */
module Revocation {
  import opened Common
  import opened Desired
  import opened Store
  import opened Snapshot
  import opened SyncApi
  import Key

  // ----- What the tables grant

  /** This binding, assignment and key put the line into the file of a unix user on a target. */
  ghost predicate GrantedBy(
    t: Tables, seen: Seen, servers: seq<Server>, a: int, ref: string, u: string, l: string,
    h: string, x: Assignment, k: KeyRow)
  {
    && h in t.targets && t.targets[h].agentId == a && t.targets[h].targetRef == ref
    && StateOf(t.targets[h], Ips(servers)) == Active
    && x in t.assigns && x.hostName == h && x.unixUser == u && x.userId in seen.users
    && k in t.keys && k.key.userId == x.userId && l == Key.Line(k.key.line, seen.users[x.userId], k.key.comment)
  }

  ghost predicate Granted(t: Tables, seen: Seen, servers: seq<Server>, a: int, ref: string, u: string, l: string) {
    exists h, x, k :: GrantedBy(t, seen, servers, a, ref, u, l, h, x, k)
  }

  ghost predicate Sent(goals: map<string, Goal>, ref: string, u: string, l: string) {
    ref in goals && u in goals[ref].users && l in goals[ref].users[u]
  }

  /** The delivered binding of a target is the one the tables hold. */
  lemma TheBinding(db: Db, servers: seq<Server>, a: int, ref: string, h: string)
    requires Valid(db) && h in db.tables.targets
    requires var b := db.tables.targets[h]; b.agentId == a && b.targetRef == ref && StateOf(b, Ips(servers)) == Active
    ensures ActiveFor(Listing(db.tables.targets.Values), Ips(servers), a, ref) == Some(db.tables.targets[h])
    ensures db.tables.targets[h].hostName == h
  {
    hide StateOf, Ips, KeysInOrder;
    var t := db.tables;
    var bindings := Listing(t.targets.Values);
    NotActive(bindings, Ips(servers), a, ref);
    assert t.targets[h] in t.targets.Values;
    assert ref in ActiveRefs(bindings, Ips(servers), a);
    var b := ActiveFor(bindings, Ips(servers), a, ref).value;
    var g :| g in t.targets && t.targets[g] == b;
    assert g != h ==> !SameTarget(t.targets[g], t.targets[h]);
  }

  lemma StoredRow(keys: seq<KeyRow>, k: KeyRow)
    requires k in keys
    ensures k.key in StoredKeys(keys)
  {
    var i :| 0 <= i < |keys| && keys[i] == k;
    assert StoredKeys(keys)[i] == k.key;
  }

  lemma RowOfStored(keys: seq<KeyRow>, key: StoredKey) returns (k: KeyRow)
    requires key in StoredKeys(keys)
    ensures k in keys && k.key == key
  {
    var i :| 0 <= i < |keys| && StoredKeys(keys)[i] == key;
    k := keys[i];
  }

  lemma GrantedIsSent(db: Db, seen: Seen, servers: seq<Server>, a: int, ref: string, u: string, l: string,
                      h: string, x: Assignment, k: KeyRow)
    requires Valid(db) && GrantedBy(db.tables, seen, servers, a, ref, u, l, h, x, k)
    ensures Sent(Goals(WorldOf(db.tables, seen, servers), a), ref, u, l)
  {
    hide Valid, StateOf, Ips, ActiveFor, LinesFor, Goals, Sent;
    var w := WorldOf(db.tables, seen, servers);
    TheBinding(db, servers, a, ref, h);
    StoredRow(db.tables.keys, k);
    assert x in w.assigns && Assigned(x, h, u, w.users) && Carries(x, w.keys, w.users, l);
    LineMeaning(w.assigns, h, u, w.users, w.keys, l);
    LineIsSent(w, a, ref, u, l, x);
  }

  lemma LineIsSent(w: World, a: int, ref: string, u: string, l: string, x: Assignment)
    requires ActiveFor(w.bindings, Ips(w.servers), a, ref).Some?
    requires var h := ActiveFor(w.bindings, Ips(w.servers), a, ref).value.hostName;
             x in w.assigns && Assigned(x, h, u, w.users) && l in LinesFor(w.assigns, h, u, w.users, w.keys)
    ensures Sent(Goals(w, a), ref, u, l)
  {
    hide StateOf, Ips, Frozen, ManagedRefs, Cleared, ActiveFor, LinesFor, ActiveRefs;
    NotActive(w.bindings, Ips(w.servers), a, ref);
  }

  lemma SentIsGranted(db: Db, seen: Seen, servers: seq<Server>, a: int, ref: string, u: string, l: string)
    requires Valid(db) && Sent(Goals(WorldOf(db.tables, seen, servers), a), ref, u, l)
    ensures Granted(db.tables, seen, servers, a, ref, u, l)
  {
    hide StateOf, Ips, Frozen, ManagedRefs, Cleared, ActiveFor, LinesFor, ActiveRefs, KeysInOrder, SameTarget;
    var w := WorldOf(db.tables, seen, servers);
    NotActive(w.bindings, Ips(servers), a, ref);
    var b := ActiveFor(w.bindings, Ips(servers), a, ref).value;
    var h :| h in db.tables.targets && db.tables.targets[h] == b;
    LineMeaning(w.assigns, h, u, w.users, w.keys, l);
    var x :| x in w.assigns && Assigned(x, h, u, w.users) && Carries(x, w.keys, w.users, l);
    var key :| key in w.keys && key.userId == x.userId && l == Key.Line(key.line, w.users[x.userId], key.comment);
    var k := RowOfStored(db.tables.keys, key);
    assert GrantedBy(db.tables, seen, servers, a, ref, u, l, h, x, k);
  }

  /**
   Who gets in. The server sends a line for a unix user of a target exactly when the tables say so: a
   binding of the agent to that target is active, a live person is assigned to the unix user on its
   host, and the line is one of that person's keys under their current name.
   */
  lemma WhoGetsIn(db: Db, seen: Seen, hostsOf: HostsOf, a: int, ref: string, u: string, l: string)
    requires Valid(db) && GoalsOf(db.tables, seen, hostsOf, a).Some?
    ensures Sent(GoalsOf(db.tables, seen, hostsOf, a).value, ref, u, l) <==>
            Granted(db.tables, seen, hostsOf(seen.policy).value, a, ref, u, l)
  {
    hide Goals, Valid, Implausible, Sent, GrantedBy;
    var servers := hostsOf(seen.policy).value;
    if Granted(db.tables, seen, servers, a, ref, u, l) {
      var h, x, k :| GrantedBy(db.tables, seen, servers, a, ref, u, l, h, x, k);
      GrantedIsSent(db, seen, servers, a, ref, u, l, h, x, k);
    }
    if Sent(Goals(WorldOf(db.tables, seen, servers), a), ref, u, l) {
      SentIsGranted(db, seen, servers, a, ref, u, l);
    }
  }

  // ----- What each write takes

  /** Each removal takes exactly what it is about: that person, key, host, binding or agent, and nothing else. */
  lemma RemovalTakes(db: Db, op: Op, seen: Seen, servers: seq<Server>, a: int, ref: string, u: string, l: string,
                     h: string, x: Assignment, k: KeyRow)
    requires Valid(db)
    ensures var before := GrantedBy(db.tables, seen, servers, a, ref, u, l, h, x, k);
            var after := GrantedBy(Do(db, op).tables, seen, servers, a, ref, u, l, h, x, k);
            && (op.OpDeleteUser? ==> (after <==> before && x.userId != op.user))
            && (op.OpDeleteKey? ==> (after <==> before && k.id != op.id))
            && (op.OpDeleteHost? ==> (after <==> before && h != op.host))
            && (op.OpDeleteTarget? ==> (after <==> before && h != op.host))
            && (op.OpDeleteAgent? ==> (after <==> before && a != op.agentId))
  {
    hide StateOf, Ips, FilterKeys, KeysInOrder, SameTarget, Key.Line;
    FilterKept(db.tables.keys, (r: KeyRow) => op.OpDeleteUser? ==> r.key.userId != op.user);
    if op.OpDeleteUser? {
      FilterKept(db.tables.keys, (r: KeyRow) => r.key.userId != op.user);
    }
    if op.OpDeleteKey? {
      FilterKept(db.tables.keys, (r: KeyRow) => r.id != op.id);
    }
  }

  /** Replacing who may log in as one unix user of one host: exactly the listed people, the others as before. */
  lemma RowSets(db: Db, host: string, v: string, ids: seq<nat>, seen: Seen, servers: seq<Server>, a: int, ref: string,
                u: string, l: string, h: string, x: Assignment, k: KeyRow)
    ensures var t := SetRow(db, host, v, ids).tables;
            GrantedBy(t, seen, servers, a, ref, u, l, h, x, k) <==>
            && (if h == host && u == v then x.userId in ids else x in db.tables.assigns)
            && GrantedBy(db.tables.(assigns := {x}), seen, servers, a, ref, u, l, h, x, k)
  {
    hide StateOf, Ips, Key.Line;
  }

  /** A new key of a live person reaches every target where the person is assigned. */
  lemma KeyGrants(db: Db, fingerprint: string, key: StoredKey, seen: Seen, servers: seq<Server>, h: string,
      x: Assignment)
    requires AddKey(db, fingerprint, key).Ok? && h in db.tables.targets
    requires StateOf(db.tables.targets[h], Ips(servers)) == Active
    requires x in db.tables.assigns && x.hostName == h && x.userId == key.userId && x.userId in seen.users
    ensures var b := db.tables.targets[h];
            Granted(AddKey(db, fingerprint, key).value.tables, seen, servers, b.agentId, b.targetRef, x.unixUser,
                    Key.Line(key.line, seen.users[x.userId], key.comment))
  {
    hide StateOf, Ips;
    var b := db.tables.targets[h];
    var k := KeyRow(db.lastKey + 1, fingerprint, key);
    assert GrantedBy(AddKey(db, fingerprint, key).value.tables, seen, servers, b.agentId, b.targetRef, x.unixUser,
                     Key.Line(key.line, seen.users[x.userId], key.comment), h, x, k);
  }

  /** Adding a key and deleting it again leaves the tables as they were. */
  lemma KeyRoundTrip(db: Db, fingerprint: string, key: StoredKey)
    requires Valid(db) && AddKey(db, fingerprint, key).Ok?
    ensures var added := AddKey(db, fingerprint, key).value;
            DeleteKey(added, added.lastKey).Ok? && DeleteKey(added, added.lastKey).value.tables == db.tables
  {
    hide KeysInOrder, SameTarget;
    var added := AddKey(db, fingerprint, key).value;
    var last := KeyRow(added.lastKey, fingerprint, key);
    assert added.tables.keys[|db.tables.keys|] == last;
    AllKept(db.tables.keys, (r: KeyRow) => r.id != added.lastKey);
    assert added.tables.keys[..|db.tables.keys|] == db.tables.keys;
    assert db.tables.keys + [] == db.tables.keys;
  }

  lemma {:induction false} AllKept(keys: seq<KeyRow>, keep: KeyRow -> bool)
    requires forall i :: 0 <= i < |keys| ==> keep(keys[i])
    ensures FilterKeys(keys, keep) == keys
  {
    if keys != [] {
      AllKept(keys[..|keys| - 1], keep);
    }
  }

  /** Binding a host that had no binding and unbinding it again leaves the tables as they were. */
  lemma BindingRoundTrip(db: Db, b: Binding)
    requires Approve(db, b).Ok? && b.hostName !in db.tables.targets
    ensures DeleteTarget(Approve(db, b).value, b.hostName).Ok?
    ensures DeleteTarget(Approve(db, b).value, b.hostName).value.tables == db.tables
  {
    hide SameTarget;
    assert db.tables.targets[b.hostName := b.(suspended := false)] - {b.hostName} == db.tables.targets;
  }

  // ----- What is cleaned up

  ghost predicate Bound(t: Tables, a: int, ref: string) {
    exists h :: h in t.targets && t.targets[h].agentId == a && t.targets[h].targetRef == ref
  }

  /** Once no binding leads to a target, every block recorded there is cleared, on any machine, and nothing written. */
  lemma UnboundCleared(db: Db, seen: Seen, hostsOf: HostsOf, a: int, ref: string)
    requires GoalsOf(db.tables, seen, hostsOf, a).Some? && !Bound(db.tables, a, ref)
    ensures var goals := GoalsOf(db.tables, seen, hostsOf, a).value;
            && (ref in goals <==> exists u :: Row(a, ref, u) in db.tables.managed)
            && (ref in goals ==>
                  && goals[ref].users == map[] && goals[ref].expectIp == "" && goals[ref].expectLabel == ""
                  && forall u :: u in goals[ref].clear <==> Row(a, ref, u) in db.tables.managed)
  {
    hide Implausible, Ips, StateOf, Cleared, ActiveFor, UsersOf;
    var servers := hostsOf(seen.policy).value;
    var w := WorldOf(db.tables, seen, servers);
    var ips, goals := Ips(servers), Goals(w, a);
    NoneLeads(w.bindings, db.tables, ips, a, ref);
    NotActive(w.bindings, ips, a, ref);
    if ref in goals {
      var m :| m in w.managed && m.agentId == a && m.targetRef == ref;
      assert m == Row(a, ref, m.unixUser);
      forall u ensures u in goals[ref].clear <==> Row(a, ref, u) in db.tables.managed {
        ClearsAreRows(w, a, ref, u);
      }
    }
    if u :| Row(a, ref, u) in db.tables.managed {
      assert Row(a, ref, u) in w.managed;
    }
  }

  lemma NoneLeads(bindings: seq<Binding>, t: Tables, ips: map<string, string>, a: int, ref: string)
    requires !Bound(t, a, ref) && forall b :: b in bindings <==> b in t.targets.Values
    ensures ref !in ActiveRefs(bindings, ips, a) && ref !in Frozen(bindings, ips, a)
  {
    hide StateOf;
  }

  /** Removing a host or its binding leaves its target unbound, since a target has one host. */
  lemma RemovalUnbinds(db: Db, op: Op, host: string)
    requires Valid(db) && host in db.tables.targets && (op == OpDeleteHost(host) || op == OpDeleteTarget(host))
    ensures var b := db.tables.targets[host]; !Bound(Do(db, op).tables, b.agentId, b.targetRef)
  {
    hide KeysInOrder;
    var b := db.tables.targets[host];
    var after := Do(db, op).tables;
    forall g | g in after.targets ensures !(after.targets[g].agentId == b.agentId
        && after.targets[g].targetRef == b.targetRef) {
      assert !SameTarget(db.tables.targets[g], db.tables.targets[host]);
    }
  }
}
