/** The SSH tables and the revision that guards them (internal/store/ssh.go). */
module Store {
  import opened Common
  import opened Desired

  datatype KeyRow = KeyRow(id: nat, fingerprint: string, key: StoredKey)

  /** The tables Desired reads. Rows are listed in primary-key order, so a listing is a function of its table. */
  datatype Tables = Tables(keys: seq<KeyRow>, assigns: set<Assignment>, targets: map<string, Binding>,
      managed: set<Row>)

  datatype Db = Db(rev: nat, agents: set<int>, lastKey: nat, tables: Tables)

  datatype StoreError = NotFound | DuplicateSSHKey | TargetTaken | NoSuchAgent

  /** What an agent's report changes, once its pairs are checked. */
  datatype Report = Report(applied: seq<Pair>, cleared: seq<Pair>, mismatched: seq<string>)

  /** sshTx: the revision is bumped in the transaction that changes the tables. */
  function Commit(db: Db, tables: Tables, changed: bool): Db {
    db.(tables := tables, rev := if changed then db.rev + 1 else db.rev)
  }

  // ----- The schema's constraints

  ghost predicate Valid(db: Db) {
    var t := db.tables;
    && (forall h :: h in t.targets ==> t.targets[h].hostName == h && t.targets[h].agentId in db.agents)
    && (forall h, k :: h in t.targets && k in t.targets && h != k ==> !SameTarget(t.targets[h], t.targets[k]))
    && (forall m :: m in t.managed ==> m.agentId in db.agents)
    && KeysInOrder(t.keys)
    && (forall i :: 0 <= i < |t.keys| ==> t.keys[i].id <= db.lastKey)
  }

  /** The unique index on (agent_id, target_ref). */
  predicate SameTarget(b: Binding, c: Binding) {
    b.agentId == c.agentId && b.targetRef == c.targetRef
  }

  // ----- The writes, as functions of the database

  function FilterKeys(keys: seq<KeyRow>, keep: KeyRow -> bool): seq<KeyRow> {
    if keys == [] then []
    else
      var k := keys[|keys| - 1];
      FilterKeys(keys[..|keys| - 1], keep) + if keep(k) then [k] else []
  }

  function AddKey(db: Db, fingerprint: string, key: StoredKey): Result<Db, StoreError> {
    if exists k <- db.tables.keys :: k.fingerprint == fingerprint then Err(DuplicateSSHKey)
    else
      var t := db.tables;
      Ok(Commit(db.(lastKey := db.lastKey + 1), t.(keys := t.keys + [KeyRow(db.lastKey + 1, fingerprint, key)]), true))
  }

  function DeleteKey(db: Db, id: nat): Result<Db, StoreError> {
    if !exists k <- db.tables.keys :: k.id == id then Err(NotFound)
    else Ok(Commit(db, db.tables.(keys := FilterKeys(db.tables.keys, (k: KeyRow) => k.id != id)), true))
  }

  function SetRow(db: Db, host: string, unixUser: string, ids: seq<nat>): Db {
    var kept := set a <- db.tables.assigns | !(a.hostName == host && a.unixUser == unixUser);
    Commit(db, db.tables.(assigns := kept + set id <- ids :: Assignment(host, unixUser, id)), true)
  }

  function DeleteHost(db: Db, host: string): Db {
    var t := db.tables;
    Commit(db, t.(assigns := (set a <- t.assigns | a.hostName != host), targets := t.targets - {host}), true)
  }

  function DeleteUser(db: Db, id: nat): Db {
    var t := db.tables;
    Commit(db, t.(keys := FilterKeys(t.keys, (k: KeyRow) => k.key.userId != id),
        assigns := (set a <- t.assigns | a.userId != id)), true)
  }

  /** Binding or re-approving a host, which also lifts a suspension. */
  function Approve(db: Db, b: Binding): Result<Db, StoreError> {
    var t := db.tables;
    if b.agentId !in db.agents then Err(NoSuchAgent)
    else if exists h <- t.targets.Keys :: h != b.hostName && SameTarget(t.targets[h], b) then Err(TargetTaken)
    else Ok(Commit(db, t.(targets := t.targets[b.hostName := b.(suspended := false)]), true))
  }

  function DeleteTarget(db: Db, host: string): Result<Db, StoreError> {
    if host !in db.tables.targets then Err(NotFound)
    else Ok(Commit(db, db.tables.(targets := db.tables.targets - {host}), true))
  }

  /** Creating an agent bumps nothing: no table Desired reads has changed. */
  function CreateAgent(db: Db, id: int): Db {
    db.(agents := db.agents + {id})
  }

  function Mine(managed: set<Row>, agentId: int): set<Row> {
    set m <- managed | m.agentId == agentId
  }

  /** Deleting the agent's row cascades to its bindings and managed rows. */
  function WithoutAgent(db: Db, t: Tables, agentId: int): Db {
    var targets := map h <- t.targets | t.targets[h].agentId != agentId :: t.targets[h];
    Commit(db.(agents := db.agents - {agentId}), t.(targets := targets, managed := t.managed - Mine(t.managed,
        agentId)), true)
  }

  /** A forced revoke: the rows the caller must clean up by hand are handed back. */
  function DeleteAgent(db: Db, agentId: int): Result<(Db, set<Row>), StoreError> {
    if agentId !in db.agents then Err(NotFound)
    else Ok((WithoutAgent(db, db.tables, agentId), Mine(db.tables.managed, agentId)))
  }

  function Rows(agentId: int, pairs: seq<Pair>): set<Row> {
    set p <- pairs :: Row(agentId, p.ref, p.unixUser)
  }

  /** An uninstalling agent: deleted once nothing it wrote is left, kept otherwise. */
  function RetireAgent(db: Db, agentId: int, cleared: seq<Pair>): Result<(Db, set<Row>), StoreError> {
    var t := db.tables.(managed := db.tables.managed - Rows(agentId, cleared));
    var left := Mine(t.managed, agentId);
    if left != {} then Ok((Commit(db, t, |cleared| > 0), left))
    else if agentId !in db.agents then Err(NotFound)
    else Ok((WithoutAgent(db, t, agentId), {}))
  }

  /** The bindings of the agent a report suspends. */
  predicate Suspends(b: Binding, agentId: int, mismatched: seq<string>) {
    b.agentId == agentId && b.targetRef in mismatched && !b.suspended
  }

  function Suspend(targets: map<string, Binding>, agentId: int, mismatched: seq<string>): map<string, Binding> {
    map h <- targets :: if Suspends(targets[h], agentId, mismatched) then targets[h].(suspended := true) else targets[h]
  }

  /** Folding a report back in. The revision moves only if some row was added, removed or suspended. */
  function Record(db: Db, agentId: int, r: Report): Result<Db, StoreError> {
    var t := db.tables;
    var applied, cleared := Rows(agentId, r.applied), Rows(agentId, r.cleared);
    if agentId !in db.agents && r.applied != [] then Err(NoSuchAgent)
    else
      var after := t.(managed := t.managed + applied - cleared, targets := Suspend(t.targets, agentId, r.mismatched));
      var changed := !(applied <= t.managed) || cleared * (t.managed + applied) != {} || after.targets != t.targets;
      Ok(Commit(db, after, changed))
  }

  // ----- Every write, as one step

  datatype Op =
    | OpAddKey(fingerprint: string, key: StoredKey)
    | OpDeleteKey(id: nat)
    | OpSetRow(host: string, unixUser: string, ids: seq<nat>)
    | OpDeleteHost(host: string)
    | OpDeleteUser(user: nat)
    | OpApprove(binding: Binding)
    | OpDeleteTarget(host: string)
    | OpCreateAgent(agentId: int)
    | OpDeleteAgent(agentId: int)
    | OpRetire(agentId: int, cleared: seq<Pair>)
    | OpRecord(agentId: int, report: Report)

  function OrSame<E>(db: Db, r: Result<Db, E>): Db {
    match r case Ok(after) => after case Err(_) => db
  }

  function OrSameLeft<E>(db: Db, r: Result<(Db, set<Row>), E>): Db {
    match r case Ok((after, _)) => after case Err(_) => db
  }

  /** A write that fails rolls back. */
  function Do(db: Db, op: Op): Db {
    match op
    case OpAddKey(f, k) => OrSame(db, AddKey(db, f, k))
    case OpDeleteKey(id) => OrSame(db, DeleteKey(db, id))
    case OpSetRow(h, u, ids) => SetRow(db, h, u, ids)
    case OpDeleteHost(h) => DeleteHost(db, h)
    case OpDeleteUser(id) => DeleteUser(db, id)
    case OpApprove(b) => OrSame(db, Approve(db, b))
    case OpDeleteTarget(h) => OrSame(db, DeleteTarget(db, h))
    case OpCreateAgent(id) => CreateAgent(db, id)
    case OpDeleteAgent(id) => OrSameLeft(db, DeleteAgent(db, id))
    case OpRetire(id, cleared) => OrSameLeft(db, RetireAgent(db, id, cleared))
    case OpRecord(id, r) => OrSame(db, Record(db, id, r))
  }

  /** No write can change what Desired reads without moving the revision, and the revision never goes back. */
  lemma WritesBump(db: Db, op: Op)
    ensures Do(db, op).rev >= db.rev
    ensures Do(db, op).tables != db.tables ==> Do(db, op).rev > db.rev
  {
    hide FilterKeys, SameTarget;
    match op
    case OpRecord(id, r) => RecordBumps(db, id, r);
    case OpRetire(id, cleared) =>
      if cleared == [] {
        assert db.tables.managed - Rows(id, cleared) == db.tables.managed;
      }
    case _ =>
  }

  lemma NothingChanged<T>(rows: set<T>, added: set<T>, gone: set<T>)
    requires added <= rows && gone * (rows + added) == {}
    ensures rows + added - gone == rows
  {
    forall m | m in gone ensures m !in rows {
      assert m !in gone * (rows + added);
    }
  }

  lemma RecordBumps(db: Db, agentId: int, r: Report)
    ensures OrSame(db, Record(db, agentId, r)).tables != db.tables ==> OrSame(db, Record(db, agentId, r)).rev > db.rev
  {
    var t, applied, cleared := db.tables, Rows(agentId, r.applied), Rows(agentId, r.cleared);
    if applied <= t.managed && cleared * (t.managed + applied) == {} {
      NothingChanged(t.managed, applied, cleared);
    }
  }

  /** A report moves the revision exactly when it changes a row, given that it does not both apply and clear a pair. */
  lemma RecordBumpsExactly(db: Db, agentId: int, r: Report)
    requires Record(db, agentId, r).Ok?
    requires Rows(agentId, r.applied) !! Rows(agentId, r.cleared)
    ensures var after := Record(db, agentId, r).value;
            (after.rev == db.rev <==> after.tables == db.tables) && after.rev <= db.rev + 1
  {
    var t, applied, cleared := db.tables, Rows(agentId, r.applied), Rows(agentId, r.cleared);
    var managed := t.managed + applied - cleared;
    if applied <= t.managed && cleared * (t.managed + applied) == {} {
      NothingChanged(t.managed, applied, cleared);
    } else if !(applied <= t.managed) {
      var m :| m in applied && m !in t.managed;
      assert m in managed;
    } else {
      var m :| m in cleared * (t.managed + applied);
      assert m !in managed && m in t.managed;
    }
  }

  lemma {:induction false} FilterKept(keys: seq<KeyRow>, keep: KeyRow -> bool)
    ensures forall k :: k in FilterKeys(keys, keep) <==> k in keys && keep(k)
  {
    if keys != [] {
      var init, last := keys[..|keys| - 1], keys[|keys| - 1];
      FilterKept(init, keep);
      assert keys == init + [last];
    }
  }

  ghost predicate KeysInOrder(keys: seq<KeyRow>) {
    forall i, j :: 0 <= i < j < |keys| ==> keys[i].id < keys[j].id && keys[i].fingerprint != keys[j].fingerprint
  }

  lemma {:induction false} FilterOrdered(keys: seq<KeyRow>, keep: KeyRow -> bool)
    requires KeysInOrder(keys)
    ensures KeysInOrder(FilterKeys(keys, keep))
  {
    if keys != [] {
      var init, last := keys[..|keys| - 1], keys[|keys| - 1];
      FilterOrdered(init, keep);
      var out := FilterKeys(init, keep);
      forall i | 0 <= i < |out| ensures out[i].id < last.id && out[i].fingerprint != last.fingerprint {
        FilterKept(init, keep);
        assert out[i] in init;
      }
    }
  }

  lemma KeysStay(db: Db, op: Op)
    requires Valid(db) && (op.OpDeleteKey? || op.OpDeleteUser?)
    ensures Valid(Do(db, op))
  {
    var keep := if op.OpDeleteKey? then (k: KeyRow) => k.id != op.id else (k: KeyRow) => k.key.userId != op.user;
    FilterOrdered(db.tables.keys, keep);
    FilterKept(db.tables.keys, keep);
    KeysBelow(FilterKeys(db.tables.keys, keep), db.tables.keys, db.lastKey);
    hide FilterKeys, KeysInOrder, SameTarget;
  }

  lemma BindingsStay(db: Db, op: Op)
    requires Valid(db) && (op.OpApprove? || op.OpDeleteTarget? || op.OpDeleteHost? || op.OpSetRow? || op.OpCreateAgent?)
    ensures Valid(Do(db, op))
  {
    hide FilterKeys, KeysInOrder;
  }

  lemma AgentsStay(db: Db, op: Op)
    requires Valid(db) && (op.OpDeleteAgent? || op.OpRetire?)
    ensures Valid(Do(db, op))
  {
    hide FilterKeys, KeysInOrder, Rows;
  }

  lemma ReportsStay(db: Db, op: Op)
    requires Valid(db) && op.OpRecord?
    ensures Valid(Do(db, op))
  {
    hide FilterKeys, KeysInOrder;
  }

  /** Every write keeps the schema's constraints. */
  lemma WritesKeepValid(db: Db, op: Op)
    requires Valid(db)
    ensures Valid(Do(db, op))
  {
    hide *;
    match op
    case OpAddKey(f, k) => AddKeyStays(db, op);
    case OpDeleteKey(_) => KeysStay(db, op);
    case OpDeleteUser(_) => KeysStay(db, op);
    case OpRecord(_, _) => ReportsStay(db, op);
    case OpDeleteAgent(_) => AgentsStay(db, op);
    case OpRetire(_, _) => AgentsStay(db, op);
    case _ => BindingsStay(db, op);
  }

  lemma AddKeyStays(db: Db, op: Op)
    requires Valid(db) && op.OpAddKey?
    ensures Valid(Do(db, op))
  {
    hide FilterKeys;
  }

  lemma KeysBelow(kept: seq<KeyRow>, keys: seq<KeyRow>, last: nat)
    requires forall k :: k in kept ==> k in keys
    requires forall i :: 0 <= i < |keys| ==> keys[i].id <= last
    ensures forall i :: 0 <= i < |kept| ==> kept[i].id <= last
  {
    forall i | 0 <= i < |kept| ensures kept[i].id <= last {
      assert kept[i] in keys;
    }
  }

  // ----- The store

  lemma PairRowsSnoc(agentId: int, pairs: seq<Pair>, p: Pair)
    ensures Rows(agentId, pairs + [p]) == Rows(agentId, pairs) + {Row(agentId, p.ref, p.unixUser)}
  {
    assert forall x :: x in pairs + [p] <==> x in pairs || x == p;
  }

  /** One field per table; a method is one transaction, and assigns the fields only when it commits. */
  class SshStore {
    var rev: nat
    var agents: set<int>
    var lastKey: nat
    var keys: seq<KeyRow>
    var assigns: set<Assignment>
    var targets: map<string, Binding>
    var managed: set<Row>

    ghost function State(): Db
      reads this
    {
      Db(rev, agents, lastKey, Tables(keys, assigns, targets, managed))
    }

    constructor ()
      ensures State() == Db(0, {}, 0, Tables([], {}, map[], {}))
    {
      rev, agents, lastKey := 0, {}, 0;
      keys, assigns, targets, managed := [], {}, map[], {};
    }

    method AddSSHKey(fingerprint: string, key: StoredKey) returns (err: Option<StoreError>)
      modifies this
      ensures var r := AddKey(old(State()), fingerprint, key);
              State() == OrSame(old(State()), r) && (err == if r.Ok? then None else Some(r.error))
    {
      if exists k <- keys :: k.fingerprint == fingerprint {
        return Some(DuplicateSSHKey);
      }
      lastKey := lastKey + 1;
      keys := keys + [KeyRow(lastKey, fingerprint, key)];
      rev := rev + 1;
      return None;
    }

    method DeleteSSHKey(id: nat) returns (err: Option<StoreError>)
      modifies this
      ensures var r := DeleteKey(old(State()), id);
              State() == OrSame(old(State()), r) && (err == if r.Ok? then None else Some(r.error))
    {
      if !exists k <- keys :: k.id == id {
        return Some(NotFound);
      }
      keys := FilterKeys(keys, (k: KeyRow) => k.id != id);
      rev := rev + 1;
      return None;
    }

    method SetSSHRow(host: string, unixUser: string, ids: seq<nat>)
      modifies this
      ensures State() == SetRow(old(State()), host, unixUser, ids)
    {
      var rows := set a <- assigns | !(a.hostName == host && a.unixUser == unixUser);
      ghost var kept := rows;
      for i := 0 to |ids|
        modifies {}
        invariant rows == kept + set id <- ids[..i] :: Assignment(host, unixUser, id)
      {
        assert ids[..i + 1] == ids[..i] + [ids[i]];
        rows := rows + {Assignment(host, unixUser, ids[i])};
      }
      assert ids[..|ids|] == ids;
      assigns, rev := rows, rev + 1;
    }

    method DeleteSSHHost(host: string)
      modifies this
      ensures State() == DeleteHost(old(State()), host)
    {
      assigns := set a <- assigns | a.hostName != host;
      targets := targets - {host};
      rev := rev + 1;
    }

    method DeleteSSHUser(id: nat)
      modifies this
      ensures State() == DeleteUser(old(State()), id)
    {
      keys := FilterKeys(keys, (k: KeyRow) => k.key.userId != id);
      assigns := set a <- assigns | a.userId != id;
      rev := rev + 1;
    }

    method ApproveSSHTarget(b: Binding) returns (err: Option<StoreError>)
      modifies this
      ensures var r := Approve(old(State()), b);
              State() == OrSame(old(State()), r) && (err == if r.Ok? then None else Some(r.error))
    {
      if b.agentId !in agents {
        return Some(NoSuchAgent);
      }
      if exists h <- targets.Keys :: h != b.hostName && SameTarget(targets[h], b) {
        return Some(TargetTaken);
      }
      targets := targets[b.hostName := b.(suspended := false)];
      rev := rev + 1;
      return None;
    }

    method DeleteSSHTarget(host: string) returns (err: Option<StoreError>)
      modifies this
      ensures var r := DeleteTarget(old(State()), host);
              State() == OrSame(old(State()), r) && (err == if r.Ok? then None else Some(r.error))
    {
      if host !in targets {
        return Some(NotFound);
      }
      targets := targets - {host};
      rev := rev + 1;
      return None;
    }

    method CreateSSHAgent(id: int)
      modifies this
      ensures State() == CreateAgent(old(State()), id)
    {
      agents := agents + {id};
    }

    method DeleteSSHAgent(agentId: int) returns (r: Result<set<Row>, StoreError>)
      modifies this
      ensures var spec := DeleteAgent(old(State()), agentId);
              && State() == OrSameLeft(old(State()), spec)
              && r == (match spec case Ok((_, gone)) => Ok(gone) case Err(e) => Err(e))
    {
      if agentId !in agents {
        return Err(NotFound);
      }
      var gone := Mine(managed, agentId);
      agents := agents - {agentId};
      targets := map h <- targets | targets[h].agentId != agentId :: targets[h];
      managed := managed - gone;
      rev := rev + 1;
      return Ok(gone);
    }

    method RetireSSHAgent(agentId: int, cleared: seq<Pair>) returns (r: Result<set<Row>, StoreError>)
      modifies this
      ensures var spec := RetireAgent(old(State()), agentId, cleared);
              && State() == OrSameLeft(old(State()), spec)
              && r == (match spec case Ok((_, left)) => Ok(left) case Err(e) => Err(e))
    {
      var rows := managed;
      for i := 0 to |cleared|
        modifies {}
        invariant rows == managed - Rows(agentId, cleared[..i])
      {
        PairRowsSnoc(agentId, cleared[..i], cleared[i]);
        assert cleared[..i + 1] == cleared[..i] + [cleared[i]];
        rows := rows - {Row(agentId, cleared[i].ref, cleared[i].unixUser)};
      }
      assert cleared[..|cleared|] == cleared;
      var left := Mine(rows, agentId);
      if left != {} {
        managed := rows;
        if |cleared| > 0 {
          rev := rev + 1;
        }
        return Ok(left);
      }
      if agentId !in agents {
        return Err(NotFound);
      }
      agents := agents - {agentId};
      targets := map h <- targets | targets[h].agentId != agentId :: targets[h];
      managed := rows - Mine(rows, agentId);
      rev := rev + 1;
      return Ok({});
    }

    /** Inserts, deletes and suspensions in report order, counting the rows that change. */
    method RecordSSHReport(agentId: int, report: Report) returns (err: Option<StoreError>)
      modifies this
      ensures var r := Record(old(State()), agentId, report);
              State() == OrSame(old(State()), r) && (err == if r.Ok? then None else Some(r.error))
    {
      hide Rows, Suspend;
      if agentId !in agents && report.applied != [] {
        return Some(NoSuchAgent);
      }
      var rows, inserted := InsertRows(managed, agentId, report.applied);
      var kept, deleted := DeleteRows(rows, agentId, report.cleared);
      var bindings, suspended := SuspendTargets(targets, agentId, report.mismatched);
      managed, targets := kept, bindings;
      if inserted + deleted + suspended > 0 {
        rev := rev + 1;
      }
      return None;
    }
  }

  /** INSERT OR IGNORE for each applied pair, with the number of rows inserted. */
  method InsertRows(managed: set<Row>, agentId: int, applied: seq<Pair>) returns (rows: set<Row>, changed: nat)
    ensures rows == managed + Rows(agentId, applied)
    ensures changed > 0 <==> !(Rows(agentId, applied) <= managed)
  {
    rows, changed := managed, 0;
    for i := 0 to |applied|
      invariant rows == managed + Rows(agentId, applied[..i])
      invariant changed > 0 <==> !(Rows(agentId, applied[..i]) <= managed)
    {
      PairRowsSnoc(agentId, applied[..i], applied[i]);
      assert applied[..i + 1] == applied[..i] + [applied[i]];
      var m := Row(agentId, applied[i].ref, applied[i].unixUser);
      if m !in rows {
        rows, changed := rows + {m}, changed + 1;
      }
    }
    assert applied[..|applied|] == applied;
  }

  /** DELETE for each cleared pair, with the number of rows deleted. */
  method DeleteRows(managed: set<Row>, agentId: int, cleared: seq<Pair>) returns (rows: set<Row>, changed: nat)
    ensures rows == managed - Rows(agentId, cleared)
    ensures changed > 0 <==> Rows(agentId, cleared) * managed != {}
  {
    rows, changed := managed, 0;
    for i := 0 to |cleared|
      invariant rows == managed - Rows(agentId, cleared[..i])
      invariant changed > 0 <==> Rows(agentId, cleared[..i]) * managed != {}
    {
      PairRowsSnoc(agentId, cleared[..i], cleared[i]);
      assert cleared[..i + 1] == cleared[..i] + [cleared[i]];
      var m := Row(agentId, cleared[i].ref, cleared[i].unixUser);
      assert Rows(agentId, cleared[..i + 1]) * managed == Rows(agentId, cleared[..i]) * managed + ({m} * managed);
      if m in rows {
        assert m in {m} * managed;
        rows, changed := rows - {m}, changed + 1;
      } else {
        assert m !in managed || m in Rows(agentId, cleared[..i]) * managed;
      }
    }
    assert cleared[..|cleared|] == cleared;
  }

  /** UPDATE for each mismatched ref, with the number of bindings suspended. */
  method SuspendTargets(targets: map<string, Binding>, agentId: int, mismatched: seq<string>)
      returns (after: map<string, Binding>, changed: nat)
    ensures after == Suspend(targets, agentId, mismatched)
    ensures changed > 0 <==> after != targets
  {
    after, changed := targets, 0;
    for i := 0 to |mismatched|
      invariant after == Suspend(targets, agentId, mismatched[..i])
      invariant changed > 0 <==> after != targets
    {
      var hit := set h <- after | Suspends(after[h], agentId, [mismatched[i]]);
      assert mismatched[..i + 1] == mismatched[..i] + [mismatched[i]];
      ghost var before := after;
      after := Suspend(after, agentId, [mismatched[i]]);
      SuspendTwice(targets, agentId, mismatched[..i], mismatched[i]);
      changed := changed + |hit|;
      if h :| h in hit {
        assert after[h].suspended && !before[h].suspended && !targets[h].suspended;
        assert |hit| > 0;
      } else {
        forall h | h in before ensures after[h] == before[h] {
          assert h !in hit;
        }
      }
    }
    assert mismatched[..|mismatched|] == mismatched;
  }

  lemma SuspendTwice(targets: map<string, Binding>, agentId: int, refs: seq<string>, ref: string)
    ensures Suspend(Suspend(targets, agentId, refs), agentId, [ref]) == Suspend(targets, agentId, refs + [ref])
  {
  }
}
