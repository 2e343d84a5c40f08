/** What each write leaves in each table, row by row (internal/store/ssh.go). */
module Effects {
  import opened Common
  import opened Desired
  import opened Store

  // ----- Which writes succeed

  /** The agent has a row that an uninstall does not name as cleared. */
  ghost predicate Keeps(db: Db, id: int, cleared: seq<Pair>) {
    exists m :: m in db.tables.managed && m.agentId == id && Pair(m.targetRef, m.unixUser) !in cleared
  }

  /** The write goes through: what it removes is there, what it adds is new, and no other host has the target. */
  ghost predicate Succeeds(db: Db, op: Op) {
    var t := db.tables;
    match op
    case OpAddKey(f, _) => forall k :: k in t.keys ==> k.fingerprint != f
    case OpDeleteKey(id) => exists k :: k in t.keys && k.id == id
    case OpApprove(b) =>
      && b.agentId in db.agents
      && forall h :: h in t.targets && h != b.hostName ==>
           !(t.targets[h].agentId == b.agentId && t.targets[h].targetRef == b.targetRef)
    case OpDeleteTarget(h) => h in t.targets
    case OpDeleteAgent(id) => id in db.agents
    case OpRetire(id, cleared) => id in db.agents || Keeps(db, id, cleared)
    case OpRecord(id, r) => id in db.agents || r.applied == []
    case _ => true
  }

  /** The write deletes its agent: a revoke always, an uninstall once every row is named as cleared. */
  ghost predicate DropsAgent(db: Db, op: Op) {
    op.OpDeleteAgent? || (op.OpRetire? && !Keeps(db, op.agentId, op.cleared))
  }

  lemma LeftRows(db: Db, id: int, cleared: seq<Pair>)
    ensures Mine(db.tables.managed - Rows(id, cleared), id) == {} <==> !Keeps(db, id, cleared)
  {
    var left := Mine(db.tables.managed - Rows(id, cleared), id);
    if m :| m in left {
      assert m in db.tables.managed && Pair(m.targetRef, m.unixUser) !in cleared;
    }
    if Keeps(db, id, cleared) {
      var m :| m in db.tables.managed && m.agentId == id && Pair(m.targetRef, m.unixUser) !in cleared;
      assert m in left;
    }
  }

  /** A write that fails leaves everything as it was, the revision included. */
  lemma FailureChangesNothing(db: Db, op: Op)
    ensures !Succeeds(db, op) ==> Do(db, op) == db
  {
    hide FilterKeys;
    if op.OpRetire? {
      LeftRows(db, op.agentId, op.cleared);
      hide Keeps;
    }
  }

  // ----- Keys

  ghost predicate KeyStays(op: Op, k: KeyRow) {
    match op
    case OpDeleteKey(id) => k.id != id
    case OpDeleteUser(id) => k.key.userId != id
    case _ => true
  }

  /** Deleting a key takes the keys of that id, deleting a person takes theirs, and only adding one adds any. */
  lemma KeysLeft(db: Db, op: Op, k: KeyRow)
    requires Succeeds(db, op)
    ensures k in Do(db, op).tables.keys <==>
              || (k in db.tables.keys && KeyStays(op, k))
              || (op.OpAddKey? && k == KeyRow(db.lastKey + 1, op.fingerprint, op.key))
    ensures op.OpAddKey? ==>
              Do(db, op).tables.keys == db.tables.keys + [KeyRow(db.lastKey + 1, op.fingerprint, op.key)]
    ensures Do(db, op).lastKey == db.lastKey + if op.OpAddKey? then 1 else 0
  {
    hide FilterKeys, SameTarget, Rows, Keeps;
    if op.OpDeleteKey? {
      FilterKept(db.tables.keys, (r: KeyRow) => r.id != op.id);
    }
    if op.OpDeleteUser? {
      FilterKept(db.tables.keys, (r: KeyRow) => r.key.userId != op.user);
    }
  }

  // ----- Assignments

  /** The people of one row are replaced, a host or a person takes theirs along, and nothing else moves. */
  lemma AssignsLeft(db: Db, op: Op, x: Assignment)
    ensures x in Do(db, op).tables.assigns <==>
              match op
              case OpSetRow(h, u, ids) =>
                if x.hostName == h && x.unixUser == u then x.userId in ids else x in db.tables.assigns
              case OpDeleteHost(h) => x in db.tables.assigns && x.hostName != h
              case OpDeleteUser(id) => x in db.tables.assigns && x.userId != id
              case _ => x in db.tables.assigns
  {
    hide FilterKeys, SameTarget, Rows;
  }

  // ----- Bindings

  /** What a write makes of the binding of one host: none, the given one, or the one it had. */
  ghost function BindingAfter(db: Db, op: Op, h: string): Option<Binding> {
    var t := db.tables.targets;
    if op.OpApprove? && h == op.binding.hostName then
      var b := op.binding;
      Some(Binding(b.hostName, b.agentId, b.targetRef, b.approvedIp, b.approvedLabel, false))
    else if h !in t || ((op.OpDeleteHost? || op.OpDeleteTarget?) && h == op.host)
        || (DropsAgent(db, op) && t[h].agentId == op.agentId) then None
    else
      var b := t[h];
      Some(Binding(b.hostName, b.agentId, b.targetRef, b.approvedIp, b.approvedLabel,
                   b.suspended || (op.OpRecord? && b.agentId == op.agentId && b.targetRef in op.report.mismatched)))
  }

  lemma BindingsLeft(db: Db, op: Op, h: string)
    requires Succeeds(db, op)
    ensures var after := Do(db, op).tables.targets;
            BindingAfter(db, op, h) == if h in after then Some(after[h]) else None
  {
    hide FilterKeys, Rows;
    if op.OpRetire? {
      LeftRows(db, op.agentId, op.cleared);
      hide Keeps;
    }
  }

  // ----- Managed rows

  /** Rows come from reports, and go with a report, an uninstall or the deletion of their agent. */
  lemma RowsLeft(db: Db, op: Op, m: Row)
    requires Succeeds(db, op)
    ensures m in Do(db, op).tables.managed <==>
              var p := Pair(m.targetRef, m.unixUser);
              match op
              case OpRecord(id, r) =>
                if m.agentId == id then (m in db.tables.managed || p in r.applied) && p !in r.cleared
                else m in db.tables.managed
              case OpRetire(id, cleared) => m in db.tables.managed && !(m.agentId == id && p in cleared)
              case OpDeleteAgent(id) => m in db.tables.managed && m.agentId != id
              case _ => m in db.tables.managed
  {
    hide FilterKeys, SameTarget;
    match op
    case OpRecord(id, r) =>
      RowOfPair(id, r.applied, m);
      RowOfPair(id, r.cleared, m);
      hide Rows;
    case OpRetire(id, cleared) =>
      RowOfPair(id, cleared, m);
      LeftRows(db, id, cleared);
      hide Rows, Keeps;
    case _ =>
  }

  lemma RowOfPair(id: int, pairs: seq<Pair>, m: Row)
    ensures m in Rows(id, pairs) <==> m.agentId == id && Pair(m.targetRef, m.unixUser) in pairs
  {
  }

  // ----- Agents

  lemma AgentsLeft(db: Db, op: Op, a: int)
    requires Succeeds(db, op)
    ensures a in Do(db, op).agents <==>
              (a in db.agents || (op.OpCreateAgent? && a == op.agentId)) && !(DropsAgent(db, op) && a == op.agentId)
  {
    hide FilterKeys, SameTarget, Rows;
    if op.OpRetire? {
      LeftRows(db, op.agentId, op.cleared);
      hide Keeps;
    }
  }

  // ----- The rows handed back

  /** A revoke hands back the rows of the agent, an uninstall those that are left. */
  lemma HandedBack(db: Db, id: int, cleared: seq<Pair>, m: Row)
    ensures DeleteAgent(db, id).Ok? ==>
              (m in DeleteAgent(db, id).value.1 <==> m in db.tables.managed && m.agentId == id)
    ensures RetireAgent(db, id, cleared).Ok? ==>
              (m in RetireAgent(db, id, cleared).value.1 <==>
                 m in db.tables.managed && m.agentId == id && Pair(m.targetRef, m.unixUser) !in cleared)
  {
    RowOfPair(id, cleared, m);
    hide Rows;
  }

  /** Every write that goes through moves the revision by one, but for a new agent and reports that change no row. */
  lemma RevisionMoves(db: Db, op: Op)
    requires Succeeds(db, op)
    ensures var moved := Do(db, op).rev - db.rev;
            match op
            case OpCreateAgent(_) => moved == 0
            case OpRetire(id, cleared) => moved == if Keeps(db, id, cleared) && cleared == [] then 0 else 1
            case OpRecord(id, r) =>
              moved == if exists p :: PairMoves(db, id, r, p) || Hits(db, id, r, p.ref) then 1 else 0
            case _ => moved == 1
  {
    hide FilterKeys;
    match op
    case OpRetire(id, cleared) =>
      LeftRows(db, id, cleared);
      hide Rows, Keeps;
    case OpRecord(id, r) => ReportMoves(db, id, r);
    case _ =>
  }

  /** The report applies a pair without a row, or clears one that has a row by then. */
  ghost predicate PairMoves(db: Db, id: int, r: Report, p: Pair) {
    var m := Row(id, p.ref, p.unixUser);
    (p in r.applied && m !in db.tables.managed) || (p in r.cleared && (m in db.tables.managed || p in r.applied))
  }

  /** The report suspends a binding to the target. */
  ghost predicate Hits(db: Db, id: int, r: Report, ref: string) {
    exists h :: h in db.tables.targets && db.tables.targets[h].agentId == id && db.tables.targets[h].targetRef == ref
                && ref in r.mismatched && !db.tables.targets[h].suspended
  }

  lemma ReportMoves(db: Db, id: int, r: Report)
    requires id in db.agents || r.applied == []
    ensures Record(db, id, r).Ok?
    ensures Record(db, id, r).value.rev ==
              db.rev + if exists p :: PairMoves(db, id, r, p) || Hits(db, id, r, p.ref) then 1 else 0
  {
    var t := db.tables;
    var applied, cleared := Rows(id, r.applied), Rows(id, r.cleared);
    var after := Suspend(t.targets, id, r.mismatched);
    var changed := !(applied <= t.managed) || cleared * (t.managed + applied) != {} || after != t.targets;
    forall p | PairMoves(db, id, r, p) ensures changed {
      PairChanges(t.managed, id, r, p);
    }
    forall ref | Hits(db, id, r, ref) ensures after != t.targets {
      var h :| h in t.targets && t.targets[h].agentId == id && t.targets[h].targetRef == ref
               && ref in r.mismatched && !t.targets[h].suspended;
      assert after[h].suspended;
    }
    if !(applied <= t.managed) {
      var m :| m in applied && m !in t.managed;
      assert PairMoves(db, id, r, Pair(m.targetRef, m.unixUser));
    } else if cleared * (t.managed + applied) != {} {
      var m :| m in cleared * (t.managed + applied);
      assert PairMoves(db, id, r, Pair(m.targetRef, m.unixUser));
    } else if after != t.targets {
      var h :| h in t.targets && after[h] != t.targets[h];
      assert Hits(db, id, r, Pair(t.targets[h].targetRef, "").ref);
    }
  }

  lemma PairChanges(managed: set<Row>, id: int, r: Report, p: Pair)
    ensures var m, applied, cleared := Row(id, p.ref, p.unixUser), Rows(id, r.applied), Rows(id, r.cleared);
            && (p in r.applied && m !in managed ==> !(applied <= managed))
            && (p in r.cleared && (m in managed || p in r.applied) ==> cleared * (managed + applied) != {})
  {
    var m, applied, cleared := Row(id, p.ref, p.unixUser), Rows(id, r.applied), Rows(id, r.cleared);
    assert p in r.applied ==> m in applied;
    assert p in r.cleared ==> m in cleared;
    assert m in cleared && m in managed + applied ==> m in cleared * (managed + applied);
  }
}
