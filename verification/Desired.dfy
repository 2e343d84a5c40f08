/** What one agent must hold (internal/sshsync/desired.go). */
module Desired {
  import opened Common
  import opened Sequences
  import opened Strings
  import Key

  datatype Server = Server(name: string, ip: string)

  datatype Binding = Binding(
    hostName: string, agentId: int, targetRef: string, approvedIp: string, approvedLabel: string, suspended: bool)

  datatype Assignment = Assignment(hostName: string, unixUser: string, userId: nat)

  datatype StoredKey = StoredKey(userId: nat, line: string, comment: string)

  /** A block an agent reported writing. */
  datatype Row = Row(agentId: int, targetRef: string, unixUser: string)

  /** One unix user on one target, as agents report it. */
  datatype Pair = Pair(ref: string, unixUser: string)

  /** What one agent must hold on one machine. */
  datatype Target = Target(ref: string, expectIp: string, expectLabel: string, users: map<string, seq<string>>,
      clear: seq<string>)

  datatype State = Active | Suspended | Orphan

  // ----- StateOf

  /** The address each host name stands for; a repeated name keeps the last. */
  function Ips(servers: seq<Server>): map<string, string> {
    if servers == [] then map[]
    else
      var last := servers[|servers| - 1];
      Ips(servers[..|servers| - 1])[last.name := last.ip]
  }

  /** A binding is delivered while its host still has the approved address and no mismatch was reported. */
  function StateOf(b: Binding, ips: map<string, string>): State {
    if b.hostName !in ips then Orphan
    else if b.suspended || ips[b.hostName] != b.approvedIp then Suspended
    else Active
  }

  // ----- The set-level definition

  /** Everything Desired reads, apart from the agent. */
  datatype World = World(
    servers: seq<Server>, users: map<nat, string>, bindings: seq<Binding>,
    assigns: seq<Assignment>, keys: seq<StoredKey>, managed: seq<Row>)

  /** The key lines of one live person, in key order. */
  function LinesOf(keys: seq<StoredKey>, users: map<nat, string>, id: nat): seq<string> {
    if keys == [] then []
    else
      var k := keys[|keys| - 1];
      LinesOf(keys[..|keys| - 1], users, id) +
      if k.userId == id && id in users then [Key.Line(k.line, users[id], k.comment)] else []
  }

  /** Assignments of a live person to a unix user on a host. */
  predicate Assigned(a: Assignment, host: string, unixUser: string, users: map<nat, string>) {
    a.hostName == host && a.unixUser == unixUser && a.userId in users
  }

  /** The lines of every live person assigned to one unix user, in assignment order. */
  function LinesFor(assigns: seq<Assignment>, host: string, unixUser: string, users: map<nat, string>,
      keys: seq<StoredKey>): seq<string> {
    if assigns == [] then []
    else
      var a := assigns[|assigns| - 1];
      LinesFor(assigns[..|assigns| - 1], host, unixUser, users, keys) +
      if Assigned(a, host, unixUser, users) then LinesOf(keys, users, a.userId) else []
  }

  /** The unix users of a host with a live person assigned. */
  function UnixUsers(assigns: seq<Assignment>, host: string, users: map<nat, string>): set<string> {
    set a <- assigns | a.hostName == host && a.userId in users :: a.unixUser
  }

  /** Who may log in where on a host, and with which lines. */
  function UsersOf(assigns: seq<Assignment>, host: string, users: map<nat, string>,
      keys: seq<StoredKey>): map<string, seq<string>> {
    map u <- UnixUsers(assigns, host, users) :: LinesFor(assigns, host, u, users, keys)
  }

  /** The last binding of the agent to `ref` that is delivered. */
  function ActiveFor(bindings: seq<Binding>, ips: map<string, string>, agentId: int, ref: string): Option<Binding> {
    if bindings == [] then None
    else
      var b := bindings[|bindings| - 1];
      if b.agentId == agentId && b.targetRef == ref && StateOf(b, ips) == Active then Some(b)
      else ActiveFor(bindings[..|bindings| - 1], ips, agentId, ref)
  }

  function ActiveRefs(bindings: seq<Binding>, ips: map<string, string>, agentId: int): set<string> {
    set b <- bindings | b.agentId == agentId && StateOf(b, ips) == Active :: b.targetRef
  }

  /** Refs whose managed rows are left alone because a binding to them is suspended. */
  function Frozen(bindings: seq<Binding>, ips: map<string, string>, agentId: int): set<string> {
    set b <- bindings | b.agentId == agentId && StateOf(b, ips) == Suspended :: b.targetRef
  }

  /** The refs the agent has unfrozen managed rows for. */
  function ManagedRefs(managed: seq<Row>, agentId: int, frozen: set<string>): set<string> {
    set m <- managed | m.agentId == agentId && m.targetRef !in frozen :: m.targetRef
  }

  /** The managed rows of `ref` that no active row keeps, in row order. */
  function Cleared(managed: seq<Row>, agentId: int, frozen: set<string>, ref: string, kept: set<string>): seq<string> {
    if managed == [] then []
    else
      var m := managed[|managed| - 1];
      Cleared(managed[..|managed| - 1], agentId, frozen, ref, kept) +
      if m.agentId == agentId && m.targetRef == ref && m.targetRef !in frozen && m.unixUser !in kept
          then [m.unixUser] else []
  }

  /** A target without its order: what is checked, what is written, what is cleared. */
  datatype Goal = Goal(expectIp: string, expectLabel: string, users: map<string, seq<string>>, clear: multiset<string>)

  ghost function Base(w: World, agentId: int, ref: string): Goal {
    match ActiveFor(w.bindings, Ips(w.servers), agentId, ref)
    case Some(b) => Goal(b.approvedIp, b.approvedLabel, UsersOf(w.assigns, b.hostName, w.users, w.keys), multiset{})
    case None => Goal("", "", map[], multiset{})
  }

  ghost function GoalFor(w: World, agentId: int, ref: string): Goal {
    var base := Base(w, agentId, ref);
    base.(clear := multiset(Cleared(w.managed, agentId, Frozen(w.bindings, Ips(w.servers), agentId), ref,
        base.users.Keys)))
  }

  /** Everything one agent must hold, by ref. */
  ghost function Goals(w: World, agentId: int): map<string, Goal> {
    var ips := Ips(w.servers);
    map ref <- ActiveRefs(w.bindings, ips, agentId) + ManagedRefs(w.managed, agentId,
        Frozen(w.bindings, ips, agentId)) ::
      GoalFor(w, agentId, ref)
  }

  ghost function GoalOf(t: Target): Goal {
    Goal(t.expectIp, t.expectLabel, t.users, multiset(t.clear))
  }

  ghost predicate Ascending(names: seq<string>) {
    forall i, j :: 0 <= i < j < |names| ==> Compare(names[i], names[j]) <= 0
  }

  /** `out` lists `goals` by ref, each ref once, with every clear list sorted. */
  ghost predicate Lists(out: seq<Target>, goals: map<string, Goal>) {
    && (forall i, j :: 0 <= i < j < |out| ==> Less(out[i].ref, out[j].ref))
    && (forall i :: 0 <= i < |out| ==>
          out[i].ref in goals && GoalOf(out[i]) == goals[out[i].ref] && Ascending(out[i].clear))
    && (forall ref :: ref in goals ==> exists i :: 0 <= i < |out| && out[i].ref == ref)
  }

  // ----- Desired, loop by loop

  method IndexIps(servers: seq<Server>) returns (ips: map<string, string>)
    ensures ips == Ips(servers)
  {
    ips := map[];
    for i := 0 to |servers|
      invariant ips == Ips(servers[..i])
    {
      assert servers[..i + 1][..i] == servers[..i];
      ips := ips[servers[i].name := servers[i].ip];
    }
    assert servers[..|servers|] == servers;
  }

  /** A Go map read: a missing key reads as no lines. */
  function Read(lines: map<nat, seq<string>>, id: nat): seq<string> {
    if id in lines then lines[id] else []
  }

  method IndexLines(keys: seq<StoredKey>, users: map<nat, string>) returns (lines: map<nat, seq<string>>)
    ensures forall id :: Read(lines, id) == LinesOf(keys, users, id)
  {
    lines := map[];
    for i := 0 to |keys|
      invariant forall id :: Read(lines, id) == LinesOf(keys[..i], users, id)
    {
      assert keys[..i + 1][..i] == keys[..i];
      var k := keys[i];
      if k.userId in users {
        lines := lines[k.userId := Read(lines, k.userId) + [Key.Line(k.line, users[k.userId], k.comment)]];
      }
    }
    assert keys[..|keys|] == keys;
  }

  lemma LinesForSnoc(assigns: seq<Assignment>, a: Assignment, host: string, u: string, users: map<nat, string>,
      keys: seq<StoredKey>)
    ensures var before := LinesFor(assigns, host, u, users, keys);
            LinesFor(assigns + [a], host, u, users, keys) ==
            if Assigned(a, host, u, users) then before + LinesOf(keys, users, a.userId) else before
  {
    assert (assigns + [a])[..|assigns|] == assigns;
    assert LinesFor(assigns, host, u, users, keys) + [] == LinesFor(assigns, host, u, users, keys);
  }

  lemma UnixUsersSnoc(assigns: seq<Assignment>, a: Assignment, host: string, users: map<nat, string>)
    ensures UnixUsers(assigns + [a], host, users) ==
            UnixUsers(assigns, host, users) + if a.hostName == host && a.userId in users then {a.unixUser} else {}
  {
    assert forall x :: x in assigns + [a] <==> x in assigns || x == a;
  }

  lemma UsersOfSnoc(assigns: seq<Assignment>, a: Assignment, host: string, users: map<nat, string>,
      keys: seq<StoredKey>)
    ensures var before := UsersOf(assigns, host, users, keys);
            UsersOf(assigns + [a], host, users, keys) ==
            if a.hostName == host && a.userId in users then
              before[a.unixUser := (if a.unixUser in before then before[a.unixUser] else []) +
                  LinesOf(keys, users, a.userId)]
            else before
  {
    hide LinesFor, LinesOf, UnixUsers;
    UnixUsersSnoc(assigns, a, host, users);
    var before, after := UsersOf(assigns, host, users, keys), UsersOf(assigns + [a], host, users, keys);
    forall u | u in after
      ensures after[u] == if Assigned(a, host, u, users) then (if u in before then before[u] else []) +
                LinesOf(keys, users, a.userId) else before[u]
    {
      LinesForSnoc(assigns, a, host, u, users, keys);
      if u !in before {
        NoLines(assigns, host, u, users, keys);
      }
    }
  }

  lemma {:induction false} NoLines(assigns: seq<Assignment>, host: string, unixUser: string, users: map<nat, string>,
      keys: seq<StoredKey>)
    requires unixUser !in UnixUsers(assigns, host, users)
    ensures LinesFor(assigns, host, unixUser, users, keys) == []
  {
    if assigns != [] {
      NoLines(assigns[..|assigns| - 1], host, unixUser, users, keys);
    }
  }

  method CollectUsers(assigns: seq<Assignment>, host: string, users: map<nat, string>, lines: map<nat, seq<string>>,
      ghost keys: seq<StoredKey>)
    returns (t: map<string, seq<string>>)
    requires forall id :: Read(lines, id) == LinesOf(keys, users, id)
    ensures t == UsersOf(assigns, host, users, keys)
  {
    hide LinesFor, LinesOf;
    t := map[];
    for j := 0 to |assigns|
      invariant t == UsersOf(assigns[..j], host, users, keys)
    {
      var a := assigns[j];
      UsersOfSnoc(assigns[..j], a, host, users, keys);
      assert assigns[..j + 1] == assigns[..j] + [a];
      if a.hostName != host || a.userId !in users {
        continue;
      }
      if a.unixUser !in t {
        t := t[a.unixUser := []];
      }
      t := t[a.unixUser := t[a.unixUser] + Read(lines, a.userId)];
    }
    assert assigns[..|assigns|] == assigns;
  }

  lemma BindingsSnoc(bindings: seq<Binding>, b: Binding, ips: map<string, string>, agentId: int)
    ensures var mine, state := b.agentId == agentId, StateOf(b, ips);
            && ActiveRefs(bindings + [b], ips, agentId) ==
               ActiveRefs(bindings, ips, agentId) + (if mine && state == Active then {b.targetRef} else {})
            && Frozen(bindings + [b], ips, agentId) ==
               Frozen(bindings, ips, agentId) + (if mine && state == Suspended then {b.targetRef} else {})
            && forall ref :: ActiveFor(bindings + [b], ips, agentId, ref) ==
                 if mine && b.targetRef == ref && state == Active then Some(b) else ActiveFor(bindings, ips, agentId,
                     ref)
  {
    assert forall x :: x in bindings + [b] <==> x in bindings || x == b;
    assert (bindings + [b])[..|bindings|] == bindings;
  }

  /** The target of a delivered binding, before any clear is added. */
  function Bare(b: Binding, users: map<string, seq<string>>): Target {
    Target(b.targetRef, b.approvedIp, b.approvedLabel, users, [])
  }

  /** One target for every ref with a delivered binding, none other. */
  ghost predicate Delivered(targets: map<string, Target>, w: World, bindings: seq<Binding>, ips: map<string, string>,
      agentId: int) {
    && targets.Keys == ActiveRefs(bindings, ips, agentId)
    && forall ref :: ref in targets ==>
         var b := ActiveFor(bindings, ips, agentId, ref);
         b.Some? && targets[ref] == Bare(b.value, UsersOf(w.assigns, b.value.hostName, w.users, w.keys))
             && b.value.targetRef == ref
  }

  lemma DeliveredSnoc(targets: map<string, Target>, w: World, bindings: seq<Binding>, b: Binding,
      ips: map<string, string>, agentId: int)
    requires Delivered(targets, w, bindings, ips, agentId)
    ensures Delivered(if b.agentId == agentId && StateOf(b, ips) == Active
                      then targets[b.targetRef := Bare(b, UsersOf(w.assigns, b.hostName, w.users, w.keys))]
                          else targets,
                      w, bindings + [b], ips, agentId)
  {
    BindingsSnoc(bindings, b, ips, agentId);
    hide UsersOf, LinesOf, ActiveRefs, Frozen, ActiveFor, StateOf;
  }

  lemma DeliveredNone(w: World, ips: map<string, string>, agentId: int)
    ensures Delivered(map[], w, [], ips, agentId) && Frozen([], ips, agentId) == {}
  {
  }

  method CollectTargets(agentId: int, w: World, ips: map<string, string>, lines: map<nat, seq<string>>)
    returns (targets: map<string, Target>, frozen: set<string>)
    requires forall id :: Read(lines, id) == LinesOf(w.keys, w.users, id)
    ensures Delivered(targets, w, w.bindings, ips, agentId)
    ensures frozen == Frozen(w.bindings, ips, agentId)
  {
    hide *;
    targets, frozen := map[], {};
    DeliveredNone(w, ips, agentId);
    for i := 0 to |w.bindings|
      invariant Delivered(targets, w, w.bindings[..i], ips, agentId)
      invariant frozen == Frozen(w.bindings[..i], ips, agentId)
    {
      var b := w.bindings[i];
      BindingsSnoc(w.bindings[..i], b, ips, agentId);
      DeliveredSnoc(targets, w, w.bindings[..i], b, ips, agentId);
      assert w.bindings[..i + 1] == w.bindings[..i] + [b];
      if b.agentId != agentId {
        continue;
      }
      match StateOf(b, ips) {
        case Suspended =>
          frozen := frozen + {b.targetRef};
        case Active =>
          var users := CollectUsers(w.assigns, b.hostName, w.users, lines, w.keys);
          targets := targets[b.targetRef := Bare(b, users)];
        case Orphan =>
      }
    }
    assert w.bindings[..|w.bindings|] == w.bindings;
  }

  lemma RowsSnoc(managed: seq<Row>, m: Row, agentId: int, frozen: set<string>)
    ensures var mine := m.agentId == agentId && m.targetRef !in frozen;
            && ManagedRefs(managed + [m], agentId, frozen) == ManagedRefs(managed, agentId, frozen) +
                (if mine then {m.targetRef} else {})
            && forall ref, kept :: Cleared(managed + [m], agentId, frozen, ref, kept) ==
                 if mine && m.targetRef == ref && m.unixUser !in kept then Cleared(managed, agentId, frozen, ref,
                     kept) + [m.unixUser]
                 else Cleared(managed, agentId, frozen, ref, kept)
  {
    assert forall x :: x in managed + [m] <==> x in managed || x == m;
    assert (managed + [m])[..|managed|] == managed;
    forall ref, kept
      ensures Cleared(managed, agentId, frozen, ref, kept) + [] == Cleared(managed, agentId, frozen, ref, kept)
    {
    }
  }

  lemma {:induction false} NoClears(managed: seq<Row>, agentId: int, frozen: set<string>, ref: string,
      kept: set<string>)
    requires ref !in ManagedRefs(managed, agentId, frozen)
    ensures Cleared(managed, agentId, frozen, ref, kept) == []
  {
    if managed != [] {
      NoClears(managed[..|managed| - 1], agentId, frozen, ref, kept);
    }
  }

  /** The target of a ref before its clears: a delivered one, or an unchecked one that writes nothing. */
  function OrBlank(targets: map<string, Target>, ref: string): Target {
    if ref in targets then targets[ref] else Target(ref, "", "", map[], [])
  }

  ghost predicate WithClears(targets: map<string, Target>, bare: map<string, Target>, managed: seq<Row>,
      agentId: int, frozen: set<string>) {
    && targets.Keys == bare.Keys + ManagedRefs(managed, agentId, frozen)
    && forall ref :: ref in targets ==>
         var t := OrBlank(bare, ref);
         targets[ref] == t.(clear := Cleared(managed, agentId, frozen, ref, t.users.Keys))
  }

  lemma WithClearsSnoc(targets: map<string, Target>, bare: map<string, Target>, managed: seq<Row>, m: Row,
      agentId: int, frozen: set<string>)
    requires forall ref :: ref in bare ==> bare[ref].clear == []
    requires WithClears(targets, bare, managed, agentId, frozen)
    ensures var t := OrBlank(targets, m.targetRef);
            WithClears(if m.agentId != agentId || m.targetRef in frozen then targets
                       else targets[m.targetRef := t.(clear := t.clear + if m.unixUser in t.users then []
                           else [m.unixUser])],
                       bare, managed + [m], agentId, frozen)
  {
    RowsSnoc(managed, m, agentId, frozen);
    NoClearsUnless(managed, agentId, frozen, m.targetRef, OrBlank(bare, m.targetRef).users.Keys);
    hide ManagedRefs, Cleared;
    var t := OrBlank(targets, m.targetRef);
    assert t.clear + [] == t.clear;
  }

  lemma WithClearsNone(bare: map<string, Target>, agentId: int, frozen: set<string>)
    requires forall ref :: ref in bare ==> bare[ref].clear == []
    ensures WithClears(bare, bare, [], agentId, frozen)
  {
  }

  method AddClears(agentId: int, managed: seq<Row>, frozen: set<string>, bare: map<string, Target>)
      returns (targets: map<string, Target>)
    requires forall ref :: ref in bare ==> bare[ref].clear == []
    ensures WithClears(targets, bare, managed, agentId, frozen)
  {
    hide ManagedRefs, Cleared, WithClears;
    targets := bare;
    WithClearsNone(bare, agentId, frozen);
    for i := 0 to |managed|
      invariant WithClears(targets, bare, managed[..i], agentId, frozen)
    {
      var m := managed[i];
      WithClearsSnoc(targets, bare, managed[..i], m, agentId, frozen);
      assert managed[..i + 1] == managed[..i] + [m];
      if m.agentId != agentId || m.targetRef in frozen {
        continue;
      }
      var t := OrBlank(targets, m.targetRef);
      if m.unixUser !in t.users {
        targets := targets[m.targetRef := t.(clear := t.clear + [m.unixUser])];
      } else {
        assert t.(clear := t.clear + []) == t;
        targets := targets[m.targetRef := t];
      }
    }
    assert managed[..|managed|] == managed;
  }

  lemma NoClearsUnless(managed: seq<Row>, agentId: int, frozen: set<string>, ref: string, kept: set<string>)
    ensures ref !in ManagedRefs(managed, agentId, frozen) ==> Cleared(managed, agentId, frozen, ref, kept) == []
  {
    if ref !in ManagedRefs(managed, agentId, frozen) {
      NoClears(managed, agentId, frozen, ref, kept);
    }
  }

  // ----- Sorting the answer

  lemma InsertName(names: seq<string>, j: nat, name: string)
    requires Ascending(names) && j <= |names|
    requires forall k :: 0 <= k < j ==> Compare(names[k], name) <= 0
    requires j < |names| ==> Compare(name, names[j]) <= 0
    ensures Ascending(names[..j] + [name] + names[j..])
    ensures multiset(names[..j] + [name] + names[j..]) == multiset(names) + multiset{name}
  {
    hide Compare;
    forall k | j <= k < |names| ensures Compare(name, names[k]) <= 0 {
      if j < k {
        CompareTrans(name, names[j], names[k]);
      }
    }
    Inserted(names, j, name);
    InsertedAt(names, j, name);
    assert InsertAt(names, j, name) == names[..j] + [name] + names[j..];
    hide InsertAt;
    var more := InsertAt(names, j, name);
    forall k, l | 0 <= k < l < |more| ensures Compare(more[k], more[l]) <= 0 {
    }
  }

  /** sort.Strings. */
  method SortStrings(names: seq<string>) returns (sorted: seq<string>)
    ensures Ascending(sorted) && multiset(sorted) == multiset(names)
  {
    sorted := [];
    for i := 0 to |names|
      invariant Ascending(sorted) && multiset(sorted) == multiset(names[..i])
    {
      var j := 0;
      while j < |sorted| && Compare(sorted[j], names[i]) <= 0
        invariant j <= |sorted|
        invariant forall k :: 0 <= k < j ==> Compare(sorted[k], names[i]) <= 0
      {
        j := j + 1;
      }
      if j < |sorted| {
        CompareFlip(sorted[j], names[i]);
      }
      InsertName(sorted, j, names[i]);
      assert names[..i + 1] == names[..i] + [names[i]];
      sorted := sorted[..j] + [names[i]] + sorted[j..];
    }
    assert names[..|names|] == names;
  }

  ghost predicate ByRef(out: seq<Target>) {
    forall i, j :: 0 <= i < j < |out| ==> Less(out[i].ref, out[j].ref)
  }

  lemma LessTrans(x: string, y: string, z: string)
    requires Less(x, y) && Less(y, z)
    ensures Less(x, z)
  {
    CompareTrans(x, y, z);
  }

  lemma InsertByRef(out: seq<Target>, j: nat, t: Target)
    requires ByRef(out) && j <= |out|
    requires forall k :: 0 <= k < j ==> Less(out[k].ref, t.ref)
    requires j < |out| ==> Less(t.ref, out[j].ref)
    ensures ByRef(out[..j] + [t] + out[j..])
    ensures forall x :: x in out[..j] + [t] + out[j..] <==> x in out || x == t
  {
    forall k | j <= k < |out| ensures Less(t.ref, out[k].ref) {
      if j < k {
        LessTrans(t.ref, out[j].ref, out[k].ref);
      }
    }
    assert out == out[..j] + out[j..];
  }

  /** Puts one more target where sort.Slice would. */
  method Insert(out: seq<Target>, t: Target) returns (more: seq<Target>)
    requires ByRef(out) && forall x :: x in out ==> x.ref != t.ref
    ensures ByRef(more) && forall x :: x in more <==> x in out || x == t
  {
    var j := 0;
    while j < |out| && Compare(out[j].ref, t.ref) < 0
      invariant j <= |out|
      invariant forall k :: 0 <= k < j ==> Less(out[k].ref, t.ref)
    {
      j := j + 1;
    }
    if j < |out| {
      CompareFlip(out[j].ref, t.ref);
      CompareZero(out[j].ref, t.ref);
      assert out[j] in out;
    }
    InsertByRef(out, j, t);
    more := out[..j] + [t] + out[j..];
  }

  /** The targets as a list in ref order, whatever order the map gives them in. */
  method SortTargets(targets: map<string, Target>) returns (out: seq<Target>)
    requires forall ref :: ref in targets ==> targets[ref].ref == ref
    ensures ByRef(out)
    ensures forall t :: t in out ==>
              t.ref in targets && t == targets[t.ref].(clear := t.clear) && Ascending(t.clear)
              && multiset(t.clear) == multiset(targets[t.ref].clear)
    ensures forall ref :: ref in targets ==> exists t :: t in out && t.ref == ref
  {
    out := [];
    var left := targets.Keys;
    while left != {}
      invariant left <= targets.Keys
      invariant ByRef(out)
      invariant forall t :: t in out ==>
                  t.ref in targets && t.ref !in left && t == targets[t.ref].(clear := t.clear) && Ascending(t.clear)
                  && multiset(t.clear) == multiset(targets[t.ref].clear)
      invariant forall ref :: ref in targets && ref !in left ==> exists t :: t in out && t.ref == ref
      decreases left
    {
      var ref :| ref in left;
      var t := targets[ref];
      var clear := SortStrings(t.clear);
      hide Ascending, ByRef;
      var placed := t.(clear := clear);
      ghost var before := out;
      out := Insert(out, placed);
      left := left - {ref};
      assert placed in out && forall x :: x in before ==> x in out;
    }
  }

  /** Desired gives exactly the goals, in ref order. */
  method Desired(agentId: int, w: World) returns (out: seq<Target>)
    ensures Lists(out, Goals(w, agentId))
  {
    var ips := IndexIps(w.servers);
    var lines := IndexLines(w.keys, w.users);
    var bare, frozen := CollectTargets(agentId, w, ips, lines);
    var targets := AddClears(agentId, w.managed, frozen, bare);
    hide UsersOf, Cleared, ActiveRefs, Frozen, ManagedRefs, LinesOf, Ips, ActiveFor;
    AreGoals(w, agentId, bare, targets);
    out := SortTargets(targets);
    Listed(out, targets, Goals(w, agentId));
  }

  lemma AreGoals(w: World, agentId: int, bare: map<string, Target>, targets: map<string, Target>)
    requires Delivered(bare, w, w.bindings, Ips(w.servers), agentId)
    requires WithClears(targets, bare, w.managed, agentId, Frozen(w.bindings, Ips(w.servers), agentId))
    ensures targets.Keys == Goals(w, agentId).Keys
    ensures forall ref :: ref in targets ==> targets[ref].ref == ref && GoalOf(targets[ref]) == Goals(w, agentId)[ref]
  {
    hide UsersOf, Cleared, Frozen, ManagedRefs, LinesOf, Ips;
    forall ref | ref in targets ensures targets[ref].ref == ref && GoalOf(targets[ref]) == GoalFor(w, agentId, ref) {
      if ref !in bare {
        NotActive(w.bindings, Ips(w.servers), agentId, ref);
      }
    }
  }

  lemma {:induction false} NotActive(bindings: seq<Binding>, ips: map<string, string>, agentId: int, ref: string)
    ensures ref in ActiveRefs(bindings, ips, agentId) <==> ActiveFor(bindings, ips, agentId, ref).Some?
    ensures ActiveFor(bindings, ips, agentId, ref).Some? ==>
              var b := ActiveFor(bindings, ips, agentId, ref).value;
              b in bindings && b.agentId == agentId && b.targetRef == ref && StateOf(b, ips) == Active
  {
    if bindings != [] {
      var init, b := bindings[..|bindings| - 1], bindings[|bindings| - 1];
      NotActive(init, ips, agentId, ref);
      BindingsSnoc(init, b, ips, agentId);
      assert bindings == init + [b];
    }
  }

  lemma Listed(out: seq<Target>, targets: map<string, Target>, goals: map<string, Goal>)
    requires targets.Keys == goals.Keys
    requires forall ref :: ref in targets ==> targets[ref].ref == ref && GoalOf(targets[ref]) == goals[ref]
    requires ByRef(out)
    requires forall t :: t in out ==>
               t.ref in targets && t == targets[t.ref].(clear := t.clear) && Ascending(t.clear)
               && multiset(t.clear) == multiset(targets[t.ref].clear)
    requires forall ref :: ref in targets ==> exists t :: t in out && t.ref == ref
    ensures Lists(out, goals)
  {
    hide Ascending, Compare, GoalOf, Less;
    forall t | t in out ensures t.ref in goals && GoalOf(t) == goals[t.ref] && Ascending(t.clear) {
      SameGoal(t, targets[t.ref]);
    }
    forall i | 0 <= i < |out| ensures out[i].ref in goals && GoalOf(out[i]) == goals[out[i].ref]
        && Ascending(out[i].clear) {
      assert out[i] in out;
    }
    forall ref | ref in goals ensures exists i :: 0 <= i < |out| && out[i].ref == ref {
      var t :| t in out && t.ref == ref;
    }
  }

  lemma SameGoal(t: Target, u: Target)
    requires t == u.(clear := t.clear) && multiset(t.clear) == multiset(u.clear)
    ensures GoalOf(t) == GoalOf(u)
  {
  }

  // ----- What the goals say, row by row

  lemma {:induction false} LineOf(keys: seq<StoredKey>, users: map<nat, string>, id: nat, l: string)
    ensures l in LinesOf(keys, users, id) <==>
            id in users && exists k :: k in keys && k.userId == id && l == Key.Line(k.line, users[id], k.comment)
  {
    if keys != [] {
      var init, last := keys[..|keys| - 1], keys[|keys| - 1];
      LineOf(init, users, id, l);
      assert keys == init + [last];
    }
  }

  /** A line of one of a's keys, as written for a live person. */
  ghost predicate Carries(a: Assignment, keys: seq<StoredKey>, users: map<nat, string>, l: string) {
    a.userId in users && exists k :: k in keys && k.userId == a.userId && l == Key.Line(k.line, users[a.userId],
        k.comment)
  }

  /** A line is written for a unix user exactly when it is a key of a live person assigned to that user. */
  lemma {:induction false} LineMeaning(assigns: seq<Assignment>, host: string, u: string, users: map<nat, string>,
      keys: seq<StoredKey>, l: string)
    ensures l in LinesFor(assigns, host, u, users, keys) <==>
            exists a :: a in assigns && Assigned(a, host, u, users) && Carries(a, keys, users, l)
  {
    if assigns != [] {
      var init, last := assigns[..|assigns| - 1], assigns[|assigns| - 1];
      LineMeaning(init, host, u, users, keys, l);
      LineOf(keys, users, last.userId, l);
      assert assigns == init + [last];
    }
  }

  /** A key as the program stores it: parsed, with a cleaned label. */
  ghost predicate Stored(k: StoredKey) {
    Key.Canonical(k.line) && exists raw :: Key.CleanLabel(raw) == Ok(k.comment)
  }

  lemma StoredLineSafe(k: StoredKey, name: string)
    requires Stored(k)
    ensures Key.SafeLine(Key.Line(k.line, name, k.comment))
  {
    hide Key.Canonical, Key.CleanLabel, Key.SafeLine, Key.Line;
    var raw :| Key.CleanLabel(raw) == Ok(k.comment);
    Key.LineIsSafe(k.line, name, raw);
  }

  /** From stored keys, whatever the people are called, only lines that pass the agent's check are sent. */
  lemma GoalsSafe(w: World, agentId: int, ref: string, u: string)
    requires forall k :: k in w.keys ==> Stored(k)
    requires ref in Goals(w, agentId) && u in Goals(w, agentId)[ref].users
    ensures Key.SafeLines(Goals(w, agentId)[ref].users[u])
  {
    hide Stored, Key.SafeLine, Ips, Frozen, ActiveRefs, ManagedRefs, Cleared, ActiveFor, LinesFor, StateOf;
    var b := ActiveFor(w.bindings, Ips(w.servers), agentId, ref).value;
    var lines := LinesFor(w.assigns, b.hostName, u, w.users, w.keys);
    forall i | 0 <= i < |lines| ensures Key.SafeLine(lines[i]) {
      LineMeaning(w.assigns, b.hostName, u, w.users, w.keys, lines[i]);
      var a :| a in w.assigns && Assigned(a, b.hostName, u, w.users) && Carries(a, w.keys, w.users, lines[i]);
      var k :| k in w.keys && k.userId == a.userId && lines[i] == Key.Line(k.line, w.users[a.userId], k.comment);
      StoredLineSafe(k, w.users[a.userId]);
    }
  }

  lemma {:induction false} ClearedMeans(managed: seq<Row>, agentId: int, frozen: set<string>, ref: string,
      kept: set<string>, u: string)
    ensures u in Cleared(managed, agentId, frozen, ref, kept) <==>
            Row(agentId, ref, u) in managed && ref !in frozen && u !in kept
  {
    if managed != [] {
      var init, last := managed[..|managed| - 1], managed[|managed| - 1];
      ClearedMeans(init, agentId, frozen, ref, kept, u);
      assert managed == init + [last];
    }
  }

  /** Every unfrozen managed row of the agent is kept or cleared, and never both. */
  lemma RowsAccounted(w: World, m: Row)
    requires m in w.managed && m.targetRef !in Frozen(w.bindings, Ips(w.servers), m.agentId)
    ensures m.targetRef in Goals(w, m.agentId)
    ensures var g := Goals(w, m.agentId)[m.targetRef];
            (m.unixUser in g.users) != (m.unixUser in g.clear)
  {
    hide UsersOf, Ips, Frozen, ActiveRefs, Cleared, ActiveFor;
    var frozen := Frozen(w.bindings, Ips(w.servers), m.agentId);
    ClearedMeans(w.managed, m.agentId, frozen, m.targetRef, Base(w, m.agentId, m.targetRef).users.Keys, m.unixUser);
  }

  /** A goal clears only rows the agent has, never ones it also writes, and never under a suspended binding. */
  lemma ClearsAreRows(w: World, agentId: int, ref: string, u: string)
    requires ref in Goals(w, agentId)
    ensures var g := Goals(w, agentId)[ref];
            u in g.clear <==>
              Row(agentId, ref, u) in w.managed && ref !in Frozen(w.bindings, Ips(w.servers), agentId) && u !in g.users
  {
    hide UsersOf, Ips, Frozen, ActiveRefs, ManagedRefs, Cleared, ActiveFor;
    var frozen := Frozen(w.bindings, Ips(w.servers), agentId);
    ClearedMeans(w.managed, agentId, frozen, ref, Base(w, agentId, ref).users.Keys, u);
  }

  // ----- The answer is determined by the goals

  lemma {:induction false} AscendingUnique(x: seq<string>, y: seq<string>)
    requires Ascending(x) && Ascending(y) && multiset(x) == multiset(y)
    ensures x == y
  {
    assert |multiset(x)| == |x| && |multiset(y)| == |y|;
    if x != [] {
      SmallestFirst(x, y);
      SameTails(x, y);
      hide Ascending;
      AscendingUnique(x[1..], y[1..]);
      assert x == [x[0]] + x[1..] && y == [y[0]] + y[1..];
    }
  }

  lemma SmallestFirst(x: seq<string>, y: seq<string>)
    requires Ascending(x) && Ascending(y) && multiset(x) == multiset(y) && x != [] && y != []
    ensures x[0] == y[0] && Ascending(x[1..]) && Ascending(y[1..])
  {
    assert x[0] in multiset(y) && y[0] in multiset(x);
    CompareFlip(x[0], y[0]);
    CompareZero(x[0], y[0]);
    assert Compare(x[0], x[0]) == 0 && Compare(y[0], y[0]) == 0 by {
      CompareZero(x[0], x[0]);
      CompareZero(y[0], y[0]);
    }
  }

  lemma SameIndex(x: seq<Target>, y: seq<Target>, goals: map<string, Goal>, i: nat, j: nat)
    requires Lists(x, goals) && Lists(y, goals) && i < |x| && j < |y| && y[j].ref == x[i].ref
    requires i <= |y| && forall k :: 0 <= k < i ==> x[k] == y[k]
    ensures j == i
  {
    hide Ascending, GoalOf, Less;
    LessIrreflexive(x[i].ref);
    if i < j {
      var l :| 0 <= l < |x| && x[l].ref == y[i].ref;
      if l < i {
        LessIrreflexive(y[i].ref);
      } else if l > i {
        assert Less(x[i].ref, x[l].ref) && Less(y[i].ref, y[j].ref);
        LessTrans(x[i].ref, y[i].ref, x[i].ref);
      }
    }
  }

  /** Two lists of the same goals agree up to i, target by target. */
  lemma {:induction false} SamePosition(x: seq<Target>, y: seq<Target>, goals: map<string, Goal>, i: nat)
    requires Lists(x, goals) && Lists(y, goals) && i < |x|
    ensures i < |y| && x[i] == y[i]
    decreases i
  {
    hide Ascending, Less;
    if i > 0 {
      SamePosition(x, y, goals, i - 1);
    }
    forall k | 0 <= k < i ensures x[k] == y[k] {
      SamePosition(x, y, goals, k);
    }
    var j :| 0 <= j < |y| && y[j].ref == x[i].ref;
    SameIndex(x, y, goals, i, j);
    AscendingUnique(x[i].clear, y[i].clear);
  }

  lemma LessIrreflexive(s: string)
    ensures !Less(s, s)
  {
    CompareZero(s, s);
  }

  /** The order of the maps and lists in the program cannot show: the goals determine the answer. */
  lemma ListsUnique(x: seq<Target>, y: seq<Target>, goals: map<string, Goal>)
    requires Lists(x, goals) && Lists(y, goals)
    ensures x == y
  {
    hide Lists;
    if x != [] {
      SamePosition(x, y, goals, |x| - 1);
    }
    if y != [] {
      SamePosition(y, x, goals, |y| - 1);
    }
    forall i | 0 <= i < |x| ensures x[i] == y[i] {
      SamePosition(x, y, goals, i);
    }
  }
}
