/** The poller's snapshot and its revision (internal/tailnet/snapshot.go, subscribe.go). */
module Snapshot {
  import opened Common

  datatype User = User(id: nat, name: string, email: string, displayName: string, provider: string)

  /** The addresses a node offers to route, where it has sent its host information. */
  datatype Hostinfo = Hostinfo(routableIps: seq<string>, other: string)

  /** A node: what sameNodes compares, and in `other` what it does not. Times are instants. */
  datatype Node = Node(
    id: nat, givenName: string, hostname: string, isOnline: Option<bool>, lastSeen: Option<int>, expiry: Option<int>,
    userId: Option<nat>, tags: seq<string>, approvedRoutes: seq<string>, hostinfo: Option<Hostinfo>, other: string)

  /** One consistent read of Headscale. Equal policy hashes stand for equal policy texts. */
  datatype Fetched = Fetched(nodes: seq<Node>, users: seq<User>, policy: string)

  datatype Snap = Snap(content: Fetched, revision: nat)

  datatype Watch = Watch(snap: Option<Snap>, failed: bool)

  /** No host information counts as no routable addresses. */
  function Routable(n: Node): seq<string> {
    match n.hostinfo case None => [] case Some(h) => h.routableIps
  }

  /** Nothing but the host information and the uncompared part may differ, and the routable addresses may not. */
  predicate SameNode(x: Node, y: Node) {
    y == x.(hostinfo := y.hostinfo, other := y.other) && Routable(x) == Routable(y)
  }

  predicate SameNodes(a: seq<Node>, b: seq<Node>) {
    |a| == |b| && forall i :: 0 <= i < |a| ==> SameNode(a[i], b[i])
  }

  predicate SameUsers(a: seq<User>, b: seq<User>) {
    a == b
  }

  predicate Changed(prev: Fetched, next: Fetched) {
    prev.policy != next.policy || !SameNodes(prev.nodes, next.nodes) || !SameUsers(prev.users, next.users)
  }

  /** A failed poll keeps the last good snapshot; a good one installs the next, counting real changes. */
  function Polled(w: Watch, fetched: Option<Fetched>): Watch {
    match fetched
    case None => w.(failed := true)
    case Some(next) =>
      match w.snap
      case None => Watch(Some(Snap(next, 1)), false)
      case Some(prev) => Watch(Some(Snap(next, if Changed(prev.content, next) then prev.revision + 1
          else prev.revision)), false)
  }

  predicate Connected(w: Watch) {
    w.snap.Some? && !w.failed
  }

  /** What the SSH side reads of a snapshot: the policy text, and the live users by id. */
  datatype Seen = Seen(policy: string, users: map<nat, string>)

  function LiveUsers(users: seq<User>): map<nat, string> {
    if users == [] then map[]
    else LiveUsers(users[..|users| - 1])[users[|users| - 1].id := users[|users| - 1].name]
  }

  function SeenOf(content: Fetched): Seen {
    Seen(content.policy, LiveUsers(content.users))
  }

  /** The last user of that id. */
  ghost predicate LastOf(users: seq<User>, i: int, id: nat) {
    0 <= i < |users| && users[i].id == id && forall j :: i < j < |users| ==> users[j].id != id
  }

  ghost predicate NamedLast(users: seq<User>, id: nat, name: string) {
    exists i :: LastOf(users, i, id) && users[i].name == name
  }

  lemma {:induction false} LiveMeans(users: seq<User>, id: nat)
    ensures id in LiveUsers(users) <==> exists i :: 0 <= i < |users| && users[i].id == id
    ensures id in LiveUsers(users) ==> NamedLast(users, id, LiveUsers(users)[id])
  {
    if users != [] {
      var n := |users| - 1;
      LiveMeans(users[..n], id);
      if users[n].id == id {
        assert LastOf(users, n, id);
      } else if id in LiveUsers(users) {
        var i :| LastOf(users[..n], i, id) && users[..n][i].name == LiveUsers(users)[id];
        assert LastOf(users, i, id) && users[i] == users[..n][i];
      }
    }
  }

  /** The SSH side sees the policy text and, for every id there is, the name of its last user. */
  lemma SeenMeans(content: Fetched, id: nat)
    ensures SeenOf(content).policy == content.policy
    ensures id in SeenOf(content).users <==> exists i :: 0 <= i < |content.users| && content.users[i].id == id
    ensures id in SeenOf(content).users ==> NamedLast(content.users, id, SeenOf(content).users[id])
  {
    LiveMeans(content.users, id);
  }

  /** A revision that has not moved stands for the same policy and the same users; it never goes back. */
  lemma RevisionIdentifies(w: Watch, fetched: Option<Fetched>)
    requires w.snap.Some?
    ensures Polled(w, fetched).snap.Some?
    ensures Polled(w, fetched).snap.value.revision >= w.snap.value.revision
    ensures Polled(w, fetched).snap.value.revision == w.snap.value.revision ==>
              SeenOf(Polled(w, fetched).snap.value.content) == SeenOf(w.snap.value.content)
  {
  }

  // ----- What counts as a change, and what the revision counts

  /** One of the compared fields of a node differs. */
  ghost predicate NodeDiffers(x: Node, y: Node) {
    || x.id != y.id || x.givenName != y.givenName || x.hostname != y.hostname || x.isOnline != y.isOnline
    || x.lastSeen != y.lastSeen || x.expiry != y.expiry || x.userId != y.userId || x.tags != y.tags
    || x.approvedRoutes != y.approvedRoutes
    || (x.hostinfo.Some? && x.hostinfo.value.routableIps !=
          if y.hostinfo.Some? then y.hostinfo.value.routableIps else [])
    || (x.hostinfo.None? && y.hostinfo.Some? && y.hostinfo.value.routableIps != [])
  }

  /** The policy, a user, the number of nodes or a compared field of one of them differs. */
  ghost predicate Differs(a: Fetched, b: Fetched) {
    || a.policy != b.policy || a.users != b.users || |a.nodes| != |b.nodes|
    || exists i :: 0 <= i < |a.nodes| && i < |b.nodes| && NodeDiffers(a.nodes[i], b.nodes[i])
  }

  lemma NodeChanges(x: Node, y: Node)
    ensures SameNode(x, y) <==> !NodeDiffers(x, y)
  {
  }

  lemma ChangedMeans(a: Fetched, b: Fetched)
    ensures Changed(a, b) <==> Differs(a, b)
  {
    hide SameNode, NodeDiffers;
    forall i | 0 <= i < |a.nodes| && i < |b.nodes|
      ensures SameNode(a.nodes[i], b.nodes[i]) <==> !NodeDiffers(a.nodes[i], b.nodes[i]) {
      NodeChanges(a.nodes[i], b.nodes[i]);
    }
  }

  function PollAll(polls: seq<Option<Fetched>>): Watch {
    if polls == [] then Watch(None, false) else Polled(PollAll(polls[..|polls| - 1]), polls[|polls| - 1])
  }

  /** The reads that succeeded, in order. */
  ghost function Good(polls: seq<Option<Fetched>>): seq<Fetched> {
    if polls == [] then []
    else
      var last := polls[|polls| - 1];
      Good(polls[..|polls| - 1]) + if last.Some? then [last.value] else []
  }

  ghost function Changes(got: seq<Fetched>): nat {
    if |got| < 2 then 0
    else Changes(got[..|got| - 1]) + if Differs(got[|got| - 2], got[|got| - 1]) then 1 else 0
  }

  /**
   After any polls the snapshot is the last successful read, its revision counts the reads that changed
   something from the one before, and the server counts as connected exactly when the last poll succeeded.
   */
  lemma {:induction false} PollHistory(polls: seq<Option<Fetched>>)
    ensures var w, got := PollAll(polls), Good(polls);
            && (w.snap.Some? <==> got != [])
            && (got != [] ==> w.snap.value == Snap(got[|got| - 1], 1 + Changes(got)))
            && (Connected(w) <==> polls != [] && polls[|polls| - 1].Some?)
  {
    hide Changed, Differs;
    if polls != [] {
      var init, last := polls[..|polls| - 1], polls[|polls| - 1];
      PollHistory(init);
      var before := Good(init);
      assert before + [] == before;
      if last.Some? && before != [] {
        ChangedMeans(before[|before| - 1], last.value);
        var got := Good(polls);
        assert got == before + [last.value] && got[..|got| - 1] == before && got[|got| - 2] == before[|before| - 1];
      }
    }
  }

  method CompareTexts(a: seq<string>, b: seq<string>) returns (same: bool)
    ensures same <==> a == b
  {
    if |a| != |b| {
      return false;
    }
    for j := 0 to |a|
      invariant a[..j] == b[..j]
    {
      if a[j] != b[j] {
        return false;
      }
    }
    return a[..|a|] == b[..|b|];
  }

  method CompareRoutable(a: Node, b: Node) returns (same: bool)
    ensures same <==> Routable(a) == Routable(b)
  {
    var ar, br := 0, 0;
    if a.hostinfo.Some? {
      ar := |a.hostinfo.value.routableIps|;
    }
    if b.hostinfo.Some? {
      br := |b.hostinfo.value.routableIps|;
    }
    if ar != br {
      return false;
    }
    if ar == 0 {
      return true;
    }
    same := CompareTexts(a.hostinfo.value.routableIps, b.hostinfo.value.routableIps);
  }

  method CompareNodes(a: seq<Node>, b: seq<Node>) returns (same: bool)
    ensures same <==> SameNodes(a, b)
  {
    if |a| != |b| {
      return false;
    }
    for i := 0 to |a|
      invariant forall k :: 0 <= k < i ==> SameNode(a[k], b[k])
    {
      var x, y := a[i], b[i];
      if x.id != y.id || x.givenName != y.givenName || x.hostname != y.hostname {
        return false;
      }
      if x.isOnline != y.isOnline || x.lastSeen != y.lastSeen {
        return false;
      }
      if x.expiry != y.expiry || x.userId != y.userId {
        return false;
      }
      var tags := CompareTexts(x.tags, y.tags);
      if !tags {
        return false;
      }
      var routes := CompareTexts(x.approvedRoutes, y.approvedRoutes);
      if !routes {
        return false;
      }
      var routable := CompareRoutable(x, y);
      if !routable {
        return false;
      }
    }
    return true;
  }

  method CompareUsers(a: seq<User>, b: seq<User>) returns (same: bool)
    ensures same <==> SameUsers(a, b)
  {
    if |a| != |b| {
      return false;
    }
    for i := 0 to |a|
      invariant a[..i] == b[..i]
    {
      if a[i].id != b[i].id || a[i].name != b[i].name || a[i].email != b[i].email
         || a[i].displayName != b[i].displayName || a[i].provider != b[i].provider {
        return false;
      }
    }
    return a[..|a|] == b[..|b|];
  }

  class Watcher {
    var snap: Option<Snap>
    var failed: bool

    ghost function State(): Watch
      reads this
    {
      Watch(snap, failed)
    }

    constructor ()
      ensures State() == Watch(None, false)
    {
      snap, failed := None, false;
    }

    /** applyLocked: the caller holds the lock and has a snapshot already. */
    method ApplyLocked(prev: Snap, next: Fetched) returns (changed: bool)
      requires snap == Some(prev)
      modifies this
      ensures changed <==> Changed(prev.content, next)
      ensures snap == Some(Snap(next, if changed then prev.revision + 1 else prev.revision)) && failed == old(failed)
    {
      var nodes := CompareNodes(prev.content.nodes, next.nodes);
      var users := CompareUsers(prev.content.users, next.users);
      changed := prev.content.policy != next.policy || !nodes || !users;
      var revision := prev.revision;
      if changed {
        revision := revision + 1;
      }
      snap := Some(Snap(next, revision));
    }

    method Poll(fetched: Option<Fetched>) returns (changed: bool)
      modifies this
      ensures State() == Polled(old(State()), fetched)
      ensures changed <==> fetched.Some? && (old(snap).None? || Changed(old(snap).value.content, fetched.value))
    {
      if fetched.None? {
        failed := true;
        return false;
      }
      if snap.None? {
        snap := Some(Snap(fetched.value, 1));
        changed := true;
      } else {
        changed := ApplyLocked(snap.value, fetched.value);
      }
      failed := false;
    }
  }
}
