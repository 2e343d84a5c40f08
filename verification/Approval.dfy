/** Binding a server to the target that reports its address (internal/api/ssh_access.go). */
module Approval {
  import opened Common
  import opened Sequences
  import opened Key
  import opened Desired
  import opened Store
  import opened Apply
  import Auth = Sessions

  /** An agent as the server last heard of it; times are in milliseconds. */
  datatype AgentView = AgentView(id: int, lastSeen: Option<int>, discovered: seq<Discovered>)

  datatype Claim = Claim(agentId: int, found: Discovered)

  datatype ApproveError =
    | SudoNeeded | NoSuchServer | BadRef | ManyClaims | NotReported | StoreRefused(error: StoreError)

  /** Six minutes. */
  const STALE_AFTER := 360_000

  function Online(a: AgentView, now: int): bool {
    a.lastSeen.Some? && now - a.lastSeen.value < STALE_AFTER
  }

  /** The targets of one agent that hold the address. */
  function Holding(agentId: int, ds: seq<Discovered>, ip: string): seq<Claim> {
    if ds == [] then []
    else
      var d := ds[|ds| - 1];
      Holding(agentId, ds[..|ds| - 1], ip) + if ip in d.ips then [Claim(agentId, d)] else []
  }

  /** Every target of every online agent that holds the address. */
  function Claims(agents: seq<AgentView>, ip: string, now: int): seq<Claim> {
    if agents == [] then []
    else
      var a := agents[|agents| - 1];
      Claims(agents[..|agents| - 1], ip, now) + if Online(a, now) then Holding(a.id, a.discovered, ip) else []
  }

  method Reporting(agents: seq<AgentView>, ip: string, now: int) returns (claims: seq<Claim>)
    ensures claims == Claims(agents, ip, now)
  {
    claims := [];
    for i := 0 to |agents|
      invariant claims == Claims(agents[..i], ip, now)
    {
      var a := agents[i];
      assert agents[..i + 1][..i] == agents[..i];
      if !Online(a, now) {
        continue;
      }
      ghost var before := claims;
      for k := 0 to |a.discovered|
        invariant claims == before + Holding(a.id, a.discovered[..k], ip)
      {
        assert a.discovered[..k + 1][..k] == a.discovered[..k];
        if ip in a.discovered[k].ips {
          claims := claims + [Claim(a.id, a.discovered[k])];
        }
      }
      assert a.discovered[..|a.discovered|] == a.discovered;
    }
    assert agents[..|agents|] == agents;
  }

  method ApprovalCandidate(agents: seq<AgentView>, ips: map<string, string>, now: int, host: string, agentId: int,
      ref: string)
    returns (r: Result<Discovered, ApproveError>)
    ensures r.Ok? <==>
              && host in ips && ValidRef(ref)
              && exists d :: Claims(agents, ips[host], now) == [Claim(agentId, d)] && d.ref == ref
    ensures r.Ok? ==> Claims(agents, ips[host], now) == [Claim(agentId, r.value)] && r.value.ref == ref
  {
    hide ValidRef, Claims;
    if host !in ips {
      return Err(NoSuchServer);
    }
    if !ValidRef(ref) {
      return Err(BadRef);
    }
    var claims := Reporting(agents, ips[host], now);
    if |claims| > 1 {
      return Err(ManyClaims);
    }
    if |claims| == 0 || claims[0].agentId != agentId || claims[0].found.ref != ref {
      return Err(NotReported);
    }
    assert claims == [Claim(agentId, claims[0].found)];
    return Ok(claims[0].found);
  }

  /** No other host is bound to the target. */
  ghost predicate Free(targets: map<string, Binding>, host: string, agentId: int, ref: string) {
    forall h :: h in targets && h != host ==> !(targets[h].agentId == agentId && targets[h].targetRef == ref)
  }

  /**
   Approving: the binding takes the policy's address and the label the agent reported, an earlier one of the
   host goes, with its suspension, and nothing else changes. It is refused without sudo, without the one
   claim, and when the agent is gone or the target belongs to another host.
   */
  method ApproveHandler(store: SshStore, p: Option<Auth.Principal>, agents: seq<AgentView>, ips: map<string, string>,
      now: int, host: string, agentId: int, ref: string)
    returns (r: Result<Discovered, ApproveError>)
    modifies store
    ensures r.Ok? ==>
              && ValidRef(ref) && host in ips
              && Claims(agents, ips[host], now) == [Claim(agentId, r.value)] && r.value.ref == ref
    ensures r.Ok? ==>
              var b := Binding(host, agentId, ref, ips[host], r.value.hostname, false);
              && Approve(old(store.State()), b) == Ok(store.State())
              && store.targets == old(store.targets)[host := b]
              && store.State() ==
                   old(store.State()).(tables := old(store.State()).tables.(targets := store.targets),
                                       rev := old(store.rev) + 1)
    ensures r.Ok? <==>
              && Auth.Allowed(p, Auth.ManageSSH, now) && host in ips && ValidRef(ref)
              && (exists d :: Claims(agents, ips[host], now) == [Claim(agentId, d)] && d.ref == ref)
              && agentId in old(store.agents) && Free(old(store.targets), host, agentId, ref)
    ensures r.Err? ==> store.State() == old(store.State())
    ensures store.State() != old(store.State()) ==> p.Some? && Auth.ManageSSH in p.value.user.caps
  {
    hide ValidRef, Claims, Auth.NeedsPin;
    Auth.AllowedMeans(p, Auth.ManageSSH, now);
    if p.None? || !Auth.RequireSudo(p.value, Auth.ManageSSH, now) {
      return Err(SudoNeeded);
    }
    r := ApprovalCandidate(agents, ips, now, host, agentId, ref);
    if r.Err? {
      return;
    }
    var e := store.ApproveSSHTarget(Binding(host, agentId, r.value.ref, ips[host], r.value.hostname, false));
    if e.Some? {
      r := Err(StoreRefused(e.value));
    }
  }

  lemma {:induction false} ClaimHolds(agents: seq<AgentView>, ip: string, now: int, c: Claim)
    ensures c in Claims(agents, ip, now) ==> ip in c.found.ips
  {
    if agents != [] {
      ClaimHolds(agents[..|agents| - 1], ip, now, c);
      var a := agents[|agents| - 1];
      HoldingHolds(a.id, a.discovered, ip, c);
    }
  }

  lemma {:induction false} HoldingHolds(agentId: int, ds: seq<Discovered>, ip: string, c: Claim)
    ensures c in Holding(agentId, ds, ip) ==> ip in c.found.ips
  {
    if ds != [] {
      HoldingHolds(agentId, ds[..|ds| - 1], ip, c);
    }
  }

  /** A target that an agent heard of in the last six minutes reports, with the address among its own. */
  ghost predicate Holder(agents: seq<AgentView>, ip: string, now: int, at: (nat, nat)) {
    && at.0 < |agents| && agents[at.0].lastSeen.Some? && now - agents[at.0].lastSeen.value < 6 * 60 * 1000
    && at.1 < |agents[at.0].discovered| && ip in agents[at.0].discovered[at.1].ips
  }

  ghost predicate ClaimAt(c: Claim, agents: seq<AgentView>, at: (nat, nat)) {
    && at.0 < |agents| && at.1 < |agents[at.0].discovered|
    && c == Claim(agents[at.0].id, agents[at.0].discovered[at.1])
  }

  /** One claim for each place that holds the address, and no other. */
  ghost predicate ClaimedFrom(claims: seq<Claim>, from: seq<(nat, nat)>, agents: seq<AgentView>, ip: string, now: int) {
    && |from| == |claims| && Rising(from)
    && (forall at :: at in from <==> Holder(agents, ip, now, at))
    && forall i :: 0 <= i < |from| ==> ClaimAt(claims[i], agents, from[i])
  }

  lemma {:induction false} HoldersInTurn(agentId: int, ds: seq<Discovered>, ip: string) returns (turn: seq<nat>)
    ensures |turn| == |Holding(agentId, ds, ip)|
    ensures forall i, j :: 0 <= i < j < |turn| ==> turn[i] < turn[j]
    ensures forall i :: 0 <= i < |turn| ==>
              turn[i] < |ds| && ip in ds[turn[i]].ips && Holding(agentId, ds, ip)[i] == Claim(agentId, ds[turn[i]])
    ensures forall k :: 0 <= k < |ds| && ip in ds[k].ips ==> k in turn
  {
    turn := [];
    if ds != [] {
      var n := |ds| - 1;
      var before := HoldersInTurn(agentId, ds[..n], ip);
      turn := before + if ip in ds[n].ips then [n] else [];
      forall k | 0 <= k < |ds| && ip in ds[k].ips ensures k in turn {
        if k < n {
          assert ds[..n][k] == ds[k];
          assert k in before;
        } else {
          assert turn[|before|] == n;
        }
      }
    }
  }

  lemma {:induction false} ClaimPlaces(agents: seq<AgentView>, ip: string, now: int) returns (from: seq<(nat, nat)>)
    ensures ClaimedFrom(Claims(agents, ip, now), from, agents, ip, now)
  {
    hide Holding;
    from := [];
    if agents != [] {
      var n := |agents| - 1;
      var before := ClaimPlaces(agents[..n], ip, now);
      var a := agents[n];
      var turn: seq<nat> := [];
      if Online(a, now) {
        turn := HoldersInTurn(a.id, a.discovered, ip);
      }
      from := before + Paired(n, turn);
      forall i | 0 <= i < |before| ensures before[i].0 < n {
        assert before[i] in before;
      }
      RisingOn(before, n, turn);
      forall at: (nat, nat) ensures at in from <==> Holder(agents, ip, now, at) {
        PairedIn(n, turn, at);
        assert at in before <==> Holder(agents[..n], ip, now, at);
      }
    }
  }

  /** This agent's target holds the address, and none other anywhere does. */
  ghost predicate Sole(agents: seq<AgentView>, ip: string, now: int, at: (nat, nat), agentId: int, d: Discovered) {
    && Holder(agents, ip, now, at) && agents[at.0].id == agentId && agents[at.0].discovered[at.1] == d
    && forall other: (nat, nat) :: Holder(agents, ip, now, other) ==> other == at
  }

  /** A host may be approved for a target exactly when that is the only place to hold its address. */
  lemma TheOnlyClaim(agents: seq<AgentView>, ip: string, now: int, agentId: int, d: Discovered)
    ensures Claims(agents, ip, now) == [Claim(agentId, d)] <==> exists at :: Sole(agents, ip, now, at, agentId, d)
  {
    hide Claims;
    var claims := Claims(agents, ip, now);
    var from := ClaimPlaces(agents, ip, now);
    if claims == [Claim(agentId, d)] {
      assert from == [from[0]] && ClaimAt(claims[0], agents, from[0]);
      assert Sole(agents, ip, now, from[0], agentId, d);
    }
    if at :| Sole(agents, ip, now, at, agentId, d) {
      assert at in from;
      assert forall i :: 0 <= i < |from| ==> from[i] in from;
      assert |from| > 1 ==> Earlier(from[0], from[1]);
      assert from == [at] && ClaimAt(claims[0], agents, from[0]);
    }
  }

  /**
   What was approved is what the agent will accept: while the address stands and the target still
   looks as it was reported, the binding is delivered and Apply proceeds.
   */
  lemma ApprovedProceeds(agents: seq<AgentView>, ips: map<string, string>, now: int, host: string, agentId: int,
      d: Discovered, running: map<string, Discovered>)
    requires host in ips && Claims(agents, ips[host], now) == [Claim(agentId, d)]
    requires d.ref in running && running[d.ref] == d
    ensures StateOf(Binding(host, agentId, d.ref, ips[host], d.hostname, false), ips) == Active
    ensures GateOf(d.ref, ips[host], d.hostname, running) == Proceed
  {
    hide Claims;
    ClaimHolds(agents, ips[host], now, Claim(agentId, d));
    assert Claim(agentId, d) in Claims(agents, ips[host], now);
  }
}
