/** Where sudo comes from, and what ending it stops (internal/api/sudo.go, internal/auth/auth.go). */
module Grants {
  import opened Common
  import opened Sessions
  import opened Requests
  import PinLock

  /** The b-th event is the middleware reading this caller, for request r. */
  ghost predicate BeginsAt(s: System, events: seq<Event>, b: nat, r: nat, p: Principal) {
    b < |events| && events[b].Begin? &&
    var t, e := Play(s, events[..b]), events[b];
    |t.requests| == r && e.now >= t.clock && Middleware(t.db, e.token, e.ip, e.now) == Some(p)
  }

  /** The c-th event is the check of request r, and it succeeds. */
  ghost predicate ChecksAt(s: System, events: seq<Event>, c: nat, r: nat) {
    c < |events| && events[c].Check? && events[c].r == r &&
    var t := Play(s, events[..c]);
    CanCheck(t, r, events[c].now) && Checks(t, r, events[c].now).1
  }

  /** The g-th event opens sudo for the account on this session. */
  ghost predicate GrantsAt(s: System, events: seq<Event>, g: nat, token: string, user: int) {
    g < |events| && events[g].GrantSudo? &&
    var t, r := Play(s, events[..g]), events[g].r;
    CanGrant(t, r, events[g].now) && t.requests[r].p.token == token && t.requests[r].p.id == user
  }

  /** The j-th event ends sudo on this session. */
  ghost predicate EndsAt(s: System, events: seq<Event>, j: nat, token: string) {
    j < |events| && events[j].EndSudo? &&
    var t := Play(s, events[..j]);
    CanEnd(t, events[j].r) && t.requests[events[j].r].p.token == token
  }

  predicate Ends(s: System, e: Event, token: string) {
    e.EndSudo? && CanEnd(s, e.r) && s.requests[e.r].p.token == token
  }

  lemma GrantsAfter(s: System, e: Event, token: string)
    requires token in Next(s, e).db.grants
    ensures var x := Next(s, e).db.grants[token];
            || (token in s.db.grants && x == s.db.grants[token] && !Ends(s, e, token))
            || (e.GrantSudo? && CanGrant(s, e.r, e.now) && s.requests[e.r].p.token == token
                && x == Grant(s.requests[e.r].p.id, e.now + SUDO_WINDOW))
  {
    hide PinLock.Next, CheckNext, Middleware;
    if e.Check? && CanCheck(s, e.r, e.now) {
      CheckOnly(s, e.r, e.now);
    }
  }

  /** A grant on record goes back to the event that made it, with sudo not ended since. */
  lemma {:induction false} GrantFrom(s: System, events: seq<Event>, token: string) returns (g: nat)
    requires s.db.grants == map[] && token in Play(s, events).db.grants
    ensures GrantsAt(s, events, g, token, Play(s, events).db.grants[token].user)
    ensures Play(s, events).db.grants[token].until == events[g].now + SUDO_WINDOW
    ensures forall j :: g < j < |events| ==> !EndsAt(s, events, j, token)
  {
    hide Next, CanGrant, CanEnd;
    var n := |events| - 1;
    var t := Play(s, events[..n]);
    GrantsAfter(t, events[n], token);
    if token in t.db.grants && Play(s, events).db.grants[token] == t.db.grants[token] && !Ends(t, events[n], token) {
      g := GrantFrom(s, events[..n], token);
      assert events[..n][..g] == events[..g];
      forall j | g < j < |events| ensures !EndsAt(s, events, j, token) {
        if j < n {
          assert !EndsAt(s, events[..n], j, token);
          assert events[..n][..j] == events[..j];
        }
      }
    } else {
      g := n;
    }
  }

  /** A request goes back to the event that read its caller. */
  lemma {:induction false} BegunFrom(s: System, events: seq<Event>, r: nat) returns (b: nat)
    requires s.requests == [] && r < |Play(s, events).requests|
    ensures BeginsAt(s, events, b, r, Play(s, events).requests[r].p)
  {
    hide Next, Middleware;
    var n := |events| - 1;
    var t := Play(s, events[..n]);
    RequestsAfter(t, events[n], r);
    if r < |t.requests| {
      b := BegunFrom(s, events[..n], r);
      assert events[..n][..b] == events[..b];
    } else {
      b := n;
    }
  }

  lemma StageFrom(s: System, e: Event, r: nat)
    requires r < |Next(s, e).requests|
    ensures Next(s, e).requests[r].stage in {Checked, Stored} ==>
              || (r < |s.requests| && s.requests[r].stage in {Checked, Stored})
              || (e.Check? && e.r == r && CanCheck(s, r, e.now) && Checks(s, r, e.now).1)
  {
    hide Checks, Middleware, GrantNext, StorePin, ResetPinNext, LoginNext;
  }

  /** A request past its check goes back to the check. */
  lemma {:induction false} CheckedFrom(s: System, events: seq<Event>, r: nat) returns (c: nat)
    requires s.requests == [] && r < |Play(s, events).requests| && Play(s, events).requests[r].stage in {Checked,
               Stored}
    ensures ChecksAt(s, events, c, r)
  {
    hide Next, Checks, CanCheck;
    var n := |events| - 1;
    var t := Play(s, events[..n]);
    StageFrom(t, events[n], r);
    if r < |t.requests| && t.requests[r].stage in {Checked, Stored} {
      c := CheckedFrom(s, events[..n], r);
      assert events[..n][..c] == events[..c];
    } else {
      c := n;
    }
  }

  lemma {:induction false} ClockRun(s: System, events: seq<Event>, i: nat)
    requires i <= |events|
    ensures Play(s, events).clock >= Play(s, events[..i]).clock
  {
    hide Next;
    if i < |events| {
      var n := |events| - 1;
      ClockRun(s, events[..n], i);
      assert events[..n][..i] == events[..i];
      ClockAfter(Play(s, events[..n]), events[n]);
    } else {
      assert events[..i] == events;
    }
  }

  lemma GrantClock(s: System, events: seq<Event>, g: nat, token: string, user: int)
    requires GrantsAt(s, events, g, token, user)
    ensures Play(s, events).clock >= events[g].now
  {
    hide Next, CanGrant, CanEnd;
    assert events[..g + 1][..g] == events[..g];
    ClockAfter(Play(s, events[..g]), events[g]);
    ClockRun(s, events, g + 1);
  }

  /** What the middleware reads as sudo is the grant of that moment. */
  lemma ReadGrant(s: State, token: string, ip: string, now: int)
    requires Middleware(s, token, ip, now).Some? && Middleware(s, token, ip, now).value.sudoUntil.Some?
    ensures var p := Middleware(s, token, ip, now).value;
            && token in s.grants && s.grants[token] == Grant(p.id, p.sudoUntil.value) && p.token == token
  {
  }

  /** An opening of sudo, seen in a longer run. */
  lemma Longer(s: System, events: seq<Event>, b: nat, g: nat, token: string, user: int)
    requires b <= |events| && GrantsAt(s, events[..b], g, token, user)
    requires forall j :: g < j < b ==> !EndsAt(s, events[..b], j, token)
    ensures GrantsAt(s, events, g, token, user) && events[g] == events[..b][g]
    ensures forall j :: g < j < b ==> !EndsAt(s, events, j, token)
  {
    hide Play, CanGrant, CanEnd;
    assert events[..b][..g] == events[..g];
    forall j | g < j < b ensures !EndsAt(s, events, j, token) {
      assert !EndsAt(s, events[..b], j, token);
      assert events[..b][..j] == events[..j];
    }
  }

  /**
   A request with a role that needs a PIN passes requireSudo only on the sudo it read when it came
   in: opened on its own session, for its own account, less than five minutes ago, by a request
   whose check succeeded, and not ended before it came in.
   */
  lemma PassIsGranted(s: System, events: seq<Event>, r: nat, now: int) returns (c: nat, g: nat, b: nat)
    requires s.db.grants == map[] && s.requests == [] && Passes(Play(s, events), r, now)
    requires NeedsPin(Play(s, events).requests[r].p.user.caps)
    ensures c < g < b && BeginsAt(s, events, b, r, Play(s, events).requests[r].p)
    ensures var p := Play(s, events).requests[r].p; GrantsAt(s, events, g, p.token, p.id)
    ensures forall j :: g < j < b ==> !EndsAt(s, events, j, Play(s, events).requests[r].p.token)
    ensures events[g].now <= now < events[g].now + 5 * 60 * 1000
    ensures ChecksAt(s, events, c, events[g].r)
  {
    hide Next, Play, NeedsPin, CanGrant, CanEnd, EndsAt, Middleware;
    var p := Play(s, events).requests[r].p;
    b := BegunFrom(s, events, r);
    var e := events[b];
    ReadGrant(Play(s, events[..b]).db, e.token, e.ip, e.now);
    g := GrantFrom(s, events[..b], e.token);
    Longer(s, events, b, g, p.token, p.id);
    GrantClock(s, events, g, p.token, p.id);
    Granting(Play(s, events[..g]), events[g].r, events[g].now);
    c := CheckedFrom(s, events[..g], events[g].r);
    assert events[..g][..c] == events[..c];
  }

  lemma Granting(s: System, r: nat, now: int)
    requires CanGrant(s, r, now)
    ensures r < |s.requests| && s.requests[r].stage in {Checked, Stored}
  {
  }

  /** What the account and its session allowed at one moment. */
  ghost predicate Empowered(s: State, token: string, user: int, cap: Capability, now: int) {
    && user in s.users && s.users[user].admission == Active && cap in s.users[user].caps
    && token in s.sessions && s.sessions[token].user == user
    && s.sessions[token].credVersion == s.users[user].credVersion
    && (s.users[user].caps <= {ViewSelf, ViewAll, ViewAudit}
        || (s.users[user].pin.Some? && token in s.grants && s.grants[token].user == user
            && s.grants[token].until > now))
  }

  /**
   Whatever the role: a request passes for a capability exactly when, as it came in, its live session's
   account was admitted and held that capability and, if it can do more than look, had a PIN set and
   sudo on that still is.
   */
  lemma PassMeans(s: System, events: seq<Event>, r: nat, now: int) returns (b: nat)
    requires s.requests == [] && CanAct(Play(s, events), r, now)
    ensures var q := Play(s, events).requests[r];
            && BeginsAt(s, events, b, r, q.p)
            && (Passes(Play(s, events), r, now) <==>
                  Empowered(Play(s, events[..b]).db, q.p.token, q.p.id, q.call.cap, now))
  {
    hide Next, Play, NeedsPin, Middleware;
    var q := Play(s, events).requests[r];
    b := BegunFrom(s, events, r);
    var e, t := events[b], Play(s, events[..b]);
    Identified(t.db, e.token, e.ip, e.now);
    NeedsPinMeans(q.p.user.caps);
    ClockRun(s, events, b + 1);
    assert events[..b + 1][..b] == events[..b];
    BeginClock(t, e);
    PlaySnoc(s, events[..b], e);
    assert events[..b + 1] == events[..b] + [e];
  }

  lemma BeginClock(s: System, e: Event)
    requires e.Begin? && Middleware(s.db, e.token, e.ip, e.now).Some? && e.now >= s.clock
    ensures Next(s, e).clock == e.now
  {
  }

  /** A startSudo whose check succeeds sent the PIN the account then had, and neither it nor the address was locked. */
  lemma OpenedWithPin(s: State, p: Principal, now: int, pin: string)
    requires CheckStartSudo(s, p, now, pin).1
    ensures PinIs(s, p.id, pin) && p.user.admission == Active
    ensures PinLock.Evaluated(s.locks, PinLock.Try(p.id, p.ip, now, PinLock.Pin, true))
  {
    hide PinLock.Recent, PinLock.Keep;
  }

  // ----- What ending sudo does not stop

  lemma StandsStep(s: System, e: Event, r: nat, now: int)
    requires Passes(s, r, now) && !(e.Act? && e.r == r) && Next(s, e).clock <= now
    ensures Passes(Next(s, e), r, now)
  {
    hide Checks, Middleware, GrantNext, StorePin, ResetPinNext, LoginNext, RequireSudo;
  }

  /**
   A request that has come in passes whatever happens before it acts: an endSudo of its session, a
   sign-out, a reset, a change of role. It works on the caller it read.
   */
  lemma {:induction false} Stands(s: System, events: seq<Event>, r: nat, now: int)
    requires Passes(s, r, now) && Play(s, events).clock <= now
    requires forall i :: 0 <= i < |events| ==> !(events[i].Act? && events[i].r == r)
    ensures Passes(Play(s, events), r, now)
  {
    hide Next, Passes;
    if events != [] {
      var n := |events| - 1;
      ClockAfter(Play(s, events[..n]), events[n]);
      Stands(s, events[..n], r, now);
      StandsStep(Play(s, events[..n]), events[n], r, now);
    }
  }
}
