/** When reset-pin is safe (cmd/headboard/reset.go, internal/store/users.go, internal/api/sudo.go). */
module Resets {
  import opened Common
  import opened Sessions
  import opened Requests
  import PinLock

  // ----- What a reset promises

  /** The request of the account gets past requireSudo with a role that needs a PIN. */
  predicate PinPass(s: System, r: nat, now: int, user: int) {
    Passes(s, r, now) && s.requests[r].p.id == user && NeedsPin(s.requests[r].p.user.caps)
  }

  /** The i-th event signs the account in, as it is since z, under this token. */
  ghost predicate SignsInAt(z: System, events: seq<Event>, i: nat, token: string, user: int)
    requires user in z.db.users
  {
    i < |events| && SignsIn(Play(z, events[..i]), events[i]) && events[i].id == user && events[i].token == token
    && events[i].version >= z.db.users[user].credVersion
  }

  /** The k-th event stores a PIN of the account, for a request that came in on this token after z. */
  ghost predicate StoresAt(z: System, events: seq<Event>, k: nat, token: string, user: int) {
    k < |events| && events[k].Store? && events[k].r >= |z.requests| &&
    var t := Play(z, events[..k]);
    CanStore(t, events[k].r) && t.requests[events[k].r].p.id == user && t.requests[events[k].r].p.token == token
  }

  /** The account has signed in again since z, and set a PIN in that session. */
  ghost predicate Renews(z: System, events: seq<Event>, i: nat, k: nat, token: string, user: int)
    requires user in z.db.users
  {
    i < k && SignsInAt(z, events, i, token, user) && StoresAt(z, events, k, token, user)
  }

  ghost predicate Renewed(z: System, events: seq<Event>, user: int)
    requires user in z.db.users
  {
    exists i, k, token :: Renews(z, events, i, k, token, user)
  }

  /** Whatever happens from z on, nobody acts as the account before it has renewed its PIN. */
  ghost predicate Safe(z: System, user: int)
    requires user in z.db.users
  {
    forall events, r, now :: PinPass(Play(z, events), r, now, user) ==> Renewed(z, events, user)
  }

  // ----- What breaks it

  /** What setPin reads before it hashes the PIN, so far as a later event cannot change it. */
  predicate MayStore(p: Principal, pin: string, now: int) {
    && p.user.admission == Active && NeedsPin(p.user.caps) && ValidPin(pin)
    && if p.user.pin.Some? then CheckSudo(p, now) else p.user.local || ReauthFresh(p, now)
  }

  /** A request of the account that a reset does not stop. */
  predicate Outlasts(s: System, r: nat, user: int) {
    r < |s.requests| && s.requests[r].p.id == user &&
    var q := s.requests[r];
    || (q.call.SetsPin? && q.stage == Checked)
    || (q.call.SetsPin? && q.stage == Begun && MayStore(q.p, q.call.pin, s.clock))
    || PinPass(s, r, s.clock, user)
  }

  // ----- Without one: the account is renewed first

  lemma StoresOnly(s: State, p: Principal, now: int, pin: string, password: string)
    requires CheckSetPin(s, p, now, pin, password).1
    ensures MayStore(p, pin, now)
  {
    hide Attempt, NeedsPin, ValidPin;
  }

  lemma StageAfter(s: System, e: Event, r: nat)
    requires r < |s.requests|
    ensures r < |Next(s, e).requests|
    ensures var q, u := s.requests[r], Next(s, e).requests[r];
            && (u.stage == Begun ==> q.stage == Begun)
            && (u.stage == Checked && q.stage != Checked ==>
                 e.Check? && e.r == r && CanCheck(s, r, e.now) && Checks(s, r, e.now).1)
  {
    hide Checks, Middleware, GrantNext, StorePin, ResetPinNext, LoginNext;
  }

  lemma OutlastsStep(s: System, e: Event, r: nat, user: int)
    requires r < |s.requests| && r < |Next(s, e).requests| && Outlasts(Next(s, e), r, user)
    ensures Outlasts(s, r, user)
  {
    hide Next, CheckSetPin, NeedsPin, ValidPin;
    StageAfter(s, e, r);
    RequestsAfter(s, e, r);
    ClockAfter(s, e);
    var q := s.requests[r];
    if Next(s, e).requests[r].stage == Checked && q.stage != Checked && q.call.SetsPin? {
      StoresOnly(s.db, q.p, e.now, q.call.pin, q.call.password);
    }
  }

  ghost predicate SignedIn(z: System, events: seq<Event>, token: string, user: int)
    requires user in z.db.users
  {
    exists i :: SignsInAt(z, events, i, token, user)
  }

  lemma SignsInSnoc(z: System, events: seq<Event>, e: Event, i: nat, token: string, user: int)
    requires user in z.db.users && SignsInAt(z, events, i, token, user)
    ensures SignsInAt(z, events + [e], i, token, user)
  {
    hide Play, SignsIn;
    assert (events + [e])[..i] == events[..i];
  }

  lemma SignedInSnoc(z: System, events: seq<Event>, e: Event, token: string, user: int)
    requires user in z.db.users && SignedIn(z, events, token, user)
    ensures SignedIn(z, events + [e], token, user)
  {
    hide SignsInAt;
    var i :| SignsInAt(z, events, i, token, user);
    SignsInSnoc(z, events, e, i, token, user);
  }

  lemma RenewsSnoc(z: System, events: seq<Event>, e: Event, i: nat, k: nat, token: string, user: int)
    requires user in z.db.users && Renews(z, events, i, k, token, user)
    ensures Renews(z, events + [e], i, k, token, user)
  {
    hide Play, SignsIn, CanStore;
    assert (events + [e])[..i] == events[..i] && (events + [e])[..k] == events[..k];
  }

  lemma RenewedSnoc(z: System, events: seq<Event>, e: Event, user: int)
    requires user in z.db.users && Renewed(z, events, user)
    ensures Renewed(z, events + [e], user)
  {
    hide Renews;
    var i, k, token :| Renews(z, events, i, k, token, user);
    RenewsSnoc(z, events, e, i, k, token, user);
  }

  /** Since z: what stands for each session, request and PIN of the account. */
  ghost predicate Accounted(z: System, events: seq<Event>, user: int)
    requires user in z.db.users
  {
    var t := Play(z, events);
    && user in t.db.users && t.db.users[user].credVersion >= z.db.users[user].credVersion
    && |t.requests| >= |z.requests|
    && (forall r :: 0 <= r < |z.requests| ==> !Outlasts(t, r, user))
    && (forall token :: token in t.db.sessions ==> SessionAccounted(z, events, token, t.db.sessions[token], user))
    && (forall r :: |z.requests| <= r < |t.requests| ==> RequestAccounted(z, events, t.requests[r].p, user))
    && (t.db.users[user].pin.Some? ==> Renewed(z, events, user))
  }

  ghost predicate SessionAccounted(z: System, events: seq<Event>, token: string, x: Session, user: int)
    requires user in z.db.users
  {
    x.user == user && x.credVersion >= z.db.users[user].credVersion ==> SignedIn(z, events, token, user)
  }

  ghost predicate RequestAccounted(z: System, events: seq<Event>, p: Principal, user: int)
    requires user in z.db.users
  {
    p.id == user ==> SignedIn(z, events, p.token, user) && (p.user.pin.Some? ==> Renewed(z, events, user))
  }

  lemma SessionsAccounted(z: System, events: seq<Event>, e: Event, token: string, user: int)
    requires user in z.db.users && Accounted(z, events, user)
    requires token in Play(z, events + [e]).db.sessions
    ensures SessionAccounted(z, events + [e], token, Play(z, events + [e]).db.sessions[token], user)
  {
    hide Play, Next, SignedIn, Outlasts, RequestAccounted, Renewed, CanLogin;
    var t := Play(z, events);
    PlaySnoc(z, events, e);
    SessionsAfter(t, e, token);
    if token in t.db.sessions && Next(t, e).db.sessions[token] == t.db.sessions[token] {
      assert SessionAccounted(z, events, token, t.db.sessions[token], user);
      if SignedIn(z, events, token, user) {
        SignedInSnoc(z, events, e, token, user);
      }
    } else if e.id == user && e.version >= z.db.users[user].credVersion {
      SignedInNow(z, events, e, user);
    }
  }

  lemma SignedInNow(z: System, events: seq<Event>, e: Event, user: int)
    requires user in z.db.users && SignsIn(Play(z, events), e) && e.id == user
    requires e.version >= z.db.users[user].credVersion
    ensures SignedIn(z, events + [e], e.token, user)
  {
    hide Play;
    assert (events + [e])[..|events|] == events;
    assert SignsInAt(z, events + [e], |events|, e.token, user);
  }

  lemma RequestsAccounted(z: System, events: seq<Event>, e: Event, r: nat, user: int)
    requires user in z.db.users && Accounted(z, events, user)
    requires |z.requests| <= r < |Play(z, events + [e]).requests|
    ensures RequestAccounted(z, events + [e], Play(z, events + [e]).requests[r].p, user)
  {
    hide Play, Next, SignedIn, Outlasts, Renewed, Middleware;
    var t := Play(z, events);
    PlaySnoc(z, events, e);
    RequestsAfter(t, e, r);
    var p := Next(t, e).requests[r].p;
    if r < |t.requests| {
      assert RequestAccounted(z, events, t.requests[r].p, user);
    } else {
      Identified(t.db, e.token, e.ip, e.now);
      assert SessionAccounted(z, events, e.token, t.db.sessions[e.token], user);
    }
    if p.id == user {
      SignedInSnoc(z, events, e, p.token, user);
      if p.user.pin.Some? {
        RenewedSnoc(z, events, e, user);
      }
    }
  }

  lemma Stopped(z: System, events: seq<Event>, r: nat, user: int)
    requires user in z.db.users && Accounted(z, events, user) && r < |z.requests|
    ensures !Outlasts(Play(z, events), r, user)
  {
  }

  lemma PinAccounted(z: System, events: seq<Event>, e: Event, user: int)
    requires user in z.db.users && Accounted(z, events, user)
    requires user in Play(z, events + [e]).db.users && Play(z, events + [e]).db.users[user].pin.Some?
    ensures Renewed(z, events + [e], user)
  {
    hide Play, Next, SignedIn, SessionAccounted, MayStore, PinPass, Renewed, CanStore;
    var t := Play(z, events);
    PlaySnoc(z, events, e);
    UsersAfter(t, e, user);
    if t.db.users[user].pin.Some? {
      RenewedSnoc(z, events, e, user);
    } else {
      if e.r < |z.requests| {
        Stopped(z, events, e.r, user);
      }
      Storing(t, e.r, user);
      assert RequestAccounted(z, events, t.requests[e.r].p, user);
      RenewedNow(z, events, e, t.requests[e.r].p.token, user);
    }
  }

  lemma Storing(s: System, r: nat, user: int)
    requires CanStore(s, r) && s.requests[r].p.id == user
    ensures Outlasts(s, r, user)
  {
  }

  lemma RenewedNow(z: System, events: seq<Event>, e: Event, token: string, user: int)
    requires user in z.db.users && SignedIn(z, events, token, user) && e.Store? && e.r >= |z.requests|
    requires CanStore(Play(z, events), e.r)
    requires var p := Play(z, events).requests[e.r].p; p.id == user && p.token == token
    ensures Renewed(z, events + [e], user)
  {
    hide Play, SignsIn, CanStore;
    var i :| SignsInAt(z, events, i, token, user);
    SignsInSnoc(z, events, e, i, token, user);
    assert (events + [e])[..|events|] == events;
    assert Renews(z, events + [e], i, |events|, token, user);
  }

  lemma AccountedSnoc(z: System, events: seq<Event>, e: Event, user: int)
    requires user in z.db.users && Accounted(z, events, user)
    ensures Accounted(z, events + [e], user)
  {
    hide Play, Next, Outlasts, SessionAccounted, RequestAccounted, Renewed;
    var t := Play(z, events);
    PlaySnoc(z, events, e);
    UsersAfter(t, e, user);
    var u := Next(t, e);
    forall r | 0 <= r < |z.requests| ensures !Outlasts(u, r, user) {
      if Outlasts(u, r, user) {
        StageAfter(t, e, r);
        OutlastsStep(t, e, r, user);
      }
    }
    assert |u.requests| >= |z.requests| by {
      if |z.requests| > 0 {
        StageAfter(t, e, |z.requests| - 1);
      }
    }
    forall token | token in u.db.sessions ensures SessionAccounted(z, events + [e], token, u.db.sessions[token], user) {
      SessionsAccounted(z, events, e, token, user);
    }
    forall r | |z.requests| <= r < |u.requests| ensures RequestAccounted(z, events + [e], u.requests[r].p, user) {
      RequestsAccounted(z, events, e, r, user);
    }
    if u.db.users[user].pin.Some? {
      PinAccounted(z, events, e, user);
    }
  }

  lemma {:induction false} AccountedRun(z: System, events: seq<Event>, user: int)
    requires user in z.db.users && Accounted(z, [], user)
    ensures Accounted(z, events, user)
  {
    hide Accounted;
    if events != [] {
      var n := |events| - 1;
      AccountedRun(z, events[..n], user);
      AccountedSnoc(z, events[..n], events[n], user);
      assert events[..n] + [events[n]] == events;
    }
  }

  /** The state a reset leaves. */
  lemma AfterReset(s: System, user: int)
    requires Sound(s) && user in s.db.users
    ensures var z := Next(s, ResetPin(user));
            && Sound(z) && user in z.db.users && z.db.users[user].pin.None? && z.requests == s.requests
                && z.clock == s.clock
            && z.db.locks.accounts[user] == PinLock.UNLOCKED
            && forall token :: token in z.db.sessions && z.db.sessions[token].user == user ==>
                 z.db.sessions[token].credVersion < z.db.users[user].credVersion
  {
    SoundStep(s, ResetPin(user));
    forall token | token in s.db.sessions && s.db.sessions[token].user == user
      ensures s.db.sessions[token].credVersion <= s.db.users[user].credVersion
    {
      assert Known(s, s.db.sessions[token]);
    }
  }

  lemma StartsAccounted(z: System, user: int)
    requires user in z.db.users && z.db.users[user].pin.None?
    requires forall token :: token in z.db.sessions && z.db.sessions[token].user == user ==>
                 z.db.sessions[token].credVersion < z.db.users[user].credVersion
    requires forall r :: 0 <= r < |z.requests| ==> !Outlasts(z, r, user)
    ensures Accounted(z, [], user)
  {
    hide Outlasts, Renewed, SignedIn;
    PlayNone(z);
  }

  lemma PassNeedsRenewal(z: System, events: seq<Event>, r: nat, now: int, user: int)
    requires user in z.db.users && Accounted(z, events, user) && PinPass(Play(z, events), r, now, user)
    ensures Renewed(z, events, user)
  {
    hide Play, Renewed, SignedIn, SessionAccounted, MayStore;
    var t := Play(z, events);
    if r < |z.requests| {
      Stopped(z, events, r, user);
      PassOutlasts(t, r, now, user);
    } else {
      assert RequestAccounted(z, events, t.requests[r].p, user);
    }
  }

  lemma PassOutlasts(s: System, r: nat, now: int, user: int)
    requires PinPass(s, r, now, user)
    ensures Outlasts(s, r, user)
  {
    hide NeedsPin;
  }

  // ----- With one: the PIN outlives the reset

  ghost predicate Shorter(used: set<string>, n: nat) {
    forall x :: x in used ==> |x| < n
  }

  lemma {:induction false} Longest(used: set<string>) returns (n: nat)
    ensures Shorter(used, n)
  {
    if used == {} {
      n := 0;
    } else {
      var x :| x in used;
      var m := Longest(used - {x});
      n := if |x| < m then m else |x| + 1;
      forall y | y in used ensures |y| < n {
        assert y == x || y in used - {x};
      }
    }
  }

  /** There is always a new token, and an address nobody has failed from. */
  lemma NewString(used: set<string>) returns (token: string)
    ensures token !in used
  {
    var n := Longest(used);
    token := seq(n, _ => 'a');
  }

  lemma {:induction false} PlayConcat(s: System, a: seq<Event>, b: seq<Event>)
    ensures Play(s, a + b) == Play(Play(s, a), b)
  {
    hide Next;
    if b == [] {
      assert a + b == a;
      PlayNone(Play(s, a));
    } else {
      var n := |b| - 1;
      PlayConcat(s, a, b[..n]);
      assert a + b == (a + b[..n]) + [b[n]] && b == b[..n] + [b[n]];
      PlaySnoc(s, a + b[..n], b[n]);
      PlaySnoc(Play(s, a), b[..n], b[n]);
    }
  }

  lemma PlayOne(s: System, e: Event)
    ensures Play(s, [e]) == Next(s, e)
  {
    PlayNone(s);
    assert [e][..0] == [];
  }

  /** Two steps. */
  lemma PlayTwo(s: System, d: Event, e: Event)
    ensures Play(s, [d, e]) == Next(Next(s, d), e)
  {
    hide Next;
    PlayOne(s, d);
    PlaySnoc(s, [d], e);
    assert [d] + [e] == [d, e];
  }

  /** The account has this PIN, may act with it, and is not locked. */
  predicate Usable(s: System, user: int, pin: string) {
    user in s.db.users && user in s.db.locks.accounts && s.db.locks.accounts[user] == PinLock.UNLOCKED &&
    var u := s.db.users[user];
    u.pin == Some(pin) && u.admission == Active && u.caps == {ManageDevices}
  }

  lemma KnowsUser(s: System, user: int, pin: string)
    requires Usable(s, user, pin)
    ensures user in s.db.users
  {
  }

  function SignInAgain(s: System, token: string, user: int): Event
    requires user in s.db.users
  {
    Login("", token, user, s.db.users[user].credVersion, s.clock, false)
  }

  lemma SignInAgainWorks(s: System, token: string, user: int, pin: string)
    requires Usable(s, user, pin) && token !in s.db.used
    ensures var t := Next(s, SignInAgain(s, token, user));
            && Usable(t, user, pin) && t.requests == s.requests && t.clock == s.clock && t.db.locks == s.db.locks
            && CurrentUser(t.db, token) == Some(user)
  {
  }

  lemma BeginWorks(s: System, token: string, ip: string, call: Call, user: int, pin: string)
    requires Usable(s, user, pin) && CurrentUser(s.db, token) == Some(user)
    ensures var t := Next(s, Begin(token, ip, s.clock, call));
            && t.db == s.db && t.clock == s.clock && |t.requests| == |s.requests| + 1
            && var q := t.requests[|s.requests|];
               && q.p.id == user && q.p.user == s.db.users[user] && q.p.token == token && q.p.ip == ip
               && q.p.sudoUntil == SudoUntil(s.db, token, user, s.clock) && q.call == call && q.stage == Begun
  {
  }

  /** The right PIN, not locked, from an address without failures. */
  lemma CheckWorks(s: System, r: nat, user: int, pin: string)
    requires Usable(s, user, pin) && Is(s, r, Begun) && s.requests[r].call == StartsSudo(pin)
    requires var p := s.requests[r].p; p.id == user && p.user == s.db.users[user] && p.ip !in s.db.locks.seen
    ensures var t := Next(s, Check(r, s.clock));
            && Usable(t, user, pin) && Is(t, r, Checked) && |t.requests| == |s.requests| && t.clock == s.clock
            && t.requests[r].call == s.requests[r].call && t.requests[r].p == s.requests[r].p
            && t.db.sessions == s.db.sessions && t.db.users == s.db.users
  {
    var p := s.requests[r].p;
    assert PinLock.Recent(PinLock.SeenAt(s.db.locks.seen, p.ip), s.clock) == [];
    assert Checks(s, r, s.clock).1;
    CheckOnly(s, r, s.clock);
  }

  lemma GrantWorks(s: System, r: nat, user: int, pin: string)
    requires Usable(s, user, pin) && Is(s, r, Checked) && s.requests[r].call == StartsSudo(pin)
    requires s.requests[r].p.id == user && CurrentUser(s.db, s.requests[r].p.token) == Some(user)
    ensures var t, token := Next(s, GrantSudo(r, s.clock)), s.requests[r].p.token;
            && Usable(t, user, pin) && |t.requests| == |s.requests| && t.clock == s.clock
            && CurrentUser(t.db, token) == Some(user) && SudoUntil(t.db, token, user, s.clock).Some?
  {
  }

  /** Whoever knows the PIN gets in: sign in, startSudo with it, then act. */
  function UsePin(s: System, token: string, ip: string, user: int, pin: string): seq<Event>
    requires user in s.db.users
  {
    [SignInAgain(s, token, user), Begin(token, ip, s.clock, StartsSudo(pin))]
    + [Check(|s.requests|, s.clock), GrantSudo(|s.requests|, s.clock)]
    + [Begin(token, ip, s.clock, Acts(ManageDevices))]
  }

  lemma PinOpens(s: System, token: string, ip: string, user: int, pin: string)
    requires Usable(s, user, pin) && token !in s.db.used && ip !in s.db.locks.seen
    ensures PinPass(Play(s, UsePin(s, token, ip, user, pin)), |s.requests| + 1, s.clock, user)
  {
    hide Next, Play, Usable, CurrentUser, SudoUntil;
    KnowsUser(s, user, pin);
    var n := |s.requests|;
    var events := UsePin(s, token, ip, user, pin);
    SignInAgainWorks(s, token, user, pin);
    var a := Next(s, SignInAgain(s, token, user));
    BeginWorks(a, token, ip, StartsSudo(pin), user, pin);
    var b := Next(a, Begin(token, ip, s.clock, StartsSudo(pin)));
    StillUsable(a, b, user, pin);
    CheckWorks(b, n, user, pin);
    var c := Next(b, Check(n, s.clock));
    SameCaller(a.db, c.db, token);
    GrantWorks(c, n, user, pin);
    var d := Next(c, GrantSudo(n, s.clock));
    BeginWorks(d, token, ip, Acts(ManageDevices), user, pin);
    var f := Next(d, Begin(token, ip, s.clock, Acts(ManageDevices)));
    Opened(d, f, n + 1, user, pin);
    PlayTwo(s, events[0], events[1]);
    PlayTwo(b, events[2], events[3]);
    PlayConcat(s, events[..2], events[2..4]);
    assert events[..2] == [events[0], events[1]] && events[2..4] == [events[2], events[3]];
    assert events == (events[..2] + events[2..4]) + [events[4]];
    PlaySnoc(s, events[..2] + events[2..4], events[4]);
  }

  lemma StillUsable(s: System, t: System, user: int, pin: string)
    requires Usable(s, user, pin) && t.db == s.db
    ensures Usable(t, user, pin)
  {
  }

  lemma SameCaller(s: State, t: State, token: string)
    requires t.users == s.users && t.sessions == s.sessions
    ensures CurrentUser(t, token) == CurrentUser(s, token)
  {
  }

  lemma Opened(d: System, f: System, r: nat, user: int, pin: string)
    requires Usable(d, user, pin) && Is(f, r, Begun) && f.requests[r].call == Acts(ManageDevices) && f.clock == d.clock
    requires var p := f.requests[r].p;
             p.id == user && p.user == d.db.users[user] && p.sudoUntil.Some? && p.sudoUntil.value > f.clock
    ensures PinPass(f, r, f.clock, user)
  {
    assert ManageDevices in f.requests[r].p.user.caps;
  }

  /** The account may act again, and its password is the one the request sent. */
  function Readmit(user: int, password: string): seq<Event> {
    [SetAccess(user, {ManageDevices}, Active), SetPassword(user, password)]
  }

  lemma ReadmitWorks(s: System, user: int, password: string)
    requires user in s.db.users
    ensures var t := Play(s, Readmit(user, password));
            && t.requests == s.requests && t.clock == s.clock && t.db.locks == s.db.locks
            && user in t.db.users && t.db.users[user].caps == {ManageDevices} && t.db.users[user].admission == Active
            && t.db.users[user].password == Some(password)
  {
    PlayTwo(s, SetAccess(user, {ManageDevices}, Active), SetPassword(user, password));
  }

  /** When no failure of the address counts any more. */
  function Quiet(times: seq<int>, clock: int): (now: int)
    ensures now >= clock && forall t :: t in times ==> now - t >= PinLock.IP_WINDOW
  {
    if times == [] then clock
    else
      var n := |times| - 1;
      var now := Quiet(times[..n], clock);
      assert times == times[..n] + [times[n]];
      if now < times[n] + PinLock.IP_WINDOW then times[n] + PinLock.IP_WINDOW else now
  }

  lemma {:induction false} QuietMeans(times: seq<int>, now: int)
    requires forall t :: t in times ==> now - t >= PinLock.IP_WINDOW
    ensures PinLock.Recent(times, now) == []
  {
    if times != [] {
      var n := |times| - 1;
      assert times[n] in times && forall t :: t in times[..n] ==> t in times;
      QuietMeans(times[..n], now);
    }
  }

  /** When the check of the request is made to succeed. */
  function CheckTime(s: System, q: Request): int {
    if q.p.user.pin.None? && q.p.user.local then Quiet(PinLock.SeenAt(s.db.locks.seen, q.p.ip), s.clock) else s.clock
  }

  lemma LateCheck(s: System, r: nat, user: int)
    requires Is(s, r, Begun) && s.requests[r].call.SetsPin? && s.requests[r].p.id == user
    requires MayStore(s.requests[r].p, s.requests[r].call.pin, s.clock)
    requires user in s.db.users && s.db.users[user].password == Some(s.requests[r].call.password)
    requires user in s.db.locks.accounts && s.db.locks.accounts[user] == PinLock.UNLOCKED
    ensures Checks(s, r, CheckTime(s, s.requests[r])).1
    ensures CheckTime(s, s.requests[r]) >= s.clock
  {
    hide NeedsPin, ValidPin;
    var q := s.requests[r];
    var now := CheckTime(s, q);
    if q.p.user.pin.None? && q.p.user.local {
      QuietMeans(PinLock.SeenAt(s.db.locks.seen, q.p.ip), now);
      assert Attempt(s.db, user, q.p.ip, now, true).1;
    }
  }

  /** The setPin of the old session goes on: its check, if that is still to come, and its write. */
  function GoOn(s: System, r: nat): seq<Event>
    requires r < |s.requests|
  {
    [Check(r, CheckTime(s, s.requests[r])), Store(r)]
  }

  lemma LateStep(s: System, r: nat, user: int)
    requires Outlasts(s, r, user) && s.requests[r].call.SetsPin?
    requires user in s.db.users && s.db.users[user].password == Some(s.requests[r].call.password)
    requires user in s.db.locks.accounts && s.db.locks.accounts[user] == PinLock.UNLOCKED
    ensures var t := Next(s, Check(r, CheckTime(s, s.requests[r])));
            && CanStore(t, r) && t.db.users == s.db.users && t.db.locks.accounts.Keys == s.db.locks.accounts.Keys
            && |t.requests| == |s.requests| && t.requests[r].p == s.requests[r].p
                && t.requests[r].call == s.requests[r].call
  {
    hide MayStore, Checks, CheckTime;
    if s.requests[r].stage == Begun {
      var now := CheckTime(s, s.requests[r]);
      LateCheck(s, r, user);
      CheckOnly(s, r, now);
      assert Next(s, Check(r, now)) == CheckNext(s, r, now);
    }
  }

  lemma StoreWorks(s: System, r: nat, user: int)
    requires CanStore(s, r) && s.requests[r].p.id == user && user in s.db.users && user in s.db.locks.accounts
    requires s.db.users[user].admission == Active && s.db.users[user].caps == {ManageDevices}
    ensures Usable(Next(s, Store(r)), user, s.requests[r].call.pin) && |Next(s, Store(r)).requests| == |s.requests|
  {
  }

  lemma LateStore(s: System, r: nat, user: int)
    requires Outlasts(s, r, user) && s.requests[r].call.SetsPin?
    requires user in s.db.users && s.db.users[user].password == Some(s.requests[r].call.password)
    requires s.db.users[user].admission == Active && s.db.users[user].caps == {ManageDevices}
    requires user in s.db.locks.accounts && s.db.locks.accounts[user] == PinLock.UNLOCKED
    ensures var t := Play(s, GoOn(s, r));
            Usable(t, user, s.requests[r].call.pin) && |t.requests| == |s.requests|
  {
    hide Next, Play, MayStore, CheckTime, CanStore, Usable, PinPass;
    LateStep(s, r, user);
    var t := Next(s, Check(r, CheckTime(s, s.requests[r])));
    assert user in t.db.locks.accounts.Keys;
    StoreWorks(t, r, user);
    PlayTwo(s, Check(r, CheckTime(s, s.requests[r])), Store(r));
  }

  /** No request that came in later stores a PIN in this run. */
  predicate OldStores(events: seq<Event>, n: nat) {
    forall k :: 0 <= k < |events| && events[k].Store? ==> events[k].r < n
  }

  lemma NotRenewed(z: System, events: seq<Event>, user: int)
    requires user in z.db.users && OldStores(events, |z.requests|)
    ensures !Renewed(z, events, user)
  {
    hide Play, SignsIn, CanStore;
  }

  /** After a reset, with such a request in flight, a run in which the account is used and no PIN set anew. */
  lemma ResetOutlasted(z: System, r: nat, user: int) returns (events: seq<Event>, last: nat, now: int)
    requires user in z.db.users && Outlasts(z, r, user)
    requires user in z.db.locks.accounts && z.db.locks.accounts[user] == PinLock.UNLOCKED
    ensures PinPass(Play(z, events), last, now, user) && !Renewed(z, events, user)
  {
    hide Next, Play, MayStore, PinPass, Usable, UsePin, CheckTime;
    if PinPass(z, r, z.clock, user) {
      PlayNone(z);
      events, last, now := [], r, z.clock;
    } else {
      var q := z.requests[r];
      var a := Play(z, Readmit(user, q.call.password));
      ReadmitWorks(z, user, q.call.password);
      OutlastsSame(z, a, r, user);
      LateStore(a, r, user);
      var b := Play(a, GoOn(a, r));
      KnowsUser(b, user, q.call.pin);
      var token := NewString(b.db.used);
      var ip := NewString(b.db.locks.seen.Keys);
      PinOpens(b, token, ip, user, q.call.pin);
      events := Readmit(user, q.call.password) + (GoOn(a, r) + UsePin(b, token, ip, user, q.call.pin));
      PlayConcat(z, Readmit(user, q.call.password), GoOn(a, r) + UsePin(b, token, ip, user, q.call.pin));
      PlayConcat(a, GoOn(a, r), UsePin(b, token, ip, user, q.call.pin));
      last, now := |b.requests| + 1, b.clock;
      UsesStoreNothing(b, token, ip, user, q.call.pin, |z.requests|);
    }
    NotRenewed(z, events, user);
  }

  lemma OutlastsSame(s: System, t: System, r: nat, user: int)
    requires t.requests == s.requests && t.clock == s.clock && Outlasts(s, r, user)
    ensures Outlasts(t, r, user)
  {
    hide MayStore, NeedsPin;
  }

  lemma UsesStoreNothing(s: System, token: string, ip: string, user: int, pin: string, n: nat)
    requires user in s.db.users
    ensures OldStores(UsePin(s, token, ip, user, pin), n)
  {
  }

  // ----- Exactly when a reset is safe

  /**
   A reset keeps its promise, in every run after it, if and only if no request of the account is in
   flight that outlasts it: a setPin past its checks, or that its checks would let pass as it was
   read, or a request that came in with sudo on.
   */
  lemma ResetSafe(s: System, user: int)
    requires Sound(s) && user in s.db.users
    ensures user in Next(s, ResetPin(user)).db.users
    ensures Safe(Next(s, ResetPin(user)), user) <==> forall r :: 0 <= r < |s.requests| ==> !Outlasts(s, r, user)
  {
    hide Next, Play, Sound, MayStore, PinPass, Outlasts, Accounted, Renewed;
    AfterReset(s, user);
    var z := Next(s, ResetPin(user));
    if r: nat :| r < |s.requests| && Outlasts(s, r, user) {
      OutlastsSame(s, z, r, user);
      HasLock(z, user);
      var events, last, now := ResetOutlasted(z, r, user);
    } else {
      forall r | 0 <= r < |z.requests| ensures !Outlasts(z, r, user) {
        if Outlasts(z, r, user) {
          OutlastsSame(z, s, r, user);
        }
      }
      StartsAccounted(z, user);
      forall events, r, now | PinPass(Play(z, events), r, now, user) ensures Renewed(z, events, user) {
        AccountedRun(z, events, user);
        PassNeedsRenewal(z, events, r, now, user);
      }
    }
  }

  lemma HasLock(s: System, user: int)
    requires Sound(s) && user in s.db.users
    ensures user in s.db.locks.accounts
  {
  }

  // ----- One such run

  const EMPTY := System(State(map[], PinLock.State(map[], map[]), map[], map[], {}), [], 0)

  /** A local account sends its first PIN with its password, and the check passes. */
  const OLD_REQUEST := [
    AddUser(1, Some("secret"), true, {ManageDevices}, Active), Login("", "old", 1, 0, 0, false),
    Begin("old", "10.0.0.1", 0, SetsPin("135790", "secret")), Check(0, 0)]

  /** After the reset the write lands; the account signs in and uses that PIN. */
  const AFTER_RESET := [
    Store(0), Login("", "new", 1, 1, 0, false), Begin("new", "10.0.0.1", 0, StartsSudo("135790")), Check(1, 0),
    GrantSudo(1, 0), Begin("new", "10.0.0.1", 0, Acts(ManageDevices))]

  const ACCOUNT := User(None, Some("secret"), true, 0, {ManageDevices}, Active)

  const CALLER := Principal(1, ACCOUNT, "old", "10.0.0.1", None, None)

  lemma PinIsValid()
    ensures ValidPin("135790")
  {
    var pin := "135790";
    assert pin[1] as int == pin[0] as int + 2;
  }

  lemma CallerProves(db: State)
    requires 1 in db.users && db.users[1] == ACCOUNT
    requires 1 in db.locks.accounts && db.locks.accounts[1] == PinLock.UNLOCKED && db.locks.seen == map[]
    ensures CheckSetPin(db, CALLER, 0, "135790", "secret").1
  {
    PinIsValid();
    assert ManageDevices in CALLER.user.caps;
    assert PinLock.Recent(PinLock.SeenAt(db.locks.seen, "10.0.0.1"), 0) == [];
    assert Attempt(db, 1, "10.0.0.1", 0, true).1;
  }

  const SIGNED_IN := System(
    State(map[1 := ACCOUNT], PinLock.State(map[1 := PinLock.UNLOCKED], map[]),
          map["old" := Session(1, 0, None)], map[], {"old"}), [], 0)

  lemma OldSignIn()
    ensures Next(Next(EMPTY, OLD_REQUEST[0]), OLD_REQUEST[1]) == SIGNED_IN
  {
    var a := Next(EMPTY, OLD_REQUEST[0]);
    assert a.db.users == map[1 := ACCOUNT] && a.db.locks.accounts == map[1 := PinLock.UNLOCKED];
    var b := Next(a, OLD_REQUEST[1]);
    assert b.db.sessions == map["old" := Session(1, 0, None)] && b.db.used == {"old"};
  }

  lemma OldBegin()
    ensures Next(SIGNED_IN, OLD_REQUEST[2]) ==
              SIGNED_IN.(requests := [Request(CALLER, SetsPin("135790", "secret"), Begun)])
  {
    assert Middleware(SIGNED_IN.db, "old", "10.0.0.1", 0) == Some(CALLER);
  }

  lemma OldCheck(s: System)
    requires s == SIGNED_IN.(requests := [Request(CALLER, SetsPin("135790", "secret"), Begun)])
    ensures var t := Next(s, OLD_REQUEST[3]);
            && t.requests == [Request(CALLER, SetsPin("135790", "secret"), Checked)] && t.clock == 0
            && t.db.users == s.db.users && t.db.used == s.db.used
            && t.db.locks == PinLock.State(map[1 := PinLock.UNLOCKED], map[])
  {
    hide CheckSetPin;
    CallerProves(s.db);
    CheckOnly(s, 0, 0);
    assert Next(s, OLD_REQUEST[3]) == CheckNext(s, 0, 0);
    LocksSame(s.db);
  }

  lemma LocksSame(db: State)
    requires db == SIGNED_IN.db
    ensures CheckSetPin(db, CALLER, 0, "135790", "secret").0.locks == db.locks
  {
    assert PinLock.Recent(PinLock.SeenAt(db.locks.seen, "10.0.0.1"), 0) == [];
    assert db.locks.accounts[1 := PinLock.UNLOCKED] == db.locks.accounts
        && db.locks.seen - {"10.0.0.1"} == db.locks.seen;
  }

  /** The state in which the reset comes: a setPin past its checks. */
  lemma OldRequest()
    ensures var s := Play(EMPTY, OLD_REQUEST);
            && s.requests == [Request(CALLER, SetsPin("135790", "secret"), Checked)] && s.clock == 0
            && s.db.users == map[1 := ACCOUNT] && s.db.used == {"old"}
            && s.db.locks == PinLock.State(map[1 := PinLock.UNLOCKED], map[])
  {
    hide Play, Next;
    OldSignIn();
    OldBegin();
    var c := Next(SIGNED_IN, OLD_REQUEST[2]);
    OldCheck(c);
    PlayTwo(EMPTY, OLD_REQUEST[0], OLD_REQUEST[1]);
    PlayTwo(SIGNED_IN, OLD_REQUEST[2], OLD_REQUEST[3]);
    assert OLD_REQUEST[..2] == [OLD_REQUEST[0], OLD_REQUEST[1]] && OLD_REQUEST[2..] == [OLD_REQUEST[2], OLD_REQUEST[3]];
    PlayConcat(EMPTY, OLD_REQUEST[..2], OLD_REQUEST[2..]);
    assert OLD_REQUEST == OLD_REQUEST[..2] + OLD_REQUEST[2..];
  }

  /** The PIN set for the old session, written after the reset, opens sudo for the new one. */
  lemma ResetCanFail()
    ensures var s := Play(EMPTY, OLD_REQUEST);
            var z := Next(s, ResetPin(1));
            && PinPass(Play(z, AFTER_RESET), 2, 0, 1) && 1 in z.db.users && !Renewed(z, AFTER_RESET, 1)
  {
    hide Play;
    OldRequest();
    var s := Play(EMPTY, OLD_REQUEST);
    var z := Next(s, ResetPin(1));
    var t := Next(z, Store(0));
    assert Usable(t, 1, "135790");
    PinOpens(t, "new", "10.0.0.1", 1, "135790");
    assert AFTER_RESET == [Store(0)] + UsePin(t, "new", "10.0.0.1", 1, "135790");
    PlayConcat(z, [Store(0)], UsePin(t, "new", "10.0.0.1", 1, "135790"));
    PlayOne(z, Store(0));
    NotRenewed(z, AFTER_RESET, 1);
  }
}
