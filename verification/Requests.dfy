/**
 Requests in flight (internal/auth/http.go, internal/api/sudo.go, cmd/headboard/reset.go).

 A request reads its caller when it comes in, and its check, its write and its grant are steps of
 their own, with any other event in between; reset-pin is another process.
 */
module Requests {
  import opened Common
  import opened Sessions
  import PinLock

  /** What the request asks for. */
  datatype Call = SetsPin(pin: string, password: string) | StartsSudo(pin: string) | EndsSudo | Acts(cap: Capability)

  datatype Stage = Begun | Checked | Stored | Done

  datatype Request = Request(p: Principal, call: Call, stage: Stage)

  /** A request is known by its place; `clock` is the last time anything read. */
  datatype System = System(db: State, requests: seq<Request>, clock: int)

  datatype Event =
    | AddUser(id: int, initial: Option<string>, local: bool, caps: set<Capability>, admission: Admission)
    | SetAccess(id: int, caps: set<Capability>, admission: Admission)
    | SetPassword(id: int, password: string)
    | ResetPassword(id: int, password: string)
    | ResetPin(id: int)
    | Login(old_: string, token: string, id: int, version: nat, now: int, reauth: bool)
    | Logout(token: string)
    | Begin(token: string, ip: string, now: int, call: Call)
    | Check(r: nat, now: int)
    | Store(r: nat)
    | GrantSudo(r: nat, now: int)
    | EndSudo(r: nat)
    | Act(r: nat, now: int)

  // ----- One step

  function WithUser(s: System, id: int, u: User): System {
    s.(db := s.db.(users := s.db.users[id := u]))
  }

  function AddUserNext(s: System, id: int, u: User): System {
    if id in s.db.users then s
    else
      s.(db := s.db.(users := s.db.users[id := u],
                     locks := s.db.locks.(accounts := s.db.locks.accounts[id := PinLock.UNLOCKED])))
  }

  predicate Is(s: System, r: nat, stage: Stage) {
    r < |s.requests| && s.requests[r].stage == stage
  }

  function Put(s: System, r: nat, stage: Stage): System
    requires r < |s.requests|
  {
    s.(requests := s.requests[r := s.requests[r].(stage := stage)])
  }

  /** The check of setPin or startSudo; a failed one ends the request. */
  function Checks(s: System, r: nat, now: int): (State, bool)
    requires r < |s.requests|
  {
    var q := s.requests[r];
    match q.call
    case SetsPin(pin, password) => CheckSetPin(s.db, q.p, now, pin, password)
    case StartsSudo(pin) => CheckStartSudo(s.db, q.p, now, pin)
    case _ => (s.db, false)
  }

  predicate CanCheck(s: System, r: nat, now: int) {
    Is(s, r, Begun) && now >= s.clock && (s.requests[r].call.SetsPin? || s.requests[r].call.StartsSudo?)
  }

  function CheckNext(s: System, r: nat, now: int): System
    requires CanCheck(s, r, now)
  {
    var c := Checks(s, r, now);
    Put(s, r, if c.1 then Checked else Done).(db := c.0, clock := now)
  }

  predicate CanStore(s: System, r: nat) {
    Is(s, r, Checked) && s.requests[r].call.SetsPin?
  }

  function StoreNext(s: System, r: nat): System
    requires CanStore(s, r)
  {
    Put(s, r, Stored).(db := StorePin(s.db, s.requests[r].p.id, s.requests[r].call.pin))
  }

  predicate CanGrant(s: System, r: nat, now: int) {
    now >= s.clock && (Is(s, r, Stored) || (Is(s, r, Checked) && s.requests[r].call.StartsSudo?))
  }

  function GrantSudoNext(s: System, r: nat, now: int): System
    requires CanGrant(s, r, now)
  {
    Put(s, r, Done).(db := GrantNext(s.db, s.requests[r].p.token, s.requests[r].p.id, now), clock := now)
  }

  predicate CanEnd(s: System, r: nat) {
    Is(s, r, Begun) && s.requests[r].call.EndsSudo?
  }

  function EndSudoNext(s: System, r: nat): System
    requires CanEnd(s, r)
  {
    Put(s, r, Done).(db := s.db.(grants := s.db.grants - {s.requests[r].p.token}))
  }

  predicate CanAct(s: System, r: nat, now: int) {
    Is(s, r, Begun) && now >= s.clock && s.requests[r].call.Acts?
  }

  /** The request gets past requireSudo. */
  predicate Passes(s: System, r: nat, now: int) {
    CanAct(s, r, now) && RequireSudo(s.requests[r].p, s.requests[r].call.cap, now)
  }

  function BeginNext(s: System, token: string, ip: string, now: int, call: Call): System {
    match Middleware(s.db, token, ip, now)
    case None => s.(clock := now)
    case Some(p) => s.(requests := s.requests + [Request(p, call, Begun)], clock := now)
  }

  predicate SignsIn(s: System, e: Event) {
    e.Login? && e.now >= s.clock && CanLogin(s.db, e.token, e.id, e.version)
  }

  function Next(s: System, e: Event): System {
    match e
    case AddUser(id, initial, local, caps, admission) =>
      AddUserNext(s, id, User(None, initial, local, 0, caps, admission))
    case SetAccess(id, caps, admission) =>
      if id in s.db.users then WithUser(s, id, s.db.users[id].(caps := caps, admission := admission)) else s
    case SetPassword(id, password) =>
      if id in s.db.users then WithUser(s, id, s.db.users[id].(password := Some(password))) else s
    case ResetPassword(id, password) =>
      if id in s.db.users
      then WithUser(s, id, s.db.users[id].(password := Some(password), credVersion := s.db.users[id].credVersion + 1))
      else s
    case ResetPin(id) => s.(db := ResetPinNext(s.db, id))
    case Login(old_, token, id, version, now, reauth) =>
      if SignsIn(s, e) then s.(db := LoginNext(s.db, old_, token, id, version, now, reauth), clock := now) else s
    case Logout(token) => s.(db := s.db.(sessions := s.db.sessions - {token}))
    case Begin(token, ip, now, call) => if now >= s.clock then BeginNext(s, token, ip, now, call) else s
    case Check(r, now) => if CanCheck(s, r, now) then CheckNext(s, r, now) else s
    case Store(r) => if CanStore(s, r) then StoreNext(s, r) else s
    case GrantSudo(r, now) => if CanGrant(s, r, now) then GrantSudoNext(s, r, now) else s
    case EndSudo(r) => if CanEnd(s, r) then EndSudoNext(s, r) else s
    case Act(r, now) => if CanAct(s, r, now) then Put(s, r, Done).(clock := now) else s
  }

  function Play(s: System, events: seq<Event>): System {
    if events == [] then s else Next(Play(s, events[..|events| - 1]), events[|events| - 1])
  }

  lemma PlaySnoc(s: System, events: seq<Event>, e: Event)
    ensures Play(s, events + [e]) == Next(Play(s, events), e)
  {
    assert (events + [e])[..|events|] == events;
  }

  lemma PlayNone(s: System)
    ensures Play(s, []) == s
  {
  }

  // ----- What every step keeps

  /** A session never carries a version its account has not had, and every account has its lock row. */
  ghost predicate Sound(s: System) {
    && s.db.users.Keys == s.db.locks.accounts.Keys
    && (forall t :: t in s.db.sessions ==> Known(s, s.db.sessions[t]))
    && forall r :: 0 <= r < |s.requests| ==> s.requests[r].p.id in s.db.users
  }

  predicate Known(s: System, x: Session) {
    x.user in s.db.users && x.credVersion <= s.db.users[x.user].credVersion
  }

  /** What no step changes about an account but those that name it. */
  lemma AttemptKeeps(s: State, user: int, ip: string, now: int, right: bool)
    ensures var t := Attempt(s, user, ip, now, right).0;
            t == s.(locks := t.locks) && t.locks.accounts.Keys == s.locks.accounts.Keys
  {
    hide PinLock.Check;
    if user in s.locks.accounts {
      Sessions.CheckKeeps(s.locks, user, ip, now, right);
    }
  }

  lemma ChecksKeep(s: System, r: nat, now: int)
    requires r < |s.requests|
    ensures var t := Checks(s, r, now).0;
            && t.users == s.db.users && t.sessions == s.db.sessions && t.grants == s.db.grants && t.used == s.db.used
            && t.locks.accounts.Keys == s.db.locks.accounts.Keys
  {
    hide Attempt, NeedsPin, ValidPin;
    var q := s.requests[r];
    AttemptKeeps(s.db, q.p.id, q.p.ip, now, q.call.SetsPin? && PasswordIs(s.db, q.p.id, q.call.password));
    AttemptKeeps(s.db, q.p.id, q.p.ip, now, q.call.StartsSudo? && PinIs(s.db, q.p.id, q.call.pin));
  }

  lemma CheckOnly(s: System, r: nat, now: int)
    requires CanCheck(s, r, now)
    ensures var t, u := CheckNext(s, r, now).db, s.db;
            && t.users == u.users && t.sessions == u.sessions && t.grants == u.grants && t.used == u.used
            && t.locks.accounts.Keys == u.locks.accounts.Keys
  {
    hide Checks;
    ChecksKeep(s, r, now);
    assert CheckNext(s, r, now).db == Checks(s, r, now).0;
  }

  /** Accounts stay, versions grow, and an account gets its PIN only from a Store. */
  lemma UsersAfter(s: System, e: Event, user: int)
    requires user in s.db.users
    ensures user in Next(s, e).db.users
    ensures Next(s, e).db.users[user].credVersion >= s.db.users[user].credVersion
    ensures Next(s, e).db.users[user].pin.Some? && s.db.users[user].pin.None? ==>
              e.Store? && CanStore(s, e.r) && s.requests[e.r].p.id == user
  {
    hide PinLock.Next, CheckNext, Middleware;
    if e.Check? && CanCheck(s, e.r, e.now) {
      CheckOnly(s, e.r, e.now);
    }
  }

  /** A session was there before, or is the one this event signed in. */
  lemma SessionsAfter(s: System, e: Event, token: string)
    requires token in Next(s, e).db.sessions
    ensures (token in s.db.sessions && Next(s, e).db.sessions[token] == s.db.sessions[token])
            || (SignsIn(s, e) && e.token == token && Next(s, e).db.sessions[token].user == e.id
                && Next(s, e).db.sessions[token].credVersion == e.version)
  {
    hide PinLock.Next, CheckNext, Middleware;
    if e.Check? && CanCheck(s, e.r, e.now) {
      CheckOnly(s, e.r, e.now);
    }
  }

  /** A request keeps its caller and its call; a new one has what the middleware read. */
  lemma RequestsAfter(s: System, e: Event, r: nat)
    requires r < |Next(s, e).requests|
    ensures r < |s.requests| ==> Next(s, e).requests[r] == s.requests[r].(stage := Next(s, e).requests[r].stage)
    ensures |s.requests| <= |Next(s, e).requests|
    ensures r >= |s.requests| ==>
              && r == |s.requests| && e.Begin? && e.now >= s.clock && e.call == Next(s, e).requests[r].call
              && Middleware(s.db, e.token, e.ip, e.now) == Some(Next(s, e).requests[r].p)
              && Next(s, e).requests[r].stage == Begun
  {
    hide PinLock.Next, Checks, Middleware, GrantNext, StorePin, ResetPinNext, LoginNext;
  }

  /** The clock does not go back. */
  lemma ClockAfter(s: System, e: Event)
    ensures Next(s, e).clock >= s.clock
    ensures e.GrantSudo? && CanGrant(s, e.r, e.now) ==> Next(s, e).clock == e.now
  {
    hide Checks, Middleware, GrantNext, StorePin, ResetPinNext, LoginNext;
  }

  lemma LocksAfter(s: System, e: Event)
    requires s.db.users.Keys == s.db.locks.accounts.Keys
    ensures Next(s, e).db.users.Keys == Next(s, e).db.locks.accounts.Keys
  {
    hide CheckNext, Middleware;
    if e.Check? && CanCheck(s, e.r, e.now) {
      CheckOnly(s, e.r, e.now);
    }
  }

  lemma SoundStep(s: System, e: Event)
    requires Sound(s)
    ensures Sound(Next(s, e))
  {
    hide Next, Middleware;
    LocksAfter(s, e);
    var t := Next(s, e);
    forall token | token in t.db.sessions ensures Known(t, t.db.sessions[token]) {
      SessionsAfter(s, e, token);
      if token in s.db.sessions && t.db.sessions[token] == s.db.sessions[token] {
        assert Known(s, s.db.sessions[token]);
      }
      UsersAfter(s, e, t.db.sessions[token].user);
    }
    forall r | 0 <= r < |t.requests| ensures t.requests[r].p.id in t.db.users {
      RequestsAfter(s, e, r);
      if r >= |s.requests| {
        Identified(s.db, e.token, e.ip, e.now);
      }
      UsersAfter(s, e, t.requests[r].p.id);
    }
  }

  /** What the middleware reads is the account, its session and its grant at that moment. */
  lemma Identified(s: State, token: string, ip: string, now: int)
    requires Middleware(s, token, ip, now).Some?
    ensures var p := Middleware(s, token, ip, now).value;
            && p.id in s.users && p.user == s.users[p.id] && p.token == token && p.ip == ip
            && token in s.sessions && s.sessions[token].user == p.id
            && s.sessions[token].credVersion == s.users[p.id].credVersion
            && p.sudoUntil == SudoUntil(s, token, p.id, now) && p.reauthAt == s.sessions[token].reauthAt
  {
  }

  /** There is a caller exactly for a session on record whose account has still the version it was opened with. */
  lemma CallerMeans(s: State, token: string, ip: string, now: int)
    ensures Middleware(s, token, ip, now).Some? <==>
              && token in s.sessions && s.sessions[token].user in s.users
              && s.sessions[token].credVersion == s.users[s.sessions[token].user].credVersion
  {
  }

  lemma {:induction false} SoundRun(s: System, events: seq<Event>)
    requires Sound(s)
    ensures Sound(Play(s, events))
  {
    hide Next, Sound;
    if events != [] {
      SoundRun(s, events[..|events| - 1]);
      SoundStep(Play(s, events[..|events| - 1]), events[|events| - 1]);
    }
  }
}
