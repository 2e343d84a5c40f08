/** What each event makes of accounts, sessions, grants and requests (internal/store/users.go, sessions.go). */
module Accounts {
  import opened Common
  import opened Sessions
  import opened Requests
  import PinLock

  // ----- Accounts

  /** The secret the event gives the account's PIN column, if it writes it. */
  ghost predicate StoresPin(s: System, e: Event, id: int, pin: string) {
    e.Store? && e.r < |s.requests| && s.requests[e.r].stage == Checked && s.requests[e.r].p.id == id
    && s.requests[e.r].call.SetsPin? && s.requests[e.r].call.pin == pin
  }

  /** An account comes with its creation and stays; each event changes the columns it is about and no other. */
  lemma AccountAfter(s: System, e: Event, id: int)
    requires id in s.db.users
    ensures id in Next(s, e).db.users
    ensures var u, v := s.db.users[id], Next(s, e).db.users[id];
            && v.local == u.local
            && v.password == (if (e.SetPassword? || e.ResetPassword?) && e.id == id then Some(e.password)
                              else u.password)
            && v.caps == (if e.SetAccess? && e.id == id then e.caps else u.caps)
            && v.admission == (if e.SetAccess? && e.id == id then e.admission else u.admission)
            && v.credVersion == u.credVersion + (if (e.ResetPassword? || e.ResetPin?) && e.id == id then 1 else 0)
            && (e.ResetPin? && e.id == id ==> v.pin.None?)
            && (forall pin :: StoresPin(s, e, id, pin) ==> v.pin == Some(pin))
            && (!(e.ResetPin? && e.id == id) && !(exists pin :: StoresPin(s, e, id, pin)) ==> v.pin == u.pin)
  {
    hide PinLock.Next, CheckNext, Middleware;
    if e.Check? && CanCheck(s, e.r, e.now) {
      CheckOnly(s, e.r, e.now);
    }
    if e.Store? && CanStore(s, e.r) && s.requests[e.r].p.id == id {
      assert StoresPin(s, e, id, s.requests[e.r].call.pin);
    }
  }

  lemma NewAccount(s: System, e: Event, id: int)
    requires id !in s.db.users
    ensures id in Next(s, e).db.users <==> e.AddUser? && e.id == id
    ensures e.AddUser? && e.id == id ==>
              && Next(s, e).db.users[id] == User(None, e.initial, e.local, 0, e.caps, e.admission)
              && id in Next(s, e).db.locks.accounts && Next(s, e).db.locks.accounts[id] == PinLock.Lock(0, None)
  {
    hide PinLock.Next, CheckNext, Middleware;
    if e.Check? && CanCheck(s, e.r, e.now) {
      CheckOnly(s, e.r, e.now);
    }
  }

  // ----- Sessions and grants

  /** A session starts with a sign-in and ends with a sign-out or the next sign-in of the same caller. */
  lemma SessionAfter(s: System, e: Event, token: string)
    ensures var signsIn := e.Login? && e.now >= s.clock && e.token !in s.db.used && e.id in s.db.users
                           && e.version <= s.db.users[e.id].credVersion;
            && (signsIn && e.token == token ==>
                  && token in Next(s, e).db.sessions && Next(s, e).db.sessions[token].user == e.id
                  && Next(s, e).db.sessions[token].credVersion == e.version)
            && (!(signsIn && e.token == token) ==>
                  && (token in Next(s, e).db.sessions <==>
                        && token in s.db.sessions && !(e.Logout? && e.token == token) && !(signsIn && e.old_ == token))
                  && (token in Next(s, e).db.sessions ==> Next(s, e).db.sessions[token] == s.db.sessions[token]))
            && Next(s, e).db.used == s.db.used + if signsIn then {e.token} else {}
  {
    hide PinLock.Next, CheckNext, Middleware;
    if e.Check? && CanCheck(s, e.r, e.now) {
      CheckOnly(s, e.r, e.now);
    }
  }

  /** The request is where it may open sudo: its PIN stored, or its startSudo checked. */
  ghost predicate Opens(s: System, e: Event) {
    && e.GrantSudo? && e.now >= s.clock && e.r < |s.requests|
    && (s.requests[e.r].stage == Stored || (s.requests[e.r].stage == Checked && s.requests[e.r].call.StartsSudo?))
  }

  ghost predicate Closes(s: System, e: Event) {
    e.EndSudo? && e.r < |s.requests| && s.requests[e.r].stage == Begun && s.requests[e.r].call.EndsSudo?
  }

  /** Sudo of a session is opened by its requests for five minutes, and closed by them; nothing else touches it. */
  lemma SudoAfter(s: System, e: Event, token: string, id: int, later: int)
    requires e.GrantSudo? ==> later >= e.now
    ensures var before, after := SudoUntil(s.db, token, id, later), SudoUntil(Next(s, e).db, token, id, later);
            if Opens(s, e) && s.requests[e.r].p.token == token then
              after == if s.requests[e.r].p.id == id && later < e.now + 5 * 60 * 1000 then Some(e.now + 5 * 60 * 1000)
                  else None
            else if Closes(s, e) && s.requests[e.r].p.token == token then after.None?
            else after == before
  {
    hide PinLock.Next, CheckNext, Middleware;
    if e.Check? && CanCheck(s, e.r, e.now) {
      CheckOnly(s, e.r, e.now);
    }
  }

  // ----- Requests

  /** How far a request is after an event: one step on, when the event is its step and is in time. */
  ghost function StageOf(s: System, e: Event, r: nat): Stage
    requires r < |s.requests|
  {
    var q := s.requests[r];
    match e
    case Check(k, now) =>
      if k == r && q.stage == Begun && now >= s.clock && (q.call.SetsPin? || q.call.StartsSudo?)
      then (if Checks(s, r, now).1 then Checked else Done) else q.stage
    case Store(k) => if k == r && q.stage == Checked && q.call.SetsPin? then Stored else q.stage
    case GrantSudo(k, _) => if k == r && Opens(s, e) then Done else q.stage
    case EndSudo(k) => if k == r && Closes(s, e) then Done else q.stage
    case Act(k, now) => if k == r && q.stage == Begun && now >= s.clock && q.call.Acts? then Done else q.stage
    case _ => q.stage
  }

  lemma RequestAfter(s: System, e: Event, r: nat)
    requires r < |s.requests|
    ensures r < |Next(s, e).requests|
    ensures Next(s, e).requests[r] == Request(s.requests[r].p, s.requests[r].call, StageOf(s, e, r))
  {
    hide Checks, Middleware, GrantNext, StorePin, ResetPinNext, LoginNext;
  }

  /** The clock is at the last time read by a sign-in, a request coming in, a check, a grant or an act in time. */
  lemma TimeAfter(s: System, e: Event)
    ensures Next(s, e).clock ==
              match e
              case Login(_, _, _, _, now, _) => if SignsIn(s, e) then now else s.clock
              case Begin(_, _, now, _) => if now >= s.clock then now else s.clock
              case Check(r, now) => if StageOpen(s, r, now) && !s.requests[r].call.Acts? then now else s.clock
              case Act(r, now) => if StageOpen(s, r, now) && s.requests[r].call.Acts? then now else s.clock
              case GrantSudo(_, now) => if Opens(s, e) then now else s.clock
              case _ => s.clock
  {
    hide Checks, Middleware, GrantNext, StorePin, ResetPinNext, LoginNext;
  }

  /** The request has only come in, it is not an endSudo, and the time is not in the past. */
  ghost predicate StageOpen(s: System, r: nat, now: int) {
    r < |s.requests| && s.requests[r].stage == Begun && !s.requests[r].call.EndsSudo? && now >= s.clock
  }

  /** A request comes in when its session has a caller, with what the middleware reads of it. */
  lemma NewRequest(s: System, e: Event)
    ensures var comes := e.Begin? && e.now >= s.clock && Middleware(s.db, e.token, e.ip, e.now).Some?;
            && |Next(s, e).requests| == |s.requests| + (if comes then 1 else 0)
            && (comes ==> Next(s, e).requests[|s.requests|] ==
                            Request(Middleware(s.db, e.token, e.ip, e.now).value, e.call, Begun))
  {
    hide Checks, Middleware, GrantNext, StorePin, ResetPinNext, LoginNext;
  }
}
