/**
 Accounts, sessions, sudo grants and the handlers that use them (internal/auth/auth.go and http.go,
 internal/store/sessions.go and users.go, internal/api/guard.go and sudo.go).

 A handler works on the caller as the middleware read it; only a secret check reads the account again.
 */
module Sessions {
  import opened Common
  import PinLock

  datatype Capability =
    | ViewSelf | ViewAll | ManageDevices | ManagePolicy | ManageUsers | ManageKeys | ViewAudit | ManageOwners
    | ManageSSH

  datatype Role = Owner | Admin | NetworkAdmin | Auditor | Member

  /** What each role may do. */
  function CapsOf(role: Role): set<Capability> {
    match role
    case Owner =>
      {ViewSelf, ViewAll, ManageDevices, ManagePolicy, ManageUsers, ManageKeys, ViewAudit, ManageOwners, ManageSSH}
    case Admin => {ViewSelf, ViewAll, ManageDevices, ManagePolicy, ManageUsers, ManageKeys, ViewAudit, ManageSSH}
    case NetworkAdmin => {ViewSelf, ViewAll, ManageDevices, ManagePolicy, ViewAudit}
    case Auditor => {ViewSelf, ViewAll, ViewAudit}
    case Member => {ViewSelf}
  }

  datatype Admission = Pending | Active | Rejected

  /** Hashes are injective here: a secret matches when it is the one that was stored. */
  datatype User = User(
    pin: Option<string>, password: Option<string>, local: bool, credVersion: nat, caps: set<Capability>,
    admission: Admission)

  datatype Session = Session(user: int, credVersion: nat, reauthAt: Option<int>)

  datatype Grant = Grant(user: int, until: int)

  /** `used` are the tokens ever handed out; a new one is random and not among them. */
  datatype State = State(
    users: map<int, User>, locks: PinLock.State, sessions: map<string, Session>, grants: map<string, Grant>,
    used: set<string>)

  /** The caller, as the middleware read it when the request came in. */
  datatype Principal = Principal(
    id: int, user: User, token: string, ip: string, sudoUntil: Option<int>, reauthAt: Option<int>)

  /** Five minutes, in milliseconds. */
  const SUDO_WINDOW := 300_000
  const REAUTH_WINDOW := 300_000

  // ----- Who is calling

  predicate NeedsPin(caps: set<Capability>) {
    exists c <- {ManageDevices, ManagePolicy, ManageUsers, ManageKeys, ManageSSH, ManageOwners} :: c in caps
  }

  /** CurrentUser: the account of a live session whose credential version is still the account's. */
  function CurrentUser(s: State, token: string): (r: Option<int>)
    ensures r.Some? ==> r.value in s.users && token in s.sessions && s.sessions[token].user == r.value
  {
    if token !in s.sessions then None
    else
      var x := s.sessions[token];
      if x.user !in s.users || s.users[x.user].credVersion != x.credVersion then None else Some(x.user)
  }

  /** When the session's sudo ends, if it is on for this account. */
  function SudoUntil(s: State, token: string, user: int, now: int): (until: Option<int>)
    ensures until.Some? ==> until.value > now
  {
    if token in s.grants && s.grants[token].user == user && s.grants[token].until > now
    then Some(s.grants[token].until) else None
  }

  function Middleware(s: State, token: string, ip: string, now: int): Option<Principal> {
    match CurrentUser(s, token)
    case None => None
    case Some(id) =>
      Some(Principal(id, s.users[id], token, ip, SudoUntil(s, token, id, now), s.sessions[token].reauthAt))
  }

  predicate CheckSudo(p: Principal, now: int) {
    !NeedsPin(p.user.caps) || (p.sudoUntil.Some? && p.sudoUntil.value > now)
  }

  /** require: admitted, PIN set where one is needed, and allowed. */
  predicate Require(p: Principal, cap: Capability) {
    p.user.admission == Active && !(NeedsPin(p.user.caps) && p.user.pin.None?) && cap in p.user.caps
  }

  predicate RequireSudo(p: Principal, cap: Capability, now: int) {
    Require(p, cap) && CheckSudo(p, now)
  }

  /** The gate of an administrator's handler. */
  predicate Allowed(p: Option<Principal>, cap: Capability, now: int) {
    p.Some? && RequireSudo(p.value, cap, now)
  }

  /** Whoever can do more than look needs a PIN. */
  lemma NeedsPinMeans(caps: set<Capability>)
    ensures NeedsPin(caps) <==> !(caps <= {ViewSelf, ViewAll, ViewAudit})
  {
    if c :| c in caps && c !in {ViewSelf, ViewAll, ViewAudit} {
      match c {
        case ViewSelf => assert false;
        case ViewAll => assert false;
        case ViewAudit => assert false;
        case _ => assert c in {ManageDevices, ManagePolicy, ManageUsers, ManageKeys, ManageSSH, ManageOwners};
      }
    }
  }

  /** Past the gate: admitted, holding the capability, and, beyond looking, with a PIN set and sudo on. */
  lemma AllowedMeans(p: Option<Principal>, cap: Capability, now: int)
    ensures Allowed(p, cap, now) <==>
              && p.Some? && p.value.user.admission == Active && cap in p.value.user.caps
              && (p.value.user.caps <= {ViewSelf, ViewAll, ViewAudit}
                  || (p.value.user.pin.Some? && p.value.sudoUntil.Some? && p.value.sudoUntil.value > now))
  {
    if p.Some? {
      NeedsPinMeans(p.value.user.caps);
    }
  }

  /** Each role may do what the next one may; only the first two reach keys and people, and the last two need no PIN. */
  lemma RolesMean(role: Role)
    ensures CapsOf(Member) < CapsOf(Auditor) < CapsOf(NetworkAdmin) < CapsOf(Admin) < CapsOf(Owner)
    ensures ManageSSH in CapsOf(role) <==> role.Owner? || role.Admin?
    ensures ManageUsers in CapsOf(role) <==> role.Owner? || role.Admin?
    ensures ManagePolicy in CapsOf(role) <==> !(role.Auditor? || role.Member?)
    ensures CapsOf(role) <= {ViewSelf, ViewAll, ViewAudit} <==> role.Auditor? || role.Member?
    ensures forall c :: c in CapsOf(Owner)
    ensures CapsOf(Owner) - CapsOf(Admin) == {ManageOwners}
  {
    forall c: Capability ensures c in CapsOf(Owner) {
      assert c.ViewSelf? || c.ViewAll? || c.ManageDevices? || c.ManagePolicy? || c.ManageUsers? || c.ManageKeys?
          || c.ViewAudit? || c.ManageOwners? || c.ManageSSH?;
    }
    assert ViewAll !in CapsOf(Member) && ManagePolicy !in CapsOf(Auditor) && ManageUsers !in CapsOf(NetworkAdmin);
    assert ManagePolicy in CapsOf(NetworkAdmin) && ManagePolicy in CapsOf(Admin) && ManagePolicy in CapsOf(Owner);
  }

  predicate ReauthFresh(p: Principal, now: int) {
    p.reauthAt.Some? && now - p.reauthAt.value < REAUTH_WINDOW
  }

  // ----- PINs

  predicate Digits(pin: string) {
    forall i :: 0 <= i < |pin| ==> '0' <= pin[i] <= '9'
  }

  /** All digits equal, or each digit one above, or one below, the digit before it. */
  predicate WeakPin(pin: string) {
    || (forall i :: 0 < i < |pin| ==> pin[i] == pin[i - 1])
    || (forall i :: 0 < i < |pin| ==> pin[i] as int == pin[i - 1] as int + 1)
    || (forall i :: 0 < i < |pin| ==> pin[i] as int == pin[i - 1] as int - 1)
  }

  predicate ValidPin(pin: string) {
    |pin| == 6 && Digits(pin) && !WeakPin(pin)
  }

  method Weak(pin: string) returns (weak: bool)
    ensures weak <==> WeakPin(pin)
  {
    var same, up, down := true, true, true;
    var i := 1;
    while i < |pin|
      invariant 1 <= i && (i <= |pin| || i == 1)
      invariant same <==> forall k :: 0 < k < i ==> pin[k] == pin[k - 1]
      invariant up <==> forall k :: 0 < k < i ==> pin[k] as int == pin[k - 1] as int + 1
      invariant down <==> forall k :: 0 < k < i ==> pin[k] as int == pin[k - 1] as int - 1
    {
      var d := pin[i] as int - pin[i - 1] as int;
      same := same && d == 0;
      up := up && d == 1;
      down := down && d == -1;
      i := i + 1;
    }
    weak := same || up || down;
  }

  // ----- What is stored

  /** The sign-in's own token is new, and the account version is one it has read. */
  predicate CanLogin(s: State, token: string, user: int, version: nat) {
    token !in s.used && user in s.users && version <= s.users[user].credVersion
  }

  /** RenewToken and Put: the caller's old session goes, the new one holds the version that was read. */
  function LoginNext(
    s: State, old_: string, token: string, user: int, version: nat, now: int, reauth: bool): State
  {
    s.(sessions := (s.sessions - {old_})[token := Session(user, version, if reauth then Some(now - now % 1000)
        else None)],
       used := s.used + {token})
  }

  /** GrantSudo: expired grants go, the session's grant is set. */
  function GrantNext(s: State, token: string, user: int, now: int): State {
    var live := map t <- s.grants | s.grants[t].until > now :: s.grants[t];
    s.(grants := live[token := Grant(user, now + SUDO_WINDOW)])
  }

  /** SetPin is one unconditional update of the row. */
  function StorePin(s: State, user: int, pin: string): State {
    if user !in s.users then s
    else
      s.(users := s.users[user := s.users[user].(pin := Some(pin))],
         locks := PinLock.Next(s.locks, PinLock.SetPin(user)))
  }

  /** ResetPin: no PIN, no lock, and every session of the account out of date. */
  function ResetPinNext(s: State, user: int): State {
    if user !in s.users then s
    else
      var u := s.users[user];
      s.(users := s.users[user := u.(pin := None, credVersion := u.credVersion + 1)],
         locks := PinLock.Next(s.locks, PinLock.ResetPin(user)))
  }

  /**
   A sign-in ends the caller's old session and starts one that stands for the account exactly while the version
   it read is current; no other session changes, and the token is never handed out again.
   */
  lemma SignInMeans(s: State, old_: string, token: string, user: int, version: nat, now: int, reauth: bool)
    requires CanLogin(s, token, user, version)
    ensures var t := LoginNext(s, old_, token, user, version, now, reauth);
            && token !in s.used && token in t.used && s.used <= t.used
            && (old_ != token ==> CurrentUser(t, old_).None?)
            && (CurrentUser(t, token) == if s.users[user].credVersion == version then Some(user) else None)
            && (forall other :: other != old_ && other != token ==> CurrentUser(t, other) == CurrentUser(s, other))
            && (match t.sessions[token].reauthAt
                case None => !reauth
                case Some(at) => reauth && now - 1000 < at <= now)
            && t == s.(sessions := t.sessions, used := t.used)
  {
  }

  /** Sudo is on for the session for five minutes; every other session has the sudo it had. */
  lemma GrantMeans(s: State, token: string, user: int, now: int, later: int)
    requires later >= now
    ensures var t := GrantNext(s, token, user, now);
            && (SudoUntil(t, token, user, later) ==
                  if later < now + 5 * 60 * 1000 then Some(now + 5 * 60 * 1000) else None)
            && (forall other, id :: other != token ==> SudoUntil(t, other, id, later) == SudoUntil(s, other, id, later))
            && (forall id :: id != user ==> SudoUntil(t, token, id, later).None?)
            && t == s.(grants := t.grants)
  {
  }

  /** A PIN is stored without a lock; the account is otherwise as it was, and so are the others. */
  lemma StoreMeans(s: State, user: int, pin: string)
    requires user in s.users && user in s.locks.accounts
    ensures var t := StorePin(s, user, pin);
            && t.users == s.users[user := s.users[user].(pin := Some(pin))]
            && t.locks.accounts == s.locks.accounts[user := PinLock.Lock(0, None)] && t.locks.seen == s.locks.seen
            && t == s.(users := t.users, locks := t.locks)
  {
  }

  /** A reset takes the PIN, the lock and every session of the account, and nothing of the others. */
  lemma ResetMeans(s: State, user: int)
    requires user in s.users && user in s.locks.accounts
    requires forall k :: k in s.sessions && s.sessions[k].user == user ==>
               s.sessions[k].credVersion <= s.users[user].credVersion
    ensures var t := ResetPinNext(s, user);
            && user in t.users && t.users[user].pin.None?
            && t.users[user] == s.users[user].(pin := None, credVersion := t.users[user].credVersion)
            && t.locks.accounts == s.locks.accounts[user := PinLock.Lock(0, None)] && t.locks.seen == s.locks.seen
            && (forall k :: CurrentUser(t, k) == if CurrentUser(s, k) == Some(user) then None else CurrentUser(s, k))
            && (forall id :: id in s.users && id != user ==> id in t.users && t.users[id] == s.users[id])
            && t.users.Keys == s.users.Keys && t == s.(users := t.users, locks := t.locks)
  {
  }

  // ----- The handlers' checks

  /** One secret check for an account, with its locks. */
  function Attempt(s: State, user: int, ip: string, now: int, right: bool): (State, bool) {
    if user !in s.locks.accounts then (s, false)
    else
      var (locks, out) := PinLock.Check(s.locks, user, ip, now, right);
      (s.(locks := locks), out == PinLock.Passed)
  }

  /** The account as it is now has this PIN, or this password. */
  predicate PinIs(s: State, user: int, pin: string) {
    user in s.users && s.users[user].pin == Some(pin)
  }

  predicate PasswordIs(s: State, user: int, password: string) {
    user in s.users && s.users[user].password == Some(password)
  }

  /** Whether the caller of setPin has proved who they are, and what the proof did to the locks. */
  function Proved(s: State, p: Principal, now: int, password: string): (State, bool) {
    if p.user.pin.Some? then (s, CheckSudo(p, now))
    else if p.user.local then Attempt(s, p.id, p.ip, now, PasswordIs(s, p.id, password))
    else (s, ReauthFresh(p, now))
  }

  /** setPin up to the hashing of the new PIN. */
  function CheckSetPin(s: State, p: Principal, now: int, pin: string, password: string): (State, bool) {
    if p.user.admission != Active || !NeedsPin(p.user.caps) then (s, false)
    else
      var (t, proved) := Proved(s, p, now, password);
      (t, proved && ValidPin(pin))
  }

  /** startSudo up to the grant. */
  function CheckStartSudo(s: State, p: Principal, now: int, pin: string): (State, bool) {
    if p.user.admission != Active || p.user.pin.None? then (s, false)
    else Attempt(s, p.id, p.ip, now, PinIs(s, p.id, pin))
  }

  /**
   Who may set a PIN: an admitted account that needs one, with a PIN that is not weak, and either sudo on,
   or, for a first PIN, the account's password past its locks, or a sign-in less than five minutes old.
   */
  lemma SetPinMeans(s: State, p: Principal, now: int, pin: string, password: string)
    ensures CheckSetPin(s, p, now, pin, password).1 <==>
              && p.user.admission == Active && !(p.user.caps <= {ViewSelf, ViewAll, ViewAudit})
              && |pin| == 6 && (forall i :: 0 <= i < 6 ==> '0' <= pin[i] <= '9') && !WeakPin(pin)
              && if p.user.pin.Some? then p.sudoUntil.Some? && p.sudoUntil.value > now
                 else if p.user.local then
                   && p.id in s.users && s.users[p.id].password == Some(password) && p.id in s.locks.accounts
                   && PinLock.Check(s.locks, p.id, p.ip, now, true).1 == PinLock.Passed
                 else p.reauthAt.Some? && now - p.reauthAt.value < 5 * 60 * 1000
    ensures var t := CheckSetPin(s, p, now, pin, password).0; t == s.(locks := t.locks)
  {
    hide PinLock.Keep, PinLock.Recent;
    NeedsPinMeans(p.user.caps);
  }

  /** Sudo opens exactly for an admitted account that sends the PIN it has now, past both locks. */
  lemma StartSudoMeans(s: State, p: Principal, now: int, pin: string)
    ensures CheckStartSudo(s, p, now, pin).1 <==>
              && p.user.admission == Active && p.user.pin.Some?
              && p.id in s.users && s.users[p.id].pin == Some(pin) && p.id in s.locks.accounts
              && PinLock.Check(s.locks, p.id, p.ip, now, true).1 == PinLock.Passed
  {
    hide PinLock.Keep, PinLock.Recent;
  }

  lemma {:induction false} StepsFrom(pin: string, step: int, i: nat)
    requires i < |pin| && forall k :: 0 < k < |pin| ==> pin[k] as int == pin[k - 1] as int + step
    ensures pin[i] as int == pin[0] as int + i * step
    decreases i
  {
    if i > 0 {
      StepsFrom(pin, step, i - 1);
      assert i * step == (i - 1) * step + step;
    }
  }

  lemma Steps(pin: string, step: int)
    ensures (forall k :: 0 < k < |pin| ==> pin[k] as int == pin[k - 1] as int + step) <==>
            forall i :: 0 <= i < |pin| ==> pin[i] as int == pin[0] as int + i * step
  {
    if forall k :: 0 < k < |pin| ==> pin[k] as int == pin[k - 1] as int + step {
      forall i | 0 <= i < |pin| ensures pin[i] as int == pin[0] as int + i * step {
        StepsFrom(pin, step, i);
      }
    }
    if forall i :: 0 <= i < |pin| ==> pin[i] as int == pin[0] as int + i * step {
      forall k | 0 < k < |pin| ensures pin[k] as int == pin[k - 1] as int + step {
        assert pin[k - 1] as int == pin[0] as int + (k - 1) * step;
        assert k * step == (k - 1) * step + step;
      }
    }
  }

  /** Counted from its first digit, a weak PIN stays, rises by one at each place, or falls by one at each. */
  lemma WeakMeans(pin: string)
    ensures WeakPin(pin) <==>
              || (forall i :: 0 <= i < |pin| ==> pin[i] as int == pin[0] as int + i * 0)
              || (forall i :: 0 <= i < |pin| ==> pin[i] as int == pin[0] as int + i * 1)
              || (forall i :: 0 <= i < |pin| ==> pin[i] as int == pin[0] as int + i * -1)
  {
    Steps(pin, 0);
    Steps(pin, 1);
    Steps(pin, -1);
  }

  // ----- The program

  class Server {
    var users: map<int, User>
    var sessions: map<string, Session>
    var grants: map<string, Grant>
    var used: set<string>
    const lockTable: PinLock.Users
    const byIP: PinLock.IpFailures

    ghost function S(): State
      reads this, lockTable, byIP
    {
      State(users, PinLock.State(lockTable.accounts, byIP.seen), sessions, grants, used)
    }

    constructor (lockTable: PinLock.Users, byIP: PinLock.IpFailures)
      ensures this.lockTable == lockTable && this.byIP == byIP
      ensures users == map[] && sessions == map[] && grants == map[] && used == {}
    {
      this.lockTable, this.byIP := lockTable, byIP;
      users, sessions, grants, used := map[], map[], map[], {};
    }

    method GrantSudo(token: string, user: int, now: int)
      modifies this
      ensures S() == GrantNext(old(S()), token, user, now)
    {
      grants := map t <- grants | grants[t].until > now :: grants[t];
      grants := grants[token := Grant(user, now + SUDO_WINDOW)];
    }

    /** startSudo, with the caller as it was read. */
    method StartSudo(p: Principal, now: int, pin: string) returns (ok: bool)
      requires users.Keys == lockTable.accounts.Keys
      modifies this, lockTable, byIP
      ensures ok == CheckStartSudo(old(S()), p, now, pin).1
      ensures var t := CheckStartSudo(old(S()), p, now, pin).0;
              S() == if ok then GrantNext(t, p.token, p.id, now) else t
    {
      hide PinLock.Check, GrantNext;
      if p.user.admission != Active || p.user.pin.None? {
        return false;
      }
      if p.id !in users {
        return false;
      }
      var out := PinLock.CheckSecret(lockTable, byIP, p.id, p.ip, now, users[p.id].pin == Some(pin));
      if out != PinLock.Passed {
        return false;
      }
      GrantSudo(p.token, p.id, now);
      return true;
    }

    /** setPin, with the caller as it was read. */
    method SetPin(p: Principal, now: int, pin: string, password: string) returns (ok: bool)
      requires users.Keys == lockTable.accounts.Keys && p.id in users
      modifies this, lockTable, byIP
      ensures ok == CheckSetPin(old(S()), p, now, pin, password).1
      ensures var t := CheckSetPin(old(S()), p, now, pin, password).0;
              S() == if ok then GrantNext(StorePin(t, p.id, pin), p.token, p.id, now) else t
    {
      hide PinLock.Check, GrantNext, NeedsPin, WeakPin;
      if p.user.admission != Active || !NeedsPin(p.user.caps) {
        return false;
      }
      if p.user.pin.Some? {
        if NeedsPin(p.user.caps) && !(p.sudoUntil.Some? && p.sudoUntil.value > now) {
          return false;
        }
      } else if p.user.local {
        var right := users[p.id].password == Some(password);
        var out := PinLock.CheckSecret(lockTable, byIP, p.id, p.ip, now, right);
        CheckKeeps(old(S()).locks, p.id, p.ip, now, right);
        if out != PinLock.Passed {
          return false;
        }
      } else if p.reauthAt.None? || now - p.reauthAt.value >= REAUTH_WINDOW {
        return false;
      }
      if |pin| != 6 || !Digits(pin) {
        return false;
      }
      var weak := Weak(pin);
      if weak {
        return false;
      }
      users := users[p.id := users[p.id].(pin := Some(pin))];
      lockTable.ResetPinFailures(p.id);
      GrantSudo(p.token, p.id, now);
      return true;
    }
  }

  lemma CheckKeeps(locks: PinLock.State, user: int, ip: string, now: int, right: bool)
    requires user in locks.accounts
    ensures PinLock.Check(locks, user, ip, now, right).0.accounts.Keys == locks.accounts.Keys
  {
    hide PinLock.Recent, PinLock.Keep;
  }
}
