/** Counting wrong PINs and passwords (internal/api/sudo.go, internal/store/users.go). Times are in milliseconds. */
module PinLock {
  import opened Common
  import opened Sequences

  const PIN_MAX_FAILURES := 5
  const PIN_LOCK := 900_000
  const IP_MAX_FAILURES := 20
  const IP_WINDOW := 900_000

  /** The two columns of an account. */
  datatype Lock = Lock(failures: nat, until: Option<int>)

  /** What is checked: the PIN, or the password when a first PIN is set. Both count alike. */
  datatype Kind = Pin | Password

  datatype Outcome = Locked(until: int) | Blocked | Passed | Wrong(left: int)

  datatype State = State(accounts: map<int, Lock>, seen: map<string, seq<int>>)

  datatype Event =
    | Try(user: int, ip: string, now: int, kind: Kind, right: bool)
    | SetPin(user: int)
    | ResetPin(user: int)
    | Open(user: int)

  // ----- The account

  function Failed(a: Lock, now: int): Lock {
    Lock(a.failures + 1, if a.failures + 1 >= PIN_MAX_FAILURES then Some(now + PIN_LOCK) else a.until)
  }

  const UNLOCKED := Lock(0, None)

  predicate IsLocked(a: Lock, now: int) {
    a.until.Some? && a.until.value > now
  }

  // ----- The address window

  /** The entries still inside the window, in order. */
  function Recent(times: seq<int>, now: int): seq<int> {
    if times == [] then []
    else Recent(times[..|times| - 1], now) + if now - times[|times| - 1] < IP_WINDOW then [times[|times| - 1]] else []
  }

  function SeenAt(seen: map<string, seq<int>>, ip: string): seq<int> {
    if ip in seen then seen[ip] else []
  }

  /** An address without entries is forgotten. */
  function Keep(seen: map<string, seq<int>>, ip: string, kept: seq<int>): map<string, seq<int>> {
    if kept == [] then seen - {ip} else seen[ip := kept]
  }

  lemma KeepReads(seen: map<string, seq<int>>, ip: string, kept: seq<int>, more: seq<int>)
    ensures SeenAt(Keep(seen, ip, kept), ip) == kept
    ensures Keep(seen, ip, kept)[ip := more] == seen[ip := more]
    ensures forall other :: other != ip ==> SeenAt(Keep(seen, ip, kept), other) == SeenAt(seen, other)
  {
  }

  /** The compaction, in place: what is kept moves to the front. */
  method Compact(buf: array<int>, len: nat, now: int) returns (kept: nat)
    requires len <= buf.Length
    modifies buf
    ensures kept <= len && buf[..kept] == Recent(old(buf[..len]), now)
    ensures buf[len..] == old(buf[len..])
  {
    kept := 0;
    ghost var was := buf[..len];
    for i := 0 to len
      invariant kept <= i && buf[..kept] == Recent(was[..i], now)
      invariant forall k :: i <= k < buf.Length ==> buf[k] == old(buf[k])
    {
      assert was[..i + 1][..i] == was[..i] && was[i] == buf[i];
      if now - buf[i] < IP_WINDOW {
        ghost var before := buf[..kept];
        buf[kept] := buf[i];
        kept := kept + 1;
        assert buf[..kept] == before + [was[i]];
      } else {
        assert Recent(was[..i], now) + [] == Recent(was[..i], now);
      }
    }
    assert was[..len] == was;
  }

  class IpFailures {
    var seen: map<string, seq<int>>

    constructor ()
      ensures seen == map[]
    {
      seen := map[];
    }

    method RecentOf(ip: string, now: int) returns (kept: seq<int>)
      modifies this
      ensures kept == Recent(SeenAt(old(seen), ip), now) && seen == Keep(old(seen), ip, kept)
    {
      var times := SeenAt(seen, ip);
      kept := [];
      for i := 0 to |times|
        modifies {}
        invariant kept == Recent(times[..i], now)
      {
        assert times[..i + 1][..i] == times[..i];
        if now - times[i] < IP_WINDOW {
          kept := kept + [times[i]];
        }
      }
      assert times[..|times|] == times;
      if kept == [] {
        seen := seen - {ip};
      } else {
        seen := seen[ip := kept];
      }
    }

    method BlockedAt(ip: string, now: int) returns (b: bool)
      modifies this
      ensures b <==> |Recent(SeenAt(old(seen), ip), now)| >= IP_MAX_FAILURES
      ensures seen == Keep(old(seen), ip, Recent(SeenAt(old(seen), ip), now))
    {
      var kept := RecentOf(ip, now);
      b := |kept| >= IP_MAX_FAILURES;
    }

    method Add(ip: string, now: int)
      modifies this
      ensures seen == old(seen)[ip := Recent(SeenAt(old(seen), ip), now) + [now]]
    {
      var kept := RecentOf(ip, now);
      seen := seen[ip := kept + [now]];
    }
  }

  class Users {
    var accounts: map<int, Lock>

    constructor (accounts: map<int, Lock>)
      ensures this.accounts == accounts
    {
      this.accounts := accounts;
    }

    /** One statement: the count, and the lock when the count reaches the limit. */
    method RecordPinFailure(user: int, now: int) returns (n: nat, until: Option<int>)
      requires user in accounts
      modifies this
      ensures accounts == old(accounts)[user := Failed(old(accounts)[user], now)]
      ensures n == accounts[user].failures && until == accounts[user].until
    {
      var a := accounts[user];
      n := a.failures + 1;
      until := if a.failures + 1 >= PIN_MAX_FAILURES then Some(now + PIN_LOCK) else a.until;
      accounts := accounts[user := Lock(n, until)];
    }

    /** SetPin, ResetPin and a correct secret all forget earlier failures. */
    method ResetPinFailures(user: int)
      requires user in accounts
      modifies this
      ensures accounts == old(accounts)[user := UNLOCKED]
    {
      accounts := accounts[user := Lock(0, None)];
    }
  }

  // ----- One check, under the account's lock

  function Check(s: State, user: int, ip: string, now: int, right: bool): (State, Outcome)
    requires user in s.accounts
  {
    var a := s.accounts[user];
    var recent := Recent(SeenAt(s.seen, ip), now);
    if IsLocked(a, now) then (s, Locked(a.until.value))
    else if |recent| >= IP_MAX_FAILURES then (s.(seen := Keep(s.seen, ip, recent)), Blocked)
    else if right then (State(s.accounts[user := UNLOCKED], Keep(s.seen, ip, recent)), Passed)
    else
      var after := Failed(a, now);
      (State(s.accounts[user := after], s.seen[ip := recent + [now]]),
       if after.until.Some? then Locked(after.until.value) else Wrong(PIN_MAX_FAILURES - after.failures))
  }

  method CheckSecret(users: Users, byIP: IpFailures, user: int, ip: string, now: int, right: bool)
      returns (out: Outcome)
    requires user in users.accounts
    modifies users, byIP
    ensures (State(users.accounts, byIP.seen), out) == Check(State(old(users.accounts), old(byIP.seen)), user, ip,
              now, right)
  {
    var a := users.accounts[user];
    if a.until.Some? && a.until.value > now {
      return Locked(a.until.value);
    }
    var blocked := byIP.BlockedAt(ip, now);
    if blocked {
      return Blocked;
    }
    if right {
      users.ResetPinFailures(user);
      return Passed;
    }
    RecentTwice(SeenAt(old(byIP.seen), ip), now, now);
    ghost var recent := Recent(SeenAt(old(byIP.seen), ip), now);
    KeepReads(old(byIP.seen), ip, recent, recent + [now]);
    byIP.Add(ip, now);
    var n, until := users.RecordPinFailure(user, now);
    if until.Some? {
      return Locked(until.value);
    }
    return Wrong(PIN_MAX_FAILURES - n);
  }

  /** Compacting again, now or later, finds the same entries. */
  lemma {:induction false} RecentTwice(times: seq<int>, then_: int, now: int)
    requires then_ <= now
    ensures Recent(Recent(times, then_), now) == Recent(times, now)
  {
    if times != [] {
      var init, t := times[..|times| - 1], times[|times| - 1];
      RecentTwice(init, then_, now);
      if now - t < IP_WINDOW || then_ - t < IP_WINDOW {
        assert (Recent(init, then_) + [t])[..|Recent(init, then_)|] == Recent(init, then_);
      } else {
        assert Recent(init, then_) + [] == Recent(init, then_);
      }
    }
  }

  /**
   What one check does. A standing lock answers before anything is compared, then twenty recent failures of
   the address; a right secret forgets the failures of the account; a wrong one counts, and the answer
   says how many are left before the lock. Other accounts and other addresses are never touched.
   */
  lemma CheckMeans(s: State, user: int, ip: string, now: int, right: bool)
    requires user in s.accounts && LockExact(s)
    ensures var (t, out) := Check(s, user, ip, now, right);
            var a, full := s.accounts[user], |Recent(SeenAt(s.seen, ip), now)| >= 20;
            var standing := a.until.Some? && a.until.value > now;
            && (standing ==> t == s && out == Locked(a.until.value))
            && (out == Blocked <==> !standing && full)
            && (out == Passed <==> !standing && !full && right)
            && (out == Passed ==> t.accounts[user] == Lock(0, None))
            && (!standing && !full && !right ==>
                  && t.accounts[user].failures == a.failures + 1
                  && (if a.failures + 1 < 5 then out == Wrong(5 - (a.failures + 1)) && t.accounts[user].until.None?
                      else out == Locked(now + 15 * 60 * 1000) && t.accounts[user].until == Some(now + 15 * 60 * 1000)))
            && (standing || full ==> t.accounts == s.accounts)
            && (forall u :: u in s.accounts && u != user ==> t.accounts[u] == s.accounts[u])
            && t.accounts.Keys == s.accounts.Keys
            && (forall other :: other != ip ==> SeenAt(t.seen, other) == SeenAt(s.seen, other))
  {
    hide Recent;
  }

  /** Inside the window is what is less than fifteen minutes old. */
  lemma {:induction false} RecentMeans(times: seq<int>, now: int)
    ensures Selects(Recent(times, now), times, t => now - t < 15 * 60 * 1000)
  {
    var young := (t: int) => now - t < 15 * 60 * 1000;
    if times == [] {
      SelectsNone(young);
    } else {
      var init, last := times[..|times| - 1], times[|times| - 1];
      RecentMeans(init, now);
      SelectsSnoc(Recent(init, now), init, last, young);
      assert init + [last] == times;
    }
  }

  // ----- Runs

  function Next(s: State, e: Event): State {
    if e.user !in s.accounts then (if e.Open? then s.(accounts := s.accounts[e.user := UNLOCKED]) else s)
    else
      match e
      case Open(_) => s
      case Try(user, ip, now, _, right) => Check(s, user, ip, now, right).0
      case SetPin(user) => s.(accounts := s.accounts[user := UNLOCKED])
      case ResetPin(user) => s.(accounts := s.accounts[user := UNLOCKED])
  }

  function Play(s: State, events: seq<Event>): State {
    if events == [] then s else Next(Play(s, events[..|events| - 1]), events[|events| - 1])
  }

  /** A secret is compared only when neither the account nor the address is locked. */
  predicate Evaluated(s: State, e: Event) {
    e.Try? && e.user in s.accounts && !IsLocked(s.accounts[e.user], e.now)
        && |Recent(SeenAt(s.seen, e.ip), e.now)| < IP_MAX_FAILURES
  }

  /** The checks read the clock one after another. */
  ghost predicate Monotone(events: seq<Event>) {
    forall i, j :: 0 <= i < j < |events| && events[i].Try? && events[j].Try? ==> events[i].now <= events[j].now
  }

  /** When wrong secrets of one account were compared. */
  function WrongTimes(s: State, events: seq<Event>, user: int): seq<int> {
    if events == [] then []
    else
      var init, e := events[..|events| - 1], events[|events| - 1];
      WrongTimes(s, init, user) + if e.user == user && Evaluated(Play(s, init), e) && !e.right then [e.now] else []
  }

  /** Nothing in the run forgets the failures of the account. */
  ghost predicate NoReset(s: State, events: seq<Event>, user: int) {
    forall i :: 0 <= i < |events| && events[i].user == user ==>
      events[i].Try? && (Evaluated(Play(s, events[..i]), events[i]) ==> !events[i].right)
  }

  lemma NoResetInit(s: State, events: seq<Event>, user: int)
    requires events != [] && NoReset(s, events, user)
    ensures NoReset(s, events[..|events| - 1], user)
  {
    hide Evaluated, Play;
    var init := events[..|events| - 1];
    forall i | 0 <= i < |init| && init[i].user == user
      ensures init[i].Try? && (Evaluated(Play(s, init[..i]), init[i]) ==> !init[i].right)
    {
      assert init[..i] == events[..i] && init[i] == events[i];
    }
  }

  /**
   The count is the number of wrong secrets compared; the lock stands fifteen minutes after the last,
   from the fifth on.
   */
  lemma {:induction false} CountsWrong(s: State, events: seq<Event>, user: int)
    requires user in s.accounts && s.accounts[user] == UNLOCKED && NoReset(s, events, user)
    ensures var t, times := Play(s, events), WrongTimes(s, events, user);
            && user in t.accounts && t.accounts[user].failures == |times|
            && t.accounts[user].until == if |times| >= 5 then Some(times[|times| - 1] + 15 * 60 * 1000)
                else None
  {
    hide Recent, Keep;
    if events != [] {
      var init, e := events[..|events| - 1], events[|events| - 1];
      NoResetInit(s, events, user);
      CountsWrong(s, init, user);
      assert e.user == user ==> e.Try? && (Evaluated(Play(s, init), e) ==> !e.right);
    }
  }

  /** Some check read this time. */
  ghost predicate AtTry(events: seq<Event>, t: int) {
    exists e :: e in events && e.Try? && e.now == t
  }

  lemma AtTrySnoc(events: seq<Event>, e: Event)
    ensures forall t :: AtTry(events, t) ==> AtTry(events + [e], t)
    ensures e.Try? ==> AtTry(events + [e], e.now)
    ensures e.Try? && Before(events, e.now) ==> forall t :: AtTry(events, t) ==> t <= e.now
  {
    assert forall x :: x in events + [e] <==> x in events || x == e;
  }

  /** From the sixth wrong secret on, each waits out the lock of the one before. */
  lemma {:induction false} WrongSpaced(s: State, events: seq<Event>, user: int)
    requires user in s.accounts && s.accounts[user] == UNLOCKED && NoReset(s, events, user) && Monotone(events)
    ensures var times := WrongTimes(s, events, user);
            && (forall i :: 0 < i < |times| ==> times[i - 1] <= times[i])
            && (forall i :: PIN_MAX_FAILURES <= i < |times| ==> times[i] >= times[i - 1] + PIN_LOCK)
            && (forall t :: t in times ==> AtTry(events, t))
  {
    hide Recent, Keep, Check, Play, AtTry, NoReset, Monotone;
    if events != [] {
      var init, e := events[..|events| - 1], events[|events| - 1];
      NoResetInit(s, events, user);
      MonotoneInit(events);
      WrongSpaced(s, init, user);
      CountsWrong(s, init, user);
      assert events == init + [e];
      AtTrySnoc(init, e);
      var times := WrongTimes(s, init, user);
      if times != [] {
        assert times[|times| - 1] in times;
      }
    }
  }

  lemma {:induction false} SpacedBy(times: seq<int>, p: nat, q: nat)
    requires PIN_MAX_FAILURES - 1 <= p <= q < |times|
    requires forall i :: PIN_MAX_FAILURES <= i < |times| ==> times[i] >= times[i - 1] + PIN_LOCK
    ensures times[q] - times[p] >= (q - p) * PIN_LOCK
    decreases q
  {
    if p < q {
      SpacedBy(times, p, q - 1);
    }
  }

  lemma {:induction false} Rising(times: seq<int>, p: nat, q: nat)
    requires p <= q < |times| && forall i :: 0 < i < |times| ==> times[i - 1] <= times[i]
    ensures times[p] <= times[q]
    decreases q
  {
    if p < q {
      Rising(times, p, q - 1);
    }
  }

  /**
   Guessing: after a reset, with the account's failures not forgotten in between, any stretch of
   the run that lasts T compares at most 5 + T / 15 min wrong secrets, whatever the addresses,
   browsers and kinds of check.
   */
  lemma GuessBound(s: State, events: seq<Event>, user: int, p: nat, q: nat)
    requires user in s.accounts && s.accounts[user] == UNLOCKED && NoReset(s, events, user) && Monotone(events)
    requires p <= q < |WrongTimes(s, events, user)|
    ensures var times := WrongTimes(s, events, user);
            times[q] >= times[p] && q - p + 1 <= 5 + (times[q] - times[p]) / (15 * 60 * 1000)
  {
    hide WrongTimes;
    WrongSpaced(s, events, user);
    var times := WrongTimes(s, events, user);
    Rising(times, p, q);
    var from := if p < PIN_MAX_FAILURES - 1 then PIN_MAX_FAILURES - 1 else p;
    if from <= q {
      SpacedBy(times, from, q);
      Rising(times, p, from);
      Divided(times[q] - times[p], q - from);
    }
  }

  lemma Divided(t: int, n: nat)
    requires t >= n * PIN_LOCK
    ensures t / PIN_LOCK >= n
  {
  }

  /** In every run of every account: a lock is on record exactly when the count has reached five. */
  ghost predicate LockExact(s: State) {
    forall u :: u in s.accounts ==> (s.accounts[u].until.Some? <==> s.accounts[u].failures >= 5)
  }

  lemma {:induction false} LockedExactly(s: State, events: seq<Event>)
    requires LockExact(s)
    ensures LockExact(Play(s, events))
  {
    hide Recent, Keep;
    if events != [] {
      LockedExactly(s, events[..|events| - 1]);
    }
  }

  // ----- The sliding window

  /** When failures were recorded against an address. */
  function RecordedTimes(s: State, events: seq<Event>, ip: string): seq<int> {
    if events == [] then []
    else
      var init, e := events[..|events| - 1], events[|events| - 1];
      RecordedTimes(s, init, ip) + if e.Try? && e.ip == ip && Evaluated(Play(s, init), e) && !e.right then [e.now]
          else []
  }

  /** The clock has not passed `now`. */
  ghost predicate Before(events: seq<Event>, now: int) {
    forall e :: e in events && e.Try? ==> e.now <= now
  }

  lemma MonotoneInit(events: seq<Event>)
    requires events != [] && Monotone(events)
    ensures Monotone(events[..|events| - 1])
    ensures events[|events| - 1].Try? ==> Before(events[..|events| - 1], events[|events| - 1].now)
  {
  }

  /** What is kept for an address is, as far as the window reaches, what was recorded for it. */
  lemma {:induction false} KeptIsRecorded(s: State, events: seq<Event>, ip: string, now: int)
    requires s.seen == map[] && Monotone(events) && Before(events, now)
    ensures Recent(SeenAt(Play(s, events).seen, ip), now) == Recent(RecordedTimes(s, events, ip), now)
  {
    hide Recent;
    RecentNone(now);
    if events != [] {
      var init, e := events[..|events| - 1], events[|events| - 1];
      MonotoneInit(events);
      assert events == init + [e];
      KeptIsRecorded(s, init, ip, now);
      assert e in events;
      var recorded := RecordedTimes(s, init, ip);
      SeenNext(Play(s, init), e, ip, now);
      RecentSnoc(recorded, if e.Try? then e.now else 0, now);
      assert recorded + [] == recorded;
      assert Recent(recorded, now) + [] == Recent(recorded, now);
    }
  }

  /** What one event adds to an address, as far as the window reaches. */
  lemma SeenNext(s: State, e: Event, ip: string, now: int)
    requires e.Try? ==> e.now <= now
    ensures Recent(SeenAt(Next(s, e).seen, ip), now) ==
            Recent(SeenAt(s.seen, ip), now) + if e.Try? && e.ip == ip && Evaluated(s, e) && !e.right
                && now - e.now < IP_WINDOW then [e.now] else []
  {
    hide Recent, Keep;
    var before := Recent(SeenAt(s.seen, ip), now);
    assert before + [] == before;
    if e.Try? && e.user in s.accounts {
      var was := SeenAt(s.seen, e.ip);
      KeepReads(s.seen, e.ip, Recent(was, e.now), Recent(was, e.now) + [e.now]);
      RecentTwice(was, e.now, now);
      RecentSnoc(Recent(was, e.now), e.now, now);
    }
  }

  lemma RecentNone(now: int)
    ensures Recent([], now) == []
  {
  }

  lemma RecentSnoc(times: seq<int>, t: int, now: int)
    ensures Recent(times + [t], now) == Recent(times, now) + if now - t < IP_WINDOW then [t] else []
  {
    assert (times + [t])[..|times|] == times;
  }

  /** The last n entries of a list that are all inside the window are all recent. */
  lemma {:induction false} RecentAtLeast(times: seq<int>, now: int, n: nat)
    requires n <= |times| && forall i :: |times| - n <= i < |times| ==> now - times[i] < IP_WINDOW
    ensures |Recent(times, now)| >= n
    decreases n
  {
    if n > 0 {
      RecentAtLeast(times[..|times| - 1], now, n - 1);
    }
  }

  lemma {:induction false} RecordedInOrder(s: State, events: seq<Event>, ip: string)
    requires Monotone(events)
    ensures var r := RecordedTimes(s, events, ip);
            Ordered(r) && forall t :: t in r ==> AtTry(events, t)
  {
    hide Evaluated, Play, AtTry, Monotone;
    if events != [] {
      var init, e := events[..|events| - 1], events[|events| - 1];
      MonotoneInit(events);
      RecordedInOrder(s, init, ip);
      assert events == init + [e];
      AtTrySnoc(init, e);
      var r := RecordedTimes(s, init, ip);
      forall i | 0 <= i < |r| ensures AtTry(init, r[i]) {
        assert r[i] in r;
      }
    }
  }

  ghost predicate Ordered(r: seq<int>) {
    forall i, j :: 0 <= i < j < |r| ==> r[i] <= r[j]
  }

  ghost predicate Spread(r: seq<int>) {
    forall i :: 0 <= i && i + IP_MAX_FAILURES < |r| ==> r[i + IP_MAX_FAILURES] - r[i] >= IP_WINDOW
  }

  /** With fewer than twenty recent entries, one more keeps the spread. */
  lemma SpreadSnoc(r: seq<int>, now: int)
    requires Ordered(r) && Spread(r) && |Recent(r, now)| < IP_MAX_FAILURES
    ensures Spread(r + [now])
  {
    hide Recent;
    if |r| >= IP_MAX_FAILURES && now - r[|r| - IP_MAX_FAILURES] < IP_WINDOW {
      RecentAtLeast(r, now, IP_MAX_FAILURES);
    }
  }

  /**
   No fifteen-minute window holds more than twenty recorded failures of one address: the
   twenty-first after any failure is at least fifteen minutes later.
   */
  lemma {:induction false} WindowHolds(s: State, events: seq<Event>, ip: string)
    requires s.seen == map[] && Monotone(events)
    ensures Spread(RecordedTimes(s, events, ip))
  {
    hide Recent, Check, Play, Spread, Monotone;
    if events == [] {
      SpreadNone();
    } else {
      var init, e := events[..|events| - 1], events[|events| - 1];
      MonotoneInit(events);
      WindowHolds(s, init, ip);
      var r := RecordedTimes(s, init, ip);
      if e.Try? && e.ip == ip && Evaluated(Play(s, init), e) && !e.right {
        KeptIsRecorded(s, init, ip, e.now);
        RecordedInOrder(s, init, ip);
        SpreadSnoc(r, e.now);
      } else {
        assert r + [] == r;
      }
    }
  }

  lemma SpreadNone()
    ensures Spread([])
  {
  }

  lemma FarApart(s: State, events: seq<Event>, ip: string, p: nat, q: nat)
    requires s.seen == map[] && Monotone(events) && p + 20 <= q < |RecordedTimes(s, events, ip)|
    ensures RecordedTimes(s, events, ip)[q] - RecordedTimes(s, events, ip)[p] >= 15 * 60 * 1000
  {
    hide RecordedTimes;
    WindowHolds(s, events, ip);
    RecordedInOrder(s, events, ip);
    var r := RecordedTimes(s, events, ip);
    assert r[p + IP_MAX_FAILURES] - r[p] >= IP_WINDOW;
  }

  /** The same by windows: any half-open fifteen minutes holds at most twenty. */
  lemma WindowCount(s: State, events: seq<Event>, ip: string, start: int, p: nat, q: nat)
    requires s.seen == map[] && Monotone(events) && p <= q < |RecordedTimes(s, events, ip)|
    requires var r := RecordedTimes(s, events, ip); start <= r[p] && r[q] < start + 15 * 60 * 1000
    ensures q - p + 1 <= 20
  {
    hide *;
    if q - p >= 20 {
      FarApart(s, events, ip, p, q);
    }
  }
}
