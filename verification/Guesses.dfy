/** Guessing over the requests in flight (internal/api/sudo.go, internal/store/users.go). */
module Guesses {
  import opened Common
  import opened Sessions
  import opened Requests
  import PinLock

  /** The secret check a check of a request makes, if it gets that far. */
  ghost function TryOf(s: System, q: Request, now: int): seq<PinLock.Event> {
    match q.call
    case StartsSudo(pin) =>
      if q.p.user.admission == Active && q.p.user.pin.Some?
      then [PinLock.Try(q.p.id, q.p.ip, now, PinLock.Pin, PinIs(s.db, q.p.id, pin))] else []
    case SetsPin(_, password) =>
      if q.p.user.admission == Active && NeedsPin(q.p.user.caps) && q.p.user.pin.None? && q.p.user.local
      then [PinLock.Try(q.p.id, q.p.ip, now, PinLock.Password, PasswordIs(s.db, q.p.id, password))] else []
    case _ => []
  }

  /** What one event is to the counting of wrong secrets. */
  ghost function Counted(s: System, e: Event): seq<PinLock.Event> {
    match e
    case Check(r, now) => if CanCheck(s, r, now) then TryOf(s, s.requests[r], now) else []
    case Store(r) => if CanStore(s, r) then [PinLock.SetPin(s.requests[r].p.id)] else []
    case ResetPin(id) => [PinLock.ResetPin(id)]
    case AddUser(id, _, _, _, _) => [PinLock.Open(id)]
    case _ => []
  }

  ghost function Tries(s: System, events: seq<Event>): seq<PinLock.Event> {
    if events == [] then []
    else Tries(s, events[..|events| - 1]) + Counted(Play(s, events[..|events| - 1]), events[|events| - 1])
  }

  lemma PlayMore(s: PinLock.State, events: seq<PinLock.Event>, more: seq<PinLock.Event>)
    requires |more| <= 1
    ensures PinLock.Play(s, events + more) ==
              if more == [] then PinLock.Play(s, events) else PinLock.Next(PinLock.Play(s, events), more[0])
  {
    if more == [] {
      assert events + more == events;
    } else {
      assert (events + more)[..|events|] == events;
    }
  }

  lemma CountedStep(s: System, e: Event)
    requires s.db.users.Keys == s.db.locks.accounts.Keys
    ensures |Counted(s, e)| <= 1
    ensures Next(s, e).db.locks ==
              if Counted(s, e) == [] then s.db.locks else PinLock.Next(s.db.locks, Counted(s, e)[0])
  {
    hide PinLock.Check, NeedsPin, ValidPin, Middleware, Checks, TryOf;
    if e.Check? && CanCheck(s, e.r, e.now) {
      TriedOnce(s, e.r, e.now);
      assert Next(s, e).db == Checks(s, e.r, e.now).0;
    }
  }

  lemma TriedOnce(s: System, r: nat, now: int)
    requires r < |s.requests|
    ensures var tries := TryOf(s, s.requests[r], now);
            && |tries| <= 1
            && Checks(s, r, now).0.locks == if tries == [] then s.db.locks else PinLock.Next(s.db.locks, tries[0])
  {
    hide PinLock.Check, NeedsPin, ValidPin;
  }

  /**
   The locks of the accounts are those of the secret checks alone, in the order in which the requests made them:
   whatever happens in between, every check that compares a secret counts, and nothing else does.
   */
  lemma {:induction false} LocksFollow(s: System, events: seq<Event>)
    requires Requests.Sound(s)
    ensures Play(s, events).db.locks == PinLock.Play(s.db.locks, Tries(s, events))
  {
    hide Next, Counted, PinLock.Next, Requests.Sound;
    if events != [] {
      var init, e := events[..|events| - 1], events[|events| - 1];
      LocksFollow(s, init);
      SoundRun(s, init);
      SameAccounts(Play(s, init));
      CountedStep(Play(s, init), e);
      PlayMore(s.db.locks, Tries(s, init), Counted(Play(s, init), e));
    }
  }

  lemma SameAccounts(s: System)
    requires Requests.Sound(s)
    ensures s.db.users.Keys == s.db.locks.accounts.Keys
  {
  }

  lemma CountedNow(s: System, e: Event)
    ensures |Counted(s, e)| <= 1
    ensures forall t :: t in Counted(s, e) && t.Try? ==> s.clock <= t.now && t.now == Next(s, e).clock
  {
    hide Checks, Middleware, NeedsPin;
  }

  lemma {:induction false} TriesInOrder(s: System, events: seq<Event>)
    ensures PinLock.Monotone(Tries(s, events))
    ensures forall t :: t in Tries(s, events) && t.Try? ==> t.now <= Play(s, events).clock
  {
    hide Next, Counted;
    if events != [] {
      var init, e := events[..|events| - 1], events[|events| - 1];
      TriesInOrder(s, init);
      ClockAfter(Play(s, init), e);
      CountedNow(Play(s, init), e);
      var before, more := Tries(s, init), Counted(Play(s, init), e);
      var all := before + more;
      assert forall i :: 0 <= i < |before| ==> all[i] in before;
      assert more != [] ==> all[|before|] in more;
    }
  }

  /**
   Guessing, over every run of requests: while nothing makes the account's failures be forgotten, any stretch
   that lasts T compares at most 5 + T / 15 min wrong secrets of the account, whatever the sessions,
   addresses and kinds of request, and however their steps interleave.
   */
  lemma GuessesBounded(s: System, events: seq<Event>, user: int, p: nat, q: nat)
    requires user in s.db.locks.accounts && s.db.locks.accounts[user] == PinLock.Lock(0, None)
    requires PinLock.NoReset(s.db.locks, Tries(s, events), user)
    requires p <= q < |PinLock.WrongTimes(s.db.locks, Tries(s, events), user)|
    ensures var times := PinLock.WrongTimes(s.db.locks, Tries(s, events), user);
            times[q] >= times[p] && q - p + 1 <= 5 + (times[q] - times[p]) / (15 * 60 * 1000)
  {
    hide PinLock.NoReset, PinLock.WrongTimes, Tries, PinLock.Monotone;
    TriesInOrder(s, events);
    PinLock.GuessBound(s.db.locks, Tries(s, events), user, p, q);
  }
}
