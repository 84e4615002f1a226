/**
 The failed-attempt counter of the users table against the history of attempts: what the three
 incrementally updated columns mean in terms of the failures and resets that actually happened.
 */
module AccountLockout {
  import opened Wrappers

  const ATTEMPT_WINDOW_MS: int := 15 * 60 * 1000
  const LOCKOUT_DURATION_MS: int := 15 * 60 * 1000
  const MAX_FAILED_ATTEMPTS: nat := 5

  /** The columns failed_login_attempts, last_failed_attempt_at and locked_until. */
  datatype Counters = Counters(failed: nat, lastFailed: Option<int>, lockedUntil: Option<int>)

  const Cleared := Counters(0, None, None)

  type Pid = nat   // the request that booked an event

  datatype Event = Failure(at: int, who: Pid) | Reset(at: int, who: Pid)

  /** The single UPDATE of `recordFailedAuthAttempt`, also inlined in `login`. */
  function Fail(c: Counters, now: int): Counters {
    var failed := if c.lastFailed.None? || now - c.lastFailed.value > ATTEMPT_WINDOW_MS then 1 else c.failed + 1;
    Counters(failed, Some(now), if failed >= MAX_FAILED_ATTEMPTS then Some(now + LOCKOUT_DURATION_MS) else c.lockedUntil)
  }

  function Step(c: Counters, e: Event): Counters {
    match e
    case Failure(at, _) => Fail(c, at)
    case Reset(_, _) => Cleared
  }

  function Replay(h: seq<Event>): Counters {
    if h == [] then Cleared else Step(Replay(h[..|h| - 1]), h[|h| - 1])
  }

  predicate LockedAt(c: Counters, t: int) {
    c.lockedUntil.Some? && t < c.lockedUntil.value
  }

  // ---------------------------------------------------------------- The same, read off the history alone

  predicate InOrder(h: seq<Event>) {
    forall i, j :: 0 <= i < j < |h| ==> h[i].at <= h[j].at
  }

  /** The events from index `s` on are all failures, each at most 15 minutes after the one before. */
  predicate TightRun(h: seq<Event>, s: nat) {
    && s <= |h|
    && (forall i :: s <= i < |h| ==> h[i].Failure?)
    && (forall i :: s < i < |h| ==> h[i].at - h[i - 1].at <= ATTEMPT_WINDOW_MS)
  }

  /** The events `i-4 .. i` are five failures with gaps of at most 15 minutes, and no reset has come since. */
  predicate Burst(h: seq<Event>, i: nat) {
    && MAX_FAILED_ATTEMPTS - 1 <= i < |h|
    && (forall j :: i - 4 <= j < |h| ==> h[j].Failure?)
    && (forall j :: i - 4 < j <= i ==> h[j].at - h[j - 1].at <= ATTEMPT_WINDOW_MS)
  }

  lemma ReplayLast(h: seq<Event>)
    requires h != []
    ensures Replay(h).lastFailed == if h[|h| - 1].Failure? then Some(h[|h| - 1].at) else None
  {
  }

  /** A tight run reaching back to `s` extends over one more close failure. */
  lemma TightRunSnoc(h: seq<Event>, s: nat)
    requires h != [] && h[|h| - 1].Failure? && s < |h|
    ensures TightRun(h, s) <==>
            (TightRun(h[..|h| - 1], s)
             && (s < |h| - 1 ==> h[|h| - 1].at - h[|h| - 2].at <= ATTEMPT_WINDOW_MS))
  {
    var init := h[..|h| - 1];
    assert forall i :: 0 <= i < |init| ==> init[i] == h[i];
  }

  /** The stored counter is the length of the longest tight run of failures the history ends in. */
  lemma {:induction false} CounterIsLatestRun(h: seq<Event>)
    ensures var k := Replay(h).failed;
            && k <= |h| && TightRun(h, |h| - k)
            && (forall s :: 0 <= s < |h| - k ==> !TightRun(h, s))
    decreases |h|
  {
    if h != [] {
      var init, last := h[..|h| - 1], h[|h| - 1];
      var k := Replay(h).failed;
      CounterIsLatestRun(init);
      if last.Failure? {
        if init != [] {
          ReplayLast(init);
          assert init[|init| - 1] == h[|h| - 2];
        }
        forall s | 0 <= s < |h| ensures TightRun(h, s) <==> s >= |h| - k {
          TightRunSnoc(h, s);
          if s >= |init| - Replay(init).failed { TightRunShrinks(init, |init| - Replay(init).failed, s); }
        }
      }
    }
  }

  lemma TightRunShrinks(h: seq<Event>, s: nat, s': nat)
    requires TightRun(h, s) && s <= s' <= |h|
    ensures TightRun(h, s')
  {
  }

  lemma BurstAtEnd(h: seq<Event>)
    requires h != []
    ensures Burst(h, |h| - 1) <==> |h| >= 5 && TightRun(h, |h| - 5)
  {
  }

  lemma FiveAreABurst(h: seq<Event>)
    requires h != []
    ensures Burst(h, |h| - 1) <==> Replay(h).failed >= MAX_FAILED_ATTEMPTS
  {
    CounterIsLatestRun(h);
    BurstAtEnd(h);
    var k := Replay(h).failed;
    if k >= 5 { TightRunShrinks(h, |h| - k, |h| - 5); }
  }

  lemma OlderBurst(h: seq<Event>, i: nat)
    requires h != [] && i < |h| - 1
    ensures Burst(h, i) <==> h[|h| - 1].Failure? && Burst(h[..|h| - 1], i)
  {
    var init := h[..|h| - 1];
    assert forall j :: 0 <= j < |init| ==> init[j] == h[j];
  }

  /** Some five-failure burst, not reset since, ended less than 15 minutes before `t`. */
  ghost predicate RecentBurst(h: seq<Event>, t: int) {
    exists i: nat :: Burst(h, i) && t < h[i].at + LOCKOUT_DURATION_MS
  }

  /** A burst that ends with the last failure is the one that lasts longest. */
  lemma LastBurstLasts(h: seq<Event>, t: int)
    requires InOrder(h) && h != [] && Burst(h, |h| - 1)
    ensures RecentBurst(h, t) <==> t < h[|h| - 1].at + LOCKOUT_DURATION_MS
  {
    if RecentBurst(h, t) {
      var i: nat :| Burst(h, i) && t < h[i].at + LOCKOUT_DURATION_MS;
      assert h[i].at <= h[|h| - 1].at;
    }
  }

  lemma NoBurstAfterReset(h: seq<Event>, t: int)
    requires h != [] && !h[|h| - 1].Failure?
    ensures !RecentBurst(h, t)
  {
    forall i: nat ensures !Burst(h, i) {
      if i < |h| - 1 { OlderBurst(h, i); }
    }
  }

  lemma OnlyOlderBursts(h: seq<Event>, t: int)
    requires h != [] && h[|h| - 1].Failure? && !Burst(h, |h| - 1)
    ensures RecentBurst(h, t) <==> RecentBurst(h[..|h| - 1], t)
  {
    var init := h[..|h| - 1];
    if RecentBurst(h, t) {
      var i: nat :| Burst(h, i) && t < h[i].at + LOCKOUT_DURATION_MS;
      OlderBurst(h, i);
      assert Burst(init, i) && init[i] == h[i];
    }
    if RecentBurst(init, t) {
      var i: nat :| Burst(init, i) && t < init[i].at + LOCKOUT_DURATION_MS;
      OlderBurst(h, i);
      assert Burst(h, i) && init[i] == h[i];
    }
  }

  /** The account is locked at `t` exactly when such a burst exists. */
  lemma {:induction false} LockedIffRecentBurst(h: seq<Event>, t: int)
    requires InOrder(h)
    ensures LockedAt(Replay(h), t) <==> RecentBurst(h, t)
    decreases |h|
  {
    if h != [] {
      LockedIffRecentBurst(h[..|h| - 1], t);
      FiveAreABurst(h);
      if !h[|h| - 1].Failure? {
        NoBurstAfterReset(h, t);
      } else if Burst(h, |h| - 1) {
        LastBurstLasts(h, t);
      } else {
        OnlyOlderBursts(h, t);
      }
    }
  }

  predicate UpTo(h: seq<Event>, now: int) {
    forall i :: 0 <= i < |h| ==> h[i].at <= now
  }

  lemma HistorySnoc(h: seq<Event>, e: Event)
    requires InOrder(h) && UpTo(h, e.at)
    ensures Replay(h + [e]) == Step(Replay(h), e)
    ensures InOrder(h + [e]) && UpTo(h + [e], e.at)
  {
    assert (h + [e])[..|h + [e]| - 1] == h;
  }

  // ---------------------------------------------------------------- What one request books

  datatype Deed = Failed | Cleared

  function DeedOf(e: Event): Deed {
    if e.Failure? then Deed.Failed else Deed.Cleared
  }

  function DeedsOf(h: seq<Event>): seq<Deed> {
    seq(|h|, i requires 0 <= i < |h| => DeedOf(h[i]))
  }

  /** What request `p` has booked, in order. */
  function Deeds(h: seq<Event>, p: Pid): seq<Deed> {
    if h == [] then [] else Deeds(h[..|h| - 1], p) + (if h[|h| - 1].who == p then [DeedOf(h[|h| - 1])] else [])
  }

  lemma DeedsSnoc(h: seq<Event>, e: Event, p: Pid)
    ensures Deeds(h + [e], p) == Deeds(h, p) + (if e.who == p then [DeedOf(e)] else [])
  {
    assert (h + [e])[..|h|] == h;
  }

  /** Nobody but `p` has booked anything since `h`. */
  predicate Undisturbed(h: seq<Event>, h': seq<Event>, p: Pid) {
    h <= h' && forall i :: |h| <= i < |h'| ==> h'[i].who == p
  }

  lemma {:induction false} UndisturbedDeeds(h: seq<Event>, h': seq<Event>, p: Pid)
    requires Undisturbed(h, h', p)
    ensures Deeds(h', p) == Deeds(h, p) + DeedsOf(h'[|h|..])
    decreases |h'|
  {
    if |h'| == |h| {
      assert h' == h;
    } else {
      var init, e := h'[..|h'| - 1], h'[|h'| - 1];
      UndisturbedDeeds(h, init, p);
      DeedsSnoc(init, e, p);
      assert init + [e] == h';
      assert DeedsOf(h'[|h|..]) == DeedsOf(init[|h|..]) + [DeedOf(e)];
    }
  }

  // ---------------------------------------------------------------- Wrong passwords in a row

  /** A login with a wrong password that nothing disturbs, from an account that is not locked when it arrives. */
  predicate WrongLogin(h: seq<Event>, h': seq<Event>, entry: int) {
    && h <= h' && InOrder(h') && UpTo(h, entry) && !LockedAt(Replay(h), entry)
    && DeedsOf(h'[|h|..]) == (if Replay(h).lockedUntil.Some? then [Deed.Cleared] else []) + [Deed.Failed]
    && h'[|h'| - 1].at >= entry
  }

  /** The failures that one at `at` still adds to: none after an expired lock or a gap of more than 15 minutes. */
  function Carried(h: seq<Event>, at: int): nat {
    var c := Replay(h);
    if c.lockedUntil.Some? || c.lastFailed.None? || at - c.lastFailed.value > 15 * 60 * 1000 then 0 else c.failed
  }

  lemma {:induction false} NoLockMeansUnderFive(h: seq<Event>)
    ensures Replay(h).lockedUntil.None? ==> Replay(h).failed < 5
    ensures Replay(h).lastFailed.None? ==> Replay(h) == Counters(0, None, None)
  {
    if h != [] { NoLockMeansUnderFive(h[..|h| - 1]); }
  }

  lemma OneWrongLogin(h: seq<Event>, h': seq<Event>, entry: int)
    requires WrongLogin(h, h', entry)
    ensures var at := h'[|h'| - 1].at;
            && Replay(h').failed == Carried(h, at) + 1 <= 5 && Replay(h').lastFailed == Some(at)
            && Replay(h').lockedUntil == if Carried(h, at) == 4 then Some(at + 15 * 60 * 1000) else None
  {
    NoLockMeansUnderFive(h);
    var deeds := DeedsOf(h'[|h|..]);
    var last := h'[|h'| - 1];
    assert deeds[|deeds| - 1] == DeedOf(last) && |h'| == |h| + |deeds|;
    if Replay(h).lockedUntil.Some? {
      assert deeds[0] == DeedOf(h'[|h|]) && h'[..|h| + 1] == h + [h'[|h|]];
      assert h'[..|h| + 1][..|h|] == h;
      assert h'[..|h'| - 1] == h'[..|h| + 1];
    } else {
      assert h'[..|h'| - 1] == h;
    }
  }

  /**
   Wrong passwords with gaps of at most 15 minutes between them: each is counted, on top of what the
   first one still added to, and the answer is that the account is locked from exactly the fifth on.
   */
  lemma {:induction false} FifthWrongPasswordLocks(hs: seq<seq<Event>>, entries: seq<int>)
    requires |hs| == |entries| + 1 && entries != []
    requires forall i :: 0 <= i < |entries| ==> WrongLogin(hs[i], hs[i + 1], entries[i])
    requires forall i :: 0 < i < |entries| ==> Latest(hs[i + 1]) - Latest(hs[i]) <= 15 * 60 * 1000
    requires Carried(hs[0], Latest(hs[1])) + |entries| <= 5
    ensures var n, h := |entries|, hs[|entries|];
            && Replay(h).failed == Carried(hs[0], Latest(hs[1])) + n && Replay(h).lastFailed == Some(Latest(h))
            && (Replay(h).lockedUntil.Some? <==> Carried(hs[0], Latest(hs[1])) + n == 5)
            && (RecentBurst(h, entries[n - 1]) <==> Carried(hs[0], Latest(hs[1])) + n == 5)
    decreases |entries|
  {
    var n := |entries|;
    if n > 1 { FifthWrongPasswordLocks(hs[..n], entries[..n - 1]); }
    OneWrongLogin(hs[n - 1], hs[n], entries[n - 1]);
    LockedIffRecentBurst(hs[n], entries[n - 1]);
  }

  /** The time of the last event. */
  function Latest(h: seq<Event>): int {
    if h == [] then 0 else h[|h| - 1].at
  }

  // ---------------------------------------------------------------- The handlers

  datatype Outcome = PinMissing | SuspendedAccount | LockedOut | BadCredentials | Unverified | SecondFactorMissing | Accepted

  /** How the second factor of a login turns out; only a bad backup code counts as a failed attempt. */
  datatype SecondFactor = NotNeeded | Passed | TotpMissing | TotpWrong | BackupCodeWrong

  /**
   The request booked the failure at index `own`, after everything before `start`, and answered
   423 exactly if that history held a burst recent enough at `reference`, or else at the failure.
   */
  ghost predicate Punished(h: seq<Event>, start: nat, own: nat, reference: Option<int>, outcome: Outcome) {
    && start <= own < |h| && h[own].Failure?
    && outcome == (if RecentBurst(h[..own + 1], if reference.Some? then reference.value else h[own].at)
                   then LockedOut else BadCredentials)
  }

  /** What a login books after the lock is dealt with: a failure, the final reset, or nothing. */
  function OwnDeeds(passwordCorrect: bool, verified: bool, second: SecondFactor): seq<Deed> {
    if !passwordCorrect then [Deed.Failed]
    else if !verified then []
    else
      match second
      case BackupCodeWrong => [Deed.Failed]
      case NotNeeded => [Deed.Cleared]
      case Passed => [Deed.Cleared]
      case _ => []
  }

  /** The answer to a right password. */
  ghost predicate LoginAnswer(h: seq<Event>, start: nat, own: nat, verified: bool, second: SecondFactor, outcome: Outcome) {
    if !verified then outcome == Unverified
    else
      match second
      case TotpMissing => outcome == SecondFactorMissing
      case TotpWrong => outcome == BadCredentials
      case BackupCodeWrong => Punished(h, start, own, None, outcome)
      case _ => outcome == Accepted
  }

  class UserAuth {
    var failed: nat
    var lastFailed: Option<int>
    var lockedUntil: Option<int>
    var clock: int
    ghost var history: seq<Event>

    ghost predicate Valid()
      reads this
    {
      && Counters(failed, lastFailed, lockedUntil) == Replay(history)
      && InOrder(history) && UpTo(history, clock)
    }

    /** Whether the history says the account is locked now. */
    ghost predicate Locked()
      reads this
    {
      RecentBurst(history, clock)
    }

    constructor (now: int)
      ensures Valid() && history == [] && clock == now
    {
      failed, lastFailed, lockedUntil, clock, history := 0, None, None, now, [];
    }

    /** UPDATE users SET failed_login_attempts = CASE ... RETURNING failed_login_attempts, locked_until */
    method RecordFailedAuthAttempt(ghost p: Pid) returns (attempts: nat, until: Option<int>)
      requires Valid()
      modifies this`failed, this`lastFailed, this`lockedUntil, this`history
      ensures Valid() && history == old(history) + [Failure(clock, p)]
      ensures Deeds(history, p) == old(Deeds(history, p)) + [Deed.Failed]
      ensures attempts == failed && until == lockedUntil
    {
      HistorySnoc(history, Failure(clock, p));
      DeedsSnoc(history, Failure(clock, p), p);
      var count := if lastFailed.None? || clock - lastFailed.value > ATTEMPT_WINDOW_MS then 1 else failed + 1;
      failed := count;
      lastFailed := Some(clock);
      if count >= MAX_FAILED_ATTEMPTS {
        lockedUntil := Some(clock + LOCKOUT_DURATION_MS);
      }
      history := history + [Failure(clock, p)];
      attempts, until := failed, lockedUntil;
    }

    /** UPDATE users SET failed_login_attempts = 0, locked_until = NULL, last_failed_attempt_at = NULL */
    method ResetCounters(ghost p: Pid)
      requires Valid()
      modifies this`failed, this`lastFailed, this`lockedUntil, this`history
      ensures Valid() && history == old(history) + [Reset(clock, p)]
      ensures Deeds(history, p) == old(Deeds(history, p)) + [Deed.Cleared]
    {
      HistorySnoc(history, Reset(clock, p));
      DeedsSnoc(history, Reset(clock, p), p);
      failed, lastFailed, lockedUntil := 0, None, None;
      history := history + [Reset(clock, p)];
    }

    /** An await: time passes and other requests add events of their own, none of them this one's. */
    method Await(ghost p: Pid)
      requires Valid()
      modifies this
      ensures Valid() && old(history) <= history && old(clock) <= clock && Deeds(history, p) == old(Deeds(history, p))
    {
    }

    /** Reads `locked_until` and compares it with the clock. */
    method IsLocked() returns (locked: bool)
      requires Valid()
      ensures locked <==> Locked()
    {
      LockedIffRecentBurst(history, clock);
      locked := lockedUntil.Some? && clock < lockedUntil.value;
    }

    /** Books one failed attempt; the answer compares the stored lock with `reference`, or with the clock. */
    method Punish(ghost p: Pid, reference: Option<int>) returns (outcome: Outcome, ghost own: nat)
      requires Valid()
      modifies this
      ensures Valid() && old(history) <= history && old(clock) <= clock
      ensures Punished(history, |old(history)|, own, reference, outcome) && own == |history| - 1
      ensures history[own].at >= old(clock)
      ensures Deeds(history, p) == old(Deeds(history, p)) + [Deed.Failed]
    {
      Await(p);
      own := |history|;
      var attempts, until := RecordFailedAuthAttempt(p);
      var now := if reference.Some? then reference.value else clock;
      LockedIffRecentBurst(history, now);
      assert history[..own + 1] == history;
      outcome := if until.Some? && until.value > now then LockedOut else BadCredentials;
    }

    /**
     verifyPIN. A locked account is turned away without leaving a trace; a wrong PIN is booked as a
     failure; only a right PIN resets.
     */
    method VerifyPIN(ghost p: Pid, pinConfigured: bool, pinCorrect: bool) returns (outcome: Outcome, ghost own: nat)
      requires Valid()
      modifies this
      ensures Valid() && old(history) <= history
      ensures old(Locked()) ==> outcome == LockedOut && history == old(history)
      ensures !old(Locked()) && !pinConfigured ==> outcome == PinMissing && history == old(history)
      ensures !old(Locked()) && pinConfigured && pinCorrect ==>
                outcome == Accepted && Deeds(history, p) == old(Deeds(history, p)) + [Deed.Cleared]
      ensures !old(Locked()) && pinConfigured && !pinCorrect ==>
                && Punished(history, |old(history)|, own, None, outcome)
                && Deeds(history, p) == old(Deeds(history, p)) + [Deed.Failed]
    {
      own := 0;
      var locked := IsLocked();
      if locked {
        outcome := LockedOut;
      } else if !pinConfigured {
        outcome := PinMissing;
      } else if !pinCorrect {
        outcome, own := Punish(p, None);
      } else {
        Forgive(p);
        outcome := Accepted;
      }
    }

    method Forgive(ghost p: Pid)
      requires Valid()
      modifies this
      ensures Valid() && old(history) <= history
      ensures Deeds(history, p) == old(Deeds(history, p)) + [Deed.Cleared]
    {
      Await(p);
      ResetCounters(p);
    }

    /** "Lock has expired - reset counters": without a lock nothing happens, and else one reset, later than the check. */
    method ExpireLock(ghost p: Pid)
      requires Valid()
      modifies this
      ensures Valid() && old(history) <= history && old(clock) <= clock
      ensures old(lockedUntil).None? ==> history == old(history) && clock == old(clock)
      ensures Deeds(history, p) == old(Deeds(history, p)) + (if old(lockedUntil).Some? then [Deed.Cleared] else [])
    {
      if lockedUntil.Some? {
        Await(p);
        ResetCounters(p);
      }
    }

    /**
     The lock check, counter and reset parts of login. An expired lock is reset before the
     password is looked at, so a failure right after it starts counting from one again. What the
     request books is that reset, if it found such a lock, and then its own failure or reset.
     */
    method Login(ghost p: Pid, suspended: bool, passwordCorrect: bool, verified: bool, second: SecondFactor)
      returns (outcome: Outcome, ghost own: nat)
      requires Valid()
      modifies this
      ensures Valid() && old(history) <= history
      ensures suspended ==> outcome == SuspendedAccount && history == old(history)
      ensures !suspended && old(Locked()) ==> outcome == LockedOut && history == old(history)
      ensures !suspended && !old(Locked()) ==>
                Deeds(history, p) == old(Deeds(history, p)) + (if old(lockedUntil).Some? then [Deed.Cleared] else [])
                                     + OwnDeeds(passwordCorrect, verified, second)
      ensures !suspended && !old(Locked()) && passwordCorrect ==> LoginAnswer(history, |old(history)|, own, verified, second, outcome)
      ensures !suspended && !old(Locked()) && !passwordCorrect ==>
                Punished(history, |old(history)|, own, Some(old(clock)), outcome)
      ensures !suspended && !old(Locked()) && !passwordCorrect && Undisturbed(old(history), history, p) ==>
                && WrongLogin(old(history), history, old(clock))
                && outcome == if RecentBurst(history, old(clock)) then LockedOut else BadCredentials
    {
      own := 0;
      if suspended {
        return SuspendedAccount, own;
      }
      var now := clock;
      var locked := IsLocked();
      if locked {
        return LockedOut, own;
      }
      if passwordCorrect {
        outcome, own := AfterPassword(p, verified, second);
      } else {
        outcome, own := WrongPassword(p, now);
      }
    }

    /** What follows the lock check when the password is wrong. */
    method WrongPassword(ghost p: Pid, now: int) returns (outcome: Outcome, ghost own: nat)
      requires Valid() && now == clock && !Locked()
      modifies this
      ensures Valid() && old(history) <= history
      ensures Deeds(history, p) == old(Deeds(history, p)) + (if old(lockedUntil).Some? then [Deed.Cleared] else []) + [Deed.Failed]
      ensures Punished(history, |old(history)|, own, Some(now), outcome)
      ensures Undisturbed(old(history), history, p) ==>
                && WrongLogin(old(history), history, now)
                && outcome == if RecentBurst(history, now) then LockedOut else BadCredentials
    {
      LockedIffRecentBurst(history, clock);
      ExpireLock(p);
      outcome, own := Punish(p, Some(now));
      assert history[..own + 1] == history;
      if Undisturbed(old(history), history, p) {
        UndisturbedDeeds(old(history), history, p);
        SameTail(old(Deeds(history, p)), DeedsOf(history[|old(history)|..]),
                 (if old(lockedUntil).Some? then [Deed.Cleared] else []) + [Deed.Failed]);
      }
    }

    lemma SameTail(a: seq<Deed>, b: seq<Deed>, c: seq<Deed>)
      requires a + b == a + c
      ensures b == c
    {
      assert b == (a + b)[|a|..] && c == (a + c)[|a|..];
    }

    /** What follows the lock check when the password is right. */
    method AfterPassword(ghost p: Pid, verified: bool, second: SecondFactor) returns (outcome: Outcome, ghost own: nat)
      requires Valid()
      modifies this
      ensures Valid() && old(history) <= history
      ensures Deeds(history, p) == old(Deeds(history, p)) + (if old(lockedUntil).Some? then [Deed.Cleared] else [])
                                   + OwnDeeds(true, verified, second)
      ensures LoginAnswer(history, |old(history)|, own, verified, second, outcome)
    {
      own := 0;
      ExpireLock(p);
      if !verified {
        outcome := Unverified;
      } else {
        outcome, own := CheckSecondFactor(p, second);
      }
    }

    method CheckSecondFactor(ghost p: Pid, second: SecondFactor) returns (outcome: Outcome, ghost own: nat)
      requires Valid()
      modifies this
      ensures Valid() && old(history) <= history
      ensures Deeds(history, p) == old(Deeds(history, p)) + OwnDeeds(true, true, second)
      ensures LoginAnswer(history, |old(history)|, own, true, second, outcome)
    {
      own := 0;
      match second {
        case BackupCodeWrong => outcome, own := Punish(p, None);
        case TotpMissing => outcome := SecondFactorMissing;
        case TotpWrong => outcome := BadCredentials;
        case _ =>
          Forgive(p);
          outcome := Accepted;
      }
    }
  }
}
