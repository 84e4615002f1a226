/**
 `waitForSorobanTx`: polling a submitted transaction with growing waits until it is final or the
 deadline has passed. Times are in milliseconds; every sleep and every call may take longer than
 asked for.
 */
module SorobanPoll {
  import opened Wrappers

  const FIRST_DELAY: nat := 1000
  const LAST_DELAY: nat := 5000

  datatype Status = Pending | NotFound | Success | Failed

  datatype Outcome = Response(status: Status) | TxTimeout | TryAgainLater

  predicate Final(s: Status) {
    s == Success || s == Failed
  }

  /** Half as long again, up to five seconds; the halves that integer division drops only arise above the cap. */
  function Longer(delay: nat): nat {
    Min(delay * 3 / 2, LAST_DELAY)
  }

  /** The polls that fit in the remaining time if nothing takes longer than asked for. */
  function Polls(remaining: int, delay: nat): nat
    requires delay >= FIRST_DELAY
    decreases if remaining > 0 then remaining else 0
  {
    if remaining <= 0 then 0
    else 1 + Polls(remaining - Min(delay, remaining), Longer(delay))
  }

  /** The wait before poll `k`, counted from 0. */
  function Wait(k: nat): nat {
    if k == 0 then FIRST_DELAY else Longer(Wait(k - 1))
  }

  /** The waits in milliseconds: each half as long again as the one before, and 5 s from the fifth on. */
  lemma {:induction false} WaitsAre(k: nat)
    ensures Wait(k) == if k == 0 then 1000 else if k == 1 then 1500 else if k == 2 then 2250 else if k == 3 then 3375 else 5000
  {
    if k > 0 { WaitsAre(k - 1); }
  }

  lemma {:induction false} PollsAtLastDelay(remaining: nat)
    ensures Polls(remaining, 5000) == (remaining + 4999) / 5000
    decreases remaining
  {
    if remaining > 5000 { PollsAtLastDelay(remaining - 5000); }
  }

  /** How many polls fit: four in the first 8.125 s, and then one every 5 s, the last one at the deadline. */
  lemma PollsInTime(timeoutMs: nat)
    requires timeoutMs > 8125
    ensures Polls(timeoutMs, 1000) == 4 + (timeoutMs - 8125 + 4999) / 5000
  {
    PollsAtLastDelay(timeoutMs - 8125);
    assert Longer(1000) == 1500 && Longer(1500) == 2250 && Longer(2250) == 3375 && Longer(3375) == 5000;
    assert Polls(timeoutMs - 4750, 3375) == 1 + Polls(timeoutMs - 8125, 5000);
    assert Polls(timeoutMs - 2500, 2250) == 1 + Polls(timeoutMs - 4750, 3375);
    assert Polls(timeoutMs - 1000, 1500) == 1 + Polls(timeoutMs - 2500, 2250);
  }

  lemma {:induction false} LessTimeFewerPolls(less: int, more: int, delay: nat)
    requires less <= more && delay >= FIRST_DELAY
    ensures Polls(less, delay) <= Polls(more, delay)
    decreases if more > 0 then more else 0
  {
    if less > 0 {
      LessTimeFewerPolls(less - Min(delay, less), more - Min(delay, more), Longer(delay));
    }
  }

  lemma OneMorePoll(remaining: nat, delay: nat, late: nat)
    requires remaining > 0 && delay >= FIRST_DELAY
    ensures 1 + Polls(remaining - Min(delay, remaining) - late, Longer(delay)) <= Polls(remaining, delay)
    ensures late == 0 ==> 1 + Polls(remaining - Min(delay, remaining) - late, Longer(delay)) == Polls(remaining, delay)
  {
    LessTimeFewerPolls(remaining - Min(delay, remaining) - late, remaining - Min(delay, remaining), Longer(delay));
  }

  /** Waiting a second at least before each poll bounds them by the seconds of the timeout, rounded up. */
  lemma {:induction false} OnePollASecond(remaining: nat, delay: nat)
    requires delay >= FIRST_DELAY
    ensures Polls(remaining, delay) <= (remaining + 999) / 1000
    decreases remaining
  {
    if remaining > 0 {
      OnePollASecond(remaining - Min(delay, remaining), Longer(delay));
    }
  }

  /** What the k-th poll sees, and how much longer than asked for its sleep and its call took. */
  datatype Answer = Answer(status: Status, late: nat)

  /**
   The first final answer is returned, unless the deadline passes before; there are never more polls
   than fit in the time, so that as many answers are all that is ever looked at, and no more sleep
   than the timeout. A poll that times out without being held up has made exactly so many polls.
   */
  method WaitForSorobanTx(busy: bool, timeoutMs: int, answers: seq<Answer>)
    returns (outcome: Outcome, polls: nat, slept: int, elapsed: int)
    requires |answers| == Polls(timeoutMs, FIRST_DELAY)
    ensures busy <==> outcome == TryAgainLater
    ensures polls <= |answers| && (timeoutMs >= 0 ==> polls <= (timeoutMs + 999) / 1000)
    ensures outcome.Response? ==>
              polls > 0 && outcome.status == answers[polls - 1].status && Final(outcome.status) && NoneFinal(answers[..polls - 1])
    ensures outcome == TxTimeout ==> elapsed >= timeoutMs && NoneFinal(answers[..polls])
    ensures 0 <= slept <= elapsed && slept <= (if timeoutMs > 0 then timeoutMs else 0)
    ensures outcome == TxTimeout && Punctual(answers) ==> polls == |answers| && slept == elapsed
  {
    polls, slept, elapsed := 0, 0, 0;
    if busy {
      return TryAgainLater, 0, 0, 0;
    }
    if timeoutMs >= 0 { OnePollASecond(timeoutMs, FIRST_DELAY); }
    var delay: nat := FIRST_DELAY;
    var status := Pending;
    while !Final(status)
      invariant FIRST_DELAY <= delay && polls <= |answers|
      invariant status == (if polls == 0 then Pending else answers[polls - 1].status)
      invariant polls > 0 ==> NoneFinal(answers[..polls - 1])
      invariant polls + Polls(timeoutMs - elapsed, delay) <= |answers|
      invariant 0 <= slept <= elapsed && slept <= (if timeoutMs > 0 then timeoutMs else 0)
      invariant Punctual(answers) ==> slept == elapsed && polls + Polls(timeoutMs - elapsed, delay) == |answers|
      decreases timeoutMs - elapsed
    {
      var remaining := timeoutMs - elapsed;
      if remaining <= 0 {
        return TxTimeout, polls, slept, elapsed;
      }
      OneMorePoll(remaining, delay, answers[polls].late);
      var wait := Min(delay, remaining);
      slept := slept + wait;
      elapsed := elapsed + wait + answers[polls].late;
      delay := Longer(delay);
      status := answers[polls].status;
      polls := polls + 1;
    }
    outcome := Response(status);
  }

  predicate NoneFinal(answers: seq<Answer>) {
    forall k :: 0 <= k < |answers| ==> !Final(answers[k].status)
  }

  predicate Punctual(answers: seq<Answer>) {
    forall k :: 0 <= k < |answers| ==> answers[k].late == 0
  }
}
