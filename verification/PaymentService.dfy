/**
 `dailyLimitExceeded`, and `send` and `sendBatch` from their locked sections to the failed rows of
 their catch branches, in the order their awaits run, verified to be sequences of actions of the
 machine in `DailyLimit`. What Stellar, the fraud checks, the recipients' validation and each insert
 answer comes in as parameters.
 */
module PaymentService {
  import opened Wrappers
  import opened DailyLimit

  /** What an insert does; `UnderWay` is one that has not answered yet when another one throws. */
  datatype Insert = Written | NotWritten | WrittenButThrew | UnderWay

  datatype Verdict = Admitted | OverLimit | Throttled

  /** What happens to a single payment once its checks let it through; a loud refusal has a status other than 400 and 500. */
  datatype Fate =
    | Refused(loud: bool)
    | Submitted(successful: bool, insert: Insert, laterThrows: bool)

  datatype Outcome =
    | Sent
    | Busy
    | LimitExceeded
    | Rejected(loud: bool)
    | NoValidRecipient
    | SubmissionFailed
    | Errored            // submitted, but an insert or a later step threw

  /** A batch recipient: the amount, and whether its checks pass. */
  datatype Recipient = Recipient(amount: real, valid: bool)

  /** What a request has done for one of its payments: recorded a row, or left its insert under way. */
  datatype Entry = Recorded(slot: nat, failed: bool) | Left(slot: nat, failed: bool)

  function Amounts(recipients: seq<Recipient>): seq<real> {
    seq(|recipients|, i requires 0 <= i < |recipients| => recipients[i].amount)
  }

  function EntryOf(a: Action, p: Pid): seq<Entry> {
    match a
    case Record(q, _, slot, failed) => if q == p then [Recorded(slot, failed)] else []
    case RecordFailure(q, slot, _, _) => if q == p then [Recorded(slot, true)] else []
    case Outlive(q, _, slot, failed) => if q == p then [Left(slot, failed)] else []
    case _ => []
  }

  /** What request `p` has done in a run, in order. */
  function Trace(run: seq<Action>, p: Pid): seq<Entry> {
    if run == [] then [] else Trace(run[..|run| - 1], p) + EntryOf(run[|run| - 1], p)
  }

  function InsertEntry(slot: nat, failed: bool, insert: Insert): seq<Entry> {
    match insert
    case NotWritten => []
    case UnderWay => [Left(slot, failed)]
    case _ => [Recorded(slot, failed)]
  }

  // ---------------------------------------------------------------- What send leaves behind

  predicate Throws(insert: Insert) {
    insert == NotWritten || insert == WrittenButThrew
  }

  /**
   The rows of one payment. The catch branch adds a failed row after every loud error; when a row
   with the same primary key is already there its insert is refused, and the refusal ignored.
   */
  function SendEntries(outcome: Outcome, fate: Fate, catchWrites: bool): seq<Entry> {
    match outcome
    case Rejected(loud) => if loud && catchWrites then [Recorded(0, true)] else []
    case Sent => if fate.Submitted? then [Recorded(0, !fate.successful)] else []
    case Errored =>
      if fate.Refused? then []
      else if fate.insert == NotWritten then if catchWrites then [Recorded(0, true)] else []
      else [Recorded(0, !fate.successful)]
    case _ => []
  }

  /**
   With the catch branch working, a submitted payment has exactly one row; its status is right unless
   the payment went through and its own insert was not written.
   */
  lemma SubmittedHasOneRow(outcome: Outcome, successful: bool, insert: Insert, laterThrows: bool, catchWrites: bool)
    requires outcome == (if Throws(insert) || laterThrows then Errored else Sent) && catchWrites
    ensures var entries := SendEntries(outcome, Submitted(successful, insert, laterThrows), catchWrites);
            |entries| == 1 && (entries[0] == Recorded(0, !successful) <==> insert != NotWritten || !successful)
  {
  }

  lemma OneRowIfSubmitted(outcome: Outcome, throttled: bool, fate: Fate, catchWrites: bool)
    requires SendOutcome(outcome, throttled, fate)
    ensures fate.Submitted? && catchWrites && (outcome == Sent || outcome == Errored) ==>
              |SendEntries(outcome, fate, catchWrites)| == 1
  {
    if fate.Submitted? && catchWrites && (outcome == Sent || outcome == Errored) {
      SubmittedHasOneRow(outcome, fate.successful, fate.insert, fate.laterThrows, catchWrites);
    }
  }

  // ---------------------------------------------------------------- What sendBatch leaves behind

  predicate AnyThrows(tries: seq<Insert>) {
    exists i :: 0 <= i < |tries| && Throws(tries[i])
  }

  /** An insert throws while another is under way. */
  predicate Midway(tries: seq<Insert>) {
    AnyThrows(tries) && exists i :: 0 <= i < |tries| && tries[i] == UnderWay
  }

  /** The row of one recipient after a successful submission; without a throw every insert is waited for. */
  function TryEntry(slot: nat, r: Recipient, insert: Insert, anyThrows: bool): seq<Entry> {
    if insert == NotWritten then []
    else if insert == UnderWay && anyThrows then [Left(slot, !r.valid)]
    else [Recorded(slot, !r.valid)]
  }

  function TryEntries(recipients: seq<Recipient>, tries: seq<Insert>, anyThrows: bool): seq<Entry>
    requires |tries| == |recipients|
  {
    if recipients == [] then []
    else
      var last := |recipients| - 1;
      TryEntries(recipients[..last], tries[..last], anyThrows) + TryEntry(last, recipients[last], tries[last], anyThrows)
  }

  /** One failed row for every recipient whose insert in the catch branch is written. */
  function FailedEntries(catches: seq<bool>): seq<Entry> {
    if catches == [] then []
    else FailedEntries(catches[..|catches| - 1]) + (if catches[|catches| - 1] then [Recorded(|catches| - 1, true)] else [])
  }

  /** The inserts stand in the same try as the submission, so a throwing one leads to the catch branch as well. */
  function BatchEntries(outcome: Outcome, recipients: seq<Recipient>, tries: seq<Insert>, catches: seq<bool>): seq<Entry>
    requires |tries| == |recipients|
  {
    match outcome
    case Sent => TryEntries(recipients, tries, false)
    case Errored => TryEntries(recipients, tries, true) + FailedEntries(catches)
    case NoValidRecipient => FailedEntries(catches)
    case SubmissionFailed => FailedEntries(catches)
    case _ => []
  }

  /** The part of a trace that belongs to one recipient. */
  function Of(entries: seq<Entry>, slot: nat): seq<Entry> {
    if entries == [] then []
    else Of(entries[..|entries| - 1], slot) + (if entries[|entries| - 1].slot == slot then [entries[|entries| - 1]] else [])
  }

  lemma {:induction false} OfConcat(a: seq<Entry>, b: seq<Entry>, slot: nat)
    ensures Of(a + b, slot) == Of(a, slot) + Of(b, slot)
  {
    if b == [] {
      assert a + b == a;
    } else {
      assert (a + b)[..|a + b| - 1] == a + b[..|b| - 1];
      OfConcat(a, b[..|b| - 1], slot);
    }
  }

  lemma TryEntryOf(last: nat, r: Recipient, insert: Insert, anyThrows: bool, slot: nat)
    ensures var entry := TryEntry(last, r, insert, anyThrows); Of(entry, slot) == if slot == last then entry else []
  {
  }

  lemma TryEntriesStep(recipients: seq<Recipient>, tries: seq<Insert>, anyThrows: bool, slot: nat)
    requires |tries| == |recipients| && recipients != []
    ensures var last := |recipients| - 1;
            Of(TryEntries(recipients, tries, anyThrows), slot)
            == Of(TryEntries(recipients[..last], tries[..last], anyThrows), slot)
               + Of(TryEntry(last, recipients[last], tries[last], anyThrows), slot)
  {
    var last := |recipients| - 1;
    OfConcat(TryEntries(recipients[..last], tries[..last], anyThrows),
             TryEntry(last, recipients[last], tries[last], anyThrows), slot);
  }

  lemma {:induction false} TryEntriesOf(recipients: seq<Recipient>, tries: seq<Insert>, anyThrows: bool, slot: nat)
    requires |tries| == |recipients|
    ensures Of(TryEntries(recipients, tries, anyThrows), slot)
            == if slot < |recipients| then TryEntry(slot, recipients[slot], tries[slot], anyThrows) else []
    decreases |recipients|
  {
    if recipients != [] {
      var last := |recipients| - 1;
      TryEntriesOf(recipients[..last], tries[..last], anyThrows, slot);
      TryEntryOf(last, recipients[last], tries[last], anyThrows, slot);
      TryEntriesStep(recipients, tries, anyThrows, slot);
    }
  }

  lemma {:induction false} FailedEntriesOf(catches: seq<bool>, slot: nat)
    ensures Of(FailedEntries(catches), slot)
            == if slot < |catches| && catches[slot] then [Recorded(slot, true)] else []
    decreases |catches|
  {
    if catches != [] {
      var last := |catches| - 1;
      FailedEntriesOf(catches[..last], slot);
      OfConcat(FailedEntries(catches[..last]), if catches[last] then [Recorded(last, true)] else [], slot);
    }
  }

  /** Every recipient of a batch that was submitted: its row of the try, and if any insert threw a failed one. */
  lemma RowsOfRecipient(recipients: seq<Recipient>, tries: seq<Insert>, catches: seq<bool>, slot: nat)
    requires |tries| == |recipients| == |catches| && slot < |recipients|
    ensures var outcome := if AnyThrows(tries) then Errored else Sent;
            Of(BatchEntries(outcome, recipients, tries, catches), slot)
            == TryEntry(slot, recipients[slot], tries[slot], AnyThrows(tries))
               + (if AnyThrows(tries) && catches[slot] then [Recorded(slot, true)] else [])
  {
    TryEntriesOf(recipients, tries, AnyThrows(tries), slot);
    if AnyThrows(tries) {
      ErroredRows(recipients, tries, catches, slot);
    }
  }

  lemma ErroredRows(recipients: seq<Recipient>, tries: seq<Insert>, catches: seq<bool>, slot: nat)
    requires |tries| == |recipients| == |catches| && slot < |recipients|
    ensures Of(BatchEntries(Errored, recipients, tries, catches), slot)
            == Of(TryEntries(recipients, tries, true), slot) + (if catches[slot] then [Recorded(slot, true)] else [])
  {
    FailedEntriesOf(catches, slot);
    OfConcat(TryEntries(recipients, tries, true), FailedEntries(catches), slot);
  }

  /**
   With the catch branch's inserts working, every recipient of a submitted batch ends with exactly
   its one right row (completed if it was paid, else failed) if and only if no insert threw.
   */
  lemma OneRightRowIffNoInsertThrows(recipients: seq<Recipient>, tries: seq<Insert>, catches: seq<bool>)
    requires |tries| == |recipients| == |catches| && (exists i :: 0 <= i < |recipients| && recipients[i].valid)
    requires forall i :: 0 <= i < |catches| ==> catches[i]
    ensures var outcome := if AnyThrows(tries) then Errored else Sent;
            (forall i :: 0 <= i < |recipients| ==>
               Of(BatchEntries(outcome, recipients, tries, catches), i) == [Recorded(i, !recipients[i].valid)])
            <==> !AnyThrows(tries)
  {
    var outcome := if AnyThrows(tries) then Errored else Sent;
    forall i | 0 <= i < |recipients|
      ensures Of(BatchEntries(outcome, recipients, tries, catches), i)
              == TryEntry(i, recipients[i], tries[i], AnyThrows(tries)) + (if AnyThrows(tries) then [Recorded(i, true)] else [])
    {
      RowsOfRecipient(recipients, tries, catches, i);
    }
    if AnyThrows(tries) {
      var v :| 0 <= v < |recipients| && recipients[v].valid;
      var rows := Of(BatchEntries(outcome, recipients, tries, catches), v);
      assert rows[|rows| - 1] == Recorded(v, true);
      assert [Recorded(v, false)][0] == Recorded(v, false);
    }
  }

  // ---------------------------------------------------------------- The handlers

  /** The transactions of one wallet and its daily-limit lock. */
  class PaymentLedger {
    const cfg: Config
    var rows: seq<Row>
    var lock: Option<Pid>
    var clock: int
    var late: seq<Late>
    ghost var log: seq<Action>
    ghost var now: State

    ghost predicate Valid()
      reads this
    {
      Past() && Shows(now)
    }

    ghost predicate Past()
      reads this
    {
      Runs(cfg, Empty(), log) && now == Final(cfg, Empty(), log)
    }

    ghost predicate Shows(s: State)
      reads this
    {
      s.rows == rows && s.lock == lock && s.clock == clock && s.late == late
    }

    ghost predicate Stands(p: Pid, c: Proc)
      reads this
    {
      p in now.procs && now.procs[p] == c
    }

    constructor (cfg: Config)
      ensures Valid() && log == [] && this.cfg == cfg
    {
      this.cfg := cfg;
      rows, lock, clock, late, log, now := [], None, 0, [], [], Empty();
    }

    ghost method Book(a: Action)
      requires Past() && Enabled(cfg, now, a) && Shows(Apply(cfg, now, a))
      modifies this`log, this`now
      ensures Valid() && log == old(log) + [a] && now == Apply(cfg, old(now), a)
      ensures forall q :: Trace(log, q) == old(Trace(log, q)) + EntryOf(a, q)
    {
      RunSnoc(cfg, Empty(), log, a);
      assert (log + [a])[..|log|] == log;
      log, now := log + [a], Apply(cfg, now, a);
    }

    /** An await: time passes and other requests act; the caller keeps its place, and only it writes its rows. */
    method Await(ghost p: Pid)
      requires Valid() && p in now.procs
      modifies this
      ensures Valid() && old(log) <= log && Stands(p, old(now.procs[p])) && Trace(log, p) == old(Trace(log, p))
    {
    }

    /** SELECT amount, asset ... created_at >= date_trunc('day', NOW()) and the reduction over the rows. */
    method DailyLimitExceeded(amount: real, asset: Asset) returns (exceeded: bool)
      requires Valid()
      ensures exceeded <==> Refuses(cfg, rows, clock, amount, asset)
      ensures exceeded <==> Exceeds(cfg, rows, clock, amount, asset)
    {
      ChecksExactly(amount, asset);
      var result := [];
      for i := 0 to |rows|
        invariant result == Today(rows[..i], clock)
      {
        assert rows[..i + 1][..i] == rows[..i];
        if !rows[i].failed && rows[i].createdAt >= Day(clock) * DAY_MS {
          result := result + [rows[i]];
        }
      }
      assert rows[..|rows|] == rows;
      if result == [] {
        return amount > cfg.limit;
      }
      var total := 0.0;
      for i := 0 to |result|
        invariant total == SumUsd(cfg.rate, result[..i])
      {
        assert result[..i + 1][..i] == result[..i];
        total := total + Usd(cfg.rate, result[i].amount, result[i].asset);
      }
      assert result[..|result|] == result;
      exceeded := total + Usd(cfg.rate, amount, asset) > cfg.limit;
    }

    lemma ChecksExactly(amount: real, asset: Asset)
      requires Valid()
      ensures Exceeds(cfg, rows, clock, amount, asset) <==> Refuses(cfg, rows, clock, amount, asset)
    {
      RunKeepsAmounts(cfg, Empty(), log);
      ExceedsIffRefuses(cfg, rows, clock, amount, asset);
    }

    /** The limit was checked when the run had got to `at`, with this outcome. */
    ghost predicate CheckedAt(start: seq<Action>, at: seq<Action>, amount: real, asset: Asset, refused: bool)
      reads this
    {
      && start <= at <= log && Runs(cfg, Empty(), at)
      && (refused <==> Refuses(cfg, Final(cfg, Empty(), at).rows, Final(cfg, Empty(), at).clock, amount, asset))
    }

    /** SET key value NX: the lock is taken only if it is free. */
    method TryLock(p: Pid, ghost amounts: seq<real>, ghost asset: Asset) returns (acquired: bool)
      requires Valid() && Stands(p, Waiting(amounts, asset))
      modifies this
      ensures Valid() && old(log) <= log && Trace(log, p) == old(Trace(log, p))
      ensures if acquired then Stands(p, Locked(amounts, asset)) else Stands(p, Waiting(amounts, asset)) && lock.Some?
    {
      Await(p);
      acquired := lock.None?;
      if acquired {
        lock := Some(p);
        Book(Acquire(p));
      }
    }

    /** The limit is compared at one moment, and exceeding it leaves the section; then come velocity and fraud checks. */
    method CheckPaymentPreflight(ghost p: Pid, amount: real, ghost amounts: seq<real>, asset: Asset, throttled: bool)
      returns (verdict: Verdict, ghost at: seq<Action>)
      requires Valid() && Stands(p, Locked(amounts, asset)) && amount == Total(amounts)
      modifies this
      ensures Valid() && old(log) <= log && Trace(log, p) == old(Trace(log, p))
      ensures Stands(p, if verdict == OverLimit then Finished else Sending(amounts, asset, false))
      ensures CheckedAt(old(log), at, amount, asset, verdict == OverLimit)
      ensures verdict == Throttled ==> throttled
      ensures verdict == Admitted ==> !throttled
    {
      Await(p);
      at := log;
      var exceeded := DailyLimitExceeded(amount, asset);
      if exceeded {
        lock := None;
      }
      Book(Preflight(p));
      verdict := if exceeded then OverLimit else if throttled then Throttled else Admitted;
    }

    /** INSERT INTO transactions for payment `slot`, the first of the amounts; what is under way is left to land later. */
    method InsertRow(p: Pid, ghost amounts: seq<real>, amount: real, asset: Asset, ghost thrown: bool,
                     slot: nat, failed: bool, insert: Insert)
      requires Valid() && amounts != [] && amount == amounts[0] && Stands(p, Sending(amounts, asset, thrown))
      requires insert == UnderWay ==> thrown
      modifies this
      ensures Valid() && old(log) <= log && Stands(p, Sending(amounts[1..], asset, thrown))
      ensures Trace(log, p) == old(Trace(log, p)) + InsertEntry(slot, failed, insert)
      ensures insert == Written || insert == WrittenButThrew ==>
                rows != [] && rows[|rows| - 1] == Row(amount, asset, failed, clock)
    {
      Await(p);
      assert amounts[..0] + amounts[1..] == amounts[1..];
      match insert {
        case NotWritten =>
          Book(Drop(p, 0));
        case UnderWay =>
          late := late + [Late(p, slot, amount, asset, failed)];
          Book(Outlive(p, 0, slot, failed));
        case _ =>
          rows := rows + [Row(amount, asset, failed, clock)];
          Book(Record(p, 0, slot, failed));
      }
    }

    /** A failed row, as the catch branches write it. */
    method InsertFailedRow(ghost p: Pid, ghost c: Proc, amount: real, asset: Asset, slot: nat, written: bool)
      requires Valid() && Stands(p, c) && amount >= 0.0
      modifies this
      ensures Valid() && old(log) <= log && Stands(p, c)
      ensures Trace(log, p) == old(Trace(log, p)) + (if written then [Recorded(slot, true)] else [])
      ensures written ==> rows != [] && rows[|rows| - 1] == Row(amount, asset, true, clock)
    {
      Await(p);
      if written {
        rows := rows + [Row(amount, asset, true, clock)];
        Book(RecordFailure(p, slot, amount, asset));
      }
    }

    method Unlock(ghost p: Pid)
      requires Valid() && p in now.procs && now.procs[p].Sending?
      modifies this
      ensures Valid() && old(log) <= log && Stands(p, Finished) && Trace(log, p) == old(Trace(log, p))
    {
      Await(p);
      HolderHasLock(p);
      lock := None;
      Book(Release(p));
    }

    lemma HolderHasLock(p: Pid)
      requires Valid() && p in now.procs && now.procs[p].Sending?
      ensures lock == Some(p)
    {
      SendingHoldsLock(cfg, Empty(), log, p);
    }

    method Begin(ghost p: Pid, ghost amounts: seq<real>, ghost asset: Asset)
      requires Valid() && p !in now.procs && NonNegative(amounts)
      modifies this
      ensures Valid() && old(log) <= log && Stands(p, Waiting(amounts, asset)) && Trace(log, p) == old(Trace(log, p))
    {
      Book(Spawn(p, amounts, asset));
    }

    /** The request arrives and tries to take the lock. */
    method Enter(p: Pid, ghost amounts: seq<real>, ghost asset: Asset) returns (acquired: bool)
      requires Valid() && p !in now.procs && NonNegative(amounts)
      modifies this
      ensures Valid() && old(log) <= log && Trace(log, p) == old(Trace(log, p))
      ensures if acquired then Stands(p, Locked(amounts, asset)) else Stands(p, Waiting(amounts, asset)) && lock.Some?
    {
      Begin(p, amounts, asset);
      acquired := TryLock(p, amounts, asset);
    }

    /**
     POST /api/payments/send. The row is written inside the locked section; an error that is neither
     400 nor 500 leads to a failed row under the same key once the section is left.
     */
    method Send(p: Pid, amount: real, asset: Asset, throttled: bool, fate: Fate, catchWrites: bool)
      returns (outcome: Outcome, ghost at: seq<Action>)
      requires Valid() && p !in now.procs && amount >= 0.0 && (fate.Submitted? ==> fate.insert != UnderWay)
      modifies this
      ensures Valid() && old(log) <= log
      ensures Trace(log, p) == old(Trace(log, p)) + SendEntries(outcome, fate, catchWrites)
      ensures SendOutcome(outcome, throttled, fate) || (outcome == Busy && p in now.procs && now.procs[p].Waiting? && lock.Some?)
      ensures outcome != Busy ==> CheckedAt(old(log), at, amount, asset, outcome == LimitExceeded)
      ensures fate.Submitted? && catchWrites && (outcome == Sent || outcome == Errored) ==>
                |Trace(log, p)| == |old(Trace(log, p))| + 1
      ensures outcome != Busy ==> Stands(p, Finished)
      ensures Sound(cfg) ==> forall day: int :: SpentOn(cfg.rate, rows, day) <= cfg.limit
    {
      ghost var amounts := [amount];
      TotalOfOne(amount);
      var acquired := Enter(p, amounts, asset);
      if !acquired {
        outcome, at := Busy, log;
      } else {
        outcome, at := SendAndCatch(p, amount, amounts, asset, throttled, fate, catchWrites);
        OneRowIfSubmitted(outcome, throttled, fate, catchWrites);
      }
      AlwaysWithinLimit();
    }

    /** The locked section and the catch branch. */
    method SendAndCatch(p: Pid, amount: real, ghost amounts: seq<real>, asset: Asset, throttled: bool, fate: Fate,
                        catchWrites: bool) returns (outcome: Outcome, ghost at: seq<Action>)
      requires Valid() && Stands(p, Locked(amounts, asset)) && amounts == [amount] && amount == Total(amounts)
      requires amount >= 0.0 && (fate.Submitted? ==> fate.insert != UnderWay)
      modifies this
      ensures Valid() && old(log) <= log && Stands(p, Finished) && SendOutcome(outcome, throttled, fate)
      ensures CheckedAt(old(log), at, amount, asset, outcome == LimitExceeded)
      ensures Trace(log, p) == old(Trace(log, p)) + SendEntries(outcome, fate, catchWrites)
    {
      ghost var before := Trace(log, p);
      outcome, at := SendLocked(p, amount, amounts, asset, throttled, fate);
      if outcome == Rejected(true) || (outcome == Errored && fate.insert == NotWritten) {
        assert Trace(log, p) == before;
        InsertFailedRow(p, Finished, amount, asset, 0, catchWrites);
      }
    }

    /** The locked section, and what comes after it without rows of its own. */
    method SendLocked(p: Pid, amount: real, ghost amounts: seq<real>, asset: Asset, throttled: bool, fate: Fate)
      returns (outcome: Outcome, ghost at: seq<Action>)
      requires Valid() && Stands(p, Locked(amounts, asset)) && amounts == [amount] && amount == Total(amounts)
      requires fate.Submitted? ==> fate.insert != UnderWay
      modifies this
      ensures Valid() && old(log) <= log && Stands(p, Finished) && SendOutcome(outcome, throttled, fate)
      ensures CheckedAt(old(log), at, amount, asset, outcome == LimitExceeded)
      ensures Trace(log, p) == old(Trace(log, p)) + SendEntries(outcome, fate, false)
    {
      var verdict;
      verdict, at := CheckPaymentPreflight(p, amount, amounts, asset, throttled);
      if verdict == OverLimit {
        return LimitExceeded, at;
      }
      if verdict == Throttled {
        outcome := Rejected(true);
      } else if fate.Refused? {
        outcome := Rejected(fate.loud);
      } else {
        outcome := RecordSent(p, amount, amounts, asset, fate);
      }
      Unlock(p);
    }

    method RecordSent(p: Pid, amount: real, ghost amounts: seq<real>, asset: Asset, fate: Fate) returns (outcome: Outcome)
      requires Valid() && Stands(p, Sending(amounts, asset, false)) && amounts == [amount]
      requires fate.Submitted? && fate.insert != UnderWay
      modifies this
      ensures Valid() && old(log) <= log && p in now.procs && now.procs[p].Sending?
      ensures outcome == if Throws(fate.insert) || fate.laterThrows then Errored else Sent
      ensures Trace(log, p) == old(Trace(log, p)) + SendEntries(outcome, fate, false)
    {
      InsertRow(p, amounts, amount, asset, false, 0, !fate.successful, fate.insert);
      outcome := if Throws(fate.insert) || fate.laterThrows then Errored else Sent;
    }

    /** POST /api/payments/batch: the limit is checked once for the total, then every recipient gets its rows. */
    method SendBatch(p: Pid, recipients: seq<Recipient>, asset: Asset, throttled: bool, refused: bool, submitted: bool,
                     tries: seq<Insert>, catches: seq<bool>) returns (outcome: Outcome, ghost at: seq<Action>)
      requires Valid() && p !in now.procs && NonNegative(Amounts(recipients))
      requires |tries| == |recipients| == |catches| && (Midway(tries) ==> cfg.throwsMidway)
      modifies this
      ensures Valid() && old(log) <= log
      ensures Trace(log, p) == old(Trace(log, p)) + BatchEntries(outcome, recipients, tries, catches)
      ensures BatchOutcome(outcome, recipients, throttled || refused, submitted, tries)
              || (outcome == Busy && p in now.procs && now.procs[p].Waiting? && lock.Some?)
      ensures outcome != Busy ==> CheckedAt(old(log), at, Total(Amounts(recipients)), asset, outcome == LimitExceeded)
      ensures outcome != Busy ==> Stands(p, Finished)
      ensures Sound(cfg) ==> forall day: int :: SpentOn(cfg.rate, rows, day) <= cfg.limit
    {
      var total := SumAmounts(recipients);
      var acquired := Enter(p, Amounts(recipients), asset);
      if !acquired {
        outcome, at := Busy, log;
      } else {
        outcome, at := SendBatchLocked(p, recipients, total, asset, throttled, refused, submitted, tries, catches);
      }
      AlwaysWithinLimit();
    }

    method SumAmounts(recipients: seq<Recipient>) returns (total: real)
      ensures total == Total(Amounts(recipients))
    {
      total := 0.0;
      ghost var amounts := Amounts(recipients);
      for i := 0 to |recipients|
        invariant total + Total(amounts[i..]) == Total(amounts)
      {
        assert amounts[i..][1..] == amounts[i + 1..];
        total := total + recipients[i].amount;
      }
    }

    method SendBatchLocked(p: Pid, recipients: seq<Recipient>, total: real, asset: Asset, throttled: bool, refused: bool,
                           submitted: bool, tries: seq<Insert>, catches: seq<bool>)
      returns (outcome: Outcome, ghost at: seq<Action>)
      requires Valid() && Stands(p, Locked(Amounts(recipients), asset)) && total == Total(Amounts(recipients))
      requires NonNegative(Amounts(recipients)) && |tries| == |recipients| == |catches|
      requires Midway(tries) ==> cfg.throwsMidway
      modifies this
      ensures Valid() && old(log) <= log && Stands(p, Finished)
      ensures BatchOutcome(outcome, recipients, throttled || refused, submitted, tries)
      ensures CheckedAt(old(log), at, total, asset, outcome == LimitExceeded)
      ensures Trace(log, p) == old(Trace(log, p)) + BatchEntries(outcome, recipients, tries, catches)
    {
      var verdict;
      verdict, at := CheckPaymentPreflight(p, total, Amounts(recipients), asset, throttled);
      if verdict == OverLimit {
        return LimitExceeded, at;
      }
      if verdict == Throttled || refused {
        outcome := Rejected(verdict == Throttled);
      } else {
        outcome := RecordBatch(p, recipients, asset, submitted, tries, catches);
      }
      Unlock(p);
    }

    /** The section after its checks: submit and record, or record the failure. */
    method RecordBatch(p: Pid, recipients: seq<Recipient>, asset: Asset, submitted: bool, tries: seq<Insert>,
                       catches: seq<bool>) returns (outcome: Outcome)
      requires Valid() && Stands(p, Sending(Amounts(recipients), asset, false))
      requires NonNegative(Amounts(recipients)) && |tries| == |recipients| == |catches|
      requires Midway(tries) ==> cfg.throwsMidway
      modifies this
      ensures Valid() && old(log) <= log && p in now.procs && now.procs[p].Sending?
      ensures BatchOutcome(outcome, recipients, false, submitted, tries) && outcome != LimitExceeded
      ensures Trace(log, p) == old(Trace(log, p)) + BatchEntries(outcome, recipients, tries, catches)
    {
      if !(exists r :: r in recipients && r.valid) {
        InsertFailedRows(p, recipients, asset, catches);
        return NoValidRecipient;
      }
      if !submitted {
        InsertFailedRows(p, recipients, asset, catches);
        return SubmissionFailed;
      }
      outcome := RecordSubmitted(p, recipients, asset, tries, catches);
    }

    /** The rows of a batch that went through; the first insert that throws leads to the catch branch. */
    method RecordSubmitted(p: Pid, recipients: seq<Recipient>, asset: Asset, tries: seq<Insert>, catches: seq<bool>)
      returns (outcome: Outcome)
      requires Valid() && Stands(p, Sending(Amounts(recipients), asset, false))
      requires NonNegative(Amounts(recipients)) && |tries| == |recipients| == |catches|
      requires Midway(tries) ==> cfg.throwsMidway
      modifies this
      ensures Valid() && old(log) <= log && p in now.procs && now.procs[p].Sending?
      ensures outcome == if AnyThrows(tries) then Errored else Sent
      ensures Trace(log, p) == old(Trace(log, p)) + BatchEntries(outcome, recipients, tries, catches)
    {
      if AnyThrows(tries) {
        RecordAndCatch(p, recipients, asset, tries, catches);
        outcome := Errored;
      } else {
        InsertRows(p, recipients, asset, false, tries, false);
        outcome := Sent;
      }
    }

    /** With others under way the insert that throws is taken to answer first. */
    ghost method ThrowFirst(p: Pid, amounts: seq<real>, asset: Asset, tries: seq<Insert>)
      requires Valid() && Stands(p, Sending(amounts, asset, false)) && |amounts| == |tries|
      requires Midway(tries) ==> cfg.throwsMidway
      modifies this`log, this`now
      ensures Valid() && old(log) <= log && Trace(log, p) == old(Trace(log, p))
      ensures Stands(p, Sending(amounts, asset, Midway(tries)))
    {
      if Midway(tries) {
        Book(ThrowMidway(p));
      }
    }

    method RecordAndCatch(p: Pid, recipients: seq<Recipient>, asset: Asset, tries: seq<Insert>, catches: seq<bool>)
      requires Valid() && Stands(p, Sending(Amounts(recipients), asset, false))
      requires NonNegative(Amounts(recipients)) && |tries| == |recipients| == |catches|
      requires AnyThrows(tries) && (Midway(tries) ==> cfg.throwsMidway)
      modifies this
      ensures Valid() && old(log) <= log && p in now.procs && now.procs[p].Sending?
      ensures Trace(log, p) == old(Trace(log, p)) + (TryEntries(recipients, tries, true) + FailedEntries(catches))
    {
      ghost var before, made, caught := Trace(log, p), TryEntries(recipients, tries, true), FailedEntries(catches);
      ThrowFirst(p, Amounts(recipients), asset, tries);
      InsertRows(p, recipients, asset, Midway(tries), tries, true);
      InsertFailedRows(p, recipients, asset, catches);
      Regroup(before, made, caught);
    }

    /** One insert of the batch; it is waited for unless another one throws. */
    method InsertTry(p: Pid, ghost amounts: seq<real>, r: Recipient, asset: Asset, ghost thrown: bool,
                     slot: nat, insert: Insert, anyThrows: bool)
      requires Valid() && amounts != [] && r.amount == amounts[0] && Stands(p, Sending(amounts, asset, thrown))
      requires anyThrows && insert == UnderWay ==> thrown
      modifies this
      ensures Valid() && old(log) <= log && Stands(p, Sending(amounts[1..], asset, thrown))
      ensures Trace(log, p) == old(Trace(log, p)) + TryEntry(slot, r, insert, anyThrows)
    {
      InsertRow(p, amounts, r.amount, asset, thrown, slot, !r.valid, if insert == UnderWay && !anyThrows then Written else insert);
    }

    /** Promise.all over the recipients: completed if it was valid, else failed. */
    method InsertRows(p: Pid, recipients: seq<Recipient>, asset: Asset, ghost thrown: bool, tries: seq<Insert>, anyThrows: bool)
      requires Valid() && Stands(p, Sending(Amounts(recipients), asset, thrown)) && |tries| == |recipients|
      requires anyThrows && !thrown ==> forall i :: 0 <= i < |tries| ==> tries[i] != UnderWay
      modifies this
      ensures Valid() && old(log) <= log && p in now.procs && now.procs[p].Sending?
      ensures Trace(log, p) == old(Trace(log, p)) + TryEntries(recipients, tries, anyThrows)
    {
      ghost var amounts, before := Amounts(recipients), Trace(log, p);
      for i := 0 to |recipients|
        invariant Valid() && old(log) <= log && Stands(p, Sending(amounts[i..], asset, thrown))
        invariant Trace(log, p) == before + TryEntries(recipients[..i], tries[..i], anyThrows)
      {
        assert amounts[i..][1..] == amounts[i + 1..];
        InsertTry(p, amounts[i..], recipients[i], asset, thrown, i, tries[i], anyThrows);
        OneMoreTry(before, recipients, tries, anyThrows, i);
      }
      assert recipients[..|recipients|] == recipients && tries[..|tries|] == tries;
    }

    lemma OneMoreTry(before: seq<Entry>, recipients: seq<Recipient>, tries: seq<Insert>, anyThrows: bool, i: nat)
      requires |tries| == |recipients| && i < |recipients|
      ensures before + TryEntries(recipients[..i], tries[..i], anyThrows) + TryEntry(i, recipients[i], tries[i], anyThrows)
              == before + TryEntries(recipients[..i + 1], tries[..i + 1], anyThrows)
    {
      assert recipients[..i + 1][..i] == recipients[..i] && tries[..i + 1][..i] == tries[..i];
    }

    /** The failed rows of the catch branch, and of a batch without a valid recipient. */
    method InsertFailedRows(ghost p: Pid, recipients: seq<Recipient>, asset: Asset, catches: seq<bool>)
      requires Valid() && p in now.procs && now.procs[p].Sending?
      requires NonNegative(Amounts(recipients)) && |catches| == |recipients|
      modifies this
      ensures Valid() && old(log) <= log && Stands(p, old(now.procs[p]))
      ensures Trace(log, p) == old(Trace(log, p)) + FailedEntries(catches)
    {
      ghost var c, before := now.procs[p], Trace(log, p);
      for i := 0 to |recipients|
        invariant Valid() && old(log) <= log && Stands(p, c)
        invariant Trace(log, p) == before + FailedEntries(catches[..i])
      {
        assert Amounts(recipients)[i] == recipients[i].amount;
        InsertFailedRow(p, c, recipients[i].amount, asset, i, catches[i]);
        OneMoreFailure(before, catches, i);
      }
      assert catches[..|catches|] == catches;
    }

    lemma Regroup(a: seq<Entry>, b: seq<Entry>, c: seq<Entry>)
      ensures a + b + c == a + (b + c)
    {
    }

    lemma OneMoreFailure(before: seq<Entry>, catches: seq<bool>, i: nat)
      requires i < |catches|
      ensures before + FailedEntries(catches[..i]) + (if catches[i] then [Recorded(i, true)] else [])
              == before + FailedEntries(catches[..i + 1])
    {
      assert catches[..i + 1][..i] == catches[..i];
    }

    lemma AlwaysWithinLimit()
      requires Valid()
      ensures Sound(cfg) ==> forall day: int :: SpentOn(cfg.rate, rows, day) <= cfg.limit
    {
      if Sound(cfg) {
        assert Inv(cfg, Empty());
        RunKeepsInv(cfg, Empty(), log);
      }
    }
  }

  /** How a single payment may end once it holds the lock. */
  predicate SendOutcome(outcome: Outcome, throttled: bool, fate: Fate) {
    || outcome == LimitExceeded
    || (throttled && outcome == Rejected(true))
    || (!throttled && fate.Refused? && outcome == Rejected(fate.loud))
    || (!throttled && fate.Submitted? && outcome == if Throws(fate.insert) || fate.laterThrows then Errored else Sent)
  }

  /** How a batch may end once it holds the lock. */
  predicate BatchOutcome(outcome: Outcome, recipients: seq<Recipient>, refused: bool, submitted: bool, tries: seq<Insert>) {
    var someValid := exists r :: r in recipients && r.valid;
    || outcome == LimitExceeded
    || (refused && outcome.Rejected?)
    || (!refused && !someValid && outcome == NoValidRecipient)
    || (!refused && someValid && !submitted && outcome == SubmissionFailed)
    || (!refused && someValid && submitted && outcome == if AnyThrows(tries) then Errored else Sent)
  }

  /** Past its check a section holds the lock, whatever the configuration. */
  lemma {:induction false} SendingHoldsLock(cfg: Config, s: State, run: seq<Action>, p: Pid)
    requires LockOk(s) && Runs(cfg, s, run)
    requires p in Final(cfg, s, run).procs && Final(cfg, s, run).procs[p].Sending?
    ensures Final(cfg, s, run).lock == Some(p)
    decreases |run|
  {
    if run != [] {
      SendingHoldsLock(cfg, Apply(cfg, s, run[0]), run[1..], p);
    }
  }
}
