/**
 The daily send limit of one wallet under concurrent `send` and `sendBatch`: each takes the
 wallet's lock, compares today's total with the limit, and then records its rows. The lock is a mutex
 that outlives its section, and a section may straddle midnight. But when one insert of a batch
 throws while others are under way, those are no longer waited for, and their rows may land after the
 lock is given up.
 */
module DailyLimit {
  import opened Wrappers

  type Pid = nat

  const DAY_MS: int := 24 * 60 * 60 * 1000

  datatype Asset = XLM | Dollar   // every asset but XLM counts one to one

  /** DAILY_SEND_LIMIT and XLM_USD_RATE, and whether an insert of a batch may throw while another is under way. */
  datatype Config = Config(limit: real, rate: real, throwsMidway: bool)

  datatype Row = Row(amount: real, asset: Asset, failed: bool, createdAt: int)

  datatype Proc =
    | Waiting(amounts: seq<real>, asset: Asset)
    | Locked(amounts: seq<real>, asset: Asset)
    | Sending(amounts: seq<real>, asset: Asset, thrown: bool)   // past the check, amounts still to be recorded
    | Finished

  /** An insert that is no longer waited for: row `slot` of request `p`. */
  datatype Late = Late(p: Pid, slot: nat, amount: real, asset: Asset, failed: bool)

  datatype State = State(rows: seq<Row>, clock: int, lock: Option<Pid>, procs: map<Pid, Proc>, late: seq<Late>)

  datatype Action =
    | Spawn(p: Pid, amounts: seq<real>, asset: Asset)
    | Acquire(p: Pid)
    | Preflight(p: Pid)
    | Record(p: Pid, i: nat, slot: nat, failed: bool)   // the i-th amount left; `slot` says whose row it is
    | ThrowMidway(p: Pid)                               // an insert throws while another is under way
    | Outlive(p: Pid, i: nat, slot: nat, failed: bool)  // then one under way is not waited for
    | Land(k: nat)
    | Drop(p: Pid, i: nat)                              // an insert that throws without being written
    | Release(p: Pid)
    | RecordFailure(p: Pid, slot: nat, amount: real, asset: Asset)
    | MarkFailed(k: nat)
    | Tick(ms: nat)

  // ---------------------------------------------------------------- Money

  function Usd(rate: real, amount: real, asset: Asset): real {
    if asset == XLM then amount * rate else amount
  }

  function Total(amounts: seq<real>): real {
    if amounts == [] then 0.0 else amounts[0] + Total(amounts[1..])
  }

  function Day(time: int): int {
    time / DAY_MS
  }

  /** A day has 86,400 seconds. */
  lemma DayIsUtcDay(time: int)
    ensures Day(time) * 86_400_000 <= time < (Day(time) + 1) * 86_400_000
  {
  }

  function Counted(rate: real, r: Row, day: int): real {
    if !r.failed && Day(r.createdAt) == day then Usd(rate, r.amount, r.asset) else 0.0
  }

  /** The USD total of the recorded non-failed rows of one UTC day. */
  function SpentOn(rate: real, rows: seq<Row>, day: int): real {
    if rows == [] then 0.0 else SpentOn(rate, rows[..|rows| - 1], day) + Counted(rate, rows[|rows| - 1], day)
  }

  /** The rows of `dailyLimitExceeded`'s query: not failed, created since the start of today. */
  function Today(rows: seq<Row>, now: int): seq<Row> {
    if rows == [] then []
    else Today(rows[..|rows| - 1], now)
         + (if !rows[|rows| - 1].failed && rows[|rows| - 1].createdAt >= Day(now) * DAY_MS then [rows[|rows| - 1]] else [])
  }

  function SumUsd(rate: real, rows: seq<Row>): real {
    if rows == [] then 0.0
    else SumUsd(rate, rows[..|rows| - 1]) + Usd(rate, rows[|rows| - 1].amount, rows[|rows| - 1].asset)
  }

  /** With no row today the code compares the amount itself, in its own asset, with the limit. */
  predicate Exceeds(cfg: Config, rows: seq<Row>, now: int, amount: real, asset: Asset) {
    var today := Today(rows, now);
    if today == [] then amount > cfg.limit
    else SumUsd(cfg.rate, today) + Usd(cfg.rate, amount, asset) > cfg.limit
  }

  // ---------------------------------------------------------------- The machine

  predicate NonNegative(amounts: seq<real>) {
    forall i :: 0 <= i < |amounts| ==> amounts[i] >= 0.0
  }

  predicate Enabled(cfg: Config, s: State, a: Action) {
    match a
    case Spawn(p, amounts, _) => p !in s.procs && NonNegative(amounts)
    case Acquire(p) => p in s.procs && s.procs[p].Waiting? && s.lock.None?
    case Preflight(p) => p in s.procs && s.procs[p].Locked?
    case Record(p, i, _, _) => p in s.procs && s.procs[p].Sending? && i < |s.procs[p].amounts|
    case ThrowMidway(p) => cfg.throwsMidway && p in s.procs && s.procs[p].Sending? && |s.procs[p].amounts| > 1
    case Outlive(p, i, _, _) => p in s.procs && s.procs[p].Sending? && s.procs[p].thrown && i < |s.procs[p].amounts|
    case Land(k) => k < |s.late|
    case Drop(p, i) => p in s.procs && s.procs[p].Sending? && i < |s.procs[p].amounts|
    case Release(p) => p in s.procs && s.lock == Some(p)
    case RecordFailure(_, _, amount, _) => amount >= 0.0
    case MarkFailed(k) => k < |s.rows|
    case Tick(_) => true
  }

  function Goto(s: State, p: Pid, c: Proc): State {
    s.(procs := s.procs[p := c])
  }

  /** Leaving the section, by its end, an error or a crash; a crashed holder's lock expires. */
  function DoRelease(s: State, p: Pid): State {
    Goto(s, p, Finished).(lock := None)
  }

  function DoPreflight(cfg: Config, s: State, p: Pid): State
    requires p in s.procs && s.procs[p].Locked?
  {
    var Locked(amounts, asset) := s.procs[p];
    if Exceeds(cfg, s.rows, s.clock, Total(amounts), asset) then DoRelease(s, p)
    else Goto(s, p, Sending(amounts, asset, false))
  }

  /** One INSERT INTO transactions; a batch's rows may be inserted in any order, some as failed. */
  function DoRecord(s: State, p: Pid, i: nat, failed: bool): State
    requires p in s.procs && s.procs[p].Sending? && i < |s.procs[p].amounts|
  {
    var Sending(amounts, asset, thrown) := s.procs[p];
    Goto(s, p, Sending(amounts[..i] + amounts[i + 1..], asset, thrown)).(rows := s.rows + [Row(amounts[i], asset, failed, s.clock)])
  }

  function DoOutlive(s: State, p: Pid, i: nat, slot: nat, failed: bool): State
    requires p in s.procs && s.procs[p].Sending? && i < |s.procs[p].amounts|
  {
    var Sending(amounts, asset, thrown) := s.procs[p];
    Goto(s, p, Sending(amounts[..i] + amounts[i + 1..], asset, thrown)).(late := s.late + [Late(p, slot, amounts[i], asset, failed)])
  }

  function DoDrop(s: State, p: Pid, i: nat): State
    requires p in s.procs && s.procs[p].Sending? && i < |s.procs[p].amounts|
  {
    var Sending(amounts, asset, thrown) := s.procs[p];
    Goto(s, p, Sending(amounts[..i] + amounts[i + 1..], asset, thrown))
  }

  function DoLand(s: State, k: nat): State
    requires k < |s.late|
  {
    s.(rows := s.rows + [Row(s.late[k].amount, s.late[k].asset, s.late[k].failed, s.clock)], late := s.late[..k] + s.late[k + 1..])
  }

  function Apply(cfg: Config, s: State, a: Action): State
    requires Enabled(cfg, s, a)
  {
    match a
    case Spawn(p, amounts, asset) => Goto(s, p, Waiting(amounts, asset))
    case Acquire(p) => Goto(s, p, Locked(s.procs[p].amounts, s.procs[p].asset)).(lock := Some(p))
    case Preflight(p) => DoPreflight(cfg, s, p)
    case Record(p, i, _, failed) => DoRecord(s, p, i, failed)
    case ThrowMidway(p) => Goto(s, p, s.procs[p].(thrown := true))
    case Outlive(p, i, slot, failed) => DoOutlive(s, p, i, slot, failed)
    case Land(k) => DoLand(s, k)
    case Drop(p, i) => DoDrop(s, p, i)
    case Release(p) => DoRelease(s, p)
    case RecordFailure(_, _, amount, asset) => s.(rows := s.rows + [Row(amount, asset, true, s.clock)])
    case MarkFailed(k) => s.(rows := s.rows[k := s.rows[k].(failed := true)])
    case Tick(ms) => s.(clock := s.clock + ms)
  }

  predicate Runs(cfg: Config, s: State, run: seq<Action>)
    decreases |run|
  {
    run == [] || (Enabled(cfg, s, run[0]) && Runs(cfg, Apply(cfg, s, run[0]), run[1..]))
  }

  function Final(cfg: Config, s: State, run: seq<Action>): State
    requires Runs(cfg, s, run)
    decreases |run|
  {
    if run == [] then s else Final(cfg, Apply(cfg, s, run[0]), run[1..])
  }

  function Empty(): State {
    State([], 0, None, map[], [])
  }

  // ---------------------------------------------------------------- Sums

  lemma UsdOfSum(rate: real, a: real, b: real, asset: Asset)
    ensures Usd(rate, a + b, asset) == Usd(rate, a, asset) + Usd(rate, b, asset)
  {
  }

  lemma UsdNonNegative(rate: real, a: real, asset: Asset)
    requires rate >= 0.0 && a >= 0.0
    ensures Usd(rate, a, asset) >= 0.0
  {
  }

  lemma {:induction false} TotalWithout(amounts: seq<real>, i: nat)
    requires i < |amounts|
    ensures Total(amounts[..i] + amounts[i + 1..]) == Total(amounts) - amounts[i]
    decreases i
  {
    var rest := amounts[..i] + amounts[i + 1..];
    if i == 0 {
      assert rest == amounts[1..];
    } else {
      TotalWithout(amounts[1..], i - 1);
      assert rest[1..] == amounts[1..][..i - 1] + amounts[1..][i..];
      assert amounts[1..][i..] == amounts[i + 1..];
    }
  }

  lemma {:induction false} TotalNonNegative(amounts: seq<real>)
    requires NonNegative(amounts)
    ensures Total(amounts) >= 0.0
    decreases |amounts|
  {
    if amounts != [] { TotalNonNegative(amounts[1..]); }
  }

  predicate RowsOk(rows: seq<Row>, now: int) {
    forall i :: 0 <= i < |rows| ==> rows[i].amount >= 0.0 && rows[i].createdAt <= now
  }

  lemma SpentSnoc(rate: real, rows: seq<Row>, r: Row, day: int)
    ensures SpentOn(rate, rows + [r], day) == SpentOn(rate, rows, day) + Counted(rate, r, day)
  {
    assert (rows + [r])[..|rows + [r]| - 1] == rows;
  }

  lemma {:induction false} SpentNonNegative(rate: real, rows: seq<Row>, now: int, day: int)
    requires RowsOk(rows, now) && rate >= 0.0
    ensures SpentOn(rate, rows, day) >= 0.0
    ensures day > Day(now) ==> SpentOn(rate, rows, day) == 0.0
    decreases |rows|
  {
    if rows != [] {
      var last := rows[|rows| - 1];
      SpentNonNegative(rate, rows[..|rows| - 1], now, day);
      UsdNonNegative(rate, last.amount, last.asset);
      DayGrows(last.createdAt, now);
    }
  }

  lemma DayGrows(t: int, t': int)
    requires t <= t'
    ensures Day(t) <= Day(t')
  {
  }

  lemma {:induction false} MarkingFailedLowers(rate: real, rows: seq<Row>, k: nat, now: int, day: int)
    requires RowsOk(rows, now) && rate >= 0.0 && k < |rows|
    ensures SpentOn(rate, rows[k := rows[k].(failed := true)], day) <= SpentOn(rate, rows, day)
    decreases |rows|
  {
    var rows' := rows[k := rows[k].(failed := true)];
    var init, last := rows[..|rows| - 1], rows[|rows| - 1];
    if k == |rows| - 1 {
      assert rows'[..|rows| - 1] == init;
      UsdNonNegative(rate, last.amount, last.asset);
    } else {
      assert rows'[..|rows| - 1] == init[k := init[k].(failed := true)];
      MarkingFailedLowers(rate, init, k, now, day);
    }
  }

  /** No row lies in the future, so "since the start of today" means "today". */
  lemma {:induction false} TodayIsToday(rate: real, rows: seq<Row>, now: int)
    requires RowsOk(rows, now)
    ensures SumUsd(rate, Today(rows, now)) == SpentOn(rate, rows, Day(now))
    decreases |rows|
  {
    if rows != [] {
      var init, last := rows[..|rows| - 1], rows[|rows| - 1];
      TodayIsToday(rate, init, now);
      SinceMidnight(last.createdAt, now);
      var before := Today(init, now);
      assert (before + [last])[..|before + [last]| - 1] == before;
      assert before + [] == before;
    }
  }

  lemma SinceMidnight(t: int, now: int)
    requires t <= now
    ensures t >= Day(now) * DAY_MS <==> Day(t) == Day(now)
  {
  }

  // ---------------------------------------------------------------- What the check refuses

  /** Some row counts for today. */
  ghost predicate CountedToday(rows: seq<Row>, now: int) {
    exists i :: 0 <= i < |rows| && !rows[i].failed && Day(rows[i].createdAt) == Day(now)
  }

  /** With rows of today: what they and the amount are worth is above the limit; without: the amount itself is. */
  ghost predicate Refuses(cfg: Config, rows: seq<Row>, now: int, amount: real, asset: Asset) {
    if CountedToday(rows, now) then SpentOn(cfg.rate, rows, Day(now)) + Usd(cfg.rate, amount, asset) > cfg.limit
    else amount > cfg.limit
  }

  lemma {:induction false} TodayIsEmptyIff(rows: seq<Row>, now: int)
    requires RowsOk(rows, now)
    ensures Today(rows, now) == [] <==> !CountedToday(rows, now)
    decreases |rows|
  {
    if rows != [] {
      var init, last := rows[..|rows| - 1], rows[|rows| - 1];
      TodayIsEmptyIff(init, now);
      SinceMidnight(last.createdAt, now);
      assert forall i :: 0 <= i < |init| ==> init[i] == rows[i];
      if i :| 0 <= i < |init| && !init[i].failed && Day(init[i].createdAt) == Day(now) {
        assert rows[i] == init[i];
      }
    }
  }

  /** The check of the code refuses exactly that, so what fits into today is let through. */
  lemma ExceedsIffRefuses(cfg: Config, rows: seq<Row>, now: int, amount: real, asset: Asset)
    requires RowsOk(rows, now)
    ensures Exceeds(cfg, rows, now, amount, asset) <==> Refuses(cfg, rows, now, amount, asset)
  {
    TodayIsEmptyIff(rows, now);
    TodayIsToday(cfg.rate, rows, now);
  }

  /** Whatever the configuration: no row is negative or lies in the future, and no amount still to come is negative. */
  ghost predicate AmountsOk(s: State) {
    && RowsOk(s.rows, s.clock)
    && (forall p :: p in s.procs && !s.procs[p].Finished? ==> NonNegative(s.procs[p].amounts))
    && forall k :: 0 <= k < |s.late| ==> s.late[k].amount >= 0.0
  }

  lemma ActionKeepsAmounts(cfg: Config, s: State, a: Action)
    requires AmountsOk(s) && Enabled(cfg, s, a)
    ensures AmountsOk(Apply(cfg, s, a))
  {
  }

  lemma {:induction false} RunKeepsAmounts(cfg: Config, s: State, run: seq<Action>)
    requires AmountsOk(s) && Runs(cfg, s, run)
    ensures AmountsOk(Final(cfg, s, run))
    decreases |run|
  {
    if run != [] {
      ActionKeepsAmounts(cfg, s, run[0]);
      RunKeepsAmounts(cfg, Apply(cfg, s, run[0]), run[1..]);
    }
  }

  // ---------------------------------------------------------------- The invariant

  ghost predicate WithinLimit(cfg: Config, s: State) {
    forall day: int :: SpentOn(cfg.rate, s.rows, day) <= cfg.limit
  }

  /** The lock holder, once past its check, still fits into today. */
  predicate HolderFits(cfg: Config, s: State, p: Pid)
    requires p in s.procs
  {
    s.procs[p].Sending? ==>
      SpentOn(cfg.rate, s.rows, Day(s.clock)) + Usd(cfg.rate, Total(s.procs[p].amounts), s.procs[p].asset) <= cfg.limit
  }

  ghost predicate LockOk(s: State) {
    && (forall p :: p in s.procs && (s.procs[p].Locked? || s.procs[p].Sending?) ==> s.lock == Some(p))
    && (forall p :: p in s.procs && !s.procs[p].Finished? ==> NonNegative(s.procs[p].amounts))
    && (s.lock.Some? ==> s.lock.value in s.procs && (s.procs[s.lock.value].Locked? || s.procs[s.lock.value].Sending?))
  }

  ghost predicate Inv(cfg: Config, s: State) {
    && RowsOk(s.rows, s.clock)
    && LockOk(s)
    && WithinLimit(cfg, s)
    && (s.lock.Some? ==> HolderFits(cfg, s, s.lock.value))
    && s.late == [] && forall p :: p in s.procs && s.procs[p].Sending? ==> !s.procs[p].thrown
  }

  predicate Sound(cfg: Config) {
    cfg.limit >= 0.0 && 0.0 <= cfg.rate <= 1.0 && !cfg.throwsMidway
  }

  /** The check admits a section only if it fits, in USD, into today; this is where the rate must not exceed 1. */
  lemma AdmittedFits(cfg: Config, rows: seq<Row>, now: int, amount: real, asset: Asset)
    requires Sound(cfg) && RowsOk(rows, now) && amount >= 0.0
    requires !Exceeds(cfg, rows, now, amount, asset)
    ensures SpentOn(cfg.rate, rows, Day(now)) + Usd(cfg.rate, amount, asset) <= cfg.limit
  {
    TodayIsToday(cfg.rate, rows, now);
    RateAtMostOne(cfg.rate, amount, asset);
  }

  lemma RateAtMostOne(rate: real, amount: real, asset: Asset)
    requires 0.0 <= rate <= 1.0 && amount >= 0.0
    ensures Usd(rate, amount, asset) <= amount
  {
  }

  lemma LeftIsWorthLess(rate: real, amounts: seq<real>, asset: Asset, i: nat, left: seq<real>)
    requires rate >= 0.0 && NonNegative(amounts) && i < |amounts| && left == amounts[..i] + amounts[i + 1..]
    ensures NonNegative(left) && Usd(rate, Total(left), asset) >= 0.0 && Usd(rate, amounts[i], asset) >= 0.0
    ensures Usd(rate, Total(amounts), asset) == Usd(rate, amounts[i], asset) + Usd(rate, Total(left), asset)
  {
    TotalWithout(amounts, i);
    TotalNonNegative(left);
    UsdOfSum(rate, amounts[i], Total(left), asset);
    UsdNonNegative(rate, Total(left), asset);
    UsdNonNegative(rate, amounts[i], asset);
  }

  /** `taken` dollars out of what is left; `counted` of them, unless the row is a failed one, into today. */
  lemma StillFits(spent: real, taken: real, left: real, counted: real, limit: real)
    requires spent + (taken + left) <= limit && taken >= 0.0 && left >= 0.0 && (counted == taken || counted == 0.0)
    ensures spent + counted + left <= limit && spent + counted <= limit
  {
  }

  /** Recording one amount takes it out of what is left and, unless failed, puts it into today. */
  lemma RecordMovesAmount(cfg: Config, s: State, amounts: seq<real>, asset: Asset, i: nat, failed: bool, left: seq<real>)
    requires Sound(cfg) && NonNegative(amounts) && i < |amounts| && left == amounts[..i] + amounts[i + 1..]
    requires SpentOn(cfg.rate, s.rows, Day(s.clock)) + Usd(cfg.rate, Total(amounts), asset) <= cfg.limit
    ensures NonNegative(left)
    ensures var rows := s.rows + [Row(amounts[i], asset, failed, s.clock)];
            && SpentOn(cfg.rate, rows, Day(s.clock)) + Usd(cfg.rate, Total(left), asset) <= cfg.limit
            && SpentOn(cfg.rate, rows, Day(s.clock)) <= cfg.limit
  {
    LeftIsWorthLess(cfg.rate, amounts, asset, i, left);
    var row := Row(amounts[i], asset, failed, s.clock);
    SpentSnoc(cfg.rate, s.rows, row, Day(s.clock));
    StillFits(SpentOn(cfg.rate, s.rows, Day(s.clock)), Usd(cfg.rate, amounts[i], asset),
              Usd(cfg.rate, Total(left), asset), Counted(cfg.rate, row, Day(s.clock)), cfg.limit);
  }

  lemma OneRowKeepsWithin(cfg: Config, s: State, row: Row)
    requires WithinLimit(cfg, s) && row.createdAt == s.clock
    requires SpentOn(cfg.rate, s.rows + [row], Day(s.clock)) <= cfg.limit
    ensures WithinLimit(cfg, s.(rows := s.rows + [row]))
  {
    forall day: int ensures SpentOn(cfg.rate, s.rows + [row], day) <= cfg.limit {
      SpentSnoc(cfg.rate, s.rows, row, day);
      assert SpentOn(cfg.rate, s.rows, day) <= cfg.limit;
    }
  }

  lemma RecordKeepsLock(s: State, p: Pid, i: nat, failed: bool)
    requires LockOk(s) && p in s.procs && s.procs[p].Sending? && i < |s.procs[p].amounts|
    ensures LockOk(DoRecord(s, p, i, failed)) && s.lock == Some(p) == DoRecord(s, p, i, failed).lock
  {
  }

  lemma RecordKeepsInv(cfg: Config, s: State, p: Pid, i: nat, failed: bool)
    requires Sound(cfg) && Inv(cfg, s) && p in s.procs && s.procs[p].Sending? && i < |s.procs[p].amounts|
    ensures Inv(cfg, DoRecord(s, p, i, failed))
  {
    var Sending(amounts, asset, _) := s.procs[p];
    RecordKeepsLock(s, p, i, failed);
    RecordMovesAmount(cfg, s, amounts, asset, i, failed, amounts[..i] + amounts[i + 1..]);
    OneRowKeepsWithin(cfg, s, Row(amounts[i], asset, failed, s.clock));
    assert WithinLimit(cfg, DoRecord(s, p, i, failed));
  }

  lemma DropKeepsInv(cfg: Config, s: State, p: Pid, i: nat)
    requires Sound(cfg) && Inv(cfg, s) && p in s.procs && s.procs[p].Sending? && i < |s.procs[p].amounts|
    ensures Inv(cfg, DoDrop(s, p, i))
  {
    var Sending(amounts, asset, _) := s.procs[p];
    var left := amounts[..i] + amounts[i + 1..];
    assert s.lock == Some(p) && NonNegative(amounts);
    LeftIsWorthLess(cfg.rate, amounts, asset, i, left);
  }

  lemma FailureKeepsInv(cfg: Config, s: State, amount: real, asset: Asset)
    requires Inv(cfg, s) && amount >= 0.0
    ensures Inv(cfg, s.(rows := s.rows + [Row(amount, asset, true, s.clock)]))
  {
    var row := Row(amount, asset, true, s.clock);
    forall day: int ensures SpentOn(cfg.rate, s.rows + [row], day) == SpentOn(cfg.rate, s.rows, day) {
      SpentSnoc(cfg.rate, s.rows, row, day);
    }
  }

  lemma MarkKeepsInv(cfg: Config, s: State, k: nat)
    requires Sound(cfg) && Inv(cfg, s) && k < |s.rows|
    ensures Inv(cfg, s.(rows := s.rows[k := s.rows[k].(failed := true)]))
  {
    var rows := s.rows[k := s.rows[k].(failed := true)];
    forall day: int
      ensures SpentOn(cfg.rate, rows, day) <= SpentOn(cfg.rate, s.rows, day) && SpentOn(cfg.rate, rows, day) <= cfg.limit
    {
      MarkingFailedLowers(cfg.rate, s.rows, k, s.clock, day);
      assert SpentOn(cfg.rate, s.rows, day) <= cfg.limit;
    }
  }

  /** A section that straddles midnight finds the new day empty. */
  lemma TickKeepsInv(cfg: Config, s: State, ms: nat)
    requires Sound(cfg) && Inv(cfg, s)
    ensures Inv(cfg, s.(clock := s.clock + ms))
  {
    var s' := s.(clock := s.clock + ms);
    DayGrows(s.clock, s'.clock);
    SpentNonNegative(cfg.rate, s.rows, s.clock, Day(s.clock));
    SpentNonNegative(cfg.rate, s.rows, s.clock, Day(s'.clock));
  }

  lemma PreflightKeepsInv(cfg: Config, s: State, p: Pid)
    requires Sound(cfg) && Inv(cfg, s) && p in s.procs && s.procs[p].Locked?
    ensures Inv(cfg, DoPreflight(cfg, s, p))
  {
    var Locked(amounts, asset) := s.procs[p];
    assert NonNegative(amounts);
    TotalNonNegative(amounts);
    if !Exceeds(cfg, s.rows, s.clock, Total(amounts), asset) {
      AdmittedFits(cfg, s.rows, s.clock, Total(amounts), asset);
    }
  }

  lemma ActionKeepsInv(cfg: Config, s: State, a: Action)
    requires Sound(cfg) && Inv(cfg, s) && Enabled(cfg, s, a)
    ensures Inv(cfg, Apply(cfg, s, a))
  {
    match a
    case Preflight(p) => PreflightKeepsInv(cfg, s, p);
    case Record(p, i, _, failed) => RecordKeepsInv(cfg, s, p, i, failed);
    case Drop(p, i) => DropKeepsInv(cfg, s, p, i);
    case RecordFailure(_, _, amount, asset) => FailureKeepsInv(cfg, s, amount, asset);
    case MarkFailed(k) => MarkKeepsInv(cfg, s, k);
    case Tick(ms) => TickKeepsInv(cfg, s, ms);
    case Spawn(p, amounts, asset) =>
    case Acquire(p) =>
    case Release(p) =>
  }

  lemma {:induction false} RunKeepsInv(cfg: Config, s: State, run: seq<Action>)
    requires Sound(cfg) && Inv(cfg, s) && Runs(cfg, s, run)
    ensures Inv(cfg, Final(cfg, s, run))
    decreases |run|
  {
    if run != [] {
      ActionKeepsInv(cfg, s, run[0]);
      RunKeepsInv(cfg, Apply(cfg, s, run[0]), run[1..]);
    }
  }

  // ---------------------------------------------------------------- Whole runs

  /** In every run, on every UTC day, the wallet's recorded non-failed rows stay within the limit. */
  ghost predicate LimitHolds(cfg: Config) {
    forall run :: Runs(cfg, Empty(), run) ==> WithinLimit(cfg, Final(cfg, Empty(), run))
  }

  lemma RunStep(cfg: Config, s: State, run: seq<Action>)
    requires run != [] && Enabled(cfg, s, run[0]) && Runs(cfg, Apply(cfg, s, run[0]), run[1..])
    ensures Runs(cfg, s, run) && Final(cfg, s, run) == Final(cfg, Apply(cfg, s, run[0]), run[1..])
  {
  }

  /** From a fresh start request `p` gets past its check with amounts that total at most the limit, in their own asset. */
  lemma Admitted(cfg: Config, s: State, p: Pid, amounts: seq<real>, asset: Asset) returns (run: seq<Action>)
    requires s.rows == [] && s.lock.None? && p !in s.procs && NonNegative(amounts) && Total(amounts) <= cfg.limit
    ensures Runs(cfg, s, run) && Final(cfg, s, run) == Goto(s, p, Sending(amounts, asset, false)).(lock := Some(p))
  {
    run := [Spawn(p, amounts, asset), Acquire(p), Preflight(p)];
    var s1 := Goto(s, p, Waiting(amounts, asset));
    var s2 := Apply(cfg, s1, Acquire(p));
    assert s2.procs[p] == Locked(amounts, asset) && Today([], s.clock) == [];
    var s3 := DoPreflight(cfg, s2, p);
    assert s3 == Goto(s, p, Sending(amounts, asset, false)).(lock := Some(p));
    RunStep(cfg, s2, run[2..]);
    RunStep(cfg, s1, run[1..]);
    RunStep(cfg, s, run);
  }

  lemma TotalOfOne(amount: real)
    ensures Total([amount]) == amount
  {
    assert [amount][1..] == [];
  }

  lemma OneRowSpent(rate: real, row: Row)
    requires !row.failed && row.createdAt == 0
    ensures SpentOn(rate, [row], 0) == Usd(rate, row.amount, row.asset)
  {
    assert [row][..0] == [];
    assert SpentOn(rate, [row], 0) == SpentOn(rate, [], 0) + Counted(rate, row, 0);
  }

  lemma LimitInXlm(limit: real, rate: real)
    requires limit > 0.0 && rate > 1.0
    ensures SpentOn(rate, [Row(limit, XLM, false, 0)], 0) > limit
  {
    OneRowSpent(rate, Row(limit, XLM, false, 0));
    Raises(limit, rate);
  }

  lemma Raises(x: real, rate: real)
    requires x > 0.0 && rate > 1.0
    ensures Usd(rate, x, XLM) > x
  {
    assert x * (rate - 1.0) > 0.0;
  }

  /** The first XLM payment of a day is compared in XLM, so a rate above 1 lets it overshoot. */
  lemma HighRateOvershoots(cfg: Config) returns (run: seq<Action>)
    requires cfg.limit > 0.0 && cfg.rate > 1.0
    ensures Runs(cfg, Empty(), run) && !WithinLimit(cfg, Final(cfg, Empty(), run))
  {
    TotalOfOne(cfg.limit);
    run := Admitted(cfg, Empty(), 0, [cfg.limit], XLM);
    RunSnoc(cfg, Empty(), run, Record(0, 0, 0, false));
    run := run + [Record(0, 0, 0, false)];
    assert Final(cfg, Empty(), run).rows == [Row(cfg.limit, XLM, false, 0)];
    LimitInXlm(cfg.limit, cfg.rate);
    assert SpentOn(cfg.rate, Final(cfg, Empty(), run).rows, 0) > cfg.limit;
  }

  /** A batch of two halves of the limit, whose first insert throws while the second is under way. */
  lemma StrayIsLeft(cfg: Config) returns (run: seq<Action>)
    requires cfg.limit > 0.0 && cfg.throwsMidway
    ensures Runs(cfg, Empty(), run)
    ensures Final(cfg, Empty(), run) == State([], 0, None, map[0 := Finished], [Late(0, 1, cfg.limit / 2.0, Dollar, false)])
  {
    var half := cfg.limit / 2.0;
    var amounts := [half, half];
    assert Total(amounts) == cfg.limit by {
      TotalOfOne(half);
      assert amounts[1..] == [half];
    }
    run := Admitted(cfg, Empty(), 0, amounts, Dollar);
    RunSnoc(cfg, Empty(), run, ThrowMidway(0));
    run := run + [ThrowMidway(0)];
    RunSnoc(cfg, Empty(), run, Outlive(0, 1, 1, false));
    run := run + [Outlive(0, 1, 1, false)];
    RunSnoc(cfg, Empty(), run, Release(0));
    run := run + [Release(0)];
  }

  /** While it is under way a payment of the whole limit is admitted; then the row lands. */
  lemma StrayOvershoots(cfg: Config) returns (run: seq<Action>)
    requires cfg.limit > 0.0 && cfg.throwsMidway
    ensures Runs(cfg, Empty(), run) && !WithinLimit(cfg, Final(cfg, Empty(), run))
  {
    run := StrayIsLeft(cfg);
    var s := Final(cfg, Empty(), run);
    TotalOfOne(cfg.limit);
    var more := Admitted(cfg, s, 1, [cfg.limit], Dollar);
    RunsConcat(cfg, Empty(), run, more);
    run := run + more;
    RunSnoc(cfg, Empty(), run, Record(1, 0, 0, false));
    run := run + [Record(1, 0, 0, false)];
    RunSnoc(cfg, Empty(), run, Land(0));
    run := run + [Land(0)];
    var whole, half := Row(cfg.limit, Dollar, false, 0), Row(cfg.limit / 2.0, Dollar, false, 0);
    assert Final(cfg, Empty(), run).rows == [whole] + [half];
    TwoRowsOvershoot(cfg, whole, half);
  }

  lemma TwoRowsOvershoot(cfg: Config, whole: Row, half: Row)
    requires cfg.limit > 0.0 && whole == Row(cfg.limit, Dollar, false, 0) && half == Row(cfg.limit / 2.0, Dollar, false, 0)
    ensures SpentOn(cfg.rate, [whole] + [half], 0) > cfg.limit
  {
    OneRowSpent(cfg.rate, whole);
    SpentSnoc(cfg.rate, [whole], half, 0);
  }

  lemma {:induction false} RunsConcat(cfg: Config, s: State, run: seq<Action>, more: seq<Action>)
    requires Runs(cfg, s, run) && Runs(cfg, Final(cfg, s, run), more)
    ensures Runs(cfg, s, run + more) && Final(cfg, s, run + more) == Final(cfg, Final(cfg, s, run), more)
    decreases |run|
  {
    if run == [] {
      assert run + more == more;
    } else {
      assert (run + more)[1..] == run[1..] + more;
      RunsConcat(cfg, Apply(cfg, s, run[0]), run[1..], more);
    }
  }

  lemma RunSnoc(cfg: Config, s: State, run: seq<Action>, a: Action)
    requires Runs(cfg, s, run) && Enabled(cfg, Final(cfg, s, run), a)
    ensures Runs(cfg, s, run + [a]) && Final(cfg, s, run + [a]) == Apply(cfg, Final(cfg, s, run), a)
  {
    assert [a][1..] == [];
    RunStep(cfg, Final(cfg, s, run), [a]);
    RunsConcat(cfg, s, run, [a]);
  }

  /**
   The limit holds in every run exactly when one XLM is worth at most one dollar and no insert
   of a batch throws while another one is under way.
   */
  lemma LimitHoldsExactly(cfg: Config)
    requires cfg.limit > 0.0 && cfg.rate >= 0.0
    ensures LimitHolds(cfg) <==> cfg.rate <= 1.0 && !cfg.throwsMidway
  {
    if cfg.rate > 1.0 {
      var run := HighRateOvershoots(cfg);
    } else if cfg.throwsMidway {
      var run := StrayOvershoots(cfg);
    } else {
      forall run | Runs(cfg, Empty(), run) ensures WithinLimit(cfg, Final(cfg, Empty(), run)) {
        assert Inv(cfg, Empty());
        RunKeepsInv(cfg, Empty(), run);
      }
    }
  }
}
