/**
 One agent escrow, kept twice: as a row of `agent_escrows` and as an escrow of the contract.
 `confirm` and `cancel` read the row, call the contract and then write the row, without a lock;
 `partialRelease` works under the row lock and never calls the contract. Any of them may fail or
 crash between two steps, and a call may take effect although its answer is lost. The contract
 lets at most one of the two calls succeed.
 */
module AgentEscrow {
  import opened Wrappers

  type Pid = nat

  datatype Status = Pending | Completed | Cancelled

  datatype Chain = Open | PaidOut | Refunded

  /** What is fixed when the escrow is created; amounts in stroops, times in milliseconds. */
  datatype Terms = Terms(amount: nat, expiresAt: int)

  datatype Proc =
    | Confirming                        // read a pending row
    | ConfirmHeard                      // the contract answered that it paid out
    | CancelRead                        // read a pending row
    | Cancelling                        // past the expiry check
    | CancelHeard                       // the contract answered that it refunded
    | Releasing(part: nat, read: nat)   // inside the transaction, the released amount it read
    | Finished

  datatype State = State(
    status: Status, released: nat, lock: Option<Pid>, chain: Chain,
    accepted: seq<nat>, procs: map<Pid, Proc>, clock: int)

  datatype Action =
    | ReadForConfirm(p: Pid)
    | PayOut(p: Pid, heard: bool)
    | WriteCompleted(p: Pid)
    | ReadForCancel(p: Pid)
    | PassExpiry(p: Pid)
    | Refund(p: Pid, heard: bool)
    | WriteCancelled(p: Pid)
    | LockRow(p: Pid, part: nat)
    | CommitRelease(p: Pid)
    | Abandon(p: Pid)
    | Tick(ms: nat)

  // ---------------------------------------------------------------- The machine

  predicate At(s: State, p: Pid, c: Proc) {
    p in s.procs && s.procs[p] == c
  }

  /** A guard of the handlers: a release must fit what is left of a pending row. */
  predicate Fits(t: Terms, s: State, part: nat) {
    s.status == Pending && 0 < part <= t.amount - s.released
  }

  predicate Enabled(t: Terms, s: State, a: Action) {
    match a
    case ReadForConfirm(p) => p !in s.procs && s.status == Pending
    case PayOut(p, _) => At(s, p, Confirming) && s.chain == Open
    case WriteCompleted(p) => At(s, p, ConfirmHeard) && s.lock.None?
    case ReadForCancel(p) => p !in s.procs && s.status == Pending
    case PassExpiry(p) => At(s, p, CancelRead) && s.clock >= t.expiresAt
    case Refund(p, _) => At(s, p, Cancelling) && s.chain == Open
    case WriteCancelled(p) => At(s, p, CancelHeard) && s.lock.None?
    case LockRow(p, part) => p !in s.procs && s.lock.None? && Fits(t, s, part)
    case CommitRelease(p) => p in s.procs && s.procs[p].Releasing?
    case Abandon(p) => p in s.procs
    case Tick(_) => true
  }

  function Goto(s: State, p: Pid, c: Proc): State {
    s.(procs := s.procs[p := c])
  }

  /** UPDATE agent_escrows SET released_amount, and COMMIT. */
  function DoCommit(s: State, p: Pid): State
    requires p in s.procs && s.procs[p].Releasing?
  {
    var Releasing(part, read) := s.procs[p];
    Goto(s, p, Finished).(released := read + part, accepted := s.accepted + [part], lock := None)
  }

  /** A refused call, an error or a crash; a transaction rolls back and gives up its row lock. */
  function DoAbandon(s: State, p: Pid): State {
    Goto(s, p, Finished).(lock := if s.lock == Some(p) then None else s.lock)
  }

  function Apply(t: Terms, s: State, a: Action): State
    requires Enabled(t, s, a)
  {
    match a
    case ReadForConfirm(p) => Goto(s, p, Confirming)
    case PayOut(p, heard) => Goto(s, p, if heard then ConfirmHeard else Finished).(chain := PaidOut)
    case WriteCompleted(p) => Goto(s, p, Finished).(status := Completed)
    case ReadForCancel(p) => Goto(s, p, CancelRead)
    case PassExpiry(p) => Goto(s, p, Cancelling)
    case Refund(p, heard) => Goto(s, p, if heard then CancelHeard else Finished).(chain := Refunded)
    case WriteCancelled(p) => Goto(s, p, Finished).(status := Cancelled)
    case LockRow(p, part) => Goto(s, p, Releasing(part, s.released)).(lock := Some(p))
    case CommitRelease(p) => DoCommit(s, p)
    case Abandon(p) => DoAbandon(s, p)
    case Tick(ms) => s.(clock := s.clock + ms)
  }

  predicate Runs(t: Terms, s: State, run: seq<Action>)
    decreases |run|
  {
    run == [] || (Enabled(t, s, run[0]) && Runs(t, Apply(t, s, run[0]), run[1..]))
  }

  function Final(t: Terms, s: State, run: seq<Action>): State
    requires Runs(t, s, run)
    decreases |run|
  {
    if run == [] then s else Final(t, Apply(t, s, run[0]), run[1..])
  }

  function Created(now: int): State {
    State(Pending, 0, None, Open, [], map[], now)
  }

  // ---------------------------------------------------------------- The invariant

  function Sum(parts: seq<nat>): nat {
    if parts == [] then 0 else Sum(parts[..|parts| - 1]) + parts[|parts| - 1]
  }

  predicate Agrees(s: State) {
    && (s.status == Completed ==> s.chain == PaidOut)
    && (s.status == Cancelled ==> s.chain == Refunded)
  }

  predicate HeardOk(s: State) {
    forall p :: p in s.procs ==>
      && (s.procs[p] == ConfirmHeard ==> s.chain == PaidOut)
      && (s.procs[p] == CancelHeard ==> s.chain == Refunded)
  }

  predicate ExpiryOk(t: Terms, s: State) {
    && (s.chain == Refunded ==> s.clock >= t.expiresAt)
    && forall p :: p in s.procs && s.procs[p] == Cancelling ==> s.clock >= t.expiresAt
  }

  predicate MoneyOk(t: Terms, s: State) {
    && s.released == Sum(s.accepted) && s.released <= t.amount
    && forall i :: 0 <= i < |s.accepted| ==> s.accepted[i] > 0
  }

  /** The transaction that holds the row lock is the only one, and nothing it read has changed. */
  predicate LockOk(t: Terms, s: State) {
    && (forall p :: p in s.procs && s.procs[p].Releasing? ==> s.lock == Some(p))
    && (s.lock.Some? ==>
          && s.lock.value in s.procs && s.procs[s.lock.value].Releasing?
          && s.procs[s.lock.value].read == s.released && Fits(t, s, s.procs[s.lock.value].part))
  }

  predicate Inv(t: Terms, s: State) {
    Agrees(s) && HeardOk(s) && ExpiryOk(t, s) && MoneyOk(t, s) && LockOk(t, s)
  }

  lemma AgreementKept(t: Terms, s: State, a: Action)
    requires Agrees(s) && HeardOk(s) && Enabled(t, s, a)
    ensures Agrees(Apply(t, s, a)) && HeardOk(Apply(t, s, a))
  {
  }

  lemma ExpiryKept(t: Terms, s: State, a: Action)
    requires ExpiryOk(t, s) && Enabled(t, s, a)
    ensures ExpiryOk(t, Apply(t, s, a))
  {
  }

  lemma MoneyKept(t: Terms, s: State, a: Action)
    requires MoneyOk(t, s) && LockOk(t, s) && Enabled(t, s, a)
    ensures MoneyOk(t, Apply(t, s, a))
  {
    if a.CommitRelease? {
      assert Apply(t, s, a).accepted[..|s.accepted|] == s.accepted;
    }
  }

  lemma LockKept(t: Terms, s: State, a: Action)
    requires LockOk(t, s) && Enabled(t, s, a)
    ensures LockOk(t, Apply(t, s, a))
  {
  }

  lemma ActionKeepsInv(t: Terms, s: State, a: Action)
    requires Inv(t, s) && Enabled(t, s, a)
    ensures Inv(t, Apply(t, s, a))
  {
    AgreementKept(t, s, a);
    ExpiryKept(t, s, a);
    MoneyKept(t, s, a);
    LockKept(t, s, a);
  }

  lemma {:induction false} RunKeepsInv(t: Terms, s: State, run: seq<Action>)
    requires Inv(t, s) && Runs(t, s, run)
    ensures Inv(t, Final(t, s, run))
    decreases |run|
  {
    if run != [] {
      ActionKeepsInv(t, s, run[0]);
      RunKeepsInv(t, Apply(t, s, run[0]), run[1..]);
    }
  }

  // ---------------------------------------------------------------- Whole runs

  /** The row never claims what the contract has not done, and no refund happens before its time. */
  lemma DatabaseAgreesWithChain(t: Terms, now: int, run: seq<Action>)
    requires Runs(t, Created(now), run)
    ensures var s := Final(t, Created(now), run);
            && (s.status == Completed ==> s.chain == PaidOut)
            && (s.status == Cancelled ==> s.chain == Refunded)
            && (s.chain == Refunded ==> s.clock >= t.expiresAt)
  {
    RunKeepsInv(t, Created(now), run);
  }

  /** What has been released is what was accepted, and never more than the escrow holds. */
  lemma ReleasedIsSumOfAccepted(t: Terms, now: int, run: seq<Action>)
    requires Runs(t, Created(now), run)
    ensures var s := Final(t, Created(now), run);
            s.released == Sum(s.accepted) && s.released <= t.amount
  {
    RunKeepsInv(t, Created(now), run);
  }

  lemma TerminalStep(t: Terms, s: State, a: Action)
    requires Inv(t, s) && s.status != Pending && Enabled(t, s, a)
    ensures Apply(t, s, a).status == s.status && Apply(t, s, a).released == s.released
    ensures Apply(t, s, a).accepted == s.accepted && Apply(t, s, a).chain == s.chain
  {
  }

  /** A terminal status never flips, and with it the released amount is frozen. */
  lemma {:induction false} TerminalIsFrozen(t: Terms, s: State, run: seq<Action>)
    requires Inv(t, s) && s.status != Pending && Runs(t, s, run)
    ensures var after := Final(t, s, run);
            after.status == s.status && after.released == s.released
            && after.accepted == s.accepted && after.chain == s.chain
    decreases |run|
  {
    if run != [] {
      TerminalStep(t, s, run[0]);
      ActionKeepsInv(t, s, run[0]);
      TerminalIsFrozen(t, Apply(t, s, run[0]), run[1..]);
    }
  }

  // ---------------------------------------------------------------- Lost writes

  /** A request that knows of the settlement and has yet to write it down. */
  predicate Heard(s: State, p: Pid) {
    p in s.procs && (s.procs[p] == ConfirmHeard || s.procs[p] == CancelHeard)
  }

  lemma {:induction false} NobodyHeard(t: Terms, s: State, run: seq<Action>)
    requires s.status == Pending && s.chain != Open && (forall p :: !Heard(s, p))
    requires Runs(t, s, run)
    ensures Final(t, s, run).status == Pending
    decreases |run|
  {
    if run != [] {
      var s1 := Apply(t, s, run[0]);
      forall p ensures !Heard(s1, p) {
        assert !Heard(s, p);
      }
      assert s1.status == Pending by {
        if run[0].WriteCompleted? || run[0].WriteCancelled? { assert Heard(s, run[0].p); }
      }
      NobodyHeard(t, s1, run[1..]);
    }
  }

  /** The write that a request has in hand, after waiting for the row lock to be given up. */
  function Repair(s: State, p: Pid): seq<Action>
    requires Heard(s, p)
  {
    (if s.lock.Some? then [Abandon(s.lock.value)] else [])
    + [if s.procs[p] == ConfirmHeard then WriteCompleted(p) else WriteCancelled(p)]
  }

  lemma RunStep(t: Terms, s: State, run: seq<Action>)
    requires run != [] && Enabled(t, s, run[0]) && Runs(t, Apply(t, s, run[0]), run[1..])
    ensures Runs(t, s, run) && Final(t, s, run) == Final(t, Apply(t, s, run[0]), run[1..])
  {
  }

  lemma RunOne(t: Terms, s: State, a: Action)
    requires Enabled(t, s, a)
    ensures Runs(t, s, [a]) && Final(t, s, [a]) == Apply(t, s, a)
  {
    assert [a][1..] == [];
    RunStep(t, s, [a]);
  }

  lemma RepairSettles(t: Terms, s: State, p: Pid)
    requires Inv(t, s) && s.status == Pending && Heard(s, p)
    ensures Runs(t, s, Repair(s, p)) && Final(t, s, Repair(s, p)).status != Pending
  {
    var write := if s.procs[p] == ConfirmHeard then WriteCompleted(p) else WriteCancelled(p);
    if s.lock.Some? {
      assert s.lock.value != p;
      var s1 := DoAbandon(s, s.lock.value);
      assert Enabled(t, s1, write);
      RunOne(t, s1, write);
      assert Repair(s, p)[1..] == [write];
      RunStep(t, s, Repair(s, p));
    } else {
      assert Repair(s, p) == [write];
      RunOne(t, s, write);
    }
  }

  /** Once the contract has settled, a pending row can still follow exactly if a request has yet to write it. */
  lemma SettlesIffSomeoneHeard(t: Terms, s: State)
    requires Inv(t, s) && s.status == Pending && s.chain != Open
    ensures (exists run :: Runs(t, s, run) && Final(t, s, run).status != Pending) <==> (exists p :: Heard(s, p))
  {
    if p :| Heard(s, p) {
      RepairSettles(t, s, p);
    } else {
      forall run | Runs(t, s, run) ensures Final(t, s, run).status == Pending {
        NobodyHeard(t, s, run);
      }
    }
  }

  // ---------------------------------------------------------------- Releases after the contract has settled

  lemma {:induction false} SumGrows(before: seq<nat>, after: seq<nat>)
    requires before <= after && forall i :: 0 <= i < |after| ==> after[i] > 0
    ensures Sum(after) >= Sum(before) + |after| - |before|
    decreases |after|
  {
    if |after| > |before| {
      SumGrows(before, after[..|after| - 1]);
    } else {
      assert before == after;
    }
  }

  lemma {:induction false} AcceptedGrows(t: Terms, s: State, run: seq<Action>)
    requires Runs(t, s, run)
    ensures s.accepted <= Final(t, s, run).accepted
    decreases |run|
  {
    if run != [] {
      AcceptedGrows(t, Apply(t, s, run[0]), run[1..]);
    }
  }

  /** Nothing more can be released from a full or a terminal row. */
  lemma NoMoreReleases(t: Terms, s: State, run: seq<Action>)
    requires Inv(t, s) && Runs(t, s, run) && (s.status != Pending || s.released == t.amount)
    ensures Final(t, s, run).accepted == s.accepted
  {
    if s.status != Pending {
      TerminalIsFrozen(t, s, run);
    } else {
      AcceptedGrows(t, s, run);
      RunKeepsInv(t, s, run);
      SumGrows(s.accepted, Final(t, s, run).accepted);
    }
  }

  /** The next release: the one in hand, or one of all that is left. */
  lemma ReleasesMore(t: Terms, s: State) returns (run: seq<Action>)
    requires Inv(t, s) && s.status == Pending && s.released < t.amount
    ensures Runs(t, s, run) && |Final(t, s, run).accepted| == |s.accepted| + 1
  {
    if s.lock.Some? {
      run := [CommitRelease(s.lock.value)];
      RunOne(t, s, run[0]);
    } else {
      var p := UnusedExists(s.procs.Keys);
      assert p !in s.procs;
      run := [LockRow(p, t.amount - s.released), CommitRelease(p)];
      var s1 := Apply(t, s, run[0]);
      RunOne(t, s1, CommitRelease(p));
      assert run[1..] == [CommitRelease(p)];
      RunStep(t, s, run);
    }
  }

  /**
   A further release can still be accepted exactly as long as the row is pending and not fully
   released. What the contract has done, and who has heard of it, makes no difference.
   */
  lemma ReleaseCanFollowIff(t: Terms, s: State)
    requires Inv(t, s)
    ensures (exists run :: Runs(t, s, run) && Final(t, s, run).accepted != s.accepted)
            <==> s.status == Pending && s.released < t.amount
  {
    if s.status == Pending && s.released < t.amount {
      var run := ReleasesMore(t, s);
    } else {
      forall run | Runs(t, s, run) ensures Final(t, s, run).accepted == s.accepted {
        NoMoreReleases(t, s, run);
      }
    }
  }

  /** A refund that was answered, and a release of the whole amount before the row is written. */
  lemma RefundedAndReleased(t: Terms) returns (run: seq<Action>)
    requires t.amount > 0
    ensures Runs(t, Created(t.expiresAt), run)
    ensures Final(t, Created(t.expiresAt), run)
            == State(Pending, t.amount, None, Refunded, [t.amount], map[0 := CancelHeard, 1 := Finished], t.expiresAt)
  {
    var s := Created(t.expiresAt);
    run := RefundAnswered(t);
    RunsConcat(t, s, run, LockRow(1, t.amount));
    run := run + [LockRow(1, t.amount)];
    RunsConcat(t, s, run, CommitRelease(1));
    run := run + [CommitRelease(1)];
  }

  lemma RefundAnswered(t: Terms) returns (run: seq<Action>)
    ensures Runs(t, Created(t.expiresAt), run)
    ensures Final(t, Created(t.expiresAt), run)
            == Created(t.expiresAt).(chain := Refunded, procs := map[0 := CancelHeard])
  {
    var s := Created(t.expiresAt);
    RunsConcat(t, s, [], ReadForCancel(0));
    run := [] + [ReadForCancel(0)];
    RunsConcat(t, s, run, PassExpiry(0));
    run := run + [PassExpiry(0)];
    RunsConcat(t, s, run, Refund(0, true));
    run := run + [Refund(0, true)];
  }

  /** So without anything lost a cancelled and refunded escrow can be released in full. */
  lemma CancelledYetReleased(t: Terms) returns (run: seq<Action>)
    requires t.amount > 0
    ensures Runs(t, Created(t.expiresAt), run)
    ensures var s := Final(t, Created(t.expiresAt), run);
            s.status == Cancelled && s.chain == Refunded && s.released == t.amount
  {
    run := RefundedAndReleased(t);
    RunsConcat(t, Created(t.expiresAt), run, WriteCancelled(0));
    run := run + [WriteCancelled(0)];
  }

  lemma {:induction false} RunsConcat(t: Terms, s: State, run: seq<Action>, a: Action)
    requires Runs(t, s, run) && Enabled(t, Final(t, s, run), a)
    ensures Runs(t, s, run + [a]) && Final(t, s, run + [a]) == Apply(t, Final(t, s, run), a)
    decreases |run|
  {
    if run == [] {
      assert run + [a] == [a];
      assert Runs(t, Apply(t, s, a), [a][1..]);
    } else {
      assert (run + [a])[1..] == run[1..] + [a];
      RunsConcat(t, Apply(t, s, run[0]), run[1..], a);
    }
  }
}
