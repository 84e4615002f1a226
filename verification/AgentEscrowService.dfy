/**
 `confirm`, `cancel` and `partialRelease` of the agent escrow controller, in the order their awaits
 run, verified to be sequences of actions of the machine in `AgentEscrow`. Who the caller is, and
 how the contract call ends, comes in as parameters; a row lock that is not granted is an error.
 */
module AgentEscrowService {
  import opened Wrappers
  import opened AgentEscrow

  const BPS := 10000

  /** How a contract call ends when the contract would accept it: answered, lost on the way, or never made. */
  datatype Call = Answered | AnswerLost | NeverMade

  /** How the UPDATE after the call ends; a later step that throws counts as a write that was made and threw. */
  datatype Write = Made | NotMade | MadeButThrew

  datatype Reply = Ok | NotPending | Forbidden | TooEarly | ChainFailed | ServerError

  /** The answer of `partialRelease`: amounts in stroops, fee and net exact. */
  datatype Release =
    | Recorded(released: nat, remaining: int, fee: real, net: real)
    | NotRecorded(reply: Reply)
    | ExceedsBalance
    | BadAmount

  class EscrowStore {
    const terms: Terms
    const feeBps: nat
    var status: Status
    var released: nat
    var lock: Option<Pid>
    var chain: Chain               // the escrow of the contract
    var clock: int
    ghost var log: seq<Action>
    ghost var start: int
    ghost var now: State

    ghost predicate Valid()
      reads this
    {
      Past() && Shows(now)
    }

    ghost predicate Past()
      reads this
    {
      Runs(terms, Created(start), log) && now == Final(terms, Created(start), log)
    }

    ghost predicate Shows(s: State)
      reads this
    {
      s.status == status && s.released == released && s.lock == lock && s.chain == chain && s.clock == clock
    }

    ghost predicate Stands(p: Pid, c: Proc)
      reads this
    {
      At(now, p, c)
    }

    constructor (terms: Terms, feeBps: nat, time: int)
      ensures Valid() && log == [] && this.terms == terms && this.feeBps == feeBps
    {
      this.terms, this.feeBps := terms, feeBps;
      status, released, lock, chain, clock := Pending, 0, None, Open, time;
      log, start, now := [], time, Created(time);
    }

    ghost method Book(a: Action)
      requires Past() && Enabled(terms, now, a) && Shows(Apply(terms, now, a))
      modifies this`log, this`now
      ensures Valid() && log == old(log) + [a] && now == Apply(terms, old(now), a)
    {
      RunsConcat(terms, Created(start), log, a);
      log, now := log + [a], Apply(terms, now, a);
    }

    /** An await: time passes and other requests act; the caller keeps its place. */
    method Await(ghost p: Pid)
      requires Valid() && p in now.procs
      modifies this
      ensures Valid() && old(log) <= log && start == old(start) && Stands(p, old(now.procs[p]))
    {
    }

    lemma Knows()
      requires Valid()
      ensures Inv(terms, now)
    {
      RunKeepsInv(terms, Created(start), log);
    }

    /** The end of a request that goes no further. */
    method Stop(ghost p: Pid)
      requires Valid() && p in now.procs && !now.procs[p].Releasing?
      modifies this
      ensures Valid() && old(log) <= log && Stands(p, Finished)
      ensures status == old(status) && released == old(released) && chain == old(chain)
      ensures lock == old(lock) && clock == old(clock)
    {
      Knows();
      Book(Abandon(p));
    }

    // -------------------------------------------------------------- confirm

    /** `confirmPayout`: the contract pays out if it is still open and the call gets there. */
    method ConfirmPayout(ghost p: Pid, call: Call) returns (ok: bool)
      requires Valid() && Stands(p, Confirming)
      modifies this
      ensures Valid() && old(log) <= log
      ensures Stands(p, if ok then ConfirmHeard else Finished)
      ensures if ok then chain == PaidOut else call.Answered? ==> chain != Open
    {
      Await(p);
      ok := chain == Open && call.Answered?;
      if chain == Open && !call.NeverMade? {
        chain := PaidOut;
        Book(PayOut(p, ok));
      } else {
        Stop(p);
      }
    }

    /** UPDATE agent_escrows SET status = 'completed' */
    method MarkCompleted(ghost p: Pid, write: Write) returns (ok: bool)
      requires Valid() && Stands(p, ConfirmHeard)
      modifies this
      ensures Valid() && old(log) <= log && Stands(p, Finished)
      ensures if ok then status == Completed && chain == PaidOut else lock.Some? || write != Made
    {
      Await(p);
      Knows();
      ok := lock.None? && write == Made;
      if lock.None? && write != NotMade {
        status := Completed;
        Book(WriteCompleted(p));
      } else {
        Stop(p);
      }
    }

    /** POST /api/agent-escrow/:id/confirm-payout */
    method Confirm(p: Pid, isAssignedAgent: bool, call: Call, write: Write) returns (reply: Reply)
      requires Valid() && p !in now.procs
      modifies this
      ensures Valid() && old(log) <= log
      ensures reply == Ok ==> status == Completed && chain == PaidOut && isAssignedAgent
      ensures reply == NotPending <==> old(status) != Pending
      ensures reply == NotPending ==> log == old(log) && status == old(status) && released == old(released)
      ensures reply != NotPending ==> Stands(p, Finished)
      ensures reply == Forbidden <==> old(status) == Pending && !isAssignedAgent
      ensures reply == ChainFailed && call.Answered? ==> chain != Open
      ensures reply == ServerError ==> lock.Some? || write != Made
      ensures reply != TooEarly
    {
      if status != Pending {
        return NotPending;
      }
      Book(ReadForConfirm(p));
      Await(p);
      if !isAssignedAgent {
        Stop(p);
        return Forbidden;
      }
      var paid := ConfirmPayout(p, call);
      if !paid {
        return ChainFailed;
      }
      var written := MarkCompleted(p, write);
      reply := if written then Ok else ServerError;
    }

    // -------------------------------------------------------------- cancel

    method CheckExpiry(ghost p: Pid) returns (ok: bool)
      requires Valid() && Stands(p, CancelRead)
      modifies this
      ensures Valid() && old(log) <= log
      ensures Stands(p, if ok then Cancelling else Finished)
      ensures ok <==> clock >= terms.expiresAt
    {
      Await(p);
      ok := clock >= terms.expiresAt;
      if ok {
        Book(PassExpiry(p));
      } else {
        Stop(p);
      }
    }

    /** `cancelEscrow`: the contract refunds if it is still open and the call gets there. */
    method CancelEscrow(ghost p: Pid, call: Call) returns (ok: bool)
      requires Valid() && Stands(p, Cancelling)
      modifies this
      ensures Valid() && old(log) <= log
      ensures Stands(p, if ok then CancelHeard else Finished)
      ensures if ok then chain == Refunded else call.Answered? ==> chain != Open
    {
      Await(p);
      ok := chain == Open && call.Answered?;
      if chain == Open && !call.NeverMade? {
        chain := Refunded;
        Book(Refund(p, ok));
      } else {
        Stop(p);
      }
    }

    /** UPDATE agent_escrows SET status = 'cancelled' */
    method MarkCancelled(ghost p: Pid, write: Write) returns (ok: bool)
      requires Valid() && Stands(p, CancelHeard)
      modifies this
      ensures Valid() && old(log) <= log && Stands(p, Finished)
      ensures if ok then status == Cancelled && chain == Refunded && clock >= terms.expiresAt else lock.Some? || write != Made
    {
      Await(p);
      Knows();
      ok := lock.None? && write == Made;
      if lock.None? && write != NotMade {
        status := Cancelled;
        Book(WriteCancelled(p));
      } else {
        Stop(p);
      }
    }

    /** POST /api/escrow/:id/cancel */
    method Cancel(p: Pid, isSender: bool, call: Call, write: Write) returns (reply: Reply)
      requires Valid() && p !in now.procs
      modifies this
      ensures Valid() && old(log) <= log
      ensures reply == Ok ==> status == Cancelled && chain == Refunded && clock >= terms.expiresAt && isSender
      ensures reply == NotPending <==> old(status) != Pending
      ensures reply == NotPending ==> log == old(log) && status == old(status) && released == old(released)
      ensures reply != NotPending ==> Stands(p, Finished)
      ensures reply == Forbidden <==> old(status) == Pending && !isSender
      ensures reply == TooEarly ==> clock < terms.expiresAt
      ensures reply == ChainFailed && call.Answered? ==> chain != Open
      ensures reply == ServerError ==> lock.Some? || write != Made
    {
      if status != Pending {
        return NotPending;
      }
      Book(ReadForCancel(p));
      Await(p);
      if !isSender {
        Stop(p);
        return Forbidden;
      }
      var due := CheckExpiry(p);
      if !due {
        return TooEarly;
      }
      var refunded := CancelEscrow(p, call);
      if !refunded {
        return ChainFailed;
      }
      var written := MarkCancelled(p, write);
      reply := if written then Ok else ServerError;
    }

    // -------------------------------------------------------------- partialRelease

    /** UPDATE agent_escrows SET released_amount, COMMIT; or ROLLBACK if either fails. */
    method Commit(ghost p: Pid, part: nat, newReleased: nat, fails: bool) returns (ok: bool)
      requires Valid() && newReleased >= part && Stands(p, Releasing(part, newReleased - part))
      modifies this
      ensures Valid() && old(log) <= log && Stands(p, Finished) && ok == !fails
      ensures ok ==> released == newReleased == Sum(now.accepted) <= terms.amount && part in now.accepted
    {
      Await(p);
      Knows();
      ok := !fails;
      lock := None;
      if ok {
        released := newReleased;
        Book(CommitRelease(p));
      } else {
        Book(Abandon(p));
      }
    }

    /** POST /api/contracts/escrow/:id/partial-release, the whole of it under the row lock. */
    method PartialRelease(p: Pid, part: int, isSender: bool, fails: bool) returns (answer: Release)
      requires Valid() && p !in now.procs
      modifies this
      ensures Valid() && old(log) <= log
      ensures answer.BadAmount? <==> part <= 0
      ensures answer.Recorded? <==> part > 0 && old(lock).None? && old(status) == Pending && isSender && part <= terms.amount - old(released) && !fails
      ensures answer.Recorded? ==>
                && part in now.accepted && answer.released == released == old(released) + part == Sum(now.accepted)
                && answer.remaining == terms.amount - released && answer.remaining >= 0
                && answer.fee + answer.net == part as real && answer.fee * 10000.0 == (part * feeBps) as real
      ensures answer.ExceedsBalance? <==>
                part > terms.amount - old(released) && part > 0 && old(lock).None? && old(status) == Pending && isSender
      ensures answer == NotRecorded(NotPending) <==> part > 0 && old(lock).None? && old(status) != Pending
      ensures answer == NotRecorded(Forbidden) <==> part > 0 && old(lock).None? && old(status) == Pending && !isSender
      ensures !answer.Recorded? ==> log == old(log) || answer == NotRecorded(ServerError)
    {
      if part <= 0 {
        return BadAmount;
      }
      if lock.Some? {
        return NotRecorded(ServerError);
      }
      if status != Pending {
        return NotRecorded(NotPending);
      }
      if !isSender {
        return NotRecorded(Forbidden);
      }
      var remaining := terms.amount - released;
      if part > remaining {
        return ExceedsBalance;
      }
      var newReleased := released + part;
      lock := Some(p);
      Book(LockRow(p, part));
      var ok := Commit(p, part, newReleased, fails);
      if !ok {
        return NotRecorded(ServerError);
      }
      var fee := (part * feeBps) as real / BPS as real;
      answer := Recorded(newReleased, terms.amount - newReleased, fee, part as real - fee);
    }
  }
}
