/**
 The slot loop of `loyaltyMintJob.js`, in the order its awaits run, verified to be a sequence of
 actions of the machine in `LoyaltyQueue`. What the database, the contract and the clock answer
 comes in as parameters.
 */
module LoyaltyService {
  import opened Wrappers
  import opened LoyaltyQueue

  const XLM_USD_RATE: real := 0.11
  const MIN_PAYMENT_XLM_EQUIVALENT: real := 1.0

  datatype Asset = XLM | USDC | USD | Other

  /** The columns of a queue row that never change. */
  datatype Payment = Payment(amount: real, asset: Asset, createdAt: int)

  /** How the mint call goes: it answers, is not configured, or throws before or after taking effect. */
  datatype MintMode = Answers | NotConfigured | ThrowsBefore | ThrowsAfter

  /** What the environment answers to one slot execution: rows locked elsewhere, and the fate of its calls. */
  datatype Env = Env(slotLocked: bool, locked: set<JobId>, mint: MintMode, first: WriteOutcome, second: WriteOutcome)

  /** Whether the try block around the mint ends in its catch branch. */
  predicate Throws(env: Env) {
    match env.mint
    case Answers => !(env.first.Written? && env.second.Written?)
    case NotConfigured => !env.first.Written?
    case _ => true
  }

  function EstimateXlmEquivalent(amount: real, asset: Asset): (xlm: real)
    ensures asset == XLM ==> xlm == amount
    ensures asset != XLM ==> xlm * 0.11 == amount
  {
    if asset == XLM then amount else amount / XLM_USD_RATE
  }

  lemma PastKnown(run: seq<Action>, j: JobId)
    requires Runs(Empty(), run) && j in Final(Empty(), run).queue
    ensures j in Final(Empty(), run).past
  {
    RunKeepsInv(Empty(), run);
  }

  lemma OneMore(run: seq<Action>, a: Action)
    requires Runs(Empty(), run) && Enabled(Final(Empty(), run), a)
    ensures Runs(Empty(), run + [a]) && Final(Empty(), run + [a]) == Apply(Final(Empty(), run), a)
  {
    RunStep(Final(Empty(), run), [a]);
    RunsConcat(Empty(), run, [a]);
  }

  lemma {:induction false} OldestExists(payments: map<JobId, Payment>, ids: set<JobId>) returns (oldest: JobId)
    requires ids != {} && ids <= payments.Keys
    ensures oldest in ids && forall k :: k in ids ==> payments[oldest].createdAt <= payments[k].createdAt
    decreases ids
  {
    var first :| first in ids;
    var rest := ids - {first};
    oldest := first;
    if rest != {} {
      var other := OldestExists(payments, rest);
      if payments[other].createdAt < payments[first].createdAt { oldest := other; }
    }
    forall k | k in ids ensures payments[oldest].createdAt <= payments[k].createdAt {
      assert k == first || k in rest;
    }
  }

  class LoyaltyMintJob {
    var queue: map<JobId, Job>
    var payments: map<JobId, Payment>
    var completed: set<JobId>         // payments whose transaction has the status 'completed'
    var ledger: map<RunId, Entry>
    var chain: map<TxHash, Mint>      // what the loyalty contract has executed
    var ids: set<RunId>               // ids given to executions so far
    ghost var log: seq<Action>
    ghost var now: State

    ghost predicate Valid()
      reads this
    {
      && Runs(Empty(), log) && now == Final(Empty(), log)
      && now.queue == queue && now.ledger == ledger && now.chain == chain && now.completed == completed
      && queue.Keys <= payments.Keys && now.runs.Keys <= ids
    }

    ghost predicate Stands(r: RunId, ph: Phase)
      reads this
    {
      r in now.runs && now.runs[r] == ph && ph.job in queue && ph.job in now.past
    }

    constructor ()
      ensures Valid() && log == []
    {
      queue, payments, completed, ledger, chain, ids, log, now := map[], map[], {}, map[], map[], {}, [], Empty();
    }

    ghost method Book(a: Action)
      requires Runs(Empty(), log) && now == Final(Empty(), log) && Enabled(now, a) && queue.Keys <= payments.Keys
      requires queue == Apply(now, a).queue && ledger == Apply(now, a).ledger && chain == Apply(now, a).chain
      requires Apply(now, a).runs.Keys <= ids && completed == Apply(now, a).completed
      modifies this`log, this`now
      ensures Valid() && log == old(log) + [a] && now == Apply(old(now), a)
    {
      OneMore(log, a);
      log, now := log + [a], Apply(now, a);
    }

    /** An await: other executions may take any number of actions; the caller keeps its place. */
    method Await(ghost r: RunId)
      requires Valid() && r in now.runs && Stands(r, now.runs[r])
      modifies this
      ensures Valid() && old(log) <= log && Stands(r, old(now.runs[r]))
    {
    }

    /** WHERE lq.status = 'pending' AND t.status = 'completed' ORDER BY lq.created_at LIMIT 1 ... SKIP LOCKED */
    method SelectNext(locked: set<JobId>) returns (next: Option<JobId>)
      requires Valid()
      ensures next.None? ==> forall j :: j in queue && queue[j].status.Pending? && j in completed ==> j in locked
      ensures next.Some? ==>
                && next.value in queue && queue[next.value].status.Pending? && next.value in completed && next.value !in locked
                && forall k :: k in queue && queue[k].status.Pending? && k in completed && k !in locked ==>
                     payments[next.value].createdAt <= payments[k].createdAt
    {
      next := None;
      var due := set j | j in queue && queue[j].status == Pending && j in completed && j !in locked;
      forall j | j in queue && queue[j].status.Pending? && j in completed && j !in locked ensures j in due {
      }
      if due != {} {
        ghost var oldest := OldestExists(payments, due);
        var j :| j in due && forall k :: k in due ==> payments[j].createdAt <= payments[k].createdAt;
        next := Some(j);
      }
    }

    /** UPDATE ... SET status = 'processing', retry_count = retry_count + 1, in the same transaction. */
    method TakeJob(ghost r: RunId, j: JobId) returns (retry: nat)
      requires Valid() && r !in now.runs && r in ids && j in queue && queue[j].status.Pending? && j in completed
      modifies this`queue, this`log, this`now
      ensures Valid() && log == old(log) + [Claim(r, j)] && retry == old(queue)[j].retryCount
      ensures queue == old(queue)[j := old(queue)[j].(status := Processing, retryCount := retry + 1)]
      ensures Stands(r, Claimed(j, retry))
    {
      PastKnown(log, j);
      retry := queue[j].retryCount;
      queue := queue[j := queue[j].(status := Processing, retryCount := retry + 1)];
      Book(Claim(r, j));
    }

    /**
     Claims the oldest pending row of a completed transaction that no other session holds; none is
     claimed exactly if every such row is locked elsewhere.
     */
    method ClaimNextJob(ghost r: RunId, locked: set<JobId>) returns (job: Option<JobId>, retry: nat)
      requires Valid() && r !in now.runs && r in ids
      modifies this`queue, this`log, this`now
      ensures Valid() && old(log) <= log
      ensures job.None? <==> forall j :: j in old(queue) && old(queue)[j].status.Pending? && j in old(completed) ==> j in locked
      ensures job.None? ==> log == old(log) && queue == old(queue)
      ensures job.Some? ==>
                && job.value in old(queue) && old(queue)[job.value].status.Pending? && job.value in old(completed)
                && job.value !in locked && retry == old(queue)[job.value].retryCount
                && (forall k :: k in old(queue) && old(queue)[k].status.Pending? && k in old(completed) && k !in locked ==>
                      old(payments)[job.value].createdAt <= old(payments)[k].createdAt)
                && queue == old(queue)[job.value := old(queue)[job.value].(status := Processing, retryCount := retry + 1)]
                && Stands(r, Claimed(job.value, retry))
    {
      retry := 0;
      job := SelectNext(locked);
      if job.Some? {
        retry := TakeJob(r, job.value);
      }
    }

    method CompareThreshold(ghost r: RunId, j: JobId, ghost retry: nat) returns (below: bool)
      requires Valid() && Stands(r, Claimed(j, retry))
      modifies this
      ensures Valid() && old(log) <= log && Stands(r, if below then Skipping(j, retry) else Minting(j, retry))
      ensures below == (EstimateXlmEquivalent(old(payments)[j].amount, old(payments)[j].asset) < MIN_PAYMENT_XLM_EQUIVALENT)
    {
      below := EstimateXlmEquivalent(payments[j].amount, payments[j].asset) < MIN_PAYMENT_XLM_EQUIVALENT;
      Book(CheckThreshold(r, below));
    }

    method Skip(ghost r: RunId, j: JobId, ghost retry: nat)
      requires Valid() && Stands(r, Skipping(j, retry))
      modifies this
      ensures Valid() && old(log) <= log && Stands(r, Finished(j))
      ensures queue[j].status.Completed? && forall tx :: tx in chain ==> chain[tx].run != r
    {
      Await(r);
      RunKeepsUnminted(Empty(), log);
      queue := queue[j := queue[j].(status := Completed)];
      Book(CompleteSkipped(r));
    }

    /** `mintPoints`: how it goes is up to the environment; a mint that takes effect has a new hash. */
    method MintPoints(r: RunId, j: JobId, ghost retry: nat, mode: MintMode) returns (result: MintOutcome)
      requires Valid() && Stands(r, Minting(j, retry))
      modifies this
      ensures Valid() && old(log) <= log
      ensures result.Answered? <==> mode.Answers?
      ensures result.Absent? <==> mode.NotConfigured?
      ensures result.Answered? ==> result.txHash in chain && chain[result.txHash] == Mint(j, r)
      ensures Stands(r, match result
                        case Answered(tx) => Minted(j, retry, tx)
                        case Absent => Unconfigured(j, retry)
                        case _ => Catching(j, retry))
    {
      Await(r);
      ghost var bound := UnusedExists(chain.Keys);
      assert bound !in chain;
      var tx: TxHash :| tx !in chain;
      match mode {
        case Answers => result := Answered(tx);
        case NotConfigured => result := Absent;
        case ThrowsBefore => result := ThrewBefore;
        case ThrowsAfter => result := ThrewAfter(tx);
      }
      if mode.Answers? || mode.ThrowsAfter? {
        chain := chain[tx := Mint(j, r)];
      }
      Book(CallMint(r, result));
    }

    /** UPDATE ... SET status = 'completed', tx_hash = tx; `outcome` says whether it is made and whether it throws. */
    method MarkCompleted(ghost r: RunId, j: JobId, ghost retry: nat, tx: TxHash, outcome: WriteOutcome)
      requires Valid() && Stands(r, Minted(j, retry, tx))
      modifies this
      ensures Valid() && old(log) <= log
      ensures Stands(r, if outcome.Written? then Recording(j, retry, tx) else Catching(j, retry))
    {
      Await(r);
      if !outcome.NotWritten? {
        queue := queue[j := queue[j].(status := Completed, txHash := Some(tx))];
      }
      Book(CompleteMinted(r, outcome));
    }

    /** INSERT INTO loyalty_points, under a fresh id that the model identifies with the execution's. */
    method RecordPoints(r: RunId, j: JobId, ghost retry: nat, tx: TxHash, outcome: WriteOutcome)
      requires Valid() && Stands(r, Recording(j, retry, tx))
      modifies this
      ensures Valid() && old(log) <= log
      ensures Stands(r, if outcome.Written? then Finished(j) else Catching(j, retry))
      ensures outcome.Written? ==> r in ledger && ledger[r] == Entry(j, tx)
    {
      Await(r);
      if !outcome.NotWritten? {
        ledger := ledger[r := Entry(j, tx)];
      }
      Book(InsertEntry(r, outcome));
    }

    method MarkUnconfigured(ghost r: RunId, j: JobId, ghost retry: nat, outcome: WriteOutcome)
      requires Valid() && Stands(r, Unconfigured(j, retry))
      modifies this
      ensures Valid() && old(log) <= log
      ensures Stands(r, if outcome.Written? then Finished(j) else Catching(j, retry))
    {
      Await(r);
      if !outcome.NotWritten? {
        queue := queue[j := queue[j].(status := Completed)];
      }
      Book(CompleteUnconfigured(r, outcome));
    }

    /** The catch branch: `retry` is the retry_count the claim read, not the one stored since. */
    method DeferOrFail(ghost r: RunId, j: JobId, retry: nat)
      requires Valid() && Stands(r, Catching(j, retry))
      modifies this
      ensures Valid() && old(log) <= log && Stands(r, Finished(j))
      ensures queue[j].status == if retry < MAX_RETRIES then Pending else Failed
    {
      Await(r);
      if retry < MAX_RETRIES {
        queue := queue[j := queue[j].(status := Pending, retryCount := queue[j].retryCount + 1)];
      } else {
        queue := queue[j := queue[j].(status := Failed)];
      }
      Book(HandleError(r));
    }

    /** The try block around the mint, with its catch. */
    method MintAndRecord(r: RunId, j: JobId, retry: nat, env: Env)
      requires Valid() && Stands(r, Minting(j, retry))
      modifies this
      ensures Valid() && old(log) <= log && Stands(r, Finished(j))
      ensures Paid(r, j, retry, env)
    {
      var result := MintPoints(r, j, retry, env.mint);
      var threw := true;
      if result.Answered? {
        threw := WriteMint(r, j, retry, result.txHash, env);
      } else if result.Absent? {
        MarkUnconfigured(r, j, retry, env.first);
        threw := !env.first.Written?;
      }
      if threw {
        DeferOrFail(r, j, retry);
      } else if result.Answered? {
        LedgerMatchesChain(log, r, r);
      }
    }

    method WriteMint(r: RunId, j: JobId, ghost retry: nat, tx: TxHash, env: Env) returns (threw: bool)
      requires Valid() && Stands(r, Minted(j, retry, tx))
      modifies this
      ensures Valid() && old(log) <= log && Stands(r, if threw then Catching(j, retry) else Finished(j))
      ensures threw == !(env.first.Written? && env.second.Written?)
      ensures !threw ==> r in ledger && ledger[r] == Entry(j, tx)
    {
      MarkCompleted(r, j, retry, tx, env.first);
      threw := !env.first.Written?;
      if !threw {
        RecordPoints(r, j, retry, tx, env.second);
        threw := !env.second.Written?;
      }
    }

    method NextRun() returns (r: RunId)
      requires Valid()
      modifies this`ids
      ensures Valid() && r !in now.runs && r in ids
    {
      ghost var bound := UnusedExists(ids);
      assert bound !in ids;
      r :| r !in ids;
      ids := ids + {r};
    }

    /**
     One slot: claims a job, completes dust payments without a mint, and mints and records the others
     if the environment lets it.
     */
    method ProcessSlot(r: RunId, env: Env) returns (job: Option<JobId>, ghost retry: nat)
      requires Valid() && r !in now.runs && r in ids
      modifies this
      ensures Valid() && old(log) <= log
      ensures job.None? <==> forall j :: j in old(queue) && old(queue)[j].status.Pending? && j in old(completed) ==> j in env.locked
      ensures job.None? ==> log == old(log) && queue == old(queue) && chain == old(chain) && ledger == old(ledger)
      ensures job.Some? ==>
                && job.value in old(queue) && old(queue)[job.value].status.Pending? && job.value in old(completed)
                && job.value !in env.locked && retry == old(queue)[job.value].retryCount && Stands(r, Finished(job.value))
      ensures job.Some? && EstimateXlmEquivalent(old(payments)[job.value].amount, old(payments)[job.value].asset) < 1.0 ==>
                queue[job.value].status.Completed? && forall tx :: tx in chain ==> chain[tx].run != r
      ensures job.Some? && EstimateXlmEquivalent(old(payments)[job.value].amount, old(payments)[job.value].asset) >= 1.0 ==>
                Paid(r, job.value, retry, env)
    {
      var read;
      job, read := ClaimNextJob(r, env.locked);
      retry := read;
      if job.Some? {
        var j := job.value;
        var below := CompareThreshold(r, j, read);
        if below {
          Skip(r, j, read);
        } else {
          MintAndRecord(r, j, read, env);
        }
      }
    }

    /** How a payment stands once it was minted, or the mint failed. */
    predicate Paid(r: RunId, j: JobId, retry: nat, env: Env)
      reads this
    {
      && j in queue
      && (Throws(env) ==> queue[j].status == if retry < MAX_RETRIES then Pending else Failed)
      && (env.mint.Answers? && !Throws(env) ==>
            && r in ledger && ledger[r].job == j
            && ledger[r].txHash in chain && chain[ledger[r].txHash] == Mint(j, r))
    }

    /** The loop over slots; a slot whose distributed lock another replica holds is skipped. */
    method ProcessLoyaltyMintQueue(concurrency: nat, env: nat -> Env)
      requires Valid()
      modifies this
      ensures Valid() && old(log) <= log
      ensures forall j :: |MintsOf(chain, j)| <= 1 + Losses(now, j) && Attempts(now, j) <= 3
    {
      for i := 0 to concurrency
        invariant Valid() && old(log) <= log
      {
        if !env(i).slotLocked {
          var r := NextRun();
          var job, _ := ProcessSlot(r, env(i));
        }
      }
      forall j ensures |MintsOf(chain, j)| <= 1 + Losses(now, j) && Attempts(now, j) <= 3 {
        MintsAreBounded(log, j);
      }
    }
  }
}
