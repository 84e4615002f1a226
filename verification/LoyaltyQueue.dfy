/**
 The loyalty mint queue as a concurrent protocol: any number of slot executions claim, mint and
 write back, one awaited call at a time, and may stop for good at any step. A mint call may fail
 with or without having reached the chain, and so may every write after it.
 */
module LoyaltyQueue {
  import opened Wrappers

  type JobId = nat   // the payment's transaction id, primary key of the queue
  type RunId = nat   // one execution of a slot, also the id of the ledger row it may insert
  type TxHash = nat

  const MAX_RETRIES: nat := 3

  datatype Status = Pending | Processing | Completed | Failed

  /** A row of `loyalty_mint_queue`. */
  datatype Job = Job(status: Status, retryCount: nat, txHash: Option<TxHash>)

  /** A `mint` row of `loyalty_points`. */
  datatype Entry = Entry(job: JobId, txHash: TxHash)

  datatype Mint = Mint(job: JobId, run: RunId)

  /** Where a slot execution stands; `retry` is the retry_count read by the claim. */
  datatype Phase =
    | Claimed(job: JobId, retry: nat)
    | Skipping(job: JobId, retry: nat)
    | Minting(job: JobId, retry: nat)
    | Minted(job: JobId, retry: nat, txHash: TxHash)
    | Recording(job: JobId, retry: nat, txHash: TxHash)
    | Unconfigured(job: JobId, retry: nat)
    | Catching(job: JobId, retry: nat)
    | Finished(job: JobId)

  /** History of one job: who claimed it last, how often a mint was tried, how often a mint was lost. */
  datatype Past = Past(claimer: Option<RunId>, attempts: nat, losses: nat)

  datatype State = State(
    queue: map<JobId, Job>,
    ledger: map<RunId, Entry>,
    chain: map<TxHash, Mint>,
    runs: map<RunId, Phase>,
    past: map<JobId, Past>,
    completed: set<JobId>)   // payments whose transaction is completed now

  /** What the mint contract does: answers, is not configured, or throws before or after taking effect. */
  datatype MintOutcome = Answered(txHash: TxHash) | Absent | ThrewBefore | ThrewAfter(txHash: TxHash)

  /** What a write does: it is made, or it throws before or after taking effect. */
  datatype WriteOutcome = Written | NotWritten | WrittenButThrew

  datatype Action =
    | Enqueue(job: JobId)
    | SetTransaction(job: JobId, completed: bool)   // the payment's transaction changes its status
    | Claim(run: RunId, job: JobId)
    | CheckThreshold(run: RunId, below: bool)
    | CompleteSkipped(run: RunId)
    | CallMint(run: RunId, result: MintOutcome)
    | CompleteMinted(run: RunId, outcome: WriteOutcome)
    | InsertEntry(run: RunId, outcome: WriteOutcome)
    | CompleteUnconfigured(run: RunId, outcome: WriteOutcome)
    | HandleError(run: RunId)

  // ---------------------------------------------------------------- The machine

  predicate Enabled(s: State, a: Action) {
    match a
    case Enqueue(j) => true
    case SetTransaction(_, _) => true
    case Claim(r, j) => r !in s.runs && j in s.queue && s.queue[j].status.Pending? && j in s.past && j in s.completed
    case CheckThreshold(r, _) => r in s.runs && s.runs[r].Claimed?
    case CompleteSkipped(r) => r in s.runs && s.runs[r].Skipping? && s.runs[r].job in s.queue
    case CallMint(r, outcome) =>
      && r in s.runs && s.runs[r].Minting? && s.runs[r].job in s.past
      && (outcome.Answered? || outcome.ThrewAfter? ==> outcome.txHash !in s.chain)
    case CompleteMinted(r, _) => r in s.runs && s.runs[r].Minted? && s.runs[r].job in s.queue && s.runs[r].job in s.past
    case InsertEntry(r, _) => r in s.runs && s.runs[r].Recording? && s.runs[r].job in s.past
    case CompleteUnconfigured(r, _) => r in s.runs && s.runs[r].Unconfigured? && s.runs[r].job in s.queue
    case HandleError(r) => r in s.runs && s.runs[r].Catching? && s.runs[r].job in s.queue
  }

  function Goto(s: State, r: RunId, ph: Phase): State {
    s.(runs := s.runs[r := ph])
  }

  /** INSERT ... ON CONFLICT DO NOTHING */
  function DoEnqueue(s: State, j: JobId): State {
    if j in s.queue then s
    else s.(queue := s.queue[j := Job(Pending, 0, None)], past := s.past[j := Past(None, 0, 0)])
  }

  /** SELECT ... FOR UPDATE SKIP LOCKED and UPDATE to 'processing', in one transaction. */
  function DoClaim(s: State, r: RunId, j: JobId): State
    requires j in s.queue && j in s.past
  {
    Goto(s, r, Claimed(j, s.queue[j].retryCount)).(
    queue := s.queue[j := s.queue[j].(status := Processing, retryCount := s.queue[j].retryCount + 1)],
    past := s.past[j := s.past[j].(claimer := Some(r))])
  }

  function DoCheckThreshold(s: State, r: RunId, below: bool): State
    requires r in s.runs && s.runs[r].Claimed?
  {
    var Claimed(j, retry) := s.runs[r];
    Goto(s, r, if below then Skipping(j, retry) else Minting(j, retry))
  }

  function SetCompleted(s: State, j: JobId, txHash: Option<TxHash>): State
    requires j in s.queue
  {
    s.(queue := s.queue[j := s.queue[j].(status := Completed, txHash := txHash)])
  }

  function DoCompleteSkipped(s: State, r: RunId): State
    requires r in s.runs && s.runs[r].Skipping? && s.runs[r].job in s.queue
  {
    var j := s.runs[r].job;
    Goto(SetCompleted(s, j, s.queue[j].txHash), r, Finished(j))
  }

  function CountAttempt(s: State, j: JobId, lost: nat): State
    requires j in s.past
  {
    s.(past := s.past[j := s.past[j].(attempts := s.past[j].attempts + 1, losses := s.past[j].losses + lost)])
  }

  function CountLoss(s: State, j: JobId): State
    requires j in s.past
  {
    s.(past := s.past[j := s.past[j].(losses := s.past[j].losses + 1)])
  }

  function DoCallMint(s: State, r: RunId, outcome: MintOutcome): State
    requires r in s.runs && s.runs[r].Minting? && s.runs[r].job in s.past
  {
    var Minting(j, retry) := s.runs[r];
    match outcome
    case Answered(tx) => Goto(CountAttempt(s, j, 0), r, Minted(j, retry, tx)).(chain := s.chain[tx := Mint(j, r)])
    case Absent => Goto(CountAttempt(s, j, 0), r, Unconfigured(j, retry))
    case ThrewBefore => Goto(CountAttempt(s, j, 0), r, Catching(j, retry))
    case ThrewAfter(tx) => Goto(CountAttempt(s, j, 1), r, Catching(j, retry)).(chain := s.chain[tx := Mint(j, r)])
  }

  function DoCompleteMinted(s: State, r: RunId, outcome: WriteOutcome): State
    requires r in s.runs && s.runs[r].Minted? && s.runs[r].job in s.queue && s.runs[r].job in s.past
  {
    var Minted(j, retry, tx) := s.runs[r];
    match outcome
    case Written => Goto(SetCompleted(s, j, Some(tx)), r, Recording(j, retry, tx))
    case NotWritten => Goto(CountLoss(s, j), r, Catching(j, retry))
    case WrittenButThrew => Goto(CountLoss(SetCompleted(s, j, Some(tx)), j), r, Catching(j, retry))
  }

  function DoInsertEntry(s: State, r: RunId, outcome: WriteOutcome): State
    requires r in s.runs && s.runs[r].Recording? && s.runs[r].job in s.past
  {
    var Recording(j, retry, tx) := s.runs[r];
    match outcome
    case Written => Goto(s, r, Finished(j)).(ledger := s.ledger[r := Entry(j, tx)])
    case NotWritten => Goto(CountLoss(s, j), r, Catching(j, retry))
    case WrittenButThrew => Goto(CountLoss(s, j), r, Catching(j, retry)).(ledger := s.ledger[r := Entry(j, tx)])
  }

  function DoCompleteUnconfigured(s: State, r: RunId, outcome: WriteOutcome): State
    requires r in s.runs && s.runs[r].Unconfigured? && s.runs[r].job in s.queue
  {
    var Unconfigured(j, retry) := s.runs[r];
    var written := SetCompleted(s, j, s.queue[j].txHash);
    match outcome
    case Written => Goto(written, r, Finished(j))
    case NotWritten => Goto(s, r, Catching(j, retry))
    case WrittenButThrew => Goto(written, r, Catching(j, retry))
  }

  /** The catch branch: back to 'pending' while the claimed retry_count is below 3, else 'failed'. */
  function DoHandleError(s: State, r: RunId): State
    requires r in s.runs && s.runs[r].Catching? && s.runs[r].job in s.queue
  {
    var Catching(j, retry) := s.runs[r];
    var row := s.queue[j];
    Goto(s, r, Finished(j)).(
    queue := s.queue[j := if retry < MAX_RETRIES then row.(status := Pending, retryCount := row.retryCount + 1)
    else row.(status := Failed)])
  }

  function Apply(s: State, a: Action): State
    requires Enabled(s, a)
  {
    match a
    case Enqueue(j) => DoEnqueue(s, j)
    case SetTransaction(j, completed) => s.(completed := if completed then s.completed + {j} else s.completed - {j})
    case Claim(r, j) => DoClaim(s, r, j)
    case CheckThreshold(r, below) => DoCheckThreshold(s, r, below)
    case CompleteSkipped(r) => DoCompleteSkipped(s, r)
    case CallMint(r, outcome) => DoCallMint(s, r, outcome)
    case CompleteMinted(r, outcome) => DoCompleteMinted(s, r, outcome)
    case InsertEntry(r, outcome) => DoInsertEntry(s, r, outcome)
    case CompleteUnconfigured(r, outcome) => DoCompleteUnconfigured(s, r, outcome)
    case HandleError(r) => DoHandleError(s, r)
  }

  function Empty(): State {
    State(map[], map[], map[], map[], map[], {})
  }

  predicate Runs(s: State, run: seq<Action>)
    decreases |run|
  {
    run == [] || (Enabled(s, run[0]) && Runs(Apply(s, run[0]), run[1..]))
  }

  function Final(s: State, run: seq<Action>): State
    requires Runs(s, run)
    decreases |run|
  {
    if run == [] then s else Final(Apply(s, run[0]), run[1..])
  }

  // ---------------------------------------------------------------- The invariant

  /** The on-chain mints made for payment `j`. */
  function MintsOf(chain: map<TxHash, Mint>, j: JobId): set<TxHash> {
    set tx | tx in chain && chain[tx].job == j
  }

  /**
   What a row, its history and the number of its mints say to each other while no execution holds
   it. A pending row's retry_count is twice the number of mint attempts made.
   */
  predicate IdleOk(row: Job, past: Past, mints: nat) {
    && past.attempts <= 3
    && (row.status.Pending? ==> row.retryCount == 2 * past.attempts && past.attempts <= 2 && mints == past.losses)
    && (row.status.Failed? ==> past.attempts == 3 && mints == past.losses)
    && (row.status.Completed? ==> mints <= past.losses + 1)
    && !row.status.Processing?
  }

  /** The same while execution phase `ph` holds the row. */
  predicate HeldOk(row: Job, past: Past, mints: nat, ph: Phase)
    requires !ph.Finished?
  {
    && (ph.retry == 0 || ph.retry == 2 || ph.retry == 4)
    && row.retryCount == ph.retry + 1
    && 2 * past.attempts == ph.retry + (if ph.Claimed? || ph.Skipping? || ph.Minting? then 0 else 2)
    && mints == past.losses + (if ph.Minted? || ph.Recording? then 1 else 0)
    && (row.status.Processing? || (row.status.Completed? && ph.Catching?) || ph.Recording?)
    && (ph.Recording? ==> row.status.Completed?)
  }

  predicate Held(s: State, j: JobId)
    requires j in s.past
  {
    s.past[j].claimer.Some? && s.past[j].claimer.value in s.runs && !s.runs[s.past[j].claimer.value].Finished?
  }

  predicate JobOk(s: State, j: JobId)
    requires j in s.queue && j in s.past
  {
    var mints := |MintsOf(s.chain, j)|;
    && (s.past[j].claimer.Some? ==> s.past[j].claimer.value in s.runs && s.runs[s.past[j].claimer.value].job == j)
    && if Held(s, j) then HeldOk(s.queue[j], s.past[j], mints, s.runs[s.past[j].claimer.value])
       else IdleOk(s.queue[j], s.past[j], mints)
  }

  ghost predicate JobsOk(s: State) {
    && s.queue.Keys == s.past.Keys
    && forall j :: j in s.queue ==> JobOk(s, j)
  }

  /** An unfinished execution is the last claimer of its job, so no two hold one job. */
  ghost predicate RunsOk(s: State) {
    forall r :: r in s.runs ==>
      && s.runs[r].job in s.queue && s.runs[r].job in s.past
      && (!s.runs[r].Finished? ==> s.past[s.runs[r].job].claimer == Some(r))
      && (s.runs[r].Minted? || s.runs[r].Recording? ==>
            s.runs[r].txHash in s.chain && s.chain[s.runs[r].txHash] == Mint(s.runs[r].job, r))
  }

  /** Every ledger row is the record of a mint its own execution made. */
  ghost predicate LedgerOk(s: State) {
    && (forall r :: r in s.ledger ==> r in s.runs
                                      && s.ledger[r].txHash in s.chain
                                      && s.chain[s.ledger[r].txHash] == Mint(s.ledger[r].job, r))
    && (forall tx :: tx in s.chain ==> s.chain[tx].job in s.queue)
  }

  ghost predicate Inv(s: State) {
    JobsOk(s) && RunsOk(s) && LedgerOk(s)
  }

  // ---------------------------------------------------------------- Every action keeps the invariant

  lemma OneMoreMint(chain: map<TxHash, Mint>, tx: TxHash, m: Mint, j: JobId)
    requires tx !in chain
    ensures |MintsOf(chain[tx := m], j)| == |MintsOf(chain, j)| + (if m.job == j then 1 else 0)
  {
    var after := MintsOf(chain[tx := m], j);
    if m.job == j {
      assert after == MintsOf(chain, j) + {tx};
    } else {
      assert after == MintsOf(chain, j);
    }
  }

  /** A phase moves on without touching the chain: only execution `r` and its job `j` change. */
  predicate Moves(s: State, s': State, r: RunId, j: JobId) {
    && r in s.runs && !s.runs[r].Finished? && s.runs[r].job == j && j in s.past
    && s'.chain == s.chain && r in s'.runs && s'.runs == s.runs[r := s'.runs[r]] && s'.runs[r].job == j
    && s'.queue.Keys == s.queue.Keys && s'.past.Keys == s.past.Keys
    && s'.past[j].claimer == s.past[j].claimer
    && (forall k :: k in s.queue && k != j ==> s'.queue[k] == s.queue[k])
    && (forall k :: k in s.past && k != j ==> s'.past[k] == s.past[k])
    && (s'.ledger == s.ledger || (s.runs[r].Recording? && s'.ledger == s.ledger[r := Entry(j, s.runs[r].txHash)]))
    && (s'.runs[r].Minted? || s'.runs[r].Recording? ==>
          (s.runs[r].Minted? || s.runs[r].Recording?) && s'.runs[r].txHash == s.runs[r].txHash)
  }

  /** Only the acting execution and its job change; nothing else depends on them. */
  lemma JobsKept(s: State, s': State, r: RunId, j: JobId)
    requires JobsOk(s) && RunsOk(s)
    requires s'.queue.Keys == s.queue.Keys && s'.past.Keys == s.past.Keys && j in s.queue
    requires forall k :: k in s.queue && k != j ==>
               s'.queue[k] == s.queue[k] && s'.past[k] == s.past[k] && |MintsOf(s'.chain, k)| == |MintsOf(s.chain, k)|
    requires forall q :: q in s.runs && q != r ==> q in s'.runs && s'.runs[q] == s.runs[q]
    requires r in s.runs ==> s.runs[r].job == j
    requires JobOk(s', j)
    ensures JobsOk(s')
  {
    forall k | k in s'.queue ensures JobOk(s', k) {
      if k != j { assert JobOk(s, k); }
    }
  }

  lemma MoveKeepsInv(s: State, s': State, r: RunId, j: JobId)
    requires Inv(s) && Moves(s, s', r, j) && j in s'.queue && JobOk(s', j)
    ensures Inv(s')
  {
    JobsKept(s, s', r, j);
    MoveKeepsRuns(s, s', r, j);
    MoveKeepsLedger(s, s', r, j);
  }

  lemma MoveKeepsLedger(s: State, s': State, r: RunId, j: JobId)
    requires RunsOk(s) && LedgerOk(s) && Moves(s, s', r, j)
    ensures LedgerOk(s')
  {
  }

  lemma MoveKeepsRuns(s: State, s': State, r: RunId, j: JobId)
    requires RunsOk(s) && Moves(s, s', r, j)
    ensures RunsOk(s')
  {
  }

  lemma EnqueueKeepsInv(s: State, j: JobId)
    requires Inv(s)
    ensures Inv(DoEnqueue(s, j))
  {
    var s' := DoEnqueue(s, j);
    if j !in s.queue {
      assert MintsOf(s.chain, j) == {};
      forall k | k in s'.queue ensures JobOk(s', k) {
        if k != j { assert JobOk(s, k); }
      }
    }
  }

  lemma TransactionKeepsInv(s: State, j: JobId, completed: bool)
    requires Inv(s)
    ensures Inv(Apply(s, SetTransaction(j, completed)))
  {
    var s' := Apply(s, SetTransaction(j, completed));
    forall k | k in s'.queue ensures JobOk(s', k) {
      assert JobOk(s, k);
    }
  }

  lemma ClaimKeepsInv(s: State, r: RunId, j: JobId)
    requires Inv(s) && r !in s.runs && j in s.queue && s.queue[j].status.Pending?
    ensures Inv(DoClaim(s, r, j))
  {
    var s' := DoClaim(s, r, j);
    ClaimHolds(s, r, j);
  }

  lemma ClaimHolds(s: State, r: RunId, j: JobId)
    requires JobsOk(s) && r !in s.runs && j in s.queue && s.queue[j].status.Pending?
    ensures JobOk(DoClaim(s, r, j), j)
  {
    assert JobOk(s, j);
  }

  /** Execution `r` mints `tx`. */
  predicate Mints(s: State, s': State, r: RunId, tx: TxHash) {
    && r in s.runs && s.runs[r].Minting? && tx !in s.chain && r in s'.runs
    && s'.chain == s.chain[tx := Mint(s.runs[r].job, r)] && s'.runs == s.runs[r := s'.runs[r]]
    && s'.queue == s.queue && s'.ledger == s.ledger && s'.past.Keys == s.past.Keys && s.runs[r].job in s.past
    && (s'.runs[r] == Minted(s.runs[r].job, s.runs[r].retry, tx) || s'.runs[r] == Catching(s.runs[r].job, s.runs[r].retry))
    && s'.past[s.runs[r].job].claimer == s.past[s.runs[r].job].claimer
    && forall k :: k in s.past && k != s.runs[r].job ==> s'.past[k] == s.past[k]
  }

  /** A mint that reaches the chain counts for its own payment and for no other. */
  lemma MintKeepsInv(s: State, s': State, r: RunId, tx: TxHash)
    requires Inv(s) && Mints(s, s', r, tx) && s.runs[r].job in s'.queue && JobOk(s', s.runs[r].job)
    ensures Inv(s')
  {
    var j := s.runs[r].job;
    forall k | k in s.queue && k != j ensures |MintsOf(s'.chain, k)| == |MintsOf(s.chain, k)| {
      OneMoreMint(s.chain, tx, Mint(j, r), k);
    }
    JobsKept(s, s', r, j);
    MintKeepsRuns(s, s', r, tx);
  }

  lemma MintKeepsRuns(s: State, s': State, r: RunId, tx: TxHash)
    requires RunsOk(s) && LedgerOk(s) && Mints(s, s', r, tx)
    ensures RunsOk(s') && LedgerOk(s')
  {
  }

  /** The job of an acting execution stays in order: what a mint call makes of it. */
  lemma CallMintHolds(s: State, r: RunId, result: MintOutcome)
    requires Inv(s) && Enabled(s, CallMint(r, result))
    ensures JobOk(DoCallMint(s, r, result), s.runs[r].job)
  {
    if result.Answered? || result.ThrewAfter? {
      OneMoreMint(s.chain, result.txHash, Mint(s.runs[r].job, r), s.runs[r].job);
    }
  }

  lemma CallMintKeepsInv(s: State, r: RunId, result: MintOutcome)
    requires Inv(s) && Enabled(s, CallMint(r, result))
    ensures Inv(DoCallMint(s, r, result))
  {
    CallMintHolds(s, r, result);
    if result.Answered? || result.ThrewAfter? {
      MintKeepsInv(s, DoCallMint(s, r, result), r, result.txHash);
    } else {
      MoveKeepsInv(s, DoCallMint(s, r, result), r, s.runs[r].job);
    }
  }

  lemma CheckKeepsInv(s: State, r: RunId, below: bool)
    requires Inv(s) && r in s.runs && s.runs[r].Claimed?
    ensures Inv(DoCheckThreshold(s, r, below))
  {
    MoveKeepsInv(s, DoCheckThreshold(s, r, below), r, s.runs[r].job);
  }

  lemma SkipKeepsInv(s: State, r: RunId)
    requires Inv(s) && Enabled(s, CompleteSkipped(r))
    ensures Inv(DoCompleteSkipped(s, r))
  {
    MoveKeepsInv(s, DoCompleteSkipped(s, r), r, s.runs[r].job);
  }

  lemma CompleteHolds(s: State, r: RunId, outcome: WriteOutcome)
    requires Inv(s) && Enabled(s, CompleteMinted(r, outcome))
    ensures JobOk(DoCompleteMinted(s, r, outcome), s.runs[r].job)
  {
    assert JobOk(s, s.runs[r].job);
  }

  lemma CompleteKeepsInv(s: State, r: RunId, outcome: WriteOutcome)
    requires Inv(s) && Enabled(s, CompleteMinted(r, outcome))
    ensures Inv(DoCompleteMinted(s, r, outcome))
  {
    CompleteHolds(s, r, outcome);
    MoveKeepsInv(s, DoCompleteMinted(s, r, outcome), r, s.runs[r].job);
  }

  lemma EntryHolds(s: State, r: RunId, outcome: WriteOutcome)
    requires Inv(s) && Enabled(s, InsertEntry(r, outcome))
    ensures JobOk(DoInsertEntry(s, r, outcome), s.runs[r].job)
  {
    assert JobOk(s, s.runs[r].job);
  }

  lemma EntryKeepsInv(s: State, r: RunId, outcome: WriteOutcome)
    requires Inv(s) && Enabled(s, InsertEntry(r, outcome))
    ensures Inv(DoInsertEntry(s, r, outcome))
  {
    EntryHolds(s, r, outcome);
    MoveKeepsInv(s, DoInsertEntry(s, r, outcome), r, s.runs[r].job);
  }

  lemma UnconfiguredHolds(s: State, r: RunId, outcome: WriteOutcome)
    requires Inv(s) && Enabled(s, CompleteUnconfigured(r, outcome))
    ensures JobOk(DoCompleteUnconfigured(s, r, outcome), s.runs[r].job)
  {
    assert JobOk(s, s.runs[r].job);
  }

  lemma UnconfiguredKeepsInv(s: State, r: RunId, outcome: WriteOutcome)
    requires Inv(s) && Enabled(s, CompleteUnconfigured(r, outcome))
    ensures Inv(DoCompleteUnconfigured(s, r, outcome))
  {
    UnconfiguredHolds(s, r, outcome);
    MoveKeepsInv(s, DoCompleteUnconfigured(s, r, outcome), r, s.runs[r].job);
  }

  lemma ErrorKeepsInv(s: State, r: RunId)
    requires Inv(s) && Enabled(s, HandleError(r))
    ensures Inv(DoHandleError(s, r))
  {
    MoveKeepsInv(s, DoHandleError(s, r), r, s.runs[r].job);
  }

  lemma ActionKeepsInv(s: State, a: Action)
    requires Inv(s) && Enabled(s, a)
    ensures Inv(Apply(s, a))
  {
    match a
    case Enqueue(j) => EnqueueKeepsInv(s, j);
    case SetTransaction(j, completed) => TransactionKeepsInv(s, j, completed);
    case Claim(r, j) => ClaimKeepsInv(s, r, j);
    case CheckThreshold(r, below) => CheckKeepsInv(s, r, below);
    case CompleteSkipped(r) => SkipKeepsInv(s, r);
    case CallMint(r, result) => CallMintKeepsInv(s, r, result);
    case CompleteMinted(r, outcome) => CompleteKeepsInv(s, r, outcome);
    case InsertEntry(r, outcome) => EntryKeepsInv(s, r, outcome);
    case CompleteUnconfigured(r, outcome) => UnconfiguredKeepsInv(s, r, outcome);
    case HandleError(r) => ErrorKeepsInv(s, r);
  }

  lemma {:induction false} RunKeepsInv(s: State, run: seq<Action>)
    requires Inv(s) && Runs(s, run)
    ensures Inv(Final(s, run))
    decreases |run|
  {
    if run != [] {
      ActionKeepsInv(s, run[0]);
      RunKeepsInv(Apply(s, run[0]), run[1..]);
    }
  }

  // ---------------------------------------------------------------- Whole runs

  function Losses(s: State, j: JobId): nat {
    if j in s.past then s.past[j].losses else 0
  }

  function Attempts(s: State, j: JobId): nat {
    if j in s.past then s.past[j].attempts else 0
  }

  /**
   In every run, crashes included, a payment is minted at most once more than mints of it were
   lost, that is, took effect but threw, or were followed by a write that threw; it is tried at
   most three times, and exactly three before it is given up; and a pending row's retry_count is
   0, 2 or 4, twice the attempts made.
   */
  lemma MintsAreBounded(run: seq<Action>, j: JobId)
    requires Runs(Empty(), run)
    ensures var s := Final(Empty(), run);
            && |MintsOf(s.chain, j)| <= 1 + Losses(s, j)
            && Attempts(s, j) <= 3
            && (j in s.queue && s.queue[j].status.Failed? ==> Attempts(s, j) == 3)
            && (j in s.queue && s.queue[j].status.Pending? ==>
                  (s.queue[j].retryCount == 0 || s.queue[j].retryCount == 2 || s.queue[j].retryCount == 4)
                  && s.queue[j].retryCount == 2 * Attempts(s, j))
  {
    RunKeepsInv(Empty(), run);
    var s := Final(Empty(), run);
    if j in s.queue {
      assert JobOk(s, j);
    } else {
      assert MintsOf(s.chain, j) == {};
    }
  }

  /** Two on-chain mints of one payment are impossible as long as none of its mints was lost. */
  lemma MintedAtMostOnce(run: seq<Action>, tx1: TxHash, tx2: TxHash)
    requires Runs(Empty(), run)
    requires var s := Final(Empty(), run);
             tx1 in s.chain && tx2 in s.chain && s.chain[tx1].job == s.chain[tx2].job && Losses(s, s.chain[tx1].job) == 0
    ensures tx1 == tx2
  {
    var s := Final(Empty(), run);
    var j := s.chain[tx1].job;
    MintsAreBounded(run, j);
    if tx1 != tx2 {
      assert {tx1, tx2} <= MintsOf(s.chain, j);
      TwoElements(MintsOf(s.chain, j), tx1, tx2);
    }
  }

  lemma TwoElements(txs: set<TxHash>, a: TxHash, b: TxHash)
    requires a in txs && b in txs && a != b
    ensures |txs| >= 2
  {
    assert |txs| == |txs - {a}| + 1;
    assert b in txs - {a};
  }

  /** Each ledger row records a mint its own execution made; without a loss a payment has at most one row. */
  lemma LedgerMatchesChain(run: seq<Action>, r: RunId, q: RunId)
    requires Runs(Empty(), run) && r in Final(Empty(), run).ledger && q in Final(Empty(), run).ledger
    ensures var s := Final(Empty(), run);
            && s.ledger[r].txHash in s.chain && s.chain[s.ledger[r].txHash] == Mint(s.ledger[r].job, r)
            && (s.ledger[r].txHash == s.ledger[q].txHash ==> r == q)
            && (s.ledger[r].job == s.ledger[q].job && Losses(s, s.ledger[r].job) == 0 ==> r == q)
  {
    RunKeepsInv(Empty(), run);
    var s := Final(Empty(), run);
    if s.ledger[r].job == s.ledger[q].job && Losses(s, s.ledger[r].job) == 0 {
      MintedAtMostOnce(run, s.ledger[r].txHash, s.ledger[q].txHash);
    }
  }

  /** At most one unfinished execution works on a payment. */
  lemma OneExecutionPerJob(run: seq<Action>, r: RunId, q: RunId)
    requires Runs(Empty(), run) && r in Final(Empty(), run).runs && q in Final(Empty(), run).runs
    requires var s := Final(Empty(), run);
             !s.runs[r].Finished? && !s.runs[q].Finished? && s.runs[r].job == s.runs[q].job
    ensures r == q
  {
    RunKeepsInv(Empty(), run);
  }

  lemma RunStep(s: State, run: seq<Action>)
    requires run != [] && Enabled(s, run[0]) && Runs(Apply(s, run[0]), run[1..])
    ensures Runs(s, run) && Final(s, run) == Final(Apply(s, run[0]), run[1..])
  {
  }

  // ---------------------------------------------------------------- Only completed payments are minted

  lemma {:induction false} LastStep(s: State, run: seq<Action>)
    requires Runs(s, run) && run != []
    ensures Runs(s, run[..|run| - 1]) && Enabled(Final(s, run[..|run| - 1]), run[|run| - 1])
    ensures Final(s, run) == Apply(Final(s, run[..|run| - 1]), run[|run| - 1])
    decreases |run|
  {
    if |run| > 1 {
      LastStep(Apply(s, run[0]), run[1..]);
      assert run[..|run| - 1][1..] == run[1..][..|run| - 2];
    }
  }

  /** Step `k` of the run: execution `r` claims payment `j`, whose row is pending and whose transaction is completed. */
  ghost predicate ClaimedAt(run: seq<Action>, k: nat, r: RunId, j: JobId) {
    && k < |run| && run[k] == Claim(r, j) && Runs(Empty(), run[..k])
    && var s := Final(Empty(), run[..k]); j in s.completed && j in s.queue && s.queue[j].status.Pending?
  }

  ghost predicate ClaimedWhenCompleted(run: seq<Action>, r: RunId, j: JobId) {
    exists k: nat :: ClaimedAt(run, k, r, j)
  }

  lemma ClaimedSnoc(run: seq<Action>, a: Action, r: RunId, j: JobId)
    requires ClaimedWhenCompleted(run, r, j)
    ensures ClaimedWhenCompleted(run + [a], r, j)
  {
    var k: nat :| ClaimedAt(run, k, r, j);
    assert (run + [a])[..k] == run[..k] && ClaimedAt(run + [a], k, r, j);
  }

  /** A step makes no new execution but by a claim, and none changes its job. */
  predicate NewRuns(s: State, s': State, a: Action) {
    && (forall r :: r in s'.runs && r !in s.runs ==> a.Claim? && a.run == r && s'.runs[r].job == a.job)
    && (forall r :: r in s.runs && r in s'.runs ==> s'.runs[r].job == s.runs[r].job)
  }

  /** It makes no new mint but for an execution's own job. */
  predicate NewMints(s: State, s': State) {
    forall tx :: tx in s'.chain ==>
      || (tx in s.chain && s'.chain[tx] == s.chain[tx])
      || (s'.chain[tx].run in s.runs && s'.chain[tx].job == s.runs[s'.chain[tx].run].job)
  }

  /** And no new ledger row. */
  predicate NewEntries(s: State, s': State) {
    forall q :: q in s'.ledger ==>
      || (q in s.ledger && s'.ledger[q] == s.ledger[q])
      || (q in s.runs && s'.ledger[q].job == s.runs[q].job)
  }

  lemma StepsMakeRuns(s: State, a: Action)
    requires Enabled(s, a)
    ensures NewRuns(s, Apply(s, a), a)
  {
  }

  lemma StepsMakeMints(s: State, a: Action)
    requires Enabled(s, a)
    ensures NewMints(s, Apply(s, a))
  {
  }

  lemma StepsMakeEntries(s: State, a: Action)
    requires Enabled(s, a)
    ensures NewEntries(s, Apply(s, a))
  {
  }

  /**
   In every run each execution, each mint on the chain and each ledger row belongs to a payment that
   its execution claimed as a pending row with a completed transaction.
   */
  lemma {:induction false} OnlyCompletedArePaid(run: seq<Action>)
    requires Runs(Empty(), run)
    ensures var s := Final(Empty(), run);
            && (forall r :: r in s.runs ==> ClaimedWhenCompleted(run, r, s.runs[r].job))
            && (forall tx :: tx in s.chain ==> ClaimedWhenCompleted(run, s.chain[tx].run, s.chain[tx].job))
            && (forall q :: q in s.ledger ==> ClaimedWhenCompleted(run, q, s.ledger[q].job))
    decreases |run|
  {
    if run != [] {
      var init, a := run[..|run| - 1], run[|run| - 1];
      LastStep(Empty(), run);
      OnlyCompletedArePaid(init);
      var s, s' := Final(Empty(), init), Final(Empty(), run);
      StepsMakeRuns(s, a);
      StepsMakeMints(s, a);
      StepsMakeEntries(s, a);
      forall r, j | ClaimedWhenCompleted(init, r, j) ensures ClaimedWhenCompleted(run, r, j) {
        ClaimedSnoc(init, a, r, j);
        assert init + [a] == run;
      }
      if a.Claim? {
        assert run[..|init|] == init && ClaimedAt(run, |init|, a.run, a.job);
      }
    }
  }

  /** An execution that has yet to mint has made no mint. */
  ghost predicate UnmintedOk(s: State) {
    && (forall tx :: tx in s.chain ==> s.chain[tx].run in s.runs)
    && forall tx :: tx in s.chain ==> var ph := s.runs[s.chain[tx].run]; !ph.Claimed? && !ph.Skipping? && !ph.Minting?
  }

  lemma MintKeepsUnminted(s: State, r: RunId, result: MintOutcome)
    requires UnmintedOk(s) && Enabled(s, CallMint(r, result))
    ensures UnmintedOk(DoCallMint(s, r, result))
  {
  }

  lemma OtherKeepsUnminted(s: State, a: Action)
    requires UnmintedOk(s) && Enabled(s, a) && !a.CallMint?
    ensures UnmintedOk(Apply(s, a))
  {
  }

  lemma StepKeepsUnminted(s: State, a: Action)
    requires UnmintedOk(s) && Enabled(s, a)
    ensures UnmintedOk(Apply(s, a))
  {
    if a.CallMint? { MintKeepsUnminted(s, a.run, a.result); } else { OtherKeepsUnminted(s, a); }
  }

  lemma {:induction false} RunKeepsUnminted(s: State, run: seq<Action>)
    requires UnmintedOk(s) && Runs(s, run)
    ensures UnmintedOk(Final(s, run))
    decreases |run|
  {
    if run != [] {
      StepKeepsUnminted(s, run[0]);
      RunKeepsUnminted(Apply(s, run[0]), run[1..]);
    }
  }

  // ---------------------------------------------------------------- Which faults do harm

  /** The faults that lose a mint: it took effect, and the execution ends in the catch branch. */
  datatype Fault = MintThrewAfter | CompleteNotWritten | CompleteThrew | EntryNotWritten | EntryThrew

  function FaultOf(a: Action): Option<Fault> {
    match a
    case CallMint(_, ThrewAfter(_)) => Some(MintThrewAfter)
    case CompleteMinted(_, NotWritten) => Some(CompleteNotWritten)
    case CompleteMinted(_, WrittenButThrew) => Some(CompleteThrew)
    case InsertEntry(_, NotWritten) => Some(EntryNotWritten)
    case InsertEntry(_, WrittenButThrew) => Some(EntryThrew)
    case _ => None
  }

  /** A run in an environment with no faults of these kinds but those in `faults`. */
  predicate FaultsIn(run: seq<Action>, faults: set<Fault>) {
    forall i :: 0 <= i < |run| && FaultOf(run[i]).Some? ==> FaultOf(run[i]).value in faults
  }

  predicate Lossless(s: State) {
    forall j :: j in s.past ==> s.past[j].losses == 0
  }

  lemma {:induction false} NoFaultNoLoss(s: State, run: seq<Action>)
    requires Lossless(s) && Runs(s, run) && FaultsIn(run, {})
    ensures Lossless(Final(s, run))
    decreases |run|
  {
    if run != [] {
      assert FaultOf(run[0]).None?;
      assert forall i :: 0 <= i < |run[1..]| ==> run[1..][i] == run[i + 1];
      NoFaultNoLoss(Apply(s, run[0]), run[1..]);
    }
  }

  /** The steps of an execution that mints `tx` and then suffers the fault. */
  function Suffering(f: Fault, r: RunId, tx: TxHash): seq<Action> {
    match f
    case MintThrewAfter => [CallMint(r, ThrewAfter(tx))]
    case CompleteNotWritten => [CallMint(r, Answered(tx)), CompleteMinted(r, NotWritten)]
    case CompleteThrew => [CallMint(r, Answered(tx)), CompleteMinted(r, WrittenButThrew)]
    case EntryNotWritten => [CallMint(r, Answered(tx)), CompleteMinted(r, Written), InsertEntry(r, NotWritten)]
    case EntryThrew => [CallMint(r, Answered(tx)), CompleteMinted(r, Written), InsertEntry(r, WrittenButThrew)]
  }

  /** Execution `r` has minted `tx` for `j` once, suffered the fault and stands before the catch branch. */
  predicate Suffered(f: Fault, s: State, r: RunId, j: JobId, tx: TxHash) {
    && j in s.queue && j in s.past && s.queue[j].retryCount == 1 && j in s.completed
    && s.runs == map[r := Catching(j, 0)] && s.chain == map[tx := Mint(j, r)]
    && s.ledger == if f == EntryThrew then map[r := Entry(j, tx)] else map[]
  }

  predicate AboutToMint(s: State, r: RunId, j: JobId) {
    && j in s.queue && j in s.past && s.queue[j].retryCount == 1 && j in s.completed
    && s.runs == map[r := Minting(j, 0)] && s.chain == map[] && s.ledger == map[]
  }

  lemma SufferMint(s: State, r: RunId, j: JobId, tx: TxHash)
    requires AboutToMint(s, r, j)
    ensures Runs(s, Suffering(MintThrewAfter, r, tx))
    ensures Suffered(MintThrewAfter, Final(s, Suffering(MintThrewAfter, r, tx)), r, j, tx)
  {
    RunStep(s, Suffering(MintThrewAfter, r, tx));
  }

  lemma SufferComplete(s: State, r: RunId, j: JobId, tx: TxHash, f: Fault)
    requires AboutToMint(s, r, j) && (f == CompleteNotWritten || f == CompleteThrew)
    ensures Runs(s, Suffering(f, r, tx)) && Suffered(f, Final(s, Suffering(f, r, tx)), r, j, tx)
  {
    var run := Suffering(f, r, tx);
    var s1 := DoCallMint(s, r, Answered(tx));
    RunStep(s1, run[1..]);
    RunStep(s, run);
  }

  lemma SufferEntry(s: State, r: RunId, j: JobId, tx: TxHash, f: Fault)
    requires AboutToMint(s, r, j) && (f == EntryNotWritten || f == EntryThrew)
    ensures Runs(s, Suffering(f, r, tx)) && Suffered(f, Final(s, Suffering(f, r, tx)), r, j, tx)
  {
    var run := Suffering(f, r, tx);
    var s1 := DoCallMint(s, r, Answered(tx));
    var s2 := DoCompleteMinted(s1, r, Written);
    RunStep(s2, run[2..]);
    RunStep(s1, run[1..]);
    RunStep(s, run);
  }

  lemma Suffer(s: State, r: RunId, j: JobId, tx: TxHash, f: Fault)
    requires AboutToMint(s, r, j)
    ensures Runs(s, Suffering(f, r, tx)) && Suffered(f, Final(s, Suffering(f, r, tx)), r, j, tx)
  {
    match f
    case MintThrewAfter => SufferMint(s, r, j, tx);
    case CompleteNotWritten => SufferComplete(s, r, j, tx, f);
    case CompleteThrew => SufferComplete(s, r, j, tx, f);
    case EntryNotWritten => SufferEntry(s, r, j, tx, f);
    case EntryThrew => SufferEntry(s, r, j, tx, f);
  }

  function Beginning(r: RunId, j: JobId): seq<Action> {
    [Enqueue(j), SetTransaction(j, true), Claim(r, j), CheckThreshold(r, false)]
  }

  lemma Begin(r: RunId, j: JobId)
    ensures Runs(Empty(), Beginning(r, j)) && AboutToMint(Final(Empty(), Beginning(r, j)), r, j)
  {
    var run := Beginning(r, j);
    var s1 := DoEnqueue(Empty(), j);
    var s2 := Apply(s1, SetTransaction(j, true));
    var s3 := DoClaim(s2, r, j);
    RunStep(s3, run[3..]);
    RunStep(s2, run[2..]);
    RunStep(s1, run[1..]);
    RunStep(Empty(), run);
  }

  /** The catch branch sends the payment back, and another execution mints and records it. */
  function Again(r: RunId, q: RunId, j: JobId, tx: TxHash): seq<Action> {
    [HandleError(r), Claim(q, j), CheckThreshold(q, false), CallMint(q, Answered(tx)), CompleteMinted(q, Written),
     InsertEntry(q, Written)]
  }

  lemma MintAndRecord(s: State, q: RunId, j: JobId, tx: TxHash, run: seq<Action>)
    requires q in s.runs && s.runs[q] == Minting(j, 2) && j in s.queue && j in s.past && tx !in s.chain
    requires run == [CallMint(q, Answered(tx)), CompleteMinted(q, Written), InsertEntry(q, Written)]
    ensures Runs(s, run)
    ensures Final(s, run).chain == s.chain[tx := Mint(j, q)] && Final(s, run).ledger == s.ledger[q := Entry(j, tx)]
  {
    var s1 := DoCallMint(s, q, Answered(tx));
    var s2 := DoCompleteMinted(s1, q, Written);
    RunStep(s2, run[2..]);
    RunStep(s1, run[1..]);
    RunStep(s, run);
  }

  lemma MintAgain(s: State, r: RunId, q: RunId, j: JobId, tx: TxHash)
    requires s.runs == map[r := Catching(j, 0)] && q != r && j in s.queue && j in s.past && s.queue[j].retryCount == 1 && j in s.completed
    requires tx !in s.chain
    ensures Runs(s, Again(r, q, j, tx))
    ensures Final(s, Again(r, q, j, tx)).chain == s.chain[tx := Mint(j, q)]
    ensures Final(s, Again(r, q, j, tx)).ledger == s.ledger[q := Entry(j, tx)]
  {
    var run := Again(r, q, j, tx);
    var s1 := DoHandleError(s, r);
    var s2 := DoClaim(s1, q, j);
    var s3 := DoCheckThreshold(s2, q, false);
    MintAndRecord(s3, q, j, tx, run[3..]);
    RunStep(s2, run[2..]);
    RunStep(s1, run[1..]);
    RunStep(s, run);
  }

  /** One fault of any kind, and nothing else going wrong: the payment is minted twice. */
  function HarmfulRun(f: Fault, j: JobId): seq<Action> {
    Beginning(1, j) + Suffering(f, 1, 100) + Again(1, 2, j, 101)
  }

  lemma OneFault(f: Fault, j: JobId)
    ensures FaultsIn(HarmfulRun(f, j), {f})
  {
    var run := HarmfulRun(f, j);
    assert forall i :: 0 <= i < |run| ==> run[i] in Beginning(1, j) || run[i] in Suffering(f, 1, 100) || run[i] in Again(1, 2, j, 101);
  }

  lemma EveryFaultMintsTwice(f: Fault, j: JobId)
    ensures var run := HarmfulRun(f, j);
            && Runs(Empty(), run)
            && MintsOf(Final(Empty(), run).chain, j) == {100, 101}
            && Final(Empty(), run).ledger == (if f == EntryThrew then map[1 := Entry(j, 100)] else map[])[2 := Entry(j, 101)]
  {
    Begin(1, j);
    var s1 := Final(Empty(), Beginning(1, j));
    Suffer(s1, 1, j, 100, f);
    RunsConcat(Empty(), Beginning(1, j), Suffering(f, 1, 100));
    var s2 := Final(s1, Suffering(f, 1, 100));
    MintAgain(s2, 1, 2, j, 101);
    RunsConcat(Empty(), Beginning(1, j) + Suffering(f, 1, 100), Again(1, 2, j, 101));
  }

  /** In an environment with these faults no payment is ever minted twice. */
  ghost predicate MintsOnce(faults: set<Fault>) {
    forall run, j :: Runs(Empty(), run) && FaultsIn(run, faults) ==> |MintsOf(Final(Empty(), run).chain, j)| <= 1
  }

  /** Every payment is minted at most once, in every run, exactly if none of the five faults may occur. */
  lemma MintsOnceIffNoFault(faults: set<Fault>)
    ensures MintsOnce(faults) <==> faults == {}
  {
    if faults == {} {
      forall run, j | Runs(Empty(), run) && FaultsIn(run, faults) ensures |MintsOf(Final(Empty(), run).chain, j)| <= 1 {
        NoFaultNoLoss(Empty(), run);
        MintsAreBounded(run, j);
      }
    } else {
      var f :| f in faults;
      EveryFaultMintsTwice(f, 0);
      OneFault(f, 0);
      assert |MintsOf(Final(Empty(), HarmfulRun(f, 0)).chain, 0)| == |{100, 101}| == 2;
    }
  }

  // ---------------------------------------------------------------- Which faults repeat a ledger row

  /** A payment with a ledger row is completed and nobody works on it. */
  ghost predicate Settled(s: State) {
    && (forall r :: r in s.ledger ==>
          && s.ledger[r].job in s.queue && s.queue[s.ledger[r].job].status.Completed?
          && s.ledger[r].job in s.past && !Held(s, s.ledger[r].job))
    && OneRowEach(s.ledger)
  }

  predicate OneRowEach(ledger: map<RunId, Entry>) {
    forall r, q :: r in ledger && q in ledger && ledger[r].job == ledger[q].job ==> r == q
  }

  lemma SettledElsewhere(s: State, s': State, r: RunId, j: JobId)
    requires RunsOk(s) && Settled(s) && Moves(s, s', r, j) && s'.ledger == s.ledger
    ensures Settled(s')
  {
    forall q | q in s'.ledger ensures s'.ledger[q].job != j && !Held(s', s'.ledger[q].job) {
      assert !Held(s, s.ledger[q].job);
    }
  }

  lemma MintKeepsSettled(s: State, s': State, r: RunId, tx: TxHash)
    requires RunsOk(s) && Settled(s) && Mints(s, s', r, tx)
    ensures Settled(s')
  {
    forall q | q in s'.ledger ensures s'.ledger[q].job != s.runs[r].job && !Held(s', s'.ledger[q].job) {
      assert !Held(s, s.ledger[q].job);
    }
  }

  lemma EntryKeepsSettled(s: State, r: RunId)
    requires Inv(s) && Settled(s) && Enabled(s, InsertEntry(r, Written))
    ensures Settled(DoInsertEntry(s, r, Written))
  {
    var s' := DoInsertEntry(s, r, Written);
    var j := s.runs[r].job;
    forall q | q in s.ledger ensures s.ledger[q].job != j && !Held(s', s.ledger[q].job) {
      assert !Held(s, s.ledger[q].job);
    }
    assert !Held(s', j);
  }

  lemma ClaimKeepsSettled(s: State, r: RunId, j: JobId)
    requires Settled(s) && r !in s.runs && j in s.queue && s.queue[j].status.Pending? && j in s.past
    requires JobsOk(s)
    ensures Settled(DoClaim(s, r, j))
  {
    var s' := DoClaim(s, r, j);
    forall q | q in s'.ledger ensures s'.ledger[q].job != j && !Held(s', s'.ledger[q].job) {
      assert !Held(s, s.ledger[q].job) && JobOk(s, s.ledger[q].job);
    }
  }

  lemma EnqueueKeepsSettled(s: State, j: JobId)
    requires Settled(s)
    ensures Settled(DoEnqueue(s, j))
  {
    forall q | q in s.ledger ensures !Held(DoEnqueue(s, j), s.ledger[q].job) {
      assert !Held(s, s.ledger[q].job);
    }
  }

  lemma TransactionKeepsSettled(s: State, j: JobId, completed: bool)
    requires Settled(s)
    ensures Settled(Apply(s, SetTransaction(j, completed)))
  {
    forall q | q in s.ledger ensures !Held(Apply(s, SetTransaction(j, completed)), s.ledger[q].job) {
      assert !Held(s, s.ledger[q].job);
    }
  }

  lemma ActionKeepsSettled(s: State, a: Action)
    requires Inv(s) && Settled(s) && Enabled(s, a) && FaultOf(a) != Some(EntryThrew)
    ensures Settled(Apply(s, a))
  {
    if a.SetTransaction? {
      TransactionKeepsSettled(s, a.job, a.completed);
    } else if a.Enqueue? {
      EnqueueKeepsSettled(s, a.job);
    } else if a.Claim? {
      ClaimKeepsSettled(s, a.run, a.job);
    } else if a.InsertEntry? && a.outcome.Written? {
      EntryKeepsSettled(s, a.run);
    } else if a.CallMint? && (a.result.Answered? || a.result.ThrewAfter?) {
      MintKeepsSettled(s, Apply(s, a), a.run, a.result.txHash);
    } else {
      OtherMoves(s, a);
      SettledElsewhere(s, Apply(s, a), a.run, s.runs[a.run].job);
    }
  }

  lemma OtherMoves(s: State, a: Action)
    requires Enabled(s, a) && !a.Enqueue? && !a.SetTransaction? && !a.Claim? && FaultOf(a) != Some(EntryThrew)
    requires s.runs[a.run].job in s.past
    requires a.CallMint? ==> a.result.Absent? || a.result.ThrewBefore?
    requires a.InsertEntry? ==> a.outcome.NotWritten?
    ensures a.run in s.runs && Moves(s, Apply(s, a), a.run, s.runs[a.run].job) && Apply(s, a).ledger == s.ledger
  {
  }

  lemma {:induction false} RunKeepsSettled(s: State, run: seq<Action>)
    requires Inv(s) && Settled(s) && Runs(s, run) && forall i :: 0 <= i < |run| ==> FaultOf(run[i]) != Some(EntryThrew)
    ensures Settled(Final(s, run))
    decreases |run|
  {
    if run != [] {
      ActionKeepsSettled(s, run[0]);
      ActionKeepsInv(s, run[0]);
      assert forall i :: 0 <= i < |run[1..]| ==> run[1..][i] == run[i + 1];
      RunKeepsSettled(Apply(s, run[0]), run[1..]);
    }
  }

  /** In an environment with these faults no payment ever has two ledger rows. */
  ghost predicate RecordsOnce(faults: set<Fault>) {
    forall run :: Runs(Empty(), run) && FaultsIn(run, faults) ==> OneRowEach(Final(Empty(), run).ledger)
  }

  lemma ThrownEntryRecordsTwice()
    ensures var run := HarmfulRun(EntryThrew, 0);
            Runs(Empty(), run) && FaultsIn(run, {EntryThrew}) && !OneRowEach(Final(Empty(), run).ledger)
  {
    EveryFaultMintsTwice(EntryThrew, 0);
    OneFault(EntryThrew, 0);
    var ledger := Final(Empty(), HarmfulRun(EntryThrew, 0)).ledger;
    assert 1 in ledger && 2 in ledger && ledger[1].job == ledger[2].job;
  }

  lemma EmptyIsSettled()
    ensures Inv(Empty()) && Settled(Empty())
  {
  }

  /** A payment has at most one ledger row, in every run, exactly if a written ledger insert never throws. */
  lemma RecordsOnceIffWrittenEntriesAnswer(faults: set<Fault>)
    ensures RecordsOnce(faults) <==> EntryThrew !in faults
  {
    if EntryThrew in faults {
      ThrownEntryRecordsTwice();
    } else {
      EmptyIsSettled();
      forall run | Runs(Empty(), run) && FaultsIn(run, faults) ensures OneRowEach(Final(Empty(), run).ledger) {
        RunKeepsSettled(Empty(), run);
      }
    }
  }

  lemma {:induction false} RunsConcat(s: State, run1: seq<Action>, run2: seq<Action>)
    requires Runs(s, run1) && Runs(Final(s, run1), run2)
    ensures Runs(s, run1 + run2) && Final(s, run1 + run2) == Final(Final(s, run1), run2)
    decreases |run1|
  {
    if run1 == [] {
      assert run1 + run2 == run2;
    } else {
      assert (run1 + run2)[1..] == run1[1..] + run2;
      RunsConcat(Apply(s, run1[0]), run1[1..], run2);
    }
  }
}
