/**
 Offer sync of one wallet: workers that may overlap and stop for good at any await load the saved
 cursor, fetch a page of trades after it, insert them one by one and save the last token.
 Trades are named by their position in the wallet's stream, which orders paging tokens.
 */
module OfferSync {
  import opened Wrappers

  type Worker = nat

  const PAGE: nat := 50

  datatype Phase =
    | Start
    | Loaded(from: nat)
    | Inserting(pos: nat, end: nat)
    | Saving(end: nat)
    | Finished

  /**
   `stored` is offer_events in insertion order, `cursor` the saved last_paging_token, `visible`
   how many trades the source has published, `failed` the trades whose insert once threw.
   */
  datatype State = State(
    stored: seq<nat>,
    cursor: Option<nat>,
    visible: nat,
    workers: map<Worker, Phase>,
    failed: set<nat>)

  datatype Action =
    | Publish
    | Spawn(w: Worker)
    | LoadCursor(w: Worker)
    | Fetch(w: Worker, count: nat)
    | Insert(w: Worker, throws: bool)
    | SaveCursor(w: Worker)

  predicate At(s: State, w: Worker, ph: Phase) {
    w in s.workers && s.workers[w] == ph
  }

  predicate Enabled(s: State, a: Action) {
    match a
    case Publish => true
    case Spawn(w) => w !in s.workers
    case LoadCursor(w) => w in s.workers && s.workers[w].Start?
    case Fetch(w, count) =>
      w in s.workers && s.workers[w].Loaded? && count <= PAGE && s.workers[w].from + count <= s.visible
    case Insert(w, _) => w in s.workers && s.workers[w].Inserting?
    case SaveCursor(w) => w in s.workers && s.workers[w].Saving? && s.workers[w].end > 0
  }

  function Goto(s: State, w: Worker, ph: Phase): State {
    s.(workers := s.workers[w := ph])
  }

  function Next(cursor: Option<nat>): nat {
    if cursor.None? then 0 else cursor.value + 1
  }

  /** INSERT ... ON CONFLICT (paging_token, wallet_address) DO NOTHING */
  function InsertTrade(stored: seq<nat>, trade: nat): seq<nat> {
    if trade in stored then stored else stored + [trade]
  }

  function DoFetch(s: State, w: Worker, count: nat): State
    requires w in s.workers && s.workers[w].Loaded?
  {
    var from := s.workers[w].from;
    Goto(s, w, if count == 0 then Finished else Inserting(from, from + count))
  }

  function DoInsert(s: State, w: Worker, throws: bool): State
    requires w in s.workers && s.workers[w].Inserting?
  {
    var Inserting(pos, end) := s.workers[w];
    Goto(s, w, if pos + 1 < end then Inserting(pos + 1, end) else Saving(pos + 1)).(
    stored := if throws then s.stored else InsertTrade(s.stored, pos),
    failed := if throws then s.failed + {pos} else s.failed)
  }

  function Apply(s: State, a: Action): State
    requires Enabled(s, a)
  {
    match a
    case Publish => s.(visible := s.visible + 1)
    case Spawn(w) => Goto(s, w, Start)
    case LoadCursor(w) => Goto(s, w, Loaded(Next(s.cursor)))
    case Fetch(w, count) => DoFetch(s, w, count)
    case Insert(w, throws) => DoInsert(s, w, throws)
    case SaveCursor(w) => Goto(s, w, Finished).(cursor := Some(s.workers[w].end - 1))
  }

  function Empty(): State {
    State([], None, 0, map[], {})
  }

  predicate Runs(s: State, run: seq<Action>)
    decreases |run|
  {
    run == [] || (Enabled(s, run[0]) && Runs(Apply(s, run[0]), run[1..]))
  }

  function Final(s: State, run: seq<Action>): State
    requires Runs(s, run)
    decreases |run|
  {
    if run == [] then s else Final(Apply(s, run[0]), run[1..])
  }

  // ---------------------------------------------------------------- The invariant

  /** Every one of the first `n` trades is stored, or an insert of it threw. */
  ghost predicate Covered(s: State, n: nat) {
    n <= s.visible && forall i: nat :: i < n ==> i in s.stored || i in s.failed
  }

  ghost predicate PhaseOk(s: State, ph: Phase) {
    match ph
    case Loaded(from) => Covered(s, from)
    case Inserting(pos, end) => Covered(s, pos) && pos < end <= s.visible
    case Saving(end) => Covered(s, end) && end > 0
    case _ => true
  }

  ghost predicate NoDuplicates(stored: seq<nat>) {
    forall i, j :: 0 <= i < j < |stored| ==> stored[i] != stored[j]
  }

  /** `stored` is the stream's first trades, in order. */
  ghost predicate IsPrefix(stored: seq<nat>) {
    forall i :: 0 <= i < |stored| ==> stored[i] == i
  }

  ghost predicate Inv(s: State) {
    && NoDuplicates(s.stored)
    && (forall i :: 0 <= i < |s.stored| ==> s.stored[i] < s.visible)
    && Covered(s, Next(s.cursor))
    && (forall w :: w in s.workers ==> PhaseOk(s, s.workers[w]))
    && (s.failed == {} ==> IsPrefix(s.stored))
  }

  lemma CoverageGrows(s: State, s': State, n: nat)
    requires Covered(s, n) && s.visible <= s'.visible && s.failed <= s'.failed
    requires forall i :: i in s.stored ==> i in s'.stored
    ensures Covered(s', n)
  {
  }

  lemma PhasesKept(s: State, s': State, w: Worker)
    requires Inv(s) && s.visible <= s'.visible && s.failed <= s'.failed
    requires forall i :: i in s.stored ==> i in s'.stored
    requires forall v :: v in s'.workers && v != w ==> v in s.workers && s'.workers[v] == s.workers[v]
    requires w in s'.workers ==> PhaseOk(s', s'.workers[w])
    ensures forall v :: v in s'.workers ==> PhaseOk(s', s'.workers[v])
  {
    forall v | v in s'.workers ensures PhaseOk(s', s'.workers[v]) {
      if v != w {
        assert PhaseOk(s, s.workers[v]);
        match s.workers[v]
        case Loaded(from) => CoverageGrows(s, s', from);
        case Inserting(pos, end) => CoverageGrows(s, s', pos);
        case Saving(end) => CoverageGrows(s, s', end);
        case _ =>
      }
    }
  }

  /** A prefix without gaps can only be extended by the next trade. */
  lemma InsertKeepsPrefix(stored: seq<nat>, trade: nat)
    requires IsPrefix(stored) && forall i: nat :: i < trade ==> i in stored
    ensures IsPrefix(InsertTrade(stored, trade))
  {
    assert trade < |stored| ==> stored[trade] == trade;
    if trade !in stored {
      assert trade > |stored| ==> |stored| in stored;
    }
  }

  lemma InsertKeepsInv(s: State, w: Worker, throws: bool)
    requires Inv(s) && w in s.workers && s.workers[w].Inserting?
    ensures Inv(DoInsert(s, w, throws))
  {
    var s' := DoInsert(s, w, throws);
    var pos := s.workers[w].pos;
    assert PhaseOk(s, s.workers[w]);
    assert throws || pos in s'.stored;
    CoverageGrows(s, s', pos);
    CoverageGrows(s, s', Next(s.cursor));
    PhasesKept(s, s', w);
    if s'.failed == {} {
      assert throws ==> pos in s'.failed;
      InsertKeepsPrefix(s.stored, pos);
    }
  }

  lemma ActionKeepsInv(s: State, a: Action)
    requires Inv(s) && Enabled(s, a)
    ensures Inv(Apply(s, a))
  {
    match a
    case Publish => PublishKeepsInv(s);
    case Spawn(w) => PhasesKept(s, Apply(s, a), w);
    case LoadCursor(w) => PhasesKept(s, Apply(s, a), w);
    case Fetch(w, count) =>
      assert PhaseOk(s, s.workers[w]);
      PhasesKept(s, Apply(s, a), w);
    case Insert(w, throws) => InsertKeepsInv(s, w, throws);
    case SaveCursor(w) =>
      assert PhaseOk(s, s.workers[w]);
      PhasesKept(s, Apply(s, a), w);
  }

  lemma PublishKeepsInv(s: State)
    requires Inv(s)
    ensures Inv(Apply(s, Publish))
  {
    var s' := Apply(s, Publish);
    CoverageGrows(s, s', Next(s.cursor));
    forall v | v in s'.workers ensures PhaseOk(s', s'.workers[v]) {
      assert PhaseOk(s, s.workers[v]);
    }
  }

  lemma {:induction false} RunKeepsInv(s: State, run: seq<Action>)
    requires Inv(s) && Runs(s, run)
    ensures Inv(Final(s, run))
    decreases |run|
  {
    if run != [] {
      ActionKeepsInv(s, run[0]);
      RunKeepsInv(Apply(s, run[0]), run[1..]);
    }
  }

  // ---------------------------------------------------------------- Whole runs

  /**
   With any number of overlapping workers and crashes, the stored events are duplicate-free, and
   every trade the saved cursor has passed is stored or is one whose insert threw.
   */
  lemma CursorNeverSkipsUnseen(run: seq<Action>)
    requires Runs(Empty(), run)
    ensures var s := Final(Empty(), run);
            NoDuplicates(s.stored) && Covered(s, Next(s.cursor))
  {
    RunKeepsInv(Empty(), run);
  }

  /** When no insert threw, the stored events are exactly a prefix of the stream and the cursor lies within it. */
  lemma StoredIsPrefix(run: seq<Action>)
    requires Runs(Empty(), run) && Final(Empty(), run).failed == {}
    ensures var s := Final(Empty(), run);
            IsPrefix(s.stored) && Next(s.cursor) <= |s.stored| <= s.visible
  {
    RunKeepsInv(Empty(), run);
    var s := Final(Empty(), run);
    var n := Next(s.cursor);
    if n > 0 { assert n - 1 in s.stored; }
    if |s.stored| > 0 { assert s.stored[|s.stored| - 1] == |s.stored| - 1; }
  }

  /** The position a worker will touch next lies beyond trade `i`, or it only has a cursor to save that does. */
  predicate Beyond(ph: Phase, i: nat) {
    match ph
    case Start => true
    case Loaded(from) => from > i
    case Inserting(pos, end) => pos > i
    case Saving(end) => end > i
    case Finished => true
  }

  ghost predicate Passed(s: State, i: nat) {
    && s.cursor.Some? && s.cursor.value >= i
    && i !in s.stored
    && forall w :: w in s.workers ==> Beyond(s.workers[w], i)
  }

  /** An insert error is never repaired: once the cursor and all workers are past a trade, it stays missing. */
  lemma {:induction false} PassedTradeStaysMissing(s: State, run: seq<Action>, i: nat)
    requires Passed(s, i) && Runs(s, run)
    ensures Passed(Final(s, run), i)
    decreases |run|
  {
    if run != [] {
      PassedTradeStaysMissing(Apply(s, run[0]), run[1..], i);
    }
  }

  lemma RunStep(s: State, run: seq<Action>)
    requires run != [] && Enabled(s, run[0]) && Runs(Apply(s, run[0]), run[1..])
    ensures Runs(s, run) && Final(s, run) == Final(Apply(s, run[0]), run[1..])
  {
  }

  // ---------------------------------------------------------------- When a trade can still be stored

  lemma {:induction false} RunsConcat(s: State, run1: seq<Action>, run2: seq<Action>)
    requires Runs(s, run1) && Runs(Final(s, run1), run2)
    ensures Runs(s, run1 + run2) && Final(s, run1 + run2) == Final(Final(s, run1), run2)
    decreases |run1|
  {
    if run1 == [] {
      assert run1 + run2 == run2;
    } else {
      assert (run1 + run2)[1..] == run1[1..] + run2;
      RunsConcat(Apply(s, run1[0]), run1[1..], run2);
    }
  }

  /** A worker left alone inserts its whole page; nothing throws. */
  lemma {:induction false} InsertsPage(s: State, w: Worker, pos: nat, end: nat) returns (run: seq<Action>)
    requires At(s, w, Inserting(pos, end)) && pos < end
    ensures Runs(s, run)
    ensures var s' := Final(s, run);
            && s' == s.(stored := s'.stored, workers := s.workers[w := Saving(end)])
            && forall k: nat :: pos <= k < end ==> k in s'.stored
    ensures forall k :: k in s.stored ==> k in Final(s, run).stored
    decreases end - pos
  {
    var s1 := DoInsert(s, w, false);
    assert s1.failed == s.failed && pos in s1.stored;
    run := [];
    if pos + 1 < end {
      run := InsertsPage(s1, w, pos + 1, end);
    }
    run := [Insert(w, false)] + run;
  }

  function Count(from: nat, i: nat): (n: nat)
    requires from <= i
    ensures 0 < n <= PAGE && n <= i + 1 - from
  {
    if i + 1 - from < PAGE then i + 1 - from else PAGE
  }

  /** A worker with a page that starts at or before trade `i` stores it, or moves the cursor closer to it. */
  lemma StoresFromPage(s: State, w: Worker, pos: nat, end: nat, i: nat) returns (run: seq<Action>)
    requires At(s, w, Inserting(pos, end)) && pos < end && pos <= i < s.visible
    ensures Runs(s, run) && i in Final(s, run).stored
    decreases i - pos, 0
  {
    run := InsertsPage(s, w, pos, end);
    if end <= i {
      var s1 := Final(s, run);
      var more := StoresFromSaving(s1, w, end, i);
      RunsConcat(s, run, more);
      run := run + more;
    }
  }

  lemma StoresFromSaving(s: State, w: Worker, end: nat, i: nat) returns (run: seq<Action>)
    requires At(s, w, Saving(end)) && 0 < end <= i < s.visible
    ensures Runs(s, run) && i in Final(s, run).stored
    decreases i - end, 3
  {
    run := StoresFromCursor(Apply(s, SaveCursor(w)), i);
    run := [SaveCursor(w)] + run;
  }

  lemma StoresFromLoaded(s: State, w: Worker, from: nat, i: nat) returns (run: seq<Action>)
    requires At(s, w, Loaded(from)) && from <= i < s.visible
    ensures Runs(s, run) && i in Final(s, run).stored
    decreases i - from, 1
  {
    var a := Fetch(w, Count(from, i));
    run := StoresFromPage(Apply(s, a), w, from, from + Count(from, i), i);
    run := [a] + run;
  }

  /** A new worker starts at the cursor. */
  lemma StoresFromCursor(s: State, i: nat) returns (run: seq<Action>)
    requires Next(s.cursor) <= i < s.visible
    ensures Runs(s, run) && i in Final(s, run).stored
    decreases i - Next(s.cursor), 2
  {
    var w := UnusedExists(s.workers.Keys);
    var s1 := Apply(s, Spawn(w));
    run := StoresFromLoaded(Apply(s1, LoadCursor(w)), w, Next(s.cursor), i);
    run := [Spawn(w)] + ([LoadCursor(w)] + run);
  }

  lemma StoresUnlessPassed(s: State, i: nat) returns (run: seq<Action>)
    requires Inv(s) && i < s.visible && !Passed(s, i)
    ensures Runs(s, run) && i in Final(s, run).stored
  {
    if i in s.stored {
      run := [];
    } else if Next(s.cursor) <= i {
      run := StoresFromCursor(s, i);
    } else {
      var w :| w in s.workers && !Beyond(s.workers[w], i);
      assert PhaseOk(s, s.workers[w]);
      match s.workers[w]
      case Loaded(from) => run := StoresFromLoaded(s, w, from, i);
      case Inserting(pos, end) => run := StoresFromPage(s, w, pos, end, i);
      case Saving(end) => run := StoresFromSaving(s, w, end, i);
    }
  }

  /** A published trade can still be stored exactly as long as it is not missing below the cursor and all workers. */
  lemma StorableIffNotPassed(s: State, i: nat)
    requires Inv(s) && i < s.visible
    ensures (exists run :: Runs(s, run) && i in Final(s, run).stored) <==> !Passed(s, i)
  {
    if Passed(s, i) {
      forall run | Runs(s, run) ensures i !in Final(s, run).stored {
        PassedTradeStaysMissing(s, run, i);
      }
    } else {
      var run := StoresUnlessPassed(s, i);
    }
  }

  /** In every run a passed trade is one whose insert threw; so without insert errors every published trade can still be stored. */
  lemma PassedMeansFailed(run: seq<Action>, i: nat)
    requires Runs(Empty(), run) && Passed(Final(Empty(), run), i)
    ensures i in Final(Empty(), run).failed
  {
    RunKeepsInv(Empty(), run);
  }

  ghost predicate LosesFirstTrade(run: seq<Action>) {
    Runs(Empty(), run) && Passed(Final(Empty(), run), 0)
  }

  /** A worker has fetched the first trade and is about to insert it. */
  lemma FirstTradeFetched() returns (run: seq<Action>)
    ensures Runs(Empty(), run) && Final(Empty(), run) == State([], None, 1, map[0 := Inserting(0, 1)], {})
  {
    OneMore(Empty(), [], Publish);
    run := [] + [Publish];
    OneMore(Empty(), run, Spawn(0));
    run := run + [Spawn(0)];
    OneMore(Empty(), run, LoadCursor(0));
    run := run + [LoadCursor(0)];
    OneMore(Empty(), run, Fetch(0, 1));
    run := run + [Fetch(0, 1)];
  }

  /** The condition is needed: one insert error, and the wallet's first trade is gone for good. */
  lemma OneErrorLosesATrade()
    ensures exists run :: LosesFirstTrade(run)
  {
    var run := FirstTradeFetched();
    OneMore(Empty(), run, Insert(0, true));
    run := run + [Insert(0, true)];
    OneMore(Empty(), run, SaveCursor(0));
    run := run + [SaveCursor(0)];
    assert LosesFirstTrade(run);
  }

  lemma {:induction false} OneMore(s: State, run: seq<Action>, a: Action)
    requires Runs(s, run) && Enabled(Final(s, run), a)
    ensures Runs(s, run + [a]) && Final(s, run + [a]) == Apply(Final(s, run), a)
    decreases |run|
  {
    if run == [] {
      assert run + [a] == [a];
      RunStep(s, [a]);
    } else {
      assert (run + [a])[1..] == run[1..] + [a];
      OneMore(Apply(s, run[0]), run[1..], a);
    }
  }

  // ---------------------------------------------------------------- syncWallet, in the order its awaits run

  /** How many trades the source answers with: as many of those after the cursor as it sends, at most fifty. */
  function Answered(last: Option<nat>, count: nat, published: nat): nat {
    Min(Min(count, 50), Max(0, published - Next(last)))
  }

  class OfferEvents {
    var stored: seq<nat>         // offer_events of the wallet
    var cursor: Option<nat>      // offer_sync_cursors.last_paging_token
    ghost var log: seq<Action>
    ghost var now: State

    ghost predicate Valid()
      reads this
    {
      Runs(Empty(), log) && now == Final(Empty(), log) && now.stored == stored && now.cursor == cursor
    }

    constructor ()
      ensures Valid() && log == []
    {
      stored, cursor, log, now := [], None, [], Empty();
    }

    ghost method Book(a: Action)
      requires Runs(Empty(), log) && now == Final(Empty(), log) && Enabled(now, a)
      requires stored == Apply(now, a).stored && cursor == Apply(now, a).cursor
      modifies this`log, this`now
      ensures Valid() && log == old(log) + [a] && now == Apply(old(now), a)
    {
      OneMore(Empty(), log, a);
      log, now := log + [a], Apply(now, a);
    }

    /** An await: trades appear and other workers act; the caller keeps its place, trades stay published and stored. */
    method Await(ghost w: Worker)
      requires Valid() && w in now.workers
      modifies this
      ensures Valid() && old(log) <= log && At(now, w, old(now.workers[w])) && old(now.visible) <= now.visible
      ensures old(stored) <= stored
    {
    }

    method LoadLastToken(ghost w: Worker) returns (last: Option<nat>)
      requires Valid() && At(now, w, Start)
      modifies this
      ensures Valid() && old(log) <= log && At(now, w, Loaded(Next(last))) && old(now.visible) <= now.visible
    {
      Await(w);
      last := cursor;
      Book(LoadCursor(w));
    }

    /** getTradeHistory(publicKey, cursor, 50): up to `count` consecutive trades after the cursor, if there are any. */
    method GetTradeHistory(ghost w: Worker, last: Option<nat>, count: nat, published: nat) returns (trades: seq<nat>)
      requires Valid() && At(now, w, Loaded(Next(last))) && published <= now.visible
      modifies this
      ensures Valid() && old(log) <= log && |trades| == Answered(last, count, published)
      ensures forall i :: 0 <= i < |trades| ==> trades[i] == Next(last) + i
      ensures At(now, w, if trades == [] then Finished else Inserting(Next(last), Next(last) + |trades|))
    {
      Await(w);
      var from := Next(last);
      var room := if from < published then published - from else 0;
      var n := if count < room then count else room;
      if n > PAGE {
        n := PAGE;
      }
      trades := seq(n, i => from + i);
      LoadedIsVisible(log, w);
      Book(Fetch(w, n));
    }

    method InsertOne(ghost w: Worker, trade: nat, ghost end: nat, throws: bool)
      requires Valid() && At(now, w, Inserting(trade, end))
      modifies this
      ensures Valid() && old(log) <= log
      ensures At(now, w, if trade + 1 < end then Inserting(trade + 1, end) else Saving(trade + 1))
      ensures old(stored) <= stored && (!throws ==> trade in stored)
    {
      Await(w);
      if !throws {
        stored := if trade in stored then stored else stored + [trade];
      }
      Book(Insert(w, throws));
    }

    method SaveToken(ghost w: Worker, last: nat)
      requires Valid() && At(now, w, Saving(last + 1))
      modifies this
      ensures Valid() && old(log) <= log && At(now, w, Finished) && cursor == Some(last) && old(stored) <= stored
    {
      Await(w);
      cursor := Some(last);
      Book(SaveCursor(w));
    }

    /** syncWallet; `published` and `count` shape the source's answer, `throws(i)` says whether the i-th insert fails. */
    method SyncWallet(ghost w: Worker, published: nat, count: nat, throws: nat -> bool)
      returns (ghost last: Option<nat>, ghost trades: seq<nat>)
      requires Valid() && w !in now.workers && published <= now.visible
      modifies this
      ensures Valid() && old(log) <= log && At(now, w, Finished)
      ensures |trades| == Answered(last, count, published) && forall i :: 0 <= i < |trades| ==> trades[i] == Next(last) + i
      ensures forall i: nat :: i < |trades| && !throws(i) ==> trades[i] in stored
      ensures trades != [] ==> cursor == Some(trades[|trades| - 1])
      ensures now.failed == {} ==> IsPrefix(stored) && Next(cursor) <= |stored|
    {
      Book(Spawn(w));
      var token := LoadLastToken(w);
      var fetched := GetTradeHistory(w, token, count, published);
      last, trades := token, fetched;
      if fetched != [] {
        InsertAndSave(w, fetched, throws);
      }
      if now.failed == {} { StoredIsPrefix(log); }
    }

    method InsertAndSave(ghost w: Worker, trades: seq<nat>, throws: nat -> bool)
      requires Valid() && trades != [] && At(now, w, Inserting(trades[0], trades[0] + |trades|))
      requires forall i :: 0 <= i < |trades| ==> trades[i] == trades[0] + i
      modifies this
      ensures Valid() && old(log) <= log && At(now, w, Finished) && cursor == Some(trades[|trades| - 1])
      ensures forall i: nat :: i < |trades| && !throws(i) ==> trades[i] in stored
    {
      var lastPagingToken := trades[0];
      for i := 0 to |trades|
        invariant Valid() && old(log) <= log
        invariant forall k: nat :: k < i && !throws(k) ==> trades[k] in stored
        invariant i > 0 ==> lastPagingToken == trades[i - 1]
        invariant At(now, w, if i < |trades| then Inserting(trades[0] + i, trades[0] + |trades|)
                             else Saving(trades[0] + i))
      {
        InsertOne(w, trades[i], trades[0] + |trades|, throws(i));
        lastPagingToken := trades[i];
      }
      SaveToken(w, lastPagingToken);
    }
  }

  lemma LoadedIsVisible(run: seq<Action>, w: Worker)
    requires Runs(Empty(), run) && w in Final(Empty(), run).workers && Final(Empty(), run).workers[w].Loaded?
    ensures Final(Empty(), run).workers[w].from <= Final(Empty(), run).visible
  {
    RunKeepsInv(Empty(), run);
    assert PhaseOk(Final(Empty(), run), Final(Empty(), run).workers[w]);
  }
}
