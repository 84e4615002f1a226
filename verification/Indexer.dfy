/**
 The contract event indexer of one contract (`jobs/contractEventIndexer.js`): what a run makes of
 the last indexed ledger and of the remembered gaps, over any sequence of runs and for runs that
 overlap, and which events end with a row of their own.
 */
module Indexer {
  import opened Wrappers

  type Key = nat   // transaction hash and event type

  const BATCH_SIZE: nat := 100
  const MAX_LEDGER_GAP: nat := 1000

  /** A fetched event: unreadable, or a ledger and whether its insert throws. */
  datatype Event = Unreadable | Event(key: Key, ledger: nat, fails: bool)

  /** A row of contract_event_indexer_state. */
  datatype Row = Row(last: nat, gaps: seq<nat>)

  predicate Stored(e: Event) {
    e.Event? && !e.fails
  }

  /** The highest of `low` and the ledgers of the stored events. */
  function HighestStored(low: nat, events: seq<Event>): nat {
    if events == [] then low
    else
      var last := events[|events| - 1];
      var before := HighestStored(low, events[..|events| - 1]);
      if Stored(last) then Max(before, last.ledger) else before
  }

  /** The highest of `low` and the ledgers below any readable event, stored or not. */
  function HighestSkipped(low: int, events: seq<Event>): int {
    if events == [] then low
    else
      var last := events[|events| - 1];
      var before := HighestSkipped(low, events[..|events| - 1]);
      if last.Event? then Max(before, last.ledger - 1) else before
  }

  /** The ledgers from `from` on, as many as there are up to `to`. */
  function Ledgers(from: nat, to: int): (r: seq<nat>) {
    seq(Max(0, to - from + 1), i requires 0 <= i => from + i)
  }

  /** INSERT INTO contract_events ... ON CONFLICT DO NOTHING: if keys are unique there, a second row is not written. */
  function InsertKey(unique: bool, table: multiset<Key>, key: Key): multiset<Key> {
    if unique && key in table then table else table + multiset{key}
  }

  function AddStored(unique: bool, table: multiset<Key>, events: seq<Event>): multiset<Key> {
    if events == [] then table
    else
      var last := events[|events| - 1];
      var before := AddStored(unique, table, events[..|events| - 1]);
      if Stored(last) then InsertKey(unique, before, last.key) else before
  }

  function StoredCount(events: seq<Event>): nat {
    if events == [] then 0
    else StoredCount(events[..|events| - 1]) + (if Stored(events[|events| - 1]) then 1 else 0)
  }

  /** The gaps are the ledgers right above the last indexed one, without a hole. */
  predicate Contiguous(r: Row) {
    r.gaps == Ledgers(r.last + 1, r.last + |r.gaps|)
  }

  function Fresh(): Row { Row(0, []) }

  /** The row that a run over `events` writes; an empty answer writes nothing. */
  function Index(r: Row, events: seq<Event>): Row {
    if events == [] then r
    else
      var last := HighestStored(r.last, events);
      var gaps := Ledgers(last + 1, HighestSkipped(r.last + |r.gaps|, events));
      Row(last, gaps[..Min(|gaps|, MAX_LEDGER_GAP)])
  }

  /** The ledger that a run asks for: the lowest gap if there is one. */
  function StartLedger(r: Row): nat {
    if r.gaps == [] then r.last + 1 else Lowest(r.gaps)
  }

  function Lowest(s: seq<nat>): nat
    requires s != []
  {
    if |s| == 1 then s[0] else Min(s[0], Lowest(s[1..]))
  }

  // ---------------------------------------------------------------- One run

  lemma {:induction false} StoredIsHighest(low: nat, events: seq<Event>)
    ensures HighestStored(low, events) >= low
    ensures forall i :: 0 <= i < |events| && Stored(events[i]) ==> events[i].ledger <= HighestStored(low, events)
    ensures HighestStored(low, events) == low
            || exists i :: 0 <= i < |events| && Stored(events[i]) && events[i].ledger == HighestStored(low, events)
  {
    if events != [] {
      var rest, last := events[..|events| - 1], events[|events| - 1];
      StoredIsHighest(low, rest);
      assert forall i :: 0 <= i < |rest| ==> rest[i] == events[i];
      if HighestStored(low, events) != low && HighestStored(low, events) == HighestStored(low, rest) {
        var i :| 0 <= i < |rest| && Stored(rest[i]) && rest[i].ledger == HighestStored(low, rest);
        assert events[i] == rest[i];
      }
    }
  }

  /**
   A run never moves back: the last indexed ledger becomes the highest ledger stored so far, and the
   gaps stay distinct, strictly above it, contiguous and bounded in number.
   */
  lemma RunAdvances(r: Row, events: seq<Event>)
    requires Contiguous(r)
    ensures var after := Index(r, events);
            && after.last == HighestStored(r.last, events) >= r.last
            && Contiguous(after)
            && (forall i, j :: 0 <= i < j < |after.gaps| ==> after.last < after.gaps[i] < after.gaps[j])
            && (|r.gaps| <= MAX_LEDGER_GAP ==> |after.gaps| <= MAX_LEDGER_GAP)
  {
    StoredIsHighest(r.last, events);
    var after := Index(r, events);
    assert forall i :: 0 <= i < |after.gaps| ==> after.gaps[i] == after.last + 1 + i;
  }

  lemma {:induction false} LowestOfLedgers(from: nat, n: nat)
    requires n > 0
    ensures Lowest(Ledgers(from, from + n - 1)) == from
    decreases n
  {
    var s := Ledgers(from, from + n - 1);
    if n > 1 {
      assert s[1..] == Ledgers(from + 1, from + n - 1);
      LowestOfLedgers(from + 1, n - 1);
    }
  }

  /** The branch that starts at the lowest gap starts where the other one does: gaps are never fetched again. */
  lemma RecoveryChangesNothing(r: Row)
    requires Contiguous(r)
    ensures StartLedger(r) == r.last + 1
  {
    if r.gaps != [] {
      LowestOfLedgers(r.last + 1, |r.gaps|);
    }
  }

  // ---------------------------------------------------------------- Sequences of runs

  function IndexAll(r: Row, batches: seq<seq<Event>>): Row {
    if batches == [] then r else Index(IndexAll(r, batches[..|batches| - 1]), batches[|batches| - 1])
  }

  function Concat(batches: seq<seq<Event>>): seq<Event> {
    if batches == [] then [] else Concat(batches[..|batches| - 1]) + batches[|batches| - 1]
  }

  lemma {:induction false} HighestOfConcat(low: nat, xs: seq<Event>, ys: seq<Event>)
    ensures HighestStored(low, xs + ys) == HighestStored(HighestStored(low, xs), ys)
  {
    if ys == [] {
      assert xs + ys == xs;
    } else {
      assert (xs + ys)[..|xs + ys| - 1] == xs + ys[..|ys| - 1];
      HighestOfConcat(low, xs, ys[..|ys| - 1]);
    }
  }

  /** After any number of runs the last indexed ledger is the highest ever stored, and runs go on right above it. */
  lemma {:induction false} RunsTrackTheHighest(batches: seq<seq<Event>>)
    ensures var r := IndexAll(Fresh(), batches);
            && r.last == HighestStored(0, Concat(batches))
            && Contiguous(r) && |r.gaps| <= 1000 && StartLedger(r) == r.last + 1
  {
    var r := IndexAll(Fresh(), batches);
    if batches != [] {
      var rest, last := batches[..|batches| - 1], batches[|batches| - 1];
      RunsTrackTheHighest(rest);
      RunAdvances(IndexAll(Fresh(), rest), last);
      HighestOfConcat(0, Concat(rest), last);
    }
    RecoveryChangesNothing(r);
  }

  lemma {:induction false} LastNeverDecreases(r: Row, batches: seq<seq<Event>>)
    requires Contiguous(r)
    ensures IndexAll(r, batches).last >= r.last && Contiguous(IndexAll(r, batches))
  {
    if batches != [] {
      LastNeverDecreases(r, batches[..|batches| - 1]);
      RunAdvances(IndexAll(r, batches[..|batches| - 1]), batches[|batches| - 1]);
    }
  }

  /** An event that fails is lost once an event of its ledger or a later one is stored: no later run asks for it. */
  lemma FailedEventIsNotRetried(r: Row, events: seq<Event>, i: nat, j: nat, later: seq<seq<Event>>)
    requires Contiguous(r) && i < |events| && j < |events|
    requires events[i].Event? && events[i].fails && Stored(events[j]) && events[j].ledger >= events[i].ledger
    ensures StartLedger(IndexAll(Index(r, events), later)) > events[i].ledger
  {
    RunAdvances(r, events);
    StoredIsHighest(r.last, events);
    LastNeverDecreases(Index(r, events), later);
    RecoveryChangesNothing(IndexAll(Index(r, events), later));
  }

  /** A failed event is asked for again exactly as long as its ledger was not passed before, nor by this run. */
  lemma RetriedIffNothingPassedIt(r: Row, events: seq<Event>, ledger: nat)
    requires Contiguous(r) && events != []
    ensures StartLedger(Index(r, events)) <= ledger
            <==> r.last < ledger && forall j :: 0 <= j < |events| && Stored(events[j]) ==> events[j].ledger < ledger
  {
    RunAdvances(r, events);
    RecoveryChangesNothing(Index(r, events));
    StoredIsHighest(r.last, events);
  }

  // ---------------------------------------------------------------- Overlapping runs

  /** Reads the row, or writes what a run makes of the row it read earlier. */
  datatype Action = Read(run: nat) | Write(run: nat, events: seq<Event>)

  datatype State = State(row: Row, held: map<nat, Row>)

  predicate Enabled(s: State, a: Action) {
    a.Write? ==> a.run in s.held
  }

  function Apply(s: State, a: Action): State
    requires Enabled(s, a)
  {
    match a
    case Read(run) => s.(held := s.held[run := s.row])
    case Write(run, events) => State(if events == [] then s.row else Index(s.held[run], events), s.held - {run})
  }

  predicate Interleaves(s: State, actions: seq<Action>)
    decreases |actions|
  {
    actions == [] || (Enabled(s, actions[0]) && Interleaves(Apply(s, actions[0]), actions[1..]))
  }

  function After(s: State, actions: seq<Action>): State
    requires Interleaves(s, actions)
    decreases |actions|
  {
    if actions == [] then s else After(Apply(s, actions[0]), actions[1..])
  }

  predicate AllContiguous(s: State) {
    Contiguous(s.row) && forall run :: run in s.held ==> Contiguous(s.held[run])
  }

  /** However runs overlap, the gaps never move where a run starts. */
  lemma {:induction false} StartIsAlwaysTheNextLedger(s: State, actions: seq<Action>)
    requires AllContiguous(s) && Interleaves(s, actions)
    ensures AllContiguous(After(s, actions))
    ensures StartLedger(After(s, actions).row) == After(s, actions).row.last + 1
    decreases |actions|
  {
    if actions == [] {
      RecoveryChangesNothing(s.row);
    } else {
      if actions[0].Write? { RunAdvances(s.held[actions[0].run], actions[0].events); }
      StartIsAlwaysTheNextLedger(Apply(s, actions[0]), actions[1..]);
    }
  }

  /** A run moves the last indexed ledger back exactly if it read a lower one and stored nothing as high as the current one. */
  lemma WriteMovesBackIff(s: State, run: nat, events: seq<Event>)
    requires run in s.held
    ensures Apply(s, Write(run, events)).row.last < s.row.last
            <==> events != [] && s.held[run].last < s.row.last
                 && forall i :: 0 <= i < |events| && Stored(events[i]) ==> events[i].ledger < s.row.last
  {
    StoredIsHighest(s.held[run].last, events);
  }

  /** Every run that writes still holds the current row. */
  predicate InTurn(s: State, actions: seq<Action>)
    requires Interleaves(s, actions)
    decreases |actions|
  {
    actions == [] || ((actions[0].Write? ==> s.held[actions[0].run] == s.row) && InTurn(Apply(s, actions[0]), actions[1..]))
  }

  /** As long as that is so, the last indexed ledger never decreases, however many runs have started. */
  lemma {:induction false} InTurnNeverMovesBack(s: State, actions: seq<Action>)
    requires Interleaves(s, actions) && InTurn(s, actions)
    ensures After(s, actions).row.last >= s.row.last
    decreases |actions|
  {
    if actions != [] {
      if actions[0].Write? { WriteMovesBackIff(s, actions[0].run, actions[0].events); }
      InTurnNeverMovesBack(Apply(s, actions[0]), actions[1..]);
    }
  }

  /** Two overlapping runs that do move it back. */
  lemma OverlapMovesBack(low: Event, high: Event)
    requires Stored(low) && Stored(high) && low.ledger < high.ledger
    ensures var s0 := State(Fresh(), map[]);
            var behind := [Read(0), Read(1), Write(1, [high])];
            && Interleaves(s0, behind) && After(s0, behind).row.last == high.ledger
            && Enabled(After(s0, behind), Write(0, [low]))
            && Apply(After(s0, behind), Write(0, [low])).row.last == low.ledger
  {
    var s0 := State(Fresh(), map[]);
    var s1 := Apply(s0, Read(0));
    var s2 := Apply(s1, Read(1));
    var s3 := Apply(s2, Write(1, [high]));
    var behind := [Read(0), Read(1), Write(1, [high])];
    assert behind[1..] == [Read(1), Write(1, [high])] && behind[1..][1..] == [Write(1, [high])];
    assert Interleaves(s2, behind[1..][1..]) && After(s2, behind[1..][1..]) == s3;
    assert Interleaves(s1, behind[1..]) && After(s1, behind[1..]) == s3;
    assert HighestStored(0, [high]) == high.ledger by { assert [high][..0] == []; }
    assert HighestStored(0, [low]) == low.ledger by { assert [low][..0] == []; }
  }

  // ---------------------------------------------------------------- Batches

  /** The events of a source from a ledger on. */
  function FromLedger(source: seq<Event>, start: nat): seq<Event> {
    if source == [] then []
    else
      var last := source[|source| - 1];
      FromLedger(source[..|source| - 1], start) + (if last.Unreadable? || last.ledger >= start then [last] else [])
  }

  function Batch(events: seq<Event>): seq<Event> {
    events[..Min(|events|, BATCH_SIZE)]
  }

  /** The first hundred events, or all if they are fewer. */
  lemma BatchIsFirstHundred(events: seq<Event>)
    ensures Batch(events) <= events && |Batch(events)| == if |events| <= 100 then |events| else 100
  {
  }

  /** A source in ledger order whose events can all be read and stored. */
  predicate Healthy(source: seq<Event>) {
    && (forall i :: 0 <= i < |source| ==> Stored(source[i]))
    && forall i, j :: 0 <= i < j < |source| ==> source[i].ledger <= source[j].ledger
  }

  lemma {:induction false} FromLedgerConcat(a: seq<Event>, b: seq<Event>, start: nat)
    ensures FromLedger(a + b, start) == FromLedger(a, start) + FromLedger(b, start)
  {
    if b == [] {
      assert a + b == a;
    } else {
      assert (a + b)[..|a + b| - 1] == a + b[..|b| - 1];
      FromLedgerConcat(a, b[..|b| - 1], start);
    }
  }

  predicate Readable(source: seq<Event>) {
    forall i :: 0 <= i < |source| ==> source[i].Event?
  }

  lemma {:induction false} FromLedgerKeeps(source: seq<Event>, start: nat)
    requires Readable(source)
    ensures |FromLedger(source, start)| <= |source|
    ensures forall e :: e in FromLedger(source, start) ==> e.Event? && e.ledger >= start
  {
    if source != [] {
      FromLedgerKeeps(source[..|source| - 1], start);
    }
  }

  lemma {:induction false} FromLedgerWhole(source: seq<Event>, start: nat)
    requires Readable(source) && forall i :: 0 <= i < |source| ==> source[i].ledger >= start
    ensures FromLedger(source, start) == source
  {
    if source != [] {
      FromLedgerWhole(source[..|source| - 1], start);
    }
  }

  lemma {:induction false} FromLedgerNone(source: seq<Event>, start: nat)
    requires Readable(source) && forall i :: 0 <= i < |source| ==> source[i].ledger < start
    ensures FromLedger(source, start) == []
  {
    if source != [] {
      FromLedgerNone(source[..|source| - 1], start);
    }
  }

  lemma FromLedgerDropsFirst(source: seq<Event>, start: nat)
    requires Readable(source) && source != [] && source[0].ledger < start
    ensures |FromLedger(source, start)| < |source|
  {
    assert source == source[..1] + source[1..];
    FromLedgerConcat(source[..1], source[1..], start);
    FromLedgerNone(source[..1], start);
    FromLedgerKeeps(source[1..], start);
  }

  lemma {:induction false} FromLedgerTwice(source: seq<Event>, low: nat, high: nat)
    requires low <= high && Readable(source)
    ensures FromLedger(FromLedger(source, low), high) == FromLedger(source, high)
  {
    if source != [] {
      var init, last := source[..|source| - 1], source[|source| - 1];
      FromLedgerTwice(init, low, high);
      FromLedgerConcat(FromLedger(init, low), if last.ledger >= low then [last] else [], high);
      assert [last][..0] == [];
    }
  }

  /** Healthy sources stay healthy when their beginning, or what lies below a ledger, is dropped. */
  lemma {:induction false} HealthyFrom(source: seq<Event>, start: nat)
    requires Healthy(source)
    ensures Healthy(FromLedger(source, start)) && forall e :: e in FromLedger(source, start) ==> e in source
  {
    if source != [] {
      var init := source[..|source| - 1];
      HealthyFrom(init, start);
      assert forall e :: e in FromLedger(init, start) ==> e in init;
      assert forall i :: 0 <= i < |FromLedger(init, start)| ==> FromLedger(init, start)[i] in init;
    }
  }

  function LastLedger(batch: seq<Event>): nat
    requires batch != [] && Healthy(batch)
  {
    batch[|batch| - 1].ledger
  }

  /** What is left to ask for once a batch of the pending events is stored: the ledgers above its last one. */
  function Left(pending: seq<Event>): seq<Event>
    requires pending != [] && Healthy(pending)
  {
    FromLedger(pending[|Batch(pending)|..], LastLedger(Batch(pending)) + 1)
  }

  lemma LeftIsLess(pending: seq<Event>)
    requires pending != [] && Healthy(pending)
    ensures |Left(pending)| <= |pending| - |Batch(pending)| && Healthy(Left(pending))
  {
    FromLedgerKeeps(pending[|Batch(pending)|..], LastLedger(Batch(pending)) + 1);
    HealthyFrom(pending[|Batch(pending)|..], LastLedger(Batch(pending)) + 1);
  }

  /** The events that runs store of the pending ones, as long as none of them is answered by an error. */
  function Collected(pending: seq<Event>): seq<Event>
    requires Healthy(pending)
    decreases |pending|
  {
    if pending == [] then []
    else
      LeftIsLess(pending);
      Batch(pending) + Collected(Left(pending))
  }

  /** No batch ends inside a ledger. */
  predicate CutFree(pending: seq<Event>)
    requires Healthy(pending)
    decreases |pending|
  {
    pending == [] ||
    (var n := |Batch(pending)|;
     (n < |pending| ==> pending[n - 1].ledger < pending[n].ledger) && CutFree(pending[n..]))
  }

  lemma {:induction false} CollectedIsAtMostAll(pending: seq<Event>)
    requires Healthy(pending)
    ensures |Collected(pending)| <= |pending|
    decreases |pending|
  {
    if pending != [] {
      LeftIsLess(pending);
      CollectedIsAtMostAll(Left(pending));
    }
  }

  lemma LeftIsRestIff(pending: seq<Event>)
    requires pending != [] && Healthy(pending)
    ensures var n := |Batch(pending)|;
            if n < |pending| ==> pending[n - 1].ledger < pending[n].ledger then Left(pending) == pending[n..]
            else |Left(pending)| < |pending| - n
  {
    var n := |Batch(pending)|;
    var rest, start := pending[n..], pending[n - 1].ledger + 1;
    if n < |pending| ==> pending[n - 1].ledger < pending[n].ledger {
      assert forall i :: 0 <= i < |rest| ==> pending[n].ledger <= rest[i].ledger;
      FromLedgerWhole(rest, start);
    } else {
      FromLedgerDropsFirst(rest, start);
    }
  }

  lemma CutLosesEvents(pending: seq<Event>)
    requires pending != [] && Healthy(pending) && |Left(pending)| < |pending| - |Batch(pending)|
    ensures |Collected(pending)| < |pending|
  {
    LeftIsLess(pending);
    CollectedIsAtMostAll(Left(pending));
  }

  lemma NoCutKeepsRest(pending: seq<Event>)
    requires pending != [] && Healthy(pending) && Left(pending) == pending[|Batch(pending)|..]
    ensures var rest := pending[|Batch(pending)|..];
            Healthy(rest) && |rest| < |pending| && Collected(pending) == Batch(pending) + Collected(rest)
  {
    LeftIsLess(pending);
  }

  /** What is to be shown of the pending events. */
  predicate CollectedIffCutFree(pending: seq<Event>)
    requires Healthy(pending)
  {
    if CutFree(pending) then Collected(pending) == pending else |Collected(pending)| < |pending|
  }

  lemma NoCutStep(pending: seq<Event>)
    requires pending != [] && Healthy(pending) && Left(pending) == pending[|Batch(pending)|..]
    requires |Batch(pending)| < |pending| ==> pending[|Batch(pending)| - 1].ledger < pending[|Batch(pending)|].ledger
    requires Healthy(pending[|Batch(pending)|..]) && CollectedIffCutFree(pending[|Batch(pending)|..])
    ensures CollectedIffCutFree(pending)
  {
    NoCutKeepsRest(pending);
    assert pending == Batch(pending) + pending[|Batch(pending)|..];
  }

  /** Every pending event is stored in the end exactly if no batch ends inside a ledger. */
  lemma {:induction false} AllCollectedIffCutFree(pending: seq<Event>)
    requires Healthy(pending)
    ensures CollectedIffCutFree(pending)
    decreases |pending|
  {
    if pending != [] {
      var n := |Batch(pending)|;
      LeftIsRestIff(pending);
      if n < |pending| && pending[n - 1].ledger >= pending[n].ledger {
        CutLosesEvents(pending);
      } else {
        NoCutKeepsRest(pending);
        AllCollectedIffCutFree(pending[n..]);
        NoCutStep(pending);
      }
    }
  }

  /** Row and table after `k` runs over one source, every one of them answered. */
  function RunMany(unique: bool, source: seq<Event>, r: Row, table: multiset<Key>, k: nat): (Row, multiset<Key>)
    decreases k
  {
    if k == 0 then (r, table)
    else
      var batch := Batch(FromLedger(source, StartLedger(r)));
      RunMany(unique, source, Index(r, batch), AddStored(unique, table, batch), k - 1)
  }

  lemma {:induction false} AddStoredConcat(unique: bool, table: multiset<Key>, a: seq<Event>, b: seq<Event>)
    ensures AddStored(unique, table, a + b) == AddStored(unique, AddStored(unique, table, a), b)
  {
    if b == [] {
      assert a + b == a;
    } else {
      assert (a + b)[..|a + b| - 1] == a + b[..|b| - 1];
      AddStoredConcat(unique, table, a, b[..|b| - 1]);
    }
  }

  lemma {:induction false} HighestOfHealthy(low: nat, batch: seq<Event>)
    requires batch != [] && Healthy(batch) && low <= batch[0].ledger
    ensures HighestStored(low, batch) == LastLedger(batch)
  {
    StoredIsHighest(low, batch);
    assert Stored(batch[|batch| - 1]);
  }

  lemma NothingAboveLast(batch: seq<Event>)
    requires batch != [] && Healthy(batch)
    ensures FromLedger(batch, LastLedger(batch) + 1) == []
  {
    var last := batch[|batch| - 1];
    forall i | 0 <= i < |batch| ensures batch[i].Event? && batch[i].ledger < last.ledger + 1 {
      assert i < |batch| - 1 ==> batch[i].ledger <= last.ledger;
    }
    FromLedgerNone(batch, last.ledger + 1);
  }

  lemma AboveBatch(batch: seq<Event>, rest: seq<Event>)
    requires batch != [] && Healthy(batch)
    ensures FromLedger(batch + rest, LastLedger(batch) + 1) == FromLedger(rest, LastLedger(batch) + 1)
  {
    FromLedgerConcat(batch, rest, LastLedger(batch) + 1);
    NothingAboveLast(batch);
  }

  lemma BatchIsHealthy(pending: seq<Event>)
    requires pending != [] && Healthy(pending)
    ensures Batch(pending) != [] && Healthy(Batch(pending))
    ensures Batch(pending) + pending[|Batch(pending)|..] == pending
  {
  }

  lemma LeftIsAboveBatch(pending: seq<Event>)
    requires pending != [] && Healthy(pending)
    ensures FromLedger(pending, LastLedger(Batch(pending)) + 1) == Left(pending)
  {
    BatchIsHealthy(pending);
    AboveBatch(Batch(pending), pending[|Batch(pending)|..]);
  }

  lemma PendingIsAbove(source: seq<Event>, last: nat)
    requires Readable(source) && FromLedger(source, last + 1) != []
    ensures var first := FromLedger(source, last + 1)[0]; first.Event? && first.ledger > last
  {
    FromLedgerKeeps(source, last + 1);
    var pending := FromLedger(source, last + 1);
    assert pending[0] in pending;
  }

  /** A batch of the pending events moves the last ledger to its own last one. */
  lemma BatchMovesTo(pending: seq<Event>, last: nat)
    requires pending != [] && Healthy(pending) && pending[0].ledger > last
    ensures HighestStored(last, Batch(pending)) == LastLedger(Batch(pending)) > last
  {
    HighestOfHealthy(last, Batch(pending));
  }

  /** A run over a healthy source leaves pending what lies above its batch. */
  lemma RunLeaves(source: seq<Event>, last: nat, pending: seq<Event>)
    requires Readable(source) && pending == FromLedger(source, last + 1) && pending != [] && Healthy(pending)
    ensures FromLedger(source, HighestStored(last, Batch(pending)) + 1) == Left(pending)
  {
    PendingIsAbove(source, last);
    BatchMovesTo(pending, last);
    FromLedgerTwice(source, last + 1, LastLedger(Batch(pending)) + 1);
    LeftIsAboveBatch(pending);
  }

  /** So enough runs store exactly the collected events. */
  lemma NextRun(source: seq<Event>, r: Row, pending: seq<Event>)
    requires Readable(source) && Contiguous(r) && pending == FromLedger(source, r.last + 1) && Healthy(pending) && pending != []
    ensures var after := Index(r, Batch(pending));
            Contiguous(after) && FromLedger(source, after.last + 1) == Left(pending)
    ensures Healthy(Left(pending)) && |Left(pending)| < |pending|
  {
    RunAdvances(r, Batch(pending));
    RunLeaves(source, r.last, pending);
    LeftIsLess(pending);
  }

  lemma CollectedStep(unique: bool, table: multiset<Key>, pending: seq<Event>)
    requires pending != [] && Healthy(pending) && Healthy(Left(pending))
    ensures AddStored(unique, table, Collected(pending))
            == AddStored(unique, AddStored(unique, table, Batch(pending)), Collected(Left(pending)))
  {
    AddStoredConcat(unique, table, Batch(pending), Collected(Left(pending)));
  }

  /** Once nothing is pending runs change nothing. */
  lemma {:induction false} RunsAddNothing(unique: bool, source: seq<Event>, r: Row, table: multiset<Key>, k: nat)
    requires Contiguous(r) && FromLedger(source, r.last + 1) == []
    ensures RunMany(unique, source, r, table, k).1 == table
    decreases k
  {
    RecoveryChangesNothing(r);
    if k > 0 { RunsAddNothing(unique, source, r, table, k - 1); }
  }

  /** The first run of many, and what it leaves to the others. */
  lemma FirstRun(unique: bool, source: seq<Event>, r: Row, table: multiset<Key>, pending: seq<Event>, k: nat)
    returns (after: Row, filled: multiset<Key>)
    requires Readable(source) && Contiguous(r) && pending == FromLedger(source, r.last + 1) && Healthy(pending)
    requires pending != [] && k > 0
    ensures RunMany(unique, source, r, table, k) == RunMany(unique, source, after, filled, k - 1)
    ensures Contiguous(after) && FromLedger(source, after.last + 1) == Left(pending)
    ensures Healthy(Left(pending)) && |Left(pending)| < |pending|
    ensures AddStored(unique, table, Collected(pending)) == AddStored(unique, filled, Collected(Left(pending)))
  {
    RecoveryChangesNothing(r);
    after, filled := Index(r, Batch(pending)), AddStored(unique, table, Batch(pending));
    NextRun(source, r, pending);
    CollectedStep(unique, table, pending);
  }

  lemma {:induction false} RunsCollect(unique: bool, source: seq<Event>, r: Row, table: multiset<Key>, pending: seq<Event>, k: nat)
    requires Readable(source) && Contiguous(r) && pending == FromLedger(source, r.last + 1) && Healthy(pending)
    requires k >= |pending|
    ensures RunMany(unique, source, r, table, k).1 == AddStored(unique, table, Collected(pending))
    decreases k
  {
    if pending == [] {
      RunsAddNothing(unique, source, r, table, k);
    } else {
      var after, filled := FirstRun(unique, source, r, table, pending, k);
      RunsCollect(unique, source, after, filled, Left(pending), k - 1);
    }
  }

  lemma {:induction false} CollectedIsFromSource(pending: seq<Event>)
    requires Healthy(pending)
    ensures forall e :: e in Collected(pending) ==> e in pending
    decreases |pending|
  {
    if pending != [] {
      LeftIsLess(pending);
      CollectedIsFromSource(Left(pending));
      HealthyFrom(pending[|Batch(pending)|..], LastLedger(Batch(pending)) + 1);
    }
  }

  // ---------------------------------------------------------------- Rows and events

  /** The rows of a table in which every event has its own. */
  function KeysOf(events: seq<Event>): (keys: multiset<Key>)
    requires Readable(events)
    ensures |keys| == |events|
    ensures forall i :: 0 <= i < |events| ==> events[i].key in keys
  {
    if events == [] then multiset{} else KeysOf(events[..|events| - 1]) + multiset{events[|events| - 1].key}
  }

  /** No stored event has the key of a row or of an earlier one. */
  predicate Novel(table: multiset<Key>, events: seq<Event>) {
    && (forall i :: 0 <= i < |events| && Stored(events[i]) ==> events[i].key !in table)
    && forall i, j :: 0 <= i < j < |events| && Stored(events[i]) && Stored(events[j]) ==> events[i].key != events[j].key
  }

  lemma {:induction false} InTableIff(unique: bool, table: multiset<Key>, events: seq<Event>, key: Key)
    ensures key in AddStored(unique, table, events)
            <==> key in table || exists i :: 0 <= i < |events| && Stored(events[i]) && events[i].key == key
    ensures table <= AddStored(unique, table, events)
  {
    if events != [] {
      var init := events[..|events| - 1];
      InTableIff(unique, table, init, key);
      assert forall i :: 0 <= i < |init| ==> init[i] == events[i];
    }
  }

  lemma NovelSnoc(unique: bool, table: multiset<Key>, init: seq<Event>, last: Event)
    ensures Novel(table, init + [last])
            <==> Novel(table, init) && (Stored(last) ==> last.key !in AddStored(unique, table, init))
  {
    var events := init + [last];
    assert forall i :: 0 <= i < |init| ==> events[i] == init[i];
    if Stored(last) {
      assert events[|init|] == last;
      InTableIff(unique, table, init, last.key);
    }
  }

  /**
   `indexed` counts inserts that did not throw. It is the number of rows written exactly if no key
   comes twice or keys need not be unique; otherwise there are fewer rows.
   */
  lemma {:induction false} IndexedIsRowsWrittenIff(unique: bool, table: multiset<Key>, events: seq<Event>)
    ensures |AddStored(unique, table, events)| <= |table| + StoredCount(events)
    ensures |AddStored(unique, table, events)| == |table| + StoredCount(events) <==> (unique ==> Novel(table, events))
  {
    if events != [] {
      var init, last := events[..|events| - 1], events[|events| - 1];
      IndexedIsRowsWrittenIff(unique, table, init);
      assert events == init + [last];
      NovelSnoc(unique, table, init, last);
    }
  }

  lemma {:induction false} AddsEveryKey(unique: bool, table: multiset<Key>, events: seq<Event>)
    requires Readable(events) && forall i :: 0 <= i < |events| ==> Stored(events[i])
    requires unique ==> Novel(table, events)
    ensures AddStored(unique, table, events) == table + KeysOf(events)
  {
    if events != [] {
      var init, last := events[..|events| - 1], events[|events| - 1];
      assert events == init + [last];
      NovelSnoc(unique, table, init, last);
      AddsEveryKey(unique, table, init);
    }
  }

  lemma {:induction false} AllStoredCount(events: seq<Event>)
    requires forall i :: 0 <= i < |events| ==> Stored(events[i])
    ensures StoredCount(events) == |events|
  {
    if events != [] { AllStoredCount(events[..|events| - 1]); }
  }

  /** Rows beyond the collected events there are none. */
  lemma CollectedRows(unique: bool, table: multiset<Key>, source: seq<Event>)
    requires Healthy(source)
    ensures |AddStored(unique, table, Collected(source))| <= |table| + |Collected(source)|
  {
    var collected := Collected(source);
    CollectedIsFromSource(source);
    assert forall i :: 0 <= i < |collected| ==> collected[i] in source;
    AllStoredCount(collected);
    IndexedIsRowsWrittenIff(unique, table, collected);
  }

  /** A source whose ledgers the indexer asks for from its fresh start on. */
  predicate FromFirstLedger(source: seq<Event>) {
    Healthy(source) && forall i :: 0 <= i < |source| ==> source[i].ledger >= 1
  }

  lemma TableIsCollected(unique: bool, source: seq<Event>, table: multiset<Key>, k: nat)
    requires FromFirstLedger(source) && k >= |source|
    ensures RunMany(unique, source, Fresh(), table, k).1 == AddStored(unique, table, Collected(source))
  {
    FromLedgerWhole(source, 1);
    RunsCollect(unique, source, Fresh(), table, source, k);
  }

  /**
   Enough runs leave every event of a healthy source a row of its own exactly if no batch ends inside
   a ledger and, where keys are unique, no key comes twice or was there before.
   */
  lemma EveryEventHasItsRowIff(unique: bool, source: seq<Event>, table: multiset<Key>, k: nat)
    requires FromFirstLedger(source) && k >= |source|
    ensures RunMany(unique, source, Fresh(), table, k).1 == table + KeysOf(source)
            <==> CutFree(source) && (unique ==> Novel(table, source))
  {
    TableIsCollected(unique, source, table, k);
    AllCollectedIffCutFree(source);
    if CutFree(source) {
      AllStoredCount(source);
      IndexedIsRowsWrittenIff(unique, table, source);
      if unique ==> Novel(table, source) { AddsEveryKey(unique, table, source); }
    } else {
      CollectedRows(unique, table, source);
    }
  }

  lemma {:induction false} OneRowPerKey(table: multiset<Key>, events: seq<Event>, key: Key)
    requires table[key] <= 1
    ensures AddStored(true, table, events)[key] <= 1
  {
    if events != [] { OneRowPerKey(table, events[..|events| - 1], key); }
  }

  /** Where keys are unique, all events of one transaction and type share one row, after any number of runs over any source. */
  lemma {:induction false} SharedKeySharesOneRow(source: seq<Event>, r: Row, table: multiset<Key>, k: nat, key: Key)
    requires table[key] <= 1
    ensures RunMany(true, source, r, table, k).1[key] <= 1
    decreases k
  {
    if k > 0 {
      var batch := Batch(FromLedger(source, StartLedger(r)));
      OneRowPerKey(table, batch, key);
      SharedKeySharesOneRow(source, Index(r, batch), AddStored(true, table, batch), k - 1, key);
    }
  }

  lemma {:induction false} NovelOnce(table: multiset<Key>, source: seq<Event>, key: Key)
    requires Healthy(source) && Novel(table, source)
    ensures KeysOf(source)[key] <= 1 && (key in KeysOf(source) ==> key !in table)
    ensures key in KeysOf(source) ==> exists i :: 0 <= i < |source| && source[i].key == key
  {
    if source != [] {
      var init := source[..|source| - 1];
      NovelOnce(table, init, key);
      if i :| 0 <= i < |init| && init[i].key == key { assert source[i].key == key; }
    }
  }

  /** Where no key comes twice, every event is found in the table exactly if no batch ends inside a ledger. */
  lemma EveryEventIsStoredIffCutFree(unique: bool, source: seq<Event>, table: multiset<Key>, k: nat)
    requires FromFirstLedger(source) && k >= |source| && Novel(table, source)
    ensures (forall i :: 0 <= i < |source| ==> source[i].key in RunMany(unique, source, Fresh(), table, k).1)
            <==> CutFree(source)
  {
    TableIsCollected(unique, source, table, k);
    AllCollectedIffCutFree(source);
    var after := AddStored(unique, table, Collected(source));
    if CutFree(source) {
      AddsEveryKey(unique, table, source);
    } else if forall i :: 0 <= i < |source| ==> source[i].key in after {
      forall key: Key ensures (table + KeysOf(source))[key] <= after[key] {
        NovelOnce(table, source, key);
        InTableIff(unique, table, Collected(source), key);
      }
      AtMost(table + KeysOf(source), after);
      CollectedRows(unique, table, source);
    }
  }

  lemma AtMost(a: multiset<Key>, b: multiset<Key>)
    requires forall key: Key :: a[key] <= b[key]
    ensures |a| <= |b|
  {
    assert b == a + (b - a);
  }

  // ---------------------------------------------------------------- The job

  class ContractEventIndexer {
    var state: Option<Row>      // the row of contract_event_indexer_state
    const unique: bool          // whether contract_events has a unique key
    var stored: multiset<Key>   // contract_events

    ghost predicate Valid()
      reads this
    {
      Contiguous(Current())
    }

    function Current(): Row
      reads this
    {
      if state.Some? then state.value else Fresh()
    }

    constructor (unique: bool)
      ensures Valid() && Current() == Fresh() && stored == multiset{} && this.unique == unique
    {
      this.unique := unique;
      state, stored := None, multiset{};
    }

    /** SELECT, or else INSERT ... ON CONFLICT DO NOTHING */
    method GetIndexerState() returns (row: Row)
      modifies this`state
      ensures row == old(Current()) == Current() && state == Some(row)
    {
      if state.None? {
        state := Some(Row(0, []));
      }
      row := state.value;
    }

    method LowestGap(gaps: seq<nat>) returns (low: nat)
      requires gaps != []
      ensures low == Lowest(gaps)
    {
      low := gaps[|gaps| - 1];
      var i := |gaps| - 1;
      assert gaps[i..] == [low];
      while i > 0
        invariant 0 <= i < |gaps| && low == Lowest(gaps[i..])
      {
        i := i - 1;
        assert gaps[i..][1..] == gaps[i + 1..];
        low := Min(gaps[i], low);
      }
      assert gaps[0..] == gaps;
    }

    /** The service answers a batch of the events from a ledger on; an error reads as an empty answer. */
    method FetchContractEvents(available: seq<Event>, startLedger: nat, answers: bool) returns (events: seq<Event>)
      ensures events == if answers then Batch(FromLedger(available, startLedger)) else []
    {
      events := [];
      if answers {
        for i := 0 to |available|
          invariant events == Batch(FromLedger(available[..i], startLedger))
        {
          assert available[..i + 1][..i] == available[..i];
          if |events| < BATCH_SIZE && (available[i].Unreadable? || available[i].ledger >= startLedger) {
            events := events + [available[i]];
          }
        }
        assert available[..|available|] == available;
      }
    }

    /** Pushes the ledgers between the highest stored one and this one that are not listed yet. */
    method NoteGaps(gaps: seq<nat>, maxLedger: nat, ledger: nat) returns (newGaps: seq<nat>)
      requires gaps == Ledgers(maxLedger + 1, maxLedger + |gaps|)
      ensures newGaps == Ledgers(maxLedger + 1, Max(maxLedger + |gaps|, ledger - 1))
    {
      newGaps := gaps;
      if ledger > maxLedger + 1 {
        for i := maxLedger + 1 to ledger
          invariant newGaps == Ledgers(maxLedger + 1, Max(maxLedger + |gaps|, i - 1))
        {
          forall j: nat | maxLedger < j <= maxLedger + |newGaps| ensures j in newGaps {
            assert newGaps[j - maxLedger - 1] == j;
          }
          if i !in newGaps {
            newGaps := newGaps + [i];
          }
        }
      }
    }

    /** newGaps.filter(g => g > maxLedger) */
    method DropFilled(gaps: seq<nat>, ghost from: nat, maxLedger: nat) returns (kept: seq<nat>)
      requires gaps == Ledgers(from, from + |gaps| - 1) && from <= maxLedger + 1
      ensures kept == Ledgers(maxLedger + 1, from + |gaps| - 1)
    {
      kept := [];
      for i := 0 to |gaps|
        invariant kept == Ledgers(maxLedger + 1, from + i - 1)
      {
        if gaps[i] > maxLedger {
          kept := kept + [gaps[i]];
        }
      }
    }

    /** The body of the event loop; an insert that throws leaves only its gaps behind. */
    method IndexEvent(e: Event, gaps: seq<nat>, maxLedger: nat) returns (newGaps: seq<nat>, newMax: nat, ok: bool)
      requires gaps == Ledgers(maxLedger + 1, maxLedger + |gaps|)
      modifies this`stored
      ensures ok == Stored(e) && newMax == (if ok then Max(maxLedger, e.ledger) else maxLedger)
      ensures newGaps == Ledgers(newMax + 1, if e.Event? then Max(maxLedger + |gaps|, e.ledger - 1) else maxLedger + |gaps|)
      ensures stored == if ok then InsertKey(unique, old(stored), e.key) else old(stored)
    {
      newGaps, newMax, ok := gaps, maxLedger, false;
      if e.Event? {
        newGaps := NoteGaps(gaps, maxLedger, e.ledger);
        if !e.fails {
          stored := InsertKey(unique, stored, e.key);
          newMax := Max(maxLedger, e.ledger);
          newGaps := DropFilled(newGaps, maxLedger + 1, newMax);
          ok := true;
        }
      }
    }

    /** What the events so far have made of the highest ledger, the gaps, the table and the count. */
    ghost predicate Upto(row: Row, table: multiset<Key>, done: seq<Event>, maxLedger: nat, newGaps: seq<nat>, indexed: nat)
      reads this`stored
    {
      && maxLedger == HighestStored(row.last, done)
      && newGaps == Ledgers(maxLedger + 1, HighestSkipped(row.last + |row.gaps|, done))
      && stored == AddStored(unique, table, done) && indexed == StoredCount(done)
    }

    /** Where gaps end below the highest stored ledger there are none; the next event extends them all the same. */
    lemma NextGaps(maxLedger: nat, end: int, newMax: nat, e: Event)
      requires newMax >= maxLedger
      ensures var gaps := Ledgers(maxLedger + 1, end);
              Ledgers(newMax + 1, if e.Event? then Max(maxLedger + |gaps|, e.ledger - 1) else maxLedger + |gaps|)
              == Ledgers(newMax + 1, if e.Event? then Max(end, e.ledger - 1) else end)
              && gaps == Ledgers(maxLedger + 1, maxLedger + |gaps|)
    {
    }

    lemma NextEvent(row: Row, table: multiset<Key>, done: seq<Event>, e: Event)
      ensures var low, end := HighestStored(row.last, done), HighestSkipped(row.last + |row.gaps|, done);
              && HighestStored(row.last, done + [e]) == (if Stored(e) then Max(low, e.ledger) else low)
              && HighestSkipped(row.last + |row.gaps|, done + [e]) == (if e.Event? then Max(end, e.ledger - 1) else end)
      ensures var before := AddStored(unique, table, done);
              AddStored(unique, table, done + [e]) == if Stored(e) then InsertKey(unique, before, e.key) else before
      ensures StoredCount(done + [e]) == StoredCount(done) + (if Stored(e) then 1 else 0)
    {
      assert (done + [e])[..|done|] == done;
    }

    /** One turn of the event loop. */
    method IndexNext(ghost row: Row, ghost table: multiset<Key>, ghost done: seq<Event>, e: Event,
                     maxLedger: nat, gaps: seq<nat>, indexed: nat, errors: nat)
      returns (newMax: nat, newGaps: seq<nat>, newIndexed: nat, newErrors: nat)
      requires Upto(row, table, done, maxLedger, gaps, indexed)
      modifies this`stored
      ensures Upto(row, table, done + [e], newMax, newGaps, newIndexed)
      ensures newIndexed + newErrors == indexed + errors + 1
    {
      NextEvent(row, table, done, e);
      NextGaps(maxLedger, HighestSkipped(row.last + |row.gaps|, done), if Stored(e) then Max(maxLedger, e.ledger) else maxLedger, e);
      var ok;
      newGaps, newMax, ok := IndexEvent(e, gaps, maxLedger);
      newIndexed, newErrors := if ok then indexed + 1 else indexed, if ok then errors else errors + 1;
    }

    /** The event loop. */
    method IndexEvents(row: Row, fetched: seq<Event>)
      returns (maxLedger: nat, newGaps: seq<nat>, indexed: nat, errors: nat)
      requires Contiguous(row)
      modifies this`stored
      ensures maxLedger == HighestStored(row.last, fetched)
      ensures newGaps == Ledgers(maxLedger + 1, HighestSkipped(row.last + |row.gaps|, fetched))
      ensures stored == AddStored(unique, old(stored), fetched)
      ensures indexed == StoredCount(fetched) && indexed + errors == |fetched|
    {
      maxLedger, newGaps, indexed, errors := row.last, row.gaps, 0, 0;
      for i := 0 to |fetched|
        invariant Upto(row, old(stored), fetched[..i], maxLedger, newGaps, indexed) && indexed + errors == i
      {
        assert fetched[..i + 1] == fetched[..i] + [fetched[i]];
        maxLedger, newGaps, indexed, errors :=
          IndexNext(row, old(stored), fetched[..i], fetched[i], maxLedger, newGaps, indexed, errors);
      }
      assert fetched[..|fetched|] == fetched;
    }

    /** The events of a run that got some, and the update of the state row, which may throw. */
    method IndexFetched(row: Row, fetched: seq<Event>, updates: bool) returns (indexed: nat, errors: nat, filled: int)
      requires state == Some(row) && Contiguous(row) && fetched != []
      modifies this
      ensures state == Some(if updates then Index(row, fetched) else row)
      ensures stored == AddStored(unique, old(stored), fetched) && indexed == StoredCount(fetched) && indexed + errors == |fetched|
    {
      var maxLedger, newGaps;
      maxLedger, newGaps, indexed, errors := IndexEvents(row, fetched);
      filled := |row.gaps| - |newGaps|;
      if updates {
        state := Some(Row(maxLedger, newGaps[..Min(|newGaps|, MAX_LEDGER_GAP)]));
      }
    }

    /** The state row, and the ledger that a run starts from. */
    method StartOfRun() returns (row: Row, startLedger: nat)
      requires Valid()
      modifies this`state
      ensures Valid() && row == old(Current()) == Current() && state == Some(row) && startLedger == row.last + 1
    {
      row := GetIndexerState();
      startLedger := row.last + 1;
      if |row.gaps| > 0 {
        startLedger := LowestGap(row.gaps);
      }
      RecoveryChangesNothing(row);
    }

    /** A run; when the update of the state row throws the events are stored and the row is as it was. */
    method IndexContractEvents(available: seq<Event>, answers: bool, updates: bool)
      returns (ghost events: seq<Event>, indexed: nat, errors: nat, filled: int, failed: bool)
      requires Valid()
      modifies this
      ensures Valid() && Current() == if updates then Index(old(Current()), events) else old(Current())
      ensures stored == AddStored(unique, old(stored), events) && indexed == StoredCount(events) && indexed + errors == |events|
      ensures events == if answers then Batch(FromLedger(available, old(Current()).last + 1)) else []
      ensures failed <==> events != [] && !updates
    {
      var row, startLedger := StartOfRun();
      var fetched := FetchContractEvents(available, startLedger, answers);
      events := fetched;
      if |fetched| == 0 {
        return events, 0, 0, 0, false;
      }
      indexed, errors, filled := IndexFetched(row, fetched, updates);
      RunAdvances(row, fetched);
      failed := !updates;
    }
  }
}
