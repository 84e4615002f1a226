/**
 Scheduled fee configurations (`jobs/activateScheduledFeeConfigs.js`): one run at a fixed clock
 looks up the newest effective row of every key that has a due row, then flips the `is_active`
 flags in one transaction.
 */
module FeeActivation {
  import opened Wrappers

  type Id = nat

  datatype FeeRow = FeeRow(feeType: string, asset: string, effectiveFrom: int, createdAt: int, active: bool)

  type Table = map<Id, FeeRow>

  datatype Pair = Pair(feeType: string, asset: string)

  /** An entry of `toActivate`. */
  datatype Item = Item(id: Id, pair: Pair)

  /** Where the database, or a step after the transaction, throws. */
  datatype Trouble = Nowhere | InQuery | InTransaction(at: nat) | AfterCommit

  datatype Outcome = NothingDue | Committed | Failed

  function PairOf(r: FeeRow): Pair {
    Pair(r.feeType, r.asset)
  }

  /** The string that the run remembers a key by. */
  function Key(p: Pair): string {
    p.feeType + "|" + p.asset
  }

  predicate Due(r: FeeRow, now: int) {
    !r.active && r.effectiveFrom <= now
  }

  predicate Effective(r: FeeRow, p: Pair, now: int) {
    PairOf(r) == p && r.effectiveFrom <= now
  }

  /** The temporal lookup: no effective row of the key is newer. */
  predicate IsLatest(rows: Table, id: Id, p: Pair, now: int) {
    && id in rows && Effective(rows[id], p, now)
    && forall k :: k in rows && Effective(rows[k], p, now) ==> rows[k].effectiveFrom <= rows[id].effectiveFrom
  }

  predicate HasDue(rows: Table, p: Pair, now: int) {
    exists id :: id in rows && PairOf(rows[id]) == p && Due(rows[id], now)
  }

  // ---------------------------------------------------------------- Keys

  lemma BarSplits(a: string, b: string, c: string, d: string)
    requires '|' !in a && '|' !in c && a + "|" + b == c + "|" + d
    ensures a == c && b == d
  {
    var s, t := a + "|" + b, c + "|" + d;
    assert s[|a|] == '|' && t[|c|] == '|';
    assert forall i :: 0 <= i < |a| ==> s[i] == a[i] != '|';
    assert forall i :: 0 <= i < |c| ==> t[i] == c[i] != '|';
    assert |a| == |c|;
    assert s[..|a|] == a && t[..|c|] == c;
    assert s[|a| + 1..] == b && t[|c| + 1..] == d;
  }

  /** Without a bar in their fee types two pairs share a key only if they are the same pair. */
  lemma KeyIsInjective(p: Pair, q: Pair)
    requires '|' !in p.feeType && '|' !in q.feeType && Key(p) == Key(q)
    ensures p == q
  {
    BarSplits(p.feeType, p.asset, q.feeType, q.asset);
  }

  /** In general two pairs share a key exactly if they are equal or one carries over into its asset what the other has in its type. */
  lemma KeysAgreeIff(p: Pair, q: Pair)
    requires |q.feeType| <= |p.feeType|
    ensures Key(p) == Key(q) <==> p == q || exists x :: p.feeType == q.feeType + "|" + x && q.asset == x + "|" + p.asset
  {
    var n := |q.feeType|;
    if Key(p) == Key(q) && p != q {
      var s := Key(p);
      assert s[..n] == q.feeType && s[n] == '|' && s[n + 1..] == q.asset;
      assert s[..n] == p.feeType[..n];
      assert s[|p.feeType| + 1..] == p.asset;
      assert |p.feeType| == n ==> p.feeType == q.feeType;
      var x := p.feeType[n + 1..];
      assert s[n] == p.feeType[n];
      assert p.feeType == q.feeType + "|" + x;
      assert s[n + 1..] == x + "|" + p.asset;
    }
    if x :| p.feeType == q.feeType + "|" + x && q.asset == x + "|" + p.asset {
      assert Key(p) == q.feeType + "|" + x + "|" + p.asset == Key(q);
    }
  }

  predicate NoBars(rows: Table) {
    forall id :: id in rows ==> '|' !in rows[id].feeType
  }

  // ---------------------------------------------------------------- The plan

  /** The row `ids[i]` is the first of the due rows with its key. */
  predicate IsFirst(rows: Table, ids: seq<Id>, i: int)
    requires forall k :: 0 <= k < |ids| ==> ids[k] in rows
  {
    0 <= i < |ids| && forall k :: 0 <= k < i ==> Key(PairOf(rows[ids[k]])) != Key(PairOf(rows[ids[i]]))
  }

  ghost predicate Served(rows: Table, ids: seq<Id>, p: Pair)
    requires forall k :: 0 <= k < |ids| ==> ids[k] in rows
  {
    exists i :: IsFirst(rows, ids, i) && PairOf(rows[ids[i]]) == p
  }

  /** What the first loop collects from the due rows `ids`: for each key the newest row of the first pair that has it. */
  ghost predicate Plans(rows: Table, ids: seq<Id>, items: seq<Item>, now: int) {
    && (forall i :: 0 <= i < |ids| ==> ids[i] in rows)
    && (forall a :: 0 <= a < |items| ==> IsLatest(rows, items[a].id, items[a].pair, now) && Served(rows, ids, items[a].pair))
    && DistinctKeys(items)
    && AllCovered(rows, ids, items)
  }

  predicate DistinctKeys(items: seq<Item>) {
    forall a, b :: 0 <= a < b < |items| ==> Key(items[a].pair) != Key(items[b].pair)
  }

  ghost predicate AllCovered(rows: Table, ids: seq<Id>, items: seq<Item>)
    requires forall i :: 0 <= i < |ids| ==> ids[i] in rows
  {
    forall i :: 0 <= i < |ids| ==> Covered(items, Key(PairOf(rows[ids[i]])))
  }

  lemma ServedGrows(rows: Table, ids: seq<Id>, id: Id, p: Pair)
    requires (forall k :: 0 <= k < |ids| ==> ids[k] in rows) && id in rows
    requires Served(rows, ids, p) || (PairOf(rows[id]) == p && forall k :: 0 <= k < |ids| ==> Key(PairOf(rows[ids[k]])) != Key(p))
    ensures Served(rows, ids + [id], p)
  {
    if Served(rows, ids, p) {
      var i :| IsFirst(rows, ids, i) && PairOf(rows[ids[i]]) == p;
      assert IsFirst(rows, ids + [id], i);
    } else {
      assert IsFirst(rows, ids + [id], |ids|);
    }
  }

  lemma {:induction false} FirstExists(rows: Table, ids: seq<Id>, j: nat) returns (i: nat)
    requires (forall k :: 0 <= k < |ids| ==> ids[k] in rows) && j < |ids|
    ensures IsFirst(rows, ids, i) && Key(PairOf(rows[ids[i]])) == Key(PairOf(rows[ids[j]]))
    decreases j
  {
    if IsFirst(rows, ids, j) {
      i := j;
    } else {
      var k :| 0 <= k < j && Key(PairOf(rows[ids[k]])) == Key(PairOf(rows[ids[j]]));
      i := FirstExists(rows, ids, k);
    }
  }

  ghost predicate Covered(items: seq<Item>, key: string) {
    exists a :: 0 <= a < |items| && Key(items[a].pair) == key
  }

  /** The two updates for one item. */
  function Flip(rows: Table, item: Item): Table {
    map id | id in rows ::
      if id == item.id then rows[id].(active := true)
      else if PairOf(rows[id]) == item.pair then rows[id].(active := false)
      else rows[id]
  }

  function FlipAll(rows: Table, items: seq<Item>): Table {
    if items == [] then rows else Flip(FlipAll(rows, items[..|items| - 1]), items[|items| - 1])
  }

  /** Only flags differ between the two tables. */
  predicate SameButFlags(rows: Table, after: Table) {
    rows.Keys == after.Keys && forall id :: id in rows ==> after[id] == rows[id].(active := after[id].active)
  }

  predicate DistinctPairs(rows: Table, items: seq<Item>) {
    && (forall a :: 0 <= a < |items| ==> items[a].id in rows && PairOf(rows[items[a].id]) == items[a].pair)
    && (forall a, b :: 0 <= a < b < |items| ==> items[a].pair != items[b].pair)
  }

  predicate Mentions(items: seq<Item>, p: Pair) {
    exists a :: 0 <= a < |items| && items[a].pair == p
  }

  /** What the flips do to one row: flips of other keys do not disturb it. */
  lemma {:induction false} FlipAllAt(rows: Table, items: seq<Item>, id: Id)
    requires DistinctPairs(rows, items) && id in rows
    ensures FlipAll(rows, items).Keys == rows.Keys
    ensures FlipAll(rows, items)[id] == rows[id].(active := FlipAll(rows, items)[id].active)
    ensures forall a :: 0 <= a < |items| && items[a].pair == PairOf(rows[id]) ==>
              (FlipAll(rows, items)[id].active <==> id == items[a].id)
    ensures !Mentions(items, PairOf(rows[id])) ==> FlipAll(rows, items)[id] == rows[id]
  {
    if items != [] {
      var rest, last := items[..|items| - 1], items[|items| - 1];
      FlipAllAt(rows, rest, id);
      assert last.pair == PairOf(rows[id]) ==> Mentions(items, PairOf(rows[id]));
      assert Mentions(rest, PairOf(rows[id])) ==> Mentions(items, PairOf(rows[id])) by {
        assert forall a :: 0 <= a < |rest| ==> rest[a] == items[a];
      }
      forall a | 0 <= a < |items| && items[a].pair == PairOf(rows[id])
        ensures FlipAll(rows, items)[id].active <==> id == items[a].id
      {
        assert a < |rest| ==> rest[a] == items[a];
      }
    }
  }

  /** The flips of different keys do not disturb one another. */
  lemma FlipAllMeans(rows: Table, items: seq<Item>)
    requires DistinctPairs(rows, items)
    ensures SameButFlags(rows, FlipAll(rows, items))
    ensures forall a, id :: 0 <= a < |items| && id in rows && PairOf(rows[id]) == items[a].pair ==>
              (FlipAll(rows, items)[id].active <==> id == items[a].id)
    ensures forall id :: id in rows && !Mentions(items, PairOf(rows[id])) ==> FlipAll(rows, items)[id] == rows[id]
  {
    FlipKeys(rows, items);
    forall id | id in rows
      ensures FlipAll(rows, items)[id] == rows[id].(active := FlipAll(rows, items)[id].active)
      ensures forall a :: 0 <= a < |items| && PairOf(rows[id]) == items[a].pair ==>
                (FlipAll(rows, items)[id].active <==> id == items[a].id)
      ensures !Mentions(items, PairOf(rows[id])) ==> FlipAll(rows, items)[id] == rows[id]
    {
      FlipAllAt(rows, items, id);
    }
  }

  lemma {:induction false} FlipKeys(rows: Table, items: seq<Item>)
    ensures FlipAll(rows, items).Keys == rows.Keys
  {
    if items != [] {
      FlipKeys(rows, items[..|items| - 1]);
    }
  }

  // ---------------------------------------------------------------- What a run means

  predicate OnlyActive(after: Table, w: Id) {
    w in after && forall k :: k in after && PairOf(after[k]) == PairOf(after[w]) ==> (after[k].active <==> k == w)
  }

  /** Every key with a due row ends with its newest effective row active and no other; the rest is untouched. */
  ghost predicate Activates(rows: Table, after: Table, now: int) {
    && SameButFlags(rows, after)
    && (forall id :: id in rows && Due(rows[id], now) ==>
          exists w :: IsLatest(rows, w, PairOf(rows[id]), now) && OnlyActive(after, w))
    && (forall id :: id in rows && !HasDue(rows, PairOf(rows[id]), now) ==> after[id] == rows[id])
  }

  predicate SameKind(a: FeeRow, b: FeeRow) {
    a.feeType == b.feeType && a.asset == b.asset
  }

  /** `w` is a row of the same type and asset as `r`, in effect at `now`, and none in effect is newer. */
  predicate NewestInEffect(rows: Table, w: Id, r: FeeRow, now: int) {
    && w in rows && SameKind(rows[w], r) && rows[w].effectiveFrom <= now
    && forall k :: k in rows && SameKind(rows[k], r) && rows[k].effectiveFrom <= now ==>
         rows[k].effectiveFrom <= rows[w].effectiveFrom
  }

  predicate OtherFieldsKept(rows: Table, after: Table) {
    && after.Keys == rows.Keys
    && forall id :: id in rows ==>
         && after[id].feeType == rows[id].feeType && after[id].asset == rows[id].asset
         && after[id].effectiveFrom == rows[id].effectiveFrom && after[id].createdAt == rows[id].createdAt
  }

  /** Some row of its type and asset is inactive although in effect. */
  predicate Waiting(rows: Table, r: FeeRow, now: int) {
    exists k :: k in rows && SameKind(rows[k], r) && !rows[k].active && rows[k].effectiveFrom <= now
  }

  lemma LatestIsNewest(rows: Table, w: Id, r: FeeRow, now: int)
    ensures IsLatest(rows, w, PairOf(r), now) <==> NewestInEffect(rows, w, r, now)
  {
  }

  lemma DueIsWaiting(rows: Table, r: FeeRow, now: int)
    ensures HasDue(rows, PairOf(r), now) <==> Waiting(rows, r, now)
  {
    if k :| k in rows && SameKind(rows[k], r) && !rows[k].active && rows[k].effectiveFrom <= now {
      assert PairOf(rows[k]) == PairOf(r) && Due(rows[k], now);
    }
  }

  /** The rows of one type and asset that wait end with the newest one in effect active, and no other of them. */
  ghost predicate WaitingServed(rows: Table, after: Table, now: int)
    requires after.Keys == rows.Keys
  {
    forall id :: id in rows && Waiting(rows, rows[id], now) ==>
      exists w :: NewestInEffect(rows, w, rows[id], now)
                  && forall k :: k in rows && SameKind(rows[k], rows[id]) ==> (after[k].active <==> k == w)
  }

  /** What a run does, in terms of the rows alone. */
  lemma ActivatesMeans(rows: Table, after: Table, now: int)
    ensures Activates(rows, after, now) <==>
            && OtherFieldsKept(rows, after)
            && WaitingServed(rows, after, now)
            && forall id :: id in rows && !Waiting(rows, rows[id], now) ==> after[id] == rows[id]
  {
    forall id | id in rows ensures HasDue(rows, PairOf(rows[id]), now) <==> Waiting(rows, rows[id], now) {
      DueIsWaiting(rows, rows[id], now);
    }
    if Activates(rows, after, now) { ServesWaiting(rows, after, now); }
    if OtherFieldsKept(rows, after) && WaitingServed(rows, after, now) { WaitingIsServed(rows, after, now); }
  }

  lemma ServesWaiting(rows: Table, after: Table, now: int)
    requires Activates(rows, after, now)
    ensures OtherFieldsKept(rows, after) && WaitingServed(rows, after, now)
  {
    forall id | id in rows && Waiting(rows, rows[id], now)
      ensures exists w :: NewestInEffect(rows, w, rows[id], now)
                          && forall k :: k in rows && SameKind(rows[k], rows[id]) ==> (after[k].active <==> k == w)
    {
      var d :| d in rows && SameKind(rows[d], rows[id]) && !rows[d].active && rows[d].effectiveFrom <= now;
      assert PairOf(rows[d]) == PairOf(rows[id]) && Due(rows[d], now);
      var w :| IsLatest(rows, w, PairOf(rows[d]), now) && OnlyActive(after, w);
      LatestIsNewest(rows, w, rows[id], now);
    }
  }

  lemma WaitingIsServed(rows: Table, after: Table, now: int)
    requires OtherFieldsKept(rows, after) && WaitingServed(rows, after, now)
    ensures SameButFlags(rows, after)
    ensures forall id :: id in rows && Due(rows[id], now) ==>
              exists w :: IsLatest(rows, w, PairOf(rows[id]), now) && OnlyActive(after, w)
  {
    forall id | id in rows && Due(rows[id], now)
      ensures exists w :: IsLatest(rows, w, PairOf(rows[id]), now) && OnlyActive(after, w)
    {
      assert Waiting(rows, rows[id], now);
      var w :| NewestInEffect(rows, w, rows[id], now)
               && forall k :: k in rows && SameKind(rows[k], rows[id]) ==> (after[k].active <==> k == w);
      LatestIsNewest(rows, w, rows[id], now);
    }
  }

  /** The same for the pairs that are first with their key; any other row is untouched, due or not. */
  ghost predicate Serves(rows: Table, after: Table, ids: seq<Id>, now: int)
    requires forall k :: 0 <= k < |ids| ==> ids[k] in rows
  {
    && SameButFlags(rows, after)
    && (forall i :: IsFirst(rows, ids, i) ==>
          exists w :: IsLatest(rows, w, PairOf(rows[ids[i]]), now) && OnlyActive(after, w))
    && (forall id :: id in rows && !Served(rows, ids, PairOf(rows[id])) ==> after[id] == rows[id])
  }

  lemma FirstIsPlanned(rows: Table, ids: seq<Id>, items: seq<Item>, now: int, i: int) returns (a: nat)
    requires Plans(rows, ids, items, now) && IsFirst(rows, ids, i)
    ensures a < |items| && items[a].pair == PairOf(rows[ids[i]])
  {
    assert Covered(items, Key(PairOf(rows[ids[i]])));
    a :| 0 <= a < |items| && Key(items[a].pair) == Key(PairOf(rows[ids[i]]));
    var j :| IsFirst(rows, ids, j) && PairOf(rows[ids[j]]) == items[a].pair;
  }

  lemma PlannedIsServed(rows: Table, ids: seq<Id>, items: seq<Item>, now: int, p: Pair)
    requires Plans(rows, ids, items, now) && Mentions(items, p)
    ensures Served(rows, ids, p)
  {
  }

  /** Flipping what the first loop collected serves the first pair of every key. */
  lemma PlanServes(rows: Table, ids: seq<Id>, items: seq<Item>, now: int)
    requires Plans(rows, ids, items, now)
    ensures Serves(rows, FlipAll(rows, items), ids, now)
  {
    assert DistinctPairs(rows, items);
    FlipAllMeans(rows, items);
    var after := FlipAll(rows, items);
    forall i | IsFirst(rows, ids, i)
      ensures exists w :: IsLatest(rows, w, PairOf(rows[ids[i]]), now) && OnlyActive(after, w)
    {
      var a := FirstIsPlanned(rows, ids, items, now, i);
      assert OnlyActive(after, items[a].id);
    }
    forall id | id in rows && !Served(rows, ids, PairOf(rows[id])) ensures after[id] == rows[id] {
      if Mentions(items, PairOf(rows[id])) { PlannedIsServed(rows, ids, items, now, PairOf(rows[id])); }
    }
  }

  /** The rows that `ids` lists are the due ones, the oldest first. */
  predicate ListsDue(rows: Table, ids: seq<Id>, now: int) {
    && (forall k :: 0 <= k < |ids| ==> ids[k] in rows && Due(rows[ids[k]], now))
    && (forall i, j :: 0 <= i < j < |ids| ==> rows[ids[i]].createdAt <= rows[ids[j]].createdAt)
    && forall id :: id in rows && Due(rows[id], now) ==> id in ids
  }

  /** Pairs with something due are told apart by their keys. */
  ghost predicate KeysTellApart(rows: Table, now: int) {
    forall p, q :: HasDue(rows, p, now) && HasDue(rows, q, now) && Key(p) == Key(q) ==> p == q
  }

  /** A run passes over no pair with something due exactly if their keys tell them apart. */
  lemma AllServedIff(rows: Table, ids: seq<Id>, now: int)
    requires ListsDue(rows, ids, now)
    ensures (forall p :: HasDue(rows, p, now) ==> Served(rows, ids, p)) <==> KeysTellApart(rows, now)
  {
    if KeysTellApart(rows, now) {
      forall p | HasDue(rows, p, now) ensures Served(rows, ids, p) {
        var id :| id in rows && PairOf(rows[id]) == p && Due(rows[id], now);
        var j :| 0 <= j < |ids| && ids[j] == id;
        var i := FirstExists(rows, ids, j);
        assert HasDue(rows, PairOf(rows[ids[i]]), now);
      }
    }
    if forall p :: HasDue(rows, p, now) ==> Served(rows, ids, p) {
      forall p, q | HasDue(rows, p, now) && HasDue(rows, q, now) && Key(p) == Key(q) ensures p == q {
        var i :| IsFirst(rows, ids, i) && PairOf(rows[ids[i]]) == p;
        var j :| IsFirst(rows, ids, j) && PairOf(rows[ids[j]]) == q;
      }
    }
  }

  lemma ServedHasDue(rows: Table, ids: seq<Id>, p: Pair, now: int)
    requires ListsDue(rows, ids, now) && Served(rows, ids, p)
    ensures HasDue(rows, p, now)
  {
    var i :| IsFirst(rows, ids, i) && PairOf(rows[ids[i]]) == p;
    assert ids[i] in rows && Due(rows[ids[i]], now);
  }

  lemma ServesActivates(rows: Table, after: Table, ids: seq<Id>, now: int)
    requires ListsDue(rows, ids, now) && KeysTellApart(rows, now) && Serves(rows, after, ids, now)
    ensures Activates(rows, after, now)
  {
    AllServedIff(rows, ids, now);
    forall id | id in rows && Due(rows[id], now)
      ensures exists w :: IsLatest(rows, w, PairOf(rows[id]), now) && OnlyActive(after, w)
    {
      assert HasDue(rows, PairOf(rows[id]), now);
      var i :| IsFirst(rows, ids, i) && PairOf(rows[ids[i]]) == PairOf(rows[id]);
      var w :| IsLatest(rows, w, PairOf(rows[ids[i]]), now) && OnlyActive(after, w);
    }
    forall id | id in rows && !HasDue(rows, PairOf(rows[id]), now) ensures after[id] == rows[id] {
      if Served(rows, ids, PairOf(rows[id])) { ServedHasDue(rows, ids, PairOf(rows[id]), now); }
    }
  }

  lemma NoBarsTellApart(rows: Table, now: int)
    requires NoBars(rows)
    ensures KeysTellApart(rows, now)
  {
    forall p, q | HasDue(rows, p, now) && HasDue(rows, q, now) && Key(p) == Key(q) ensures p == q {
      KeyIsInjective(p, q);
    }
  }

  predicate AtMostOneActive(rows: Table) {
    forall j, k :: j in rows && k in rows && PairOf(rows[j]) == PairOf(rows[k]) && rows[j].active && rows[k].active ==> j == k
  }

  lemma LatestIgnoresFlags(rows: Table, after: Table, w: Id, p: Pair, now: int)
    requires SameButFlags(rows, after) && IsLatest(rows, w, p, now)
    ensures IsLatest(after, w, p, now)
  {
    forall k | k in after && Effective(after[k], p, now) ensures after[k].effectiveFrom <= after[w].effectiveFrom {
      assert Effective(rows[k], p, now);
    }
  }

  /** A key that had something due: its newest effective row is the active one. */
  lemma DueKeyIsSettled(rows: Table, after: Table, p: Pair, now: int) returns (w: Id)
    requires Activates(rows, after, now) && HasDue(rows, p, now)
    ensures IsLatest(rows, w, p, now) && IsLatest(after, w, p, now) && OnlyActive(after, w)
  {
    var d :| d in rows && PairOf(rows[d]) == p && Due(rows[d], now);
    w :| IsLatest(rows, w, PairOf(rows[d]), now) && OnlyActive(after, w);
    LatestIgnoresFlags(rows, after, w, p, now);
  }

  /** After a run `is_active` answers the temporal lookup for every key, also for keys that nothing was due for. */
  lemma LookupIsTemporal(rows: Table, after: Table, now: int, id: Id)
    requires Activates(rows, after, now) && AtMostOneActive(rows)
    requires id in rows && rows[id].effectiveFrom <= now
    ensures after[id].active ==> IsLatest(after, id, PairOf(rows[id]), now)
    ensures exists w :: IsLatest(after, w, PairOf(rows[id]), now) && after[w].active
  {
    var p := PairOf(rows[id]);
    if HasDue(rows, p, now) {
      var w := DueKeyIsSettled(rows, after, p, now);
      assert PairOf(after[id]) == PairOf(after[w]);
    } else {
      LatestIgnoresFlags(rows, after, id, p, now);
    }
  }

  /** Every key with something due has only one newest effective row. */
  ghost predicate UniqueNewest(rows: Table, now: int) {
    forall p, v, w :: HasDue(rows, p, now) && IsLatest(rows, v, p, now) && IsLatest(rows, w, p, now) ==> v == w
  }

  /** The run's outcome is then the only one, and a second run at the same clock changes nothing. */
  lemma UniqueNewestIsStable(rows: Table, after: Table, again: Table, now: int)
    requires UniqueNewest(rows, now) && Activates(rows, after, now) && Activates(after, again, now)
    ensures again == after
  {
    forall id | id in after ensures again[id] == after[id] {
      SecondRunAt(rows, after, again, now, id);
    }
  }

  lemma SecondRunAt(rows: Table, after: Table, again: Table, now: int, id: Id)
    requires UniqueNewest(rows, now) && Activates(rows, after, now) && Activates(after, again, now) && id in after
    ensures id in again && again[id] == after[id]
  {
    var p := PairOf(after[id]);
    if HasDue(after, p, now) {
      var w := DueKeyIsSettled(rows, after, p, now);
      var v := DueKeyIsSettled(after, again, p, now);
      LatestIgnoresFlags(after, rows, v, p, now);
      assert v == w;
      assert PairOf(again[id]) == PairOf(again[w]) == p;
    }
  }

  /** The table with `v` as the only active row of its key. */
  function Switch(rows: Table, v: Id): Table
    requires v in rows
  {
    map id | id in rows :: if PairOf(rows[id]) == PairOf(rows[v]) then rows[id].(active := id == v) else rows[id]
  }

  lemma SwitchMeans(rows: Table, v: Id, w: Id)
    requires v in rows && w in rows
    ensures SameButFlags(rows, Switch(rows, v)) && OnlyActive(Switch(rows, v), v)
    ensures PairOf(rows[w]) != PairOf(rows[v]) && OnlyActive(rows, w) ==> OnlyActive(Switch(rows, v), w)
  {
  }

  /** A key that had something due can be settled in a second run: its own key on `v`, any other as it was. */
  lemma SwitchSettles(rows: Table, after: Table, v: Id, q: Pair, now: int)
    requires Activates(rows, after, now) && HasDue(after, q, now) && v in after && IsLatest(after, v, PairOf(after[v]), now)
    ensures exists w :: IsLatest(after, w, q, now) && OnlyActive(Switch(after, v), w)
  {
    if q == PairOf(after[v]) {
      SwitchMeans(after, v, v);
    } else {
      var w := DueKeyIsSettled(rows, after, q, now);
      SwitchMeans(after, v, w);
    }
  }

  /** A second run may settle on any other newest row of a key that had something due. */
  lemma OtherNewestIsAllowed(rows: Table, after: Table, v: Id, p: Pair, now: int)
    requires Activates(rows, after, now) && HasDue(rows, p, now) && IsLatest(rows, v, p, now) && !after[v].active
    ensures Activates(after, Switch(after, v), now) && Switch(after, v) != after
  {
    var again := Switch(after, v);
    LatestIgnoresFlags(rows, after, v, p, now);
    SwitchMeans(after, v, v);
    assert again[v].active && Due(after[v], now);
    forall id | id in after && Due(after[id], now)
      ensures exists w :: IsLatest(after, w, PairOf(after[id]), now) && OnlyActive(again, w)
    {
      assert HasDue(after, PairOf(after[id]), now);
      SwitchSettles(rows, after, v, PairOf(after[id]), now);
    }
    forall id | id in after && !HasDue(after, PairOf(after[id]), now) ensures again[id] == after[id] {
      assert PairOf(after[id]) != PairOf(after[v]);
    }
  }

  /** A second run at the same clock is sure to change nothing exactly if every key with something due has one newest effective row. */
  lemma SecondRunChangesNothingIff(rows: Table, after: Table, now: int)
    requires Activates(rows, after, now)
    ensures (forall again :: Activates(after, again, now) ==> again == after) <==> UniqueNewest(rows, now)
  {
    if UniqueNewest(rows, now) {
      forall again | Activates(after, again, now) ensures again == after {
        UniqueNewestIsStable(rows, after, again, now);
      }
    } else {
      var p: Pair, v: Id, w: Id :| HasDue(rows, p, now) && IsLatest(rows, v, p, now) && IsLatest(rows, w, p, now) && v != w;
      var u := DueKeyIsSettled(rows, after, p, now);
      OtherNewestIsAllowed(rows, after, if after[v].active then w else v, p, now);
    }
  }

  /** Two rows of one key and one date, one of them active. */
  function Tied(first: bool): Table {
    map[0 := FeeRow("platform", "XLM", 0, 0, first), 1 := FeeRow("platform", "XLM", 0, 0, !first)]
  }

  /** Without distinct dates the two rows can take turns, run after run. */
  lemma TiesMayAlternate(first: bool)
    ensures Activates(Tied(first), Tied(!first), 0) && Tied(first) != Tied(!first)
  {
    var rows, after, p := Tied(first), Tied(!first), Pair("platform", "XLM");
    var w := if first then 1 else 0;
    assert rows[0].active != after[0].active;
    assert forall id :: id in rows ==> PairOf(rows[id]) == p && PairOf(after[id]) == p;
    assert IsLatest(rows, w, p, 0);
    assert OnlyActive(after, w);
    assert HasDue(rows, p, 0) by { assert Due(rows[w], 0); }
  }

  /** UNIQUE (fee_type, asset_code, is_active), deferred to the end of the transaction. */
  predicate Unique(rows: Table) {
    forall j, k :: j in rows && k in rows && PairOf(rows[j]) == PairOf(rows[k]) && rows[j].active == rows[k].active ==> j == k
  }

  /** A run keeps the deferred constraint, so that its commit is not refused. */
  lemma CommitKeepsUnique(rows: Table, after: Table, now: int)
    requires Activates(rows, after, now) && Unique(rows)
    ensures Unique(after)
  {
    forall j, k | j in after && k in after && PairOf(after[j]) == PairOf(after[k]) && after[j].active == after[k].active
      ensures j == k
    {
      if HasDue(rows, PairOf(rows[j]), now) {
        var w := DueKeyIsSettled(rows, after, PairOf(rows[j]), now);
        assert PairOf(after[w]) == PairOf(after[j]);
      }
    }
  }

  // ---------------------------------------------------------------- The job

  class FeeConfigTable {
    var rows: Table

    constructor (rows: Table)
      ensures this.rows == rows
    {
      this.rows := rows;
    }

    /** SELECT ... WHERE is_active = false AND effective_from <= NOW() ORDER BY created_at ASC */
    method SelectDue(now: int) returns (ids: seq<Id>)
      ensures forall id :: id in ids <==> id in rows && Due(rows[id], now)
      ensures forall i, j :: 0 <= i < j < |ids| ==> ids[i] in rows && ids[j] in rows && rows[ids[i]].createdAt <= rows[ids[j]].createdAt
    {
      ids := [];
      var left := set id | id in rows && Due(rows[id], now);
      while left != {}
        invariant forall id :: id in rows && Due(rows[id], now) <==> id in left || id in ids
        invariant forall i, j :: 0 <= i < j < |ids| ==> ids[i] in rows && ids[j] in rows && rows[ids[i]].createdAt <= rows[ids[j]].createdAt
        invariant forall id, k :: id in ids && k in left ==> id in rows && k in rows && rows[id].createdAt <= rows[k].createdAt
        decreases left
      {
        OldestExists(rows, left);
        var oldest :| oldest in left && IsOldest(rows, left, oldest);
        ids := ids + [oldest];
        left := left - {oldest};
      }
    }

    /** SELECT id ... WHERE effective_from <= NOW() ORDER BY effective_from DESC LIMIT 1 */
    method SelectLatest(p: Pair, now: int) returns (found: Option<Id>)
      ensures found.Some? ==> IsLatest(rows, found.value, p, now)
      ensures found.None? ==> forall id :: id in rows ==> !Effective(rows[id], p, now)
    {
      found := None;
      var left := rows.Keys;
      while left != {}
        invariant left <= rows.Keys
        invariant found.Some? ==> found.value in rows && Effective(rows[found.value], p, now)
        invariant found.Some? ==> forall k :: k in rows && k !in left && Effective(rows[k], p, now) ==>
                    rows[k].effectiveFrom <= rows[found.value].effectiveFrom
        invariant found.None? ==> forall k :: k in rows && k !in left ==> !Effective(rows[k], p, now)
        decreases left
      {
        var id :| id in left;
        left := left - {id};
        if Effective(rows[id], p, now) && (found.None? || rows[found.value].effectiveFrom < rows[id].effectiveFrom) {
          found := Some(id);
        }
      }
    }

    /** One due row: its key is planned for unless it was seen. */
    method PlanRow(ghost ids: seq<Id>, id: Id, items: seq<Item>, seen: set<string>, now: int)
      returns (toActivate: seq<Item>, nowSeen: set<string>)
      requires Plans(rows, ids, items, now) && id in rows && Due(rows[id], now)
      requires forall key :: key in seen <==> Covered(items, key)
      ensures Plans(rows, ids + [id], toActivate, now)
      ensures forall key :: key in nowSeen <==> Covered(toActivate, key)
    {
      var row := rows[id];
      toActivate, nowSeen := items, seen;
      if Key(PairOf(row)) in seen {
        PlanStays(rows, ids, items, id, now);
      } else {
        nowSeen := seen + {Key(PairOf(row))};
        var latest := SelectLatest(PairOf(row), now);
        assert Effective(row, PairOf(row), now);
        PlanGrows(rows, ids, items, id, latest.value, now);
        CoveredGrows(items, Item(latest.value, PairOf(row)));
        toActivate := items + [Item(latest.value, PairOf(row))];
      }
    }

    method Plan(ids: seq<Id>, now: int) returns (toActivate: seq<Item>)
      requires forall i :: 0 <= i < |ids| ==> ids[i] in rows && Due(rows[ids[i]], now)
      ensures Plans(rows, ids, toActivate, now)
    {
      toActivate := [];
      var seen: set<string> := {};
      for i := 0 to |ids|
        invariant Plans(rows, ids[..i], toActivate, now)
        invariant forall key :: key in seen <==> Covered(toActivate, key)
      {
        toActivate, seen := PlanRow(ids[..i], ids[i], toActivate, seen, now);
        assert ids[..i + 1] == ids[..i] + [ids[i]];
      }
      assert ids[..|ids|] == ids;
    }

    /** The second loop, in its transaction: an error rolls every flip back. */
    method FlipInTransaction(toActivate: seq<Item>, trouble: Trouble) returns (committed: bool)
      modifies this
      ensures rows == if committed then FlipAll(old(rows), toActivate) else old(rows)
      ensures committed <==> !(trouble.InTransaction? && trouble.at <= |toActivate|)
    {
      var saved := rows;
      for i := 0 to |toActivate|
        invariant rows == FlipAll(saved, toActivate[..i])
        invariant trouble.InTransaction? ==> trouble.at >= i
      {
        if trouble == InTransaction(i) {
          rows := saved;
          return false;
        }
        rows := Flip(rows, toActivate[i]);
        assert toActivate[..i + 1][..i] == toActivate[..i];
      }
      assert toActivate[..|toActivate|] == toActivate;
      if trouble == InTransaction(|toActivate|) {
        rows := saved;
        return false;
      }
      committed := true;
    }

    /**
     The whole job. What throws before the commit leaves the table as it was; the cache and the audit
     log come after it, and when they throw the job fails although the flips stay.
     */
    method ActivateScheduledFeeConfigs(now: int, trouble: Trouble) returns (outcome: Outcome, ghost due: seq<Id>)
      modifies this
      ensures outcome != Failed || trouble != InQuery ==> ListsDue(old(rows), due, now)
      ensures outcome == Committed || (outcome == Failed && trouble == AfterCommit) ==> Serves(old(rows), rows, due, now)
      ensures outcome == Committed && KeysTellApart(old(rows), now) ==> Activates(old(rows), rows, now)
      ensures outcome == NothingDue || (outcome == Failed && trouble != AfterCommit) ==> rows == old(rows)
      ensures trouble != InQuery ==>
                (outcome == NothingDue <==> forall id :: id in old(rows) && old(rows)[id].effectiveFrom <= now ==> old(rows)[id].active)
      ensures trouble == Nowhere ==> outcome != Failed
    {
      if trouble == InQuery {
        return Failed, [];
      }
      var ids := SelectDue(now);
      due := ids;
      if ids == [] {
        return NothingDue, due;
      }
      assert ids[0] in ids;
      var toActivate := Plan(ids, now);
      PlanServes(rows, ids, toActivate, now);
      if KeysTellApart(rows, now) {
        ServesActivates(rows, FlipAll(rows, toActivate), ids, now);
      }
      var committed := FlipInTransaction(toActivate, trouble);
      outcome := if committed && trouble != AfterCommit then Committed else Failed;
    }
  }

  lemma PlanStays(rows: Table, ids: seq<Id>, items: seq<Item>, id: Id, now: int)
    requires Plans(rows, ids, items, now) && id in rows && Covered(items, Key(PairOf(rows[id])))
    ensures Plans(rows, ids + [id], items, now)
  {
    forall a | 0 <= a < |items| ensures Served(rows, ids + [id], items[a].pair) {
      ServedGrows(rows, ids, id, items[a].pair);
    }
  }

  lemma CoverageGrows(rows: Table, ids: seq<Id>, items: seq<Item>, id: Id, item: Item)
    requires (forall k :: 0 <= k < |ids| ==> ids[k] in rows) && id in rows && item.pair == PairOf(rows[id])
    requires AllCovered(rows, ids, items)
    ensures AllCovered(rows, ids + [id], items + [item])
  {
    CoveredGrows(items, item);
  }

  lemma NewKeyIsServed(rows: Table, ids: seq<Id>, items: seq<Item>, id: Id)
    requires (forall k :: 0 <= k < |ids| ==> ids[k] in rows) && id in rows
    requires AllCovered(rows, ids, items) && !Covered(items, Key(PairOf(rows[id])))
    ensures Served(rows, ids + [id], PairOf(rows[id]))
  {
    assert forall k :: 0 <= k < |ids| ==> Covered(items, Key(PairOf(rows[ids[k]])));
    ServedGrows(rows, ids, id, PairOf(rows[id]));
  }

  lemma PlanGrows(rows: Table, ids: seq<Id>, items: seq<Item>, id: Id, found: Id, now: int)
    requires Plans(rows, ids, items, now) && id in rows && !Covered(items, Key(PairOf(rows[id])))
    requires IsLatest(rows, found, PairOf(rows[id]), now)
    ensures Plans(rows, ids + [id], items + [Item(found, PairOf(rows[id]))], now)
  {
    forall a | 0 <= a < |items| ensures Served(rows, ids + [id], items[a].pair) {
      ServedGrows(rows, ids, id, items[a].pair);
    }
    NewKeyIsServed(rows, ids, items, id);
    CoverageGrows(rows, ids, items, id, Item(found, PairOf(rows[id])));
  }

  lemma CoveredGrows(items: seq<Item>, item: Item)
    ensures forall key :: Covered(items + [item], key) <==> Covered(items, key) || key == Key(item.pair)
  {
    forall key ensures Covered(items + [item], key) <==> Covered(items, key) || key == Key(item.pair) {
      assert (items + [item])[|items|] == item;
      if Covered(items, key) {
        var a :| 0 <= a < |items| && Key(items[a].pair) == key;
        assert (items + [item])[a] == items[a];
      }
    }
  }

  predicate IsOldest(rows: Table, ids: set<Id>, oldest: Id)
    requires ids <= rows.Keys
  {
    oldest in ids && forall k :: k in ids ==> rows[oldest].createdAt <= rows[k].createdAt
  }

  lemma {:induction false} OldestExists(rows: Table, ids: set<Id>)
    requires ids != {} && ids <= rows.Keys
    ensures exists oldest :: IsOldest(rows, ids, oldest)
    decreases ids
  {
    var first :| first in ids;
    var rest := ids - {first};
    if rest == {} {
      assert IsOldest(rows, ids, first) by { assert forall k :: k in ids ==> k == first || k in rest; }
    } else {
      OldestExists(rows, rest);
      var other :| IsOldest(rows, rest, other);
      var oldest := if rows[other].createdAt < rows[first].createdAt then other else first;
      assert IsOldest(rows, ids, oldest) by { assert forall k :: k in ids ==> k == first || k in rest; }
    }
  }
}
