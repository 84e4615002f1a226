/** Keyset pagination of the payment history: what a client that follows `next_cursor` ends up with. */
module PaymentHistory {
  import opened Wrappers

  type Wallet = nat
  type Asset = nat

  datatype TxStatus = Pending | Confirming | Completed | Failed | PendingClaim | Cancelled

  datatype Row = Row(createdAt: int, id: nat, sender: Wallet, recipient: Wallet, asset: Asset, status: TxStatus)

  /** The pair a cursor carries. */
  datatype Cursor = Cursor(createdAt: int, id: nat)

  datatype Direction = All | Sent | Received

  datatype Query = Query(
    wallet: Wallet,
    direction: Direction,
    from: Option<int>,
    to: Option<int>,
    asset: Option<Asset>,
    statuses: Option<set<TxStatus>>)

  const DEFAULT_LIMIT: nat := 20
  const MAX_LIMIT: nat := 100

  /** Math.min(100, Math.max(1, parseInt(limit) || 20)) */
  function ClampLimit(requested: Option<int>): (limit: nat)
    ensures 1 <= limit <= MAX_LIMIT
    ensures requested.None? || requested.value == 0 ==> limit == 20
    ensures requested.Some? && 1 <= requested.value <= 100 ==> limit == requested.value
    ensures requested.Some? && requested.value < 0 ==> limit == 1
    ensures requested.Some? && requested.value > 100 ==> limit == 100
  {
    var n := if requested.None? || requested.value == 0 then DEFAULT_LIMIT else requested.value;
    if n < 1 then 1 else if n > MAX_LIMIT then MAX_LIMIT else n
  }

  predicate Below(r: Row, c: Cursor) {
    r.createdAt < c.createdAt || (r.createdAt == c.createdAt && r.id < c.id)
  }

  function CursorOf(r: Row): Cursor {
    Cursor(r.createdAt, r.id)
  }

  /** The optional filters on time, asset and status. */
  predicate PassesFilters(q: Query, r: Row) {
    && (q.from.Some? ==> q.from.value <= r.createdAt)
    && (q.to.Some? ==> r.createdAt <= q.to.value)
    && (q.asset.Some? ==> r.asset == q.asset.value)
    && (q.statuses.Some? ==> r.status in q.statuses.value)
  }

  predicate Matches(q: Query, r: Row) {
    && (match q.direction
        case Sent => r.sender == q.wallet
        case Received => r.recipient == q.wallet
        case All => r.sender == q.wallet || r.recipient == q.wallet)
    && PassesFilters(q, r)
  }

  function Selected(table: set<Row>, q: Query, cursor: Option<Cursor>): set<Row> {
    set r | r in table && Matches(q, r) && (cursor.Some? ==> Below(r, cursor.value))
  }

  /** All payments of a wallet are those it sent and those it received. */
  lemma SentAndReceivedAreAll(table: set<Row>, q: Query, cursor: Option<Cursor>)
    ensures var sent, received := Selected(table, q.(direction := Sent), cursor), Selected(table, q.(direction := Received), cursor);
            var all := Selected(table, q.(direction := All), cursor);
            && all == sent + received
            && (forall r :: r in all ==> (r in sent <==> r.sender == q.wallet) && (r in received <==> r.recipient == q.wallet))
            && forall r :: r in all ==> r.sender == q.wallet || r.recipient == q.wallet
  {
  }

  /** Each filter narrows the selection on its own; both ends of the window belong to it. */
  lemma FiltersNarrow(table: set<Row>, q: Query, cursor: Option<Cursor>, at: int, asset: Asset, statuses: set<TxStatus>)
    ensures Selected(table, q.(from := Some(at)), cursor)
            == set r | r in Selected(table, q.(from := None), cursor) && at <= r.createdAt
    ensures Selected(table, q.(to := Some(at)), cursor)
            == set r | r in Selected(table, q.(to := None), cursor) && r.createdAt <= at
    ensures Selected(table, q.(asset := Some(asset)), cursor)
            == set r | r in Selected(table, q.(asset := None), cursor) && r.asset == asset
    ensures Selected(table, q.(statuses := Some(statuses)), cursor)
            == set r | r in Selected(table, q.(statuses := None), cursor) && r.status in statuses
  {
  }

  /** `id` is the primary key. */
  predicate Keyed(table: set<Row>) {
    forall r, r' :: r in table && r' in table && r.id == r'.id ==> r == r'
  }

  predicate Descending(rows: seq<Row>) {
    forall i, j :: 0 <= i < j < |rows| ==> Below(rows[j], CursorOf(rows[i]))
  }

  /** `s` lists exactly the rows of the set. */
  ghost predicate Lists(s: seq<Row>, rows: set<Row>) {
    forall r :: r in s <==> r in rows
  }

  // ---------------------------------------------------------------- ORDER BY created_at DESC, id DESC

  lemma {:induction false} GreatestExists(rows: set<Row>) returns (g: Row)
    requires rows != {} && Keyed(rows)
    ensures g in rows && forall r :: r in rows && r != g ==> Below(r, CursorOf(g))
    decreases rows
  {
    var first :| first in rows;
    var rest := rows - {first};
    g := first;
    if rest != {} {
      var other := GreatestExists(rest);
      if Below(first, CursorOf(other)) { g := other; }
      assert Below(first, CursorOf(other)) || Below(other, CursorOf(first));
    }
    forall r | r in rows && r != g ensures Below(r, CursorOf(g)) {
      assert r == first || r in rest;
    }
  }

  function Greatest(rows: set<Row>): (g: Row)
    requires rows != {} && Keyed(rows)
    ensures g in rows && forall r :: r in rows && r != g ==> Below(r, CursorOf(g))
  {
    assert exists g :: g in rows && forall r :: r in rows && r != g ==> Below(r, CursorOf(g)) by {
      var w := GreatestExists(rows);
    }
    var g :| g in rows && forall r :: r in rows && r != g ==> Below(r, CursorOf(g));
    g
  }

  /** The rows in descending order, as the database sorts them. */
  function SortDescending(rows: set<Row>): (s: seq<Row>)
    requires Keyed(rows)
    ensures Lists(s, rows) && |s| == |rows| && Descending(s)
    decreases rows
  {
    if rows == {} then []
    else
      var g := Greatest(rows);
      var rest := SortDescending(rows - {g});
      assert forall i :: 0 <= i < |rest| ==> rest[i] in rest;
      [g] + rest
  }

  /** The only descending list of the rows. */
  ghost function Sorted(rows: set<Row>): (s: seq<Row>)
    requires Keyed(rows)
    ensures Lists(s, rows) && |s| == |rows| && Descending(s)
  {
    assert Lists(SortDescending(rows), rows);
    var s :| Lists(s, rows) && |s| == |rows| && Descending(s);
    s
  }

  lemma GreatestIsFirst(s: seq<Row>, rows: set<Row>)
    requires Keyed(rows) && Descending(s) && Lists(s, rows) && s != []
    ensures rows != {} && s[0] == Greatest(rows) && Lists(s[1..], rows - {s[0]})
  {
    assert s[0] in rows;
    var g := Greatest(rows);
    assert g in s;
    assert forall i :: 0 < i < |s| ==> Below(s[i], CursorOf(s[0]));
    assert s == [s[0]] + s[1..];
    forall r | r in s[1..] ensures r != s[0] {
      var i :| 0 <= i < |s[1..]| && s[1..][i] == r;
      assert s[i + 1] == r;
    }
  }

  /** There is only one way to list a set of rows in descending order. */
  lemma {:induction false} SortedIsUnique(s: seq<Row>, s': seq<Row>, rows: set<Row>)
    requires Keyed(rows) && Descending(s) && Lists(s, rows) && Descending(s') && Lists(s', rows)
    ensures s == s'
    decreases |s|
  {
    if s' != [] { assert s'[0] in s' && s'[0] in s; }
    if s != [] {
      assert s[0] in s';
      GreatestIsFirst(s, rows);
      GreatestIsFirst(s', rows);
      SortedIsUnique(s[1..], s'[1..], rows - {s[0]});
    }
  }

  lemma SuffixIsBelow(s: seq<Row>, n: nat, r: Row)
    requires Descending(s) && 0 < n <= |s|
    ensures r in s[n..] <==> r in s && Below(r, CursorOf(s[n - 1]))
  {
    assert forall i :: 0 <= i < n - 1 ==> Below(s[n - 1], CursorOf(s[i]));
    if r in s && Below(r, CursorOf(s[n - 1])) {
      var i :| 0 <= i < |s| && s[i] == r;
      assert s[n..][i - n] == r;
    }
    if r in s[n..] {
      var i :| 0 <= i < |s[n..]| && s[n..][i] == r;
      assert s[n + i] == r;
    }
  }

  /** What is sorted after the n-th row is what lies below it. */
  lemma SortedSuffix(rows: set<Row>, rest: set<Row>, n: nat)
    requires Keyed(rows) && 0 < n <= |rows|
    requires forall r :: r in rest <==> r in rows && Below(r, CursorOf(Sorted(rows)[n - 1]))
    ensures Keyed(rest) && Sorted(rest) == Sorted(rows)[n..]
  {
    var s := Sorted(rows);
    forall r ensures r in s[n..] <==> r in rest { SuffixIsBelow(s, n, r); }
    SortedIsUnique(s[n..], Sorted(rest), rest);
  }

  // ---------------------------------------------------------------- One page

  datatype Page = Page(rows: seq<Row>, next: Option<Cursor>)

  function Cut(all: seq<Row>, limit: nat): Page
    requires limit >= 1
  {
    if |all| > limit then Page(all[..limit], Some(CursorOf(all[limit - 1]))) else Page(all, None)
  }

  /** SELECT ... LIMIT limit + 1, of which the last row only says that there is more. */
  ghost function PageOf(table: set<Row>, q: Query, cursor: Option<Cursor>, limit: nat): Page
    requires Keyed(table) && limit >= 1
  {
    Cut(Sorted(Selected(table, q, cursor)), limit)
  }

  /** One conjunct of the WHERE clause, with its parameter. */
  datatype Condition =
    | SenderIs(wallet: Wallet)
    | RecipientIs(wallet: Wallet)
    | EitherIs(wallet: Wallet)
    | BelowCursor(cursor: Cursor)
    | CreatedFrom(time: int)
    | CreatedTo(time: int)
    | AssetIs(asset: Asset)
    | StatusIn(statuses: set<TxStatus>)

  predicate Holds(c: Condition, r: Row) {
    match c
    case SenderIs(w) => r.sender == w
    case RecipientIs(w) => r.recipient == w
    case EitherIs(w) => r.sender == w || r.recipient == w
    case BelowCursor(cursor) => Below(r, cursor)
    case CreatedFrom(t) => t <= r.createdAt
    case CreatedTo(t) => r.createdAt <= t
    case AssetIs(a) => r.asset == a
    case StatusIn(statuses) => r.status in statuses
  }

  predicate AllHold(conditions: seq<Condition>, r: Row) {
    forall c :: c in conditions ==> Holds(c, r)
  }

  /** The conditions `history` pushes one by one say that a row matches and lies below the cursor. */
  method BuildConditions(q: Query, cursor: Option<Cursor>) returns (conditions: seq<Condition>)
    ensures forall r :: AllHold(conditions, r) <==> Matches(q, r) && (cursor.Some? ==> Below(r, cursor.value))
  {
    match q.direction {
      case Sent => conditions := [SenderIs(q.wallet)];
      case Received => conditions := [RecipientIs(q.wallet)];
      case All => conditions := [EitherIs(q.wallet)];
    }
    PushCondition([], conditions[0]);
    assert [] + [conditions[0]] == conditions;
    if cursor.Some? {
      PushCondition(conditions, BelowCursor(cursor.value));
      conditions := conditions + [BelowCursor(cursor.value)];
    }
    conditions := PushFilters(conditions, q);
  }

  method PushFilters(base: seq<Condition>, q: Query) returns (conditions: seq<Condition>)
    ensures forall r :: AllHold(conditions, r) <==> AllHold(base, r) && PassesFilters(q, r)
  {
    conditions := base;
    if q.from.Some? {
      PushCondition(conditions, CreatedFrom(q.from.value));
      conditions := conditions + [CreatedFrom(q.from.value)];
    }
    if q.to.Some? {
      PushCondition(conditions, CreatedTo(q.to.value));
      conditions := conditions + [CreatedTo(q.to.value)];
    }
    if q.asset.Some? {
      PushCondition(conditions, AssetIs(q.asset.value));
      conditions := conditions + [AssetIs(q.asset.value)];
    }
    if q.statuses.Some? {
      PushCondition(conditions, StatusIn(q.statuses.value));
      conditions := conditions + [StatusIn(q.statuses.value)];
    }
  }

  lemma PushCondition(conditions: seq<Condition>, c: Condition)
    ensures forall r :: AllHold(conditions + [c], r) <==> AllHold(conditions, r) && Holds(c, r)
  {
    assert forall d :: d in conditions + [c] <==> d in conditions || d == c;
  }

  /** SELECT ... WHERE conditions ORDER BY created_at DESC, id DESC LIMIT n */
  function RunQuery(table: set<Row>, conditions: seq<Condition>, n: nat): seq<Row>
    requires Keyed(table)
  {
    var all := SortDescending(set r | r in table && AllHold(conditions, r));
    if |all| > n then all[..n] else all
  }

  lemma QueryFindsSelected(table: set<Row>, q: Query, cursor: Option<Cursor>, conditions: seq<Condition>, n: nat)
    requires Keyed(table)
    requires forall r :: AllHold(conditions, r) <==> Matches(q, r) && (cursor.Some? ==> Below(r, cursor.value))
    ensures var all := Sorted(Selected(table, q, cursor));
            RunQuery(table, conditions, n) == if |all| > n then all[..n] else all
  {
    var chosen := Selected(table, q, cursor);
    assert (set r | r in table && AllHold(conditions, r)) == chosen;
    SortedIsUnique(SortDescending(chosen), Sorted(chosen), chosen);
  }

  /** GET /api/payments/history, after its parameters were validated. */
  method History(table: set<Row>, q: Query, cursor: Option<Cursor>, requested: Option<int>) returns (page: Page)
    requires Keyed(table)
    ensures page == PageOf(table, q, cursor, ClampLimit(requested))
  {
    var limit := ClampLimit(requested);
    var conditions := BuildConditions(q, cursor);
    QueryFindsSelected(table, q, cursor, conditions, limit + 1);
    var rows := RunQuery(table, conditions, limit + 1);
    var hasMore := |rows| > limit;
    var next := None;
    if hasMore {
      next := Some(CursorOf(rows[limit - 1]));
    }
    page := Page(if hasMore then rows[..limit] else rows, next);
  }

  // ---------------------------------------------------------------- Following the cursors

  /** Page `k` is read from `tables[k]`, the table as it is at that time. */
  ghost function Walk(tables: seq<set<Row>>, q: Query, cursor: Option<Cursor>, limit: nat): seq<Row>
    requires limit >= 1 && forall i :: 0 <= i < |tables| ==> Keyed(tables[i])
    decreases |tables|
  {
    if tables == [] then []
    else
      var page := PageOf(tables[0], q, cursor, limit);
      page.rows + (if page.next.None? then [] else Walk(tables[1..], q, page.next, limit))
  }

  /** The walk reaches a page without a next cursor. */
  ghost predicate Finishes(tables: seq<set<Row>>, q: Query, cursor: Option<Cursor>, limit: nat)
    requires limit >= 1 && forall i :: 0 <= i < |tables| ==> Keyed(tables[i])
    decreases |tables|
  {
    && tables != []
    && var next := PageOf(tables[0], q, cursor, limit).next;
       next.None? || Finishes(tables[1..], q, next, limit)
  }

  /** Rows are only added, never changed or removed. */
  ghost predicate OnlyInserts(tables: seq<set<Row>>) {
    forall i :: 0 < i < |tables| ==> tables[i - 1] <= tables[i]
  }

  /** Moreover no matching row is ever added below the cursor the client holds at that time. */
  ghost predicate InsertsAboveCursor(tables: seq<set<Row>>, q: Query, cursor: Option<Cursor>, limit: nat)
    requires limit >= 1 && forall i :: 0 <= i < |tables| ==> Keyed(tables[i])
    decreases |tables|
  {
    |tables| <= 1 ||
    var next := PageOf(tables[0], q, cursor, limit).next;
    next.None? || (Selected(tables[1], q, next) == Selected(tables[0], q, next)
                   && InsertsAboveCursor(tables[1..], q, next, limit))
  }

  /** What the next page starts from is what this page left over. */
  lemma NextPageSelects(table: set<Row>, q: Query, cursor: Option<Cursor>, limit: nat, all: seq<Row>)
    requires Keyed(table) && limit >= 1 && all == Sorted(Selected(table, q, cursor)) && |all| > limit
    ensures Sorted(Selected(table, q, Some(CursorOf(all[limit - 1])))) == all[limit..]
    ensures all[limit - 1] in Selected(table, q, cursor)
  {
    var last := all[limit - 1];
    assert last in all;
    SortedSuffix(Selected(table, q, cursor), Selected(table, q, Some(CursorOf(last))), limit);
  }

  /**
   With a stable tail, following `next_cursor` to the end yields exactly the matching rows of the
   first table, in descending order and each once, for any limit, filter and starting cursor;
   `|selected| + 1` pages always suffice.
   */
  lemma {:induction false} WalkIsFirstSnapshot(tables: seq<set<Row>>, q: Query, cursor: Option<Cursor>, limit: nat)
    requires limit >= 1 && forall i :: 0 <= i < |tables| ==> Keyed(tables[i])
    requires tables != [] && |tables| > |Selected(tables[0], q, cursor)|
    requires InsertsAboveCursor(tables, q, cursor, limit)
    ensures Finishes(tables, q, cursor, limit)
    ensures Walk(tables, q, cursor, limit) == Sorted(Selected(tables[0], q, cursor))
    decreases |tables|
  {
    var all := Sorted(Selected(tables[0], q, cursor));
    if |all| > limit {
      var next := Some(CursorOf(all[limit - 1]));
      NextPageSelects(tables[0], q, cursor, limit, all);
      assert |Selected(tables[0], q, next)| == |all[limit..]|;
      WalkIsFirstSnapshot(tables[1..], q, next, limit);
      assert all[..limit] + all[limit..] == all;
    }
  }

  /** What a walk owes the rows the client could see at its start. */
  ghost predicate Complete(walk: seq<Row>, table: set<Row>, q: Query, cursor: Option<Cursor>) {
    && Descending(walk)
    && (forall r :: r in Selected(table, q, cursor) ==> r in walk)
    && (forall r :: r in walk ==> Matches(q, r) && (cursor.Some? ==> Below(r, cursor.value)))
  }

  /**
   Under arbitrary insertions a walk that ends still repeats no row, stays in descending order and
   misses no matching row of the first table.
   */
  lemma {:induction false} WalkMissesNothing(tables: seq<set<Row>>, q: Query, cursor: Option<Cursor>, limit: nat)
    requires limit >= 1 && forall i :: 0 <= i < |tables| ==> Keyed(tables[i])
    requires OnlyInserts(tables) && Finishes(tables, q, cursor, limit)
    ensures Complete(Walk(tables, q, cursor, limit), tables[0], q, cursor)
    decreases |tables|
  {
    var page := PageOf(tables[0], q, cursor, limit);
    if page.next.Some? {
      WalkMissesNothing(tables[1..], q, page.next, limit);
      PageAndRest(tables[0], tables[1], q, cursor, limit, Walk(tables[1..], q, page.next, limit));
    }
  }

  lemma PageAndRest(table: set<Row>, later: set<Row>, q: Query, cursor: Option<Cursor>, limit: nat, rest: seq<Row>)
    requires limit >= 1 && Keyed(table) && Keyed(later) && table <= later
    requires PageOf(table, q, cursor, limit).next.Some?
    requires Complete(rest, later, q, PageOf(table, q, cursor, limit).next)
    ensures Complete(PageOf(table, q, cursor, limit).rows + rest, table, q, cursor)
  {
    var all := Sorted(Selected(table, q, cursor));
    var page := all[..limit];
    var next := CursorOf(all[limit - 1]);
    NextPageSelects(table, q, cursor, limit, all);
    PagesJoin(page, rest, next);
    assert all == page + all[limit..];
    forall r | r in Selected(table, q, cursor) ensures r in page + rest {
      assert r in all;
      assert r in all[limit..] ==> r in Selected(later, q, Some(next));
    }
    assert forall r :: r in page ==> r in all;
  }

  lemma PagesJoin(page: seq<Row>, rest: seq<Row>, next: Cursor)
    requires Descending(page) && Descending(rest) && page != [] && next == CursorOf(page[|page| - 1])
    requires forall r :: r in rest ==> Below(r, next)
    ensures Descending(page + rest)
  {
    var all := page + rest;
    forall i, j | 0 <= i < j < |all| ensures Below(all[j], CursorOf(all[i])) {
      if i < |page| <= j {
        assert all[j] in rest;
        assert i < |page| - 1 ==> Below(page[|page| - 1], CursorOf(page[i]));
      }
    }
  }

  /** Cursors strictly decrease along a walk. */
  lemma CursorsDecrease(table: set<Row>, q: Query, cursor: Option<Cursor>, limit: nat)
    requires Keyed(table) && limit >= 1 && cursor.Some? && PageOf(table, q, cursor, limit).next.Some?
    ensures var next := PageOf(table, q, cursor, limit).next.value;
            next.createdAt < cursor.value.createdAt || (next.createdAt == cursor.value.createdAt && next.id < cursor.value.id)
  {
    NextPageSelects(table, q, cursor, limit, Sorted(Selected(table, q, cursor)));
  }
}
