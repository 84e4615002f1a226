/** The payment history as a client walks it: with cursors in their text form. */
module HistoryWalk {
  import opened Wrappers
  import H = PaymentHistory
  import C = HistoryCursor

  /** How PostgreSQL writes and reads timestamps and ids, with the libraries of the cursor's text form. */
  datatype Codec = Codec(
    lib: C.Library, showTime: int -> string, readTime: string -> int, showId: nat -> string, readId: string -> nat)

  function Encode(codec: Codec, c: H.Cursor): string {
    C.EncodeHistoryCursor(codec.lib, codec.showTime(c.createdAt), codec.showId(c.id))
  }

  function Decode(codec: Codec, text: string): Option<H.Cursor> {
    var c := C.DecodeHistoryCursor(codec.lib, text);
    if c.None? then None else Some(H.Cursor(codec.readTime(c.value.createdAt), codec.readId(c.value.id)))
  }

  /** What is assumed of the libraries for one position: time, id and JSON are read back as they were written. */
  predicate ReadsBack(codec: Codec, c: H.Cursor) {
    var time, id := codec.showTime(c.createdAt), codec.showId(c.id);
    var json := C.Object(Some(time), Some(id));
    && codec.readTime(time) == c.createdAt && codec.readId(id) == c.id
    && codec.lib.isDate(time) && C.IsUuid(id)
    && codec.lib.stringify(json) != [] && codec.lib.parse(codec.lib.stringify(json)) == Some(json)
  }

  lemma TextRoundTrip(codec: Codec, c: H.Cursor)
    requires ReadsBack(codec, c)
    ensures Decode(codec, Encode(codec, c)) == Some(c)
  {
    C.CursorRoundTrip(codec.lib, codec.showTime(c.createdAt), codec.showId(c.id));
  }

  datatype Response = InvalidCursor | Page(rows: seq<H.Row>, next: Option<string>)

  function Written(codec: Codec, page: H.Page): Response {
    Page(page.rows, if page.next.None? then None else Some(Encode(codec, page.next.value)))
  }

  /** GET /api/payments/history with the cursor as the client sends it. */
  ghost function Answer(codec: Codec, table: set<H.Row>, q: H.Query, text: Option<string>, limit: nat): Response
    requires H.Keyed(table) && limit >= 1
  {
    if text.None? then Written(codec, H.PageOf(table, q, None, limit))
    else
      var c := Decode(codec, text.value);
      if c.None? then InvalidCursor else Written(codec, H.PageOf(table, q, c, limit))
  }

  method History(codec: Codec, table: set<H.Row>, q: H.Query, text: Option<string>, requested: Option<int>)
    returns (response: Response)
    requires H.Keyed(table)
    ensures response == Answer(codec, table, q, text, H.ClampLimit(requested))
  {
    var cursor := None;
    if text.Some? {
      cursor := Decode(codec, text.value);
      if cursor.None? {
        return InvalidCursor;
      }
    }
    var page := H.History(table, q, cursor, requested);
    response := Written(codec, page);
  }

  /** The rows a client collects that sends back every `next_cursor` it gets, page `k` read from `tables[k]`. */
  ghost function Collect(codec: Codec, tables: seq<set<H.Row>>, q: H.Query, text: Option<string>, limit: nat): seq<H.Row>
    requires limit >= 1 && forall i :: 0 <= i < |tables| ==> H.Keyed(tables[i])
    decreases |tables|
  {
    if tables == [] then []
    else
      match Answer(codec, tables[0], q, text, limit)
      case InvalidCursor => []
      case Page(rows, next) => rows + (if next.None? then [] else Collect(codec, tables[1..], q, next, limit))
  }

  predicate AllReadBack(codec: Codec, tables: seq<set<H.Row>>) {
    forall i, r :: 0 <= i < |tables| && r in tables[i] ==> ReadsBack(codec, H.CursorOf(r))
  }

  /** A page's cursor is the position of one of the table's rows. */
  lemma NextIsOfARow(table: set<H.Row>, q: H.Query, cursor: Option<H.Cursor>, limit: nat)
    requires H.Keyed(table) && limit >= 1 && H.PageOf(table, q, cursor, limit).next.Some?
    ensures exists r :: r in table && H.PageOf(table, q, cursor, limit).next == Some(H.CursorOf(r))
  {
    var all := H.Sorted(H.Selected(table, q, cursor));
    H.NextPageSelects(table, q, cursor, limit, all);
    assert all[limit - 1] in table;
  }

  /** Walking with texts is walking with positions. */
  lemma {:induction false} CollectIsWalk(codec: Codec, tables: seq<set<H.Row>>, q: H.Query, cursor: Option<H.Cursor>,
                                         text: Option<string>, limit: nat)
    requires limit >= 1 && (forall i :: 0 <= i < |tables| ==> H.Keyed(tables[i])) && AllReadBack(codec, tables)
    requires if cursor.None? then text.None? else text.Some? && Decode(codec, text.value) == cursor
    ensures Collect(codec, tables, q, text, limit) == H.Walk(tables, q, cursor, limit)
    decreases |tables|
  {
    if tables != [] {
      var page := H.PageOf(tables[0], q, cursor, limit);
      if page.next.Some? {
        NextIsOfARow(tables[0], q, cursor, limit);
        TextRoundTrip(codec, page.next.value);
        CollectIsWalk(codec, tables[1..], q, page.next, Some(Encode(codec, page.next.value)), limit);
      }
    }
  }

  /**
   A client that starts without a cursor and sends back every `next_cursor` collects exactly the
   matching rows of the first table, in descending order and each once, if no matching row is added
   below the position it holds.
   */
  lemma ClientCollectsFirstSnapshot(codec: Codec, tables: seq<set<H.Row>>, q: H.Query, limit: nat)
    requires limit >= 1 && (forall i :: 0 <= i < |tables| ==> H.Keyed(tables[i])) && AllReadBack(codec, tables)
    requires tables != [] && |tables| > |H.Selected(tables[0], q, None)|
    requires H.InsertsAboveCursor(tables, q, None, limit)
    ensures Collect(codec, tables, q, None, limit) == H.Sorted(H.Selected(tables[0], q, None))
  {
    CollectIsWalk(codec, tables, q, None, None, limit);
    H.WalkIsFirstSnapshot(tables, q, None, limit);
  }
}
