/** `importContacts`: validate every row, skip known addresses, insert the rest in one transaction. */
module ContactImport {
  import opened Wrappers
  import opened CsvText
  import opened CsvTable

  const MAX_IMPORT_ROWS: nat := 500
  const MAX_NAME_LENGTH: nat := 100

  datatype Contact = Contact(name: string, email: Option<string>)

  datatype Row = Row(name: string, address: string, email: Option<string>)

  datatype RowError = NameRequired | NameTooLong | AddressRequired | InvalidAddress

  datatype Checked = Good(row: Row) | Bad(error: RowError)

  datatype Rejection = NoFile | NoDataRow | MissingColumns | NoData | TooManyRows

  datatype Response =
    | BadRequest(reason: Rejection)
    | Failed
    | Done(imported: nat, skippedDuplicates: nat, errors: seq<(nat, RowError)>)

  datatype Columns = Columns(name: nat, address: nat, email: Option<nat>)

  // ---------------------------------------------------------------- The phases as functions

  function IndexOf(headers: seq<string>, title: string): (i: Option<nat>)
    ensures i.Some? ==> i.value < |headers| && headers[i.value] == title && title !in headers[..i.value]
    ensures i.None? ==> title !in headers
  {
    if headers == [] then None
    else if headers[0] == title then Some(0)
    else
      var rest := IndexOf(headers[1..], title);
      if rest.None? then None
      else
        assert headers[..rest.value + 1] == [headers[0]] + headers[1..][..rest.value];
        Some(rest.value + 1)
  }

  function StripBom(line: string): string {
    if line != "" && line[0] == '\U{FEFF}' then line[1..] else line
  }

  /** The columns named in the header line; `lower` is JavaScript's toLowerCase. */
  function FindColumns(header: string, lower: string -> string): Option<Columns> {
    var headers := Parse(lower(StripBom(header)));
    var name, address := IndexOf(headers, "name"), IndexOf(headers, "address");
    if name.None? || address.None? then None
    else Some(Columns(name.value, address.value, IndexOf(headers, "email")))
  }

  /** `(fields[i] || '').trim()` */
  function Field(fields: seq<string>, i: nat): string {
    if i < |fields| then Trim(fields[i]) else ""
  }

  /** The first rule a row breaks, or the row; `valid` is the Stellar key check. */
  function Check(fields: seq<string>, cols: Columns, valid: string -> bool): Checked {
    var name, address := Field(fields, cols.name), Field(fields, cols.address);
    var email := if cols.email.Some? then Field(fields, cols.email.value) else "";
    if name == "" then Bad(NameRequired)
    else if |name| > MAX_NAME_LENGTH then Bad(NameTooLong)
    else if address == "" then Bad(AddressRequired)
    else if !valid(address) then Bad(InvalidAddress)
    else Good(Row(name, address, if email == "" then None else Some(email)))
  }

  function CheckAll(lines: seq<string>, cols: Columns, valid: string -> bool): seq<Checked> {
    seq(|lines|, i requires 0 <= i < |lines| => Check(Parse(lines[i]), cols, valid))
  }

  function GoodRows(checked: seq<Checked>): seq<Row> {
    if checked == [] then []
    else GoodRows(checked[..|checked| - 1])
         + (if checked[|checked| - 1].Good? then [checked[|checked| - 1].row] else [])
  }

  /** Row numbers count from 2: one for the header and one for counting from 1. */
  function RowErrors(checked: seq<Checked>): seq<(nat, RowError)> {
    if checked == [] then []
    else RowErrors(checked[..|checked| - 1])
         + (if checked[|checked| - 1].Bad? then [(|checked| + 1, checked[|checked| - 1].error)] else [])
  }

  function NewRows(rows: seq<Row>, known: map<string, Contact>): seq<Row> {
    if rows == [] then []
    else NewRows(rows[..|rows| - 1], known)
         + (if rows[|rows| - 1].address in known then [] else [rows[|rows| - 1]])
  }

  predicate DistinctAddresses(rows: seq<Row>) {
    forall i, j :: 0 <= i < j < |rows| ==> rows[i].address != rows[j].address
  }

  /** The table after inserting the rows one by one. */
  function InsertAll(known: map<string, Contact>, rows: seq<Row>): map<string, Contact> {
    if rows == [] then known
    else InsertAll(known, rows[..|rows| - 1])[rows[|rows| - 1].address :=
                                              Contact(rows[|rows| - 1].name, rows[|rows| - 1].email)]
  }

  lemma OneMoreChecked(checked: seq<Checked>, i: nat)
    requires i < |checked|
    ensures GoodRows(checked[..i + 1]) == GoodRows(checked[..i]) + (if checked[i].Good? then [checked[i].row] else [])
    ensures RowErrors(checked[..i + 1])
            == RowErrors(checked[..i]) + (if checked[i].Bad? then [(i + 2, checked[i].error)] else [])
  {
    assert checked[..i + 1][..i] == checked[..i];
  }

  /** Whether the transaction for these new rows is rolled back; `failsAt` is the statement at which the database throws. */
  predicate InsertsFail(rows: seq<Row>, failsAt: Option<nat>) {
    rows != [] && (!DistinctAddresses(rows) || (failsAt.Some? && failsAt.value <= |rows|))
  }

  /** Whether an import fails: the duplicate check is sent only for valid rows. */
  predicate ImportFails(good: seq<Row>, rows: seq<Row>, queryFails: bool, failsAt: Option<nat>) {
    (good != [] && queryFails) || InsertsFail(rows, failsAt)
  }

  // ---------------------------------------------------------------- What the phases say together

  /** Every line is accounted for once: it is an error, a known address or a new row. */
  lemma {:induction false} RowsAreAccountedFor(checked: seq<Checked>, known: map<string, Contact>)
    ensures |RowErrors(checked)| + |GoodRows(checked)| == |checked|
    ensures |NewRows(GoodRows(checked), known)| <= |GoodRows(checked)|
    decreases |checked|
  {
    NewRowsAreUnknown(GoodRows(checked), known);
    if checked != [] {
      RowsAreAccountedFor(checked[..|checked| - 1], known);
    }
  }

  lemma {:induction false} NewRowsAreUnknown(rows: seq<Row>, known: map<string, Contact>)
    ensures |NewRows(rows, known)| <= |rows|
    ensures forall r :: r in NewRows(rows, known) <==> r in rows && r.address !in known
    decreases |rows|
  {
    if rows != [] {
      var init := rows[..|rows| - 1];
      NewRowsAreUnknown(init, known);
      assert rows == init + [rows[|rows| - 1]];
    }
  }

  predicate HasAddress(rows: seq<Row>, a: string) {
    exists i :: 0 <= i < |rows| && rows[i].address == a
  }

  lemma HasAddressSnoc(rows: seq<Row>, row: Row, a: string)
    ensures HasAddress(rows + [row], a) <==> HasAddress(rows, a) || row.address == a
  {
    assert (rows + [row])[|rows|] == row;
    if HasAddress(rows, a) {
      var i :| 0 <= i < |rows| && rows[i].address == a;
      assert (rows + [row])[i] == rows[i];
    }
  }

  lemma {:induction false} InsertAllKeys(known: map<string, Contact>, rows: seq<Row>, a: string)
    ensures a in InsertAll(known, rows) <==> a in known || HasAddress(rows, a)
    ensures a in known && !HasAddress(rows, a) ==> InsertAll(known, rows)[a] == known[a]
    decreases |rows|
  {
    if rows != [] {
      var init, last := rows[..|rows| - 1], rows[|rows| - 1];
      InsertAllKeys(known, init, a);
      assert rows == init + [last];
      HasAddressSnoc(init, last, a);
    }
  }

  lemma {:induction false} InsertAllValue(known: map<string, Contact>, rows: seq<Row>, i: nat)
    requires DistinctAddresses(rows) && i < |rows|
    ensures rows[i].address in InsertAll(known, rows)
    ensures InsertAll(known, rows)[rows[i].address] == Contact(rows[i].name, rows[i].email)
    decreases |rows|
  {
    if i < |rows| - 1 {
      assert rows[..|rows| - 1][i] == rows[i];
      InsertAllValue(known, rows[..|rows| - 1], i);
    }
  }

  lemma {:induction false} InsertAllSize(known: map<string, Contact>, rows: seq<Row>)
    requires DistinctAddresses(rows) && forall i :: 0 <= i < |rows| ==> rows[i].address !in known
    ensures |InsertAll(known, rows)| == |known| + |rows|
    decreases |rows|
  {
    if rows != [] {
      var init, last := rows[..|rows| - 1], rows[|rows| - 1];
      InsertAllSize(known, init);
      InsertAllKeys(known, init, last.address);
    }
  }

  /** Inserting distinct unknown addresses adds exactly them and overwrites nothing. */
  lemma {:induction false} InsertAllAddsExactly(known: map<string, Contact>, rows: seq<Row>)
    requires DistinctAddresses(rows) && forall r :: r in rows ==> r.address !in known
    ensures var after := InsertAll(known, rows);
            && (forall a :: a in known ==> a in after && after[a] == known[a])
            && (forall r :: r in rows ==> r.address in after && after[r.address] == Contact(r.name, r.email))
            && (forall a :: a in after ==> a in known || HasAddress(rows, a))
            && |after| == |known| + |rows|
  {
    InsertAllSize(known, rows);
    forall a ensures a in InsertAll(known, rows) <==> a in known || HasAddress(rows, a)
             ensures a in known && !HasAddress(rows, a) ==> InsertAll(known, rows)[a] == known[a]
    {
      InsertAllKeys(known, rows, a);
    }
    forall r | r in rows
      ensures r.address in InsertAll(known, rows) && InsertAll(known, rows)[r.address] == Contact(r.name, r.email)
    {
      var i :| 0 <= i < |rows| && rows[i] == r;
      InsertAllValue(known, rows, i);
    }
  }

  // ---------------------------------------------------------------- What is read and what is refused

  /** Which column is which: the first of its name, in the header without its BOM and in lower case. */
  lemma ColumnsFound(header: string, lower: string -> string)
    ensures var headers := Parse(lower(if header != "" && header[0] == '\U{FEFF}' then header[1..] else header));
            match FindColumns(header, lower)
            case None => "name" !in headers || "address" !in headers
            case Some(cols) =>
              && cols.name < |headers| && headers[cols.name] == "name" && "name" !in headers[..cols.name]
              && cols.address < |headers| && headers[cols.address] == "address" && "address" !in headers[..cols.address]
              && match cols.email
                 case None => "email" !in headers
                 case Some(e) => e < |headers| && headers[e] == "email" && "email" !in headers[..e]
  {
  }

  /** The trimmed field of a record, nothing where the record is too short. */
  function Cell(r: seq<string>, i: nat): string {
    if i < |r| then Trim(r[i]) else ""
  }

  /** What becomes of a record: accepted with what its cells hold, or refused for the first rule that it breaks. */
  predicate Judged(r: seq<string>, cols: Columns, valid: string -> bool, c: Checked) {
    var name, address := Cell(r, cols.name), Cell(r, cols.address);
    var email := if cols.email.Some? then Cell(r, cols.email.value) else "";
    var nameOk, addressOk := 1 <= |name| <= 100, address != "" && valid(address);
    match c
    case Good(row) =>
      && nameOk && addressOk
      && row.name == name && row.address == address
      && (row.email == None <==> email == "") && (row.email.Some? ==> row.email.value == email)
    case Bad(NameRequired) => |name| == 0
    case Bad(NameTooLong) => |name| > 100
    case Bad(AddressRequired) => nameOk && address == ""
    case Bad(InvalidAddress) => nameOk && address != "" && !valid(address)
  }

  lemma {:induction false} TrimStartShape(s: string)
    ensures TrimStart(s) == "" || !IsSpace(TrimStart(s)[0])
    decreases |s|
  {
    if s != "" && IsSpace(s[0]) { TrimStartShape(s[1..]); }
  }

  lemma {:induction false} TrimEndShape(s: string)
    ensures TrimEnd(s) == "" || !IsSpace(TrimEnd(s)[|TrimEnd(s)| - 1])
    ensures TrimEnd(s) <= s
    decreases |s|
  {
    if s != "" && IsSpace(s[|s| - 1]) { TrimEndShape(s[..|s| - 1]); }
  }

  lemma TrimTwice(s: string)
    ensures Trim(Trim(s)) == Trim(s)
  {
    TrimStartShape(s);
    TrimEndShape(TrimStart(s));
  }

  lemma CheckJudges(r: seq<string>, cols: Columns, valid: string -> bool)
    ensures Judged(r, cols, valid, Check(TrimAll(r), cols, valid))
  {
    if cols.name < |r| { TrimTwice(r[cols.name]); }
    if cols.address < |r| { TrimTwice(r[cols.address]); }
    if cols.email.Some? && cols.email.value < |r| { TrimTwice(r[cols.email.value]); }
  }

  /**
   A file of records that the reader can give back is judged record by record, in order: the lines it
   is split into, parsed and checked, are the records as they were meant.
   */
  lemma ImportReadsRecords(header: Record, records: seq<Record>, qs: seq<seq<bool>>, terms: seq<Terminator>,
                           cols: Columns, valid: string -> bool)
    requires records != [] && |records| <= |terms| <= |records| + 1 && QuotesAll([header] + records, qs)
    requires forall i :: 0 <= i < |records| ==> Readable(records[i])
    ensures var text := PrintTable([header] + records, qs, terms);
            && |Split(text)| > 0
            && var checked := CheckAll(NonBlankLines(Split(text)[1..]), cols, valid);
               |checked| == |records| && forall i :: 0 <= i < |records| ==> Judged(records[i], cols, valid, checked[i])
  {
    FileRoundTrip(header, records, qs, terms);
    var text := PrintTable([header] + records, qs, terms);
    var lines := NonBlankLines(Split(text)[1..]);
    assert ParseAll(lines) == TrimTable(records);
    forall i | 0 <= i < |records| ensures Judged(records[i], cols, valid, CheckAll(lines, cols, valid)[i]) {
      assert Parse(lines[i]) == ParseAll(lines)[i] == TrimAll(records[i]);
      CheckJudges(records[i], cols, valid);
    }
  }

  // ---------------------------------------------------------------- The handler

  /** The address book of one user: the rows of `contacts`, unique per wallet address. */
  class ContactBook {
    var contacts: map<string, Contact>

    constructor ()
      ensures contacts == map[]
    {
      contacts := map[];
    }

    /**
     Phase 3: BEGIN, one INSERT per row, COMMIT. A repeated address breaks the unique key; that, like
     any other error at an insert or at the commit, rolls all back. Without rows nothing is sent.
     */
    method InsertRows(rows: seq<Row>, failsAt: Option<nat>) returns (committed: bool)
      requires forall r :: r in rows ==> r.address !in contacts
      modifies this
      ensures committed <==> !InsertsFail(rows, failsAt)
      ensures contacts == if committed then InsertAll(old(contacts), rows) else old(contacts)
    {
      var saved := contacts;
      if rows == [] {
        return true;
      }
      for i := 0 to |rows|
        invariant DistinctAddresses(rows[..i]) && contacts == InsertAll(saved, rows[..i])
        invariant failsAt.Some? ==> failsAt.value >= i
      {
        var row := rows[i];
        assert rows[..i + 1][..i] == rows[..i] && row in rows;
        InsertAllKeys(saved, rows[..i], row.address);
        if failsAt == Some(i) || row.address in contacts {
          contacts := saved;
          return false;
        }
        contacts := contacts[row.address := Contact(row.name, row.email)];
      }
      assert rows[..|rows|] == rows;
      committed := failsAt != Some(|rows|);
      if !committed {
        contacts := saved;
      }
    }

    /** Phase 2: split the valid rows into known addresses and rows to insert. */
    method SkipDuplicates(rows: seq<Row>) returns (toInsert: seq<Row>, skipped: nat)
      ensures toInsert == NewRows(rows, contacts) && skipped + |toInsert| == |rows|
    {
      toInsert, skipped := [], 0;
      for i := 0 to |rows|
        invariant toInsert == NewRows(rows[..i], contacts) && skipped + |toInsert| == i
      {
        assert rows[..i + 1][..i] == rows[..i];
        if rows[i].address in contacts {
          skipped := skipped + 1;
        } else {
          toInsert := toInsert + [rows[i]];
        }
      }
      assert rows[..|rows|] == rows;
    }

    /** Phase 1: validate all rows before any insert. */
    method ValidateRows(lines: seq<string>, cols: Columns, valid: string -> bool)
      returns (rows: seq<Row>, errors: seq<(nat, RowError)>)
      ensures rows == GoodRows(CheckAll(lines, cols, valid)) && errors == RowErrors(CheckAll(lines, cols, valid))
    {
      rows, errors := [], [];
      ghost var checked := CheckAll(lines, cols, valid);
      for i := 0 to |lines|
        invariant rows == GoodRows(checked[..i]) && errors == RowErrors(checked[..i])
      {
        OneMoreChecked(checked, i);
        var fields := ParseCsvFields(lines[i]);
        match Check(fields, cols, valid) {
          case Good(row) => rows := rows + [row];
          case Bad(error) => errors := errors + [(i + 2, error)];
        }
      }
      assert checked[..|lines|] == checked;
    }

    method DropBlankLines(lines: seq<string>) returns (kept: seq<string>)
      ensures kept == NonBlankLines(lines)
    {
      kept := [];
      for i := 0 to |lines|
        invariant kept + NonBlankLines(lines[i..]) == NonBlankLines(lines)
      {
        assert lines[i..][1..] == lines[i + 1..];
        if !Blank(lines[i]) {
          kept := kept + [lines[i]];
        }
      }
    }

    /**
     POST /api/contacts/import. A well-formed file is imported all or nothing, and it is imported
     exactly when the new addresses in it are pairwise distinct and no statement throws; every data
     line is then counted once, as imported, skipped or failed.
     */
    method ImportContacts(csv: Option<string>, lower: string -> string, valid: string -> bool,
                          queryFails: bool, failsAt: Option<nat>) returns (response: Response)
      modifies this
      ensures csv.None? <==> response == BadRequest(NoFile)
      ensures csv.Some? && |Split(csv.value)| < 2 ==> response == BadRequest(NoDataRow)
      ensures csv.Some? && |Split(csv.value)| >= 2 ==>
                var header, lines := Split(csv.value)[0], NonBlankLines(Split(csv.value)[1..]);
                var cols := FindColumns(header, lower);
                if cols.None? then response == BadRequest(MissingColumns)
                else if lines == [] then response == BadRequest(NoData)
                else if |lines| > 500 then response == BadRequest(TooManyRows)
                else
                  var checked := CheckAll(lines, cols.value, valid);
                  var rows := NewRows(GoodRows(checked), old(contacts));
                  && (response == Failed <==> ImportFails(GoodRows(checked), rows, queryFails, failsAt))
                  && (response == Failed || (response.Done? && response.imported == |rows|
                                             && response.errors == RowErrors(checked)
                                             && response.imported + response.skippedDuplicates + |response.errors| == |lines|
                                             && contacts == InsertAll(old(contacts), rows)))
      ensures !response.Done? ==> contacts == old(contacts)
    {
      if csv.None? {
        return BadRequest(NoFile);
      }
      var lines := SplitCsvLines(csv.value);
      if |lines| < 2 {
        return BadRequest(NoDataRow);
      }
      var cols := FindColumns(lines[0], lower);
      if cols.None? {
        return BadRequest(MissingColumns);
      }
      var dataLines := DropBlankLines(lines[1..]);
      if dataLines == [] {
        return BadRequest(NoData);
      }
      if |dataLines| > MAX_IMPORT_ROWS {
        return BadRequest(TooManyRows);
      }
      response := ImportLines(dataLines, cols.value, valid, queryFails, failsAt);
    }

    method ImportLines(lines: seq<string>, cols: Columns, valid: string -> bool, queryFails: bool, failsAt: Option<nat>)
      returns (response: Response)
      modifies this
      ensures var checked := CheckAll(lines, cols, valid);
              var rows := NewRows(GoodRows(checked), old(contacts));
              && (response == Failed <==> ImportFails(GoodRows(checked), rows, queryFails, failsAt))
              && (response == Failed || (response.Done? && response.imported == |rows|
                                         && response.errors == RowErrors(checked)
                                         && response.imported + response.skippedDuplicates + |response.errors| == |lines|
                                         && contacts == InsertAll(old(contacts), rows)))
      ensures !response.Done? ==> contacts == old(contacts)
    {
      var rows, errors := ValidateRows(lines, cols, valid);
      if rows != [] && queryFails {
        return Failed;
      }
      var toInsert, skipped := SkipDuplicates(rows);
      RowsAreAccountedFor(CheckAll(lines, cols, valid), contacts);
      NewRowsAreUnknown(rows, contacts);
      var committed := InsertRows(toInsert, failsAt);
      if committed {
        response := Done(|toInsert|, skipped, errors);
      } else {
        response := Failed;
      }
    }
  }
}
