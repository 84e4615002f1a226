/** What the line splitter makes of RFC 4180 text, and when splitting into lines and then into fields undoes a table. */
module CsvTable {
  import opened CsvText

  datatype Terminator = LF | CRLF | CR

  function Text(t: Terminator): string {
    match t
    case LF => "\n"
    case CRLF => "\r\n"
    case CR => "\r"
  }

  type Record = fields: seq<string> | fields != [] witness [""]

  /** A field that may be left without quotes: no quote, comma or line break. */
  predicate Plain(f: string) {
    Clean(f) && '\n' !in f && '\r' !in f
  }

  /** Which fields of a record are quoted; the others may do without. */
  predicate Quotes(r: Record, q: seq<bool>) {
    |q| == |r| && forall i :: 0 <= i < |r| && !q[i] ==> Plain(r[i])
  }

  /** A record, its fields quoted as `q` says. */
  function PrintRecord(r: Record, q: seq<bool>): string
    requires |q| == |r|
  {
    Join(PrintFields(r, q))
  }

  predicate QuotesAll(records: seq<Record>, qs: seq<seq<bool>>) {
    |qs| == |records| && forall i :: 0 <= i < |records| ==> Quotes(records[i], qs[i])
  }

  /** Records separated by any of the three terminators; the last one may or may not have one. */
  function PrintTable(records: seq<Record>, qs: seq<seq<bool>>, terms: seq<Terminator>): string
    requires |records| - 1 <= |terms| <= |records| && QuotesAll(records, qs)
  {
    if records == [] then ""
    else if terms == [] then PrintRecord(records[0], qs[0])
    else PrintRecord(records[0], qs[0]) + Text(terms[0]) + PrintTable(records[1..], qs[1..], terms[1..])
  }

  /** What the splitter makes of a printed record: its fields joined by commas, the quotes gone. */
  function Bare(r: Record): string {
    Join(r)
  }

  function NonBlankLines(lines: seq<string>): seq<string> {
    if lines == [] then []
    else if Blank(lines[0]) then NonBlankLines(lines[1..])
    else [lines[0]] + NonBlankLines(lines[1..])
  }

  function ParseAll(lines: seq<string>): seq<seq<string>> {
    seq(|lines|, i requires 0 <= i < |lines| => Parse(lines[i]))
  }

  function TrimTable(records: seq<Record>): seq<seq<string>> {
    seq(|records|, i requires 0 <= i < |records| => TrimAll(records[i]))
  }

  function BareLines(records: seq<Record>): seq<string> {
    seq(|records|, i requires 0 <= i < |records| => Bare(records[i]))
  }

  /** The data rows `importContacts` sees: the lines after the header, blank ones dropped, parsed. */
  function DataRows(text: string): seq<seq<string>>
    requires |Split(text)| > 0
  {
    ParseAll(NonBlankLines(Split(text)[1..]))
  }

  predicate CleanRecord(r: Record) {
    forall i :: 0 <= i < |r| ==> Clean(r[i])
  }

  // ---------------------------------------------------------------- Splitting a printed table

  lemma {:induction false} SplitInsideQuotes(f: string, rest: string, cur: string, nl: bool)
    requires NoQuoteNext(rest)
    ensures SplitRest(Double(f) + "\"" + rest, cur, true, nl) == SplitRest(rest, cur + f, false, nl)
  {
    var text := Double(f) + "\"" + rest;
    if f == "" {
      assert text[1..] == rest && cur + f == cur;
    } else {
      var tail := Double(f[1..]) + "\"" + rest;
      SplitInsideQuotes(f[1..], rest, cur + [f[0]], nl);
      assert cur + [f[0]] + f[1..] == cur + f;
      if f[0] == '"' {
        assert text[2..] == tail && cur + "\"" == cur + [f[0]];
      } else {
        assert text[1..] == tail;
      }
    }
  }

  lemma SplitQuoted(f: string, rest: string, cur: string, nl: bool)
    requires NoQuoteNext(rest)
    ensures SplitRest(Quote(f) + rest, cur, false, nl) == SplitRest(rest, cur + f, false, nl)
  {
    assert (Quote(f) + rest)[1..] == Double(f) + "\"" + rest;
    SplitInsideQuotes(f, rest, cur, nl);
  }

  lemma {:induction false} SplitPlain(f: string, rest: string, cur: string, nl: bool)
    requires Plain(f)
    ensures SplitRest(f + rest, cur, false, nl) == SplitRest(rest, cur + f, false, nl)
    decreases |f|
  {
    if f == "" {
      assert f + rest == rest && cur + f == cur;
    } else {
      assert f[0] in f && forall c :: c in f[1..] ==> c in f;
      assert (f + rest)[1..] == f[1..] + rest && cur + [f[0]] + f[1..] == cur + f;
      SplitPlain(f[1..], rest, cur + [f[0]], nl);
    }
  }

  /** A field, printed either way, is collected as it is, whatever follows but a quote. */
  lemma SplitField(f: string, quoted: bool, rest: string, cur: string, nl: bool)
    requires NoQuoteNext(rest) && (quoted || Plain(f))
    ensures SplitRest((if quoted then Quote(f) else f) + rest, cur, false, nl) == SplitRest(rest, cur + f, false, nl)
  {
    if quoted { SplitQuoted(f, rest, cur, nl); } else { SplitPlain(f, rest, cur, nl); }
  }

  lemma SplitFieldAndComma(f: string, quoted: bool, more: string, cur: string, nl: bool)
    requires quoted || Plain(f)
    ensures SplitRest((if quoted then Quote(f) else f) + ("," + more), cur, false, nl)
            == SplitRest(more, cur + f + ",", false, nl)
  {
    SplitField(f, quoted, "," + more, cur, nl);
    assert ("," + more)[1..] == more;
  }

  lemma PrintCons(r: Record, q: seq<bool>, tail: Record)
    requires |r| > 1 && tail == r[1..] && |q| == |r|
    ensures PrintRecord(r, q) == (if q[0] then Quote(r[0]) else r[0]) + ("," + PrintRecord(tail, q[1..]))
    ensures Bare(r) == r[0] + ("," + Bare(tail))
  {
    assert PrintFields(r, q)[1..] == PrintFields(tail, q[1..]);
  }

  /** Line breaks inside quoted fields do not split; the splitter keeps the commas and drops the quotes. */
  lemma {:induction false} SplitRecord(r: Record, q: seq<bool>, rest: string, cur: string, nl: bool)
    requires NoQuoteNext(rest) && Quotes(r, q)
    ensures SplitRest(PrintRecord(r, q) + rest, cur, false, nl) == SplitRest(rest, cur + Bare(r), false, nl)
    decreases |r|
  {
    if |r| == 1 {
      SplitField(r[0], q[0], rest, cur, nl);
    } else {
      var tail: Record := r[1..];
      PrintCons(r, q, tail);
      var first, more := if q[0] then Quote(r[0]) else r[0], PrintRecord(tail, q[1..]) + rest;
      assert PrintRecord(r, q) + rest == first + ("," + more);
      SplitFieldAndComma(r[0], q[0], more, cur, nl);
      SplitRecord(tail, q[1..], rest, cur + r[0] + ",", nl);
      assert cur + r[0] + "," + Bare(tail) == cur + Bare(r);
    }
  }

  /** What is left to read after a terminator; a line feed right after a carriage return belongs to it. */
  function AfterBreak(t: Terminator, rest: string): string {
    if t == CR && rest != "" && rest[0] == '\n' then rest[1..] else rest
  }

  lemma SplitBreak(t: Terminator, rest: string, cur: string, nl: bool)
    ensures SplitRest(Text(t) + rest, cur, false, nl) == [cur] + SplitRest(AfterBreak(t, rest), "", false, nl)
  {
    var text := Text(t) + rest;
    match t
    case LF => assert text[1..] == rest;
    case CRLF => assert text[2..] == rest;
    case CR =>
      assert text[1..] == rest;
      if rest != "" && rest[0] == '\n' { assert text[2..] == rest[1..]; }
  }

  lemma SplitFirst(r: Record, q: seq<bool>, t: Terminator, rest: string, nl: bool)
    requires Quotes(r, q)
    ensures SplitRest(PrintRecord(r, q) + Text(t) + rest, "", false, nl)
            == [Bare(r)] + SplitRest(AfterBreak(t, rest), "", false, nl)
  {
    assert PrintRecord(r, q) + Text(t) + rest == PrintRecord(r, q) + (Text(t) + rest);
    SplitRecord(r, q, Text(t) + rest, "", nl);
    assert "" + Bare(r) == Bare(r);
    SplitBreak(t, rest, Bare(r), nl);
  }

  /** What a line feed swallowed by a carriage return takes away is a blank line. */
  lemma SwallowedIsBlank(t: Terminator, rest: string, nl: bool)
    ensures NonBlankLines(SplitRest(AfterBreak(t, rest), "", false, nl)) == NonBlankLines(SplitRest(rest, "", false, nl))
  {
    if t == CR && rest != "" && rest[0] == '\n' {
      var more := SplitRest(rest[1..], "", false, nl);
      assert SplitRest(rest, "", false, nl) == [""] + more;
      assert Blank("") && ([""] + more)[1..] == more;
    }
  }

  /** A last record without a terminator is a line unless it is empty. */
  lemma SplitLast(r: Record, q: seq<bool>, nl: bool)
    requires Quotes(r, q)
    ensures NonBlankLines(SplitRest(PrintRecord(r, q), "", false, nl)) == NonBlankLines([Bare(r)])
  {
    assert PrintRecord(r, q) == PrintRecord(r, q) + "";
    SplitRecord(r, q, "", "", nl);
    assert "" + Bare(r) == Bare(r) && Blank("");
  }

  lemma SplitMore(r: Record, q: seq<bool>, t: Terminator, rest: string, nl: bool, lines: seq<string>)
    requires Quotes(r, q) && NonBlankLines(SplitRest(rest, "", false, nl)) == NonBlankLines(lines)
    ensures NonBlankLines(SplitRest(PrintRecord(r, q) + Text(t) + rest, "", false, nl)) == NonBlankLines([Bare(r)] + lines)
  {
    SplitFirst(r, q, t, rest, nl);
    SwallowedIsBlank(t, rest, nl);
    var more := SplitRest(AfterBreak(t, rest), "", false, nl);
    assert ([Bare(r)] + more)[1..] == more && ([Bare(r)] + lines)[1..] == lines;
  }

  lemma SplitNothing(nl: bool)
    ensures NonBlankLines(SplitRest("", "", false, nl)) == []
  {
    assert Blank("");
  }

  /** Up to blank lines, the lines of a printed table are its records without their quotes. */
  lemma {:induction false} SplitTable(records: seq<Record>, qs: seq<seq<bool>>, terms: seq<Terminator>, nl: bool)
    requires |records| - 1 <= |terms| <= |records| && QuotesAll(records, qs)
    ensures NonBlankLines(SplitRest(PrintTable(records, qs, terms), "", false, nl)) == NonBlankLines(BareLines(records))
    decreases |records|
  {
    if records == [] {
      SplitNothing(nl);
    } else if terms == [] {
      assert BareLines(records) == [Bare(records[0])] && PrintTable(records, qs, terms) == PrintRecord(records[0], qs[0]);
      SplitLast(records[0], qs[0], nl);
    } else {
      SplitTable(records[1..], qs[1..], terms[1..], nl);
      SplitMore(records[0], qs[0], terms[0], PrintTable(records[1..], qs[1..], terms[1..]), nl, BareLines(records[1..]));
      assert BareLines(records) == [Bare(records[0])] + BareLines(records[1..]);
    }
  }

  // ---------------------------------------------------------------- Text without quotes

  predicate OneLine(line: string) {
    '"' !in line && '\n' !in line && '\r' !in line
  }

  /** Lines with terminators between them, no two of which can be read as one. */
  predicate LinesAndBreaks(lines: seq<string>, terms: seq<Terminator>) {
    && |lines| == |terms| + 1 && (forall i :: 0 <= i < |lines| ==> OneLine(lines[i]))
    && forall i :: 0 <= i < |terms| - 1 ==> !(terms[i] == CR && lines[i + 1] == "" && terms[i + 1] == LF)
  }

  function Lay(lines: seq<string>, terms: seq<Terminator>): string
    requires LinesAndBreaks(lines, terms)
  {
    if terms == [] then lines[0] else lines[0] + Text(terms[0]) + Lay(lines[1..], terms[1..])
  }

  lemma {:induction false} SplitOneLine(line: string, rest: string, cur: string, nl: bool)
    requires OneLine(line)
    ensures SplitRest(line + rest, cur, false, nl) == SplitRest(rest, cur + line, false, nl)
    decreases |line|
  {
    if line == "" {
      assert line + rest == rest && cur + line == cur;
    } else {
      assert line[0] in line && forall c :: c in line[1..] ==> c in line;
      assert (line + rest)[1..] == line[1..] + rest && cur + [line[0]] + line[1..] == cur + line;
      SplitOneLine(line[1..], rest, cur + [line[0]], nl);
    }
  }

  lemma LayStart(lines: seq<string>, terms: seq<Terminator>)
    requires LinesAndBreaks(lines, terms)
    ensures lines[0] != "" ==> Lay(lines, terms) != "" && Lay(lines, terms)[0] == lines[0][0] && lines[0][0] in lines[0]
    ensures lines[0] == "" && terms != [] ==> Lay(lines, terms) != "" && Lay(lines, terms)[0] == Text(terms[0])[0]
  {
  }

  /** No terminator swallows the one after it. */
  lemma NothingSwallowed(lines: seq<string>, terms: seq<Terminator>)
    requires LinesAndBreaks(lines, terms) && terms != []
    ensures LinesAndBreaks(lines[1..], terms[1..])
    ensures AfterBreak(terms[0], Lay(lines[1..], terms[1..])) == Lay(lines[1..], terms[1..])
  {
    LayStart(lines[1..], terms[1..]);
  }

  lemma SplitFirstLine(lines: seq<string>, terms: seq<Terminator>, nl: bool)
    requires LinesAndBreaks(lines, terms) && terms != []
    ensures LinesAndBreaks(lines[1..], terms[1..])
    ensures SplitRest(Lay(lines, terms), "", false, nl)
            == [lines[0]] + SplitRest(Lay(lines[1..], terms[1..]), "", false, nl)
  {
    NothingSwallowed(lines, terms);
    var rest := Lay(lines[1..], terms[1..]);
    assert Lay(lines, terms) == lines[0] + (Text(terms[0]) + rest) && "" + lines[0] == lines[0];
    SplitOneLine(lines[0], Text(terms[0]) + rest, "", nl);
    SplitBreak(terms[0], rest, lines[0], nl);
  }

  lemma {:induction false} SplitLaid(lines: seq<string>, terms: seq<Terminator>, nl: bool)
    requires LinesAndBreaks(lines, terms)
    ensures var last := lines[|lines| - 1];
            SplitRest(Lay(lines, terms), "", false, nl)
            == lines[..|lines| - 1] + (if last != "" || nl then [last] else [])
    decreases |lines|
  {
    if terms == [] {
      assert lines[0] == lines[0] + "" && "" + lines[0] == lines[0];
      SplitOneLine(lines[0], "", "", nl);
    } else {
      SplitFirstLine(lines, terms, nl);
      SplitLaid(lines[1..], terms[1..], nl);
      assert lines[..|lines| - 1] == [lines[0]] + lines[1..][..|lines| - 2];
    }
  }

  /** Any text without a quote is lines with terminators between them. */
  lemma {:induction false} EveryTextIsLaid(text: string) returns (lines: seq<string>, terms: seq<Terminator>)
    requires '"' !in text
    ensures LinesAndBreaks(lines, terms) && Lay(lines, terms) == text
    decreases |text|
  {
    if text == "" {
      lines, terms := [""], [];
    } else {
      assert text[0] in text && forall c :: c in text[1..] ==> c in text;
      if text[0] == '\n' || text[0] == '\r' {
        lines, terms := LayBreak(text);
      } else {
        lines, terms := EveryTextIsLaid(text[1..]);
        lines, terms := LayChar(text[0], lines, terms);
        assert [text[0]] + text[1..] == text;
      }
    }
  }

  lemma LayChar(c: char, lines: seq<string>, terms: seq<Terminator>) returns (lines': seq<string>, terms': seq<Terminator>)
    requires LinesAndBreaks(lines, terms) && c != '"' && c != '\n' && c != '\r'
    ensures LinesAndBreaks(lines', terms') && Lay(lines', terms') == [c] + Lay(lines, terms)
  {
    lines', terms' := [[c] + lines[0]] + lines[1..], terms;
    assert lines'[1..] == lines[1..];
    if terms != [] {
      assert Lay(lines', terms') == ([c] + lines[0]) + Text(terms[0]) + Lay(lines[1..], terms[1..]);
    }
  }

  lemma {:induction false} LayBreak(text: string) returns (lines: seq<string>, terms: seq<Terminator>)
    requires '"' !in text && text != "" && (text[0] == '\n' || text[0] == '\r')
    ensures LinesAndBreaks(lines, terms) && Lay(lines, terms) == text
    decreases |text|, 0
  {
    var t := if text[0] == '\n' then LF else if |text| > 1 && text[1] == '\n' then CRLF else CR;
    var rest := text[|Text(t)|..];
    assert text == Text(t) + rest && forall c :: c in rest ==> c in text;
    lines, terms := EveryTextIsLaid(rest);
    LayStart(lines, terms);
    lines, terms := LayTerminator(t, lines, terms);
  }

  lemma LayTerminator(t: Terminator, lines: seq<string>, terms: seq<Terminator>)
    returns (lines': seq<string>, terms': seq<Terminator>)
    requires LinesAndBreaks(lines, terms) && !(t == CR && terms != [] && lines[0] == "" && terms[0] == LF)
    ensures LinesAndBreaks(lines', terms') && Lay(lines', terms') == Text(t) + Lay(lines, terms)
  {
    lines', terms' := [""] + lines, [t] + terms;
    assert lines'[1..] == lines && terms'[1..] == terms;
    assert Lay(lines', terms') == "" + Text(t) + Lay(lines, terms);
  }

  /**
   For any text without a quote the lines are what lies between the terminators; a last line without
   one counts unless it is empty and no line feed ends the text.
   */
  lemma LinesLieBetweenBreaks(text: string) returns (lines: seq<string>, terms: seq<Terminator>)
    requires '"' !in text
    ensures LinesAndBreaks(lines, terms) && Lay(lines, terms) == text
    ensures var last := lines[|lines| - 1];
            Split(text) == lines[..|lines| - 1] + (if last != "" || (text != "" && text[|text| - 1] == '\n') then [last] else [])
  {
    lines, terms := EveryTextIsLaid(text);
    SplitLaid(lines, terms, EndsInNewline(text));
  }

  // ---------------------------------------------------------------- Which records survive the second reading

  function Count(s: string, c: char): nat {
    if s == "" then 0 else (if s[0] == c then 1 else 0) + Count(s[1..], c)
  }

  function CountAll(fields: seq<string>, c: char): nat {
    if fields == [] then 0 else Count(fields[0], c) + CountAll(fields[1..], c)
  }

  lemma {:induction false} CountConcat(a: string, b: string, c: char)
    ensures Count(a + b, c) == Count(a, c) + Count(b, c)
    decreases |a|
  {
    if a == "" {
      assert a + b == b;
    } else {
      assert (a + b)[1..] == a[1..] + b;
      CountConcat(a[1..], b, c);
    }
  }

  lemma {:induction false} CountZero(s: string, c: char)
    ensures Count(s, c) == 0 <==> c !in s
    decreases |s|
  {
    if s != "" {
      CountZero(s[1..], c);
      assert c in s <==> c == s[0] || c in s[1..];
    }
  }

  lemma {:induction false} TrimStartKeepsCount(s: string, c: char)
    requires !IsSpace(c)
    ensures Count(TrimStart(s), c) == Count(s, c)
    decreases |s|
  {
    if s != "" && IsSpace(s[0]) { TrimStartKeepsCount(s[1..], c); }
  }

  lemma {:induction false} TrimEndKeepsCount(s: string, c: char)
    requires !IsSpace(c)
    ensures Count(TrimEnd(s), c) == Count(s, c)
    decreases |s|
  {
    if s != "" && IsSpace(s[|s| - 1]) {
      TrimEndKeepsCount(s[..|s| - 1], c);
      assert s == s[..|s| - 1] + [s[|s| - 1]];
      CountConcat(s[..|s| - 1], [s[|s| - 1]], c);
    }
  }

  lemma TrimKeepsCount(s: string, c: char)
    requires !IsSpace(c)
    ensures Count(Trim(s), c) == Count(s, c)
  {
    TrimStartKeepsCount(s, c);
    TrimEndKeepsCount(TrimStart(s), c);
  }

  lemma {:induction false} TrimAllKeepsCount(fields: seq<string>, c: char)
    requires !IsSpace(c)
    ensures CountAll(TrimAll(fields), c) == CountAll(fields, c)
    decreases |fields|
  {
    if fields != [] {
      TrimKeepsCount(fields[0], c);
      assert TrimAll(fields)[1..] == TrimAll(fields[1..]);
      TrimAllKeepsCount(fields[1..], c);
    }
  }

  lemma {:induction false} JoinCount(r: Record, c: char)
    ensures Count(Join(r), c) == CountAll(r, c) + (if c == ',' then |r| - 1 else 0)
    decreases |r|
  {
    if |r| == 1 {
      assert r[1..] == [];
    } else {
      JoinCount(r[1..], c);
      CountConcat(r[0] + ",", Join(r[1..]), c);
      CountConcat(r[0], ",", c);
      assert ","[1..] == "";
    }
  }

  /** Parsing never creates quotes, and loses at least one as soon as there is one to read. */
  lemma {:induction false} ParseLosesQuotes(rest: string, cur: string, inQuotes: bool)
    ensures CountAll(ParseRest(rest, cur, inQuotes), '"') <= Count(cur, '"') + Count(rest, '"')
    ensures '"' in rest ==> CountAll(ParseRest(rest, cur, inQuotes), '"') < Count(cur, '"') + Count(rest, '"')
    decreases |rest|
  {
    if rest == "" {
      TrimKeepsCount(cur, '"');
      assert [Trim(cur)][1..] == [];
    } else if rest[0] == '"' {
      if inQuotes && |rest| > 1 && rest[1] == '"' {
        ParseLosesQuotes(rest[2..], cur + "\"", inQuotes);
        CountConcat(cur, "\"", '"');
        assert "\""[1..] == "" && rest[1..][1..] == rest[2..];
      } else {
        ParseLosesQuotes(rest[1..], cur, !inQuotes);
      }
    } else if rest[0] == ',' && !inQuotes {
      ParseLosesQuotes(rest[1..], "", inQuotes);
      TrimKeepsCount(cur, '"');
      var more := ParseRest(rest[1..], "", inQuotes);
      assert ([Trim(cur)] + more)[1..] == more;
      assert '"' in rest <==> '"' in rest[1..];
    } else {
      ParseLosesQuotes(rest[1..], cur + [rest[0]], inQuotes);
      CountConcat(cur, [rest[0]], '"');
      assert [rest[0]][1..] == "";
      assert '"' in rest <==> '"' in rest[1..];
    }
  }

  /** Without quotes every comma separates. */
  lemma {:induction false} ParseCountsCommas(rest: string, cur: string)
    requires '"' !in rest
    ensures |ParseRest(rest, cur, false)| == 1 + Count(rest, ',')
    decreases |rest|
  {
    if rest != "" {
      assert rest[0] in rest && forall c :: c in rest[1..] ==> c in rest;
      if rest[0] == ',' {
        ParseCountsCommas(rest[1..], "");
      } else {
        ParseCountsCommas(rest[1..], cur + [rest[0]]);
      }
    }
  }

  lemma {:induction false} CountAllZero(r: seq<string>, c: char)
    ensures CountAll(r, c) == 0 <==> forall i :: 0 <= i < |r| ==> c !in r[i]
    decreases |r|
  {
    if r != [] {
      CountZero(r[0], c);
      CountAllZero(r[1..], c);
      assert (forall i :: 0 <= i < |r| ==> c !in r[i])
        <==> c !in r[0] && forall i :: 0 <= i < |r[1..]| ==> c !in r[1..][i] by {
        assert forall i :: 1 <= i < |r| ==> r[i] == r[1..][i - 1];
      }
    }
  }

  /** A record's line parses back to its trimmed fields exactly when no field holds a quote or a comma. */
  lemma BareParsesBack(r: Record)
    ensures Parse(Bare(r)) == TrimAll(r) <==> CleanRecord(r)
  {
    CountAllZero(r, '"');
    CountAllZero(r, ',');
    JoinCount(r, '"');
    JoinCount(r, ',');
    CountZero(Bare(r), '"');
    if CleanRecord(r) {
      assert PrintFields(r, seq(|r|, i => false)) == r;
      ParseUndoesPrint(r, seq(|r|, i => false));
    } else if CountAll(r, '"') > 0 {
      ParseLosesQuotes(Bare(r), "", false);
      TrimAllKeepsCount(r, '"');
    } else {
      ParseCountsCommas(Bare(r), "");
    }
  }

  // ---------------------------------------------------------------- The round trip of a whole file

  predicate NoBlanks(lines: seq<string>) {
    forall i :: 0 <= i < |lines| ==> !Blank(lines[i])
  }

  lemma NoBlanksCons(lines: seq<string>)
    requires lines != []
    ensures NoBlanks(lines) <==> !Blank(lines[0]) && NoBlanks(lines[1..])
  {
    assert forall i :: 1 <= i < |lines| ==> lines[i] == lines[1..][i - 1];
  }

  lemma {:induction false} NonBlankKeepsAll(lines: seq<string>)
    ensures |NonBlankLines(lines)| <= |lines|
    ensures |NonBlankLines(lines)| == |lines| <==> NoBlanks(lines)
    ensures |NonBlankLines(lines)| == |lines| ==> NonBlankLines(lines) == lines
    decreases |lines|
  {
    if lines != [] {
      NonBlankKeepsAll(lines[1..]);
      NoBlanksCons(lines);
    }
  }

  /** A record the reader can give back: not blank, and no field holds a quote or a comma. */
  predicate Readable(r: Record) {
    !Blank(Bare(r)) && CleanRecord(r)
  }

  lemma LinesRoundTrip(records: seq<Record>)
    ensures ParseAll(NonBlankLines(BareLines(records))) == TrimTable(records)
            <==> forall i :: 0 <= i < |records| ==> Readable(records[i])
  {
    var lines := BareLines(records);
    var kept := NonBlankLines(lines);
    NonBlankKeepsAll(lines);
    if forall i :: 0 <= i < |records| ==> !Blank(lines[i]) {
      assert kept == lines;
      forall i | 0 <= i < |records| ensures ParseAll(kept)[i] == TrimTable(records)[i] <==> Readable(records[i]) {
        BareParsesBack(records[i]);
      }
      if forall i :: 0 <= i < |records| ==> Readable(records[i]) {
        assert forall i :: 0 <= i < |records| ==> ParseAll(kept)[i] == TrimTable(records)[i];
      }
    } else {
      assert |ParseAll(kept)| < |TrimTable(records)|;
    }
  }

  /**
   For any header and any records, printed with fields quoted or, where they may be, left as they are,
   and with any mix of LF, CRLF and CR terminators, the importer's data rows are the trimmed records
   exactly when every record is non-blank and no field holds a quote or a comma. Line breaks inside
   fields are harmless.
   */
  lemma FileRoundTrip(header: Record, records: seq<Record>, qs: seq<seq<bool>>, terms: seq<Terminator>)
    requires records != [] && |records| <= |terms| <= |records| + 1
    requires QuotesAll([header] + records, qs)
    ensures var text := PrintTable([header] + records, qs, terms);
            && |Split(text)| > 0 && Split(text)[0] == Bare(header)
            && (DataRows(text) == TrimTable(records) <==> forall i :: 0 <= i < |records| ==> Readable(records[i]))
  {
    var all: seq<Record> := [header] + records;
    var text := PrintTable(all, qs, terms);
    assert all[1..] == records && all[0] == header;
    var rest := PrintTable(records, qs[1..], terms[1..]);
    SplitFirst(header, qs[0], terms[0], rest, EndsInNewline(text));
    assert Split(text)[1..] == SplitRest(AfterBreak(terms[0], rest), "", false, EndsInNewline(text));
    SwallowedIsBlank(terms[0], rest, EndsInNewline(text));
    SplitTable(records, qs[1..], terms[1..], EndsInNewline(text));
    LinesRoundTrip(records);
  }
}
