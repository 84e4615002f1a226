/**
 The hand-rolled CSV reader of `contactsController.js`: a quote-aware line splitter and a field
 parser, each a character loop, with what they recover of text printed per RFC 4180.
 */
module CsvText {

  /** The characters JavaScript's `trim` removes: white space and line terminators. */
  predicate IsSpace(c: char) {
    c == ' ' || '\t' <= c <= '\r' || c == '\U{00A0}' || c == '\U{1680}' || '\U{2000}' <= c <= '\U{200A}'
    || c == '\U{2028}' || c == '\U{2029}' || c == '\U{202F}' || c == '\U{205F}' || c == '\U{3000}' || c == '\U{FEFF}'
  }

  /** White space and line terminators by code point, as sections 12.2 and 12.3 of ECMA-262 list them. */
  const SPACES: set<int> := {9, 10, 11, 12, 13, 32, 160, 0x1680, 0x2000, 0x2001, 0x2002, 0x2003, 0x2004, 0x2005, 0x2006,
                             0x2007, 0x2008, 0x2009, 0x200A, 0x2028, 0x2029, 0x202F, 0x205F, 0x3000, 0xFEFF}

  lemma SpacesAreListed(c: char)
    ensures IsSpace(c) <==> c as int in SPACES
  {
  }

  function TrimStart(s: string): string {
    if s != "" && IsSpace(s[0]) then TrimStart(s[1..]) else s
  }

  function TrimEnd(s: string): string {
    if s != "" && IsSpace(s[|s| - 1]) then TrimEnd(s[..|s| - 1]) else s
  }

  function Trim(s: string): string {
    TrimEnd(TrimStart(s))
  }

  predicate Blank(s: string) {
    Trim(s) == ""
  }

  // ---------------------------------------------------------------- The two readers, as functions of the text left

  /** The lines `splitCsvLines` still pushes, with `cur` collected so far and `rest` to read. */
  function SplitRest(rest: string, cur: string, inQuotes: bool, endsInNewline: bool): seq<string>
    decreases |rest|
  {
    if rest == "" then
      if cur != "" || endsInNewline then [cur] else []
    else if rest[0] == '"' then
      if inQuotes && |rest| > 1 && rest[1] == '"' then SplitRest(rest[2..], cur + "\"", inQuotes, endsInNewline)
      else SplitRest(rest[1..], cur, !inQuotes, endsInNewline)
    else if (rest[0] == '\n' || (rest[0] == '\r' && |rest| > 1 && rest[1] == '\n')) && !inQuotes then
      [cur] + SplitRest(if rest[0] == '\r' then rest[2..] else rest[1..], "", inQuotes, endsInNewline)
    else if rest[0] == '\r' && !inQuotes then
      [cur] + SplitRest(rest[1..], "", inQuotes, endsInNewline)
    else SplitRest(rest[1..], cur + [rest[0]], inQuotes, endsInNewline)
  }

  function EndsInNewline(text: string): bool {
    text != "" && text[|text| - 1] == '\n'
  }

  function Split(text: string): seq<string> {
    SplitRest(text, "", false, EndsInNewline(text))
  }

  /** The fields `parseCsvFields` still pushes. */
  function ParseRest(rest: string, cur: string, inQuotes: bool): seq<string>
    decreases |rest|
  {
    if rest == "" then [Trim(cur)]
    else if rest[0] == '"' then
      if inQuotes && |rest| > 1 && rest[1] == '"' then ParseRest(rest[2..], cur + "\"", inQuotes)
      else ParseRest(rest[1..], cur, !inQuotes)
    else if rest[0] == ',' && !inQuotes then [Trim(cur)] + ParseRest(rest[1..], "", inQuotes)
    else ParseRest(rest[1..], cur + [rest[0]], inQuotes)
  }

  function Parse(line: string): seq<string> {
    ParseRest(line, "", false)
  }

  // ---------------------------------------------------------------- The loops

  lemma PushOne(pushed: seq<string>, line: string, more: seq<string>)
    ensures pushed + ([line] + more) == pushed + [line] + more
  {
  }

  method SplitCsvLines(text: string) returns (lines: seq<string>)
    ensures lines == Split(text)
  {
    lines := [];
    var current := "";
    var inQuotes := false;
    ghost var nl := EndsInNewline(text);
    var i := 0;
    while i < |text|
      invariant 0 <= i <= |text|
      invariant Split(text) == lines + SplitRest(text[i..], current, inQuotes, nl)
    {
      var ch := text[i];
      if ch == '"' {
        if inQuotes && i + 1 < |text| && text[i + 1] == '"' {
          current := current + "\"";
          i := i + 1;
        } else {
          inQuotes := !inQuotes;
        }
      } else if (ch == '\n' || (ch == '\r' && i + 1 < |text| && text[i + 1] == '\n')) && !inQuotes {
        if ch == '\r' {
          i := i + 1;
        }
        PushOne(lines, current, SplitRest(text[i + 1..], "", inQuotes, nl));
        lines := lines + [current];
        current := "";
      } else if ch == '\r' && !inQuotes {
        PushOne(lines, current, SplitRest(text[i + 1..], "", inQuotes, nl));
        lines := lines + [current];
        current := "";
      } else {
        current := current + [ch];
      }
      i := i + 1;
    }
    if current != "" || (|text| > 0 && text[|text| - 1] == '\n') {
      lines := lines + [current];
    }
  }

  method ParseCsvFields(line: string) returns (fields: seq<string>)
    ensures fields == Parse(line)
  {
    fields := [];
    var current := "";
    var inQuotes := false;
    var i := 0;
    while i < |line|
      invariant 0 <= i <= |line|
      invariant Parse(line) == fields + ParseRest(line[i..], current, inQuotes)
    {
      var ch := line[i];
      ghost var rest := line[i..];
      assert rest[0] == ch && rest[1..] == line[i + 1..];
      assert i + 1 < |line| ==> rest[1] == line[i + 1] && rest[2..] == line[i + 2..];
      if ch == '"' {
        if inQuotes && i + 1 < |line| && line[i + 1] == '"' {
          current := current + "\"";
          i := i + 1;
        } else {
          inQuotes := !inQuotes;
        }
      } else if ch == ',' && !inQuotes {
        fields := fields + [Trim(current)];
        current := "";
      } else {
        current := current + [ch];
      }
      i := i + 1;
    }
    fields := fields + [Trim(current)];
  }

  // ---------------------------------------------------------------- Printing per section 2 of RFC 4180

  function Double(f: string): string {
    if f == "" then "" else (if f[0] == '"' then "\"\"" else [f[0]]) + Double(f[1..])
  }

  function Quote(f: string): string {
    "\"" + Double(f) + "\""
  }

  /** Neither quotes nor commas: a field that survives the splitter's loss of quotes. */
  predicate Clean(f: string) {
    '"' !in f && ',' !in f
  }

  function Join(fields: seq<string>): string
    requires fields != []
  {
    if |fields| == 1 then fields[0] else fields[0] + "," + Join(fields[1..])
  }

  /** Each field is printed quoted or as it is, as `quoted` says. */
  function PrintFields(fields: seq<string>, quoted: seq<bool>): seq<string>
    requires |quoted| == |fields|
  {
    seq(|fields|, i requires 0 <= i < |fields| => if quoted[i] then Quote(fields[i]) else fields[i])
  }

  function TrimAll(fields: seq<string>): seq<string> {
    seq(|fields|, i requires 0 <= i < |fields| => Trim(fields[i]))
  }

  /** After a closing quote the readers look one character ahead; it must not be a quote. */
  predicate NoQuoteNext(rest: string) {
    rest == "" || rest[0] != '"'
  }

  lemma {:induction false} ParseInsideQuotes(f: string, rest: string, cur: string)
    requires NoQuoteNext(rest)
    ensures ParseRest(Double(f) + "\"" + rest, cur, true) == ParseRest(rest, cur + f, false)
  {
    var text := Double(f) + "\"" + rest;
    if f == "" {
      assert text[1..] == rest && cur + f == cur;
    } else {
      var tail := Double(f[1..]) + "\"" + rest;
      ParseInsideQuotes(f[1..], rest, cur + [f[0]]);
      assert cur + [f[0]] + f[1..] == cur + f;
      if f[0] == '"' {
        assert text[2..] == tail && cur + "\"" == cur + [f[0]];
      } else {
        assert text[1..] == tail;
      }
    }
  }

  lemma ParseQuoted(f: string, rest: string)
    requires NoQuoteNext(rest)
    ensures ParseRest(Quote(f) + rest, "", false) == ParseRest(rest, f, false)
  {
    assert (Quote(f) + rest)[1..] == Double(f) + "\"" + rest;
    ParseInsideQuotes(f, rest, "");
    assert "" + f == f;
  }

  lemma {:induction false} ParsePlain(f: string, rest: string, cur: string)
    requires Clean(f)
    ensures ParseRest(f + rest, cur, false) == ParseRest(rest, cur + f, false)
    decreases |f|
  {
    if f == "" {
      assert f + rest == rest && cur + f == cur;
    } else {
      assert f[0] in f && forall c :: c in f[1..] ==> c in f;
      assert (f + rest)[1..] == f[1..] + rest && cur + [f[0]] + f[1..] == cur + f;
      ParsePlain(f[1..], rest, cur + [f[0]]);
    }
  }

  /** The first field, printed either way, is read up to what follows it. */
  lemma ParseFirst(f: string, quoted: bool, rest: string)
    requires NoQuoteNext(rest) && (quoted || Clean(f))
    ensures ParseRest((if quoted then Quote(f) else f) + rest, "", false) == ParseRest(rest, f, false)
  {
    if quoted {
      ParseQuoted(f, rest);
    } else {
      ParsePlain(f, rest, "");
      assert "" + f == f;
    }
  }

  lemma PrintedCons(fields: seq<string>, quoted: seq<bool>)
    requires |fields| > 1 && |quoted| == |fields|
    ensures Join(PrintFields(fields, quoted))
            == (if quoted[0] then Quote(fields[0]) else fields[0]) + ("," + Join(PrintFields(fields[1..], quoted[1..])))
    ensures TrimAll(fields) == [Trim(fields[0])] + TrimAll(fields[1..])
  {
    assert PrintFields(fields, quoted)[1..] == PrintFields(fields[1..], quoted[1..]);
  }

  /**
   `parseCsvFields` undoes RFC 4180 printing: any list of fields, each quoted (whatever it holds)
   or, if it holds neither quote nor comma, left as it is, comes back trimmed.
   */
  lemma {:induction false} ParseUndoesPrint(fields: seq<string>, quoted: seq<bool>)
    requires fields != [] && |quoted| == |fields|
    requires forall i :: 0 <= i < |fields| && !quoted[i] ==> Clean(fields[i])
    ensures Parse(Join(PrintFields(fields, quoted))) == TrimAll(fields)
    decreases |fields|
  {
    var first := if quoted[0] then Quote(fields[0]) else fields[0];
    if |fields| == 1 {
      assert Join(PrintFields(fields, quoted)) == first + "" && TrimAll(fields) == [Trim(fields[0])];
      ParseFirst(fields[0], quoted[0], "");
    } else {
      PrintedCons(fields, quoted);
      var more := Join(PrintFields(fields[1..], quoted[1..]));
      ParseFirst(fields[0], quoted[0], "," + more);
      ParseUndoesPrint(fields[1..], quoted[1..]);
      assert ("," + more)[1..] == more;
    }
  }
}
