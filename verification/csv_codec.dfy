/** The CSV cell codec: the escaping applied to exported values, the line
    parser applied to imported ones, and the joining and splitting of lines
    and cells. */
module CsvCodec {

  /** A value that must be quoted: it contains a comma, a newline or a
      double quote. */
  predicate NeedsQuotes(v: string)
  {
    ',' in v || '\n' in v || '"' in v
  }

  /** `v` with every double quote doubled. */
  function DoubleQuotes(v: string): string
  {
    if |v| == 0 then ""
    else if v[0] == '"' then "\"\"" + DoubleQuotes(v[1..])
    else [v[0]] + DoubleQuotes(v[1..])
  }

  /** The cell written for `v`: nothing for an empty value, `v` itself when
      it needs no quoting, and otherwise `v` in double quotes with its own
      double quotes doubled. */
  function Escape(v: string): (r: string)
    ensures v == "" ==> r == ""
    ensures !NeedsQuotes(v) ==> r == v
    ensures NeedsQuotes(v) ==> |r| >= 2 && r[0] == '"' && r[|r| - 1] == '"'
  {
    if v == "" then ""
    else if NeedsQuotes(v) then "\"" + DoubleQuotes(v) + "\""
    else v
  }

  /** The parser's state machine, run over the rest of the line: `inQuotes`
      tells whether an opening quote is pending, `cur` is the cell being
      read, `done` the cells completed. Inside quotes a doubled quote stands
      for one quote; any other quote toggles the quoting; a comma outside
      quotes ends a cell; the end of the line ends the last one. */
  function Scan(rest: string, inQuotes: bool, cur: string, done: seq<string>): (r: seq<string>)
    ensures |r| > |done| && r[..|done|] == done
    decreases |rest|
  {
    if |rest| == 0 then done + [cur]
    else if rest[0] == '"' then
      if inQuotes && |rest| > 1 && rest[1] == '"' then Scan(rest[2..], inQuotes, cur + "\"", done)
      else Scan(rest[1..], !inQuotes, cur, done)
    else if rest[0] == ',' && !inQuotes then Scan(rest[1..], inQuotes, "", done + [cur])
    else Scan(rest[1..], inQuotes, cur + [rest[0]], done)
  }

  /** The cells of one CSV line. */
  function ParseLine(line: string): (r: seq<string>)
    ensures |r| >= 1
  {
    Scan(line, false, "", [])
  }

  /** The line parser as the importer runs it: one left-to-right pass with
      a one-character look-ahead for doubled quotes. */
  method ParseCsvLine(line: string) returns (result: seq<string>)
    ensures result == ParseLine(line)
  {
    result := [];
    var current := "";
    var inQuotes := false;
    var i := 0;
    while i < |line|
      invariant 0 <= i <= |line|
      invariant Scan(line[i..], inQuotes, current, result) == ParseLine(line)
      decreases |line| - i
    {
      var c := line[i];
      if c == '"' {
        if inQuotes && i < |line| - 1 && line[i + 1] == '"' {
          current := current + "\"";
          i := i + 1;
        } else {
          inQuotes := !inQuotes;
        }
      } else if c == ',' && !inQuotes {
        result := result + [current];
        current := "";
      } else {
        current := current + [c];
      }
      i := i + 1;
    }
    result := result + [current];
  }

  /** The pieces of `s` between occurrences of `sep`, as `String.split`
      with a one-character separator returns them. */
  function Split(s: string, sep: char): (r: seq<string>)
    ensures |r| >= 1
    ensures forall i :: 0 <= i < |r| ==> sep !in r[i]
    decreases |s|
  {
    if |s| == 0 then [""]
    else
      var tail := Split(s[1..], sep);
      if s[0] == sep then [""] + tail
      else [[s[0]] + tail[0]] + tail[1..]
  }

  /** The pieces joined with `sep` between them, as `Array.join` does. */
  function Join(parts: seq<string>, sep: char): string
  {
    if |parts| == 0 then ""
    else if |parts| == 1 then parts[0]
    else parts[0] + [sep] + Join(parts[1..], sep)
  }

  /** The number of occurrences of `c` in `s`. */
  function Occurrences(s: string, c: char): nat
  {
    if |s| == 0 then 0 else (if s[0] == c then 1 else 0) + Occurrences(s[1..], c)
  }

  /** A line has at most one cell more than it has commas. */
  lemma {:induction false} ScanCount(rest: string, inQuotes: bool, cur: string, done: seq<string>)
    ensures |Scan(rest, inQuotes, cur, done)| <= |done| + 1 + Occurrences(rest, ',')
    decreases |rest|
  {
    if |rest| > 0 {
      if rest[0] == '"' {
        if inQuotes && |rest| > 1 && rest[1] == '"' {
          ScanCount(rest[2..], inQuotes, cur + "\"", done);
          assert rest[1..][1..] == rest[2..];
        } else {
          ScanCount(rest[1..], !inQuotes, cur, done);
        }
      } else if rest[0] == ',' && !inQuotes {
        ScanCount(rest[1..], inQuotes, "", done + [cur]);
      } else {
        ScanCount(rest[1..], inQuotes, cur + [rest[0]], done);
      }
    }
  }

  /** Splitting yields one more piece than there are separators. */
  lemma {:induction false} SplitCount(s: string, sep: char)
    ensures |Split(s, sep)| == Occurrences(s, sep) + 1
    decreases |s|
  {
    if |s| > 0 {
      SplitCount(s[1..], sep);
    }
  }

  /** Joining the pieces of a split gives back the text. */
  lemma {:induction false} JoinSplit(s: string, sep: char)
    ensures Join(Split(s, sep), sep) == s
    decreases |s|
  {
    if |s| > 0 {
      JoinSplit(s[1..], sep);
      var tail := Split(s[1..], sep);
      if s[0] == sep {
        assert s == [sep] + s[1..];
      } else {
        if |tail| == 1 {
          assert s == [s[0]] + s[1..];
        } else {
          assert Join(tail, sep) == tail[0] + [sep] + Join(tail[1..], sep);
          assert s == [s[0]] + s[1..];
        }
      }
    }
  }

  /** Splitting a join of separator-free pieces gives back the pieces. */
  lemma {:induction false} SplitJoin(parts: seq<string>, sep: char)
    requires |parts| >= 1
    requires forall i :: 0 <= i < |parts| ==> sep !in parts[i]
    ensures Split(Join(parts, sep), sep) == parts
    decreases |parts|
  {
    if |parts| == 1 {
      SplitFree(parts[0], [], sep);
      assert parts[0] + [] == parts[0];
    } else {
      SplitJoin(parts[1..], sep);
      var j := Join(parts[1..], sep);
      SplitFree(parts[0], [sep] + j, sep);
      assert parts[0] + [sep] + j == parts[0] + ([sep] + j);
      assert ([sep] + j)[0] == sep && ([sep] + j)[1..] == j;
      assert Split([sep] + j, sep) == [""] + parts[1..];
      assert parts[0] + "" == parts[0];
      assert parts == [parts[0]] + parts[1..];
    }
  }

  /** A separator-free prefix becomes the front of the first piece. */
  lemma {:induction false} SplitFree(p: string, rest: string, sep: char)
    requires sep !in p
    ensures Split(p + rest, sep) == [p + Split(rest, sep)[0]] + Split(rest, sep)[1..]
    decreases |p|
  {
    var tail := Split(rest, sep);
    if |p| == 0 {
      assert p + rest == rest;
      assert p + tail[0] == tail[0];
      assert tail == [tail[0]] + tail[1..];
    } else {
      assert (p + rest)[0] == p[0];
      assert (p + rest)[1..] == p[1..] + rest;
      SplitFree(p[1..], rest, sep);
      assert [p[0]] + (p[1..] + tail[0]) == p + tail[0];
    }
  }

  /** A character the cell needs no quoting for and the parser copies. */
  predicate PlainChar(c: char)
  {
    c != ',' && c != '"'
  }

  /** A cell written without escaping comes back unchanged when it holds no
      comma and no quote. */
  predicate Plain(v: string)
  {
    forall i :: 0 <= i < |v| ==> PlainChar(v[i])
  }

  /** `cell` is how `v` appears in a line: escaped, or written as it is
      when it is plain. */
  predicate Encodes(cell: string, v: string)
  {
    cell == Escape(v) || (cell == v && Plain(v))
  }

  /** Outside quotes the parser copies a plain stretch into the cell. */
  lemma {:induction false} ScanPlain(v: string, rest: string, cur: string, done: seq<string>)
    requires Plain(v)
    ensures Scan(v + rest, false, cur, done) == Scan(rest, false, cur + v, done)
    decreases |v|
  {
    if |v| == 0 {
      assert v + rest == rest;
      assert cur + v == cur;
    } else {
      assert (v + rest)[0] == v[0];
      assert (v + rest)[1..] == v[1..] + rest;
      ScanPlain(v[1..], rest, cur + [v[0]], done);
      assert cur + [v[0]] + v[1..] == cur + v;
    }
  }

  /** Inside quotes the parser turns doubled quotes back into single ones
      and copies everything else, commas and newlines included, until the
      closing quote. */
  lemma {:induction false} ScanQuoted(v: string, rest: string, cur: string, done: seq<string>)
    requires |rest| == 0 || rest[0] != '"'
    ensures Scan(DoubleQuotes(v) + "\"" + rest, true, cur, done) == Scan(rest, false, cur + v, done)
    decreases |v|
  {
    var line := DoubleQuotes(v) + "\"" + rest;
    if |v| == 0 {
      assert line == "\"" + rest;
      assert line[1..] == rest;
      assert cur + v == cur;
    } else if v[0] == '"' {
      assert line == "\"\"" + (DoubleQuotes(v[1..]) + "\"" + rest);
      assert line[2..] == DoubleQuotes(v[1..]) + "\"" + rest;
      ScanQuoted(v[1..], rest, cur + "\"", done);
      assert cur + "\"" + v[1..] == cur + v;
    } else {
      assert line == [v[0]] + (DoubleQuotes(v[1..]) + "\"" + rest);
      assert line[1..] == DoubleQuotes(v[1..]) + "\"" + rest;
      ScanQuoted(v[1..], rest, cur + [v[0]], done);
      assert cur + [v[0]] + v[1..] == cur + v;
    }
  }

  /** An encoded cell followed by a comma or the end of the line is read
      back as its value. */
  lemma ScanCell(cell: string, v: string, rest: string, cur: string, done: seq<string>)
    requires Encodes(cell, v)
    requires |rest| == 0 || rest[0] == ','
    ensures Scan(cell + rest, false, cur, done) == Scan(rest, false, cur + v, done)
  {
    if cell == Escape(v) && NeedsQuotes(v) {
      QuotedCellOpens(v, rest);
      ScanQuoted(v, rest, cur, done);
    } else {
      UnquotedCellPlain(cell, v);
      ScanPlain(v, rest, cur, done);
    }
  }

  /** A cell that is not quoted is its value, and the value is plain. */
  lemma UnquotedCellPlain(cell: string, v: string)
    requires Encodes(cell, v) && !(cell == Escape(v) && NeedsQuotes(v))
    ensures cell == v && Plain(v)
  {
    if cell == Escape(v) {
      forall i | 0 <= i < |v| ensures PlainChar(v[i]) {
        assert v[i] in v;
      }
    }
  }

  /** A quoted cell opens with a quote that the parser skips. */
  lemma QuotedCellOpens(v: string, rest: string)
    requires NeedsQuotes(v)
    ensures var line := Escape(v) + rest;
      line[0] == '"' && line[1..] == DoubleQuotes(v) + "\"" + rest
  {
    var line := Escape(v) + rest;
    assert v != "";
    assert line == "\"" + (DoubleQuotes(v) + "\"" + rest);
  }

  /** Each cell encodes the value at its position. */
  predicate AllEncode(cells: seq<string>, vs: seq<string>)
    decreases |cells|
  {
    |cells| == |vs| && (|cells| == 0 || (Encodes(cells[0], vs[0]) && AllEncode(cells[1..], vs[1..])))
  }

  /** The positionwise statement gives the recursive one. */
  lemma {:induction false} AllEncodeOf(cells: seq<string>, vs: seq<string>)
    requires |cells| == |vs|
    requires forall i :: 0 <= i < |cells| ==> Encodes(cells[i], vs[i])
    ensures AllEncode(cells, vs)
    decreases |cells|
  {
    if |cells| > 0 {
      assert Encodes(cells[0], vs[0]);
      AllEncodeOf(cells[1..], vs[1..]);
    }
  }

  /** A line of encoded cells separated by commas parses back into the
      values, wherever it starts in the scan. */
  lemma {:induction false} ScanCells(cells: seq<string>, vs: seq<string>, done: seq<string>)
    requires |cells| >= 1 && AllEncode(cells, vs)
    ensures Scan(Join(cells, ','), false, "", done) == done + vs
    decreases |cells|
  {
    if |cells| == 1 {
      ScanLastCell(cells, vs, done);
    } else {
      ScanFirstCell(cells, vs, done);
      ScanCells(cells[1..], vs[1..], done + [vs[0]]);
    }
  }

  /** A row's only cell reads back as its value. */
  lemma ScanLastCell(cells: seq<string>, vs: seq<string>, done: seq<string>)
    requires |cells| == 1 && AllEncode(cells, vs)
    ensures Scan(Join(cells, ','), false, "", done) == done + vs
  {
    var cell, v := cells[0], vs[0];
    ScanCell(cell, v, "", "", done);
    assert cell + "" == cell;
    assert "" + v == v;
    assert Join(cells, ',') == cell;
    assert done + vs == done + [v];
  }

  /** A row's first cell and its comma read back as its value, and reading
      goes on from the next cell. */
  lemma ScanFirstCell(cells: seq<string>, vs: seq<string>, done: seq<string>)
    requires |cells| >= 2 && AllEncode(cells, vs)
    ensures AllEncode(cells[1..], vs[1..]) && done + [vs[0]] + vs[1..] == done + vs
    ensures Scan(Join(cells, ','), false, "", done) == Scan(Join(cells[1..], ','), false, "", done + [vs[0]])
  {
    var cell, v, tail := cells[0], vs[0], Join(cells[1..], ',');
    assert Join(cells, ',') == cell + ([','] + tail);
    ScanCell(cell, v, [','] + tail, "", done);
    assert ([','] + tail)[1..] == tail;
    assert "" + v == v;
    AppendHead(done, vs);
  }

  /** Appending the head and then the rest is appending the whole. */
  lemma AppendHead<T>(done: seq<T>, vs: seq<T>)
    requires |vs| >= 1
    ensures done + [vs[0]] + vs[1..] == done + vs
  {
    assert vs == [vs[0]] + vs[1..];
  }

  /** Parsing a line of encoded cells returns the encoded values. */
  lemma RowRoundTrip(cells: seq<string>, vs: seq<string>)
    requires |cells| == |vs| >= 1
    requires forall i :: 0 <= i < |cells| ==> Encodes(cells[i], vs[i])
    ensures ParseLine(Join(cells, ',')) == vs
  {
    AllEncodeOf(cells, vs);
    ScanCells(cells, vs, []);
  }

  /** Escaping and parsing are inverse on a single value. */
  lemma EscapeRoundTrip(v: string)
    ensures ParseLine(Escape(v)) == [v]
  {
    RowRoundTrip([Escape(v)], [v]);
  }

  /** On a line without quotes the parser is a split at the commas: a line
      with k commas has k + 1 cells. */
  lemma QuoteFreeLine(line: string)
    requires '"' !in line
    ensures ParseLine(line) == Split(line, ',')
    ensures |ParseLine(line)| == Occurrences(line, ',') + 1
  {
    ScanUnquoted(line, "", []);
    SplitCount(line, ',');
    var pieces := Split(line, ',');
    assert "" + pieces[0] == pieces[0];
    assert [] + [pieces[0]] + pieces[1..] == pieces;
  }

  /** Without quotes the scan appends the comma-separated pieces, the first
      one extending the current cell. */
  lemma {:induction false} ScanUnquoted(rest: string, cur: string, done: seq<string>)
    requires '"' !in rest
    ensures Scan(rest, false, cur, done) == done + [cur + Split(rest, ',')[0]] + Split(rest, ',')[1..]
    decreases |rest|
  {
    if |rest| > 0 {
      assert rest == [rest[0]] + rest[1..];
      var tail := Split(rest[1..], ',');
      if rest[0] == ',' {
        ScanUnquoted(rest[1..], "", done + [cur]);
        assert cur + [] == cur;
        assert "" + tail[0] == tail[0];
        assert done + [cur] + [tail[0]] + tail[1..] == done + [cur] + tail;
      } else {
        ScanUnquoted(rest[1..], cur + [rest[0]], done);
        assert cur + [rest[0]] + tail[0] == cur + ([rest[0]] + tail[0]);
      }
    } else {
      assert cur + "" == cur;
    }
  }

  // ------------------------------------------------- quote-aware records

  /** The quoting state after reading `s` from state `inQuotes`: every
      quote toggles it. */
  function QuotesAfter(s: string, inQuotes: bool): bool
    decreases |s|
  {
    if |s| == 0 then inQuotes else QuotesAfter(s[1..], if s[0] == '"' then !inQuotes else inQuotes)
  }

  /** Reading `s` from state `inQuotes` meets no newline outside quotes. */
  predicate NoBareNewline(s: string, inQuotes: bool)
    decreases |s|
  {
    |s| == 0 || ((s[0] != '\n' || inQuotes) && NoBareNewline(s[1..], if s[0] == '"' then !inQuotes else inQuotes))
  }

  /** Text that leaves no quote open and has all its newlines inside
      quotes: one record, whatever it contains. */
  predicate Balanced(s: string)
  {
    !QuotesAfter(s, false) && NoBareNewline(s, false)
  }

  /** The records of a CSV text, cut at the newlines outside quotes; a
      quoted newline stays inside its record. */
  function Records(rest: string, inQuotes: bool, cur: string, done: seq<string>): (r: seq<string>)
    ensures |r| > |done|
    decreases |rest|
  {
    if |rest| == 0 then done + [cur]
    else if rest[0] == '\n' && !inQuotes then Records(rest[1..], false, "", done + [cur])
    else Records(rest[1..], if rest[0] == '"' then !inQuotes else inQuotes, cur + [rest[0]], done)
  }

  function SplitRecords(text: string): (r: seq<string>)
    ensures |r| >= 1
  {
    Records(text, false, "", [])
  }

  /** A stretch without a bare newline is copied into the current record. */
  lemma {:induction false} RecordsRun(s: string, rest: string, q: bool, cur: string, done: seq<string>)
    requires NoBareNewline(s, q)
    ensures Records(s + rest, q, cur, done) == Records(rest, QuotesAfter(s, q), cur + s, done)
    decreases |s|
  {
    if |s| == 0 {
      assert s + rest == rest && cur + s == cur;
    } else {
      assert (s + rest)[0] == s[0];
      assert (s + rest)[1..] == s[1..] + rest;
      RecordsRun(s[1..], rest, if s[0] == '"' then !q else q, cur + [s[0]], done);
      assert cur + [s[0]] + s[1..] == cur + s;
    }
  }

  lemma {:induction false} QuotesAfterAppend(a: string, b: string, q: bool)
    ensures QuotesAfter(a + b, q) == QuotesAfter(b, QuotesAfter(a, q))
    ensures NoBareNewline(a, q) && NoBareNewline(b, QuotesAfter(a, q)) ==> NoBareNewline(a + b, q)
    decreases |a|
  {
    if |a| == 0 {
      assert a + b == b;
    } else {
      assert (a + b)[0] == a[0];
      assert (a + b)[1..] == a[1..] + b;
      QuotesAfterAppend(a[1..], b, if a[0] == '"' then !q else q);
    }
  }

  /** Balanced stretches put together stay balanced. */
  lemma BalancedAppend(a: string, b: string)
    requires Balanced(a) && Balanced(b)
    ensures Balanced(a + b)
  {
    QuotesAfterAppend(a, b, false);
  }

  /** Text without quotes and newlines is balanced. */
  lemma {:induction false} BalancedPlain(v: string, q: bool)
    requires '"' !in v && '\n' !in v
    ensures QuotesAfter(v, q) == q && NoBareNewline(v, q)
    decreases |v|
  {
    if |v| > 0 {
      assert v == [v[0]] + v[1..];
      BalancedPlain(v[1..], q);
    }
  }

  /** Inside quotes the doubled-quote text of any value keeps the quote
      open and its newlines quoted. */
  lemma {:induction false} DoubledInside(v: string)
    ensures QuotesAfter(DoubleQuotes(v), true) && NoBareNewline(DoubleQuotes(v), true)
    decreases |v|
  {
    if |v| > 0 {
      DoubledInside(v[1..]);
      var d := DoubleQuotes(v[1..]);
      if v[0] == '"' {
        assert DoubleQuotes(v) == "\"\"" + d;
        assert (DoubleQuotes(v))[1..] == "\"" + d;
        assert ("\"" + d)[1..] == d;
      } else {
        assert DoubleQuotes(v) == [v[0]] + d;
        assert (DoubleQuotes(v))[1..] == d;
      }
    }
  }

  /** Every escaped value is one balanced stretch, newlines included. */
  lemma BalancedEscape(v: string)
    ensures Balanced(Escape(v))
  {
    if v != "" {
      if NeedsQuotes(v) {
        var d := DoubleQuotes(v);
        DoubledInside(v);
        QuotesAfterAppend("\"", d, false);
        QuotesAfterAppend("\"" + d, "\"", false);
      } else {
        BalancedPlain(v, false);
      }
    }
  }

  /** Balanced pieces joined with a separator other than a quote or a
      newline stay balanced. */
  lemma {:induction false} BalancedJoin(parts: seq<string>, sep: char)
    requires sep != '"' && sep != '\n'
    requires forall i :: 0 <= i < |parts| ==> Balanced(parts[i])
    ensures Balanced(Join(parts, sep))
    decreases |parts|
  {
    if |parts| == 0 {
    } else if |parts| > 1 {
      BalancedJoin(parts[1..], sep);
      BalancedPlain([sep], false);
      BalancedAppend(parts[0], [sep]);
      BalancedAppend(parts[0] + [sep], Join(parts[1..], sep));
    }
  }

  /** Balanced records joined with newlines are cut back into the same
      records. */
  lemma SplitRecordsJoin(records: seq<string>)
    requires |records| >= 1
    requires forall i :: 0 <= i < |records| ==> Balanced(records[i])
    ensures SplitRecords(Join(records, '\n')) == records
  {
    AllBalancedOf(records);
    RecordsJoin(records, []);
  }

  lemma {:induction false} RecordsJoin(records: seq<string>, done: seq<string>)
    requires |records| >= 1 && AllBalanced(records)
    ensures Records(Join(records, '\n'), false, "", done) == done + records
    decreases |records|
  {
    if |records| == 1 {
      RecordsLast(records, done);
    } else {
      RecordsFirst(records, done);
      RecordsJoin(records[1..], done + [records[0]]);
    }
  }

  /** Each record is balanced. */
  predicate AllBalanced(records: seq<string>)
    decreases |records|
  {
    |records| == 0 || (Balanced(records[0]) && AllBalanced(records[1..]))
  }

  /** The positionwise statement gives the recursive one. */
  lemma {:induction false} AllBalancedOf(records: seq<string>)
    requires forall i :: 0 <= i < |records| ==> Balanced(records[i])
    ensures AllBalanced(records)
    decreases |records|
  {
    if |records| > 0 {
      assert Balanced(records[0]);
      AllBalancedOf(records[1..]);
    }
  }

  /** A balanced last record is read whole. */
  lemma RecordsLast(records: seq<string>, done: seq<string>)
    requires |records| == 1 && AllBalanced(records)
    ensures Records(Join(records, '\n'), false, "", done) == done + records
  {
    var r := records[0];
    RecordsRun(r, "", false, "", done);
    assert r + "" == r && "" + r == r;
    assert Join(records, '\n') == r;
    assert done + records == done + [r];
  }

  /** A balanced record and the newline after it are read as that record,
      and reading goes on after the newline. */
  lemma RecordsFirst(records: seq<string>, done: seq<string>)
    requires |records| >= 2 && AllBalanced(records)
    ensures AllBalanced(records[1..]) && done + [records[0]] + records[1..] == done + records
    ensures Records(Join(records, '\n'), false, "", done) == Records(Join(records[1..], '\n'), false, "", done + [records[0]])
  {
    var r, tail := records[0], Join(records[1..], '\n');
    var nl := "\n" + tail;
    assert Join(records, '\n') == r + nl;
    RecordsRun(r, nl, false, "", done);
    assert "" + r == r;
    assert nl[0] == '\n' && nl[1..] == tail;
    AppendHead(done, records);
  }
}
