/** Transaction export to CSV text and the import that merges such text
    back into the keyed transaction store. */
module CsvImport {
  import opened Results
  import opened Seqs
  import opened CsvCodec

  /** A stored transaction as the CSV layout carries it. An absent memo or
      creation time is the empty string. */
  datatype Record = Record(
    id: string,
    date: string,
    description: string,
    amount: int,
    debitAccount: string,
    creditAccount: string,
    memo: string,
    createdAt: string)

  /** The column names, in export order; an import needs all of them. */
  const Headers: seq<string> := ["id", "date", "description", "amount", "debitAccount", "creditAccount", "memo", "createdAt"]

  // ---------------------------------------------------------------- export

  /** The decimal digits of `n`. */
  function Digits(n: nat): (r: string)
    ensures |r| >= 1
    ensures forall i :: 0 <= i < |r| ==> '0' <= r[i] <= '9'
  {
    if n < 10 then ["0123456789"[n]] else Digits(n / 10) + ["0123456789"[n % 10]]
  }

  /** An integral amount written the way a number is turned into text. */
  function AmountText(a: int): (r: string)
    ensures Plain(r) && '\n' !in r
  {
    if a < 0 then "-" + Digits(-a) else Digits(a)
  }

  /** The cells of an exported row: id, date, amount and creation time are
      written as they are, the other text columns escaped. */
  function Cells(r: Record): seq<string>
  {
    [r.id, r.date, Escape(r.description), AmountText(r.amount),
     Escape(r.debitAccount), Escape(r.creditAccount), Escape(r.memo), r.createdAt]
  }

  /** The values a row carries, in column order. */
  function Values(r: Record): seq<string>
  {
    [r.id, r.date, r.description, AmountText(r.amount),
     r.debitAccount, r.creditAccount, r.memo, r.createdAt]
  }

  /** One exported line: the cells separated by commas. */
  function ExportRow(r: Record): string
  {
    Join(Cells(r), ',')
  }

  /** The lines of `rows`, each followed by a newline. */
  function Terminated(rows: seq<string>): string
  {
    if |rows| == 0 then "" else Terminated(rows[..|rows| - 1]) + rows[|rows| - 1] + "\n"
  }

  datatype ExportError = NothingToExport

  /** The header line of the export: the column names separated by
      commas. */
  const HeaderLine: string := Join(Headers, ',')

  /** The export file: refused for an empty store, otherwise the header
      line and one line per record, every line ending in a newline. */
  function ExportText(recs: seq<Record>): (r: Result<string, ExportError>)
    ensures r.Err? <==> |recs| == 0
    ensures r.Ok? ==> r.value == Join([HeaderLine] + RowsOf(recs) + [""], '\n')
  {
    if |recs| == 0 then Err(NothingToExport)
    else
      RowsJoin(HeaderLine, RowsOf(recs));
      Ok(HeaderLine + "\n" + Terminated(RowsOf(recs)))
  }

  /** The header line parses back into the column names and holds no
      newline. */
  lemma HeaderLineColumns()
    ensures ParseLine(HeaderLine) == Headers
    ensures '\n' !in HeaderLine
  {
    forall i | 0 <= i < |Headers| ensures Encodes(Headers[i], Headers[i]) && '\n' !in Headers[i] {
      assert Plain(Headers[i]);
    }
    RowRoundTrip(Headers, Headers);
    JoinFree(Headers, ',', '\n');
  }

  /** The exported rows, one per record. */
  function RowsOf(recs: seq<Record>): (r: seq<string>)
    ensures |r| == |recs|
    ensures forall i :: 0 <= i < |recs| ==> r[i] == ExportRow(recs[i])
  {
    if |recs| == 0 then [] else RowsOf(recs[..|recs| - 1]) + [ExportRow(recs[|recs| - 1])]
  }

  /** Accumulating "row, newline" after a header line and a newline is
      joining the lines with newlines, the last line empty. */
  lemma {:induction false} RowsJoin(head: string, rows: seq<string>)
    ensures head + "\n" + Terminated(rows) == Join([head] + rows + [""], '\n')
  {
    if |rows| == 0 {
      assert [head] + rows + [""] == [head, ""];
      assert Join([head, ""], '\n') == head + "\n" + "";
    } else {
      var init := rows[..|rows| - 1];
      var row := rows[|rows| - 1];
      var p := [head] + init;
      RowsJoin(head, init);
      JoinSnoc(p, "", '\n');
      JoinSnoc(p, row, '\n');
      JoinSnoc(p + [row], "", '\n');
      assert rows == init + [row];
      assert [head] + rows + [""] == (p + [row]) + [""];
      var j := Join(p, '\n');
      assert head + "\n" + Terminated(init) == j + "\n" + "";
      calc {
        Join([head] + rows + [""], '\n');
        Join(p + [row], '\n') + "\n" + "";
        j + "\n" + row + "\n" + "";
        (j + "\n" + "") + row + "\n";
        head + "\n" + Terminated(init) + row + "\n";
        head + "\n" + (Terminated(init) + row + "\n");
      }
    }
  }

  /** Joining one more piece appends a separator and the piece. */
  lemma {:induction false} JoinSnoc(parts: seq<string>, p: string, sep: char)
    requires |parts| >= 1
    ensures Join(parts + [p], sep) == Join(parts, sep) + [sep] + p
    decreases |parts|
  {
    if |parts| == 1 {
      assert parts + [p] == [parts[0], p];
    } else {
      assert (parts + [p])[1..] == parts[1..] + [p];
      JoinSnoc(parts[1..], p, sep);
    }
  }

  /** When no exported row holds a newline, splitting the export text at
      newlines gives the header line, the rows, and an empty last line. */
  lemma ExportLines(recs: seq<Record>)
    requires |recs| > 0
    requires forall i :: 0 <= i < |recs| ==> '\n' !in ExportRow(recs[i])
    ensures Split(ExportText(recs).value, '\n') == [HeaderLine] + RowsOf(recs) + [""]
  {
    HeaderLineFree();
    SplitLines(HeaderLine, RowsOf(recs));
  }

  /** The header line holds no newline. */
  lemma HeaderLineFree()
    ensures '\n' !in HeaderLine
  {
    forall i | 0 <= i < |Headers| ensures '\n' !in Headers[i] {
      assert Plain(Headers[i]);
    }
    JoinFree(Headers, ',', '\n');
  }

  lemma SplitLines(head: string, rows: seq<string>)
    requires '\n' !in head
    requires forall i :: 0 <= i < |rows| ==> '\n' !in rows[i]
    ensures Split(Join([head] + rows + [""], '\n'), '\n') == [head] + rows + [""]
  {
    LinesFree(head, rows);
    SplitJoin([head] + rows + [""], '\n');
  }

  /** A header line and rows without newlines, then an empty line: no line
      holds a newline. */
  lemma LinesFree(head: string, rows: seq<string>)
    requires '\n' !in head
    requires forall i :: 0 <= i < |rows| ==> '\n' !in rows[i]
    ensures forall i :: 0 <= i < |rows| + 2 ==> '\n' !in ([head] + rows + [""])[i]
  {
    var lines := [head] + rows + [""];
    forall i | 0 <= i < |lines| ensures '\n' !in lines[i] {
      if 1 <= i <= |rows| {
        assert lines[i] == rows[i - 1];
      }
    }
  }

  /** A join of pieces free of `c`, with a separator other than `c`, is
      free of `c`. */
  lemma {:induction false} JoinFree(parts: seq<string>, sep: char, c: char)
    requires sep != c
    requires forall i :: 0 <= i < |parts| ==> c !in parts[i]
    ensures c !in Join(parts, sep)
    decreases |parts|
  {
    if |parts| > 1 {
      JoinFree(parts[1..], sep, c);
      assert parts[1..][0] == parts[1];
    }
  }

  /** A row parses back into its values when the columns written without
      escaping hold no comma and no quote. */
  lemma ExportRowParses(r: Record)
    requires Plain(r.id) && Plain(r.date) && Plain(r.createdAt)
    ensures ParseLine(ExportRow(r)) == Values(r)
  {
    var cells := Cells(r);
    var vs := Values(r);
    forall i | 0 <= i < |cells| ensures Encodes(cells[i], vs[i]) {
    }
    RowRoundTrip(cells, vs);
  }

  // ---------------------------------------------------------------- import

  /** The characters `String.prototype.trim` removes: white space and line
      terminators. */
  const SpaceChars: set<char> := {
    '\t', '\n', '\U{000B}', '\U{000C}', '\r', ' ', '\U{00A0}', '\U{1680}',
    '\U{2000}', '\U{2001}', '\U{2002}', '\U{2003}', '\U{2004}', '\U{2005}',
    '\U{2006}', '\U{2007}', '\U{2008}', '\U{2009}', '\U{200A}',
    '\U{2028}', '\U{2029}', '\U{202F}', '\U{205F}', '\U{3000}', '\U{FEFF}'
  }

  predicate Space(c: char)
  {
    c in SpaceChars
  }

  /** `s` without its leading white space. */
  function TrimStart(s: string): (r: string)
    ensures |r| <= |s|
    ensures |r| == 0 || !Space(r[0])
    ensures |r| > 0 ==> r[|r| - 1] == s[|s| - 1]
  {
    if |s| > 0 && Space(s[0]) then TrimStart(s[1..]) else s
  }

  /** Trimming the front keeps a suffix. */
  lemma {:induction false} TrimStartKeeps(s: string)
    ensures forall k :: 0 <= k < |TrimStart(s)| ==> TrimStart(s)[k] == s[|s| - |TrimStart(s)| + k]
  {
    if |s| > 0 && Space(s[0]) {
      var t := s[1..];
      var u := TrimStart(t);
      TrimStartKeeps(t);
      forall k | 0 <= k < |u| ensures u[k] == s[|s| - |u| + k] {
        assert u[k] == t[|t| - |u| + k];
        assert t[|t| - |u| + k] == s[|s| - |u| + k];
      }
    }
  }

  /** Trimming the front drops only white space. */
  lemma {:induction false} TrimStartDrops(s: string)
    ensures forall k :: 0 <= k < |s| - |TrimStart(s)| ==> Space(s[k])
  {
    if |s| > 0 && Space(s[0]) {
      TrimStartDrops(s[1..]);
      assert forall k :: 1 <= k < |s| ==> s[k] == s[1..][k - 1];
    }
  }

  /** `s` without its trailing white space. */
  function TrimEnd(s: string): (r: string)
    ensures |r| <= |s|
    ensures |r| == 0 || !Space(r[|r| - 1])
    ensures |r| > 0 ==> r[0] == s[0]
  {
    if |s| > 0 && Space(s[|s| - 1]) then TrimEnd(s[..|s| - 1]) else s
  }

  /** Trimming the back keeps a prefix. */
  lemma {:induction false} TrimEndKeeps(s: string)
    ensures forall k :: 0 <= k < |TrimEnd(s)| ==> TrimEnd(s)[k] == s[k]
  {
    if |s| > 0 && Space(s[|s| - 1]) {
      TrimEndKeeps(s[..|s| - 1]);
    }
  }

  /** Trimming the back drops only white space. */
  lemma {:induction false} TrimEndDrops(s: string)
    ensures forall k :: |TrimEnd(s)| <= k < |s| ==> Space(s[k])
  {
    if |s| > 0 && Space(s[|s| - 1]) {
      TrimEndDrops(s[..|s| - 1]);
      assert forall k :: 0 <= k < |s| - 1 ==> s[k] == s[..|s| - 1][k];
    }
  }

  /** Everything before `i` and from `j` on is white space. */
  predicate SpaceAround(s: string, i: int, j: int)
    requires 0 <= i <= j <= |s|
  {
    (forall k :: 0 <= k < i ==> Space(s[k])) && (forall k :: j <= k < |s| ==> Space(s[k]))
  }

  /** `r` is the part of `s` between `i` and `j`, with only white space
      outside it. */
  predicate CutBetween(s: string, i: int, j: int, r: string)
  {
    0 <= i <= j <= |s| && r == s[i..j] && SpaceAround(s, i, j)
  }

  /** `s` without its leading and trailing white space: the middle of `s`
      from its first to its last visible character. */
  function Trim(s: string): (r: string)
    ensures |r| <= |s|
    ensures |r| == 0 || (!Space(r[0]) && !Space(r[|r| - 1]))
    ensures exists i, j :: CutBetween(s, i, j, r)
  {
    TrimCuts(s);
    TrimEnd(TrimStart(s))
  }

  /** The two trims cut `s` at a pair of points with only white space
      outside them. */
  lemma TrimCuts(s: string)
    ensures exists i, j :: CutBetween(s, i, j, TrimEnd(TrimStart(s)))
  {
    var i := |s| - |TrimStart(s)|;
    var j := i + |TrimEnd(TrimStart(s))|;
    TrimMiddle(s);
    TrimOutside(s);
    assert CutBetween(s, i, j, TrimEnd(TrimStart(s)));
  }

  /** What the two trims keep is a contiguous part of `s`. */
  lemma TrimMiddle(s: string)
    ensures var i := |s| - |TrimStart(s)|;
      TrimEnd(TrimStart(s)) == s[i..i + |TrimEnd(TrimStart(s))|]
  {
    var u := TrimStart(s);
    var r := TrimEnd(u);
    TrimStartKeeps(s);
    TrimEndKeeps(u);
    var i := |s| - |u|;
    var m := s[i..i + |r|];
    forall k | 0 <= k < |r| ensures r[k] == m[k] {
      assert r[k] == u[k];
      assert u[k] == s[i + k];
    }
    assert r == m;
  }

  /** What the two trims drop is white space. */
  lemma TrimOutside(s: string)
    ensures var i := |s| - |TrimStart(s)|;
      SpaceAround(s, i, i + |TrimEnd(TrimStart(s))|)
  {
    var u := TrimStart(s);
    var r := TrimEnd(u);
    TrimStartDrops(s);
    TrimStartKeeps(s);
    TrimEndDrops(u);
    var i := |s| - |u|;
    forall k | i + |r| <= k < |s| ensures Space(s[k]) {
      assert u[k - i] == s[k];
    }
  }

  /** A line trims to nothing exactly when it is all white space. */
  lemma {:induction false} BlankIsAllSpace(s: string)
    ensures Trim(s) == "" <==> forall i :: 0 <= i < |s| ==> Space(s[i])
  {
    StartAllSpace(s);
    EndAllSpace(TrimStart(s));
  }

  lemma {:induction false} StartAllSpace(s: string)
    ensures TrimStart(s) == "" <==> forall i :: 0 <= i < |s| ==> Space(s[i])
  {
    if |s| > 0 && Space(s[0]) {
      StartAllSpace(s[1..]);
      assert forall i :: 1 <= i < |s| ==> s[i] == s[1..][i - 1];
    }
  }

  lemma {:induction false} EndAllSpace(s: string)
    ensures TrimEnd(s) == "" <==> forall i :: 0 <= i < |s| ==> Space(s[i])
  {
    if |s| > 0 && Space(s[|s| - 1]) {
      EndAllSpace(s[..|s| - 1]);
      assert forall i :: 0 <= i < |s| - 1 ==> s[i] == s[..|s| - 1][i];
    }
  }

  /** Trimming leaves a line alone that starts and ends with visible
      characters. */
  lemma TrimKeeps(s: string)
    requires |s| > 0 && !Space(s[0]) && !Space(s[|s| - 1])
    ensures Trim(s) == s
  {
  }

  /** The cell under column `j`; absent when the line has fewer cells. */
  function CellAt(values: seq<string>, j: int): (c: Option<string>)
    ensures c.Some? <==> 0 <= j < |values|
  {
    if 0 <= j < |values| then Some(values[j]) else None
  }

  /** The text columns a stored transaction keeps. */
  predicate TextColumn(name: string)
  {
    name == "id" || name == "date" || name == "description" || name == "debitAccount"
    || name == "creditAccount" || name == "memo" || name == "createdAt"
  }

  /** The object assembled from a line: the cell last seen under each
      column other than `amount` (`None` where that cell was absent), and
      the amount last parsed. */
  datatype Draft = Draft(cells: map<string, Option<string>>, amount: Option<int>)

  /** The cell the draft holds under a column name; `None` for a name no
      column carried. */
  function Get(d: Draft, name: string): Option<string>
  {
    if name in d.cells then d.cells[name] else None
  }

  /** The draft with the cell stored under a column name. */
  function Put(d: Draft, name: string, c: Option<string>): (r: Draft)
    ensures r.amount == d.amount
    ensures forall other :: Get(r, other) == if other == name then c else Get(d, other)
  {
    d.(cells := d.cells[name := c])
  }

  /** Column `j` is an `amount` column whose cell is absent or does not
      parse. */
  predicate AmountFails(headers: seq<string>, values: seq<string>, parse: string -> Option<int>, j: int)
    requires 0 <= j < |headers|
  {
    headers[j] == "amount" && (CellAt(values, j).None? || parse(CellAt(values, j).value).None?)
  }

  /** No column after `j` among the first `n` carries the same name. */
  predicate LastOfName(headers: seq<string>, n: int, j: int)
    requires 0 <= j < n <= |headers|
  {
    forall k :: j < k < n ==> headers[k] != headers[j]
  }

  /** The first `n` columns copied onto the draft, in column order: a text
      column stores its cell under its name, replacing an earlier one of the
      same name, and an `amount` column parses its cell or stops the row with
      the offending cell. */
  function Assemble(headers: seq<string>, values: seq<string>, parse: string -> Option<int>, n: nat): (r: Result<Draft, Option<string>>)
    requires n <= |headers|
    ensures r.Err? <==> exists j :: 0 <= j < n && AmountFails(headers, values, parse, j)
    ensures r.Ok? ==> r.value.amount.Some? ==> "amount" in headers[..n]
    ensures r.Ok? ==> forall j :: 0 <= j < n && headers[j] != "amount" && LastOfName(headers, n, j) ==>
      Get(r.value, headers[j]) == CellAt(values, j)
    ensures r.Ok? ==> forall j :: 0 <= j < n && headers[j] == "amount" ==>
      r.value.amount.Some?
      && (LastOfName(headers, n, j) ==> CellAt(values, j).Some? && r.value.amount == parse(CellAt(values, j).value))
  {
    if n == 0 then Ok(Draft(map[], None))
    else
      var h := headers[n - 1];
      var c := CellAt(values, n - 1);
      assert headers[..n] == headers[..n - 1] + [h];
      match Assemble(headers, values, parse, n - 1)
      case Err(e) => Err(e)
      case Ok(d) =>
        if h == "amount" then
          if c.Some? && parse(c.value).Some? then Ok(d.(amount := parse(c.value)))
          else
            assert AmountFails(headers, values, parse, n - 1);
            Err(c)
        else Ok(Put(d, h, c))
  }

  /** The text stored under a column name; an absent cell reads as empty. */
  function TextOf(d: Draft, name: string): string
  {
    Get(d, name).GetOr("")
  }

  /** The fields a stored transaction must carry: id, date, description,
      amount and both accounts. */
  predicate Complete(d: Draft)
  {
    TextOf(d, "id") != "" && TextOf(d, "date") != "" && TextOf(d, "description") != ""
    && d.amount.Some? && TextOf(d, "debitAccount") != "" && TextOf(d, "creditAccount") != ""
  }

  function RecordOf(d: Draft): Record
    requires d.amount.Some?
  {
    Record(TextOf(d, "id"), TextOf(d, "date"), TextOf(d, "description"), d.amount.value,
      TextOf(d, "debitAccount"), TextOf(d, "creditAccount"), TextOf(d, "memo"), TextOf(d, "createdAt"))
  }

  /** The text field of a record that a text column fills. */
  function FieldOf(rec: Record, name: string): string
  {
    if name == "id" then rec.id
    else if name == "date" then rec.date
    else if name == "description" then rec.description
    else if name == "debitAccount" then rec.debitAccount
    else if name == "creditAccount" then rec.creditAccount
    else if name == "memo" then rec.memo
    else if name == "createdAt" then rec.createdAt
    else ""
  }

  /** Column `name` occurs, and the cell under its last occurrence is
      present and not empty. */
  predicate Filled(headers: seq<string>, values: seq<string>, name: string)
  {
    exists j :: 0 <= j < |headers| && headers[j] == name && LastOfName(headers, |headers|, j)
      && CellAt(values, j).GetOr("") != ""
  }

  /** Every field a stored transaction needs is supplied: a non-empty id,
      date, description, debit and credit account, and an `amount`
      column. */
  predicate RequiredFilled(headers: seq<string>, values: seq<string>)
  {
    && Filled(headers, values, "id") && Filled(headers, values, "date")
    && Filled(headers, values, "description") && "amount" in headers
    && Filled(headers, values, "debitAccount") && Filled(headers, values, "creditAccount")
  }

  /** A text column the first `n` columns do not name stays unset. */
  lemma {:induction false} AssembleAbsent(headers: seq<string>, values: seq<string>, parse: string -> Option<int>, n: nat, name: string)
    requires n <= |headers| && Assemble(headers, values, parse, n).Ok?
    requires name !in headers[..n]
    ensures Get(Assemble(headers, values, parse, n).value, name).None?
  {
    if n > 0 {
      var h := headers[n - 1];
      assert headers[..n] == headers[..n - 1] + [h];
      assert h != name;
      AssembleAbsent(headers, values, parse, n - 1, name);
    }
  }

  /** A column name that occurs has a last occurrence. */
  lemma {:induction false} LastExists(headers: seq<string>, n: nat, name: string)
    requires n <= |headers| && name in headers[..n]
    ensures exists j :: 0 <= j < n && headers[j] == name && LastOfName(headers, n, j)
  {
    if headers[n - 1] == name {
      assert LastOfName(headers, n, n - 1);
    } else {
      assert headers[..n] == headers[..n - 1] + [headers[n - 1]];
      LastExists(headers, n - 1, name);
      var j :| 0 <= j < n - 1 && headers[j] == name && LastOfName(headers, n - 1, j);
      assert LastOfName(headers, n, j);
    }
  }

  /** A text column's field of the assembled draft is non-empty exactly
      when the column is filled. */
  lemma FilledText(headers: seq<string>, values: seq<string>, parse: string -> Option<int>, name: string)
    requires Assemble(headers, values, parse, |headers|).Ok? && TextColumn(name)
    ensures TextOf(Assemble(headers, values, parse, |headers|).value, name) != "" <==> Filled(headers, values, name)
  {
    var n := |headers|;
    var d := Assemble(headers, values, parse, n).value;
    assert headers[..n] == headers;
    if name in headers {
      LastExists(headers, n, name);
      var j :| 0 <= j < n && headers[j] == name && LastOfName(headers, n, j);
      assert Get(d, headers[j]) == CellAt(values, j);
    } else {
      AssembleAbsent(headers, values, parse, n, name);
    }
  }

  /** Each text field of the record made from a draft is the text the
      draft holds under that column name. */
  lemma FieldOfRecord(d: Draft, name: string)
    requires d.amount.Some? && TextColumn(name)
    ensures FieldOf(RecordOf(d), name) == TextOf(d, name)
  {
  }

  /** An assembled draft is complete exactly when the required fields are
      filled. */
  lemma DraftComplete(headers: seq<string>, values: seq<string>, parse: string -> Option<int>)
    requires Assemble(headers, values, parse, |headers|).Ok?
    ensures Complete(Assemble(headers, values, parse, |headers|).value) <==> RequiredFilled(headers, values)
  {
    var n := |headers|;
    assert headers[..n] == headers;
    FilledText(headers, values, parse, "id");
    FilledText(headers, values, parse, "date");
    FilledText(headers, values, parse, "description");
    FilledText(headers, values, parse, "debitAccount");
    FilledText(headers, values, parse, "creditAccount");
    if "amount" in headers {
      var j :| 0 <= j < n && headers[j] == "amount";
    }
  }

  /** The record made from an assembled draft holds, in each text field,
      the cell under the last column of its name, or the empty text when no
      column has that name. */
  lemma DraftFields(headers: seq<string>, values: seq<string>, parse: string -> Option<int>)
    requires Assemble(headers, values, parse, |headers|).Ok?
    requires Assemble(headers, values, parse, |headers|).value.amount.Some?
    ensures var d := Assemble(headers, values, parse, |headers|).value;
      forall j :: 0 <= j < |headers| && TextColumn(headers[j]) && LastOfName(headers, |headers|, j) ==>
        FieldOf(RecordOf(d), headers[j]) == CellAt(values, j).GetOr("")
    ensures var d := Assemble(headers, values, parse, |headers|).value;
      forall name :: TextColumn(name) && name !in headers ==> FieldOf(RecordOf(d), name) == ""
  {
    var n := |headers|;
    var d := Assemble(headers, values, parse, n).value;
    assert headers[..n] == headers;
    forall j | 0 <= j < n && TextColumn(headers[j]) && LastOfName(headers, n, j)
      ensures FieldOf(RecordOf(d), headers[j]) == CellAt(values, j).GetOr("")
    {
      FieldOfRecord(d, headers[j]);
    }
    forall name | TextColumn(name) && name !in headers
      ensures FieldOf(RecordOf(d), name) == ""
    {
      FieldOfRecord(d, name);
      AssembleAbsent(headers, values, parse, n, name);
    }
  }

  /** Why a data line was not imported. */
  datatype RowError = TooFewValues | BadAmount(cell: Option<string>) | MissingField

  /** One trimmed, non-blank data line turned into a record: refused when
      it has fewer cells than there are expected columns, when an amount
      cell does not parse, or when a required field is empty. */
  function ImportRow(headers: seq<string>, line: string, parse: string -> Option<int>): (r: Result<Record, RowError>)
    ensures r == Err(TooFewValues) <==> |ParseLine(line)| < |Headers|
    ensures r.Err? && r.error.BadAmount? <==>
      |ParseLine(line)| >= |Headers| && exists j :: 0 <= j < |headers| && AmountFails(headers, ParseLine(line), parse, j)
    ensures r.Ok? ==>
      r.value.id != "" && r.value.date != "" && r.value.description != ""
      && r.value.debitAccount != "" && r.value.creditAccount != ""
  {
    var values := ParseLine(line);
    if |values| < |Headers| then Err(TooFewValues)
    else match Assemble(headers, values, parse, |headers|)
      case Err(c) => Err(BadAmount(c))
      case Ok(d) => if Complete(d) then Ok(RecordOf(d)) else Err(MissingField)
  }

  /** What a data line imports as: too short exactly when it has fewer
      cells than there are expected columns; a bad amount exactly when it
      is long enough and an amount cell is absent or does not parse; a
      missing field exactly when neither holds and a required field is not
      filled. An accepted record holds, in each text field, the cell under
      the last column of that name (empty when the cell or the column is
      absent), and as its amount the parse of the last `amount` cell. */
  lemma ImportRowMeaning(headers: seq<string>, line: string, parse: string -> Option<int>)
    ensures var r := ImportRow(headers, line, parse);
      r == Err(TooFewValues) <==> |ParseLine(line)| < |Headers|
    ensures var r := ImportRow(headers, line, parse);
      r.Err? && r.error.BadAmount? <==>
        |ParseLine(line)| >= |Headers| && exists j :: 0 <= j < |headers| && AmountFails(headers, ParseLine(line), parse, j)
    ensures ImportRow(headers, line, parse) == Err(MissingField) <==>
      && |ParseLine(line)| >= |Headers|
      && (forall j :: 0 <= j < |headers| ==> !AmountFails(headers, ParseLine(line), parse, j))
      && !RequiredFilled(headers, ParseLine(line))
    ensures var r := ImportRow(headers, line, parse);
      r.Ok? ==> forall j :: 0 <= j < |headers| && TextColumn(headers[j]) && LastOfName(headers, |headers|, j) ==>
        FieldOf(r.value, headers[j]) == CellAt(ParseLine(line), j).GetOr("")
    ensures var r := ImportRow(headers, line, parse);
      r.Ok? ==> forall name :: TextColumn(name) && name !in headers ==> FieldOf(r.value, name) == ""
    ensures var r := ImportRow(headers, line, parse);
      r.Ok? ==> "amount" in headers && forall j :: 0 <= j < |headers| && headers[j] == "amount" && LastOfName(headers, |headers|, j) ==>
        CellAt(ParseLine(line), j).Some? && parse(CellAt(ParseLine(line), j).value) == Some(r.value.amount)
  {
    var values := ParseLine(line);
    if |values| >= |Headers| {
      var a := Assemble(headers, values, parse, |headers|);
      if a.Ok? {
        DraftComplete(headers, values, parse);
        assert headers[..|headers|] == headers;
        if Complete(a.value) {
          DraftFields(headers, values, parse);
        }
      }
    }
  }

  /** A refused data line, numbered from 1 for the header line. */
  datatype LineError = LineError(line: nat, cause: RowError)

  /** The counts an import reports, and the store it leaves. */
  datatype Outcome = Outcome(added: nat, updated: nat, errors: seq<LineError>, store: map<string, Record>)

  /** A line that is not blank once trimmed. */
  predicate NonBlank(line: string)
  {
    Trim(line) != ""
  }

  /** What a data line yields: nothing for a blank line, otherwise the
      record or the reason it was refused. */
  function ReadLine(headers: seq<string>, line: string, parse: string -> Option<int>): (r: Option<Result<Record, RowError>>)
    ensures r.None? <==> !NonBlank(line)
  {
    var t := Trim(line);
    if t == "" then None else Some(ImportRow(headers, t, parse))
  }

  /** One data line's yield applied to the running outcome: a refused line
      is logged with its number, and an accepted record is put over the
      stored one with its id (an update) or added (an addition). */
  function Apply(o: Outcome, number: nat, y: Option<Result<Record, RowError>>): Outcome
  {
    match y
    case None => o
    case Some(Err(e)) => o.(errors := o.errors + [LineError(number, e)])
    case Some(Ok(r)) =>
      if r.id in o.store then o.(updated := o.updated + 1, store := o.store[r.id := r])
      else o.(added := o.added + 1, store := o.store[r.id := r])
  }

  /** A step counts a yielding line exactly once. */
  lemma ApplyCounts(o: Outcome, number: nat, y: Option<Result<Record, RowError>>)
    ensures var o' := Apply(o, number, y);
      o'.added + o'.updated + |o'.errors| == o.added + o.updated + |o.errors| + (if y.Some? then 1 else 0)
  {
  }

  /** A step keeps every stored id, and adds one exactly when it counts an
      addition. An accepted record is put under its id, counted as an
      update when the id was stored and as an addition otherwise; a blank
      or refused line leaves the store and both counters alone. */
  lemma ApplyKeys(o: Outcome, number: nat, y: Option<Result<Record, RowError>>)
    ensures var o' := Apply(o, number, y);
      o.store.Keys <= o'.store.Keys && |o'.store.Keys| == |o.store.Keys| + (o'.added - o.added)
    ensures var o' := Apply(o, number, y);
      y.Some? && y.value.Ok? ==>
        var r := y.value.value;
        && o'.store == o.store[r.id := r]
        && (r.id in o.store ==> o'.updated == o.updated + 1 && o'.added == o.added)
        && (r.id !in o.store ==> o'.added == o.added + 1 && o'.updated == o.updated)
    ensures var o' := Apply(o, number, y);
      !(y.Some? && y.value.Ok?) ==>
        o'.store == o.store && o'.added == o.added && o'.updated == o.updated
  {
    match y
    case None =>
    case Some(Err(e)) =>
    case Some(Ok(r)) =>
      if r.id !in o.store {
        assert o.store[r.id := r].Keys == o.store.Keys + {r.id};
      } else {
        assert o.store[r.id := r].Keys == o.store.Keys;
      }
  }

  /** A step logs at most one error, for a yielding line, and keeps the
      earlier ones. */
  lemma ApplyErrors(o: Outcome, number: nat, y: Option<Result<Record, RowError>>)
    ensures var o' := Apply(o, number, y);
      |o.errors| <= |o'.errors| <= |o.errors| + 1 && o'.errors[..|o.errors|] == o.errors
      && (|o'.errors| > |o.errors| ==> y.Some? && o'.errors[|o.errors|].line == number)
  {
    if y.Some? && y.value.Err? {
      assert (o.errors + [LineError(number, y.value.error)])[..|o.errors|] == o.errors;
    }
  }

  /** The accounting an import of `lines[1..n]` into `store` keeps: every
      non-blank data line counted exactly once, as an addition, an update
      or an error; additions exactly the new ids; every error naming a
      non-blank data line by its number. */
  predicate Accounted(lines: seq<string>, store: map<string, Record>, n: nat, o: Outcome)
    requires 1 <= n <= |lines|
  {
    o.added + o.updated + |o.errors| == |Filter(lines[1..n], NonBlank)|
    && store.Keys <= o.store.Keys
    && |o.store.Keys| == |store.Keys| + o.added
    && forall i :: 0 <= i < |o.errors| ==> 2 <= o.errors[i].line <= n && NonBlank(lines[o.errors[i].line - 1])
  }

  /** The data lines `lines[1..n]` applied in order to `store`. */
  function ImportLines(headers: seq<string>, lines: seq<string>, parse: string -> Option<int>, store: map<string, Record>, n: nat): Outcome
    requires 1 <= n <= |lines|
  {
    if n == 1 then Outcome(0, 0, [], store)
    else Apply(ImportLines(headers, lines, parse, store, n - 1), n, ReadLine(headers, lines[n - 1], parse))
  }

  /** How one line reads under the given header columns and amount parser. */
  function Reader(headers: seq<string>, parse: string -> Option<int>): string -> Option<Result<Record, RowError>>
  {
    (line: string) => ReadLine(headers, line, parse)
  }

  /** The records `read` yields for the data lines `lines[1..n]`, in line
      order: a line read as nothing or as a refusal yields none. */
  function Kept(read: string -> Option<Result<Record, RowError>>, lines: seq<string>, n: nat): (recs: seq<Record>)
    requires 1 <= n <= |lines|
    ensures |recs| <= n - 1
  {
    if n == 1 then []
    else
      var prev := Kept(read, lines, n - 1);
      match read(lines[n - 1])
      case Some(Ok(r)) => prev + [r]
      case _ => prev
  }

  /** The records the data lines `lines[1..n]` yield, in line order:
      blank and refused lines yield none. */
  function Accepted(headers: seq<string>, lines: seq<string>, parse: string -> Option<int>, n: nat): (recs: seq<Record>)
    requires 1 <= n <= |lines|
    ensures |recs| <= n - 1
  {
    Kept(Reader(headers, parse), lines, n)
  }

  /** The store an import leaves is the old store with the accepted records
      put over it one by one, in line order, each under its id. */
  lemma {:induction false} ImportStore(headers: seq<string>, lines: seq<string>, parse: string -> Option<int>, store: map<string, Record>, n: nat)
    requires 1 <= n <= |lines|
    ensures ImportLines(headers, lines, parse, store, n).store == Upsert(store, Accepted(headers, lines, parse, n))
  {
    if n > 1 {
      ImportStore(headers, lines, parse, store, n - 1);
      var prev := Accepted(headers, lines, parse, n - 1);
      var y := ReadLine(headers, lines[n - 1], parse);
      assert Reader(headers, parse)(lines[n - 1]) == y;
      ApplyKeys(ImportLines(headers, lines, parse, store, n - 1), n, y);
      if y.Some? && y.value.Ok? {
        var recs := prev + [y.value.value];
        assert recs[..|recs| - 1] == prev;
      }
    }
  }

  /** The import of `lines[1..n]` keeps the accounting: every non-blank
      data line counted exactly once, additions exactly the new ids, and
      every error naming a non-blank data line. */
  lemma {:induction false} ImportAccounted(headers: seq<string>, lines: seq<string>, parse: string -> Option<int>, store: map<string, Record>, n: nat)
    requires 1 <= n <= |lines|
    ensures Accounted(lines, store, n, ImportLines(headers, lines, parse, store, n))
  {
    if n > 1 {
      ImportAccounted(headers, lines, parse, store, n - 1);
      StepKeepsCounts(lines, store, n, ImportLines(headers, lines, parse, store, n - 1), ReadLine(headers, lines[n - 1], parse));
    }
  }

  /** The accounting carried over one more line. */
  lemma StepKeepsCounts(lines: seq<string>, store: map<string, Record>, n: nat, o: Outcome, y: Option<Result<Record, RowError>>)
    requires 2 <= n <= |lines|
    requires y.None? <==> !NonBlank(lines[n - 1])
    requires Accounted(lines, store, n - 1, o)
    ensures Accounted(lines, store, n, Apply(o, n, y))
  {
    CountKept(lines, store, n, o, y);
    ApplyKeys(o, n, y);
    ErrorsKept(lines, store, n, o, y);
  }

  /** The count carried over one more line. */
  lemma CountKept(lines: seq<string>, store: map<string, Record>, n: nat, o: Outcome, y: Option<Result<Record, RowError>>)
    requires 2 <= n <= |lines|
    requires y.None? <==> !NonBlank(lines[n - 1])
    requires o.added + o.updated + |o.errors| == |Filter(lines[1..n - 1], NonBlank)|
    ensures var o' := Apply(o, n, y);
      o'.added + o'.updated + |o'.errors| == |Filter(lines[1..n], NonBlank)|
  {
    ApplyCounts(o, n, y);
    CountStep(lines, n);
  }

  /** The log carried over one more line. */
  lemma ErrorsKept(lines: seq<string>, store: map<string, Record>, n: nat, o: Outcome, y: Option<Result<Record, RowError>>)
    requires 2 <= n <= |lines|
    requires y.None? <==> !NonBlank(lines[n - 1])
    requires forall i :: 0 <= i < |o.errors| ==> 2 <= o.errors[i].line <= n - 1 && NonBlank(lines[o.errors[i].line - 1])
    ensures var o' := Apply(o, n, y);
      forall i :: 0 <= i < |o'.errors| ==> 2 <= o'.errors[i].line <= n && NonBlank(lines[o'.errors[i].line - 1])
  {
    ApplyErrors(o, n, y);
    ErrorsStep(lines, n, o.errors, Apply(o, n, y).errors);
  }

  /** One more data line adds one to the non-blank count exactly when it is
      not blank. */
  lemma CountStep(lines: seq<string>, n: nat)
    requires 2 <= n <= |lines|
    ensures |Filter(lines[1..n], NonBlank)| == |Filter(lines[1..n - 1], NonBlank)| + (if NonBlank(lines[n - 1]) then 1 else 0)
  {
    var line := lines[n - 1];
    assert lines[1..n] == lines[1..n - 1] + [line];
    FilterAppend(lines[1..n - 1], [line], NonBlank);
    assert [line][1..] == [];
  }

  /** Extending the log by at most one entry for line `n`, a non-blank
      line, keeps every entry pointing at a non-blank data line. */
  lemma ErrorsStep(lines: seq<string>, n: nat, before: seq<LineError>, after: seq<LineError>)
    requires 2 <= n <= |lines|
    requires forall i :: 0 <= i < |before| ==> 2 <= before[i].line <= n - 1 && NonBlank(lines[before[i].line - 1])
    requires |before| <= |after| <= |before| + 1 && after[..|before|] == before
    requires |after| > |before| ==> NonBlank(lines[n - 1]) && after[|before|].line == n
    ensures forall i :: 0 <= i < |after| ==> 2 <= after[i].line <= n && NonBlank(lines[after[i].line - 1])
  {
    forall i | 0 <= i < |after|
      ensures 2 <= after[i].line <= n && NonBlank(lines[after[i].line - 1])
    {
      if i < |before| {
        assert after[i] == after[..|before|][i];
      }
    }
  }

  /** Why an import was refused as a whole. */
  datatype ImportError = NoData | MissingHeaders(names: seq<string>)

  /** The expected column names missing from `headers`, in expected order. */
  function Missing(headers: seq<string>): (r: seq<string>)
    ensures forall h :: h in r <==> h in Headers && h !in headers
  {
    Filter(Headers, (h: string) => h !in headers)
  }

  /** An import of `lines`: refused without a data line or when the first
      line lacks an expected column name; otherwise every later line is
      applied to the store. The first line is not trimmed; data lines are. */
  function ImportFrom(lines: seq<string>, store: map<string, Record>, parse: string -> Option<int>): (r: Result<Outcome, ImportError>)
    ensures |lines| < 2 ==> r == Err(NoData)
    ensures r.Err? && r.error.MissingHeaders? ==>
      |r.error.names| > 0 && forall h :: h in r.error.names <==> h in Headers && h !in ParseLine(lines[0])
  {
    if |lines| < 2 then Err(NoData)
    else
      var headers := ParseLine(lines[0]);
      var missing := Missing(headers);
      if |missing| > 0 then Err(MissingHeaders(missing))
      else Ok(ImportLines(headers, lines, parse, store, |lines|))
  }

  /** With a data line present, the import is refused exactly when the
      first line lacks an expected column name. */
  lemma RefusedIffMissing(lines: seq<string>, store: map<string, Record>, parse: string -> Option<int>)
    requires |lines| >= 2
    ensures ImportFrom(lines, store, parse).Err? <==> exists h :: h in Headers && h !in ParseLine(lines[0])
  {
    var missing := Missing(ParseLine(lines[0]));
    if |missing| > 0 {
      assert missing[0] in missing;
    }
  }

  /** The import as written: the text is cut into lines at every newline,
      quoted or not. */
  function ProcessImport(text: string, store: map<string, Record>, parse: string -> Option<int>): Result<Outcome, ImportError>
  {
    ImportFrom(Split(text, '\n'), store, parse)
  }

  /** The import with records cut at the newlines outside quotes only, so
      that a quoted value keeps its newlines. */
  function ProcessImportQuoteAware(text: string, store: map<string, Record>, parse: string -> Option<int>): Result<Outcome, ImportError>
  {
    ImportFrom(SplitRecords(text), store, parse)
  }

  // ------------------------------------------------ a newline in a value

  /** An exportable record whose description is a single newline. */
  const Broken: Record := Record("1", "d", "\n", 0, "a", "b", "", "")

  /** The two pieces its exported row falls into at the newline. */
  const BrokenHead: string := "1,d,\""
  const BrokenTail: string := "\",0,a,b,,"

  /** The cells of the record: only the newline needs quoting. */
  lemma BrokenCells()
    ensures Cells(Broken) == ["1", "d", "\"\n\"", "0", "a", "b", "", ""]
  {
    assert Escape("\n") == "\"\n\"";
    assert AmountText(0) == "0";
  }

  /** The cells joined from the last one back, whatever the third is. */
  lemma JoinBroken(e: string)
    ensures Join(["1", "d", e, "0", "a", "b", "", ""], ',') == "1,d," + e + ",0,a,b,,"
  {
    var c := ["1", "d", e, "0", "a", "b", "", ""];
    assert Join(c[6..], ',') == ",";
    assert Join(c[5..], ',') == "b,,";
    assert Join(c[4..], ',') == "a,b,,";
    assert Join(c[3..], ',') == "0,a,b,,";
    assert Join(c[2..], ',') == e + ",0,a,b,,";
    assert Join(c[1..], ',') == "d," + e + ",0,a,b,,";
  }

  /** The escaped newline sits inside quotes, so the row is the first
      piece, a newline, and the second piece. */
  lemma BrokenRow()
    ensures ExportRow(Broken) == BrokenHead + "\n" + BrokenTail
  {
    BrokenCells();
    JoinBroken("\"\n\"");
    assert "1,d," + "\"\n\"" + ",0,a,b,," == BrokenHead + "\n" + BrokenTail;
  }

  /** Neither piece has enough cells for a record. */
  lemma BrokenPiecesShort()
    ensures Trim(BrokenHead) == BrokenHead && |ParseLine(BrokenHead)| < |Headers|
    ensures Trim(BrokenTail) == BrokenTail && |ParseLine(BrokenTail)| < |Headers|
  {
    TrimKeeps(BrokenHead);
    TrimKeeps(BrokenTail);
    ScanCount(BrokenHead, false, "", []);
    ScanCount(BrokenTail, false, "", []);
    assert Occurrences(BrokenHead, ',') == 2;
    assert Occurrences(BrokenTail, ',') == 5;
  }

  /** Three lines joined with newlines. */
  lemma JoinThree(a: string, b: string, c: string)
    ensures Join([a, b, c], '\n') == a + "\n" + b + "\n" + c
  {
    assert [a, b, c][1..] == [b, c];
    assert [b, c][1..] == [c];
    assert Join([b, c], '\n') == b + "\n" + c;
  }

  /** Four lines joined with newlines. */
  lemma JoinFour(a: string, b: string, c: string, d: string)
    ensures Join([a, b, c, d], '\n') == a + "\n" + b + "\n" + c + "\n" + d
  {
    assert [a, b, c, d][1..] == [b, c, d];
    JoinThree(b, c, d);
  }

  /** A row holding a newline joins like the two pieces around it. */
  lemma JoinCut(h: string, p: string, q: string)
    ensures Join([h, p + "\n" + q, ""], '\n') == Join([h, p, q, ""], '\n')
  {
    JoinThree(h, p + "\n" + q, "");
    JoinFour(h, p, q, "");
  }

  /** The data lines of the cut export: both pieces are refused as too
      short, and the empty last line is skipped. */
  lemma CutLinesRefused(headers: seq<string>, lines: seq<string>, store: map<string, Record>, parse: string -> Option<int>)
    requires |lines| == 4 && lines[1] == BrokenHead && lines[2] == BrokenTail && lines[3] == ""
    ensures ImportLines(headers, lines, parse, store, 4)
      == Outcome(0, 0, [LineError(2, TooFewValues), LineError(3, TooFewValues)], store)
  {
    BrokenPiecesShort();
    var o1 := Outcome(0, 0, [], store);
    assert ImportLines(headers, lines, parse, store, 1) == o1;
    assert ReadLine(headers, lines[1], parse) == Some(Err(TooFewValues));
    ImportStep(headers, lines, parse, store, 2);
    var o2 := Outcome(0, 0, [LineError(2, TooFewValues)], store);
    assert ImportLines(headers, lines, parse, store, 2) == o2;
    assert ReadLine(headers, lines[2], parse) == Some(Err(TooFewValues));
    ImportStep(headers, lines, parse, store, 3);
    assert ReadLine(headers, lines[3], parse) == None;
    ImportStep(headers, lines, parse, store, 4);
  }

  /** The record is one the export writes and the import could read
      back, but its description spans two lines. */
  lemma BrokenExportable(parse: string -> Option<int>)
    requires parse("0") == Some(0)
    ensures Exportable(Broken, parse) && !SingleLine(Broken)
  {
    assert AmountText(0) == "0";
  }

  /** The export of the record alone: the header line, the row's two
      pieces, and the empty last line. */
  lemma BrokenText()
    ensures ExportText([Broken]).value == Join([HeaderLine, BrokenHead, BrokenTail, ""], '\n')
  {
    ExportOne(Broken);
    BrokenRow();
    JoinCut(HeaderLine, BrokenHead, BrokenTail);
  }

  /** The export of a single record is the header line, its row and the
      empty last line. */
  lemma ExportOne(r: Record)
    ensures ExportText([r]).value == Join([HeaderLine, ExportRow(r), ""], '\n')
  {
    assert RowsOf([r]) == [ExportRow(r)];
    assert [HeaderLine] + RowsOf([r]) + [""] == [HeaderLine, ExportRow(r), ""];
  }

  /** Cutting that text at every newline gives back the four lines. */
  lemma CutAtNewlines(h: string)
    requires '\n' !in h
    ensures Split(Join([h, BrokenHead, BrokenTail, ""], '\n'), '\n') == [h, BrokenHead, BrokenTail, ""]
  {
    var lines := [h, BrokenHead, BrokenTail, ""];
    assert '\n' !in BrokenHead && '\n' !in BrokenTail;
    forall i | 0 <= i < |lines| ensures '\n' !in lines[i] {
    }
    SplitJoin(lines, '\n');
  }

  /** The import as written loses a record whose description holds a
      newline: the export quotes the newline, but the import cuts the text
      at every newline first, so the row falls into two lines, both
      refused, and the store is left as it was. */
  lemma NewlineSplitsRecord(store: map<string, Record>, parse: string -> Option<int>)
    ensures ProcessImport(ExportText([Broken]).value, store, parse)
      == Ok(Outcome(0, 0, [LineError(2, TooFewValues), LineError(3, TooFewValues)], store))
  {
    BrokenText();
    HeaderLineColumns();
    CutAtNewlines(HeaderLine);
    var lines := [HeaderLine, BrokenHead, BrokenTail, ""];
    ImportUnderHeaders(lines, store, parse);
    CutLinesRefused(Headers, lines, store, parse);
  }

  /** The quote-aware import reads the same text back into the record. */
  lemma NewlineKeptQuoteAware(store: map<string, Record>, parse: string -> Option<int>)
    requires parse("0") == Some(0)
    ensures ProcessImportQuoteAware(ExportText([Broken]).value, store, parse).Ok?
    ensures ProcessImportQuoteAware(ExportText([Broken]).value, store, parse).value.store == store[Broken.id := Broken]
  {
    BrokenExportable(parse);
    QuoteAwareRoundTrip([Broken], store, parse);
    assert [Broken][..0] == [];
  }


  // ------------------------------------------------------ round trips

  /** `recs` put into `store` one after another, each over any stored
      record with its id. */
  function Upsert(store: map<string, Record>, recs: seq<Record>): (m: map<string, Record>)
    ensures store.Keys <= m.Keys
    ensures forall i :: 0 <= i < |recs| ==> recs[i].id in m
  {
    if |recs| == 0 then store
    else Upsert(store, recs[..|recs| - 1])[recs[|recs| - 1].id := recs[|recs| - 1]]
  }

  /** A value written without escaping that survives the trip: no comma,
      quote or newline. */
  predicate Raw(v: string)
  {
    Plain(v) && '\n' !in v
  }

  /** A record the export writes so that an import can read it back: the
      columns written without escaping are raw, the required fields are
      present, the row neither starts nor ends with white space (the import
      trims it), and the amount text parses back into the amount. */
  predicate Exportable(r: Record, parse: string -> Option<int>)
  {
    Raw(r.id) && Raw(r.date) && Raw(r.createdAt)
    && r.id != "" && r.date != "" && r.description != "" && r.debitAccount != "" && r.creditAccount != ""
    && !Space(r.id[0]) && (r.createdAt == "" || !Space(r.createdAt[|r.createdAt| - 1]))
    && parse(AmountText(r.amount)) == Some(r.amount)
  }

  /** The escaped text columns hold no newline. */
  predicate SingleLine(r: Record)
  {
    '\n' !in r.description && '\n' !in r.debitAccount && '\n' !in r.creditAccount && '\n' !in r.memo
  }

  lemma PlainHasNoQuote(v: string)
    requires Plain(v)
    ensures '"' !in v
  {
  }

  /** Doubling quotes adds no other character. */
  lemma {:induction false} DoubleQuotesKeeps(v: string, c: char)
    requires c != '"' && c !in v
    ensures c !in DoubleQuotes(v)
    decreases |v|
  {
    if |v| > 0 {
      assert c !in v[1..] by { assert v == [v[0]] + v[1..]; }
      DoubleQuotesKeeps(v[1..], c);
    }
  }

  /** Escaping a value without newlines adds none. */
  lemma EscapeSingleLine(v: string)
    requires '\n' !in v
    ensures '\n' !in Escape(v)
  {
    DoubleQuotesKeeps(v, '\n');
  }

  /** An exportable row is one record for the quote-aware splitter. */
  lemma RowBalanced(r: Record, parse: string -> Option<int>)
    requires Exportable(r, parse)
    ensures Balanced(ExportRow(r))
  {
    var cells := Cells(r);
    PlainHasNoQuote(r.id);
    PlainHasNoQuote(r.date);
    PlainHasNoQuote(r.createdAt);
    PlainHasNoQuote(AmountText(r.amount));
    BalancedPlain(r.id, false);
    BalancedPlain(r.date, false);
    BalancedPlain(r.createdAt, false);
    BalancedPlain(AmountText(r.amount), false);
    BalancedEscape(r.description);
    BalancedEscape(r.debitAccount);
    BalancedEscape(r.creditAccount);
    BalancedEscape(r.memo);
    BalancedJoin(cells, ',');
  }

  /** A single-line exportable row holds no newline. */
  lemma RowSingleLine(r: Record, parse: string -> Option<int>)
    requires Exportable(r, parse) && SingleLine(r)
    ensures '\n' !in ExportRow(r)
  {
    EscapeSingleLine(r.description);
    EscapeSingleLine(r.debitAccount);
    EscapeSingleLine(r.creditAccount);
    EscapeSingleLine(r.memo);
    JoinFree(Cells(r), ',', '\n');
  }

  /** Trimming leaves an exportable row alone: it starts with the id and
      ends with the creation time or the comma before it. */
  lemma RowTrimmed(r: Record, parse: string -> Option<int>)
    requires Exportable(r, parse)
    ensures ExportRow(r) != "" && Trim(ExportRow(r)) == ExportRow(r)
  {
    var cells := Cells(r);
    var row := ExportRow(r);
    assert row == r.id + ([','] + Join(cells[1..], ','));
    assert row[0] == r.id[0];
    JoinSnoc(cells[..7], r.createdAt, ',');
    assert cells == cells[..7] + [r.createdAt];
    assert row == Join(cells[..7], ',') + [','] + r.createdAt;
    if r.createdAt == "" {
      assert row[|row| - 1] == ',';
    } else {
      assert row[|row| - 1] == r.createdAt[|r.createdAt| - 1];
    }
    TrimKeeps(row);
  }

  /** The expected column names are distinct. */
  lemma HeadersDistinct()
    ensures forall i, j :: 0 <= i < j < |Headers| ==> Headers[i] != Headers[j]
  {
  }

  /** With distinct column names and a cell under every column, each
      text column's cell lands under its name and the amount is the parsed
      `amount` cell. */
  lemma AssembleDistinct(headers: seq<string>, values: seq<string>, parse: string -> Option<int>)
    requires forall i, j :: 0 <= i < j < |headers| ==> headers[i] != headers[j]
    requires |values| >= |headers|
    requires forall j :: 0 <= j < |headers| ==> !AmountFails(headers, values, parse, j)
    ensures var a := Assemble(headers, values, parse, |headers|);
      a.Ok?
      && (forall j :: 0 <= j < |headers| && headers[j] != "amount" ==> TextOf(a.value, headers[j]) == values[j])
      && (forall j :: 0 <= j < |headers| && headers[j] == "amount" ==> a.value.amount == parse(values[j]))
  {
    var n := |headers|;
    var a := Assemble(headers, values, parse, n);
    assert a.Ok?;
    forall j | 0 <= j < n && headers[j] != "amount"
      ensures TextOf(a.value, headers[j]) == values[j]
    {
      assert LastOfName(headers, n, j);
      assert CellAt(values, j) == Some(values[j]);
    }
    forall j | 0 <= j < n && headers[j] == "amount"
      ensures a.value.amount == parse(values[j])
    {
      assert LastOfName(headers, n, j);
    }
  }

  /** The only `amount` cell of an exported row parses. */
  lemma ExportedAmountParses(r: Record, parse: string -> Option<int>)
    requires parse(AmountText(r.amount)) == Some(r.amount)
    ensures forall j :: 0 <= j < |Headers| ==> !AmountFails(Headers, Values(r), parse, j)
  {
    HeadersDistinct();
    forall j | 0 <= j < |Headers|
      ensures !AmountFails(Headers, Values(r), parse, j)
    {
      if j != 3 {
        assert Headers[j] != Headers[3];
      }
    }
  }

  /** The columns of an exported row assemble into the record's fields. */
  lemma AssembleExported(r: Record, parse: string -> Option<int>)
    requires parse(AmountText(r.amount)) == Some(r.amount)
    ensures var a := Assemble(Headers, Values(r), parse, |Headers|);
      a.Ok? && a.value.amount == Some(r.amount)
      && TextOf(a.value, "id") == r.id && TextOf(a.value, "date") == r.date
      && TextOf(a.value, "description") == r.description
      && TextOf(a.value, "debitAccount") == r.debitAccount && TextOf(a.value, "creditAccount") == r.creditAccount
      && TextOf(a.value, "memo") == r.memo && TextOf(a.value, "createdAt") == r.createdAt
  {
    var values := Values(r);
    HeadersDistinct();
    ExportedAmountParses(r, parse);
    AssembleDistinct(Headers, values, parse);
    var d := Assemble(Headers, values, parse, |Headers|).value;
    assert TextOf(d, Headers[0]) == values[0];
    assert TextOf(d, Headers[1]) == values[1];
    assert TextOf(d, Headers[2]) == values[2];
    assert d.amount == parse(values[3]);
    assert TextOf(d, Headers[4]) == values[4];
    assert TextOf(d, Headers[5]) == values[5];
    assert TextOf(d, Headers[6]) == values[6];
    assert TextOf(d, Headers[7]) == values[7];
  }

  /** The import reads an exportable row back into the same record. */
  lemma ReadExportedRow(r: Record, parse: string -> Option<int>)
    requires Exportable(r, parse)
    ensures ReadLine(Headers, ExportRow(r), parse) == Some(Ok(r))
  {
    ExportRowParses(r);
    RowTrimmed(r, parse);
    AssembleExported(r, parse);
  }

  /** One more data line: its yield applied to the outcome so far. */
  lemma ImportStep(headers: seq<string>, lines: seq<string>, parse: string -> Option<int>, store: map<string, Record>, n: nat)
    requires 2 <= n <= |lines|
    ensures ImportLines(headers, lines, parse, store, n)
      == Apply(ImportLines(headers, lines, parse, store, n - 1), n, ReadLine(headers, lines[n - 1], parse))
  {
  }

  /** An accepted record is put into the store and counted once, and
      nothing is logged. */
  lemma ApplyRecord(o: Outcome, number: nat, r: Record)
    ensures var o' := Apply(o, number, Some(Ok(r)));
      o'.errors == o.errors && o'.added + o'.updated == o.added + o.updated + 1 && o'.store == o.store[r.id := r]
  {
  }

  /** Data lines that each read back as a record are all accepted, in order. */
  lemma AcceptedReads(headers: seq<string>, lines: seq<string>, recs: seq<Record>, parse: string -> Option<int>, k: nat)
    requires k < |lines| && k <= |recs|
    requires forall i {:trigger ReadLine(headers, lines[i], parse)} :: 0 < i <= k ==> ReadLine(headers, lines[i], parse) == Some(Ok(recs[i - 1]))
    ensures Accepted(headers, lines, parse, k + 1) == recs[..k]
  {
    var read := Reader(headers, parse);
    forall i | 0 < i <= k
      ensures read(lines[i]) == Some(Ok(recs[..k][i - 1]))
    {
      assert read(lines[i]) == ReadLine(headers, lines[i], parse);
    }
    KeptPrefix(read, lines, recs[..k]);
  }

  /** Data lines `lines[1..|recs| + 1]` that `read` reads as `recs` are
      kept as exactly `recs`. */
  lemma {:induction false} KeptPrefix(read: string -> Option<Result<Record, RowError>>, lines: seq<string>, recs: seq<Record>)
    requires |recs| < |lines|
    requires forall i :: 0 < i <= |recs| ==> read(lines[i]) == Some(Ok(recs[i - 1]))
    ensures Kept(read, lines, |recs| + 1) == recs
  {
    if |recs| > 0 {
      var prev := recs[..|recs| - 1];
      KeptPrefix(read, lines, prev);
      assert read(lines[|recs|]) == Some(Ok(recs[|recs| - 1]));
      assert recs == prev + [recs[|recs| - 1]];
    }
  }

  /** Data lines that each read back as a record are each counted once,
      and none is logged as an error. */
  lemma {:induction false} CleanReads(headers: seq<string>, lines: seq<string>, recs: seq<Record>, store: map<string, Record>, parse: string -> Option<int>, k: nat)
    requires k < |lines| && k <= |recs|
    requires forall i {:trigger ReadLine(headers, lines[i], parse)} :: 0 < i <= k ==> ReadLine(headers, lines[i], parse) == Some(Ok(recs[i - 1]))
    ensures var o := ImportLines(headers, lines, parse, store, k + 1);
      o.errors == [] && o.added + o.updated == k
  {
    if k > 0 {
      CleanReads(headers, lines, recs, store, parse, k - 1);
      assert ReadLine(headers, lines[k], parse) == Some(Ok(recs[k - 1]));
      ApplyRecord(ImportLines(headers, lines, parse, store, k), k + 1, recs[k - 1]);
    }
  }

  /** Every row of an export of exportable records reads back as its
      record. */
  lemma ExportedRowsRead(recs: seq<Record>, parse: string -> Option<int>)
    requires forall i :: 0 <= i < |recs| ==> Exportable(recs[i], parse)
    ensures forall i :: 0 <= i < |recs| ==> ReadLine(Headers, RowsOf(recs)[i], parse) == Some(Ok(recs[i]))
  {
    forall i | 0 <= i < |recs|
      ensures ReadLine(Headers, RowsOf(recs)[i], parse) == Some(Ok(recs[i]))
    {
      ReadExportedRow(recs[i], parse);
    }
  }

  /** The rows, read after a header line, still read as the records. */
  lemma ShiftedReads(header: string, rows: seq<string>, recs: seq<Record>, parse: string -> Option<int>)
    requires |rows| == |recs|
    requires forall i :: 0 <= i < |recs| ==> ReadLine(Headers, rows[i], parse) == Some(Ok(recs[i]))
    ensures forall i :: 0 < i <= |recs| ==> ReadLine(Headers, ([header] + rows + [""])[i], parse) == Some(Ok(recs[i - 1]))
  {
    var ys := seq(|recs|, i requires 0 <= i < |recs| => Some(Ok(recs[i])));
    Shifted(header, rows, "", (line: string) => ReadLine(Headers, line, parse), ys);
    forall i | 0 < i <= |recs|
      ensures ReadLine(Headers, ([header] + rows + [""])[i], parse) == Some(Ok(recs[i - 1]))
    {
      assert ([header] + rows + [""])[(i - 1) + 1] == ([header] + rows + [""])[i];
    }
  }

  /** Under a header line naming exactly the expected columns, importing
      rows that each read back as a record, then an empty last line,
      upserts every record without an error. */
  lemma ImportRows(header: string, rows: seq<string>, recs: seq<Record>, store: map<string, Record>, parse: string -> Option<int>)
    requires ParseLine(header) == Headers
    requires |rows| == |recs| > 0
    requires forall i :: 0 <= i < |recs| ==> ReadLine(Headers, rows[i], parse) == Some(Ok(recs[i]))
    ensures var r := ImportFrom([header] + rows + [""], store, parse);
      r.Ok? && r.value.errors == [] && r.value.added + r.value.updated == |recs|
      && r.value.store == Upsert(store, recs)
  {
    var lines := [header] + rows + [""];
    ImportUnderHeaders(lines, store, parse);
    ShiftedReads(header, rows, recs, parse);
    CleanReads(Headers, lines, recs, store, parse, |recs|);
    AcceptedReads(Headers, lines, recs, parse, |recs|);
    ImportStore(Headers, lines, parse, store, |recs| + 1);
    assert recs[..|recs|] == recs;
    BlankLastLine(header, rows, store, parse);
  }

  /** Nothing is missing from the expected column names themselves. */
  lemma NoneMissing()
    ensures Missing(Headers) == []
  {
    FilterNone(Headers, (h: string) => h !in Headers);
  }

  /** Under a header line naming the expected columns, the import applies
      every data line. */
  lemma ImportUnderHeaders(lines: seq<string>, store: map<string, Record>, parse: string -> Option<int>)
    requires |lines| >= 2 && ParseLine(lines[0]) == Headers
    ensures ImportFrom(lines, store, parse) == Ok(ImportLines(Headers, lines, parse, store, |lines|))
  {
    NoneMissing();
  }

  /** The empty last line of an export changes nothing. */
  lemma BlankLastLine(header: string, rows: seq<string>, store: map<string, Record>, parse: string -> Option<int>)
    ensures var lines := [header] + rows + [""];
      ImportLines(Headers, lines, parse, store, |lines|) == ImportLines(Headers, lines, parse, store, |lines| - 1)
  {
    var lines := [header] + rows + [""];
    assert lines[|lines| - 1] == "";
    ImportStep(Headers, lines, parse, store, |lines|);
  }


  /** Importing all the lines of an export upserts every record without an
      error, whichever line splitter produced them. */
  lemma ImportExportedLines(recs: seq<Record>, store: map<string, Record>, parse: string -> Option<int>)
    requires |recs| > 0
    requires forall i :: 0 <= i < |recs| ==> Exportable(recs[i], parse)
    ensures var r := ImportFrom([HeaderLine] + RowsOf(recs) + [""], store, parse);
      r.Ok? && r.value.errors == [] && r.value.added + r.value.updated == |recs|
      && r.value.store == Upsert(store, recs)
  {
    HeaderLineColumns();
    ExportedRowsRead(recs, parse);
    ImportRows(HeaderLine, RowsOf(recs), recs, store, parse);
  }

  /** The import as written reads back an export of single-line records:
      every record is added or updated, nothing is refused, and the store
      ends as if each record had been put into it in turn. */
  lemma ExportImportRoundTrip(recs: seq<Record>, store: map<string, Record>, parse: string -> Option<int>)
    requires |recs| > 0
    requires forall i :: 0 <= i < |recs| ==> Exportable(recs[i], parse) && SingleLine(recs[i])
    ensures var r := ProcessImport(ExportText(recs).value, store, parse);
      r.Ok? && r.value.errors == [] && r.value.added + r.value.updated == |recs|
      && r.value.store == Upsert(store, recs)
  {
    forall i | 0 <= i < |recs| ensures '\n' !in ExportRow(recs[i]) {
      RowSingleLine(recs[i], parse);
    }
    ExportLines(recs);
    ImportExportedLines(recs, store, parse);
  }

  /** The quote-aware import reads back every exportable record, newlines
      in its text columns included. */
  lemma QuoteAwareRoundTrip(recs: seq<Record>, store: map<string, Record>, parse: string -> Option<int>)
    requires |recs| > 0
    requires forall i :: 0 <= i < |recs| ==> Exportable(recs[i], parse)
    ensures var r := ProcessImportQuoteAware(ExportText(recs).value, store, parse);
      r.Ok? && r.value.errors == [] && r.value.added + r.value.updated == |recs|
      && r.value.store == Upsert(store, recs)
  {
    ExportRecords(recs, parse);
    ImportExportedLines(recs, store, parse);
  }

  /** A balanced header line, balanced rows and an empty last line are all
      balanced. */
  lemma LinesBalanced(header: string, rows: seq<string>)
    requires Balanced(header)
    requires forall i :: 0 <= i < |rows| ==> Balanced(rows[i])
    ensures forall i :: 0 <= i < |rows| + 2 ==> Balanced(([header] + rows + [""])[i])
  {
    var lines := [header] + rows + [""];
    BalancedPlain("", false);
    forall i | 0 <= i < |lines| ensures Balanced(lines[i]) {
      if 1 <= i <= |rows| {
        assert lines[i] == rows[i - 1];
      }
    }
  }

  /** The quote-aware splitter cuts a header line, balanced rows and an
      empty last line, joined with newlines, back into those lines. */
  lemma BalancedLines(header: string, rows: seq<string>)
    requires Balanced(header)
    requires forall i :: 0 <= i < |rows| ==> Balanced(rows[i])
    ensures SplitRecords(Join([header] + rows + [""], '\n')) == [header] + rows + [""]
  {
    LinesBalanced(header, rows);
    SplitRecordsJoin([header] + rows + [""]);
  }

  /** The quote-aware splitter cuts an export of exportable records into
      its header line, its rows and an empty last line. */
  lemma ExportRecords(recs: seq<Record>, parse: string -> Option<int>)
    requires |recs| > 0
    requires forall i :: 0 <= i < |recs| ==> Exportable(recs[i], parse)
    ensures SplitRecords(ExportText(recs).value) == [HeaderLine] + RowsOf(recs) + [""]
  {
    ExportLinesRecords(recs, parse);
  }

  /** The quote-aware splitter cuts the header line, the rows of
      exportable records and an empty last line, joined with newlines, back
      into those lines. */
  lemma ExportLinesRecords(recs: seq<Record>, parse: string -> Option<int>)
    requires forall i :: 0 <= i < |recs| ==> Exportable(recs[i], parse)
    ensures SplitRecords(Join([HeaderLine] + RowsOf(recs) + [""], '\n')) == [HeaderLine] + RowsOf(recs) + [""]
  {
    HeaderBalanced();
    BalancedUnder(HeaderLine, recs, parse);
  }

  /** The same under any balanced header line. */
  lemma BalancedUnder(header: string, recs: seq<Record>, parse: string -> Option<int>)
    requires Balanced(header)
    requires forall i :: 0 <= i < |recs| ==> Exportable(recs[i], parse)
    ensures SplitRecords(Join([header] + RowsOf(recs) + [""], '\n')) == [header] + RowsOf(recs) + [""]
  {
    RowsBalanced(recs, parse);
    BalancedLines(header, RowsOf(recs));
  }

  /** Every row of exportable records is one record for the quote-aware
      splitter. */
  lemma RowsBalanced(recs: seq<Record>, parse: string -> Option<int>)
    requires forall i :: 0 <= i < |recs| ==> Exportable(recs[i], parse)
    ensures forall i :: 0 <= i < |recs| ==> Balanced(RowsOf(recs)[i])
  {
    forall i | 0 <= i < |recs| ensures Balanced(RowsOf(recs)[i]) {
      RowBalanced(recs[i], parse);
    }
  }

  lemma HeaderBalanced()
    ensures Balanced(HeaderLine)
  {
    forall i | 0 <= i < |Headers| ensures Balanced(Headers[i]) {
      BalancedPlain(Headers[i], false);
    }
    BalancedJoin(Headers, ',');
  }
}
