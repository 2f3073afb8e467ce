/**
 * The part of `query_claude` that turns what the database returned into
 * the bot's reply: a one-line summary and, when there are rows, a CSV
 * text. The database itself is outside the model: what it did is given as
 * a `Backend` value.
 */
module Formatter {
  import opened Wrappers
  import opened Text

  /** One database value as `str(v)` renders it, or `None` for SQL NULL. */
  type Cell = Option<string>

  type Row = seq<Cell>

  /** What happens inside the `try` of `query_claude`: the command raises, or yields columns and rows. */
  datatype Execution =
    | Raised(description: string)
    | Returned(columns: seq<string>, rows: seq<Row>)

  /**
   * The whole call. Opening the connection (installing and loading the
   * extension, attaching databases, running the init SQL) happens before
   * the `try`, so a failure there is not caught.
   */
  datatype Backend =
    | SetupFailed(description: string)
    | Connected(execution: Execution)

  /** The `(message, csv_content)` pair `query_claude` returns. */
  datatype Reply = Reply(message: string, csv: Option<string>)

  /** The command sent to the database: the prompt spliced in as it is, with no escaping. */
  function Command(prompt: string): (c: string)
    ensures |c| == |prompt| + 8
    ensures c[..7] == "CLAUDE " && c[|c| - 1] == ';' && c[7..|c| - 1] == prompt
  {
    "CLAUDE " + prompt + ";"
  }

  /** The prompt inside a statement of the `CLAUDE <prompt>;` form, if it has that form. */
  function PromptOf(statement: string): Option<string>
  {
    if |statement| >= 8 && statement[..7] == "CLAUDE " && statement[|statement| - 1] == ';'
    then Some(statement[7..|statement| - 1])
    else None
  }

  /** The prompt can be read back from the statement, so different prompts give different statements. */
  lemma CommandRoundTrip(prompt: string, other: string)
    ensures PromptOf(Command(prompt)) == Some(prompt)
    ensures Command(prompt) == Command(other) ==> prompt == other
  {
    var c := Command(prompt);
    assert c[..7] == "CLAUDE ";
    assert c[7..|c| - 1] == prompt;
  }

  const NoResults: string := "_No results_"

  function ErrorMessage(description: string): string
  {
    "*Error:* `" + description + "`"
  }

  function RowsMessage(rowCount: nat, columnCount: nat): string
  {
    "Returned " + Decimal(rowCount) + " row(s), " + Decimal(columnCount) + " column(s)"
  }

  /** A cell as it appears in the CSV: NULL becomes the empty string, anything else is written as it is. */
  function Render(c: Cell): string
  {
    match c
    case None => []
    case Some(v) => v
  }

  function Cells(row: Row): (r: seq<string>)
    ensures |r| == |row| && forall i :: 0 <= i < |row| ==> r[i] == Render(row[i])
  {
    seq(|row|, i requires 0 <= i < |row| => Render(row[i]))
  }

  function HeaderLine(columns: seq<string>): string
  {
    Join(columns, ',')
  }

  /** One data line: the row's rendered cells joined by commas, nothing quoted. */
  function RowLine(row: Row): string
  {
    Join(Cells(row), ',')
  }

  /** The lines of the CSV: the header, then one line per row in row order. */
  function CsvLines(columns: seq<string>, rows: seq<Row>): (lines: seq<string>)
    ensures |lines| == |rows| + 1 && lines[0] == HeaderLine(columns)
    ensures forall i :: 0 <= i < |rows| ==> lines[i + 1] == RowLine(rows[i])
  {
    [HeaderLine(columns)] + seq(|rows|, i requires 0 <= i < |rows| => RowLine(rows[i]))
  }

  /** The CSV text: its lines joined by newlines, so it always starts with the header line. */
  function CsvText(columns: seq<string>, rows: seq<Row>): (csv: string)
    ensures HeaderLine(columns) <= csv
    ensures |rows| == 0 ==> csv == HeaderLine(columns)
  {
    Join(CsvLines(columns, rows), '\n')
  }

  /** The reply for what the command did: an error, no results, or a summary with the CSV. */
  function Format(e: Execution): (r: Reply)
    ensures r.csv.Some? <==> e.Returned? && |e.rows| > 0
  {
    match e
    case Raised(description) => Reply(ErrorMessage(description), None)
    case Returned(columns, rows) =>
      if |rows| == 0 then Reply(NoResults, None)
      else Reply(RowsMessage(|rows|, |columns|), Some(CsvText(columns, rows)))
  }

  /** `query_claude` as a whole: a setup failure escapes as an exception, everything else is a reply. */
  function QueryClaude(b: Backend): (r: Result<Reply, string>)
    ensures r.Failure? <==> b.SetupFailed?
  {
    match b
    case SetupFailed(description) => Failure(description)
    case Connected(e) => Success(Format(e))
  }

  /**
   * `query_claude(prompt)`: the statement for the prompt is what the
   * database is given, and `run` says what happens to it.
   */
  function QueryFor(prompt: string, run: string -> Backend): Result<Reply, string>
  {
    QueryClaude(run(Command(prompt)))
  }

  /**
   * Builds the CSV the way the source does: a list of lines that starts
   * with the header, grows by one line per row, and is joined by newlines.
   */
  method BuildCsv(columns: seq<string>, rows: seq<Row>) returns (csv: string)
    ensures csv == CsvText(columns, rows)
  {
    var lines := [HeaderLine(columns)];
    var i := 0;
    while i < |rows|
      invariant 0 <= i <= |rows|
      invariant lines == CsvLines(columns, rows[..i])
    {
      lines := lines + [RowLine(rows[i])];
      i := i + 1;
      assert rows[..i] == rows[..i - 1] + [rows[i - 1]];
    }
    assert rows[..i] == rows;
    csv := Join(lines, '\n');
  }

  /** Sends the prompt's statement to the database and formats what it did, building any CSV with the loop above. */
  method RunQuery(prompt: string, run: string -> Backend) returns (r: Result<Reply, string>)
    ensures r == QueryFor(prompt, run)
  {
    var b := run(Command(prompt));
    match b {
      case SetupFailed(description) =>
        r := Failure(description);
      case Connected(Raised(description)) =>
        r := Success(Reply(ErrorMessage(description), None));
      case Connected(Returned(columns, rows)) =>
        if |rows| == 0 {
          r := Success(Reply(NoResults, None));
        } else {
          var csv := BuildCsv(columns, rows);
          r := Success(Reply(RowsMessage(|rows|, |columns|), Some(csv)));
        }
    }
  }

  // Properties of the reply.

  /** Zero rows give exactly the no-results marker and no CSV. */
  lemma NoRowsNoCsv(columns: seq<string>)
    ensures Format(Returned(columns, [])) == Reply("_No results_", None)
  {
  }

  /** A failing command gives the error template around the failure's text, and no CSV. */
  lemma ErrorIsReported(description: string)
    ensures Format(Raised(description)) == Reply("*Error:* `" + description + "`", None)
  {
  }

  /**
   * At least one row gives the summary naming the row and column counts,
   * and the CSV.
   */
  lemma RowsAreSummarised(columns: seq<string>, rows: seq<Row>)
    requires |rows| > 0
    ensures Format(Returned(columns, rows)) ==
      Reply("Returned " + Decimal(|rows|) + " row(s), " + Decimal(|columns|) + " column(s)",
            Some(CsvText(columns, rows)))
  {
  }

  /**
   * When there is a CSV it is never empty: it holds at least one newline
   * and starts with the header line followed by a newline. So the
   * handlers' `if csv_content:` is the same test as "a CSV was produced".
   */
  lemma CsvIsNonEmpty(columns: seq<string>, rows: seq<Row>)
    requires |rows| > 0
    ensures '\n' in CsvText(columns, rows)
    ensures var h := HeaderLine(columns); CsvText(columns, rows)[..|h| + 1] == h + "\n"
  {
    JoinHasSeparator(CsvLines(columns, rows), '\n');
  }

  /**
   * Reading the CSV back line by line gives the header and then each
   * row's line, in order, provided no column name or value contains a
   * newline.
   */
  lemma CsvLinesRoundTrip(columns: seq<string>, rows: seq<Row>)
    requires forall j :: 0 <= j < |columns| ==> '\n' !in columns[j]
    requires forall i, j :: 0 <= i < |rows| && 0 <= j < |rows[i]| ==> '\n' !in Render(rows[i][j])
    ensures Split(CsvText(columns, rows), '\n') == CsvLines(columns, rows)
  {
    var lines := CsvLines(columns, rows);
    forall k | 0 <= k < |lines| ensures '\n' !in lines[k] {
      if k == 0 {
        JoinAvoids(columns, ',', '\n');
      } else {
        JoinAvoids(Cells(rows[k - 1]), ',', '\n');
      }
    }
    SplitJoin(lines, '\n');
  }

  /** Joining pieces that avoid a character, with a different separator, avoids it too. */
  lemma {:induction false} JoinAvoids(parts: seq<string>, sep: char, c: char)
    requires sep != c
    requires forall j :: 0 <= j < |parts| ==> c !in parts[j]
    ensures c !in Join(parts, sep)
  {
    if |parts| > 1 {
      JoinAvoids(parts[1..], sep, c);
    }
  }

  /**
   * Splitting a data line at commas gives back the row's rendered cells,
   * provided no value contains a comma and the row is not empty.
   */
  lemma RowFieldsRoundTrip(row: Row)
    requires |row| >= 1
    requires forall j :: 0 <= j < |row| ==> ',' !in Render(row[j])
    ensures Split(RowLine(row), ',') == Cells(row)
  {
    SplitJoin(Cells(row), ',');
  }

  /**
   * Nothing is quoted: a value holding a comma yields a line with more
   * fields than the row has cells.
   */
  lemma CommaInValueAddsField(x: string, y: string)
    requires ',' !in x && ',' !in y
    ensures RowLine([Some(x + "," + y), None]) == x + "," + y + ","
    ensures |Split(RowLine([Some(x + "," + y), None]), ',')| == 3
  {
    var row: Row := [Some(x + "," + y), None];
    var parts: seq<string> := [x, y, []];
    assert Join(parts[2..], ',') == [];
    assert Join(parts[1..], ',') == y + [','] + [];
    assert Join(parts, ',') == x + [','] + (y + [','] + []);
    assert Join(parts, ',') == x + "," + y + ",";
    var cells: seq<string> := [x + "," + y, []];
    assert Cells(row) == cells;
    assert Join(cells[1..], ',') == [];
    assert RowLine(row) == x + "," + y + ",";
    SplitJoin(parts, ',');
  }

  /** Two rows of two columns are summarised as such, with the CSV attached. */
  lemma TwoByTwoSummary(columns: seq<string>, rows: seq<Row>)
    requires |columns| == 2 && |rows| == 2
    ensures Format(Returned(columns, rows)) ==
      Reply("Returned 2 row(s), 2 column(s)", Some(CsvText(columns, rows)))
  {
    assert Decimal(2) == "2";
  }

  /** The example of columns `a,b` with rows `(1, x)` and `(2, NULL)`. */
  lemma TwoRowExample()
    ensures CsvText(["a", "b"], [[Some("1"), Some("x")], [Some("2"), None]]) == "a,b\n1,x\n2,"
    ensures RowsMessage(2, 2) == "Returned 2 row(s), 2 column(s)"
    ensures Format(Returned(["a", "b"], [[Some("1"), Some("x")], [Some("2"), None]])) ==
      Reply("Returned 2 row(s), 2 column(s)", Some("a,b\n1,x\n2,"))
  {
    var r1: Row := [Some("1"), Some("x")];
    var r2: Row := [Some("2"), None];
    assert Cells(r1) == ["1", "x"];
    assert Cells(r2) == ["2", ""];
    assert RowLine(r1) == "1,x" by {
      assert Join(["1", "x"], ',') == "1" + [','] + "x";
    }
    assert RowLine(r2) == "2," by {
      assert Join(["2", ""], ',') == "2" + [','] + "";
    }
    assert HeaderLine(["a", "b"]) == "a,b" by {
      assert Join(["a", "b"], ',') == "a" + [','] + "b";
    }
    var lines := CsvLines(["a", "b"], [r1, r2]);
    assert lines == ["a,b", "1,x", "2,"];
    assert Join(lines[2..], '\n') == "2,";
    assert Join(lines[1..], '\n') == "1,x" + ['\n'] + "2,";
    assert Join(lines, '\n') == "a,b" + ['\n'] + ("1,x" + ['\n'] + "2,");
  }

  predicate HasPrefix(s: string, p: string)
  {
    |p| <= |s| && s[..|p|] == p
  }

  /**
   * The counts in a summary can be read back: the summary names the
   * number of rows and the number of columns.
   */
  function ParseSummary(m: string): Option<(nat, nat)>
  {
    if HasPrefix(m, "Returned ") then ParseRowCount(m[9..]) else None
  }

  function ParseRowCount(t: string): Option<(nat, nat)>
  {
    var d := DigitPrefix(t);
    if |d| == 0 then None else ParseColumnCount(DigitsValue(d), t[|d|..])
  }

  function ParseColumnCount(rowCount: nat, u: string): Option<(nat, nat)>
  {
    if !HasPrefix(u, " row(s), ") then None
    else
      var v := u[9..];
      var d := DigitPrefix(v);
      if |d| == 0 || v[|d|..] != " column(s)" then None
      else Some((rowCount, DigitsValue(d)))
  }

  lemma ColumnCountRoundTrip(rowCount: nat, columnCount: nat)
    ensures ParseColumnCount(rowCount, " row(s), " + (Decimal(columnCount) + " column(s)")) ==
      Some((rowCount, columnCount))
  {
    var d := Decimal(columnCount);
    var tail := " column(s)";
    var u := " row(s), " + (d + tail);
    assert u[..9] == " row(s), " && u[9..] == d + tail;
    assert (d + tail)[|d|..] == tail;
    DigitPrefixOfDecimal(columnCount, tail);
    DecimalRoundTrip(columnCount);
  }

  lemma RowCountRoundTrip(rowCount: nat, u: string)
    requires u == [] || !IsDigit(u[0])
    ensures ParseRowCount(Decimal(rowCount) + u) == ParseColumnCount(rowCount, u)
  {
    var t := Decimal(rowCount) + u;
    assert t[|Decimal(rowCount)|..] == u;
    DigitPrefixOfDecimal(rowCount, u);
    DecimalRoundTrip(rowCount);
  }

  /** The summary for rows gives back both counts. */
  lemma SummaryRoundTrip(rowCount: nat, columnCount: nat)
    ensures ParseSummary(RowsMessage(rowCount, columnCount)) == Some((rowCount, columnCount))
  {
    var u := " row(s), " + (Decimal(columnCount) + " column(s)");
    var t := Decimal(rowCount) + u;
    assert RowsMessage(rowCount, columnCount) == "Returned " + t;
    assert ("Returned " + t)[..9] == "Returned " && ("Returned " + t)[9..] == t;
    RowCountRoundTrip(rowCount, u);
    ColumnCountRoundTrip(rowCount, columnCount);
  }

  /** The three kinds of message cannot be confused: only a row summary carries counts. */
  lemma MessagesAreDistinct(description: string)
    ensures ParseSummary(NoResults).None?
    ensures ParseSummary(ErrorMessage(description)).None?
    ensures NoResults != ErrorMessage(description)
  {
    assert NoResults[0] == '_';
    assert ErrorMessage(description)[0] == '*';
  }
}
