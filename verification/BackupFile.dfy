/** The file of a market backup: a cursor-paged dump of every table, framed by a header and a footer
    with row counts, and the parser that refuses anything else. */
module BackupFile {
  import opened Basics

  /** A row as far as a backup cares: its id, its market and parent, the values it holds under unique
      indexes, all the rest of what the file carries, and what the file never carries: `password` stands
      for the password hash and its date, `token` for the refresh token and its expiry, 0 for none. */
  datatype Row = Row(id: nat, market: Option<nat>, parent: nat, keys: set<nat>, data: int, password: int, token: int)

  datatype Line =
    | Header(market: nat, format: string, version: int)
    | RowLine(model: nat, row: Row)
    | Footer(rowCounts: map<nat, nat>, totalRows: nat)

  const FORMAT := "karayeban-market-backup"
  const VERSION := 1

  // ---- paging through one table -----------------------------------------------------------------

  ghost predicate InIdOrder(rows: seq<Row>) { forall i, j | 0 <= i < j < |rows| :: rows[i].id < rows[j].id }

  function CountUpTo(rows: seq<Row>, id: nat): (k: nat)
    ensures k <= |rows|
  {
    if rows == [] then 0
    else if rows[|rows| - 1].id <= id then |rows|
    else CountUpTo(rows[..|rows| - 1], id)
  }

  /** What the database answers: in id order, after the cursor row if there is one, `take` at most. */
  function FindMany(rows: seq<Row>, cursor: Option<nat>, take: nat): seq<Row> {
    var from := if cursor.Some? then CountUpTo(rows, cursor.value) else 0;
    if |rows| - from <= take then rows[from..] else rows[from..from + take]
  }

  lemma {:induction false} CursorIsLastRead(rows: seq<Row>, k: nat)
    requires InIdOrder(rows) && 0 < k <= |rows|
    ensures CountUpTo(rows, rows[k - 1].id) == k
  {
    if k < |rows| {
      CursorIsLastRead(rows[..|rows| - 1], k);
    }
  }

  /** The cursor loop writes every row of the table once, in id order, whatever the batch size. */
  method DumpTable(rows: seq<Row>, model: nat, batch: nat) returns (lines: seq<Line>, count: nat)
    requires InIdOrder(rows) && batch > 0
    ensures lines == RowLines(model, rows) && count == |rows|
  {
    lines, count := [], 0;
    var cursor: Option<nat> := None;
    var more := true;
    while more
      invariant count <= |rows| && lines == RowLines(model, rows[..count])
      invariant more ==> cursor == if count == 0 then None else Some(rows[count - 1].id)
      invariant !more ==> count == |rows|
      decreases more, |rows| - count
    {
      if count > 0 { CursorIsLastRead(rows, count); }
      var page := FindMany(rows, cursor, batch);
      RowLinesOfConcat(model, rows[..count], page);
      assert rows[..count] + page == rows[..count + |page|];
      lines := lines + RowLines(model, page);
      count := count + |page|;
      if |page| < batch {
        more := false;
      } else {
        cursor := Some(page[|page| - 1].id);
      }
    }
    assert rows[..|rows|] == rows;
  }

  function RowLines(model: nat, rows: seq<Row>): seq<Line> {
    seq(|rows|, i requires 0 <= i < |rows| => RowLine(model, rows[i]))
  }

  lemma RowLinesOfConcat(model: nat, a: seq<Row>, b: seq<Row>)
    ensures RowLines(model, a + b) == RowLines(model, a) + RowLines(model, b)
  {
  }

  // ---- the whole file ---------------------------------------------------------------------------

  /** What is dumped: the tables in registry order. */
  datatype Table = Table(model: nat, rows: seq<Row>)

  function Body(tables: seq<Table>): seq<Line> {
    if tables == [] then []
    else Body(tables[..|tables| - 1]) + RowLines(tables[|tables| - 1].model, tables[|tables| - 1].rows)
  }

  function Counts(tables: seq<Table>): map<nat, nat> {
    if tables == [] then map[]
    else Counts(tables[..|tables| - 1])[tables[|tables| - 1].model := |tables[|tables| - 1].rows|]
  }

  function Total(tables: seq<Table>): nat {
    if tables == [] then 0 else Total(tables[..|tables| - 1]) + |tables[|tables| - 1].rows|
  }

  function File(market: nat, tables: seq<Table>): seq<Line> {
    [Header(market, FORMAT, VERSION)] + Body(tables) + [Footer(Counts(tables), Total(tables))]
  }

  /** The backup job: header, every table of the registry, footer. */
  method Execute(market: nat, tables: seq<Table>, batch: nat) returns (file: seq<Line>)
    requires batch > 0 && forall t | t in tables :: InIdOrder(t.rows)
    ensures file == File(market, tables)
  {
    file := [Header(market, FORMAT, VERSION)];
    var rowCounts: map<nat, nat> := map[];
    var total := 0;
    for i := 0 to |tables|
      invariant file == [Header(market, FORMAT, VERSION)] + Body(tables[..i])
      invariant rowCounts == Counts(tables[..i]) && total == Total(tables[..i])
    {
      assert tables[..i + 1][..i] == tables[..i];
      var lines, count := DumpTable(tables[i].rows, tables[i].model, batch);
      file := file + lines;
      rowCounts := rowCounts[tables[i].model := count];
      total := total + count;
    }
    assert tables[..|tables|] == tables;
    file := file + [Footer(rowCounts, total)];
  }

  // ---- reading it back --------------------------------------------------------------------------

  datatype Parsed = Parsed(header: Option<Line>, footer: Option<Line>, rows: map<nat, seq<Row>>)

  function RowsOf(p: map<nat, seq<Row>>, model: nat): seq<Row> { if model in p then p[model] else [] }

  /** One line, given the models the registry knows. */
  function ParseLine(p: Parsed, line: Line, known: seq<nat>): Result<Parsed> {
    match line
    case Header(_, _, _) => if p.header.Some? then Err("more than one header") else Ok(p.(header := Some(line)))
    case RowLine(model, row) =>
      if p.header.None? then Err("row before header")
      else if model !in known then Err("unknown model")
      else Ok(p.(rows := p.rows[model := RowsOf(p.rows, model) + [row]]))
    case Footer(_, _) => Ok(p.(footer := Some(line)))
  }

  function ParseLines(lines: seq<Line>, known: seq<nat>): Result<Parsed> {
    if lines == [] then Ok(Parsed(None, None, map[]))
    else
      match ParseLines(lines[..|lines| - 1], known)
      case Err(reason) => Err(reason)
      case Ok(p) => ParseLine(p, lines[|lines| - 1], known)
  }

  function CountedTotal(rows: map<nat, seq<Row>>, known: seq<nat>): nat {
    if known == [] then 0 else CountedTotal(rows, known[..|known| - 1]) + |RowsOf(rows, known[|known| - 1])|
  }

  function Expected(counts: map<nat, nat>, model: nat): nat { if model in counts then counts[model] else 0 }

  /** The closing checks: framed, right format, and counts that agree table by table and in all. */
  function Check(p: Parsed, known: seq<nat>): Result<Parsed> {
    if p.header.None? then Err("no header")
    else if p.footer.None? then Err("no footer")
    else if !p.header.value.Header? || p.header.value.format != FORMAT then Err("unknown format")
    else if p.header.value.version != VERSION then Err("unsupported version")
    else if !p.footer.value.Footer? then Err("no footer")
    else if exists m | m in known :: Expected(p.footer.value.rowCounts, m) != |RowsOf(p.rows, m)| then Err("row counts do not agree")
    else if CountedTotal(p.rows, known) != p.footer.value.totalRows then Err("total does not agree")
    else Ok(p)
  }

  function Parse(lines: seq<Line>, known: seq<nat>): Result<Parsed> {
    match ParseLines(lines, known)
    case Err(reason) => Err(reason)
    case Ok(p) => Check(p, known)
  }

  method ParseBackup(lines: seq<Line>, known: seq<nat>) returns (r: Result<Parsed>)
    ensures r == Parse(lines, known)
  {
    var p := Parsed(None, None, map[]);
    for i := 0 to |lines|
      invariant ParseLines(lines[..i], known) == Ok(p)
    {
      assert lines[..i + 1][..i] == lines[..i];
      var step := ParseLine(p, lines[i], known);
      if step.Err? {
        StuckParse(lines, known, i + 1);
        return Err(step.reason);
      }
      p := step.value;
    }
    assert lines[..|lines|] == lines;
    var total := 0;
    for i := 0 to |known|
      invariant total == CountedTotal(p.rows, known[..i])
    {
      assert known[..i + 1][..i] == known[..i];
      total := total + |RowsOf(p.rows, known[i])|;
    }
    assert known[..|known|] == known;
    if p.header.None? { return Err("no header"); }
    if p.footer.None? { return Err("no footer"); }
    if !p.header.value.Header? || p.header.value.format != FORMAT { return Err("unknown format"); }
    if p.header.value.version != VERSION { return Err("unsupported version"); }
    if !p.footer.value.Footer? { return Err("no footer"); }
    if exists m | m in known :: Expected(p.footer.value.rowCounts, m) != |RowsOf(p.rows, m)| { return Err("row counts do not agree"); }
    if total != p.footer.value.totalRows { return Err("total does not agree"); }
    r := Ok(p);
  }

  lemma {:induction false} StuckParse(lines: seq<Line>, known: seq<nat>, k: nat)
    requires k <= |lines| && ParseLines(lines[..k], known).Err?
    ensures ParseLines(lines, known) == ParseLines(lines[..k], known)
  {
    if k == |lines| {
      assert lines[..k] == lines;
    } else {
      var init := lines[..|lines| - 1];
      assert init[..k] == lines[..k];
      StuckParse(init, known, k);
    }
  }

  // ---- what is dumped is what is read -----------------------------------------------------------

  predicate DistinctModels(tables: seq<Table>) { forall i,
                           j | 0 <= i < j < |tables| :: tables[i].model != tables[j].model }

  function Models(tables: seq<Table>): seq<nat> { seq(|tables|, i requires 0 <= i < |tables| => tables[i].model) }

  lemma ParseOneMore(lines: seq<Line>, line: Line, known: seq<nat>)
    ensures var before := ParseLines(lines, known);
            ParseLines(lines + [line], known) == if before.Ok? then ParseLine(before.value, line, known) else before
  {
    assert (lines + [line])[..|lines|] == lines;
  }

  function WithRows(p: Parsed, model: nat, rows: seq<Row>): Parsed {
    if rows == [] then p else p.(rows := p.rows[model := rows])
  }

  lemma OneMoreRow(p: Parsed, model: nat, rows: seq<Row>, row: Row, known: seq<nat>)
    requires p.header.Some? && model in known && model !in p.rows
    ensures ParseLine(WithRows(p, model, rows), RowLine(model, row), known) == Ok(WithRows(p, model, rows + [row]))
  {
    var q := WithRows(p, model, rows);
    assert RowsOf(q.rows, model) == rows;
    assert q.rows[model := rows + [row]] == p.rows[model := rows + [row]];
  }

  lemma {:induction false} ParseTable(lines: seq<Line>, p: Parsed, model: nat, rows: seq<Row>, known: seq<nat>)
    requires ParseLines(lines, known) == Ok(p) && p.header.Some? && model in known && model !in p.rows
    ensures ParseLines(lines + RowLines(model, rows), known) == Ok(WithRows(p, model, rows))
  {
    if rows == [] {
      assert lines + RowLines(model, rows) == lines;
    } else {
      var init, last := rows[..|rows| - 1], rows[|rows| - 1];
      ParseTable(lines, p, model, init, known);
      assert lines + RowLines(model, rows) == (lines + RowLines(model, init)) + [RowLine(model, last)];
      ParseOneMore(lines + RowLines(model, init), RowLine(model, last), known);
      OneMoreRow(p, model, init, last, known);
      assert init + [last] == rows;
    }
  }

  /** The tables that have rows, by model. */
  function Loaded(tables: seq<Table>): map<nat, seq<Row>> {
    if tables == [] then map[]
    else
      var init, last := Loaded(tables[..|tables| - 1]), tables[|tables| - 1];
      if last.rows == [] then init else init[last.model := last.rows]
  }

  lemma {:induction false} LoadedModels(tables: seq<Table>, model: nat)
    requires forall t | t in tables :: t.model != model
    ensures model !in Loaded(tables) && model !in Counts(tables)
  {
    if tables != [] {
      LoadedModels(tables[..|tables| - 1], model);
    }
  }

  /** A file up to the end of a list of tables, and what is known by then. */
  function Opened(market: nat, tables: seq<Table>): seq<Line> { [Header(market, FORMAT, VERSION)] + Body(tables) }

  function SoFar(market: nat, tables: seq<Table>): Parsed { Parsed(Some(Header(market, FORMAT, VERSION)), None,
                 Loaded(tables)) }

  lemma OneMoreTable(market: nat, tables: seq<Table>)
    requires tables != []
    ensures var init, last := tables[..|tables| - 1], tables[|tables| - 1];
            && Opened(market, tables) == Opened(market, init) + RowLines(last.model, last.rows)
            && SoFar(market, tables) == WithRows(SoFar(market, init), last.model, last.rows)
  {
  }

  lemma {:induction false} ParseBody(market: nat, tables: seq<Table>, known: seq<nat>)
    requires DistinctModels(tables) && forall t | t in tables :: t.model in known
    ensures ParseLines(Opened(market, tables), known) == Ok(SoFar(market, tables))
  {
    if tables == [] {
      assert Opened(market, tables) == [] + [Header(market, FORMAT, VERSION)];
      ParseOneMore([], Header(market, FORMAT, VERSION), known);
    } else {
      var init, last := tables[..|tables| - 1], tables[|tables| - 1];
      ParseBody(market, init, known);
      assert last in tables;
      LoadedModels(init, last.model);
      OneMoreTable(market, tables);
      ParseTable(Opened(market, init), SoFar(market, init), last.model, last.rows, known);
    }
  }

  lemma {:induction false} CountsAgree(tables: seq<Table>, i: nat)
    requires DistinctModels(tables) && i < |tables|
    ensures RowsOf(Loaded(tables), tables[i].model) == tables[i].rows
    ensures Expected(Counts(tables), tables[i].model) == |tables[i].rows|
  {
    var n := |tables| - 1;
    if i < n {
      CountsAgree(tables[..n], i);
    } else {
      LoadedModels(tables[..n], tables[n].model);
    }
  }

  lemma {:induction false} TotalsAgree(tables: seq<Table>, k: nat)
    requires DistinctModels(tables) && k <= |tables|
    ensures CountedTotal(Loaded(tables), Models(tables)[..k]) == Total(tables[..k])
  {
    if k > 0 {
      TotalsAgree(tables, k - 1);
      CountsAgree(tables, k - 1);
      assert Models(tables)[..k][..k - 1] == Models(tables)[..k - 1];
      assert tables[..k][..k - 1] == tables[..k - 1];
    }
  }

  lemma ModelsListed(tables: seq<Table>)
    ensures forall t | t in tables :: t.model in Models(tables)
    ensures forall m | m in Models(tables) :: exists i :: 0 <= i < |tables| && tables[i].model == m
  {
    forall t | t in tables ensures t.model in Models(tables) {
      var i :| 0 <= i < |tables| && tables[i] == t;
      assert Models(tables)[i] == t.model;
    }
  }

  lemma ChecksPass(market: nat, tables: seq<Table>)
    requires DistinctModels(tables)
    ensures var p := Parsed(Some(Header(market, FORMAT, VERSION)), Some(Footer(Counts(tables), Total(tables))), Loaded(tables));
            Check(p, Models(tables)) == Ok(p)
  {
    var known := Models(tables);
    ModelsListed(tables);
    forall m | m in known ensures Expected(Counts(tables), m) == |RowsOf(Loaded(tables), m)| {
      var i :| 0 <= i < |tables| && tables[i].model == m;
      CountsAgree(tables, i);
    }
    TotalsAgree(tables, |tables|);
    assert tables[..|tables|] == tables && known[..|tables|] == known;
  }

  /** A dump is read back whole: its counts always agree, and every table has its rows in order. */
  lemma DumpParses(market: nat, tables: seq<Table>)
    requires DistinctModels(tables)
    ensures var p := Parse(File(market, tables), Models(tables));
            && p.Ok? && p.value.header == Some(Header(market, FORMAT, VERSION)) && p.value.rows == Loaded(tables)
            && forall i | 0 <= i < |tables| :: RowsOf(p.value.rows, tables[i].model) == tables[i].rows
  {
    ModelsListed(tables);
    ParseBody(market, tables, Models(tables));
    ParseOneMore(Opened(market, tables), Footer(Counts(tables), Total(tables)), Models(tables));
    ChecksPass(market, tables);
    forall i | 0 <= i < |tables| ensures RowsOf(Loaded(tables), tables[i].model) == tables[i].rows {
      CountsAgree(tables, i);
    }
  }

  lemma {:induction false} NoFooterYet(lines: seq<Line>, known: seq<nat>)
    requires forall l | l in lines :: !l.Footer?
    ensures ParseLines(lines, known).Ok? ==> ParseLines(lines, known).value.footer.None?
  {
    if lines != [] {
      NoFooterYet(lines[..|lines| - 1], known);
    }
  }

  lemma {:induction false} BodyHasNoFooter(tables: seq<Table>)
    ensures forall l | l in Body(tables) :: l.RowLine?
  {
    if tables != [] {
      BodyHasNoFooter(tables[..|tables| - 1]);
    }
  }

  /** A file that was cut off anywhere before its end is refused. */
  lemma TruncatedFileIsRefused(market: nat, tables: seq<Table>, k: nat, known: seq<nat>)
    requires k < |File(market, tables)|
    ensures Parse(File(market, tables)[..k], known).Err?
  {
    var cut := File(market, tables)[..k];
    BodyHasNoFooter(tables);
    forall l | l in cut ensures !l.Footer? {
      var i :| 0 <= i < |cut| && cut[i] == l;
      if i > 0 {
        assert File(market, tables)[i] == Body(tables)[i - 1];
        assert l in Body(tables);
      }
    }
    NoFooterYet(cut, known);
  }
}
