/** Restoring one market from its backup: delete what belongs to it, children first, insert what the
    file holds, parents first, and check the counts, in one transaction. */
module Restore {
  import opened Basics
  import opened F = BackupFile

  datatype Scope = Self | OfMarket | ChildOf(parentModel: nat)

  /** `keepsAll` is the append-only audit log; `omitsSecret` is the user table. */
  datatype Entry = Entry(model: nat, scope: Scope, keepsAll: bool, omitsSecret: bool)

  type Table = map<nat, Row>

  type Db = map<nat, Table>

  /** Models are listed once, children after the table of the parent they belong through; secrets are
      omitted from one table only, whose rows name their market. */
  ghost predicate WellFormed(registry: seq<Entry>) {
    && (forall i, j | 0 <= i < j < |registry| :: registry[i].model != registry[j].model)
    && (forall i | 0 <= i < |registry| && registry[i].scope.ChildOf? ::
          exists j | 0 <= j < i :: registry[j] == Entry(registry[i].scope.parentModel, OfMarket, false, registry[j].omitsSecret))
    && (forall i | 0 <= i < |registry| && registry[i].omitsSecret :: registry[i].scope == OfMarket && !registry[i].keepsAll)
    && (forall i | 0 <= i < |registry| && registry[i].keepsAll :: registry[i].scope == OfMarket)
    && (forall i, j | 0 <= i < |registry| && 0 <= j < |registry| && registry[i].omitsSecret && registry[j].omitsSecret :: i == j)
  }

  /** Rows are found under their ids, and no two rows share a value under a unique index. */
  ghost predicate TableOk(table: Table) {
    && (forall id | id in table :: table[id].id == id)
    && (forall id, other | id in table && other in table && id != other :: table[id].keys !! table[other].keys)
  }

  /** Every table of the registry is there and sound. */
  ghost predicate HasTables(db: Db, registry: seq<Entry>) {
    forall i | 0 <= i < |registry| :: registry[i].model in db && TableOk(db[registry[i].model])
  }

  /** The rows of one market: its own row, rows that name it, rows whose parent names it. */
  predicate Owned(db: Db, e: Entry, row: Row, market: nat) {
    match e.scope
    case Self => row.id == market
    case OfMarket => row.market == Some(market)
    case ChildOf(p) => p in db && row.parent in db[p] && db[p][row.parent].market == Some(market)
  }

  function OwnedRows(db: Db, e: Entry, market: nat): Table
    requires e.model in db
  {
    map id | id in db[e.model] && Owned(db, e, db[e.model][id], market) :: db[e.model][id]
  }

  function ForeignRows(db: Db, e: Entry, market: nat): Table
    requires e.model in db
  {
    map id | id in db[e.model] && !Owned(db, e, db[e.model][id], market) :: db[e.model][id]
  }

  // ---- the backup -------------------------------------------------------------------------------

  function Stripped(e: Entry, row: Row): Row { if e.omitsSecret then row.(password := 0, token := 0) else row }

  /** The file lists exactly the market's rows of a table, in id order, without secrets. */
  ghost predicate Dumps(db: Db, e: Entry, market: nat, rows: seq<Row>)
    requires e.model in db
  {
    && F.InIdOrder(rows)
    && (forall r | r in rows :: r.id in OwnedRows(db, e, market) && r == Stripped(e, db[e.model][r.id]))
    && (forall id | id in OwnedRows(db, e, market) :: Stripped(e, db[e.model][id]) in rows)
  }

  ghost predicate IsBackup(db: Db, registry: seq<Entry>, market: nat, file: map<nat, seq<Row>>) {
    forall i | 0 <= i < |registry| :: registry[i].model in db && Dumps(db, registry[i], market, F.RowsOf(file, registry[i].model))
  }

  // ---- the restore ------------------------------------------------------------------------------

  function DeleteOwned(db: Db, e: Entry, market: nat): Db {
    if e.keepsAll || e.model !in db then db else db[e.model := ForeignRows(db, e, market)]
  }

  /** Deleting from the end of the registry back to entry `k`. */
  function DeletedFrom(db: Db, registry: seq<Entry>, market: nat, k: nat): Db
    requires k <= |registry|
    decreases |registry| - k
  {
    if k == |registry| then db else DeleteOwned(DeletedFrom(db, registry, market, k + 1), registry[k], market)
  }

  /** A user that was there keeps the stored password, another one is locked. The file holds no token,
      and the tool puts none back. */
  function Unlocked(e: Entry, kept: map<nat, int>, locked: int, row: Row): Row {
    if !e.omitsSecret then row
    else row.(password := if row.id in kept then kept[row.id] else locked)
  }

  /** Another row holds one of the row's values under a unique index. */
  predicate Clashes(table: Table, row: Row) {
    exists id | id in table :: table[id].keys * row.keys != {}
  }

  /** Insertion of one row. A taken id or unique value is an error; in the audit log, which is unique in
      nothing but its id, a taken id is skipped. */
  function InsertRow(table: Table, e: Entry, row: Row): Result<Table> {
    if e.keepsAll then Ok(if row.id in table then table else table[row.id := row])
    else if row.id in table then Err("id is taken")
    else if Clashes(table, row) then Err("a unique value is taken")
    else Ok(table[row.id := row])
  }

  function InsertRows(table: Table, e: Entry, kept: map<nat, int>, locked: int, rows: seq<Row>): Result<Table> {
    if rows == [] then Ok(table)
    else
      match InsertRows(table, e, kept, locked, rows[..|rows| - 1])
      case Err(reason) => Err(reason)
      case Ok(t) => InsertRow(t, e, Unlocked(e, kept, locked, rows[|rows| - 1]))
  }

  /** After inserting the first `k` tables. */
  function InsertedUpTo(db: Db, registry: seq<Entry>, kept: map<nat, int>, locked: int, file: map<nat, seq<Row>>,
                        k: nat): Result<Db>
    requires k <= |registry|
  {
    if k == 0 then Ok(db)
    else
      match InsertedUpTo(db, registry, kept, locked, file, k - 1)
      case Err(reason) => Err(reason)
      case Ok(d) =>
        var e := registry[k - 1];
        if e.model !in d then Err("table not found")
        else
          match InsertRows(d[e.model], e, kept, locked, F.RowsOf(file, e.model))
          case Err(reason) => Err(reason)
          case Ok(t) => Ok(d[e.model := t])
  }

  predicate CountOk(db: Db, e: Entry, market: nat, expected: nat) {
    e.model in db
    && var actual := |OwnedRows(db, e, market)|;
       if e.keepsAll then actual >= expected else actual == expected
  }

  /** Passwords of the market's users as they are now. */
  function KeptPasswords(db: Db, registry: seq<Entry>, market: nat): map<nat, int> {
    if registry == [] then map[]
    else
      var e := registry[|registry| - 1];
      var before := KeptPasswords(db, registry[..|registry| - 1], market);
      if e.omitsSecret && e.model in db then
        before + map id | id in db[e.model] && db[e.model][id].market == Some(market) :: db[e.model][id].password
      else before
  }

  function RestoreMarket(db: Db, registry: seq<Entry>, market: nat, file: map<nat, seq<Row>>, locked: int): Result<Db> {
    match InsertedUpTo(DeletedFrom(db, registry, market, 0), registry, KeptPasswords(db, registry, market), locked, file, |registry|)
    case Err(reason) => Err(reason)
    case Ok(after) =>
      if exists i | 0 <= i < |registry| :: !CountOk(after, registry[i], market, |F.RowsOf(file, registry[i].model)|)
      then Err("counts after the restore do not agree")
      else Ok(after)
  }

  /** The tool as it runs: an abort leaves the database as it was, and so does a run without the
      market's id as confirmation. */
  class Tool {
    var db: Db

    constructor (db: Db)
      ensures this.db == db
    {
      this.db := db;
    }

    method DeleteMarket(registry: seq<Entry>, market: nat)
      modifies this
      ensures db == DeletedFrom(old(db), registry, market, 0)
    {
      var k: nat := |registry|;
      while k > 0
        invariant k <= |registry| && db == DeletedFrom(old(db), registry, market, k)
      {
        k := k - 1;
        db := DeleteOwned(db, registry[k], market);
      }
    }

    method InsertAll(registry: seq<Entry>, kept: map<nat, int>, locked: int, file: map<nat, seq<Row>>)
      returns (error: Option<string>)
      modifies this
      ensures match InsertedUpTo(old(db), registry, kept, locked, file, |registry|)
              case Ok(d) => error == None && db == d
              case Err(reason) => error == Some(reason)
    {
      for k := 0 to |registry|
        invariant InsertedUpTo(old(db), registry, kept, locked, file, k) == Ok(db)
      {
        var e := registry[k];
        if e.model !in db {
          StuckInsert(old(db), registry, kept, locked, file, k + 1, |registry|);
          return Some("table not found");
        }
        var table := InsertRows(db[e.model], e, kept, locked, F.RowsOf(file, e.model));
        if table.Err? {
          StuckInsert(old(db), registry, kept, locked, file, k + 1, |registry|);
          return Some(table.reason);
        }
        db := db[e.model := table.value];
      }
      error := None;
    }

    method Restore(registry: seq<Entry>, market: nat, file: map<nat, seq<Row>>, locked: int, confirmed: Option<nat>)
      returns (error: Option<string>)
      modifies this
      ensures confirmed != Some(market) ==> error == None && db == old(db)
      ensures confirmed == Some(market) ==>
                match RestoreMarket(old(db), registry, market, file, locked)
                case Ok(d) => error == None && db == d
                case Err(reason) => error == Some(reason) && db == old(db)
    {
      if confirmed != Some(market) { return None; }
      var before := db;
      var kept := KeptPasswords(db, registry, market);
      DeleteMarket(registry, market);
      error := InsertAll(registry, kept, locked, file);
      if error == None && exists i | 0 <= i < |registry| :: !CountOk(db, registry[i], market, |F.RowsOf(file, registry[i].model)|) {
        error := Some("counts after the restore do not agree");
      }
      if error.Some? { db := before; }
    }
  }

  lemma {:induction false} StuckInsert(db: Db, registry: seq<Entry>, kept: map<nat, int>, locked: int, file: map<nat,
                                       seq<Row>>, k: nat, n: nat)
    requires k <= n <= |registry| && InsertedUpTo(db, registry, kept, locked, file, k).Err?
    ensures InsertedUpTo(db, registry, kept, locked, file, n) == InsertedUpTo(db, registry, kept, locked, file, k)
  {
    if k < n {
      StuckInsert(db, registry, kept, locked, file, k, n - 1);
    }
  }

  // ---- what deletion leaves ---------------------------------------------------------------------

  /** Only tables from `k` on have changed; there, exactly the market's rows are gone. */
  ghost predicate DeletedTo(db: Db, after: Db, registry: seq<Entry>, market: nat, k: nat)
    requires HasTables(db, registry) && k <= |registry|
  {
    && after.Keys == db.Keys
    && (forall m | m in db && (forall i | k <= i < |registry| :: registry[i].model != m) :: after[m] == db[m])
    && (forall i | k <= i < |registry| ::
          after[registry[i].model] == if registry[i].keepsAll then db[registry[i].model] else ForeignRows(db, registry[i], market))
  }

  lemma JudgedAsBefore(db: Db, later: Db, registry: seq<Entry>, market: nat, k: nat)
    requires WellFormed(registry) && HasTables(db, registry) && k < |registry|
    requires DeletedTo(db, later, registry, market, k + 1)
    ensures later[registry[k].model] == db[registry[k].model]
    ensures ForeignRows(later, registry[k], market) == ForeignRows(db, registry[k], market)
  {
    var e := registry[k];
    assert forall i | k + 1 <= i < |registry| :: registry[i].model != e.model;
    if e.scope.ChildOf? {
      var j :| 0 <= j < k && registry[j] == Entry(e.scope.parentModel, OfMarket, false, registry[j].omitsSecret);
      assert forall i | k + 1 <= i < |registry| :: registry[i].model != registry[j].model;
    }
  }

  /** Children go before their parents, so each row is judged by the parents the market had. */
  lemma {:induction false} DeletionIsExact(db: Db, registry: seq<Entry>, market: nat, k: nat)
    requires WellFormed(registry) && HasTables(db, registry) && k <= |registry|
    ensures DeletedTo(db, DeletedFrom(db, registry, market, k), registry, market, k)
    decreases |registry| - k
  {
    if k < |registry| {
      DeletionIsExact(db, registry, market, k + 1);
      var later, e := DeletedFrom(db, registry, market, k + 1), registry[k];
      JudgedAsBefore(db, later, registry, market, k);
      assert forall i | k + 1 <= i < |registry| :: registry[i].model != e.model;
    }
  }

  // ---- what insertion leaves --------------------------------------------------------------------

  ghost predicate Inserted(before: Table, after: Table, e: Entry, kept: map<nat, int>, locked: int, rows: seq<Row>) {
    && (forall id | id in before :: id in after && after[id] == before[id])
    && (forall id | id in after && id !in before :: exists r | r in rows :: r.id == id && after[id] == Unlocked(e, kept, locked, r))
    && (forall r | r in rows :: r.id in after && (!e.keepsAll ==> r.id !in before))
  }

  lemma OneRowInserted(table: Table, t: Table, e: Entry, kept: map<nat, int>, locked: int, init: seq<Row>, row: Row)
    requires Inserted(table, t, e, kept, locked, init) && InsertRow(t, e, Unlocked(e, kept, locked, row)).Ok?
    ensures Inserted(table, InsertRow(t, e, Unlocked(e, kept, locked, row)).value, e, kept, locked, init + [row])
  {
    assert forall r :: r in init + [row] <==> r in init || r == row;
  }

  lemma {:induction false} InsertionIsExact(table: Table, e: Entry, kept: map<nat, int>, locked: int, rows: seq<Row>)
    requires InsertRows(table, e, kept, locked, rows).Ok?
    ensures Inserted(table, InsertRows(table, e, kept, locked, rows).value, e, kept, locked, rows)
  {
    if rows != [] {
      var init, last := rows[..|rows| - 1], rows[|rows| - 1];
      InsertionIsExact(table, e, kept, locked, init);
      OneRowInserted(table, InsertRows(table, e, kept, locked, init).value, e, kept, locked, init, last);
      assert rows == init + [last];
    }
  }

  /** Tables before `k` hold what was inserted, the others are untouched. */
  ghost predicate InsertedTo(db: Db, after: Db, registry: seq<Entry>, kept: map<nat, int>, locked: int, file: map<nat,
                             seq<Row>>, k: nat)
    requires k <= |registry|
  {
    && after.Keys == db.Keys
    && (forall m | m in db && (forall i | 0 <= i < k :: registry[i].model != m) :: after[m] == db[m])
    && (forall i | 0 <= i < k ::
          registry[i].model in db
          && Inserted(db[registry[i].model], after[registry[i].model], registry[i], kept, locked, F.RowsOf(file, registry[i].model)))
  }

  lemma OneMoreInserted(db: Db, d: Db, registry: seq<Entry>, kept: map<nat, int>, locked: int, file: map<nat,
                        seq<Row>>, k: nat, t: Table)
    requires k < |registry| && InsertedTo(db, d, registry, kept, locked, file, k) && registry[k].model in d
    requires forall i | 0 <= i < k :: registry[i].model != registry[k].model
    requires Inserted(d[registry[k].model], t, registry[k], kept, locked, F.RowsOf(file, registry[k].model))
    ensures InsertedTo(db, d[registry[k].model := t], registry, kept, locked, file, k + 1)
  {
    assert d[registry[k].model] == db[registry[k].model];
  }

  lemma {:induction false} InsertionsAreExact(db: Db, registry: seq<Entry>, kept: map<nat, int>, locked: int,
                                              file: map<nat, seq<Row>>, k: nat)
    requires WellFormed(registry) && k <= |registry| && InsertedUpTo(db, registry, kept, locked, file, k).Ok?
    ensures InsertedTo(db, InsertedUpTo(db, registry, kept, locked, file, k).value, registry, kept, locked, file, k)
  {
    if k > 0 {
      InsertionsAreExact(db, registry, kept, locked, file, k - 1);
      var d, e := InsertedUpTo(db, registry, kept, locked, file, k - 1).value, registry[k - 1];
      InsertionIsExact(d[e.model], e, kept, locked, F.RowsOf(file, e.model));
      OneMoreInserted(db, d, registry, kept, locked, file, k - 1, InsertRows(d[e.model], e, kept, locked, F.RowsOf(file, e.model)).value);
    }
  }

  // ---- a restore that commits -------------------------------------------------------------------

  function Ids(rows: seq<Row>): set<nat> { set r | r in rows :: r.id }

  lemma {:induction false} AsManyIdsAsRows(rows: seq<Row>)
    requires F.InIdOrder(rows)
    ensures |Ids(rows)| == |rows|
  {
    if rows != [] {
      var init, last := rows[..|rows| - 1], rows[|rows| - 1];
      AsManyIdsAsRows(init);
      assert rows == init + [last];
      assert Ids(rows) == Ids(init) + {last.id};
      assert last.id !in Ids(init);
    }
  }

  lemma SubsetOfSameSize(a: set<nat>, b: set<nat>)
    requires a <= b && |a| == |b|
    ensures a == b
  {
    assert b == a + (b - a);
  }

  /** What a committed restore leaves in a table: exactly the file's rows belong to the market, equal to
      the file up to what it never carries; every row of other markets is untouched; the audit log only grows. */
  ghost predicate Restored(db: Db, after: Db, e: Entry, market: nat, rows: seq<Row>)
    requires e.model in db && e.model in after
  {
    && (forall r | r in rows :: r.id in after[e.model])
    && (!e.keepsAll ==>
          && OwnedRows(after, e, market).Keys == Ids(rows)
          && (forall r | r in rows :: r.id in after[e.model] && Stripped(e, after[e.model][r.id]) == r)
          && (forall id | id in ForeignRows(db, e, market) :: id in after[e.model] && after[e.model][id] == db[e.model][id])
          && (forall id | id in after[e.model] :: id in Ids(rows) || id in ForeignRows(db, e, market)))
    && (e.keepsAll ==>
          && (forall id | id in db[e.model] :: id in after[e.model] && after[e.model][id] == db[e.model][id])
          && (forall id | id in after[e.model] :: id in db[e.model] || id in Ids(rows)))
  }

  lemma RowInserted(before: Table, after: Table, e: Entry, kept: map<nat, int>, locked: int, rows: seq<Row>, r: Row)
    requires Inserted(before, after, e, kept, locked, rows) && F.InIdOrder(rows) && r in rows && !e.keepsAll
    ensures r.id in after && after[r.id] == Unlocked(e, kept, locked, r)
  {
    var s :| s in rows && s.id == r.id && after[r.id] == Unlocked(e, kept, locked, s);
    var i :| 0 <= i < |rows| && rows[i] == r;
    var j :| 0 <= j < |rows| && rows[j] == s;
    assert i == j;
  }

  /** A row of the file goes in as it is, up to what the file never carries. */
  lemma FileRowIsIn(source: Db, e: Entry, market: nat, rows: seq<Row>, before: Table, after: Table, kept: map<nat,
                    int>, locked: int, r: Row)
    requires e.model in source && Dumps(source, e, market, rows) && !e.keepsAll && r in rows
    requires Inserted(before, after, e, kept, locked, rows)
    ensures r.id in after && Stripped(e, after[r.id]) == r
    ensures r.id in OwnedRows(source, e, market) && Stripped(e, source[e.model][r.id]) == r
  {
    RowInserted(before, after, e, kept, locked, rows, r);
  }

  /** Where the parents of a child table are listed. */
  lemma ParentEntry(registry: seq<Entry>, i: nat) returns (j: nat)
    requires WellFormed(registry) && i < |registry| && registry[i].scope.ChildOf?
    ensures j < i && registry[j].model == registry[i].scope.parentModel && registry[j].scope == OfMarket && !registry[j].keepsAll
  {
    j :| 0 <= j < i && registry[j] == Entry(registry[i].scope.parentModel, OfMarket, false, registry[j].omitsSecret);
  }

  /** A parent of a market's row goes in as the market's. */
  lemma ParentIsIn(source: Db, p: Entry, market: nat, parents: seq<Row>, before: Table, after: Table, kept: map<nat,
                   int>, locked: int, id: nat)
    requires p.model in source && TableOk(source[p.model]) && Dumps(source, p, market, parents) && !p.keepsAll
    requires Inserted(before, after, p, kept, locked, parents)
    requires p.scope == OfMarket && id in source[p.model] && source[p.model][id].market == Some(market)
    ensures id in after && after[id].market == Some(market)
  {
    var q := Stripped(p, source[p.model][id]);
    assert id in OwnedRows(source, p, market) && q in parents;
    RowInserted(before, after, p, kept, locked, parents, q);
  }

  /** A row of the file belongs to the market once it is in: through its own columns, or through a
      parent that was restored before it. */
  lemma FileRowIsOwned(source: Db, middle: Db, after: Db, registry: seq<Entry>, market: nat, file: map<nat, seq<Row>>,
                       kept: map<nat, int>, locked: int, i: nat, r: Row)
    requires WellFormed(registry) && HasTables(source, registry) && IsBackup(source, registry, market, file)
    requires InsertedTo(middle, after, registry, kept, locked, file, |registry|)
    requires i < |registry| && !registry[i].keepsAll && r in F.RowsOf(file, registry[i].model)
    ensures var e := registry[i];
            e.model in after && r.id in after[e.model]
            && Owned(after, e, after[e.model][r.id], market) && Stripped(e, after[e.model][r.id]) == r
  {
    var e := registry[i];
    assert Dumps(source, e, market, F.RowsOf(file, e.model));
    FileRowIsIn(source, e, market, F.RowsOf(file, e.model), middle[e.model], after[e.model], kept, locked, r);
    if e.scope.ChildOf? {
      var j := ParentEntry(registry, i);
      var p := registry[j];
      assert Dumps(source, p, market, F.RowsOf(file, p.model)) && TableOk(source[p.model]);
      ParentIsIn(source, p, market, F.RowsOf(file, p.model), middle[p.model], after[p.model], kept, locked, r.parent);
    }
  }

  lemma EntryIsRestored(db: Db, source: Db, middle: Db, after: Db, registry: seq<Entry>, market: nat, file: map<nat,
                        seq<Row>>,
                        kept: map<nat, int>, locked: int, i: nat)
    requires WellFormed(registry) && HasTables(db, registry) && HasTables(source, registry) && IsBackup(source, registry, market, file)
    requires DeletedTo(db, middle, registry, market, 0)
    requires InsertedTo(middle, after, registry, kept, locked, file, |registry|)
    requires i < |registry| && registry[i].model in after
    requires CountOk(after, registry[i], market, |F.RowsOf(file, registry[i].model)|)
    ensures Restored(db, after, registry[i], market, F.RowsOf(file, registry[i].model))
  {
    var e := registry[i];
    var rows := F.RowsOf(file, e.model);
    assert Dumps(source, e, market, rows);
    assert Inserted(middle[e.model], after[e.model], e, kept, locked, rows);
    if !e.keepsAll {
      forall r | r in rows
        ensures r.id in after[e.model] && Owned(after, e, after[e.model][r.id], market) && Stripped(e, after[e.model][r.id]) == r
      {
        FileRowIsOwned(source, middle, after, registry, market, file, kept, locked, i, r);
      }
      AsManyIdsAsRows(rows);
      assert Ids(rows) <= OwnedRows(after, e, market).Keys;
      assert |OwnedRows(after, e, market).Keys| == |OwnedRows(after, e, market)|;
      SubsetOfSameSize(Ids(rows), OwnedRows(after, e, market).Keys);
    }
  }

  lemma EntriesAreRestored(db: Db, source: Db, middle: Db, after: Db, registry: seq<Entry>, market: nat,
                           file: map<nat, seq<Row>>,
                           kept: map<nat, int>, locked: int)
    requires WellFormed(registry) && HasTables(db, registry) && HasTables(source, registry) && IsBackup(source, registry, market, file)
    requires DeletedTo(db, middle, registry, market, 0)
    requires InsertedTo(middle, after, registry, kept, locked, file, |registry|)
    requires forall i | 0 <= i < |registry| :: CountOk(after, registry[i], market, |F.RowsOf(file, registry[i].model)|)
    ensures forall i | 0 <= i < |registry| ::
              registry[i].model in after && Restored(db, after, registry[i], market, F.RowsOf(file, registry[i].model))
  {
    forall i | 0 <= i < |registry|
      ensures registry[i].model in after && Restored(db, after, registry[i], market, F.RowsOf(file, registry[i].model))
    {
      EntryIsRestored(db, source, middle, after, registry, market, file, kept, locked, i);
    }
  }

  /** A restore either aborts or leaves every table as the backup says and all else alone. */
  lemma RestoreReplacesTheMarket(db: Db, source: Db, registry: seq<Entry>, market: nat, file: map<nat, seq<Row>>,
                                 locked: int)
    returns (after: Db)
    requires WellFormed(registry) && HasTables(db, registry) && HasTables(source, registry)
    requires IsBackup(source, registry, market, file) && RestoreMarket(db, registry, market, file, locked).Ok?
    ensures RestoreMarket(db, registry, market, file, locked) == Ok(after) && after.Keys == db.Keys
    ensures forall m | m in db && (forall i | 0 <= i < |registry| :: registry[i].model != m) :: after[m] == db[m]
    ensures forall i | 0 <= i < |registry| :: Restored(db, after, registry[i], market, F.RowsOf(file, registry[i].model))
  {
    var middle, kept := DeletedFrom(db, registry, market, 0), KeptPasswords(db, registry, market);
    DeletionIsExact(db, registry, market, 0);
    InsertionsAreExact(middle, registry, kept, locked, file, |registry|);
    after := RestoreMarket(db, registry, market, file, locked).value;
    EntriesAreRestored(db, source, middle, after, registry, market, file, kept, locked);
  }

  /** What the backup job writes is read back as a backup of the market. */
  lemma DumpedFileIsABackup(db: Db, registry: seq<Entry>, market: nat, tables: seq<F.Table>)
    requires |tables| == |registry| && F.DistinctModels(tables)
    requires forall i | 0 <= i < |registry| ::
               tables[i].model == registry[i].model && registry[i].model in db && Dumps(db, registry[i], market, tables[i].rows)
    ensures var p := F.Parse(F.File(market, tables), F.Models(tables));
            p.Ok? && IsBackup(db, registry, market, p.value.rows)
  {
    F.DumpParses(market, tables);
  }

  // ---- when a restore commits -------------------------------------------------------------------

  /** Nothing the deletion leaves holds the id or a unique value of a row of the file. */
  ghost predicate Free(table: Table, rows: seq<Row>) {
    forall r | r in rows :: r.id !in table && !Clashes(table, r)
  }

  /** The market's rows of the log, and those of the file that are missing in it, are as many as the file
      holds. */
  ghost predicate LogCovers(db: Db, e: Entry, market: nat, rows: seq<Row>)
    requires e.model in db
  {
    |OwnedRows(db, e, market)| + |Ids(rows) - db[e.model].Keys| >= |rows|
  }

  /** There is room for the file's rows of every table: their ids and unique values are free among the
      rows of other markets; and the audit log holds no row of the file as another market's. */
  ghost predicate HasRoom(db: Db, e: Entry, market: nat, rows: seq<Row>)
    requires e.model in db
  {
    if e.keepsAll then LogCovers(db, e, market, rows) else Free(ForeignRows(db, e, market), rows)
  }

  /** Foreign keys hold: no row hangs on a parent that is not there. */
  ghost predicate ParentsExist(db: Db, registry: seq<Entry>) {
    forall i | 0 <= i < |registry| && registry[i].scope.ChildOf? ::
      registry[i].model in db && registry[i].scope.parentModel in db
      && forall id | id in db[registry[i].model] :: db[registry[i].model][id].parent in db[registry[i].scope.parentModel]
  }

  /** Rows of one table: in id order, and no two share a unique value. */
  ghost predicate RowsOfTable(rows: seq<Row>) {
    F.InIdOrder(rows) && forall i, j | 0 <= i < j < |rows| :: rows[i].keys !! rows[j].keys
  }

  lemma DumpedRowsOfTable(db: Db, registry: seq<Entry>, market: nat, rows: seq<Row>, i: nat)
    requires HasTables(db, registry) && i < |registry| && Dumps(db, registry[i], market, rows)
    ensures RowsOfTable(rows)
  {
    var table := db[registry[i].model];
    assert TableOk(table);
    forall p, q | 0 <= p < q < |rows| ensures rows[p].keys !! rows[q].keys {
      assert rows[p] in rows && rows[q] in rows;
      assert rows[p].keys == table[rows[p].id].keys && rows[q].keys == table[rows[q].id].keys;
    }
  }

  /** Rows go in exactly when each of them finds its id and unique values free. */
  lemma {:induction false} InsertionNeedsRoom(table: Table, e: Entry, kept: map<nat, int>, locked: int, rows: seq<Row>)
    requires RowsOfTable(rows)
    ensures InsertRows(table, e, kept, locked, rows).Ok? <==> e.keepsAll || Free(table, rows)
  {
    if rows != [] {
      var init, last := rows[..|rows| - 1], rows[|rows| - 1];
      assert forall r :: r in rows <==> r in init || r == last;
      InsertionNeedsRoom(table, e, kept, locked, init);
      if !e.keepsAll && InsertRows(table, e, kept, locked, init).Ok? {
        InsertionIsExact(table, e, kept, locked, init);
        LastFindsRoom(table, InsertRows(table, e, kept, locked, init).value, e, kept, locked, rows);
      }
    }
  }

  /** The rows inserted before it do not stand in the way of the last one. */
  lemma LastFindsRoom(table: Table, t: Table, e: Entry, kept: map<nat, int>, locked: int, rows: seq<Row>)
    requires rows != [] && RowsOfTable(rows) && !e.keepsAll
    requires Inserted(table, t, e, kept, locked, rows[..|rows| - 1])
    ensures var last := rows[|rows| - 1];
            (last.id in t <==> last.id in table) && (Clashes(t, last) <==> Clashes(table, last))
  {
    var n := |rows| - 1;
    var init, last := rows[..n], rows[n];
    forall r | r in init ensures r.id != last.id && r.keys !! last.keys {
      var i :| 0 <= i < |init| && init[i] == r;
      assert rows[i] == r && rows[i].id < rows[n].id && rows[i].keys !! rows[n].keys;
    }
    forall id | id in t && id !in table ensures t[id].keys * last.keys == {} {
      var r :| r in init && r.id == id && t[id] == Unlocked(e, kept, locked, r);
      assert t[id].keys == r.keys;
    }
    if Clashes(table, last) {
      var id :| id in table && table[id].keys * last.keys != {};
      assert id in t && t[id].keys * last.keys != {};
    }
  }

  /** The ids and unique values of the first `k` tables of the file are free. */
  ghost predicate RoomUpTo(middle: Db, registry: seq<Entry>, file: map<nat, seq<Row>>, k: nat)
    requires k <= |registry| && forall i | 0 <= i < |registry| :: registry[i].model in middle
  {
    forall i | 0 <= i < k :: registry[i].keepsAll || Free(middle[registry[i].model], F.RowsOf(file, registry[i].model))
  }

  lemma TableStillAsItWas(middle: Db, d: Db, registry: seq<Entry>, kept: map<nat, int>, locked: int, file: map<nat,
                          seq<Row>>, k: nat)
    requires WellFormed(registry) && k < |registry| && registry[k].model in middle
    requires InsertedTo(middle, d, registry, kept, locked, file, k)
    ensures registry[k].model in d && d[registry[k].model] == middle[registry[k].model]
  {
    assert forall i | 0 <= i < k :: registry[i].model != registry[k].model;
  }

  lemma {:induction false} InsertionsNeedRoom(middle: Db, registry: seq<Entry>, kept: map<nat, int>, locked: int,
                                              file: map<nat, seq<Row>>, k: nat)
    requires WellFormed(registry) && k <= |registry|
    requires forall i | 0 <= i < |registry| :: registry[i].model in middle && RowsOfTable(F.RowsOf(file, registry[i].model))
    ensures InsertedUpTo(middle, registry, kept, locked, file, k).Ok? <==> RoomUpTo(middle, registry, file, k)
  {
    if k > 0 {
      InsertionsNeedRoom(middle, registry, kept, locked, file, k - 1);
      if InsertedUpTo(middle, registry, kept, locked, file, k - 1).Ok? {
        InsertionsAreExact(middle, registry, kept, locked, file, k - 1);
        var d := InsertedUpTo(middle, registry, kept, locked, file, k - 1).value;
        TableStillAsItWas(middle, d, registry, kept, locked, file, k - 1);
        InsertionNeedsRoom(d[registry[k - 1].model], registry[k - 1], kept, locked, F.RowsOf(file, registry[k - 1].model));
      }
    }
  }

  /** With foreign keys in place, a row of another market does not become the market's by a restore. */
  lemma ForeignRowStaysForeign(db: Db, middle: Db, after: Db, registry: seq<Entry>, market: nat, file: map<nat,
                               seq<Row>>,
                               kept: map<nat, int>, locked: int, i: nat, id: nat)
    requires WellFormed(registry) && HasTables(db, registry) && ParentsExist(db, registry)
    requires DeletedTo(db, middle, registry, market, 0)
    requires InsertedTo(middle, after, registry, kept, locked, file, |registry|)
    requires i < |registry| && !registry[i].keepsAll && id in ForeignRows(db, registry[i], market)
    ensures !Owned(after, registry[i], db[registry[i].model][id], market)
  {
    var e := registry[i];
    if e.scope.ChildOf? {
      var j := ParentEntry(registry, i);
      var p := registry[j];
      var row := db[e.model][id];
      assert row.parent in ForeignRows(db, p, market);
      assert Inserted(middle[p.model], after[p.model], p, kept, locked, F.RowsOf(file, p.model));
      assert after[p.model][row.parent] == db[p.model][row.parent];
    }
  }

  /** What the market owns in a table after the insertions is what the file lists. */
  lemma OwnedIsListed(db: Db, source: Db, middle: Db, after: Db, registry: seq<Entry>, market: nat, file: map<nat,
                      seq<Row>>,
                      kept: map<nat, int>, locked: int, i: nat, id: nat)
    requires WellFormed(registry) && HasTables(db, registry) && HasTables(source, registry) && ParentsExist(db, registry)
    requires IsBackup(source, registry, market, file) && DeletedTo(db, middle, registry, market, 0)
    requires InsertedTo(middle, after, registry, kept, locked, file, |registry|)
    requires i < |registry| && registry[i].model in after && !registry[i].keepsAll
    ensures id in OwnedRows(after, registry[i], market) <==> id in Ids(F.RowsOf(file, registry[i].model))
  {
    var e := registry[i];
    var rows := F.RowsOf(file, e.model);
    if id in Ids(rows) {
      var r :| r in rows && r.id == id;
      FileRowIsOwned(source, middle, after, registry, market, file, kept, locked, i, r);
    } else if id in after[e.model] {
      assert Inserted(middle[e.model], after[e.model], e, kept, locked, rows);
      TableAfterDeletion(db, middle, registry, market, i);
      ForeignRowStaysForeign(db, middle, after, registry, market, file, kept, locked, i, id);
    }
  }

  lemma MarketCountSucceeds(db: Db, source: Db, middle: Db, after: Db, registry: seq<Entry>, market: nat,
                            file: map<nat, seq<Row>>,
                            kept: map<nat, int>, locked: int, i: nat)
    requires WellFormed(registry) && HasTables(db, registry) && HasTables(source, registry) && ParentsExist(db, registry)
    requires IsBackup(source, registry, market, file) && DeletedTo(db, middle, registry, market, 0)
    requires InsertedTo(middle, after, registry, kept, locked, file, |registry|)
    requires i < |registry| && registry[i].model in after && !registry[i].keepsAll
    ensures |OwnedRows(after, registry[i], market)| == |F.RowsOf(file, registry[i].model)|
  {
    var rows, owned := F.RowsOf(file, registry[i].model), OwnedRows(after, registry[i], market);
    forall id: nat ensures id in owned <==> id in Ids(rows) {
      OwnedIsListed(db, source, middle, after, registry, market, file, kept, locked, i, id);
    }
    assert Dumps(source, registry[i], market, rows);
    AsManyIdsAsRows(rows);
    assert owned.Keys == Ids(rows) && |owned.Keys| == |owned|;
  }

  lemma LogRowsAreOwned(db: Db, source: Db, after: Db, e: Entry, market: nat, rows: seq<Row>, kept: map<nat, int>,
                        locked: int, id: nat)
    requires e.keepsAll && !e.omitsSecret && e.scope == OfMarket && e.model in db && e.model in source && e.model in after
    requires Dumps(source, e, market, rows) && Inserted(db[e.model], after[e.model], e, kept, locked, rows)
    ensures id in OwnedRows(after, e, market) <==> id in OwnedRows(db, e, market) || (id in Ids(rows) && id !in db[e.model])
  {
    if id in after[e.model] && id !in db[e.model] {
      var s :| s in rows && s.id == id && after[e.model][id] == Unlocked(e, kept, locked, s);
      assert s.market == Some(market);
    } else if id in Ids(rows) {
      var r :| r in rows && r.id == id;
      assert id in after[e.model];
    }
  }

  /** The market's part of the log has grown by the rows of the file that were missing. */
  lemma LogCount(db: Db, source: Db, after: Db, e: Entry, market: nat, rows: seq<Row>, kept: map<nat, int>, locked: int)
    requires e.keepsAll && !e.omitsSecret && e.scope == OfMarket && e.model in db && e.model in source && e.model in after
    requires Dumps(source, e, market, rows) && Inserted(db[e.model], after[e.model], e, kept, locked, rows)
    ensures |OwnedRows(after, e, market)| == |OwnedRows(db, e, market)| + |Ids(rows) - db[e.model].Keys|
  {
    var before, added, owned := OwnedRows(db, e, market), Ids(rows) - db[e.model].Keys, OwnedRows(after, e, market);
    forall id ensures id in owned <==> id in before || id in added {
      LogRowsAreOwned(db, source, after, e, market, rows, kept, locked, id);
    }
    GrownBy(before, owned, added);
  }

  lemma GrownBy(before: Table, after: Table, added: set<nat>)
    requires (forall id :: id in after <==> id in before || id in added) && forall id | id in added :: id !in before
    ensures |after| == |before| + |added|
  {
    assert after.Keys == before.Keys + added && before.Keys !! added;
    assert |after.Keys| == |after| && |before.Keys| == |before|;
  }

  lemma CountDecides(db: Db, source: Db, middle: Db, after: Db, registry: seq<Entry>, market: nat, file: map<nat,
                     seq<Row>>,
                     kept: map<nat, int>, locked: int, i: nat)
    requires WellFormed(registry) && HasTables(db, registry) && HasTables(source, registry) && ParentsExist(db, registry)
    requires IsBackup(source, registry, market, file) && DeletedTo(db, middle, registry, market, 0)
    requires InsertedTo(middle, after, registry, kept, locked, file, |registry|)
    requires i < |registry| && registry[i].model in after
    ensures var rows := F.RowsOf(file, registry[i].model);
            CountOk(after, registry[i], market, |rows|) <==> (registry[i].keepsAll ==> LogCovers(db, registry[i], market, rows))
  {
    var e := registry[i];
    if e.keepsAll {
      assert Dumps(source, e, market, F.RowsOf(file, e.model));
      assert Inserted(middle[e.model], after[e.model], e, kept, locked, F.RowsOf(file, e.model));
      LogCount(db, source, after, e, market, F.RowsOf(file, e.model), kept, locked);
    } else {
      MarketCountSucceeds(db, source, middle, after, registry, market, file, kept, locked, i);
    }
  }

  /** Every table's count after the restore is as the file says. */
  ghost predicate AllCountsOk(after: Db, registry: seq<Entry>, market: nat, file: map<nat, seq<Row>>) {
    forall i | 0 <= i < |registry| :: CountOk(after, registry[i], market, |F.RowsOf(file, registry[i].model)|)
  }

  ghost predicate LogsCover(db: Db, registry: seq<Entry>, market: nat, file: map<nat, seq<Row>>)
    requires HasTables(db, registry)
  {
    forall i | 0 <= i < |registry| && registry[i].keepsAll :: LogCovers(db, registry[i], market, F.RowsOf(file, registry[i].model))
  }

  /** There is room for the whole file. */
  ghost predicate HasRoomForAll(db: Db, registry: seq<Entry>, market: nat, file: map<nat, seq<Row>>)
    requires HasTables(db, registry)
  {
    forall i | 0 <= i < |registry| :: HasRoom(db, registry[i], market, F.RowsOf(file, registry[i].model))
  }

  lemma RoomIsLeft(db: Db, middle: Db, registry: seq<Entry>, market: nat, file: map<nat, seq<Row>>)
    requires HasTables(db, registry) && DeletedTo(db, middle, registry, market, 0)
    ensures forall i | 0 <= i < |registry| :: registry[i].model in middle
    ensures HasRoomForAll(db, registry, market, file)
            <==> RoomUpTo(middle, registry, file, |registry|) && LogsCover(db, registry, market, file)
  {
    forall i | 0 <= i < |registry|
      ensures registry[i].model in middle
      ensures !registry[i].keepsAll ==> middle[registry[i].model] == ForeignRows(db, registry[i], market)
    {
      TableAfterDeletion(db, middle, registry, market, i);
    }
  }

  lemma CountsDecide(db: Db, source: Db, middle: Db, after: Db, registry: seq<Entry>, market: nat, file: map<nat,
                     seq<Row>>,
                     kept: map<nat, int>, locked: int)
    requires WellFormed(registry) && HasTables(db, registry) && HasTables(source, registry) && ParentsExist(db, registry)
    requires IsBackup(source, registry, market, file) && DeletedTo(db, middle, registry, market, 0)
    requires InsertedTo(middle, after, registry, kept, locked, file, |registry|)
    ensures AllCountsOk(after, registry, market, file) <==> LogsCover(db, registry, market, file)
  {
    forall i | 0 <= i < |registry|
      ensures CountOk(after, registry[i], market, |F.RowsOf(file, registry[i].model)|)
              <==> (registry[i].keepsAll ==> LogCovers(db, registry[i], market, F.RowsOf(file, registry[i].model)))
    {
      TableAfterDeletion(db, middle, registry, market, i);
      CountDecides(db, source, middle, after, registry, market, file, kept, locked, i);
    }
  }

  lemma DumpedFileIsOfTables(source: Db, registry: seq<Entry>, market: nat, file: map<nat, seq<Row>>)
    requires HasTables(source, registry) && IsBackup(source, registry, market, file)
    ensures forall i | 0 <= i < |registry| :: RowsOfTable(F.RowsOf(file, registry[i].model))
  {
    forall i | 0 <= i < |registry| ensures RowsOfTable(F.RowsOf(file, registry[i].model)) {
      DumpedRowsOfTable(source, registry, market, F.RowsOf(file, registry[i].model), i);
    }
  }

  /** A restore commits exactly when the insertions go through and the counts are right. */
  lemma CommitsWhenCounted(db: Db, registry: seq<Entry>, market: nat, file: map<nat, seq<Row>>, locked: int)
    ensures var r := InsertedUpTo(DeletedFrom(db, registry, market, 0), registry, KeptPasswords(db, registry, market), locked, file, |registry|);
            RestoreMarket(db, registry, market, file, locked).Ok? <==> r.Ok? && AllCountsOk(r.value, registry, market, file)
  {
  }

  /** With foreign keys in place, a restore commits if and only if there is room for the file: every id
      and unique value in it is free among the rows the deletion leaves. */
  lemma RestoreCommits(db: Db, source: Db, registry: seq<Entry>, market: nat, file: map<nat, seq<Row>>, locked: int)
    requires WellFormed(registry) && HasTables(db, registry) && HasTables(source, registry) && ParentsExist(db, registry)
    requires IsBackup(source, registry, market, file)
    ensures RestoreMarket(db, registry, market, file, locked).Ok? <==> HasRoomForAll(db, registry, market, file)
  {
    var middle, kept := DeletedFrom(db, registry, market, 0), KeptPasswords(db, registry, market);
    DeletionIsExact(db, registry, market, 0);
    DumpedFileIsOfTables(source, registry, market, file);
    RoomIsLeft(db, middle, registry, market, file);
    var r := InsertedUpTo(middle, registry, kept, locked, file, |registry|);
    assert r.Ok? <==> RoomUpTo(middle, registry, file, |registry|) by {
      InsertionsNeedRoom(middle, registry, kept, locked, file, |registry|);
    }
    if r.Ok? {
      InsertionsAreExact(middle, registry, kept, locked, file, |registry|);
      CountsDecide(db, source, middle, r.value, registry, market, file, kept, locked);
    }
    CommitsWhenCounted(db, registry, market, file, locked);
  }

  /** The log has room whenever ids are globally unique: an id of the file that is in the log names a row
      of the market there. */
  lemma LogHasRoom(db: Db, e: Entry, market: nat, rows: seq<Row>)
    requires e.model in db && e.keepsAll && F.InIdOrder(rows)
    requires forall r | r in rows && r.id in db[e.model] :: r.id in OwnedRows(db, e, market)
    ensures HasRoom(db, e, market, rows)
  {
    var owned, ids := OwnedRows(db, e, market).Keys, Ids(rows);
    AsManyIdsAsRows(rows);
    assert ids == ids * db[e.model].Keys + (ids - db[e.model].Keys);
    assert ids * db[e.model].Keys <= owned;
    assert owned == ids * db[e.model].Keys + (owned - ids * db[e.model].Keys);
    assert |owned| == |OwnedRows(db, e, market)|;
  }

  // ---- backing up and restoring at once ---------------------------------------------------------

  /** The passwords kept are those of the market's rows in the table that omits them. */
  lemma {:induction false} PasswordsAreKept(db: Db, registry: seq<Entry>, market: nat, i: nat, id: nat)
    requires (forall i, j | 0 <= i < |registry| && 0 <= j < |registry| && registry[i].omitsSecret && registry[j].omitsSecret :: i == j)
    requires i < |registry| && registry[i].omitsSecret && registry[i].model in db
    requires id in db[registry[i].model] && db[registry[i].model][id].market == Some(market)
    ensures id in KeptPasswords(db, registry, market) && KeptPasswords(db, registry, market)[id] == db[registry[i].model][id].password
  {
    var n := |registry| - 1;
    if i < n {
      PasswordsAreKept(db, registry[..n], market, i, id);
    }
  }

  /** A table after its market was backed up and restored: the market's users have lost their tokens. */
  function Forgotten(db: Db, e: Entry, market: nat): Table
    requires e.model in db
  {
    if !e.omitsSecret then db[e.model]
    else map id | id in db[e.model] ::
           var row := db[e.model][id]; if Owned(db, e, row, market) then row.(token := 0) else row
  }

  lemma OwnRowsAreFree(db: Db, registry: seq<Entry>, market: nat, rows: seq<Row>, i: nat)
    requires HasTables(db, registry) && i < |registry| && Dumps(db, registry[i], market, rows)
    ensures Free(ForeignRows(db, registry[i], market), rows)
  {
    var table, left := db[registry[i].model], ForeignRows(db, registry[i], market);
    assert TableOk(table);
    forall r | r in rows ensures r.id !in left && !Clashes(left, r) {
      assert r.keys == table[r.id].keys;
      forall id | id in left ensures left[id].keys * r.keys == {} { assert table[id].keys !! table[r.id].keys; }
    }
  }

  lemma RowComesBack(db: Db, registry: seq<Entry>, market: nat, rows: seq<Row>, before: Table, after: Table,
                     locked: int, i: nat, id: nat)
    requires WellFormed(registry) && i < |registry| && registry[i].model in db && TableOk(db[registry[i].model])
    requires Dumps(db, registry[i], market, rows) && id in db[registry[i].model]
    requires before == if registry[i].keepsAll then db[registry[i].model] else ForeignRows(db, registry[i], market)
    requires Inserted(before, after, registry[i], KeptPasswords(db, registry, market), locked, rows)
    ensures id in after && after[id] == Forgotten(db, registry[i], market)[id]
  {
    var e, table := registry[i], db[registry[i].model];
    if id !in before {
      var r := Stripped(e, table[id]);
      assert id in OwnedRows(db, e, market) && r in rows && r.id == id;
      RowInserted(before, after, e, KeptPasswords(db, registry, market), locked, rows, r);
      if e.omitsSecret { PasswordsAreKept(db, registry, market, i, id); }
    }
  }

  lemma OwnRowsGoIn(db: Db, registry: seq<Entry>, market: nat, rows: seq<Row>, before: Table, kept: map<nat, int>,
                    locked: int, i: nat)
    returns (after: Table)
    requires HasTables(db, registry) && i < |registry| && Dumps(db, registry[i], market, rows)
    requires before == if registry[i].keepsAll then db[registry[i].model] else ForeignRows(db, registry[i], market)
    ensures InsertRows(before, registry[i], kept, locked, rows) == Ok(after)
    ensures Inserted(before, after, registry[i], kept, locked, rows)
  {
    DumpedRowsOfTable(db, registry, market, rows, i);
    OwnRowsAreFree(db, registry, market, rows, i);
    InsertionNeedsRoom(before, registry[i], kept, locked, rows);
    InsertionIsExact(before, registry[i], kept, locked, rows);
    after := InsertRows(before, registry[i], kept, locked, rows).value;
  }

  lemma NoOtherRows(db: Db, e: Entry, market: nat, rows: seq<Row>, before: Table, after: Table, kept: map<nat, int>,
                    locked: int)
    requires e.model in db && TableOk(db[e.model]) && Dumps(db, e, market, rows) && Inserted(before, after, e, kept, locked, rows)
    requires before == if e.keepsAll then db[e.model] else ForeignRows(db, e, market)
    ensures forall id | id in after :: id in db[e.model]
  {
  }

  lemma SameTable(a: Table, b: Table)
    requires (forall id | id in a :: id in b) && forall id | id in b :: id in a && a[id] == b[id]
    ensures a == b
  {
  }

  lemma TableComesBack(db: Db, registry: seq<Entry>, market: nat, rows: seq<Row>, before: Table, kept: map<nat, int>,
                       locked: int, i: nat)
    returns (after: Table)
    requires WellFormed(registry) && HasTables(db, registry) && i < |registry| && Dumps(db, registry[i], market, rows)
    requires before == if registry[i].keepsAll then db[registry[i].model] else ForeignRows(db, registry[i], market)
    requires kept == KeptPasswords(db, registry, market)
    ensures after == Forgotten(db, registry[i], market)
    ensures InsertRows(before, registry[i], kept, locked, rows) == Ok(after)
  {
    var expected := Forgotten(db, registry[i], market);
    after := OwnRowsGoIn(db, registry, market, rows, before, kept, locked, i);
    NoOtherRows(db, registry[i], market, rows, before, after, kept, locked);
    forall id | id in expected ensures id in after && after[id] == expected[id] {
      RowComesBack(db, registry, market, rows, before, after, locked, i, id);
    }
    SameTable(after, expected);
  }

  /** The first `k` tables are back; the others are as the deletion left them. */
  ghost predicate BackUpTo(db: Db, middle: Db, d: Db, registry: seq<Entry>, market: nat, k: nat)
    requires k <= |registry|
  {
    && d.Keys == db.Keys == middle.Keys
    && (forall i | 0 <= i < k :: registry[i].model in db && d[registry[i].model] == Forgotten(db, registry[i], market))
    && (forall m | m in db && (forall i | 0 <= i < k :: registry[i].model != m) :: d[m] == middle[m])
  }

  lemma OneMoreTableIsBack(db: Db, middle: Db, d: Db, registry: seq<Entry>, market: nat, k: nat)
    requires k < |registry| && BackUpTo(db, middle, d, registry, market, k) && registry[k].model in db
    requires forall i | 0 <= i < k :: registry[i].model != registry[k].model
    ensures d[registry[k].model] == middle[registry[k].model]
    ensures BackUpTo(db, middle, d[registry[k].model := Forgotten(db, registry[k], market)], registry, market, k + 1)
  {
  }

  lemma TableAfterDeletion(db: Db, middle: Db, registry: seq<Entry>, market: nat, i: nat)
    requires HasTables(db, registry) && DeletedTo(db, middle, registry, market, 0) && i < |registry|
    ensures registry[i].model in middle
    ensures middle[registry[i].model] == if registry[i].keepsAll then db[registry[i].model] else ForeignRows(db, registry[i], market)
  {
  }

  lemma OneMoreInsertedUpTo(middle: Db, before: Db, t: Table, registry: seq<Entry>, kept: map<nat, int>, locked: int,
                            file: map<nat, seq<Row>>, k: nat)
    requires k < |registry| && InsertedUpTo(middle, registry, kept, locked, file, k) == Ok(before)
    requires registry[k].model in before
    requires InsertRows(before[registry[k].model], registry[k], kept, locked, F.RowsOf(file, registry[k].model)) == Ok(t)
    ensures InsertedUpTo(middle, registry, kept, locked, file, k + 1) == Ok(before[registry[k].model := t])
  {
  }

  /** A restore of a backup of this very database, after its deletion. */
  ghost predicate Undoing(db: Db, middle: Db, registry: seq<Entry>, market: nat, file: map<nat, seq<Row>>,
                          kept: map<nat, int>) {
    && WellFormed(registry) && HasTables(db, registry) && IsBackup(db, registry, market, file)
    && DeletedTo(db, middle, registry, market, 0) && kept == KeptPasswords(db, registry, market)
  }

  /** The first `k` insertions have gone through and brought `d`. */
  ghost predicate Undone(db: Db, middle: Db, d: Db, registry: seq<Entry>, market: nat, file: map<nat, seq<Row>>,
                         kept: map<nat, int>,
                         locked: int, k: nat) {
    k <= |registry| && InsertedUpTo(middle, registry, kept, locked, file, k) == Ok(d) && BackUpTo(db, middle, d, registry, market, k)
  }

  lemma NextTableComesBack(db: Db, middle: Db, before: Db, registry: seq<Entry>, market: nat, file: map<nat, seq<Row>>,
                           kept: map<nat, int>, locked: int, k: nat)
    returns (d: Db)
    requires Undoing(db, middle, registry, market, file, kept) && k < |registry|
    requires Undone(db, middle, before, registry, market, file, kept, locked, k)
    ensures Undone(db, middle, d, registry, market, file, kept, locked, k + 1)
  {
    var e := registry[k];
    TableAfterDeletion(db, middle, registry, market, k);
    OneMoreTableIsBack(db, middle, before, registry, market, k);
    var t := TableComesBack(db, registry, market, F.RowsOf(file, e.model), middle[e.model], kept, locked, k);
    OneMoreInsertedUpTo(middle, before, t, registry, kept, locked, file, k);
    d := before[e.model := t];
  }

  lemma NothingComesBackYet(db: Db, middle: Db, registry: seq<Entry>, market: nat, file: map<nat, seq<Row>>,
                            kept: map<nat, int>, locked: int)
    requires Undoing(db, middle, registry, market, file, kept)
    ensures Undone(db, middle, middle, registry, market, file, kept, locked, 0)
  {
  }

  lemma TablesComeBack(db: Db, middle: Db, registry: seq<Entry>, market: nat, file: map<nat, seq<Row>>, kept: map<nat,
                       int>, locked: int)
    returns (d: Db)
    requires Undoing(db, middle, registry, market, file, kept)
    ensures Undone(db, middle, d, registry, market, file, kept, locked, |registry|)
  {
    NothingComesBackYet(db, middle, registry, market, file, kept, locked);
    d := middle;
    for k := 0 to |registry|
      invariant Undone(db, middle, d, registry, market, file, kept, locked, k)
    {
      d := NextTableComesBack(db, middle, d, registry, market, file, kept, locked, k);
    }
  }

  /** All tables are back, but for the tokens. */
  ghost predicate AllBack(db: Db, d: Db, registry: seq<Entry>, market: nat)
    requires HasTables(db, registry)
  {
    && d.Keys == db.Keys
    && (forall i | 0 <= i < |registry| :: d[registry[i].model] == Forgotten(db, registry[i], market))
    && (forall m | m in db && (forall i | 0 <= i < |registry| :: registry[i].model != m) :: d[m] == db[m])
  }

  lemma TablesAreBack(db: Db, middle: Db, d: Db, registry: seq<Entry>, market: nat)
    requires HasTables(db, registry) && DeletedTo(db, middle, registry, market, 0)
    requires BackUpTo(db, middle, d, registry, market, |registry|)
    ensures AllBack(db, d, registry, market)
  {
  }

  /** Losing tokens does not change who owns a row. */
  lemma SameOwners(db: Db, d: Db, registry: seq<Entry>, market: nat, i: nat)
    requires WellFormed(registry) && HasTables(db, registry) && AllBack(db, d, registry, market) && i < |registry|
    ensures OwnedRows(d, registry[i], market).Keys == OwnedRows(db, registry[i], market).Keys
  {
    var e := registry[i];
    assert TableOk(db[e.model]);
    if e.scope.ChildOf? {
      var j := ParentEntry(registry, i);
      assert d[registry[j].model] == Forgotten(db, registry[j], market);
    }
  }

  lemma CountsOfBackup(db: Db, d: Db, registry: seq<Entry>, market: nat, file: map<nat, seq<Row>>, i: nat)
    requires WellFormed(registry) && HasTables(db, registry) && AllBack(db, d, registry, market)
    requires IsBackup(db, registry, market, file) && i < |registry|
    ensures CountOk(d, registry[i], market, |F.RowsOf(file, registry[i].model)|)
  {
    var e := registry[i];
    var rows := F.RowsOf(file, e.model);
    assert Dumps(db, e, market, rows) && TableOk(db[e.model]);
    AsManyIdsAsRows(rows);
    forall id | id in OwnedRows(db, e, market) ensures id in Ids(rows) {
      assert Stripped(e, db[e.model][id]).id == id;
    }
    assert Ids(rows) == OwnedRows(db, e, market).Keys;
    SameOwners(db, d, registry, market, i);
    assert |OwnedRows(d, e, market).Keys| == |OwnedRows(d, e, market)|;
  }

  /** No row the restore rewrites holds a token. */
  ghost predicate NoTokens(db: Db, registry: seq<Entry>, market: nat) {
    forall i | 0 <= i < |registry| && registry[i].omitsSecret && registry[i].model in db ::
      forall id | id in OwnedRows(db, registry[i], market) :: db[registry[i].model][id].token == 0
  }

  lemma ForgettingChangesNothing(db: Db, d: Db, registry: seq<Entry>, market: nat)
    requires HasTables(db, registry) && AllBack(db, d, registry, market)
    ensures d == db <==> NoTokens(db, registry, market)
  {
    forall i | 0 <= i < |registry|
      ensures Forgotten(db, registry[i], market) == db[registry[i].model]
              <==> (registry[i].omitsSecret ==> forall id | id in OwnedRows(db, registry[i], market) :: db[registry[i].model][id].token == 0)
    {
      var e := registry[i];
      if e.omitsSecret && Forgotten(db, e, market) == db[e.model] {
        forall id | id in OwnedRows(db, e, market) ensures db[e.model][id].token == 0 {
          assert Forgotten(db, e, market)[id].token == 0;
        }
      }
    }
    if NoTokens(db, registry, market) {
      forall m | m in db ensures d[m] == db[m] {
        if i :| 0 <= i < |registry| && registry[i].model == m {
          assert d[m] == Forgotten(db, registry[i], market);
        }
      }
    }
  }

  /** Restoring a backup right after it was taken succeeds and changes nothing, passwords included, except
      that the market's users lose the refresh tokens stored with them. It changes nothing at all if and
      only if none has one. */
  lemma BackupThenRestoreIsIdentity(db: Db, registry: seq<Entry>, market: nat, file: map<nat, seq<Row>>, locked: int)
    returns (after: Db)
    requires WellFormed(registry) && HasTables(db, registry) && IsBackup(db, registry, market, file)
    ensures RestoreMarket(db, registry, market, file, locked) == Ok(after)
    ensures AllBack(db, after, registry, market)
    ensures after == db <==> NoTokens(db, registry, market)
  {
    var middle, kept := DeletedFrom(db, registry, market, 0), KeptPasswords(db, registry, market);
    DeletionIsExact(db, registry, market, 0);
    after := TablesComeBack(db, middle, registry, market, file, kept, locked);
    TablesAreBack(db, middle, after, registry, market);
    forall i | 0 <= i < |registry| ensures CountOk(after, registry[i], market, |F.RowsOf(file, registry[i].model)|) {
      CountsOfBackup(db, after, registry, market, file, i);
    }
    ForgettingChangesNothing(db, after, registry, market);
  }
}
