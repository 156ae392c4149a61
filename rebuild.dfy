/** The table rebuild the 11 -> 12 helpers use in place of an `ALTER TABLE` SQLite lacks:
    create a backup table, copy the rows into it with a select list, drop the original,
    create it again with the new schema and copy the rows back. Everything here is generic
    in the names, schemas and select lists; the helpers instantiate it. */
module Rebuild {
  import opened Results
  import opened Sql

  /** `CREATE TABLE b (...)`, then `INSERT INTO b SELECT sel FROM n`. */
  function Backup(n: string, b: string, columns: seq<string>, key: seq<string>, nn: set<string>, sel: seq<Expr>): seq<Stmt> {
    [CreateTable(b, columns, key, nn), CopyRows(n, b, sel)]
  }

  /** `DROP TABLE IF EXISTS n`, `CREATE TABLE n (...)`, `INSERT INTO n SELECT sel FROM b`, then
      `DROP TABLE [IF EXISTS] b`. */
  function Restore(n: string, b: string, columns: seq<string>, key: seq<string>, nn: set<string>, sel: seq<Expr>,
                   ifExists: bool): seq<Stmt> {
    [DropTable(n, true), CreateTable(n, columns, key, nn), CopyRows(b, n, sel), DropTable(b, ifExists)]
  }

  /** The row the select list `sel` makes of `r` for a table with `columns`. */
  function Project(columns: seq<string>, sel: seq<Expr>, r: Row): Row
    requires |sel| == |columns|
  {
    Build(columns, sel, r)
  }

  /** Every row of `rows`, projected, under its old key. */
  function ProjectAll(columns: seq<string>, sel: seq<Expr>, rows: map<Key, Row>): map<Key, Row>
    requires |sel| == |columns|
  {
    map k | k in rows :: Project(columns, sel, rows[k])
  }

  /** Every projected row has a value in each column of `nn`. */
  predicate Fills(columns: seq<string>, sel: seq<Expr>, nn: set<string>, rows: map<Key, Row>)
    requires |sel| == |columns|
  {
    forall k | k in rows :: forall c | c in nn :: Get(Project(columns, sel, rows[k]), c) != Null
  }

  /** Projecting a row keeps it under the same key. */
  predicate KeepsKeys(columns: seq<string>, key: seq<string>, sel: seq<Expr>, rows: map<Key, Row>)
    requires |sel| == |columns|
  {
    forall k | k in rows :: KeyOf(key, Project(columns, sel, rows[k])) == k
  }

  /** A select list that, for each column, either reads that same column or is a constant:
      projecting twice is projecting once. */
  predicate Stable(columns: seq<string>, sel: seq<Expr>) {
    |sel| == |columns| && forall i | 0 <= i < |sel| :: sel[i] == Col(columns[i]) || sel[i].Lit?
  }

  /** Every column of `nn` is a column that `sel` copies as it is. */
  predicate CopiesAsIs(columns: seq<string>, sel: seq<Expr>, nn: set<string>) {
    |sel| == |columns| && (forall c | c in nn :: c in columns)
    && forall i | 0 <= i < |columns| && columns[i] in nn :: sel[i] == Col(columns[i])
  }

  /** A select list of plain columns and non-NULL constants. */
  predicate PlainSelect(sel: seq<Expr>) {
    forall i | 0 <= i < |sel| :: sel[i].Col? || (sel[i].Lit? && sel[i].v != Null)
  }

  /** Every column the select list reads is set in `r`. */
  predicate ReadsSet(sel: seq<Expr>, r: Row) {
    forall i | 0 <= i < |sel| && sel[i].Col? :: Get(r, sel[i].name) != Null
  }

  /** The schema `CREATE TABLE` accepts. */
  predicate Creatable(columns: seq<string>, key: seq<string>) {
    Distinct(columns) && forall c | c in key :: c in columns
  }

  // ---------------------------------------------------------------------------------------
  // Lemmas

  /** A copy into an empty table: it succeeds exactly when every column the select list reads
      exists in the source, every copied row fills the NOT NULL columns and no two copied rows
      share a key, and then holds exactly the copied rows. */
  lemma CopyIntoFresh(name: string, src: Table, dst: Table, sel: seq<Expr>)
    requires |sel| == |dst.columns| && dst.rows == map[]
    ensures CopyInto(name, src, dst, sel).Ok? <==>
      SelectResolves(sel, src.columns) && Fills(dst.columns, sel, dst.notNull, src.rows) && CopyKeysUnique(src, dst, sel)
    ensures CopyInto(name, src, dst, sel).Ok? ==>
      CopyInto(name, src, dst, sel).value == dst.(rows := CopiedRows(src, dst, sel))
  {
    if SelectResolves(sel, src.columns) && Fills(dst.columns, sel, dst.notNull, src.rows) && CopyKeysUnique(src, dst, sel) {
      CopyIntoEmpty(name, src, dst, sel);
    }
  }

  /** When the projection keeps every key, the copied rows are the projected rows. */
  lemma CopiedKeepingKeys(src: Table, dst: Table, sel: seq<Expr>)
    requires |sel| == |dst.columns| && KeepsKeys(dst.columns, dst.key, sel, src.rows)
    ensures CopyKeysUnique(src, dst, sel)
    ensures CopiedRows(src, dst, sel) == ProjectAll(dst.columns, sel, src.rows)
  {
    CopiedRowsKeys(src, dst, sel);
    forall k | k in src.rows ensures CopiedRows(src, dst, sel)[k] == Project(dst.columns, sel, src.rows[k]) {
      CopiedRowsAt(src, dst, sel, k);
    }
    SameRows(CopiedRows(src, dst, sel), ProjectAll(dst.columns, sel, src.rows));
  }

  lemma SameRows(m: map<Key, Row>, m': map<Key, Row>)
    requires m.Keys == m'.Keys && forall k | k in m :: m[k] == m'[k]
    ensures m == m'
  {
  }

  /** `CREATE TABLE` of a fresh name with a valid schema adds an empty table. */
  lemma CreateStep(db: Db, n: string, columns: seq<string>, key: seq<string>, nn: set<string>)
    requires n !in db.tables && n !in db.views && Creatable(columns, key)
    ensures ExecStmt(db, CreateTable(n, columns, key, nn)) == Ok(Put(db, n, Table(columns, key, nn, map[])))
  {
  }

  /** `INSERT INTO dst SELECT sel FROM src` into an empty `dst`, by a projection that keeps
      the keys: it fails exactly when the select list reads a column `src` lacks or a projected
      row leaves a NOT NULL column empty, and otherwise `dst` holds the projected rows. */
  lemma CopyStep(db: Db, src: string, dst: string, sel: seq<Expr>)
    requires src in db.tables && dst in db.tables && db.tables[dst].rows == map[]
    requires |sel| == |db.tables[dst].columns|
    requires KeepsKeys(db.tables[dst].columns, db.tables[dst].key, sel, db.tables[src].rows)
    ensures ExecStmt(db, CopyRows(src, dst, sel)).Ok? <==>
      SelectResolves(sel, db.tables[src].columns) && Fills(db.tables[dst].columns, sel, db.tables[dst].notNull, db.tables[src].rows)
    ensures ExecStmt(db, CopyRows(src, dst, sel)).Ok? ==>
      ExecStmt(db, CopyRows(src, dst, sel)).value ==
        Put(db, dst, db.tables[dst].(rows := ProjectAll(db.tables[dst].columns, sel, db.tables[src].rows)))
  {
    CopyFresh(dst, db.tables[src], db.tables[dst], sel);
  }

  /** The same on the tables themselves. */
  lemma CopyFresh(name: string, src: Table, dst: Table, sel: seq<Expr>)
    requires dst.rows == map[] && |sel| == |dst.columns| && KeepsKeys(dst.columns, dst.key, sel, src.rows)
    ensures CopyInto(name, src, dst, sel).Ok? <==> SelectResolves(sel, src.columns) && Fills(dst.columns, sel, dst.notNull, src.rows)
    ensures CopyInto(name, src, dst, sel).Ok? ==>
      CopyInto(name, src, dst, sel).value == dst.(rows := ProjectAll(dst.columns, sel, src.rows))
  {
    CopiedKeepingKeys(src, dst, sel);
    CopyIntoFresh(name, src, dst, sel);
  }

  /** The backup phase: it fails exactly when the select list reads a column `n` lacks or some
      projected row leaves a NOT NULL column empty; otherwise `b` holds every row of `n`, projected, under its old key. */
  lemma BackupRun(db: Db, n: string, b: string, columns: seq<string>, key: seq<string>, nn: set<string>, sel: seq<Expr>)
    requires n in db.tables && b !in db.tables && b !in db.views && n != b
    requires Creatable(columns, key) && |sel| == |columns|
    requires KeepsKeys(columns, key, sel, db.tables[n].rows)
    ensures ExecAll(db, Backup(n, b, columns, key, nn, sel)).Ok? <==>
      SelectResolves(sel, db.tables[n].columns) && Fills(columns, sel, nn, db.tables[n].rows)
    ensures ExecAll(db, Backup(n, b, columns, key, nn, sel)).Ok? ==>
      ExecAll(db, Backup(n, b, columns, key, nn, sel)).value
        == Put(db, b, Table(columns, key, nn, ProjectAll(columns, sel, db.tables[n].rows)))
  {
    var ss := Backup(n, b, columns, key, nn, sel);
    var d1 := Put(db, b, Table(columns, key, nn, map[]));
    CreateStep(db, b, columns, key, nn);
    ExecFromStep(db, ss, 0, d1);
    assert d1.tables[n] == db.tables[n];
    CopyStep(d1, n, b, sel);
    if SelectResolves(sel, db.tables[n].columns) && Fills(columns, sel, nn, db.tables[n].rows) {
      var t := Table(columns, key, nn, ProjectAll(columns, sel, db.tables[n].rows));
      assert Put(d1, b, t) == Put(db, b, t);
      ExecFromStep(d1, ss, 1, Put(db, b, t));
    } else {
      ExecFromStops(d1, ss, 1);
    }
  }

  /** The restore phase: it fails exactly when the select list reads a column `b` lacks or some
      projected row of `b` leaves a NOT NULL column empty; otherwise `n` holds every row of `b`, projected, under its old key, and `b`
      is gone. */
  lemma RestoreRun(db: Db, n: string, b: string, columns: seq<string>, key: seq<string>, nn: set<string>,
                   sel: seq<Expr>, ifExists: bool)
    requires b in db.tables && n !in db.views && n != b
    requires Creatable(columns, key) && |sel| == |columns|
    requires KeepsKeys(columns, key, sel, db.tables[b].rows)
    ensures ExecAll(db, Restore(n, b, columns, key, nn, sel, ifExists)).Ok? <==>
      SelectResolves(sel, db.tables[b].columns) && Fills(columns, sel, nn, db.tables[b].rows)
    ensures ExecAll(db, Restore(n, b, columns, key, nn, sel, ifExists)).Ok? ==>
      ExecAll(db, Restore(n, b, columns, key, nn, sel, ifExists)).value
        == Db((db.tables - {b})[n := Table(columns, key, nn, ProjectAll(columns, sel, db.tables[b].rows))], db.views)
  {
    var ss := Restore(n, b, columns, key, nn, sel, ifExists);
    var src := db.tables[b];
    var d1 := if n in db.tables then db.(tables := db.tables - {n}) else db;
    ExecFromStep(db, ss, 0, d1);
    assert d1.tables == db.tables - {n};
    var d2 := Put(d1, n, Table(columns, key, nn, map[]));
    CreateStep(d1, n, columns, key, nn);
    ExecFromStep(d1, ss, 1, d2);
    assert d2.tables[b] == src;
    CopyStep(d2, b, n, sel);
    if SelectResolves(sel, src.columns) && Fills(columns, sel, nn, src.rows) {
      var t := Table(columns, key, nn, ProjectAll(columns, sel, src.rows));
      var d3 := Put(d2, n, t);
      ExecFromStep(d2, ss, 2, d3);
      var d4 := d3.(tables := d3.tables - {b});
      ExecFromStep(d3, ss, 3, d4);
      assert d4.tables == (db.tables - {b})[n := t];
    } else {
      ExecFromStops(d2, ss, 2);
    }
  }

  /** A stable select list reads only the columns it fills. */
  lemma StableResolves(columns: seq<string>, sel: seq<Expr>)
    requires Stable(columns, sel)
    ensures SelectResolves(sel, columns)
  {
    forall i | 0 <= i < |sel| ensures ExprResolves(sel[i], columns) {
      if !sel[i].Lit? {
        assert sel[i] == Col(columns[i]);
      }
    }
  }

  /** Projecting with a stable select list twice is projecting once. */
  lemma ProjectTwice(columns: seq<string>, sel: seq<Expr>, r: Row)
    requires Distinct(columns) && Stable(columns, sel)
    ensures Project(columns, sel, Project(columns, sel, r)) == Project(columns, sel, r)
  {
    var once := Project(columns, sel, r);
    var twice := Project(columns, sel, once);
    BuildColumns(columns, sel, r);
    BuildColumns(columns, sel, once);
    forall c | c in twice.Keys ensures twice[c] == once[c] {
      var i :| 0 <= i < |columns| && columns[i] == c;
      BuildAt(columns, sel, once, i);
      BuildAt(columns, sel, r, i);
    }
  }

  /** ... and so for a whole table. */
  lemma ProjectAllTwice(columns: seq<string>, sel: seq<Expr>, rows: map<Key, Row>)
    requires Distinct(columns) && Stable(columns, sel)
    ensures ProjectAll(columns, sel, ProjectAll(columns, sel, rows)) == ProjectAll(columns, sel, rows)
  {
    forall k | k in rows
      ensures ProjectAll(columns, sel, ProjectAll(columns, sel, rows))[k] == ProjectAll(columns, sel, rows)[k]
    {
      ProjectTwice(columns, sel, rows[k]);
    }
    SameRows(ProjectAll(columns, sel, ProjectAll(columns, sel, rows)), ProjectAll(columns, sel, rows));
  }

  /** Column `columns[i]` of a projection by a stable select list: the constant, or the
      source row's own value. */
  lemma ProjectStableAt(columns: seq<string>, sel: seq<Expr>, r: Row, i: nat)
    requires Distinct(columns) && Stable(columns, sel) && i < |columns|
    ensures Get(Project(columns, sel, r), columns[i]) == if sel[i].Lit? then sel[i].v else Get(r, columns[i])
  {
    BuildAt(columns, sel, r, i);
  }

  /** When the projection copies every NOT NULL column as it is, it fills them exactly when the
      source rows do. */
  lemma FillsIffSourceFills(columns: seq<string>, sel: seq<Expr>, nn: set<string>, rows: map<Key, Row>)
    requires Distinct(columns) && CopiesAsIs(columns, sel, nn)
    ensures Fills(columns, sel, nn, rows) <==> forall k, c | k in rows && c in nn :: Get(rows[k], c) != Null
  {
    forall k | k in rows {
      ProjectCopiesAsIs(columns, sel, nn, rows[k]);
    }
  }

  /** The columns copied as they are keep the source row's values. */
  lemma ProjectCopiesAsIs(columns: seq<string>, sel: seq<Expr>, nn: set<string>, r: Row)
    requires Distinct(columns) && CopiesAsIs(columns, sel, nn)
    ensures forall c | c in nn :: Get(Project(columns, sel, r), c) == Get(r, c)
  {
    forall c | c in nn ensures Get(Project(columns, sel, r), c) == Get(r, c) {
      var i :| 0 <= i < |columns| && columns[i] == c;
      BuildAt(columns, sel, r, i);
    }
  }

  /** A table keyed by its first column, copied by a select list that reads that column first,
      keeps every row under its key. */
  lemma FirstColumnKeeps(t: Table, columns: seq<string>, sel: seq<Expr>)
    requires WellFormed(t) && |columns| == |sel| > 0 && Distinct(columns)
    requires t.key == [columns[0]] && sel[0] == Col(columns[0])
    ensures KeepsKeys(columns, t.key, sel, t.rows)
  {
    forall k | k in t.rows ensures KeyOf(t.key, Project(columns, sel, t.rows[k])) == k {
      BuildAt(columns, sel, t.rows[k], 0);
      KeyOfSingle(columns[0], Project(columns, sel, t.rows[k]));
      KeyOfSingle(columns[0], t.rows[k]);
    }
  }

  /** A projection files a row under each key of the rows it projects, and under no other. */
  lemma ProjectAllKeys(columns: seq<string>, sel: seq<Expr>, rows: map<Key, Row>)
    requires |sel| == |columns|
    ensures ProjectAll(columns, sel, rows).Keys == rows.Keys
  {
  }

  /** The projected rows of a table keyed by them again are filed under their keys. */
  lemma ProjectAllWellFormed(columns: seq<string>, key: seq<string>, nn: set<string>, sel: seq<Expr>, rows: map<Key, Row>)
    requires |sel| == |columns| && KeepsKeys(columns, key, sel, rows)
    ensures WellFormed(Table(columns, key, nn, ProjectAll(columns, sel, rows)))
  {
  }

  /** A projection by a stable select list keeps the keys of rows it already keeps. */
  lemma KeepsKeysProjected(columns: seq<string>, key: seq<string>, sel: seq<Expr>, rows: map<Key, Row>)
    requires Distinct(columns) && Stable(columns, sel) && KeepsKeys(columns, key, sel, rows)
    ensures KeepsKeys(columns, key, sel, ProjectAll(columns, sel, rows))
  {
    forall k | k in rows ensures KeyOf(key, Project(columns, sel, Project(columns, sel, rows[k]))) == k {
      ProjectTwice(columns, sel, rows[k]);
    }
  }

  /** A backup into `b` and a restore from it with the same schema and a stable select list:
      the upgrade succeeds exactly when every column the select list reads exists in `n` and
      the projected rows fill the NOT NULL columns, and then
      `n` holds those rows under the new schema and nothing else of the database changes. */
  lemma RebuildRun(db: Db, n: string, b: string, columns: seq<string>, key: seq<string>, nn: set<string>,
                   sel: seq<Expr>, ifExists: bool)
    requires n in db.tables && n !in db.views && b !in db.tables && b !in db.views && n != b
    requires Creatable(columns, key) && Stable(columns, sel)
    requires KeepsKeys(columns, key, sel, db.tables[n].rows)
    ensures ExecAll(db, Backup(n, b, columns, key, nn, sel) + Restore(n, b, columns, key, nn, sel, ifExists)).Ok?
      <==> SelectResolves(sel, db.tables[n].columns) && Fills(columns, sel, nn, db.tables[n].rows)
    ensures ExecAll(db, Backup(n, b, columns, key, nn, sel) + Restore(n, b, columns, key, nn, sel, ifExists)).Ok? ==>
      ExecAll(db, Backup(n, b, columns, key, nn, sel) + Restore(n, b, columns, key, nn, sel, ifExists)).value
        == Db(db.tables[n := Table(columns, key, nn, ProjectAll(columns, sel, db.tables[n].rows))], db.views)
  {
    var rows := db.tables[n].rows;
    var backup := Backup(n, b, columns, key, nn, sel);
    var restore := Restore(n, b, columns, key, nn, sel, ifExists);
    ExecAllAppend(db, backup, restore);
    BackupRun(db, n, b, columns, key, nn, sel);
    if ExecAll(db, backup).Ok? {
      var d1 := Put(db, b, Table(columns, key, nn, ProjectAll(columns, sel, rows)));
      KeepsKeysProjected(columns, key, sel, rows);
      ProjectAllTwice(columns, sel, rows);
      StableResolves(columns, sel);
      RestoreRun(d1, n, b, columns, key, nn, sel, ifExists);
      assert (d1.tables - {b}) == db.tables;
    }
  }

  /** A plain select list fills a table whose every column is NOT NULL exactly when each
      column it reads is set in every source row. */
  lemma FillsAllIffReadsSet(columns: seq<string>, sel: seq<Expr>, rows: map<Key, Row>)
    requires Distinct(columns) && |sel| == |columns| && PlainSelect(sel)
    ensures Fills(columns, sel, (set c | c in columns), rows) <==> forall k | k in rows :: ReadsSet(sel, rows[k])
  {
    forall k | k in rows
      ensures (forall c | c in columns :: Get(Project(columns, sel, rows[k]), c) != Null) <==> ReadsSet(sel, rows[k])
    {
      forall i | 0 <= i < |columns| ensures Get(Project(columns, sel, rows[k]), columns[i]) == Eval(sel[i], rows[k]) {
        BuildAt(columns, sel, rows[k], i);
      }
    }
  }

  /** Each column of a projection holds its select expression's value. */
  lemma ProjectReads(columns: seq<string>, sel: seq<Expr>, r: Row)
    requires Distinct(columns) && |sel| == |columns|
    ensures forall i | 0 <= i < |columns| :: Get(Project(columns, sel, r), columns[i]) == Eval(sel[i], r)
  {
    forall i | 0 <= i < |columns| ensures Get(Project(columns, sel, r), columns[i]) == Eval(sel[i], r) {
      BuildAt(columns, sel, r, i);
    }
  }
}
