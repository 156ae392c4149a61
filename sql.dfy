/** The embedded store seen as an abstract relational engine: tables of rows keyed by their
    primary key, and the SQLite statements the schema migrations issue, each with the outcome
    SQLite gives it, including the error that aborts the statement. A failing statement
    leaves the store as it was (SQLite's default ABORT resolution). */
module Sql {
  import opened Results
  import opened Strings

  /** A column value: SQL NULL, an integer or a text. */
  datatype Value = Null | Int(n: int) | Text(s: string)

  /** A row maps column names to values; a column the row lacks reads as NULL. */
  type Row = map<string, Value>

  /** The values of a row's primary-key columns, in key order. */
  type Key = seq<Value>

  /** A table: its columns in declaration order, its primary-key columns, the columns declared
      NOT NULL, and its rows by primary key. */
  datatype Table = Table(columns: seq<string>, key: seq<string>, notNull: set<string>, rows: map<Key, Row>)

  /** The schema objects of a store: tables by name, and views (which carry no rows here). */
  datatype Db = Db(tables: map<string, Table>, views: set<string>)

  datatype SqlError =
    | NoSuchTable(name: string)
    | NoSuchView(name: string)
    | NotATable(name: string)
    | AlreadyExists(name: string)
    | NoSuchColumn(name: string)
    | DuplicateColumn(name: string)
    | ColumnCountMismatch(name: string)
    | NotNullViolation(name: string)
    | UniqueViolation(name: string)

  function Get(r: Row, c: string): Value {
    if c in r then r[c] else Null
  }

  /** The primary key of a row. */
  function KeyOf(key: seq<string>, r: Row): Key {
    seq(|key|, i requires 0 <= i < |key| => Get(r, key[i]))
  }

  /** Every row sits under its own primary key. */
  ghost predicate WellFormed(t: Table) {
    forall k | k in t.rows :: KeyOf(t.key, t.rows[k]) == k
  }

  /** The table's declarations hold of its rows: each row sits under its key and fills every
      NOT NULL column. */
  ghost predicate Sound(t: Table) {
    WellFormed(t) && forall k | k in t.rows :: NullFree(t, t.rows[k])
  }

  predicate Distinct(names: seq<string>) {
    forall i, j | 0 <= i < j < |names| :: names[i] != names[j]
  }

  /** The row has a value in every NOT NULL column of `t`. */
  predicate NullFree(t: Table, r: Row) {
    forall c | c in t.notNull :: Get(r, c) != Null
  }

  // ---------------------------------------------------------------------------------------
  // Expressions and conditions

  /** A select-list or SET expression: a literal, a column, or `replace(column, p, q)`. */
  datatype Expr = Lit(v: Value) | Col(name: string) | ReplaceIn(name: string, pattern: string, replacement: string)

  function Eval(e: Expr, r: Row): Value {
    match e
    case Lit(v) => v
    case Col(c) => Get(r, c)
    case ReplaceIn(c, p, q) =>
      match Get(r, c)
      case Text(s) => Text(ReplaceAll(s, p, q))
      case other => other
  }

  /** A WHERE clause. Comparisons involving NULL are never satisfied (SQL's unknown). */
  datatype Cond =
    | Always
    | Eq(col: string, v: Value)
    | Ne(col: string, v: Value)
    | OneOf(col: string, vs: seq<Value>)
    | Both(left: Cond, right: Cond)

  function Holds(c: Cond, r: Row): bool {
    match c
    case Always => true
    case Eq(col, v) => Get(r, col) != Null && v != Null && Get(r, col) == v
    case Ne(col, v) => Get(r, col) != Null && v != Null && Get(r, col) != v
    case OneOf(col, vs) => Get(r, col) != Null && Get(r, col) in vs
    case Both(a, b) => Holds(a, r) && Holds(b, r)
  }

  /** Every column the WHERE clause names is a column of the table; SQLite refuses the
      statement before it runs otherwise ("no such column"). */
  predicate CondResolves(c: Cond, columns: seq<string>) {
    match c
    case Always => true
    case Eq(col, _) => col in columns
    case Ne(col, _) => col in columns
    case OneOf(col, _) => col in columns
    case Both(a, b) => CondResolves(a, columns) && CondResolves(b, columns)
  }

  /** Every column the expression reads is a column of the table. */
  predicate ExprResolves(e: Expr, columns: seq<string>) {
    match e
    case Lit(_) => true
    case Col(c) => c in columns
    case ReplaceIn(c, _, _) => c in columns
  }

  /** Every column a select list reads is a column of the source table. */
  predicate SelectResolves(exprs: seq<Expr>, columns: seq<string>) {
    forall i | 0 <= i < |exprs| :: ExprResolves(exprs[i], columns)
  }

  /** Every column a SET clause assigns or reads is a column of the table. */
  predicate SetsResolve(sets: map<string, Expr>, columns: seq<string>) {
    forall c | c in sets :: c in columns && ExprResolves(sets[c], columns)
  }

  /** The row built by a select list (or a VALUES list) for the columns of a table. */
  function Build(columns: seq<string>, exprs: seq<Expr>, src: Row): Row
    requires |columns| == |exprs|
    decreases |columns|
  {
    if columns == [] then map[] else Build(columns[1..], exprs[1..], src)[columns[0] := Eval(exprs[0], src)]
  }

  function Literals(vals: seq<Value>): seq<Expr> {
    seq(|vals|, i requires 0 <= i < |vals| => Lit(vals[i]))
  }

  /** `SET c = v` for one column. */
  function SetTo(c: string, v: Value): map<string, Expr> {
    map[c := Lit(v)]
  }

  /** `UPDATE ... SET c = e, ...` on one row: every right-hand side reads the old row. */
  function Assign(r: Row, sets: map<string, Expr>): Row {
    map c | c in r.Keys + sets.Keys :: if c in sets then Eval(sets[c], r) else r[c]
  }

  // ---------------------------------------------------------------------------------------
  // Statements on one table

  /** `DELETE FROM ... WHERE cond`, refused when the condition names a column the table lacks. */
  function DeleteFrom(name: string, t: Table, cond: Cond): Result<Table, SqlError> {
    if !CondResolves(cond, t.columns) then Err(NoSuchColumn(name)) else Ok(DeleteRows(t, cond))
  }

  function DeleteRows(t: Table, cond: Cond): Table {
    t.(rows := map k | k in t.rows && !Holds(cond, t.rows[k]) :: t.rows[k])
  }

  function UpdatedRow(t: Table, cond: Cond, sets: map<string, Expr>, k: Key): Row
    requires k in t.rows
  {
    if Holds(cond, t.rows[k]) then Assign(t.rows[k], sets) else t.rows[k]
  }

  /** No two rows share a primary key once the update is applied. */
  predicate UpdateKeepsKeysUnique(t: Table, cond: Cond, sets: map<string, Expr>) {
    forall k1, k2 | k1 in t.rows && k2 in t.rows && k1 != k2 ::
      KeyOf(t.key, UpdatedRow(t, cond, sets, k1)) != KeyOf(t.key, UpdatedRow(t, cond, sets, k2))
  }

  function UpdateRows(name: string, t: Table, cond: Cond, sets: map<string, Expr>): Result<Table, SqlError> {
    if !SetsResolve(sets, t.columns) || !CondResolves(cond, t.columns) then Err(NoSuchColumn(name))
    else if !(forall k | k in t.rows && Holds(cond, t.rows[k]) :: NullFree(t, Assign(t.rows[k], sets))) then
      Err(NotNullViolation(name))
    else if !UpdateKeepsKeysUnique(t, cond, sets) then Err(UniqueViolation(name))
    else Ok(t.(rows := UpdatedRows(t, cond, sets)))
  }

  /** Every row after the update, filed under its (possibly new) primary key. */
  function UpdatedRows(t: Table, cond: Cond, sets: map<string, Expr>): map<Key, Row>
    requires UpdateKeepsKeysUnique(t, cond, sets)
  {
    map k | k in t.rows :: KeyOf(t.key, UpdatedRow(t, cond, sets, k)) := UpdatedRow(t, cond, sets, k)
  }

  /** `INSERT` (replace = false) or `INSERT OR REPLACE` (replace = true) of one VALUES list. */
  function InsertRow(name: string, t: Table, vals: seq<Value>, replace: bool): Result<Table, SqlError> {
    if |vals| != |t.columns| then Err(ColumnCountMismatch(name))
    else
      var r := Build(t.columns, Literals(vals), map[]);
      if !NullFree(t, r) then Err(NotNullViolation(name))
      else if !replace && KeyOf(t.key, r) in t.rows then Err(UniqueViolation(name))
      else Ok(t.(rows := t.rows[KeyOf(t.key, r) := r]))
  }

  /** `ALTER TABLE ... ADD COLUMN col DEFAULT d [NOT NULL]`: every existing row takes `d`. */
  function AddColumnTo(name: string, t: Table, col: string, default: Value, notNull: bool): Result<Table, SqlError> {
    if col in t.columns then Err(DuplicateColumn(name))
    else if notNull && default == Null then Err(NotNullViolation(name))
    else Ok(Table(t.columns + [col], t.key, if notNull then t.notNull + {col} else t.notNull,
                  map k | k in t.rows :: t.rows[k][col := default]))
  }

  /** The row `INSERT INTO dst SELECT exprs FROM src` makes of the source row `r`. */
  function Copied(dst: Table, exprs: seq<Expr>, r: Row): Row
    requires |exprs| == |dst.columns|
  {
    Build(dst.columns, exprs, r)
  }

  predicate CopyKeysUnique(src: Table, dst: Table, exprs: seq<Expr>)
    requires |exprs| == |dst.columns|
  {
    forall k1, k2 | k1 in src.rows && k2 in src.rows && k1 != k2 ::
      KeyOf(dst.key, Copied(dst, exprs, src.rows[k1])) != KeyOf(dst.key, Copied(dst, exprs, src.rows[k2]))
  }

  /** `INSERT INTO dst SELECT exprs FROM src`: all rows or, on the first violated constraint, none. */
  function CopyInto(name: string, src: Table, dst: Table, exprs: seq<Expr>): Result<Table, SqlError> {
    if |exprs| != |dst.columns| then Err(ColumnCountMismatch(name))
    else if !SelectResolves(exprs, src.columns) then Err(NoSuchColumn(name))
    else if !(forall k | k in src.rows :: NullFree(dst, Copied(dst, exprs, src.rows[k]))) then Err(NotNullViolation(name))
    else if !CopyKeysUnique(src, dst, exprs) then Err(UniqueViolation(name))
    else if !(forall k | k in src.rows :: KeyOf(dst.key, Copied(dst, exprs, src.rows[k])) !in dst.rows) then
      Err(UniqueViolation(name))
    else Ok(dst.(rows := dst.rows + CopiedRows(src, dst, exprs)))
  }

  /** The copied rows, each filed under its primary key in the target table. */
  function CopiedRows(src: Table, dst: Table, exprs: seq<Expr>): map<Key, Row>
    requires |exprs| == |dst.columns| && CopyKeysUnique(src, dst, exprs)
  {
    map k | k in src.rows :: KeyOf(dst.key, Copied(dst, exprs, src.rows[k])) := Copied(dst, exprs, src.rows[k])
  }

  // ---------------------------------------------------------------------------------------
  // Statements on the store

  /** One `execSQL` call. */
  datatype Stmt =
    | CreateTable(name: string, columns: seq<string>, key: seq<string>, notNull: set<string>)
    | DropTable(name: string, ifExists: bool)
    | CreateView(name: string)
    | DropView(name: string)
    | AddColumn(name: string, column: string, default: Value, notNullColumn: bool)
    | DeleteWhere(name: string, cond: Cond)
    | UpdateWhere(name: string, cond: Cond, sets: map<string, Expr>)
    | Insert(name: string, values: seq<Value>)
    | InsertOrReplace(name: string, values: seq<Value>)
    | CopyRows(source: string, name: string, select: seq<Expr>)

  function Put(db: Db, name: string, t: Table): Db {
    db.(tables := db.tables[name := t])
  }

  function ExecStmt(db: Db, s: Stmt): Result<Db, SqlError> {
    match s
    case CreateTable(n, cols, key, nn) =>
      if n in db.tables || n in db.views then Err(AlreadyExists(n))
      else if !Distinct(cols) then Err(DuplicateColumn(n))
      else if !(forall c | c in key :: c in cols) then Err(NoSuchColumn(n))
      else Ok(Put(db, n, Table(cols, key, nn, map[])))
    case DropTable(n, ifExists) =>
      if n in db.tables then Ok(db.(tables := db.tables - {n}))
      else if n in db.views then Err(NotATable(n))
      else if ifExists then Ok(db)
      else Err(NoSuchTable(n))
    case CreateView(n) =>
      if n in db.tables || n in db.views then Err(AlreadyExists(n))
      else Ok(db.(views := db.views + {n}))
    case DropView(n) =>
      if n in db.views then Ok(db.(views := db.views - {n})) else Err(NoSuchView(n))
    case AddColumn(n, c, d, nn) =>
      if n !in db.tables then Err(NoSuchTable(n))
      else var t :- AddColumnTo(n, db.tables[n], c, d, nn); Ok(Put(db, n, t))
    case DeleteWhere(n, cond) =>
      if n !in db.tables then Err(NoSuchTable(n))
      else var t :- DeleteFrom(n, db.tables[n], cond); Ok(Put(db, n, t))
    case UpdateWhere(n, cond, sets) =>
      if n !in db.tables then Err(NoSuchTable(n))
      else var t :- UpdateRows(n, db.tables[n], cond, sets); Ok(Put(db, n, t))
    case Insert(n, vals) =>
      if n !in db.tables then Err(NoSuchTable(n))
      else var t :- InsertRow(n, db.tables[n], vals, false); Ok(Put(db, n, t))
    case InsertOrReplace(n, vals) =>
      if n !in db.tables then Err(NoSuchTable(n))
      else var t :- InsertRow(n, db.tables[n], vals, true); Ok(Put(db, n, t))
    case CopyRows(src, n, sel) =>
      if src !in db.tables then Err(NoSuchTable(src))
      else if n !in db.tables then Err(NoSuchTable(n))
      else var t :- CopyInto(n, db.tables[src], db.tables[n], sel); Ok(Put(db, n, t))
  }

  /** The statements of one migration, run in order; the first failure stops the run. */
  function ExecAll(db: Db, ss: seq<Stmt>): Result<Db, SqlError> {
    ExecFrom(db, ss, 0)
  }

  /** The statements from position `i` on, run in order. */
  function ExecFrom(db: Db, ss: seq<Stmt>, i: nat): Result<Db, SqlError>
    decreases |ss| - i
  {
    if i >= |ss| then Ok(db)
    else
      var db' :- ExecStmt(db, ss[i]);
      ExecFrom(db', ss, i + 1)
  }

  /** The table a statement may create, drop or change. */
  function Touched(s: Stmt): set<string> {
    match s
    case CreateView(_) => {}
    case DropView(_) => {}
    case _ => {s.name}
  }

  /** No statement of `ss` names table `n`. */
  predicate Spares(ss: seq<Stmt>, n: string) {
    forall j | 0 <= j < |ss| :: n !in Touched(ss[j])
  }

  /** `s` changes the rows or columns of table `n` only. */
  predicate OnTable(s: Stmt, n: string) {
    (s.AddColumn? || s.DeleteWhere? || s.UpdateWhere? || s.Insert? || s.InsertOrReplace?) && s.name == n
  }

  /** The effect of a statement that is `OnTable(s, n)` on the table itself. */
  function TableStep(n: string, t: Table, s: Stmt): Result<Table, SqlError> {
    match s
    case AddColumn(_, c, d, nn) => AddColumnTo(n, t, c, d, nn)
    case DeleteWhere(_, cond) => DeleteFrom(n, t, cond)
    case UpdateWhere(_, cond, sets) => UpdateRows(n, t, cond, sets)
    case Insert(_, vals) => InsertRow(n, t, vals, false)
    case InsertOrReplace(_, vals) => InsertRow(n, t, vals, true)
    case _ => Ok(t)
  }

  /** The statements from position `i` on, all on table `n`, run against the table alone. */
  function TableRun(n: string, t: Table, ss: seq<Stmt>, i: nat): Result<Table, SqlError>
    decreases |ss| - i
  {
    if i >= |ss| then Ok(t)
    else
      var t' :- TableStep(n, t, ss[i]);
      TableRun(n, t', ss, i + 1)
  }

  // ---------------------------------------------------------------------------------------
  // Lemmas

  /** Running the tail of `a + b` past `a` is running `b`. */
  lemma {:induction false} ExecFromSuffix(db: Db, a: seq<Stmt>, b: seq<Stmt>, j: nat)
    ensures ExecFrom(db, a + b, |a| + j) == ExecFrom(db, b, j)
    decreases |b| - j
  {
    if j < |b| {
      assert (a + b)[|a| + j] == b[j];
      match ExecStmt(db, b[j])
      case Err(_) =>
      case Ok(d) => ExecFromSuffix(d, a, b, j + 1);
    }
  }

  /** Running `a + b` from a position inside `a` is running the rest of `a`, then `b`. */
  lemma {:induction false} ExecFromAppend(db: Db, a: seq<Stmt>, b: seq<Stmt>, i: nat)
    requires i <= |a|
    ensures ExecFrom(db, a + b, i) == match ExecFrom(db, a, i) case Err(e) => Err(e) case Ok(d) => ExecFrom(d, b, 0)
    decreases |a| - i
  {
    if i == |a| {
      ExecFromSuffix(db, a, b, 0);
    } else {
      assert (a + b)[i] == a[i];
      match ExecStmt(db, a[i])
      case Err(_) =>
      case Ok(d) => ExecFromAppend(d, a, b, i + 1);
    }
  }

  /** Running `a + b` is running `a`, then `b` on its result. */
  lemma ExecAllAppend(db: Db, a: seq<Stmt>, b: seq<Stmt>)
    ensures ExecAll(db, a + b) == match ExecAll(db, a) case Err(e) => Err(e) case Ok(d) => ExecAll(d, b)
  {
    ExecFromAppend(db, a, b, 0);
  }

  /** A statement leaves every table it does not name exactly as it was. */
  lemma StmtFrame(db: Db, s: Stmt, n: string)
    requires ExecStmt(db, s).Ok? && n !in Touched(s)
    ensures var db' := ExecStmt(db, s).value;
      (n in db'.tables <==> n in db.tables) && (n in db.tables ==> db'.tables[n] == db.tables[n])
  {
  }

  /** A run of statements leaves every table none of them names exactly as it was. */
  lemma {:induction false} ExecFromFrame(db: Db, ss: seq<Stmt>, i: nat, n: string)
    requires ExecFrom(db, ss, i).Ok? && forall j | i <= j < |ss| :: n !in Touched(ss[j])
    ensures var db' := ExecFrom(db, ss, i).value;
      (n in db'.tables <==> n in db.tables) && (n in db.tables ==> db'.tables[n] == db.tables[n])
    decreases |ss| - i
  {
    if i < |ss| {
      StmtFrame(db, ss[i], n);
      ExecFromFrame(ExecStmt(db, ss[i]).value, ss, i + 1, n);
    }
  }

  /** A built row holds exactly the table's columns. */
  lemma {:induction false} BuildColumns(columns: seq<string>, exprs: seq<Expr>, src: Row)
    requires |columns| == |exprs|
    ensures Build(columns, exprs, src).Keys == set c | c in columns
    decreases |columns|
  {
    if columns != [] {
      BuildColumns(columns[1..], exprs[1..], src);
      assert (set c | c in columns) == (set c | c in columns[1..]) + {columns[0]};
    }
  }

  /** With distinct column names, column `columns[i]` of a built row holds the `i`-th expression's value. */
  lemma {:induction false} BuildAt(columns: seq<string>, exprs: seq<Expr>, src: Row, i: nat)
    requires |columns| == |exprs| && Distinct(columns) && i < |columns|
    ensures Get(Build(columns, exprs, src), columns[i]) == Eval(exprs[i], src)
    decreases |columns|
  {
    if i > 0 {
      BuildAt(columns[1..], exprs[1..], src, i - 1);
    }
  }

  /** Column `columns[i]` of a row built from a VALUES list holds the `i`-th value. */
  lemma BuildLiteralsAt(columns: seq<string>, vals: seq<Value>, i: nat)
    requires |vals| == |columns| && Distinct(columns) && i < |columns|
    ensures Get(Build(columns, Literals(vals), map[]), columns[i]) == vals[i]
  {
    BuildAt(columns, Literals(vals), map[], i);
  }

  /** A VALUES list without NULLs fills every column named in `nn` that the table has. */
  lemma BuildLiteralsFill(columns: seq<string>, vals: seq<Value>, nn: set<string>)
    requires |vals| == |columns| && Distinct(columns)
    requires forall i | 0 <= i < |vals| :: vals[i] != Null
    requires forall c | c in nn :: c in columns
    ensures forall c | c in nn :: Get(Build(columns, Literals(vals), map[]), c) != Null
  {
    forall c | c in nn ensures Get(Build(columns, Literals(vals), map[]), c) != Null {
      var i :| 0 <= i < |columns| && columns[i] == c;
      BuildLiteralsAt(columns, vals, i);
    }
  }

  /** A one-column key is that column's value. */
  lemma KeyOfSingle(c: string, r: Row)
    ensures KeyOf([c], r) == [Get(r, c)]
  {
  }

  /** A plain INSERT whose row is complete and whose key is free adds that row under that key. */
  lemma InsertFresh(name: string, t: Table, vals: seq<Value>, r: Row, k: Key)
    requires |vals| == |t.columns| && Build(t.columns, Literals(vals), map[]) == r
    requires NullFree(t, r) && KeyOf(t.key, r) == k && k !in t.rows
    ensures InsertRow(name, t, vals, false) == Ok(t.(rows := t.rows[k := r]))
  { }

  /** A run whose first statement succeeds goes on from the table it leaves. */
  lemma TableRunStep(n: string, t: Table, ss: seq<Stmt>, i: nat, t': Table)
    requires i < |ss| && TableStep(n, t, ss[i]) == Ok(t')
    ensures TableRun(n, t, ss, i) == TableRun(n, t', ss, i + 1)
  { }

  /** A run whose first statement fails, fails. */
  lemma TableRunStops(n: string, t: Table, ss: seq<Stmt>, i: nat)
    requires i < |ss| && TableStep(n, t, ss[i]).Err?
    ensures TableRun(n, t, ss, i).Err?
  { }

  /** A plain INSERT of a VALUES list without NULLs into a table keyed by its first column,
      whose key is still free, files the built row under its first value. */
  lemma InsertKeyedByFirst(name: string, t: Table, vals: seq<Value>, s: Stmt)
    requires s == Insert(name, vals) && |vals| == |t.columns| > 0 && Distinct(t.columns)
    requires t.key == [t.columns[0]] && forall c | c in t.notNull :: c in t.columns
    requires forall i | 0 <= i < |vals| :: vals[i] != Null
    requires [vals[0]] !in t.rows
    ensures TableStep(name, t, s) == Ok(t.(rows := t.rows[[vals[0]] := Build(t.columns, Literals(vals), map[])]))
  {
    var r := Build(t.columns, Literals(vals), map[]);
    BuildLiteralsFill(t.columns, vals, t.notNull);
    BuildLiteralsAt(t.columns, vals, 0);
    KeyOfSingle(t.columns[0], r);
    InsertFresh(name, t, vals, r, [vals[0]]);
  }

  /** A statement that succeeds hands its result to the rest of the run. */
  lemma ExecFromStep(db: Db, ss: seq<Stmt>, i: nat, d: Db)
    requires i < |ss| && ExecStmt(db, ss[i]) == Ok(d)
    ensures ExecFrom(db, ss, i) == ExecFrom(d, ss, i + 1)
  {
  }

  /** A statement that fails ends the run with a failure. */
  lemma ExecFromStops(db: Db, ss: seq<Stmt>, i: nat)
    requires i < |ss| && ExecStmt(db, ss[i]).Err?
    ensures ExecFrom(db, ss, i).Err?
  {
  }

  /** A key computed from the same key-column values is the same key. */
  lemma KeyOfAgrees(key: seq<string>, r: Row, r': Row)
    requires forall c | c in key :: Get(r, c) == Get(r', c)
    ensures KeyOf(key, r) == KeyOf(key, r')
  {
  }

  /** When no row's key moves, the update keeps keys unique and keeps the same key set. */
  lemma UpdatedRowsKeys(t: Table, cond: Cond, sets: map<string, Expr>)
    requires forall k | k in t.rows :: KeyOf(t.key, UpdatedRow(t, cond, sets, k)) == k
    ensures UpdateKeepsKeysUnique(t, cond, sets)
    ensures UpdatedRows(t, cond, sets).Keys == t.rows.Keys
  {
    assert UpdateKeepsKeysUnique(t, cond, sets);
    var updated := UpdatedRows(t, cond, sets);
    assert updated.Keys <= t.rows.Keys;
    assert t.rows.Keys <= updated.Keys;
  }

  /** ... and each row is found under its old key. */
  lemma UpdatedRowsAt(t: Table, cond: Cond, sets: map<string, Expr>, k: Key)
    requires forall k | k in t.rows :: KeyOf(t.key, UpdatedRow(t, cond, sets, k)) == k
    requires k in t.rows
    ensures UpdateKeepsKeysUnique(t, cond, sets)
    ensures k in UpdatedRows(t, cond, sets) && UpdatedRows(t, cond, sets)[k] == UpdatedRow(t, cond, sets, k)
  {
    UpdatedRowsKeys(t, cond, sets);
    assert KeyOf(t.key, UpdatedRow(t, cond, sets, k)) == k;
  }

  /** An UPDATE that assigns no key column keeps every row under its key and changes
      exactly the rows that match, each as its SET clause says. */
  lemma UpdateOffKey(name: string, t: Table, cond: Cond, sets: map<string, Expr>)
    requires WellFormed(t) && SetsResolve(sets, t.columns) && CondResolves(cond, t.columns)
    requires forall c | c in sets :: c !in t.key
    requires forall k | k in t.rows && Holds(cond, t.rows[k]) :: NullFree(t, Assign(t.rows[k], sets))
    ensures UpdateRows(name, t, cond, sets).Ok?
    ensures var t' := UpdateRows(name, t, cond, sets).value;
      && t'.columns == t.columns && t'.key == t.key && t'.notNull == t.notNull
      && t'.rows.Keys == t.rows.Keys
      && forall k | k in t.rows :: t'.rows[k] == if Holds(cond, t.rows[k]) then Assign(t.rows[k], sets) else t.rows[k]
  {
    OffKeyAssignKeepsKeys(t, cond, sets);
    UpdatedRowsKeys(t, cond, sets);
    UpdateRowsOk(name, t, cond, sets);
    forall k | k in t.rows ensures UpdatedRows(t, cond, sets)[k] == UpdatedRow(t, cond, sets, k) {
      UpdatedRowsAt(t, cond, sets, k);
    }
  }

  lemma UpdateRowsOk(name: string, t: Table, cond: Cond, sets: map<string, Expr>)
    requires SetsResolve(sets, t.columns) && CondResolves(cond, t.columns)
    requires forall k | k in t.rows && Holds(cond, t.rows[k]) :: NullFree(t, Assign(t.rows[k], sets))
    requires UpdateKeepsKeysUnique(t, cond, sets)
    ensures UpdateRows(name, t, cond, sets) == Ok(t.(rows := UpdatedRows(t, cond, sets)))
  {
  }

  lemma OffKeyAssignKeepsKeys(t: Table, cond: Cond, sets: map<string, Expr>)
    requires WellFormed(t)
    requires forall c | c in sets :: c !in t.key
    ensures forall k | k in t.rows :: KeyOf(t.key, UpdatedRow(t, cond, sets, k)) == k
  {
    forall k | k in t.rows ensures KeyOf(t.key, UpdatedRow(t, cond, sets, k)) == k {
      KeyOfAgrees(t.key, UpdatedRow(t, cond, sets, k), t.rows[k]);
    }
  }

  /** `INSERT OR REPLACE` is an upsert by primary key: afterwards the key holds exactly the
      given row and every other row is unchanged; plain `INSERT` does the same only when the key is free. */
  lemma UpsertByKey(name: string, t: Table, vals: seq<Value>)
    requires |vals| == |t.columns|
    requires NullFree(t, Build(t.columns, Literals(vals), map[]))
    ensures var r := Build(t.columns, Literals(vals), map[]);
      var k := KeyOf(t.key, r);
      && InsertRow(name, t, vals, true).Ok?
      && InsertRow(name, t, vals, true).value.rows.Keys == t.rows.Keys + {k}
      && InsertRow(name, t, vals, true).value.rows[k] == r
      && (forall k' | k' in t.rows && k' != k :: InsertRow(name, t, vals, true).value.rows[k'] == t.rows[k'])
      && (InsertRow(name, t, vals, false).Ok? <==> k !in t.rows)
      && (k !in t.rows ==> InsertRow(name, t, vals, false) == InsertRow(name, t, vals, true))
  {
  }

  lemma CopyIntoOk(name: string, src: Table, dst: Table, exprs: seq<Expr>)
    requires |exprs| == |dst.columns| && SelectResolves(exprs, src.columns)
    requires forall k | k in src.rows :: NullFree(dst, Copied(dst, exprs, src.rows[k]))
    requires CopyKeysUnique(src, dst, exprs)
    requires forall k | k in src.rows :: KeyOf(dst.key, Copied(dst, exprs, src.rows[k])) !in dst.rows
    ensures CopyInto(name, src, dst, exprs) == Ok(dst.(rows := dst.rows + CopiedRows(src, dst, exprs)))
  {
  }

  lemma CopyIntoEmpty(name: string, src: Table, dst: Table, exprs: seq<Expr>)
    requires |exprs| == |dst.columns| && dst.rows == map[] && SelectResolves(exprs, src.columns)
    requires forall k | k in src.rows :: NullFree(dst, Copied(dst, exprs, src.rows[k]))
    requires CopyKeysUnique(src, dst, exprs)
    ensures CopyInto(name, src, dst, exprs) == Ok(dst.(rows := CopiedRows(src, dst, exprs)))
  {
    CopyIntoOk(name, src, dst, exprs);
    UnionWithEmpty(dst.rows, CopiedRows(src, dst, exprs));
  }

  lemma UnionWithEmpty<K, V>(e: map<K, V>, m: map<K, V>)
    requires e == map[]
    ensures e + m == m
  {
  }

  /** When every copied row keeps its source key, the copy files rows under the same keys. */
  lemma CopiedRowsKeys(src: Table, dst: Table, exprs: seq<Expr>)
    requires |exprs| == |dst.columns|
    requires forall k | k in src.rows :: KeyOf(dst.key, Copied(dst, exprs, src.rows[k])) == k
    ensures CopyKeysUnique(src, dst, exprs)
    ensures CopiedRows(src, dst, exprs).Keys == src.rows.Keys
  {
    assert CopyKeysUnique(src, dst, exprs);
    var copied := CopiedRows(src, dst, exprs);
    assert copied.Keys <= src.rows.Keys;
    assert src.rows.Keys <= copied.Keys;
  }

  lemma CopiedRowsAt(src: Table, dst: Table, exprs: seq<Expr>, k: Key)
    requires |exprs| == |dst.columns|
    requires forall k | k in src.rows :: KeyOf(dst.key, Copied(dst, exprs, src.rows[k])) == k
    requires k in src.rows
    ensures CopyKeysUnique(src, dst, exprs)
    ensures k in CopiedRows(src, dst, exprs) && CopiedRows(src, dst, exprs)[k] == Copied(dst, exprs, src.rows[k])
  {
    CopiedRowsKeys(src, dst, exprs);
    assert KeyOf(dst.key, Copied(dst, exprs, src.rows[k])) == k;
  }

  /** `INSERT INTO n SELECT ... FROM src` between two existing tables is the copy on the tables. */
  lemma CopyRowsStmt(db: Db, src: string, n: string, sel: seq<Expr>)
    requires src in db.tables && n in db.tables
    ensures ExecStmt(db, CopyRows(src, n, sel)) ==
      match CopyInto(n, db.tables[src], db.tables[n], sel) case Err(e) => Err(e) case Ok(t) => Ok(Put(db, n, t))
  {
  }

  /** A copy whose rows land under pairwise different keys files each copied row under its
      own key, and no other row. */
  lemma CopiedRowsRekeyed(src: Table, dst: Table, exprs: seq<Expr>)
    requires |exprs| == |dst.columns| && CopyKeysUnique(src, dst, exprs)
    ensures CopiedRows(src, dst, exprs).Keys == set k | k in src.rows :: KeyOf(dst.key, Copied(dst, exprs, src.rows[k]))
    ensures forall k | k in src.rows ::
      CopiedRows(src, dst, exprs)[KeyOf(dst.key, Copied(dst, exprs, src.rows[k]))] == Copied(dst, exprs, src.rows[k])
    ensures WellFormed(dst.(rows := CopiedRows(src, dst, exprs)))
  {
    var copied := CopiedRows(src, dst, exprs);
    forall k | k in src.rows
      ensures copied[KeyOf(dst.key, Copied(dst, exprs, src.rows[k]))] == Copied(dst, exprs, src.rows[k])
    {
      var key := KeyOf(dst.key, Copied(dst, exprs, src.rows[k]));
      assert key in copied;
    }
  }

  /** A rebuild copy into an empty table that keeps every row's key: it succeeds when the
      copied rows fill every NOT NULL column, and then holds exactly one copied row per source row. */
  lemma CopyKeepingKeys(name: string, src: Table, dst: Table, exprs: seq<Expr>)
    requires |exprs| == |dst.columns| && dst.rows == map[] && SelectResolves(exprs, src.columns)
    requires forall k | k in src.rows :: KeyOf(dst.key, Copied(dst, exprs, src.rows[k])) == k
    requires forall k | k in src.rows :: NullFree(dst, Copied(dst, exprs, src.rows[k]))
    ensures CopyInto(name, src, dst, exprs).Ok?
    ensures var t := CopyInto(name, src, dst, exprs).value;
      && t.columns == dst.columns && t.key == dst.key && t.notNull == dst.notNull
      && t.rows.Keys == src.rows.Keys
      && forall k | k in src.rows :: t.rows[k] == Copied(dst, exprs, src.rows[k])
  {
    CopiedRowsKeys(src, dst, exprs);
    CopyIntoEmpty(name, src, dst, exprs);
    forall k | k in src.rows ensures CopiedRows(src, dst, exprs)[k] == Copied(dst, exprs, src.rows[k]) {
      CopiedRowsAt(src, dst, exprs, k);
    }
  }

  /** `ADD COLUMN` on a sound table keeps it sound and every row under its key. */
  lemma AddColumnSound(name: string, t: Table, col: string, d: Value, nn: bool)
    requires Sound(t) && col !in t.columns && col !in t.key && col !in t.notNull && (nn ==> d != Null)
    ensures AddColumnTo(name, t, col, d, nn).Ok?
    ensures var t' := AddColumnTo(name, t, col, d, nn).value;
      && Sound(t') && t'.columns == t.columns + [col] && t'.key == t.key
      && t'.notNull == (if nn then t.notNull + {col} else t.notNull)
      && t'.rows.Keys == t.rows.Keys
  {
    var t' := AddColumnTo(name, t, col, d, nn).value;
    forall k | k in t'.rows ensures KeyOf(t'.key, t'.rows[k]) == k && NullFree(t', t'.rows[k]) {
      AddColumnRow(name, t, col, d, nn, k);
      KeyOfAgrees(t.key, t'.rows[k], t.rows[k]);
      assert NullFree(t, t.rows[k]);
      forall c | c in t'.notNull ensures Get(t'.rows[k], c) != Null {
        if c != col {
          assert Get(t.rows[k], c) != Null;
        }
      }
    }
  }

  /** ... gives every row the default in the new column and changes no other column. */
  lemma AddColumnRow(name: string, t: Table, col: string, d: Value, nn: bool, k: Key)
    requires col !in t.columns && (nn ==> d != Null) && k in t.rows
    ensures AddColumnTo(name, t, col, d, nn).Ok? && k in AddColumnTo(name, t, col, d, nn).value.rows
    ensures forall c :: Get(AddColumnTo(name, t, col, d, nn).value.rows[k], c) == if c == col then d else Get(t.rows[k], c)
  {
  }

  /** `UPDATE ... SET col = v WHERE cond` on a non-key column of a sound table keeps it sound and
      every row under its key. */
  lemma UpdateSetSound(name: string, t: Table, cond: Cond, col: string, v: Value)
    requires Sound(t) && col in t.columns && col !in t.key && (col in t.notNull ==> v != Null)
    requires CondResolves(cond, t.columns)
    ensures UpdateRows(name, t, cond, SetTo(col, v)).Ok?
    ensures var t' := UpdateRows(name, t, cond, SetTo(col, v)).value;
      && Sound(t') && t'.columns == t.columns && t'.key == t.key && t'.notNull == t.notNull
      && t'.rows.Keys == t.rows.Keys
  {
    var sets := SetTo(col, v);
    UpdateOffKey(name, t, cond, sets);
    var t' := UpdateRows(name, t, cond, sets).value;
    OffKeyAssignKeepsKeys(t, cond, sets);
    forall k | k in t.rows ensures KeyOf(t'.key, t'.rows[k]) == k && NullFree(t', t'.rows[k]) {
      assert t'.rows[k] == UpdatedRow(t, cond, sets, k);
    }
  }

  /** ... and sets `col` to `v` in exactly the matching rows, changing nothing else. */
  lemma UpdateSetRow(name: string, t: Table, cond: Cond, col: string, v: Value, k: Key)
    requires Sound(t) && col in t.columns && col !in t.key && (col in t.notNull ==> v != Null) && k in t.rows
    requires CondResolves(cond, t.columns)
    ensures UpdateRows(name, t, cond, SetTo(col, v)).Ok? && k in UpdateRows(name, t, cond, SetTo(col, v)).value.rows
    ensures forall c :: (Get(UpdateRows(name, t, cond, SetTo(col, v)).value.rows[k], c) ==
      if c == col && Holds(cond, t.rows[k]) then v else Get(t.rows[k], c))
  {
    var sets := SetTo(col, v);
    forall k' | k' in t.rows && Holds(cond, t.rows[k']) ensures NullFree(t, Assign(t.rows[k'], sets)) {
      AssignSetTo(t.rows[k'], col, v);
    }
    UpdateOffKey(name, t, cond, sets);
    AssignSetTo(t.rows[k], col, v);
  }

  /** `SET col = v` on one row: `col` reads `v`, every other column is unchanged. */
  lemma AssignSetTo(r: Row, col: string, v: Value)
    ensures forall c :: Get(Assign(r, SetTo(col, v)), c) == if c == col then v else Get(r, c)
  {
  }

  /** ... that is, the row with `col` overwritten. */
  lemma AssignOne(r: Row, col: string, v: Value)
    ensures Assign(r, SetTo(col, v)) == r[col := v]
  {
  }

  /** Two maps with the same keys and the same value under each key are equal. */
  lemma SameMap<K, V>(u: map<K, V>, m: map<K, V>)
    requires forall k | k in u :: k in m && u[k] == m[k]
    requires forall k | k in m :: k in u
    ensures u == m
  {
  }

  /** ... and leaves every row as `UpdatedRow` says. */
  lemma SetStep(name: string, t: Table, cond: Cond, col: string, v: Value)
    requires Sound(t) && col in t.columns && col !in t.key && (col in t.notNull ==> v != Null)
    requires CondResolves(cond, t.columns)
    ensures UpdateRows(name, t, cond, SetTo(col, v)).Ok?
    ensures var t' := UpdateRows(name, t, cond, SetTo(col, v)).value;
      && Sound(t') && t'.columns == t.columns && t'.key == t.key && t'.notNull == t.notNull
      && t'.rows.Keys == t.rows.Keys
      && forall k | k in t.rows :: t'.rows[k] == UpdatedRow(t, cond, SetTo(col, v), k)
  {
    UpdateSetSound(name, t, cond, col, v);
    var sets := SetTo(col, v);
    OffKeyAssignKeepsKeys(t, cond, sets);
    forall k | k in t.rows ensures UpdatedRows(t, cond, sets)[k] == UpdatedRow(t, cond, sets, k) {
      UpdatedRowsAt(t, cond, sets, k);
    }
  }

  /** `UPDATE n SET col = v WHERE ...` with a non-NULL literal `v`. */
  predicate SetsColumn(s: Stmt, n: string, col: string) {
    && s.UpdateWhere? && s.name == n && col in s.sets && s.sets[col].Lit? && s.sets[col].v != Null
    && s.sets == SetTo(col, s.sets[col].v)
  }

  /** A row after the updates from position `i` on, each applied where its condition holds. */
  function RowAfter(ss: seq<Stmt>, i: nat, r: Row): Row
    requires forall j | i <= j < |ss| :: ss[j].UpdateWhere?
    decreases |ss| - i
  {
    if i >= |ss| then r
    else RowAfter(ss, i + 1, if Holds(ss[i].cond, r) then Assign(r, ss[i].sets) else r)
  }

  /** A run of `SET col = v` updates on a non-key column of a sound table succeeds, keeps it
      sound and every row under its key, and leaves each row as `RowAfter` says. */
  lemma {:induction false} SetRun(n: string, t: Table, ss: seq<Stmt>, i: nat, col: string)
    requires Sound(t) && col in t.columns && col !in t.key
    requires forall j | i <= j < |ss| :: ss[j].UpdateWhere? && SetsColumn(ss[j], n, col) && CondResolves(ss[j].cond, t.columns)
    ensures TableRun(n, t, ss, i).Ok?
    ensures var t' := TableRun(n, t, ss, i).value;
      && Sound(t') && t'.columns == t.columns && t'.key == t.key && t'.notNull == t.notNull
      && t'.rows.Keys == t.rows.Keys
      && forall k | k in t.rows :: t'.rows[k] == RowAfter(ss, i, t.rows[k])
    decreases |ss| - i
  {
    if i < |ss| {
      var s := ss[i];
      SetStep(n, t, s.cond, col, s.sets[col].v);
      var t1 := UpdateRows(n, t, s.cond, s.sets).value;
      assert TableStep(n, t, s) == Ok(t1);
      SetRun(n, t1, ss, i + 1, col);
    }
  }

  /** A run of statements on one existing table is that table's run, put back into the store. */
  lemma {:induction false} ExecFromOnTable(db: Db, ss: seq<Stmt>, i: nat, n: string)
    requires n in db.tables && forall j | i <= j < |ss| :: OnTable(ss[j], n)
    ensures ExecFrom(db, ss, i) == match TableRun(n, db.tables[n], ss, i)
      case Err(e) => Err(e)
      case Ok(t) => Ok(Put(db, n, t))
    decreases |ss| - i
  {
    if i < |ss| {
      match TableStep(n, db.tables[n], ss[i])
      case Err(e) =>
      case Ok(t) =>
        var d := Put(db, n, t);
        assert ExecStmt(db, ss[i]) == Ok(d);
        ExecFromOnTable(d, ss, i + 1, n);
        assert d.tables[n] == t;
        assert forall t' :: Put(d, n, t') == Put(db, n, t');
    } else {
      assert Put(db, n, db.tables[n]) == db;
    }
  }
}
