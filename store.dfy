/** The store the migrations change in place: its tables, its views and its recorded schema
    version. Each statement is a method that either applies the statement or, when SQLite
    would abort it, leaves the store as it was and returns the error. */
module Stores {
  import opened Results
  import Sql
  import opened Chain

  /** `after` is what the statement's outcome `res` says, and `r` reports that outcome. */
  predicate Applied(before: Sql.Db, after: Sql.Db, r: Result<(), Sql.SqlError>, res: Result<Sql.Db, Sql.SqlError>) {
    match res
    case Ok(d) => r.Ok? && after == d
    case Err(e) => r == Err(e) && after == before
  }

  class Store {
    var version: nat
    var tables: map<string, Sql.Table>
    var views: set<string>

    function State(): Sql.Db
      reads this
    {
      Sql.Db(tables, views)
    }

    constructor (db: Sql.Db, v: nat)
      ensures State() == db && version == v
    {
      tables := db.tables;
      views := db.views;
      version := v;
    }

    method CreateTable(n: string, columns: seq<string>, key: seq<string>, notNull: set<string>)
      returns (r: Result<(), Sql.SqlError>)
      modifies this
      ensures Applied(old(State()), State(), r, Sql.ExecStmt(old(State()), Sql.CreateTable(n, columns, key, notNull)))
      ensures version == old(version)
    {
      if n in tables || n in views {
        r := Err(Sql.AlreadyExists(n));
      } else if !Sql.Distinct(columns) {
        r := Err(Sql.DuplicateColumn(n));
      } else if !(forall c | c in key :: c in columns) {
        r := Err(Sql.NoSuchColumn(n));
      } else {
        tables := tables[n := Sql.Table(columns, key, notNull, map[])];
        r := Ok(());
      }
    }

    method DropTable(n: string, ifExists: bool) returns (r: Result<(), Sql.SqlError>)
      modifies this
      ensures Applied(old(State()), State(), r, Sql.ExecStmt(old(State()), Sql.DropTable(n, ifExists)))
      ensures version == old(version)
    {
      if n in tables {
        tables := tables - {n};
        r := Ok(());
      } else if n in views {
        r := Err(Sql.NotATable(n));
      } else if ifExists {
        r := Ok(());
      } else {
        r := Err(Sql.NoSuchTable(n));
      }
    }

    method CreateView(n: string) returns (r: Result<(), Sql.SqlError>)
      modifies this
      ensures Applied(old(State()), State(), r, Sql.ExecStmt(old(State()), Sql.CreateView(n)))
      ensures version == old(version)
    {
      if n in tables || n in views {
        r := Err(Sql.AlreadyExists(n));
      } else {
        views := views + {n};
        r := Ok(());
      }
    }

    method DropView(n: string) returns (r: Result<(), Sql.SqlError>)
      modifies this
      ensures Applied(old(State()), State(), r, Sql.ExecStmt(old(State()), Sql.DropView(n)))
      ensures version == old(version)
    {
      if n in views {
        views := views - {n};
        r := Ok(());
      } else {
        r := Err(Sql.NoSuchView(n));
      }
    }

    /** Replace table `n` by the outcome `t` of a statement on it. */
    method Commit(n: string, t: Result<Sql.Table, Sql.SqlError>) returns (r: Result<(), Sql.SqlError>)
      requires n in tables
      modifies this
      ensures t.Ok? ==> r.Ok? && State() == Sql.Put(old(State()), n, t.value)
      ensures t.Err? ==> r == Err(t.error) && State() == old(State())
      ensures version == old(version)
    {
      if t.Err? {
        r := Err(t.error);
      } else {
        tables := tables[n := t.value];
        r := Ok(());
      }
    }

    method AddColumn(n: string, column: string, default: Sql.Value, notNull: bool) returns (r: Result<(), Sql.SqlError>)
      modifies this
      ensures Applied(old(State()), State(), r, Sql.ExecStmt(old(State()), Sql.AddColumn(n, column, default, notNull)))
      ensures version == old(version)
    {
      if n !in tables {
        r := Err(Sql.NoSuchTable(n));
      } else {
        r := Commit(n, Sql.AddColumnTo(n, tables[n], column, default, notNull));
      }
    }

    method DeleteWhere(n: string, cond: Sql.Cond) returns (r: Result<(), Sql.SqlError>)
      modifies this
      ensures Applied(old(State()), State(), r, Sql.ExecStmt(old(State()), Sql.DeleteWhere(n, cond)))
      ensures version == old(version)
    {
      if n !in tables {
        r := Err(Sql.NoSuchTable(n));
      } else {
        r := Commit(n, Sql.DeleteFrom(n, tables[n], cond));
      }
    }

    method UpdateWhere(n: string, cond: Sql.Cond, sets: map<string, Sql.Expr>) returns (r: Result<(), Sql.SqlError>)
      modifies this
      ensures Applied(old(State()), State(), r, Sql.ExecStmt(old(State()), Sql.UpdateWhere(n, cond, sets)))
      ensures version == old(version)
    {
      if n !in tables {
        r := Err(Sql.NoSuchTable(n));
      } else {
        r := Commit(n, Sql.UpdateRows(n, tables[n], cond, sets));
      }
    }

    method Insert(n: string, values: seq<Sql.Value>) returns (r: Result<(), Sql.SqlError>)
      modifies this
      ensures Applied(old(State()), State(), r, Sql.ExecStmt(old(State()), Sql.Insert(n, values)))
      ensures version == old(version)
    {
      if n !in tables {
        r := Err(Sql.NoSuchTable(n));
      } else {
        r := Commit(n, Sql.InsertRow(n, tables[n], values, false));
      }
    }

    method InsertOrReplace(n: string, values: seq<Sql.Value>) returns (r: Result<(), Sql.SqlError>)
      modifies this
      ensures Applied(old(State()), State(), r, Sql.ExecStmt(old(State()), Sql.InsertOrReplace(n, values)))
      ensures version == old(version)
    {
      if n !in tables {
        r := Err(Sql.NoSuchTable(n));
      } else {
        r := Commit(n, Sql.InsertRow(n, tables[n], values, true));
      }
    }

    method CopyRows(source: string, n: string, select: seq<Sql.Expr>) returns (r: Result<(), Sql.SqlError>)
      modifies this
      ensures Applied(old(State()), State(), r, Sql.ExecStmt(old(State()), Sql.CopyRows(source, n, select)))
      ensures version == old(version)
    {
      if source !in tables {
        r := Err(Sql.NoSuchTable(source));
      } else if n !in tables {
        r := Err(Sql.NoSuchTable(n));
      } else {
        r := Commit(n, Sql.CopyInto(n, tables[source], tables[n], select));
      }
    }

    /** One `execSQL` call. */
    method ExecSQL(s: Sql.Stmt) returns (r: Result<(), Sql.SqlError>)
      modifies this
      ensures Applied(old(State()), State(), r, Sql.ExecStmt(old(State()), s))
      ensures version == old(version)
    {
      match s
      case CreateTable(n, cols, key, nn) => r := CreateTable(n, cols, key, nn);
      case DropTable(n, ifExists) => r := DropTable(n, ifExists);
      case CreateView(n) => r := CreateView(n);
      case DropView(n) => r := DropView(n);
      case AddColumn(n, c, d, nn) => r := AddColumn(n, c, d, nn);
      case DeleteWhere(n, cond) => r := DeleteWhere(n, cond);
      case UpdateWhere(n, cond, sets) => r := UpdateWhere(n, cond, sets);
      case Insert(n, vals) => r := Insert(n, vals);
      case InsertOrReplace(n, vals) => r := InsertOrReplace(n, vals);
      case CopyRows(src, n, sel) => r := CopyRows(src, n, sel);
    }

    /** One migration's `migrate` body: its statements in order, stopping at the first that fails. */
    method RunStatements(ss: seq<Sql.Stmt>) returns (r: Result<(), Sql.SqlError>)
      modifies this
      ensures Sql.ExecAll(old(State()), ss) == if r.Ok? then Ok(State()) else Err(r.error)
      ensures version == old(version)
    {
      var i := 0;
      while i < |ss|
        invariant 0 <= i <= |ss|
        invariant Sql.ExecAll(old(State()), ss) == Sql.ExecFrom(State(), ss, i)
        invariant version == old(version)
      {
        var step := ExecSQL(ss[i]);
        if step.Err? {
          return Err(step.error);
        }
        i := i + 1;
      }
      r := Ok(());
    }

    /** Opening the store: run every registered step from the recorded version up to the target
        inside one transaction, then record the target version; on any failure roll back. */
    method Upgrade(scripts: seq<seq<Sql.Stmt>>) returns (failure: Option<MigrationError>)
      modifies this
      ensures Outcome(State(), version, failure) == Chain.Upgrade(scripts, old(State()), old(version))
    {
      var snapshot := State();
      var path := PathFrom(version);
      if path.Err? {
        return Some(path.error);
      }
      var steps := path.value;
      var i := 0;
      while i < |steps|
        invariant 0 <= i <= |steps|
        invariant version == old(version)
        invariant Migrate(scripts, snapshot, version) == RunPath(scripts, State(), steps, i)
      {
        var r := RunStatements(Statements(scripts, steps[i]));
        if r.Err? {
          tables, views := snapshot.tables, snapshot.views;
          return Some(StepFailed(steps[i].from, steps[i].to, r.error));
        }
        i := i + 1;
      }
      version := TargetVersion;
      failure := None;
    }
  }
}
