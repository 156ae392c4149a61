/** Step 11 -> 12, `modifyAppInfoTableSchema`: AppInfo is rebuilt through AppInfo_backup. The
    three flags of version 11 (allowed, whitelisted, excluded) become one `firewallStatus`, the
    screen-off and background flags move to new names, every app starts unmetered, and the old
    flag columns are gone. */
module AppInfoRebuild {
  import opened Results
  import opened Sql
  import opened Migrations
  import opened Rebuild

  const AppKey: seq<string> := ["packageInfo"]

  /** The three statements that fold the old flags into `firewallStatus` on AppInfo_backup. */
  const StatusUpdates: seq<Stmt> := [
    UpdateWhere(AppInfoBackup, Eq("isInternetAllowed", Int(1)), SetTo("firewallStatus", Int(2))),
    UpdateWhere(AppInfoBackup, Eq("whiteListUniv1", Int(1)), SetTo("firewallStatus", Int(3))),
    UpdateWhere(AppInfoBackup, Eq("isExcluded", Int(1)), SetTo("firewallStatus", Int(4)))
  ]

  /** The columns of a version-11 AppInfo row that the upgrade reads. */
  const AppInfoRead: seq<string> := [
    "packageInfo", "appName", "uid", "isSystemApp", "appCategory", "wifiDataUsed", "mobileDataUsed",
    "isScreenOff", "isBackgroundEnabled", "isInternetAllowed", "whiteListUniv1", "isExcluded"
  ]

  /** The columns that keep their name and value. */
  const AppInfoKept: seq<string> :=
    ["packageInfo", "appName", "uid", "isSystemApp", "appCategory", "wifiDataUsed", "mobileDataUsed"]

  /** An app row the upgrade can carry over: every column it reads is set. */
  predicate Complete(r: Row) {
    forall c | c in AppInfoRead :: Get(r, c) != Null
  }

  /** The firewall status of an app under the flags of version 11: excluded (4) wins over
      whitelisted (3), which wins over allowed (2); an app with none of them is blocked (0). */
  function FirewallStatus(r: Row): Value {
    if Get(r, "isExcluded") == Int(1) then Int(4)
    else if Get(r, "whiteListUniv1") == Int(1) then Int(3)
    else if Get(r, "isInternetAllowed") == Int(1) then Int(2)
    else Int(0)
  }

  /** `u` carries the values of the version-11 row `r` under their version-12 names. */
  predicate Carries(r: Row, u: Row) {
    && (forall c | c in AppInfoKept :: Get(u, c) == Get(r, c))
    && Get(u, "firewallStatus") == FirewallStatus(r)
    && Get(u, "metered") == Int(0)
    && Get(u, "screenOffAllowed") == Get(r, "isScreenOff")
    && Get(u, "backgroundAllowed") == Get(r, "isBackgroundEnabled")
  }

  /** `r'` is the version-12 row of the app whose version-11 row is `r`: exactly the eleven
      columns of version 12, carrying `r`'s values. */
  predicate Upgraded(r: Row, r': Row) {
    r'.Keys == AllOf(AppInfoColumns) && Carries(r, r')
  }

  /** The backup table the first two statements fill from AppInfo's rows. */
  function BackupOf(rows: map<Key, Row>): Table {
    Table(AppInfoBackupColumns, AppKey, AllOf(AppInfoBackupColumns), ProjectAll(AppInfoBackupColumns, AppInfoToBackup, rows))
  }

  // ---------------------------------------------------------------------------------------
  // The statements

  /** The helper is a backup, the three status updates on the backup, and a restore of the
      first eleven columns. */
  lemma AppInfoRebuildShape()
    ensures ModifyAppInfoTableSchema ==
      Backup(AppInfo, AppInfoBackup, AppInfoBackupColumns, AppKey, AllOf(AppInfoBackupColumns), AppInfoToBackup)
      + StatusUpdates
      + Restore(AppInfo, AppInfoBackup, AppInfoColumns, AppKey, AllOf(AppInfoColumns), Cols(AppInfoColumns), false)
  {
  }

  lemma BackupColumnsDistinct()
    ensures Creatable(AppInfoBackupColumns, AppKey)
  {
  }

  lemma AppInfoSchema()
    ensures Creatable(AppInfoBackupColumns, AppKey) && Creatable(AppInfoColumns, AppKey)
    ensures |AppInfoToBackup| == |AppInfoBackupColumns| && PlainSelect(AppInfoToBackup)
    ensures AppInfoToBackup[0] == Col(AppInfoBackupColumns[0]) && AppKey == [AppInfoBackupColumns[0]]
    ensures "firewallStatus" in AppInfoBackupColumns && "firewallStatus" !in AppKey
  {
    BackupColumnsDistinct();
    assert AppInfoColumns[0] == "packageInfo";
  }

  /** The backup keeps the three old flags the status updates read. */
  lemma BackupHasFlags()
    ensures "isInternetAllowed" in AppInfoBackupColumns && "whiteListUniv1" in AppInfoBackupColumns
    ensures "isExcluded" in AppInfoBackupColumns
  {
    assert AppInfoBackupColumns[11] == "isInternetAllowed" && AppInfoBackupColumns[12] == "whiteListUniv1";
    assert AppInfoBackupColumns[13] == "isExcluded";
  }

  /** The restore reads only columns the backup has. */
  lemma RestoreResolves()
    ensures SelectResolves(Cols(AppInfoColumns), AppInfoBackupColumns)
  {
    forall i | 0 <= i < |AppInfoColumns| ensures ExprResolves(Cols(AppInfoColumns)[i], AppInfoBackupColumns) {
      assert AppInfoColumns[i] == AppInfoBackupColumns[i];
    }
  }

  /** The columns `Complete` names are exactly those the backup copy reads. */
  lemma CompleteIsReadsSet(r: Row)
    ensures Complete(r) <==> ReadsSet(AppInfoToBackup, r)
  {
    var at := [0, 1, 2, 3, 5, 6, 7, 9, 10, 11, 12, 13];
    assert forall j | 0 <= j < |AppInfoRead| :: 0 <= at[j] < |AppInfoToBackup| && AppInfoToBackup[at[j]] == Col(AppInfoRead[j]);
    if Complete(r) {
      forall i | 0 <= i < |AppInfoToBackup| && AppInfoToBackup[i].Col? ensures Get(r, AppInfoToBackup[i].name) != Null {
        assert AppInfoToBackup[i].name in AppInfoRead;
      }
    }
    if ReadsSet(AppInfoToBackup, r) {
      forall c | c in AppInfoRead ensures Get(r, c) != Null {
        var j :| 0 <= j < |AppInfoRead| && AppInfoRead[j] == c;
        assert AppInfoToBackup[at[j]] == Col(c);
      }
    }
  }

  // ---------------------------------------------------------------------------------------
  // One row

  /** Where each column of AppInfo_backup sits and what the copy into it puts there. */
  predicate BackupLayout(columns: seq<string>, sel: seq<Expr>) {
    && Distinct(columns) && |columns| == |sel| == 14
    && (forall j | 0 <= j < |AppInfoKept| :: KeptAt(j) < 14 && columns[KeptAt(j)] == AppInfoKept[j] && sel[KeptAt(j)] == Col(AppInfoKept[j]))
    && columns[4] == "firewallStatus" && sel[4] == Lit(Int(0))
    && columns[8] == "metered" && sel[8] == Lit(Int(0))
    && columns[9] == "screenOffAllowed" && sel[9] == Col("isScreenOff")
    && columns[10] == "backgroundAllowed" && sel[10] == Col("isBackgroundEnabled")
    && columns[11] == "isInternetAllowed" && sel[11] == Col("isInternetAllowed")
    && columns[12] == "whiteListUniv1" && sel[12] == Col("whiteListUniv1")
    && columns[13] == "isExcluded" && sel[13] == Col("isExcluded")
  }

  /** The backup column of the `j`-th kept column: `firewallStatus` sits between the fourth
      and the fifth. */
  function KeptAt(j: nat): nat {
    if j < 4 then j else j + 1
  }

  lemma BackupLayoutHolds()
    ensures BackupLayout(AppInfoBackupColumns, AppInfoToBackup)
  {
    BackupColumnsDistinct();
  }

  /** A backup row keeps the columns that keep their name. */
  lemma BackupRowKept(columns: seq<string>, sel: seq<Expr>, r: Row)
    requires BackupLayout(columns, sel)
    ensures forall c | c in AppInfoKept :: Get(Project(columns, sel, r), c) == Get(r, c)
  {
    forall c | c in AppInfoKept ensures Get(Project(columns, sel, r), c) == Get(r, c) {
      var j :| 0 <= j < |AppInfoKept| && AppInfoKept[j] == c;
      BuildAt(columns, sel, r, KeptAt(j));
    }
  }

  /** A backup row starts at status 0 and unmetered, takes the screen-off and background flags
      under their new names, and keeps the three flags `FirewallStatus` reads. */
  lemma BackupRowFlags(columns: seq<string>, sel: seq<Expr>, r: Row)
    requires BackupLayout(columns, sel)
    ensures var b := Project(columns, sel, r);
      && Get(b, "firewallStatus") == Int(0)
      && Get(b, "metered") == Int(0)
      && Get(b, "screenOffAllowed") == Get(r, "isScreenOff")
      && Get(b, "backgroundAllowed") == Get(r, "isBackgroundEnabled")
      && FirewallStatus(b) == FirewallStatus(r)
  {
    BuildAt(columns, sel, r, 4);
    BuildAt(columns, sel, r, 8);
    BuildAt(columns, sel, r, 9);
    BuildAt(columns, sel, r, 10);
    BuildAt(columns, sel, r, 11);
    BuildAt(columns, sel, r, 12);
    BuildAt(columns, sel, r, 13);
  }

  /** Three updates that set `col` to 2, 3 and 4 where flags `f1`, `f2` and `f3` are 1: the last
      flag set wins, and nothing but `col` changes. */
  lemma FoldFlags(ss: seq<Stmt>, n: string, col: string, f1: string, f2: string, f3: string, r: Row)
    requires ss == [UpdateWhere(n, Eq(f1, Int(1)), SetTo(col, Int(2))), UpdateWhere(n, Eq(f2, Int(1)), SetTo(col, Int(3))),
                    UpdateWhere(n, Eq(f3, Int(1)), SetTo(col, Int(4)))]
    requires col != f1 && col != f2 && col != f3 && Get(r, col) == Int(0)
    ensures forall c :: (Get(RowAfter(ss, 0, r), c) ==
      if c != col then Get(r, c)
      else if Get(r, f3) == Int(1) then Int(4)
      else if Get(r, f2) == Int(1) then Int(3)
      else if Get(r, f1) == Int(1) then Int(2)
      else Int(0))
  {
    var r1 := if Holds(ss[0].cond, r) then Assign(r, ss[0].sets) else r;
    AssignSetTo(r, col, Int(2));
    var r2 := if Holds(ss[1].cond, r1) then Assign(r1, ss[1].sets) else r1;
    AssignSetTo(r1, col, Int(3));
    var r3 := if Holds(ss[2].cond, r2) then Assign(r2, ss[2].sets) else r2;
    AssignSetTo(r2, col, Int(4));
    assert RowAfter(ss, 2, r2) == RowAfter(ss, 3, r3) == r3;
    assert RowAfter(ss, 1, r1) == RowAfter(ss, 2, r2);
    assert RowAfter(ss, 0, r) == RowAfter(ss, 1, r1);
  }

  /** `u` is the row `b` with `firewallStatus` set to the status `b`'s flags name, and nothing
      else changed. */
  ghost predicate Folded(b: Row, u: Row) {
    forall c :: Get(u, c) == if c == "firewallStatus" then FirewallStatus(b) else Get(b, c)
  }

  /** The three updates leave in `firewallStatus` the status `FirewallStatus` names and change
      nothing else in the row. */
  lemma StatusOfRow(r: Row)
    requires Get(r, "firewallStatus") == Int(0)
    ensures Folded(r, RowAfter(StatusUpdates, 0, r))
  {
    FoldFlags(StatusUpdates, AppInfoBackup, "firewallStatus", "isInternetAllowed", "whiteListUniv1", "isExcluded", r);
  }

  // ---------------------------------------------------------------------------------------
  // The three phases

  /** Each of the three statements sets `firewallStatus` of AppInfo_backup to a constant. */
  predicate StatusUpdatesSet() {
    forall j | 0 <= j < |StatusUpdates| :: StatusUpdates[j].UpdateWhere? && SetsColumn(StatusUpdates[j], AppInfoBackup, "firewallStatus")
  }

  /** The status updates on a sound backup table: they succeed, keep every row under its key
      and change only `firewallStatus`, to the status the row's flags name. */
  lemma StatusRun(t: Table)
    requires Sound(t) && "firewallStatus" in t.columns && "firewallStatus" !in t.key
    requires "isInternetAllowed" in t.columns && "whiteListUniv1" in t.columns && "isExcluded" in t.columns
    requires forall k | k in t.rows :: Get(t.rows[k], "firewallStatus") == Int(0)
    ensures TableRun(AppInfoBackup, t, StatusUpdates, 0).Ok?
    ensures var t' := TableRun(AppInfoBackup, t, StatusUpdates, 0).value;
      && Sound(t') && t'.columns == t.columns && t'.key == t.key && t'.notNull == t.notNull
      && t'.rows.Keys == t.rows.Keys
      && forall k | k in t.rows :: Folded(t.rows[k], t'.rows[k])
  {
    assert StatusUpdatesSet();
    SetRun(AppInfoBackup, t, StatusUpdates, 0, "firewallStatus");
    forall k | k in t.rows {
      StatusOfRow(t.rows[k]);
    }
  }

  /** Copying a row column by column keeps exactly those columns and their values. */
  lemma ProjectCols(columns: seq<string>, r: Row)
    requires Distinct(columns)
    ensures Project(columns, Cols(columns), r).Keys == AllOf(columns)
    ensures forall c | c in columns :: Get(Project(columns, Cols(columns), r), c) == Get(r, c)
  {
    BuildColumns(columns, Cols(columns), r);
    forall c | c in columns ensures Get(Project(columns, Cols(columns), r), c) == Get(r, c) {
      var i :| 0 <= i < |columns| && columns[i] == c;
      BuildAt(columns, Cols(columns), r, i);
    }
  }

  /** A plain column-by-column copy copies every column as it is. */
  lemma ColsCopyAsIs(columns: seq<string>)
    ensures CopiesAsIs(columns, Cols(columns), AllOf(columns)) && Stable(columns, Cols(columns))
  {
  }

  /** The new AppInfo keeps the first eleven backup columns, among them the ones that keep
      their name and the four the upgrade sets. */
  lemma AppInfoColumnsFacts()
    ensures AppInfoColumns == AppInfoBackupColumns[..11]
    ensures forall c | c in AppInfoKept :: c in AppInfoColumns && c != "firewallStatus"
    ensures "firewallStatus" in AppInfoColumns && "metered" in AppInfoColumns
    ensures "screenOffAllowed" in AppInfoColumns && "backgroundAllowed" in AppInfoColumns
  {
    assert AppInfoColumns[4] == "firewallStatus" && AppInfoColumns[8] == "metered";
    assert AppInfoColumns[9] == "screenOffAllowed" && AppInfoColumns[10] == "backgroundAllowed";
    forall c | c in AppInfoKept ensures c in AppInfoColumns && c != "firewallStatus" {
      var j :| 0 <= j < |AppInfoKept| && AppInfoKept[j] == c;
      assert AppInfoColumns[KeptAt(j)] == c;
    }
  }

  /** One app through the backup (row `b`) and the status updates (row `u`). */
  lemma CarriedRow(r: Row, b: Row, u: Row)
    requires forall c | c in AppInfoKept :: Get(b, c) == Get(r, c)
    requires Get(b, "metered") == Int(0) && FirewallStatus(b) == FirewallStatus(r)
    requires Get(b, "screenOffAllowed") == Get(r, "isScreenOff") && Get(b, "backgroundAllowed") == Get(r, "isBackgroundEnabled")
    requires Folded(b, u)
    ensures Carries(r, u)
  {
    AppInfoColumnsFacts();
  }

  /** ... and through the restore (row `f`). */
  lemma RestoredRow(r: Row, u: Row, f: Row)
    requires Carries(r, u)
    requires f.Keys == AllOf(AppInfoColumns) && forall c | c in AppInfoColumns :: Get(f, c) == Get(u, c)
    ensures Upgraded(r, f)
  {
    AppInfoColumnsFacts();
  }

  /** First phase: the backup succeeds exactly when AppInfo has every column the copy reads
      and every app row is complete, and then holds each row's backup projection, with every
      status still 0. */
  lemma BackupPhase(db: Db)
    requires AppInfo in db.tables && AppInfoBackup !in db.tables && AppInfoBackup !in db.views
    requires WellFormed(db.tables[AppInfo]) && db.tables[AppInfo].key == AppKey
    ensures var rows := db.tables[AppInfo].rows;
      var run := ExecAll(db, Backup(AppInfo, AppInfoBackup, AppInfoBackupColumns, AppKey, AllOf(AppInfoBackupColumns), AppInfoToBackup));
      && (run.Ok? <==> SelectResolves(AppInfoToBackup, db.tables[AppInfo].columns) && forall k | k in rows :: Complete(rows[k]))
      && (run.Ok? ==> run.value == Put(db, AppInfoBackup, BackupOf(rows)) && Sound(BackupOf(rows)))
  {
    var rows := db.tables[AppInfo].rows;
    AppInfoSchema();
    FirstColumnKeeps(db.tables[AppInfo], AppInfoBackupColumns, AppInfoToBackup);
    BackupRun(db, AppInfo, AppInfoBackup, AppInfoBackupColumns, AppKey, AllOf(AppInfoBackupColumns), AppInfoToBackup);
    FillsAllIffReadsSet(AppInfoBackupColumns, AppInfoToBackup, rows);
    forall k | k in rows {
      CompleteIsReadsSet(rows[k]);
    }
    ProjectAllWellFormed(AppInfoBackupColumns, AppKey, AllOf(AppInfoBackupColumns), AppInfoToBackup, rows);
  }

  /** Second phase: the status updates succeed on the backup and change only `firewallStatus`. */
  lemma StatusPhase(d1: Db, t: Table)
    requires AppInfoBackup in d1.tables && d1.tables[AppInfoBackup] == t
    requires Sound(t) && "firewallStatus" in t.columns && "firewallStatus" !in t.key
    requires "isInternetAllowed" in t.columns && "whiteListUniv1" in t.columns && "isExcluded" in t.columns
    requires forall k | k in t.rows :: Get(t.rows[k], "firewallStatus") == Int(0)
    ensures ExecAll(d1, StatusUpdates).Ok?
    ensures var d2 := ExecAll(d1, StatusUpdates).value;
      && AppInfoBackup in d2.tables && d2 == Put(d1, AppInfoBackup, d2.tables[AppInfoBackup])
      && var t2 := d2.tables[AppInfoBackup];
      && Sound(t2) && t2.columns == t.columns && t2.key == t.key && t2.notNull == t.notNull && t2.rows.Keys == t.rows.Keys
      && forall k | k in t.rows :: Folded(t.rows[k], t2.rows[k])
  {
    StatusInStore(d1);
    StatusRun(t);
  }

  /** The status updates touch AppInfo_backup alone. */
  lemma StatusInStore(db: Db)
    requires AppInfoBackup in db.tables
    ensures ExecAll(db, StatusUpdates) == match TableRun(AppInfoBackup, db.tables[AppInfoBackup], StatusUpdates, 0)
      case Err(e) => Err(e)
      case Ok(t) => Ok(Put(db, AppInfoBackup, t))
  {
    ExecFromOnTable(db, StatusUpdates, 0, AppInfoBackup);
  }

  /** Every backup row starts with status 0. */
  lemma BackupStartsAtZero(rows: map<Key, Row>)
    ensures forall k | k in rows :: Get(BackupOf(rows).rows[k], "firewallStatus") == Int(0)
  {
    BackupLayoutHolds();
    forall k | k in rows ensures Get(BackupOf(rows).rows[k], "firewallStatus") == Int(0) {
      BackupRowFlags(AppInfoBackupColumns, AppInfoToBackup, rows[k]);
    }
  }

  /** Third phase: the restore of the first eleven columns from a sound backup succeeds and
      drops the backup. */
  lemma RestorePhase(d2: Db)
    requires AppInfoBackup in d2.tables && AppInfo !in d2.views && AppInfo != AppInfoBackup
    requires Sound(d2.tables[AppInfoBackup]) && d2.tables[AppInfoBackup].key == AppKey
    requires d2.tables[AppInfoBackup].columns == AppInfoBackupColumns
    requires d2.tables[AppInfoBackup].notNull == AllOf(AppInfoBackupColumns)
    ensures var ss := Restore(AppInfo, AppInfoBackup, AppInfoColumns, AppKey, AllOf(AppInfoColumns), Cols(AppInfoColumns), false);
      var rows := ProjectAll(AppInfoColumns, Cols(AppInfoColumns), d2.tables[AppInfoBackup].rows);
      ExecAll(d2, ss) == Ok(Db((d2.tables - {AppInfoBackup})[AppInfo := Table(AppInfoColumns, AppKey, AllOf(AppInfoColumns), rows)], d2.views))
  {
    var t2 := d2.tables[AppInfoBackup];
    AppInfoSchema();
    RestoreResolves();
    ColsCopyAsIs(AppInfoColumns);
    FirstColumnKeeps(t2, AppInfoColumns, Cols(AppInfoColumns));
    RestoreRun(d2, AppInfo, AppInfoBackup, AppInfoColumns, AppKey, AllOf(AppInfoColumns), Cols(AppInfoColumns), false);
    FillsIffSourceFills(AppInfoColumns, Cols(AppInfoColumns), AllOf(AppInfoColumns), t2.rows);
    assert AllOf(AppInfoColumns) <= AllOf(AppInfoBackupColumns);
  }

  /** One app through the backup copy and the status updates: the row `u` it ends with
      carries the app's values. */
  lemma BackupRowCarried(columns: seq<string>, sel: seq<Expr>, r: Row, u: Row)
    requires BackupLayout(columns, sel)
    requires Folded(Project(columns, sel, r), u)
    ensures Carries(r, u)
  {
    BackupRowKept(columns, sel, r);
    BackupRowFlags(columns, sel, r);
    CarriedRow(r, Project(columns, sel, r), u);
  }

  /** After the status updates, each backup row carries its app's values. */
  lemma RowsCarried(columns: seq<string>, sel: seq<Expr>, rows: map<Key, Row>, b: Table, u: map<Key, Row>)
    requires BackupLayout(columns, sel) && b.rows == ProjectAll(columns, sel, rows) && u.Keys == b.rows.Keys
    requires forall k | k in b.rows :: Folded(b.rows[k], u[k])
    ensures forall k | k in rows :: Carries(rows[k], u[k])
  {
    ProjectAllKeys(columns, sel, rows);
    forall k | k in rows ensures Carries(rows[k], u[k]) {
      assert b.rows[k] == Project(columns, sel, rows[k]);
      BackupRowCarried(columns, sel, rows[k], u[k]);
    }
  }

  /** The rows the restore copies back are the upgraded rows of the apps. */
  lemma RowsUpgraded(rows: map<Key, Row>, u: map<Key, Row>)
    requires u.Keys == rows.Keys && forall k | k in rows :: Carries(rows[k], u[k])
    ensures ProjectAll(AppInfoColumns, Cols(AppInfoColumns), u).Keys == rows.Keys
    ensures forall k | k in rows :: Upgraded(rows[k], ProjectAll(AppInfoColumns, Cols(AppInfoColumns), u)[k])
  {
    AppInfoSchema();
    forall k | k in rows ensures Upgraded(rows[k], ProjectAll(AppInfoColumns, Cols(AppInfoColumns), u)[k]) {
      ProjectCols(AppInfoColumns, u[k]);
      RestoredRow(rows[k], u[k], ProjectAll(AppInfoColumns, Cols(AppInfoColumns), u)[k]);
    }
  }

  /** `d` is `db` with AppInfo rebuilt from `rows`: the version-12 schema, the same apps under
      the same package names, each row `Upgraded` from its old one, and no other table or view
      changed. */
  ghost predicate RebuiltFrom(db: Db, rows: map<Key, Row>, d: Db) {
    && AppInfo in d.tables && d == Db(db.tables[AppInfo := d.tables[AppInfo]], db.views)
    && var t := d.tables[AppInfo];
    && t.columns == AppInfoColumns && t.key == AppKey && t.notNull == AllOf(AppInfoColumns) && Sound(t)
    && t.rows.Keys == rows.Keys
    && forall k | k in rows :: Upgraded(rows[k], t.rows[k])
  }

  /** The table the restore builds from a sound backup is sound. */
  lemma RestoredSound(t2: Table)
    requires Sound(t2) && t2.key == AppKey && t2.notNull == AllOf(AppInfoBackupColumns)
    ensures Sound(RestoredTable(t2))
  {
    AppInfoSchema();
    FirstColumnKeeps(t2, AppInfoColumns, Cols(AppInfoColumns));
    ProjectAllWellFormed(AppInfoColumns, AppKey, AllOf(AppInfoColumns), Cols(AppInfoColumns), t2.rows);
    assert AllOf(AppInfoColumns) <= AllOf(AppInfoBackupColumns);
    forall k | k in t2.rows {
      ProjectCols(AppInfoColumns, t2.rows[k]);
    }
  }

  /** The restore from a sound backup succeeds and leaves AppInfo holding the backup's first
      eleven columns. */
  lemma RestoreValue(db: Db, t2: Table)
    requires AppInfoBackup !in db.tables && AppInfo !in db.views
    requires Sound(t2) && t2.columns == AppInfoBackupColumns && t2.key == AppKey && t2.notNull == AllOf(AppInfoBackupColumns)
    ensures var restore := Restore(AppInfo, AppInfoBackup, AppInfoColumns, AppKey, AllOf(AppInfoColumns), Cols(AppInfoColumns), false);
      ExecAll(Put(db, AppInfoBackup, t2), restore) == Ok(Db(db.tables[AppInfo := RestoredTable(t2)], db.views))
  {
    var d2 := Put(db, AppInfoBackup, t2);
    RestorePhase(d2);
    assert d2.tables - {AppInfoBackup} == db.tables;
  }

  /** The version-12 AppInfo the restore builds from the backup table `t2`. */
  function RestoredTable(t2: Table): Table {
    Table(AppInfoColumns, AppKey, AllOf(AppInfoColumns), ProjectAll(AppInfoColumns, Cols(AppInfoColumns), t2.rows))
  }

  /** Restoring a backup whose rows carry the apps' values rebuilds AppInfo from the apps. */
  lemma RestoreUpdated(db: Db, rows: map<Key, Row>, t2: Table)
    requires Sound(t2) && t2.key == AppKey && t2.notNull == AllOf(AppInfoBackupColumns) && t2.rows.Keys == rows.Keys
    requires forall k | k in rows :: Carries(rows[k], t2.rows[k])
    ensures RebuiltFrom(db, rows, Db(db.tables[AppInfo := RestoredTable(t2)], db.views))
  {
    RestoredSound(t2);
    RowsUpgraded(rows, t2.rows);
    RebuiltWith(db, rows, RestoredTable(t2));
  }

  /** Putting the version-12 table of `rows` in place of AppInfo is a rebuild from `rows`. */
  lemma RebuiltWith(db: Db, rows: map<Key, Row>, t: Table)
    requires t.columns == AppInfoColumns && t.key == AppKey && t.notNull == AllOf(AppInfoColumns) && Sound(t)
    requires t.rows.Keys == rows.Keys && forall k | k in rows :: Upgraded(rows[k], t.rows[k])
    ensures RebuiltFrom(db, rows, Db(db.tables[AppInfo := t], db.views))
  {
  }

  /** The status updates on the backup of `rows` succeed and leave a sound backup table `t2`
      whose rows carry the apps' values. */
  lemma StatusOnBackup(db: Db, rows: map<Key, Row>) returns (t2: Table)
    requires Sound(BackupOf(rows))
    ensures ExecAll(Put(db, AppInfoBackup, BackupOf(rows)), StatusUpdates) == Ok(Put(db, AppInfoBackup, t2))
    ensures Sound(t2) && t2.columns == AppInfoBackupColumns && t2.key == AppKey && t2.notNull == AllOf(AppInfoBackupColumns)
    ensures t2.rows.Keys == rows.Keys && forall k | k in rows :: Carries(rows[k], t2.rows[k])
  {
    BackupStartsAtZero(rows);
    t2 := StatusStep(db, BackupOf(rows));
    BackupCarried(rows, t2.rows);
  }

  /** The status updates on a sound backup table `b` whose statuses are all still 0. */
  lemma StatusStep(db: Db, b: Table) returns (t2: Table)
    requires Sound(b) && b.columns == AppInfoBackupColumns && b.key == AppKey && b.notNull == AllOf(AppInfoBackupColumns)
    requires forall k | k in b.rows :: Get(b.rows[k], "firewallStatus") == Int(0)
    ensures ExecAll(Put(db, AppInfoBackup, b), StatusUpdates) == Ok(Put(db, AppInfoBackup, t2))
    ensures Sound(t2) && t2.columns == AppInfoBackupColumns && t2.key == AppKey && t2.notNull == AllOf(AppInfoBackupColumns)
    ensures t2.rows.Keys == b.rows.Keys && forall k | k in b.rows :: Folded(b.rows[k], t2.rows[k])
  {
    var d1 := Put(db, AppInfoBackup, b);
    AppInfoSchema();
    BackupHasFlags();
    StatusPhase(d1, b);
    t2 := ExecAll(d1, StatusUpdates).value.tables[AppInfoBackup];
    assert Put(d1, AppInfoBackup, t2) == Put(db, AppInfoBackup, t2) by {
      assert db.tables[AppInfoBackup := b][AppInfoBackup := t2] == db.tables[AppInfoBackup := t2];
    }
  }

  /** The rows the status updates leave in the backup of `rows` carry the apps' values. */
  lemma BackupCarried(rows: map<Key, Row>, u: map<Key, Row>)
    requires u.Keys == BackupOf(rows).rows.Keys
    requires forall k | k in BackupOf(rows).rows :: Folded(BackupOf(rows).rows[k], u[k])
    ensures u.Keys == rows.Keys && forall k | k in rows :: Carries(rows[k], u[k])
  {
    BackupLayoutHolds();
    RowsCarried(AppInfoBackupColumns, AppInfoToBackup, rows, BackupOf(rows), u);
    ProjectAllKeys(AppInfoBackupColumns, AppInfoToBackup, rows);
  }

  /** The status updates and the restore, once the backup holds `rows`' projections. */
  lemma AfterBackup(db: Db, rows: map<Key, Row>)
    requires AppInfoBackup !in db.tables && AppInfo !in db.views && Sound(BackupOf(rows))
    ensures var ss := StatusUpdates + Restore(AppInfo, AppInfoBackup, AppInfoColumns, AppKey, AllOf(AppInfoColumns), Cols(AppInfoColumns), false);
      && ExecAll(Put(db, AppInfoBackup, BackupOf(rows)), ss).Ok?
      && RebuiltFrom(db, rows, ExecAll(Put(db, AppInfoBackup, BackupOf(rows)), ss).value)
  {
    var restore := Restore(AppInfo, AppInfoBackup, AppInfoColumns, AppKey, AllOf(AppInfoColumns), Cols(AppInfoColumns), false);
    ExecAllAppend(Put(db, AppInfoBackup, BackupOf(rows)), StatusUpdates, restore);
    var t2 := StatusOnBackup(db, rows);
    RestoreValue(db, t2);
    RestoreUpdated(db, rows, t2);
  }

  /** Step 11 -> 12's rebuild of AppInfo succeeds exactly when AppInfo has every column the
      backup copy reads and every app row sets them; then AppInfo is rebuilt as `RebuiltFrom` says and the backup is gone. */
  lemma AppInfoRebuildRun(db: Db)
    requires AppInfo in db.tables && AppInfo !in db.views
    requires AppInfoBackup !in db.tables && AppInfoBackup !in db.views
    requires WellFormed(db.tables[AppInfo]) && db.tables[AppInfo].key == AppKey
    ensures ExecAll(db, ModifyAppInfoTableSchema).Ok? <==>
      && SelectResolves(AppInfoToBackup, db.tables[AppInfo].columns)
      && forall k | k in db.tables[AppInfo].rows :: Complete(db.tables[AppInfo].rows[k])
    ensures ExecAll(db, ModifyAppInfoTableSchema).Ok? ==>
      RebuiltFrom(db, db.tables[AppInfo].rows, ExecAll(db, ModifyAppInfoTableSchema).value)
  {
    var rows := db.tables[AppInfo].rows;
    var backup := Backup(AppInfo, AppInfoBackup, AppInfoBackupColumns, AppKey, AllOf(AppInfoBackupColumns), AppInfoToBackup);
    var restore := Restore(AppInfo, AppInfoBackup, AppInfoColumns, AppKey, AllOf(AppInfoColumns), Cols(AppInfoColumns), false);
    AppInfoRebuildShape();
    assert ModifyAppInfoTableSchema == backup + (StatusUpdates + restore);
    ExecAllAppend(db, backup, StatusUpdates + restore);
    BackupPhase(db);
    if ExecAll(db, backup).Ok? {
      AfterBackup(db, rows);
    }
  }
}
