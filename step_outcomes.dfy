/** The outcome, on any store, of steps 2 -> 3, 4 -> 5 (its DNS proxy list), 5 -> 6 (its
    category counters and DNS log), 7 -> 8, 10 -> 11, and step 11 -> 12's
    `createRethinkDnsTable`. */
module StepOutcomes {
  import opened Results
  import opened Sql
  import opened Migrations
  import ProxyRenumber

  // ---------------------------------------------------------------------------------------
  // 2 -> 3

  /** The connection log as step 2 -> 3 creates it: nothing logged, `id` the key. */
  const TrackerV3: Table :=
    Table(TrackerColumnsV3, ["id"], {"id", "uid", "port", "protocol", "isBlocked", "timeStamp"}, map[])

  /** The firewall rule list as step 2 -> 3 creates it; `ipAddress` and `protocol` may be NULL. */
  const BlockedConnectionsV3: Table := Table(BlockedConnectionsColumns, ["id"], {"id", "uid", "port"}, map[])

  /** Step 2 -> 3 succeeds exactly when AppInfo and CategoryInfo exist, no view is named
      ConnectionTracker and the name BlockedConnections is free; it then empties AppInfo and
      CategoryInfo, replaces any connection log by an empty one, creates the empty rule list,
      and touches no other table or view. */
  lemma Migration2To3Outcome(db: Db)
    ensures ExecAll(db, Migration2To3).Ok? <==>
      && AppInfo in db.tables && CategoryInfo in db.tables && ConnectionTracker !in db.views
      && BlockedConnections !in db.tables && BlockedConnections !in db.views
    ensures ExecAll(db, Migration2To3).Ok? ==>
      var d := ExecAll(db, Migration2To3).value;
      && d.views == db.views
      && d.tables.Keys == db.tables.Keys + {ConnectionTracker, BlockedConnections}
      && d.tables[AppInfo] == db.tables[AppInfo].(rows := map[])
      && d.tables[CategoryInfo] == db.tables[CategoryInfo].(rows := map[])
      && d.tables[ConnectionTracker] == TrackerV3
      && d.tables[BlockedConnections] == BlockedConnectionsV3
      && forall n | n in db.tables && n !in {AppInfo, CategoryInfo, ConnectionTracker, BlockedConnections} :: d.tables[n] == db.tables[n]
  {
    assert Distinct(TrackerColumnsV3) && Distinct(BlockedConnectionsColumns);
    assert Migration2To3 == ResetScript(AppInfo, CategoryInfo, ConnectionTracker, BlockedConnections, TrackerV3, BlockedConnectionsV3);
    ResetRun(db, AppInfo, CategoryInfo, ConnectionTracker, BlockedConnections, TrackerV3, BlockedConnectionsV3);
  }

  /** Two DELETEs, a DROP TABLE IF EXISTS and two CREATE TABLEs, the shape of step 2 -> 3. */
  function ResetScript(a: string, c: string, ct: string, bc: string, tt: Table, bt: Table): seq<Stmt> {
    [DeleteWhere(a, Always), DeleteWhere(c, Always), DropTable(ct, true),
     CreateTable(ct, tt.columns, tt.key, tt.notNull), CreateTable(bc, bt.columns, bt.key, bt.notNull)]
  }

  /** Tables `a` and `c` emptied, `ct` replaced by the empty `tt`, `bc` created as the empty `bt`. */
  lemma ResetRun(db: Db, a: string, c: string, ct: string, bc: string, tt: Table, bt: Table)
    requires a != c && a != ct && a != bc && c != ct && c != bc && ct != bc
    requires tt.rows == map[] && bt.rows == map[]
    requires Distinct(tt.columns) && (forall k | k in tt.key :: k in tt.columns)
    requires Distinct(bt.columns) && (forall k | k in bt.key :: k in bt.columns)
    ensures ExecAll(db, ResetScript(a, c, ct, bc, tt, bt)).Ok? <==>
      a in db.tables && c in db.tables && ct !in db.views && bc !in db.tables && bc !in db.views
    ensures ExecAll(db, ResetScript(a, c, ct, bc, tt, bt)).Ok? ==>
      var d := ExecAll(db, ResetScript(a, c, ct, bc, tt, bt)).value;
      && d.views == db.views
      && d.tables.Keys == db.tables.Keys + {ct, bc}
      && d.tables[a] == db.tables[a].(rows := map[])
      && d.tables[c] == db.tables[c].(rows := map[])
      && d.tables[ct] == tt && d.tables[bc] == bt
      && forall n | n in db.tables && n !in {a, c, ct, bc} :: d.tables[n] == db.tables[n]
  {
    if a in db.tables && c in db.tables && ct !in db.views && bc !in db.tables && bc !in db.views {
      ResetOk(db, a, c, ct, bc, tt, bt);
    } else {
      ResetFails(db, a, c, ct, bc, tt, bt);
    }
  }

  lemma ResetOk(db: Db, a: string, c: string, ct: string, bc: string, tt: Table, bt: Table)
    requires a != c && a != ct && a != bc && c != ct && c != bc && ct != bc
    requires tt.rows == map[] && bt.rows == map[]
    requires Distinct(tt.columns) && (forall k | k in tt.key :: k in tt.columns)
    requires Distinct(bt.columns) && (forall k | k in bt.key :: k in bt.columns)
    requires a in db.tables && c in db.tables && ct !in db.views && bc !in db.tables && bc !in db.views
    ensures ExecAll(db, ResetScript(a, c, ct, bc, tt, bt)).Ok?
    ensures var d := ExecAll(db, ResetScript(a, c, ct, bc, tt, bt)).value;
      && d.views == db.views
      && d.tables.Keys == db.tables.Keys + {ct, bc}
      && d.tables[a] == db.tables[a].(rows := map[])
      && d.tables[c] == db.tables[c].(rows := map[])
      && d.tables[ct] == tt && d.tables[bc] == bt
      && forall n | n in db.tables && n !in {a, c, ct, bc} :: d.tables[n] == db.tables[n]
  {
    var ss := ResetScript(a, c, ct, bc, tt, bt);
    DeleteAll(db.tables[a]);
    DeleteAll(db.tables[c]);
    var d1 := Put(db, a, db.tables[a].(rows := map[]));
    ExecFromStep(db, ss, 0, d1);
    var d2 := Put(d1, c, db.tables[c].(rows := map[]));
    ExecFromStep(d1, ss, 1, d2);
    var d3 := ExecStmt(d2, ss[2]).value;
    ExecFromStep(d2, ss, 2, d3);
    var d4 := ExecStmt(d3, ss[3]).value;
    ExecFromStep(d3, ss, 3, d4);
    var d5 := ExecStmt(d4, ss[4]).value;
    ExecFromStep(d4, ss, 4, d5);
    assert tt == Table(tt.columns, tt.key, tt.notNull, map[]);
    assert bt == Table(bt.columns, bt.key, bt.notNull, map[]);
  }

  /** `DELETE FROM t` with no WHERE clause empties the table. */
  lemma DeleteAll(t: Table)
    ensures DeleteRows(t, Always) == t.(rows := map[])
  {
  }

  lemma ResetFails(db: Db, a: string, c: string, ct: string, bc: string, tt: Table, bt: Table)
    requires a != c && a != ct && a != bc && c != ct && c != bc && ct != bc
    requires !(a in db.tables && c in db.tables && ct !in db.views && bc !in db.tables && bc !in db.views)
    ensures ExecAll(db, ResetScript(a, c, ct, bc, tt, bt)).Err?
  {
    var ss := ResetScript(a, c, ct, bc, tt, bt);
    if a in db.tables && c in db.tables {
      var d1 := ExecStmt(db, ss[0]).value;
      ExecFromStep(db, ss, 0, d1);
      var d2 := ExecStmt(d1, ss[1]).value;
      ExecFromStep(d1, ss, 1, d2);
      match ExecStmt(d2, ss[2])
      case Err(_) =>
        ExecFromStops(d2, ss, 2);
      case Ok(d3) =>
        ExecFromStep(d2, ss, 2, d3);
        if ct !in db.views {
          match ExecStmt(d3, ss[3])
          case Ok(d4) =>
            ExecFromStep(d3, ss, 3, d4);
            ExecFromStops(d4, ss, 4);
          case Err(_) =>
            ExecFromStops(d3, ss, 3);
        } else {
          ExecFromStops(d3, ss, 3);
        }
    } else if a in db.tables {
      var d1 := ExecStmt(db, ss[0]).value;
      ExecFromStep(db, ss, 0, d1);
      ExecFromStops(d1, ss, 1);
    } else {
      ExecFromStops(db, ss, 0);
    }
  }

  // ---------------------------------------------------------------------------------------
  // 4 -> 5: the DNS proxy list

  /** A table keyed by its first column, `id`, as the DNS proxy list is. */
  predicate KeyedById(t: Table) {
    && |t.columns| > 0 && t.columns[0] == "id" && t.key == ["id"] && Distinct(t.columns)
    && forall c | c in t.notNull :: c in t.columns
  }

  /** A complete VALUES list for `t` with id `id`. */
  predicate Resolver(t: Table, vals: seq<Value>, id: int) {
    |vals| == |t.columns| > 0 && vals[0] == Int(id) && forall i | 0 <= i < |vals| :: vals[i] != Null
  }

  /** The row a VALUES list makes in `t`. */
  function RowOf(t: Table, vals: seq<Value>): Row
    requires |vals| == |t.columns|
  {
    Build(t.columns, Literals(vals), map[])
  }

  /** Three resolvers under ids 1, 2 and 3. */
  function Seeded(t: Table, v1: seq<Value>, v2: seq<Value>, v3: seq<Value>): map<Key, Row>
    requires |v1| == |v2| == |v3| == |t.columns|
  {
    map[[Int(1)] := RowOf(t, v1), [Int(2)] := RowOf(t, v2), [Int(3)] := RowOf(t, v3)]
  }

  lemma DnsProxyKeyedById(t: Table)
    requires ProxyRenumber.IsDnsProxyTable(t)
    ensures KeyedById(t)
  {
    ProxyRenumber.ProxyColumnsDistinct();
  }

  /** The step's DNS proxy statements: empty the list, then insert Google, Cloudflare and
      Quad9 under ids 1..3; its other statements name other tables. */
  lemma Step4To5Shape()
    ensures |Migration4To5| >= 6
    ensures Migration4To5[0] == DeleteWhere(DnsProxyEndpoint, Always)
    ensures DnsProxyEndpoint !in Touched(Migration4To5[1]) && DnsProxyEndpoint !in Touched(Migration4To5[2])
    ensures Migration4To5[3] == Insert(DnsProxyEndpoint, ProxySeed(1, "Google", "8.8.8.8"))
    ensures Migration4To5[4] == Insert(DnsProxyEndpoint, ProxySeed(2, "Cloudflare", "1.1.1.1"))
    ensures Migration4To5[5] == Insert(DnsProxyEndpoint, ProxySeed(3, "Quad9", "9.9.9.9"))
    ensures forall j | 6 <= j < |Migration4To5| :: DnsProxyEndpoint !in Touched(Migration4To5[j])
  {
  }

  /** Whatever the DNS proxy list held before, a successful step 4 -> 5 leaves exactly the
      three seeded resolvers, Google, Cloudflare and Quad9, under ids 1..3. */
  lemma Migration4To5Proxies(db: Db)
    requires DnsProxyEndpoint in db.tables && ProxyRenumber.IsDnsProxyTable(db.tables[DnsProxyEndpoint])
    ensures ExecAll(db, Migration4To5).Ok? ==>
      var t := db.tables[DnsProxyEndpoint];
      var d := ExecAll(db, Migration4To5).value;
      && DnsProxyEndpoint in d.tables
      && d.tables[DnsProxyEndpoint] == t.(rows := Seeded(t,
           ProxySeed(1, "Google", "8.8.8.8"), ProxySeed(2, "Cloudflare", "1.1.1.1"), ProxySeed(3, "Quad9", "9.9.9.9")))
  {
    DnsProxyKeyedById(db.tables[DnsProxyEndpoint]);
    Step4To5Shape();
    ProxyResetRun(db, Migration4To5, ProxySeed(1, "Google", "8.8.8.8"), ProxySeed(2, "Cloudflare", "1.1.1.1"),
                  ProxySeed(3, "Quad9", "9.9.9.9"));
  }

  /** A DELETE of the whole list, two statements on other tables, three inserts of resolvers
      1..3, and statements on other tables: a successful run leaves exactly the three. */
  lemma ProxyResetRun(db: Db, ss: seq<Stmt>, v1: seq<Value>, v2: seq<Value>, v3: seq<Value>)
    requires DnsProxyEndpoint in db.tables && KeyedById(db.tables[DnsProxyEndpoint])
    requires |ss| >= 6 && ss[0] == DeleteWhere(DnsProxyEndpoint, Always)
    requires DnsProxyEndpoint !in Touched(ss[1]) && DnsProxyEndpoint !in Touched(ss[2])
    requires ss[3] == Insert(DnsProxyEndpoint, v1) && ss[4] == Insert(DnsProxyEndpoint, v2) && ss[5] == Insert(DnsProxyEndpoint, v3)
    requires var t := db.tables[DnsProxyEndpoint]; Resolver(t, v1, 1) && Resolver(t, v2, 2) && Resolver(t, v3, 3)
    requires forall j | 6 <= j < |ss| :: DnsProxyEndpoint !in Touched(ss[j])
    ensures ExecAll(db, ss).Ok? ==>
      var t := db.tables[DnsProxyEndpoint];
      var d := ExecAll(db, ss).value;
      DnsProxyEndpoint in d.tables && d.tables[DnsProxyEndpoint] == t.(rows := Seeded(t, v1, v2, v3))
  {
    if ExecAll(db, ss).Ok? {
      var n := DnsProxyEndpoint;
      var t := db.tables[n];
      DeleteAll(t);
      var t0 := t.(rows := map[]);
      var d1 := Put(db, n, t0);
      ExecFromStep(db, ss, 0, d1);
      var d2 := ExecStmt(d1, ss[1]).value;
      StmtFrame(d1, ss[1], n);
      ExecFromStep(d1, ss, 1, d2);
      var d3 := ExecStmt(d2, ss[2]).value;
      StmtFrame(d2, ss[2], n);
      ExecFromStep(d2, ss, 2, d3);
      InsertsRun(d3, ss, v1, v2, v3);
      var d6 := Put(d3, n, t0.(rows := Seeded(t0, v1, v2, v3)));
      ExecFromFrame(d6, ss, 6, n);
    }
  }

  /** Statements 3..5 insert the three resolvers into the emptied list. */
  lemma InsertsRun(d: Db, ss: seq<Stmt>, v1: seq<Value>, v2: seq<Value>, v3: seq<Value>)
    requires DnsProxyEndpoint in d.tables && KeyedById(d.tables[DnsProxyEndpoint]) && d.tables[DnsProxyEndpoint].rows == map[]
    requires |ss| >= 6
    requires ss[3] == Insert(DnsProxyEndpoint, v1) && ss[4] == Insert(DnsProxyEndpoint, v2) && ss[5] == Insert(DnsProxyEndpoint, v3)
    requires var t := d.tables[DnsProxyEndpoint]; Resolver(t, v1, 1) && Resolver(t, v2, 2) && Resolver(t, v3, 3)
    ensures var t := d.tables[DnsProxyEndpoint];
      ExecFrom(d, ss, 3) == ExecFrom(Put(d, DnsProxyEndpoint, t.(rows := Seeded(t, v1, v2, v3))), ss, 6)
  {
    var n := DnsProxyEndpoint;
    var t0 := d.tables[n];
    InsertStoreStep(d, ss, 3, v1);
    var t1 := t0.(rows := t0.rows[[Int(1)] := RowOf(t0, v1)]);
    var d1 := Put(d, n, t1);
    ExecFromStep(d, ss, 3, d1);
    InsertStoreStep(d1, ss, 4, v2);
    var t2 := t1.(rows := t1.rows[[Int(2)] := RowOf(t1, v2)]);
    var d2 := Put(d1, n, t2);
    ExecFromStep(d1, ss, 4, d2);
    InsertStoreStep(d2, ss, 5, v3);
    var t3 := t2.(rows := t2.rows[[Int(3)] := RowOf(t2, v3)]);
    ExecFromStep(d2, ss, 5, Put(d2, n, t3));
    assert Put(d2, n, t3) == Put(d, n, t3);
    assert t3 == t0.(rows := Seeded(t0, v1, v2, v3));
  }

  /** One insert into the list of a complete VALUES list whose id is free. */
  lemma InsertStoreStep(d: Db, ss: seq<Stmt>, i: nat, vals: seq<Value>)
    requires DnsProxyEndpoint in d.tables && KeyedById(d.tables[DnsProxyEndpoint])
    requires i < |ss| && ss[i] == Insert(DnsProxyEndpoint, vals)
    requires |vals| == |d.tables[DnsProxyEndpoint].columns| && forall j | 0 <= j < |vals| :: vals[j] != Null
    requires [vals[0]] !in d.tables[DnsProxyEndpoint].rows
    ensures var t := d.tables[DnsProxyEndpoint];
      ExecStmt(d, ss[i]) == Ok(Put(d, DnsProxyEndpoint, t.(rows := t.rows[[vals[0]] := RowOf(t, vals)])))
  {
    InsertKeyedByFirst(DnsProxyEndpoint, d.tables[DnsProxyEndpoint], vals, ss[i]);
  }

  /** The seeded list is sound and has id 4 free, so step 11 -> 12's renumbering succeeds on
      it: Google, Cloudflare and Quad9 move to ids 2..4 and the network resolver takes id 1,
      with nothing else changed. */
  lemma RenumberAfterReset(t: Table, v1: seq<Value>, v2: seq<Value>, v3: seq<Value>)
    requires ProxyRenumber.IsDnsProxyTable(t) && Resolver(t, v1, 1) && Resolver(t, v2, 2) && Resolver(t, v3, 3)
    requires t.rows == Seeded(t, v1, v2, v3)
    ensures TableRun(DnsProxyEndpoint, t, AddNetworkDns, 0).Ok?
    ensures TableRun(DnsProxyEndpoint, t, AddNetworkDns, 0).value.rows == map[
      [Int(2)] := RowOf(t, v1)["id" := Int(2)],
      [Int(3)] := RowOf(t, v2)["id" := Int(3)],
      [Int(4)] := RowOf(t, v3)["id" := Int(4)]][[Int(1)] := ProxyRenumber.ProxyRow(NetworkDns)]
  {
    DnsProxyKeyedById(t);
    SeededSound(t, v1, v2, v3);
    FourFree(t.rows, RowOf(t, v1), RowOf(t, v2), RowOf(t, v3));
    ProxyRenumber.AddNetworkDnsRun(t);
    SeededShifted(t.rows, RowOf(t, v1), RowOf(t, v2), RowOf(t, v3));
  }

  /** Moving ids 3, 2, 1 up by one in a list holding exactly ids 1..3. */
  lemma SeededShifted(m: map<Key, Row>, r1: Row, r2: Row, r3: Row)
    requires m == map[[Int(1)] := r1, [Int(2)] := r2, [Int(3)] := r3]
    ensures ProxyRenumber.Shifted(m) == map[[Int(2)] := r1["id" := Int(2)], [Int(3)] := r2["id" := Int(3)], [Int(4)] := r3["id" := Int(4)]]
  {
    MoveThree(m, r1, r2, r3);
    MoveTwo(ProxyRenumber.Rekeyed(m, 3, 4), r1, r2, r3["id" := Int(4)]);
    MoveOne(ProxyRenumber.Rekeyed(ProxyRenumber.Rekeyed(m, 3, 4), 2, 3), r1, r2["id" := Int(3)], r3["id" := Int(4)]);
  }

  lemma FourFree(m: map<Key, Row>, r1: Row, r2: Row, r3: Row)
    requires m == map[[Int(1)] := r1, [Int(2)] := r2, [Int(3)] := r3]
    ensures [Int(4)] !in m
  {
    assert [Int(4)][0] == Int(4);
  }

  lemma MoveThree(m: map<Key, Row>, r1: Row, r2: Row, r3: Row)
    requires m == map[[Int(1)] := r1, [Int(2)] := r2, [Int(3)] := r3]
    ensures ProxyRenumber.Rekeyed(m, 3, 4) == map[[Int(1)] := r1, [Int(2)] := r2, [Int(4)] := r3["id" := Int(4)]]
  {
  }

  lemma MoveTwo(m: map<Key, Row>, r1: Row, r2: Row, r4: Row)
    requires m == map[[Int(1)] := r1, [Int(2)] := r2, [Int(4)] := r4]
    ensures ProxyRenumber.Rekeyed(m, 2, 3) == map[[Int(1)] := r1, [Int(3)] := r2["id" := Int(3)], [Int(4)] := r4]
  {
  }

  lemma MoveOne(m: map<Key, Row>, r1: Row, r3: Row, r4: Row)
    requires m == map[[Int(1)] := r1, [Int(3)] := r3, [Int(4)] := r4]
    ensures ProxyRenumber.Rekeyed(m, 1, 2) == map[[Int(2)] := r1["id" := Int(2)], [Int(3)] := r3, [Int(4)] := r4]
  {
  }

  /** The three seeded resolvers sit under their ids and fill every NOT NULL column. */
  lemma SeededSound(t: Table, v1: seq<Value>, v2: seq<Value>, v3: seq<Value>)
    requires KeyedById(t) && Resolver(t, v1, 1) && Resolver(t, v2, 2) && Resolver(t, v3, 3)
    requires t.rows == Seeded(t, v1, v2, v3)
    ensures Sound(t)
  {
    ResolverRow(t, v1, 1);
    ResolverRow(t, v2, 2);
    ResolverRow(t, v3, 3);
  }

  /** A complete VALUES list makes a row keyed by its id that fills every NOT NULL column. */
  lemma ResolverRow(t: Table, v: seq<Value>, id: int)
    requires KeyedById(t) && Resolver(t, v, id)
    ensures KeyOf(t.key, RowOf(t, v)) == [Int(id)] && NullFree(t, RowOf(t, v))
  {
    BuildLiteralsAt(t.columns, v, 0);
    KeyOfSingle("id", RowOf(t, v));
    BuildLiteralsFill(t.columns, v, t.notNull);
  }

  // ---------------------------------------------------------------------------------------
  // 5 -> 6: the category counters and the DNS log

  /** The category rows after step 5 -> 6: both new counters start at 0. */
  function Counted(r: Row): Row {
    r["numOfAppWhitelisted" := Int(0)]["numOfAppsExcluded" := Int(0)]
  }

  /** The step's statements on CategoryInfo: two NOT NULL counters with default 0, added after
      three statements and followed by five that name other tables. */
  lemma Step5To6Shape()
    ensures |Migration5To6| == 10
    ensures Migration5To6[0] == CreateTable(DnsLogs, DnsLogColumns, ["id"], AllOf(DnsLogColumns))
    ensures CategoryInfo !in Touched(Migration5To6[1]) && CategoryInfo !in Touched(Migration5To6[2])
    ensures Migration5To6[3] == AddColumn(CategoryInfo, "numOfAppWhitelisted", Int(0), true)
    ensures Migration5To6[4] == AddColumn(CategoryInfo, "numOfAppsExcluded", Int(0), true)
    ensures forall j | 5 <= j < 10 :: CategoryInfo !in Touched(Migration5To6[j])
  {
  }

  /** After a successful step 5 -> 6 every category has both new counters at 0 and keeps
      every other column; the two counters are NOT NULL columns at the end of the schema; the
      DNS log exists and is empty. */
  lemma Migration5To6Categories(db: Db)
    requires CategoryInfo in db.tables
    ensures ExecAll(db, Migration5To6).Ok? ==>
      var t := db.tables[CategoryInfo];
      var d := ExecAll(db, Migration5To6).value;
      && CategoryInfo in d.tables && DnsLogs in d.tables && d.tables[DnsLogs].rows == map[]
      && d.tables[CategoryInfo].columns == t.columns + ["numOfAppWhitelisted", "numOfAppsExcluded"]
      && d.tables[CategoryInfo].key == t.key
      && d.tables[CategoryInfo].notNull == t.notNull + {"numOfAppWhitelisted", "numOfAppsExcluded"}
      && d.tables[CategoryInfo].rows.Keys == t.rows.Keys
      && forall k | k in t.rows :: d.tables[CategoryInfo].rows[k] == Counted(t.rows[k])
  {
    Step5To6Shape();
    CountersRun(db, Migration5To6, DnsLogs, CategoryInfo, "numOfAppWhitelisted", "numOfAppsExcluded");
  }

  /** A CREATE TABLE of the log, two statements on other tables, two ADD COLUMNs with default
      0 on table `n`, then statements on other tables. */
  lemma CountersRun(db: Db, ss: seq<Stmt>, log: string, n: string, c1: string, c2: string)
    requires n in db.tables && |ss| >= 5 && ss[0].CreateTable? && ss[0].name == log && log != n
    requires n !in Touched(ss[1]) && n !in Touched(ss[2])
    requires ss[3] == AddColumn(n, c1, Int(0), true) && ss[4] == AddColumn(n, c2, Int(0), true)
    requires log !in Touched(ss[1]) && log !in Touched(ss[2]) && log !in Touched(ss[3]) && log !in Touched(ss[4])
    requires forall j | 5 <= j < |ss| :: n !in Touched(ss[j]) && log !in Touched(ss[j])
    ensures ExecAll(db, ss).Ok? ==>
      var t := db.tables[n];
      var d := ExecAll(db, ss).value;
      && n in d.tables && log in d.tables && d.tables[log].rows == map[]
      && d.tables[n].columns == t.columns + [c1, c2] && d.tables[n].key == t.key
      && d.tables[n].notNull == t.notNull + {c1, c2}
      && d.tables[n].rows.Keys == t.rows.Keys
      && forall k | k in t.rows :: d.tables[n].rows[k] == t.rows[k][c1 := Int(0)][c2 := Int(0)]
  {
    if ExecAll(db, ss).Ok? {
      var t := db.tables[n];
      var d1 := ExecStmt(db, ss[0]).value;
      ExecFromStep(db, ss, 0, d1);
      StmtFrame(db, ss[0], n);
      assert log in d1.tables && d1.tables[log].rows == map[];
      var d2 := ExecStmt(d1, ss[1]).value;
      ExecFromStep(d1, ss, 1, d2);
      StmtFrame(d1, ss[1], n);
      StmtFrame(d1, ss[1], log);
      var d3 := ExecStmt(d2, ss[2]).value;
      ExecFromStep(d2, ss, 2, d3);
      StmtFrame(d2, ss[2], n);
      StmtFrame(d2, ss[2], log);
      var d4 := ExecStmt(d3, ss[3]).value;
      ExecFromStep(d3, ss, 3, d4);
      var d5 := ExecStmt(d4, ss[4]).value;
      ExecFromStep(d4, ss, 4, d5);
      TwoColumns(n, t, c1, c2);
      ExecFromFrame(d5, ss, 5, n);
      ExecFromFrame(d5, ss, 5, log);
    }
  }

  /** Two ADD COLUMNs with default 0 in a row, when both succeed. */
  lemma TwoColumns(n: string, t: Table, c1: string, c2: string)
    requires AddColumnTo(n, t, c1, Int(0), true).Ok?
    requires AddColumnTo(n, AddColumnTo(n, t, c1, Int(0), true).value, c2, Int(0), true).Ok?
    ensures var t2 := AddColumnTo(n, AddColumnTo(n, t, c1, Int(0), true).value, c2, Int(0), true).value;
      && t2.columns == t.columns + [c1, c2] && t2.key == t.key && t2.notNull == t.notNull + {c1, c2}
      && t2.rows.Keys == t.rows.Keys
      && forall k | k in t.rows :: t2.rows[k] == t.rows[k][c1 := Int(0)][c2 := Int(0)]
  {
  }

  // ---------------------------------------------------------------------------------------
  // 7 -> 8

  const SystemComponents := Text("System Components")

  /** An app after step 7 -> 8's UPDATE: uid 0, the operating system itself, is filed under
      System Components. */
  function Categorised(r: Row): Row {
    if Holds(Eq("uid", Int(0)), r) then r["appCategory" := SystemComponents] else r
  }

  /** The apps step 7 -> 8's DELETE removes: the ANDROID entry filed under System Components. */
  predicate Removed(r: Row) {
    Get(r, "appName") == Text("ANDROID") && Get(r, "appCategory") == SystemComponents
  }

  /** Step 7 -> 8 on a sound AppInfo table: it succeeds exactly when the view name is free
      and the table has the `uid` and `appName` columns the UPDATE and the DELETE read; then the view exists, every app with uid 0 is filed under System Components, the
      ANDROID entry of that category is gone and every other app is kept as it was. */
  lemma Migration7To8Outcome(db: Db)
    requires AppInfo in db.tables && Sound(db.tables[AppInfo])
    requires "appCategory" in db.tables[AppInfo].columns && "appCategory" !in db.tables[AppInfo].key
    ensures ExecAll(db, Migration7To8).Ok? <==>
      && AppInfoView !in db.tables && AppInfoView !in db.views
      && "uid" in db.tables[AppInfo].columns && "appName" in db.tables[AppInfo].columns
    ensures ExecAll(db, Migration7To8).Ok? ==>
      var t := db.tables[AppInfo];
      var d := ExecAll(db, Migration7To8).value;
      && d.views == db.views + {AppInfoView}
      && d.tables.Keys == db.tables.Keys
      && (forall n | n in db.tables && n != AppInfo :: d.tables[n] == db.tables[n])
      && (forall k | k in d.tables[AppInfo].rows :: k in t.rows && !Removed(Categorised(t.rows[k])))
      && (forall k | k in t.rows && !Removed(Categorised(t.rows[k])) ::
            k in d.tables[AppInfo].rows && d.tables[AppInfo].rows[k] == Categorised(t.rows[k]))
  {
    var ss := Migration7To8;
    if AppInfoView !in db.tables && AppInfoView !in db.views {
      var d1 := db.(views := db.views + {AppInfoView});
      ExecFromStep(db, ss, 0, d1);
      ExecFromOnTable(d1, ss, 1, AppInfo);
      var t := db.tables[AppInfo];
      if "uid" in t.columns && "appName" in t.columns {
        CategoriseRun(t, ss);
      } else {
        CategoriseRefused(t, ss);
      }
    } else {
      ExecFromStops(db, ss, 0);
    }
  }

  /** After step 7 -> 8 no ANDROID entry is left under System Components, every app with
      uid 0 is under System Components, and no app was added. */
  lemma Migration7To8Cleans(db: Db)
    requires AppInfo in db.tables && Sound(db.tables[AppInfo])
    requires "appCategory" in db.tables[AppInfo].columns && "appCategory" !in db.tables[AppInfo].key
    ensures ExecAll(db, Migration7To8).Ok? ==>
      var d := ExecAll(db, Migration7To8).value;
      && AppInfo in d.tables
      && d.tables[AppInfo].rows.Keys <= db.tables[AppInfo].rows.Keys
      && (forall k | k in d.tables[AppInfo].rows :: !Removed(d.tables[AppInfo].rows[k]))
      && (forall k | k in d.tables[AppInfo].rows && Holds(Eq("uid", Int(0)), d.tables[AppInfo].rows[k]) ::
            Get(d.tables[AppInfo].rows[k], "appCategory") == SystemComponents)
  {
    Migration7To8Outcome(db);
    if ExecAll(db, Migration7To8).Ok? {
      var t := db.tables[AppInfo];
      var u := ExecAll(db, Migration7To8).value.tables[AppInfo];
      forall k | k in u.rows
        ensures !Removed(u.rows[k])
        ensures Holds(Eq("uid", Int(0)), u.rows[k]) ==> Get(u.rows[k], "appCategory") == SystemComponents
      {
        assert u.rows[k] == Categorised(t.rows[k]);
      }
    }
  }

  /** The UPDATE and the DELETE of step 7 -> 8 on the AppInfo table alone. */
  lemma CategoriseRun(t: Table, ss: seq<Stmt>)
    requires Sound(t) && "appCategory" in t.columns && "appCategory" !in t.key
    requires "uid" in t.columns && "appName" in t.columns
    requires |ss| == 3 && ss[1] == UpdateWhere(AppInfo, Eq("uid", Int(0)), SetTo("appCategory", SystemComponents))
    requires ss[2] == DeleteWhere(AppInfo, Both(Eq("appName", Text("ANDROID")), Eq("appCategory", SystemComponents)))
    ensures TableRun(AppInfo, t, ss, 1).Ok?
    ensures var t' := TableRun(AppInfo, t, ss, 1).value;
      && (forall k | k in t'.rows :: k in t.rows && !Removed(Categorised(t.rows[k])))
      && (forall k | k in t.rows && !Removed(Categorised(t.rows[k])) :: k in t'.rows && t'.rows[k] == Categorised(t.rows[k]))
  {
    var cond := Eq("uid", Int(0));
    SetStep(AppInfo, t, cond, "appCategory", SystemComponents);
    var t1 := UpdateRows(AppInfo, t, cond, SetTo("appCategory", SystemComponents)).value;
    forall k | k in t.rows ensures t1.rows[k] == Categorised(t.rows[k]) {
      AssignOne(t.rows[k], "appCategory", SystemComponents);
    }
    DeleteStep(t1, ss);
    var t2 := DeleteRows(t1, ss[2].cond);
    forall k | k in t1.rows ensures Holds(ss[2].cond, t1.rows[k]) == Removed(t1.rows[k]) {
      RemovedIsCond(t1.rows[k]);
    }
  }

  /** Without the `uid` column the UPDATE fails; without `appName` the DELETE does. */
  lemma CategoriseRefused(t: Table, ss: seq<Stmt>)
    requires Sound(t) && "appCategory" in t.columns && "appCategory" !in t.key
    requires !("uid" in t.columns && "appName" in t.columns)
    requires |ss| == 3 && ss[1] == UpdateWhere(AppInfo, Eq("uid", Int(0)), SetTo("appCategory", SystemComponents))
    requires ss[2] == DeleteWhere(AppInfo, Both(Eq("appName", Text("ANDROID")), Eq("appCategory", SystemComponents)))
    ensures TableRun(AppInfo, t, ss, 1).Err?
  {
    var cond := Eq("uid", Int(0));
    if "uid" in t.columns {
      SetStep(AppInfo, t, cond, "appCategory", SystemComponents);
      var t1 := UpdateRows(AppInfo, t, cond, SetTo("appCategory", SystemComponents)).value;
      assert !CondResolves(ss[2].cond, t1.columns);
      assert TableStep(AppInfo, t1, ss[2]).Err?;
    }
  }

  /** The DELETE's WHERE clause picks exactly the `Removed` rows. */
  lemma RemovedIsCond(r: Row)
    ensures Holds(Both(Eq("appName", Text("ANDROID")), Eq("appCategory", SystemComponents)), r) == Removed(r)
  {
  }

  /** The last statement of the run is the DELETE. */
  lemma DeleteStep(t: Table, ss: seq<Stmt>)
    requires |ss| == 3 && ss[2].DeleteWhere? && ss[2].name == AppInfo && CondResolves(ss[2].cond, t.columns)
    ensures TableRun(AppInfo, t, ss, 2) == Ok(DeleteRows(t, ss[2].cond))
  {
    var t2 := DeleteRows(t, ss[2].cond);
    assert TableRun(AppInfo, t2, ss, 3) == Ok(t2);
  }

  // ---------------------------------------------------------------------------------------
  // 10 -> 11

  /** The custom-domain table step 10 -> 11 creates: empty, keyed by domain, every column NOT NULL. */
  const CustomDomainV11: Table := Table(CustomDomainColumns, ["domain"], AllOf(CustomDomainColumns), map[])

  /** Step 10 -> 11 on a sound DNS log: it succeeds exactly when the log has no `responseIps`
      column yet and the name CustomDomain is free; then every logged query gets an empty,
      NOT NULL `responseIps` and keeps everything else, the empty CustomDomain table appears,
      and nothing else changes. */
  lemma Migration10To11Outcome(db: Db)
    requires DnsLogs in db.tables && Sound(db.tables[DnsLogs])
    requires "responseIps" !in db.tables[DnsLogs].key && "responseIps" !in db.tables[DnsLogs].notNull
    ensures ExecAll(db, Migration10To11).Ok? <==>
      "responseIps" !in db.tables[DnsLogs].columns && CustomDomain !in db.tables && CustomDomain !in db.views
    ensures ExecAll(db, Migration10To11).Ok? ==>
      var t := db.tables[DnsLogs];
      var d := ExecAll(db, Migration10To11).value;
      && d.views == db.views
      && d.tables.Keys == db.tables.Keys + {CustomDomain}
      && d.tables[CustomDomain] == CustomDomainV11
      && (forall n | n in db.tables && n != DnsLogs :: d.tables[n] == db.tables[n])
      && var t' := d.tables[DnsLogs];
      && Sound(t') && t'.columns == t.columns + ["responseIps"] && "responseIps" in t'.notNull
      && t'.rows.Keys == t.rows.Keys
      && forall k | k in t.rows :: t'.rows[k] == t.rows[k]["responseIps" := Text("")]
  {
    var ss := Migration10To11;
    var t := db.tables[DnsLogs];
    if "responseIps" !in t.columns {
      AddColumnSound(DnsLogs, t, "responseIps", Text(""), true);
      var t' := AddColumnTo(DnsLogs, t, "responseIps", Text(""), true).value;
      var d1 := Put(db, DnsLogs, t');
      ExecFromStep(db, ss, 0, d1);
      if CustomDomain !in db.tables && CustomDomain !in db.views {
        assert Distinct(CustomDomainColumns);
        var d2 := ExecStmt(d1, ss[1]).value;
        ExecFromStep(d1, ss, 1, d2);
      } else {
        ExecFromStops(d1, ss, 1);
      }
    } else {
      ExecFromStops(db, ss, 0);
    }
  }

  // ---------------------------------------------------------------------------------------
  // createRethinkDnsTable

  /** The RethinkDNS endpoint table: empty, keyed by (name, uid) so that one endpoint name may
      serve several apps, every column NOT NULL. */
  const RethinkDnsV12: Table := Table(RethinkDnsColumns, ["name", "uid"], AllOf(RethinkDnsColumns), map[])

  /** `createRethinkDnsTable` succeeds exactly when the name is free, and then adds the empty
      table and nothing else. */
  lemma CreateRethinkDnsTableOutcome(db: Db)
    ensures ExecAll(db, CreateRethinkDnsTable).Ok? <==> RethinkDnsEndpoint !in db.tables && RethinkDnsEndpoint !in db.views
    ensures ExecAll(db, CreateRethinkDnsTable).Ok? ==>
      var d := ExecAll(db, CreateRethinkDnsTable).value;
      && d.views == db.views && d.tables.Keys == db.tables.Keys + {RethinkDnsEndpoint}
      && d.tables[RethinkDnsEndpoint] == RethinkDnsV12
      && forall n | n in db.tables :: d.tables[n] == db.tables[n]
  {
    var ss := CreateRethinkDnsTable;
    if RethinkDnsEndpoint !in db.tables && RethinkDnsEndpoint !in db.views {
      assert Distinct(RethinkDnsColumns);
      var d := ExecStmt(db, ss[0]).value;
      ExecFromStep(db, ss, 0, d);
    } else {
      ExecFromStops(db, ss, 0);
    }
  }
}
