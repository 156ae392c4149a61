/** Step 11 -> 12, `modifyBlockedConnectionsTable`: the IP rules move from BlockedConnections,
    keyed by a row id, to CustomIp, keyed by the rule itself (uid, ipAddress, port, protocol).
    Every moved rule is active or not as before, keeps its modification time, and becomes a
    blocking (status 1), non-wildcard rule of type 0. */
module CustomIpRename {
  import opened Results
  import opened Sql
  import opened Migrations
  import opened Rebuild

  /** The columns of a BlockedConnections rule the move reads. */
  const RuleColumns: seq<string> := ["uid", "ipAddress", "port", "protocol", "isActive", "modifiedDateTime"]

  /** The CustomIp primary key of a rule. */
  function RuleKey(r: Row): Key {
    [Get(r, "uid"), Get(r, "ipAddress"), Get(r, "port"), Get(r, "protocol")]
  }

  /** A rule the move can carry over: every column it reads is set. */
  predicate RuleComplete(r: Row) {
    forall c | c in RuleColumns :: Get(r, c) != Null
  }

  /** No two rules name the same (uid, ipAddress, port, protocol). */
  predicate RuleKeysUnique(rows: map<Key, Row>) {
    forall k1, k2 | k1 in rows && k2 in rows && k1 != k2 :: RuleKey(rows[k1]) != RuleKey(rows[k2])
  }

  /** `u` is the CustomIp row of the rule `r`: exactly the nine CustomIp columns, the six read
      columns as in `r`, blocking, of rule type 0 and not a wildcard. */
  predicate CustomIpOf(r: Row, u: Row) {
    && u.Keys == AllOf(CustomIpColumns)
    && (forall c | c in RuleColumns :: Get(u, c) == Get(r, c))
    && Get(u, "status") == Int(1) && Get(u, "ruleType") == Int(0) && Get(u, "wildcard") == Int(0)
  }

  /** `d` is `db` with the rules `rows` moved to CustomIp: the version-12 schema, one row per
      rule under the rule's key and no other, BlockedConnections gone, and no other table or
      view changed. */
  ghost predicate MovedFrom(db: Db, rows: map<Key, Row>, d: Db) {
    && CustomIp in d.tables
    && d == Db((db.tables - {BlockedConnections})[CustomIp := d.tables[CustomIp]], db.views)
    && var t := d.tables[CustomIp];
    && t.columns == CustomIpColumns && t.key == CustomIpKey && t.notNull == AllOf(CustomIpColumns) && Sound(t)
    && t.rows.Keys == (set k | k in rows :: RuleKey(rows[k]))
    && forall k | k in rows :: CustomIpOf(rows[k], t.rows[RuleKey(rows[k])])
  }

  // ---------------------------------------------------------------------------------------
  // The statements, generically

  /** `CREATE TABLE m (...)`, `INSERT INTO m SELECT sel FROM n`, `DROP TABLE IF EXISTS n`: it
      succeeds exactly when `n` has every column `sel` reads and the copied rows fill the NOT NULL columns and land under pairwise
      different keys; then `m` holds the copied rows and `n` is gone. */
  lemma MoveRun(db: Db, n: string, m: string, columns: seq<string>, key: seq<string>, nn: set<string>, sel: seq<Expr>)
    requires n in db.tables && m !in db.tables && m !in db.views && n != m
    requires Creatable(columns, key) && |sel| == |columns|
    ensures var ss := [CreateTable(m, columns, key, nn), CopyRows(n, m, sel), DropTable(n, true)];
      var dst := Table(columns, key, nn, map[]);
      && (ExecAll(db, ss).Ok? <==>
            SelectResolves(sel, db.tables[n].columns) && Fills(columns, sel, nn, db.tables[n].rows) && CopyKeysUnique(db.tables[n], dst, sel))
      && (ExecAll(db, ss).Ok? ==>
            ExecAll(db, ss).value == Db((db.tables - {n})[m := dst.(rows := CopiedRows(db.tables[n], dst, sel))], db.views))
  {
    var ss := [CreateTable(m, columns, key, nn), CopyRows(n, m, sel), DropTable(n, true)];
    var dst := Table(columns, key, nn, map[]);
    var src := db.tables[n];
    var d1 := Put(db, m, dst);
    CreateStep(db, m, columns, key, nn);
    ExecFromStep(db, ss, 0, d1);
    assert d1.tables[n] == src && d1.tables[m] == dst;
    CopyIntoFresh(m, src, dst, sel);
    CopyRowsStmt(d1, n, m, sel);
    if SelectResolves(sel, src.columns) && Fills(columns, sel, nn, src.rows) && CopyKeysUnique(src, dst, sel) {
      var d2 := Put(d1, m, dst.(rows := CopiedRows(src, dst, sel)));
      ExecFromStep(d1, ss, 1, d2);
      var d3 := d2.(tables := d2.tables - {n});
      ExecFromStep(d2, ss, 2, d3);
      PutTwiceThenDrop(db.tables, m, n, dst, dst.(rows := CopiedRows(src, dst, sel)));
    } else {
      ExecFromStops(d1, ss, 1);
    }
  }

  /** Filing a table under `m` twice and then dropping `n` is dropping `n` and filing the second. */
  lemma PutTwiceThenDrop(tables: map<string, Table>, m: string, n: string, t1: Table, t2: Table)
    requires m != n
    ensures tables[m := t1][m := t2] - {n} == (tables - {n})[m := t2]
  {
    var a := tables[m := t1][m := t2] - {n};
    var b := (tables - {n})[m := t2];
    assert a.Keys == b.Keys;
    forall x | x in a ensures a[x] == b[x] {
    }
  }

  // ---------------------------------------------------------------------------------------
  // One rule

  /** The CustomIp column of the `i`-th read column: the rule's modification time comes after
      the three new columns. */
  function ReadAt(i: nat): nat {
    if i < 5 then i else 8
  }

  /** Where each CustomIp column sits and what the copy puts there. */
  predicate IpLayout(columns: seq<string>, key: seq<string>, sel: seq<Expr>) {
    && Distinct(columns) && |columns| == |sel| == 9 && key == columns[..4]
    && (forall i | 0 <= i < |RuleColumns| :: ReadAt(i) < 9 && columns[ReadAt(i)] == RuleColumns[i] && sel[ReadAt(i)] == Col(RuleColumns[i]))
    && columns[5] == "status" && sel[5] == Lit(Int(1))
    && columns[6] == "ruleType" && sel[6] == Lit(Int(0))
    && columns[7] == "wildcard" && sel[7] == Lit(Int(0))
  }

  lemma IpLayoutHolds()
    ensures IpLayout(CustomIpColumns, CustomIpKey, BlockedToCustomIp)
  {
  }

  /** The copy of a rule is keyed by the rule, carries its six read columns and sets the three
      new ones. */
  lemma RuleRow(columns: seq<string>, key: seq<string>, sel: seq<Expr>, r: Row)
    requires IpLayout(columns, key, sel)
    ensures var u := Build(columns, sel, r);
      && KeyOf(key, u) == RuleKey(r)
      && u.Keys == AllOf(columns)
      && (forall c | c in RuleColumns :: Get(u, c) == Get(r, c))
      && Get(u, "status") == Int(1) && Get(u, "ruleType") == Int(0) && Get(u, "wildcard") == Int(0)
  {
    var u := Build(columns, sel, r);
    BuildColumns(columns, sel, r);
    forall i | 0 <= i < |RuleColumns| ensures Get(u, RuleColumns[i]) == Get(r, RuleColumns[i]) {
      BuildAt(columns, sel, r, ReadAt(i));
    }
    BuildAt(columns, sel, r, 5);
    BuildAt(columns, sel, r, 6);
    BuildAt(columns, sel, r, 7);
    assert RuleColumns[..4] == ["uid", "ipAddress", "port", "protocol"];
    assert key == [RuleColumns[0], RuleColumns[1], RuleColumns[2], RuleColumns[3]];
  }

  /** The copy of a rule fills every CustomIp column exactly when the rule is complete. */
  lemma RuleFills(columns: seq<string>, key: seq<string>, sel: seq<Expr>, r: Row)
    requires IpLayout(columns, key, sel)
    ensures (forall c | c in columns :: Get(Build(columns, sel, r), c) != Null) <==> RuleComplete(r)
  {
    var u := Build(columns, sel, r);
    RuleRow(columns, key, sel, r);
    if forall c | c in columns :: Get(u, c) != Null {
      forall c | c in RuleColumns ensures Get(r, c) != Null {
        var i :| 0 <= i < |RuleColumns| && RuleColumns[i] == c;
        assert columns[ReadAt(i)] == c;
      }
    }
    if RuleComplete(r) {
      forall c | c in columns ensures Get(u, c) != Null {
        var j :| 0 <= j < |columns| && columns[j] == c;
        if j < 5 {
          assert RuleColumns[j] == c;
        } else if j == 8 {
          assert RuleColumns[5] == c;
        }
      }
    }
  }

  /** The copy reads exactly the six rule columns. */
  lemma RulesResolve(columns: seq<string>, key: seq<string>, sel: seq<Expr>, from: seq<string>)
    requires IpLayout(columns, key, sel)
    ensures SelectResolves(sel, from) <==> forall c | c in RuleColumns :: c in from
  {
    if SelectResolves(sel, from) {
      forall c | c in RuleColumns ensures c in from {
        var i :| 0 <= i < |RuleColumns| && RuleColumns[i] == c;
        assert ExprResolves(sel[ReadAt(i)], from);
      }
    }
    if forall c | c in RuleColumns :: c in from {
      forall j | 0 <= j < |sel| ensures ExprResolves(sel[j], from) {
        if j < 5 {
          assert sel[ReadAt(j)] == Col(RuleColumns[j]);
        } else if j == 8 {
          assert sel[ReadAt(5)] == Col(RuleColumns[5]);
        }
      }
    }
  }

  // ---------------------------------------------------------------------------------------
  // All rules

  /** The copy fills CustomIp's NOT NULL columns exactly when every rule is complete. */
  lemma RulesFill(columns: seq<string>, key: seq<string>, sel: seq<Expr>, rows: map<Key, Row>)
    requires IpLayout(columns, key, sel)
    ensures Fills(columns, sel, AllOf(columns), rows) <==> forall k | k in rows :: RuleComplete(rows[k])
  {
    forall k | k in rows
      ensures (forall c | c in AllOf(columns) :: Get(Project(columns, sel, rows[k]), c) != Null) <==> RuleComplete(rows[k])
    {
      assert Project(columns, sel, rows[k]) == Build(columns, sel, rows[k]);
      RuleFills(columns, key, sel, rows[k]);
    }
  }

  /** The copied rows land under pairwise different keys exactly when no two rules share a
      CustomIp key. */
  lemma RulesUnique(columns: seq<string>, key: seq<string>, nn: set<string>, sel: seq<Expr>, src: Table)
    requires IpLayout(columns, key, sel)
    ensures CopyKeysUnique(src, Table(columns, key, nn, map[]), sel) <==> RuleKeysUnique(src.rows)
  {
    var dst := Table(columns, key, nn, map[]);
    forall k | k in src.rows ensures KeyOf(dst.key, Copied(dst, sel, src.rows[k])) == RuleKey(src.rows[k]) {
      RuleRow(columns, key, sel, src.rows[k]);
    }
  }

  /** The copied rows, when the rules are unique and complete, make a sound table with one
      CustomIp row per rule under the rule's key. */
  lemma RulesCopied(columns: seq<string>, key: seq<string>, sel: seq<Expr>, src: Table)
    requires IpLayout(columns, key, sel)
    requires RuleKeysUnique(src.rows) && forall k | k in src.rows :: RuleComplete(src.rows[k])
    ensures CopyKeysUnique(src, Table(columns, key, AllOf(columns), map[]), sel)
    ensures var dst := Table(columns, key, AllOf(columns), map[]);
      var t := dst.(rows := CopiedRows(src, dst, sel));
      && Sound(t)
      && t.rows.Keys == (set k | k in src.rows :: RuleKey(src.rows[k]))
      && forall k | k in src.rows :: RuleKey(src.rows[k]) in t.rows && t.rows[RuleKey(src.rows[k])] == Build(columns, sel, src.rows[k])
  {
    var dst := Table(columns, key, AllOf(columns), map[]);
    RulesUnique(columns, key, AllOf(columns), sel, src);
    CopiedRowsRekeyed(src, dst, sel);
    forall k | k in src.rows ensures KeyOf(dst.key, Copied(dst, sel, src.rows[k])) == RuleKey(src.rows[k]) {
      RuleRow(columns, key, sel, src.rows[k]);
    }
    var t := dst.(rows := CopiedRows(src, dst, sel));
    forall k' | k' in t.rows ensures NullFree(t, t.rows[k']) {
      var k :| k in src.rows && KeyOf(dst.key, Copied(dst, sel, src.rows[k])) == k';
      RuleFills(columns, key, sel, src.rows[k]);
    }
  }

  // ---------------------------------------------------------------------------------------
  // The step

  /** The helper moves the rules: it succeeds exactly when BlockedConnections has the six rule
      columns, every rule sets them and no two rules share (uid, ipAddress, port, protocol); then CustomIp holds one row per rule as
      `CustomIpOf` says, and BlockedConnections is gone. */
  lemma CustomIpRun(db: Db)
    requires BlockedConnections in db.tables && CustomIp !in db.tables && CustomIp !in db.views
    ensures var rows := db.tables[BlockedConnections].rows;
      ExecAll(db, ModifyBlockedConnectionsTable).Ok? <==>
        && (forall c | c in RuleColumns :: c in db.tables[BlockedConnections].columns)
        && (forall k | k in rows :: RuleComplete(rows[k])) && RuleKeysUnique(rows)
    ensures ExecAll(db, ModifyBlockedConnectionsTable).Ok? ==>
      MovedFrom(db, db.tables[BlockedConnections].rows, ExecAll(db, ModifyBlockedConnectionsTable).value)
  {
    var src := db.tables[BlockedConnections];
    var dst := Table(CustomIpColumns, CustomIpKey, AllOf(CustomIpColumns), map[]);
    IpLayoutHolds();
    MoveRun(db, BlockedConnections, CustomIp, CustomIpColumns, CustomIpKey, AllOf(CustomIpColumns), BlockedToCustomIp);
    RulesFill(CustomIpColumns, CustomIpKey, BlockedToCustomIp, src.rows);
    RulesResolve(CustomIpColumns, CustomIpKey, BlockedToCustomIp, src.columns);
    RulesUnique(CustomIpColumns, CustomIpKey, AllOf(CustomIpColumns), BlockedToCustomIp, src);
    if ExecAll(db, ModifyBlockedConnectionsTable).Ok? {
      RulesCopied(CustomIpColumns, CustomIpKey, BlockedToCustomIp, src);
      forall k | k in src.rows ensures CustomIpOf(src.rows[k], CopiedRows(src, dst, BlockedToCustomIp)[RuleKey(src.rows[k])]) {
        RuleRow(CustomIpColumns, CustomIpKey, BlockedToCustomIp, src.rows[k]);
      }
    }
  }

  /** Without BlockedConnections the helper, and with it the upgrade, fails. */
  lemma CustomIpNeedsRules(db: Db)
    requires BlockedConnections !in db.tables && CustomIp !in db.tables && CustomIp !in db.views
    ensures ExecAll(db, ModifyBlockedConnectionsTable) == Err(NoSuchTable(BlockedConnections))
  {
    var ss := ModifyBlockedConnectionsTable;
    var d1 := Put(db, CustomIp, Table(CustomIpColumns, CustomIpKey, AllOf(CustomIpColumns), map[]));
    CreateStep(db, CustomIp, CustomIpColumns, CustomIpKey, AllOf(CustomIpColumns));
    ExecFromStep(db, ss, 0, d1);
  }

  /** Two rules for the same (uid, ipAddress, port, protocol) under different ids abort the
      upgrade. */
  lemma DuplicateRuleFails(db: Db, k1: Key, k2: Key)
    requires BlockedConnections in db.tables && CustomIp !in db.tables && CustomIp !in db.views
    requires var rows := db.tables[BlockedConnections].rows;
      k1 in rows && k2 in rows && k1 != k2 && RuleKey(rows[k1]) == RuleKey(rows[k2])
    ensures ExecAll(db, ModifyBlockedConnectionsTable).Err?
  {
    CustomIpRun(db);
  }

  /** A rule without an IP address or protocol (the columns BlockedConnections left nullable)
      aborts the upgrade. */
  lemma NullAddressFails(db: Db, k: Key)
    requires BlockedConnections in db.tables && CustomIp !in db.tables && CustomIp !in db.views
    requires var rows := db.tables[BlockedConnections].rows;
      k in rows && (Get(rows[k], "ipAddress") == Null || Get(rows[k], "protocol") == Null)
    ensures ExecAll(db, ModifyBlockedConnectionsTable).Err?
  {
    CustomIpRun(db);
    assert !RuleComplete(db.tables[BlockedConnections].rows[k]);
  }
}
