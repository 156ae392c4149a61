/** Step 3 -> 4 records which firewall rule blocked a connection: RULE5 for the universal
    rules (uid -1000), RULE4 for per-app rules. */
module BlockRules {
  import opened Results
  import opened Sql
  import opened Migrations

  const Rule4 := Text("RULE4")
  const Rule5 := Text("RULE5")

  /** The rule a connection-log row should carry: blocked rows of uid -1000 were blocked by
      RULE5, other blocked rows by RULE4; allowed rows carry none. */
  function BlockedByRule(r: Row): Value {
    if Get(r, "isBlocked") != Int(1) then Null
    else if Get(r, "uid") == Int(-1000) then Rule5
    else Rule4
  }

  /** The ConnectionTracker statements of step 3 -> 4 add `blockedByRule` and fill it as
      `BlockedByRule` says, keeping every row under its id and every other column as it was.
      The updates read `uid` and `isBlocked`: without either column the step is refused. */
  lemma TrackerRuleColumn(t: Table)
    requires Sound(t) && "uid" in t.notNull
    requires "blockedByRule" !in t.columns && "blockedByRule" !in t.key && "blockedByRule" !in t.notNull
    ensures TableRun(ConnectionTracker, t, ConnectionTrackerRules, 0).Ok? <==> "uid" in t.columns && "isBlocked" in t.columns
    ensures TableRun(ConnectionTracker, t, ConnectionTrackerRules, 0).Ok? ==>
      var t' := TableRun(ConnectionTracker, t, ConnectionTrackerRules, 0).value;
      && Sound(t') && t'.columns == t.columns + ["blockedByRule"] && t'.key == t.key && t'.notNull == t.notNull
      && t'.rows.Keys == t.rows.Keys
      && (forall k | k in t.rows :: Get(t'.rows[k], "blockedByRule") == BlockedByRule(t.rows[k]))
      && (forall k, c | k in t.rows && c != "blockedByRule" :: Get(t'.rows[k], c) == Get(t.rows[k], c))
  {
    if "uid" in t.columns && "isBlocked" in t.columns {
      TrackerRulesApplied(t);
    } else {
      TrackerRulesRefused(t);
    }
  }

  /** Without `uid` or `isBlocked` the column is added and the first update is refused. */
  lemma TrackerRulesRefused(t: Table)
    requires "blockedByRule" !in t.columns && !("uid" in t.columns && "isBlocked" in t.columns)
    ensures TableRun(ConnectionTracker, t, ConnectionTrackerRules, 0).Err?
  {
    var n, ss := ConnectionTracker, ConnectionTrackerRules;
    var t1 := AddColumnTo(n, t, "blockedByRule", Null, false).value;
    assert TableStep(n, t, ss[0]) == Ok(t1);
    assert !CondResolves(Both(Ne("uid", Int(-1000)), Eq("isBlocked", Int(1))), t1.columns);
    assert TableStep(n, t1, ss[1]).Err?;
    assert TableRun(n, t1, ss, 1).Err?;
  }

  /** With both columns present, the three statements succeed as described. */
  lemma TrackerRulesApplied(t: Table)
    requires Sound(t) && "uid" in t.notNull && "uid" in t.columns && "isBlocked" in t.columns
    requires "blockedByRule" !in t.columns && "blockedByRule" !in t.key && "blockedByRule" !in t.notNull
    ensures TableRun(ConnectionTracker, t, ConnectionTrackerRules, 0).Ok?
    ensures var t' := TableRun(ConnectionTracker, t, ConnectionTrackerRules, 0).value;
      && Sound(t') && t'.columns == t.columns + ["blockedByRule"] && t'.key == t.key && t'.notNull == t.notNull
      && t'.rows.Keys == t.rows.Keys
      && (forall k | k in t.rows :: Get(t'.rows[k], "blockedByRule") == BlockedByRule(t.rows[k]))
      && (forall k, c | k in t.rows && c != "blockedByRule" :: Get(t'.rows[k], c) == Get(t.rows[k], c))
  {
    var n, ss := ConnectionTracker, ConnectionTrackerRules;
    AddColumnSound(n, t, "blockedByRule", Null, false);
    var t1 := AddColumnTo(n, t, "blockedByRule", Null, false).value;
    var c1 := Both(Ne("uid", Int(-1000)), Eq("isBlocked", Int(1)));
    UpdateSetSound(n, t1, c1, "blockedByRule", Rule4);
    var t2 := UpdateRows(n, t1, c1, SetTo("blockedByRule", Rule4)).value;
    var c2 := Both(Eq("uid", Int(-1000)), Eq("isBlocked", Int(1)));
    UpdateSetSound(n, t2, c2, "blockedByRule", Rule5);
    var t3 := UpdateRows(n, t2, c2, SetTo("blockedByRule", Rule5)).value;
    assert TableStep(n, t2, ss[2]) == Ok(t3);
    assert TableRun(n, t2, ss, 2) == Ok(t3);
    assert TableStep(n, t1, ss[1]) == Ok(t2);
    assert TableRun(n, t1, ss, 1) == Ok(t3);
    assert TableStep(n, t, ss[0]) == Ok(t1);
    assert TableRun(n, t, ss, 0) == Ok(t3);
    forall k | k in t.rows
      ensures Get(t3.rows[k], "blockedByRule") == BlockedByRule(t.rows[k])
      ensures forall c | c != "blockedByRule" :: Get(t3.rows[k], c) == Get(t.rows[k], c)
    {
      assert NullFree(t, t.rows[k]);
      AddColumnRow(n, t, "blockedByRule", Null, false, k);
      UpdateSetRow(n, t1, c1, "blockedByRule", Rule4, k);
      UpdateSetRow(n, t2, c2, "blockedByRule", Rule5, k);
      RuleOfRow(t.rows[k], t1.rows[k], t2.rows[k], t3.rows[k]);
    }
  }

  /** One row through the three statements: the last-written rule is the one `BlockedByRule` names. */
  lemma RuleOfRow(r0: Row, r1: Row, r2: Row, r3: Row)
    requires Get(r0, "uid") != Null
    requires forall c :: Get(r1, c) == if c == "blockedByRule" then Null else Get(r0, c)
    requires forall c :: (Get(r2, c) ==
      if c == "blockedByRule" && Holds(Both(Ne("uid", Int(-1000)), Eq("isBlocked", Int(1))), r1) then Rule4 else Get(r1, c))
    requires forall c :: (Get(r3, c) ==
      if c == "blockedByRule" && Holds(Both(Eq("uid", Int(-1000)), Eq("isBlocked", Int(1))), r2) then Rule5 else Get(r2, c))
    ensures Get(r3, "blockedByRule") == BlockedByRule(r0)
  {
    var u, b := Get(r0, "uid"), Get(r0, "isBlocked");
    assert Get(r1, "uid") == u && Get(r1, "isBlocked") == b;
    assert Get(r2, "uid") == u && Get(r2, "isBlocked") == b;
    var first := u != Int(-1000) && b == Int(1);
    var second := u == Int(-1000) && b == Int(1);
    assert Holds(Both(Ne("uid", Int(-1000)), Eq("isBlocked", Int(1))), r1) == first;
    assert Holds(Both(Eq("uid", Int(-1000)), Eq("isBlocked", Int(1))), r2) == second;
    assert Get(r2, "blockedByRule") == if first then Rule4 else Null;
    assert Get(r3, "blockedByRule") == if second then Rule5 else Get(r2, "blockedByRule");
  }

  /** In the store, those statements change ConnectionTracker as above and nothing else. */
  lemma TrackerRuleColumnInStore(db: Db)
    requires ConnectionTracker in db.tables
    ensures ExecAll(db, ConnectionTrackerRules) == match TableRun(ConnectionTracker, db.tables[ConnectionTracker], ConnectionTrackerRules, 0)
      case Err(e) => Err(e)
      case Ok(t) => Ok(Put(db, ConnectionTracker, t))
  {
    ExecFromOnTable(db, ConnectionTrackerRules, 0, ConnectionTracker);
  }

  /** The BlockedConnections statements of step 3 -> 4 add three NOT NULL columns: every rule is
      active, has no modification time, and is RULE5 exactly when its uid is -1000, else RULE4.
      The update reads `uid`: without that column the step is refused. */
  lemma BlockedRuleColumns(t: Table)
    requires Sound(t)
    requires "isActive" !in t.columns && "isActive" !in t.key && "isActive" !in t.notNull
    requires "ruleType" !in t.columns && "ruleType" !in t.key && "ruleType" !in t.notNull
    requires "modifiedDateTime" !in t.columns && "modifiedDateTime" !in t.key && "modifiedDateTime" !in t.notNull
    ensures TableRun(BlockedConnections, t, BlockedConnectionsRules, 0).Ok? <==> "uid" in t.columns
    ensures TableRun(BlockedConnections, t, BlockedConnectionsRules, 0).Ok? ==>
      var t' := TableRun(BlockedConnections, t, BlockedConnectionsRules, 0).value;
      && Sound(t') && t'.columns == t.columns + ["isActive", "ruleType", "modifiedDateTime"] && t'.key == t.key
      && t'.notNull == t.notNull + {"isActive", "ruleType", "modifiedDateTime"}
      && t'.rows.Keys == t.rows.Keys
      && (forall k | k in t.rows ::
            && Get(t'.rows[k], "isActive") == Int(1)
            && Get(t'.rows[k], "ruleType") == (if Get(t.rows[k], "uid") == Int(-1000) then Rule5 else Rule4)
            && Get(t'.rows[k], "modifiedDateTime") == Int(0))
      && (forall k, c | k in t.rows && c != "isActive" && c != "ruleType" && c != "modifiedDateTime" ::
            Get(t'.rows[k], c) == Get(t.rows[k], c))
  {
    var n, ss := BlockedConnections, BlockedConnectionsRules;
    AddColumnSound(n, t, "isActive", Int(1), true);
    var t1 := AddColumnTo(n, t, "isActive", Int(1), true).value;
    AddColumnSound(n, t1, "ruleType", Rule4, true);
    var t2 := AddColumnTo(n, t1, "ruleType", Rule4, true).value;
    AddColumnSound(n, t2, "modifiedDateTime", Int(0), true);
    var t3 := AddColumnTo(n, t2, "modifiedDateTime", Int(0), true).value;
    if "uid" !in t.columns {
      BlockedRefused(t, t1, t2, t3);
      return;
    }
    UpdateSetSound(n, t3, Eq("uid", Int(-1000)), "ruleType", Rule5);
    var t4 := UpdateRows(n, t3, Eq("uid", Int(-1000)), SetTo("ruleType", Rule5)).value;
    BlockedRun(t, t1, t2, t3, t4);
    assert t.columns + ["isActive", "ruleType", "modifiedDateTime"] == t.columns + ["isActive"] + ["ruleType"] + ["modifiedDateTime"];
    forall k | k in t.rows
      ensures Get(t4.rows[k], "isActive") == Int(1)
      ensures Get(t4.rows[k], "ruleType") == (if Get(t.rows[k], "uid") == Int(-1000) then Rule5 else Rule4)
      ensures Get(t4.rows[k], "modifiedDateTime") == Int(0)
      ensures forall c | c != "isActive" && c != "ruleType" && c != "modifiedDateTime" :: Get(t4.rows[k], c) == Get(t.rows[k], c)
    {
      AddColumnRow(n, t, "isActive", Int(1), true, k);
      AddColumnRow(n, t1, "ruleType", Rule4, true, k);
      AddColumnRow(n, t2, "modifiedDateTime", Int(0), true, k);
      UpdateSetRow(n, t3, Eq("uid", Int(-1000)), "ruleType", Rule5, k);
      BlockedRow(t.rows[k], t1.rows[k], t2.rows[k], t3.rows[k], t4.rows[k]);
    }
  }

  /** The four statements, one table state after another. */
  lemma BlockedRun(t: Table, t1: Table, t2: Table, t3: Table, t4: Table)
    requires AddColumnTo(BlockedConnections, t, "isActive", Int(1), true) == Ok(t1)
    requires AddColumnTo(BlockedConnections, t1, "ruleType", Rule4, true) == Ok(t2)
    requires AddColumnTo(BlockedConnections, t2, "modifiedDateTime", Int(0), true) == Ok(t3)
    requires UpdateRows(BlockedConnections, t3, Eq("uid", Int(-1000)), SetTo("ruleType", Rule5)) == Ok(t4)
    ensures TableRun(BlockedConnections, t, BlockedConnectionsRules, 0) == Ok(t4)
  {
    var n, ss := BlockedConnections, BlockedConnectionsRules;
    assert TableStep(n, t3, ss[3]) == Ok(t4);
    assert TableRun(n, t3, ss, 3) == Ok(t4);
    assert TableStep(n, t2, ss[2]) == Ok(t3);
    assert TableRun(n, t2, ss, 2) == Ok(t4);
    assert TableStep(n, t1, ss[1]) == Ok(t2);
    assert TableRun(n, t1, ss, 1) == Ok(t4);
    assert TableStep(n, t, ss[0]) == Ok(t1);
  }

  /** Without `uid` the three columns are added and the update is refused. */
  lemma BlockedRefused(t: Table, t1: Table, t2: Table, t3: Table)
    requires AddColumnTo(BlockedConnections, t, "isActive", Int(1), true) == Ok(t1)
    requires AddColumnTo(BlockedConnections, t1, "ruleType", Rule4, true) == Ok(t2)
    requires AddColumnTo(BlockedConnections, t2, "modifiedDateTime", Int(0), true) == Ok(t3)
    requires "uid" !in t.columns
    ensures TableRun(BlockedConnections, t, BlockedConnectionsRules, 0).Err?
  {
    var n, ss := BlockedConnections, BlockedConnectionsRules;
    assert "uid" !in t3.columns;
    assert TableStep(n, t3, ss[3]).Err?;
    assert TableRun(n, t3, ss, 3).Err?;
    assert TableStep(n, t2, ss[2]) == Ok(t3);
    assert TableRun(n, t2, ss, 2).Err?;
    assert TableStep(n, t1, ss[1]) == Ok(t2);
    assert TableRun(n, t1, ss, 1).Err?;
    assert TableStep(n, t, ss[0]) == Ok(t1);
  }

  /** One row through the four statements. */
  lemma BlockedRow(r0: Row, r1: Row, r2: Row, r3: Row, r4: Row)
    requires forall c :: Get(r1, c) == if c == "isActive" then Int(1) else Get(r0, c)
    requires forall c :: Get(r2, c) == if c == "ruleType" then Rule4 else Get(r1, c)
    requires forall c :: Get(r3, c) == if c == "modifiedDateTime" then Int(0) else Get(r2, c)
    requires forall c :: Get(r4, c) == if c == "ruleType" && Holds(Eq("uid", Int(-1000)), r3) then Rule5 else Get(r3, c)
    ensures Get(r4, "isActive") == Int(1) && Get(r4, "modifiedDateTime") == Int(0)
    ensures Get(r4, "ruleType") == if Get(r0, "uid") == Int(-1000) then Rule5 else Rule4
    ensures forall c | c != "isActive" && c != "ruleType" && c != "modifiedDateTime" :: Get(r4, c) == Get(r0, c)
  {
    assert Get(r3, "uid") == Get(r0, "uid");
  }

  /** In the store, those statements change BlockedConnections as above and nothing else. */
  lemma BlockedRuleColumnsInStore(db: Db)
    requires BlockedConnections in db.tables
    ensures ExecAll(db, BlockedConnectionsRules) == match TableRun(BlockedConnections, db.tables[BlockedConnections], BlockedConnectionsRules, 0)
      case Err(e) => Err(e)
      case Ok(t) => Ok(Put(db, BlockedConnections, t))
  {
    ExecFromOnTable(db, BlockedConnectionsRules, 0, BlockedConnections);
  }
}
