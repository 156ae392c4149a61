/** Step 1 -> 2: clearing AppInfo and (re)creating CategoryInfo. */
module CategoryReset {
  import opened Results
  import opened Sql
  import opened Migrations

  /** As written, step 1 -> 2 fails on every store: `DELETE from CategoryInfo` needs the table
      to exist, and the `CREATE TABLE CategoryInfo` right after it needs it not to. */
  lemma Migration1To2AlwaysFails(db: Db)
    ensures ExecAll(db, Migration1To2).Err?
  {
    var ss := Migration1To2;
    if AppInfo in db.tables {
      var d1 := ExecStmt(db, ss[0]).value;
      assert ExecFrom(db, ss, 0) == ExecFrom(d1, ss, 1);
      if CategoryInfo in d1.tables {
        var d2 := ExecStmt(d1, ss[1]).value;
        assert CategoryInfo in d2.tables;
        assert ExecFrom(d1, ss, 1) == ExecFrom(d2, ss, 2);
      }
    }
  }

  /** The corrected step succeeds exactly when AppInfo exists and no view is named CategoryInfo;
      it empties AppInfo, leaves a fresh empty CategoryInfo and touches nothing else. */
  lemma Migration1To2CorrectedOutcome(db: Db)
    ensures ExecAll(db, Migration1To2Corrected).Ok? <==> AppInfo in db.tables && CategoryInfo !in db.views
    ensures ExecAll(db, Migration1To2Corrected).Ok? ==>
      var d := ExecAll(db, Migration1To2Corrected).value;
      && d.tables.Keys == db.tables.Keys + {CategoryInfo}
      && d.views == db.views
      && d.tables[AppInfo] == db.tables[AppInfo].(rows := map[])
      && d.tables[CategoryInfo] == Table(CategoryInfoColumns, ["categoryName"], AllOf(CategoryInfoColumns), map[])
      && forall n | n in db.tables && n != AppInfo && n != CategoryInfo :: d.tables[n] == db.tables[n]
  {
    var ss := Migration1To2Corrected;
    if AppInfo in db.tables && CategoryInfo !in db.views {
      assert DeleteFrom(AppInfo, db.tables[AppInfo], Always) == Ok(db.tables[AppInfo].(rows := map[]));
      var d1 := Put(db, AppInfo, db.tables[AppInfo].(rows := map[]));
      ExecFromStep(db, ss, 0, d1);
      var d2 := ExecStmt(d1, ss[1]).value;
      assert CategoryInfo !in d2.tables;
      ExecFromStep(d1, ss, 1, d2);
      assert Distinct(CategoryInfoColumns);
      assert ExecFrom(d2, ss, 2) == ExecFrom(ExecStmt(d2, ss[2]).value, ss, 3);
    } else if AppInfo in db.tables {
      assert DeleteFrom(AppInfo, db.tables[AppInfo], Always) == Ok(db.tables[AppInfo].(rows := map[]));
      var d1 := Put(db, AppInfo, db.tables[AppInfo].(rows := map[]));
      ExecFromStep(db, ss, 0, d1);
      match ExecStmt(d1, ss[1])
      case Err(_) =>
        ExecFromStops(d1, ss, 1);
      case Ok(d2) =>
        ExecFromStep(d1, ss, 1, d2);
        assert CategoryInfo in d2.views;
        ExecFromStops(d2, ss, 2);
    } else {
      ExecFromStops(db, ss, 0);
    }
  }
}
