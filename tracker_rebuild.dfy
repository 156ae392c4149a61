/** Step 11 -> 12, `modifyConnectionTrackerTable`: ConnectionTracker is rebuilt through
    ConnectionTracker_backup so that every column except `dnsQuery` is NOT NULL. */
module TrackerRebuild {
  import opened Results
  import opened Sql
  import opened Migrations
  import opened Rebuild

  /** The helper is a backup into ConnectionTracker_backup and a restore from it, both with the
      same schema and select list. */
  lemma TrackerRebuildIsRebuild()
    ensures ModifyConnectionTrackerTable ==
      Backup(ConnectionTracker, ConnectionTrackerBackup, TrackerColumns, ["id"], TrackerNotNull, TrackerCopy)
      + Restore(ConnectionTracker, ConnectionTrackerBackup, TrackerColumns, ["id"], TrackerNotNull, TrackerCopy, true)
  {
  }

  lemma TrackerColumnsDistinct()
    ensures Creatable(TrackerColumns, ["id"])
  {
  }

  lemma TrackerCopyStable()
    ensures Stable(TrackerColumns, TrackerCopy)
  {
  }

  lemma TrackerCopiesAsIs()
    ensures CopiesAsIs(TrackerColumns, TrackerCopy, TrackerNotNull)
  {
    forall i | 0 <= i < |TrackerColumns| && TrackerColumns[i] in TrackerNotNull
      ensures TrackerCopy[i] == Col(TrackerColumns[i])
    {
      assert TrackerColumns[9] == "dnsQuery";
    }
  }

  /** A connection-log row that fills every column the rebuilt table declares NOT NULL. */
  predicate Complete(r: Row) {
    forall c | c in TrackerNotNull :: Get(r, c) != Null
  }

  /** The row a connection-log row becomes: `dnsQuery` is the empty text and every other
      column (`TrackerNotNull` is all the columns but `dnsQuery`) keeps its value. */
  lemma TrackerRowRebuilt(r: Row)
    ensures Get(Project(TrackerColumns, TrackerCopy, r), "dnsQuery") == Text("")
    ensures forall c | c in TrackerNotNull :: Get(Project(TrackerColumns, TrackerCopy, r), c) == Get(r, c)
  {
    TrackerColumnsDistinct();
    TrackerCopiesAsIs();
    BuildAt(TrackerColumns, TrackerCopy, r, 9);
    ProjectCopiesAsIs(TrackerColumns, TrackerCopy, TrackerNotNull, r);
  }

  /** Step 11 -> 12's rebuild of ConnectionTracker succeeds exactly when the log has every
      column the copy reads and every logged connection fills the NOT NULL columns; then ConnectionTracker holds the same connections
      under the same ids, rebuilt as `TrackerRowRebuilt` says, the backup is gone and no other
      table or view changes. */
  lemma TrackerRebuildRun(db: Db)
    requires ConnectionTracker in db.tables && ConnectionTracker !in db.views
    requires ConnectionTrackerBackup !in db.tables && ConnectionTrackerBackup !in db.views
    requires WellFormed(db.tables[ConnectionTracker]) && db.tables[ConnectionTracker].key == ["id"]
    ensures ExecAll(db, ModifyConnectionTrackerTable).Ok? <==>
      && SelectResolves(TrackerCopy, db.tables[ConnectionTracker].columns)
      && forall k | k in db.tables[ConnectionTracker].rows :: Complete(db.tables[ConnectionTracker].rows[k])
    ensures ExecAll(db, ModifyConnectionTrackerTable).Ok? ==>
      var t := Table(TrackerColumns, ["id"], TrackerNotNull, ProjectAll(TrackerColumns, TrackerCopy, db.tables[ConnectionTracker].rows));
      ExecAll(db, ModifyConnectionTrackerTable).value == Db(db.tables[ConnectionTracker := t], db.views) && Sound(t)
  {
    var src := db.tables[ConnectionTracker];
    TrackerRebuildIsRebuild();
    TrackerColumnsDistinct();
    TrackerCopyStable();
    TrackerCopiesAsIs();
    FirstColumnKeeps(src, TrackerColumns, TrackerCopy);
    RebuildRun(db, ConnectionTracker, ConnectionTrackerBackup, TrackerColumns, ["id"], TrackerNotNull, TrackerCopy, true);
    FillsIffSourceFills(TrackerColumns, TrackerCopy, TrackerNotNull, src.rows);
    ProjectAllWellFormed(TrackerColumns, ["id"], TrackerNotNull, TrackerCopy, src.rows);
  }

  /** A connection logged as allowed before step 3 -> 4 has no `blockedByRule`: if one is still
      in the log, the rebuild fails and, the upgrade being one transaction, so does the whole
      upgrade. */
  lemma AllowedConnectionBlocksRebuild(db: Db, k: Key)
    requires ConnectionTracker in db.tables && ConnectionTracker !in db.views
    requires ConnectionTrackerBackup !in db.tables && ConnectionTrackerBackup !in db.views
    requires WellFormed(db.tables[ConnectionTracker]) && db.tables[ConnectionTracker].key == ["id"]
    requires k in db.tables[ConnectionTracker].rows && Get(db.tables[ConnectionTracker].rows[k], "blockedByRule") == Null
    ensures ExecAll(db, ModifyConnectionTrackerTable).Err?
  {
    TrackerRebuildRun(db);
    assert "blockedByRule" in TrackerColumns;
    assert !Complete(db.tables[ConnectionTracker].rows[k]);
  }
}
