/** The DoH endpoint catalog: seeded in step 3 -> 4 and refreshed in step 11 -> 12 by upserting
    rows by id. */
module DohCatalog {
  import opened Results
  import opened Sql
  import opened Migrations

  /** The DoHEndpoint schema created in step 3 -> 4. */
  predicate IsDohTable(t: Table) {
    t.columns == DohColumns && t.key == ["id"] && t.notNull == DohNotNull
  }

  /** The row a VALUES list makes in DoHEndpoint. */
  function DohRow(vals: seq<Value>): Row
    requires |vals| == |DohColumns|
  {
    Build(DohColumns, Literals(vals), map[])
  }

  /** The values `DohSeed` gives fill every NOT NULL column of DoHEndpoint. */
  predicate Fills(vals: seq<Value>) {
    |vals| == |DohColumns| && forall i | 0 <= i < |vals| && DohColumns[i] in DohNotNull :: vals[i] != Null
  }

  lemma DohColumnsDistinct()
    ensures Distinct(DohColumns)
  {
  }

  /** Each column of a DoHEndpoint row holds the value at its position in the VALUES list. */
  lemma DohRowAt(vals: seq<Value>, i: nat)
    requires |vals| == |DohColumns| && i < |vals|
    ensures Get(DohRow(vals), DohColumns[i]) == vals[i]
  {
    DohColumnsDistinct();
    BuildLiteralsAt(DohColumns, vals, i);
  }

  /** The seed rows carry their id, name, URL and explanation in the matching columns. */
  lemma DohSeedColumns(id: int, name: string, url: string, explanation: string, selected: int)
    ensures var r := DohRow(DohSeed(id, name, url, explanation, selected));
      && Get(r, "id") == Int(id) && Get(r, "dohName") == Text(name) && Get(r, "dohURL") == Text(url)
      && Get(r, "dohExplanation") == Text(explanation) && Get(r, "isSelected") == Int(selected)
      && Get(r, "isCustom") == Int(0)
  {
    var vals := DohSeed(id, name, url, explanation, selected);
    DohRowAt(vals, 0);
    DohRowAt(vals, 1);
    DohRowAt(vals, 2);
    DohRowAt(vals, 3);
    DohRowAt(vals, 4);
    DohRowAt(vals, 5);
  }

  /** `INSERT OR REPLACE` into DoHEndpoint puts the row under its id, replacing any row there. */
  lemma UpsertDoh(t: Table, vals: seq<Value>)
    requires IsDohTable(t) && Fills(vals)
    ensures InsertRow(DoHEndpoint, t, vals, true) == Ok(t.(rows := t.rows[[vals[0]] := DohRow(vals)]))
  {
    var r := DohRow(vals);
    DohRowAt(vals, 0);
    DohRowAt(vals, 1);
    DohRowAt(vals, 2);
    DohRowAt(vals, 4);
    DohRowAt(vals, 5);
    DohRowAt(vals, 6);
    DohRowAt(vals, 7);
    assert forall c | c in DohNotNull :: Get(r, c) != Null;
    assert KeyOf(["id"], r) == [vals[0]];
  }

  lemma SeedsFill(id: int, name: string, url: string, explanation: string, selected: int)
    ensures Fills(DohSeed(id, name, url, explanation, selected))
  {
  }

  /** Step 11 -> 12's first two helpers: drop the old RethinkDNS endpoints, add four more. */
  const DohRefresh: seq<Stmt> := RemoveRethinkFromDohList + AddMoreDohToList

  /** The four new endpoints are upserts of complete rows with ids 4..7. */
  lemma AddMoreAreSeeds()
    ensures |AddMoreDohToList| == 4
    ensures forall i | 0 <= i < 4 ::
      && AddMoreDohToList[i].InsertOrReplace? && AddMoreDohToList[i].name == DoHEndpoint
      && Fills(AddMoreDohToList[i].values) && AddMoreDohToList[i].values[0] == Int(4 + i)
  {
  }

  /** The DELETE of ids 4 and 5 reads only the `id` column, which DoHEndpoint has. */
  lemma DeleteOldIdsStep(t: Table)
    requires IsDohTable(t)
    ensures TableStep(DoHEndpoint, t, RemoveRethinkFromDohList[0]) == Ok(DeleteRows(t, OneOf("id", [Int(4), Int(5)])))
  {
    assert DohColumns[0] == "id";
  }

  /** Five statements that each succeed, one table state after another. */
  lemma FiveSteps(n: string, ss: seq<Stmt>, t: Table, t1: Table, t2: Table, t3: Table, t4: Table, t5: Table)
    requires |ss| == 5
    requires TableStep(n, t, ss[0]) == Ok(t1) && TableStep(n, t1, ss[1]) == Ok(t2) && TableStep(n, t2, ss[2]) == Ok(t3)
    requires TableStep(n, t3, ss[3]) == Ok(t4) && TableStep(n, t4, ss[4]) == Ok(t5)
    ensures TableRun(n, t, ss, 0) == Ok(t5)
  {
    TableRunStep(n, t, ss, 0, t1);
    TableRunStep(n, t1, ss, 1, t2);
    TableRunStep(n, t2, ss, 2, t3);
    TableRunStep(n, t3, ss, 3, t4);
    TableRunStep(n, t4, ss, 4, t5);
  }

  /** Deleting ids 4 and 5 keeps every other row where it was. */
  lemma DeleteOldIds(t: Table)
    requires t.key == ["id"] && WellFormed(t)
    ensures var t1 := DeleteRows(t, OneOf("id", [Int(4), Int(5)]));
      && t1.columns == t.columns && t1.key == t.key && t1.notNull == t.notNull
      && t1.rows.Keys <= t.rows.Keys
      && forall k | k in t.rows && k != [Int(4)] && k != [Int(5)] :: k in t1.rows && t1.rows[k] == t.rows[k]
  {
    var t1 := DeleteRows(t, OneOf("id", [Int(4), Int(5)]));
    forall k | k in t.rows && k != [Int(4)] && k != [Int(5)] ensures k in t1.rows {
      assert k == [Get(t.rows[k], "id")];
    }
  }

  /** The refresh with its four VALUES lists left abstract. */
  function Refresh(v0: seq<Value>, v1: seq<Value>, v2: seq<Value>, v3: seq<Value>): seq<Stmt> {
    RemoveRethinkFromDohList + [InsertOrReplace(DoHEndpoint, v0), InsertOrReplace(DoHEndpoint, v1),
                                InsertOrReplace(DoHEndpoint, v2), InsertOrReplace(DoHEndpoint, v3)]
  }

  /** The step's own statements are the refresh with its four endpoints filled in. */
  lemma DohRefreshIsRefresh()
    ensures DohRefresh == Refresh(AddMoreDohToList[0].values, AddMoreDohToList[1].values,
                                  AddMoreDohToList[2].values, AddMoreDohToList[3].values)
  {
  }

  /** The table the refresh leaves: ids 4 and 5 deleted, then the four rows written by id. */
  function Refreshed(t: Table, v0: seq<Value>, v1: seq<Value>, v2: seq<Value>, v3: seq<Value>): Table
    requires |v0| == |v1| == |v2| == |v3| == |DohColumns|
  {
    var t1 := DeleteRows(t, OneOf("id", [Int(4), Int(5)]));
    t1.(rows := t1.rows[[Int(4)] := DohRow(v0)][[Int(5)] := DohRow(v1)][[Int(6)] := DohRow(v2)][[Int(7)] := DohRow(v3)])
  }

  /** Upserting four complete rows with ids 4..7 after deleting ids 4 and 5 succeeds. */
  lemma RefreshAnyRun(t: Table, v0: seq<Value>, v1: seq<Value>, v2: seq<Value>, v3: seq<Value>)
    requires IsDohTable(t)
    requires Fills(v0) && Fills(v1) && Fills(v2) && Fills(v3)
    requires v0[0] == Int(4) && v1[0] == Int(5) && v2[0] == Int(6) && v3[0] == Int(7)
    ensures TableRun(DoHEndpoint, t, Refresh(v0, v1, v2, v3), 0) == Ok(Refreshed(t, v0, v1, v2, v3))
  {
    var n, ss := DoHEndpoint, Refresh(v0, v1, v2, v3);
    assert ss[0] == RemoveRethinkFromDohList[0] && ss[1] == InsertOrReplace(n, v0)
      && ss[2] == InsertOrReplace(n, v1) && ss[3] == InsertOrReplace(n, v2) && ss[4] == InsertOrReplace(n, v3) && |ss| == 5;
    var t1 := DeleteRows(t, OneOf("id", [Int(4), Int(5)]));
    DeleteOldIdsStep(t);
    var t2 := UpsertStep(t1, v0, ss[1]);
    var t3 := UpsertStep(t2, v1, ss[2]);
    var t4 := UpsertStep(t3, v2, ss[3]);
    var t5 := UpsertStep(t4, v3, ss[4]);
    FiveSteps(n, ss, t, t1, t2, t3, t4, t5);
  }

  /** One `INSERT OR REPLACE` of a complete row into DoHEndpoint, as a table step. */
  lemma UpsertStep(t: Table, vals: seq<Value>, s: Stmt) returns (t': Table)
    requires IsDohTable(t) && Fills(vals) && s == InsertOrReplace(DoHEndpoint, vals)
    ensures TableStep(DoHEndpoint, t, s) == Ok(t') && IsDohTable(t')
    ensures t' == t.(rows := t.rows[[vals[0]] := DohRow(vals)])
  {
    UpsertDoh(t, vals);
    t' := t.(rows := t.rows[[vals[0]] := DohRow(vals)]);
  }

  /** What the refreshed table holds: ids 4..7 are the four rows, every other row is kept. */
  lemma RefreshedRows(t: Table, v0: seq<Value>, v1: seq<Value>, v2: seq<Value>, v3: seq<Value>)
    requires IsDohTable(t) && WellFormed(t)
    requires |v0| == |v1| == |v2| == |v3| == |DohColumns|
    ensures var t' := Refreshed(t, v0, v1, v2, v3);
      && IsDohTable(t')
      && t'.rows.Keys == t.rows.Keys + {[Int(4)], [Int(5)], [Int(6)], [Int(7)]}
      && t'.rows[[Int(4)]] == DohRow(v0) && t'.rows[[Int(5)]] == DohRow(v1)
      && t'.rows[[Int(6)]] == DohRow(v2) && t'.rows[[Int(7)]] == DohRow(v3)
      && (forall k | k in t.rows && k !in {[Int(4)], [Int(5)], [Int(6)], [Int(7)]} :: t'.rows[k] == t.rows[k])
  {
    var t1 := DeleteRows(t, OneOf("id", [Int(4), Int(5)]));
    DeleteOldIds(t);
    FourWrites(t.rows, t1.rows, [Int(4)], [Int(5)], [Int(6)], [Int(7)], DohRow(v0), DohRow(v1), DohRow(v2), DohRow(v3));
  }

  /** After the refresh, ids 4..7 hold exactly the four new endpoints, whatever was there
      before (the old ids 4 and 5 are deleted first, ids 6 and 7 are overwritten), and every
      other endpoint is as it was. */
  lemma RefreshCatalog(t: Table)
    requires IsDohTable(t) && WellFormed(t)
    ensures TableRun(DoHEndpoint, t, DohRefresh, 0).Ok?
    ensures var t' := TableRun(DoHEndpoint, t, DohRefresh, 0).value;
      && IsDohTable(t')
      && t'.rows.Keys == t.rows.Keys + {[Int(4)], [Int(5)], [Int(6)], [Int(7)]}
      && t'.rows[[Int(4)]] == DohRow(AddMoreDohToList[0].values)
      && t'.rows[[Int(5)]] == DohRow(AddMoreDohToList[1].values)
      && t'.rows[[Int(6)]] == DohRow(AddMoreDohToList[2].values)
      && t'.rows[[Int(7)]] == DohRow(AddMoreDohToList[3].values)
      && (forall k | k in t.rows && k !in {[Int(4)], [Int(5)], [Int(6)], [Int(7)]} :: t'.rows[k] == t.rows[k])
  {
    AddMoreAreSeeds();
    DohRefreshIsRefresh();
    var v0, v1, v2, v3 := AddMoreDohToList[0].values, AddMoreDohToList[1].values, AddMoreDohToList[2].values, AddMoreDohToList[3].values;
    RefreshAnyRun(t, v0, v1, v2, v3);
    RefreshedRows(t, v0, v1, v2, v3);
  }

  /** Writing four distinct keys, two of them just cleared, into a map. */
  lemma FourWrites<K, V>(m: map<K, V>, m1: map<K, V>, a: K, b: K, c: K, d: K, va: V, vb: V, vc: V, vd: V)
    requires a != b && a != c && a != d && b != c && b != d && c != d
    requires m1.Keys <= m.Keys && forall k | k in m && k != a && k != b :: k in m1 && m1[k] == m[k]
    ensures var m' := m1[a := va][b := vb][c := vc][d := vd];
      && m'.Keys == m.Keys + {a, b, c, d}
      && m'[a] == va && m'[b] == vb && m'[c] == vc && m'[d] == vd
      && forall k | k in m && k !in {a, b, c, d} :: m'[k] == m[k]
  {
  }

  /** In the store, the refresh changes DoHEndpoint as above and nothing else. */
  lemma RefreshCatalogInStore(db: Db)
    requires DoHEndpoint in db.tables
    ensures ExecAll(db, DohRefresh) == match TableRun(DoHEndpoint, db.tables[DoHEndpoint], DohRefresh, 0)
      case Err(e) => Err(e)
      case Ok(t) => Ok(Put(db, DoHEndpoint, t))
  {
    ExecFromOnTable(db, DohRefresh, 0, DoHEndpoint);
  }

  // ---------------------------------------------------------------------------------------
  // Step 3 -> 4: the first catalog

  /** Five upserts, one per VALUES list. */
  function Seed(v1: seq<Value>, v2: seq<Value>, v3: seq<Value>, v4: seq<Value>, v5: seq<Value>): seq<Stmt> {
    [InsertOrReplace(DoHEndpoint, v1), InsertOrReplace(DoHEndpoint, v2), InsertOrReplace(DoHEndpoint, v3),
     InsertOrReplace(DoHEndpoint, v4), InsertOrReplace(DoHEndpoint, v5)]
  }

  /** The table five upserts with ids 1..5 leave. */
  function Seeded(t: Table, v1: seq<Value>, v2: seq<Value>, v3: seq<Value>, v4: seq<Value>, v5: seq<Value>): Table
    requires |v1| == |v2| == |v3| == |v4| == |v5| == |DohColumns|
  {
    t.(rows := t.rows[[Int(1)] := DohRow(v1)][[Int(2)] := DohRow(v2)][[Int(3)] := DohRow(v3)]
                     [[Int(4)] := DohRow(v4)][[Int(5)] := DohRow(v5)])
  }

  /** The five upserts, one table state after another. */
  lemma SeedChain(t: Table, t1: Table, t2: Table, t3: Table, t4: Table, t5: Table,
                  v1: seq<Value>, v2: seq<Value>, v3: seq<Value>, v4: seq<Value>, v5: seq<Value>)
    requires InsertRow(DoHEndpoint, t, v1, true) == Ok(t1)
    requires InsertRow(DoHEndpoint, t1, v2, true) == Ok(t2)
    requires InsertRow(DoHEndpoint, t2, v3, true) == Ok(t3)
    requires InsertRow(DoHEndpoint, t3, v4, true) == Ok(t4)
    requires InsertRow(DoHEndpoint, t4, v5, true) == Ok(t5)
    ensures TableRun(DoHEndpoint, t, Seed(v1, v2, v3, v4, v5), 0) == Ok(t5)
  {
    var n, ss := DoHEndpoint, Seed(v1, v2, v3, v4, v5);
    assert TableRun(n, t4, ss, 4) == Ok(t5);
    assert TableRun(n, t3, ss, 3) == Ok(t5);
    assert TableRun(n, t2, ss, 2) == Ok(t5);
    assert TableRun(n, t1, ss, 1) == Ok(t5);
  }

  /** Five complete rows with ids 1..5 are written under their ids. */
  lemma SeedRun(t: Table, v1: seq<Value>, v2: seq<Value>, v3: seq<Value>, v4: seq<Value>, v5: seq<Value>)
    requires IsDohTable(t)
    requires Fills(v1) && Fills(v2) && Fills(v3) && Fills(v4) && Fills(v5)
    requires v1[0] == Int(1) && v2[0] == Int(2) && v3[0] == Int(3) && v4[0] == Int(4) && v5[0] == Int(5)
    ensures TableRun(DoHEndpoint, t, Seed(v1, v2, v3, v4, v5), 0) == Ok(Seeded(t, v1, v2, v3, v4, v5))
  {
    UpsertDoh(t, v1);
    var t1 := t.(rows := t.rows[[Int(1)] := DohRow(v1)]);
    UpsertDoh(t1, v2);
    var t2 := t1.(rows := t1.rows[[Int(2)] := DohRow(v2)]);
    UpsertDoh(t2, v3);
    var t3 := t2.(rows := t2.rows[[Int(3)] := DohRow(v3)]);
    UpsertDoh(t3, v4);
    var t4 := t3.(rows := t3.rows[[Int(4)] := DohRow(v4)]);
    UpsertDoh(t4, v5);
    var t5 := t4.(rows := t4.rows[[Int(5)] := DohRow(v5)]);
    SeedChain(t, t1, t2, t3, t4, t5, v1, v2, v3, v4, v5);
  }

  /** The step's own seed statements are `Seed` of five complete rows with ids 1..5, of which
      only the fourth is selected. */
  lemma SeedsAreSeed()
    ensures |SeedDohEndpoints| == 5
    ensures SeedDohEndpoints == Seed(SeedDohEndpoints[0].values, SeedDohEndpoints[1].values, SeedDohEndpoints[2].values,
                                     SeedDohEndpoints[3].values, SeedDohEndpoints[4].values)
    ensures Fills(SeedDohEndpoints[0].values) && SeedDohEndpoints[0].values[0] == Int(1) && SeedDohEndpoints[0].values[4] == Int(0)
    ensures Fills(SeedDohEndpoints[1].values) && SeedDohEndpoints[1].values[0] == Int(2) && SeedDohEndpoints[1].values[4] == Int(0)
    ensures Fills(SeedDohEndpoints[2].values) && SeedDohEndpoints[2].values[0] == Int(3) && SeedDohEndpoints[2].values[4] == Int(0)
    ensures Fills(SeedDohEndpoints[3].values) && SeedDohEndpoints[3].values[0] == Int(4) && SeedDohEndpoints[3].values[4] == Int(1)
    ensures Fills(SeedDohEndpoints[4].values) && SeedDohEndpoints[4].values[0] == Int(5) && SeedDohEndpoints[4].values[4] == Int(0)
  {
  }

  /** Seeding the freshly created DoHEndpoint table leaves exactly the five endpoints, with ids
      1..5, and exactly one of them, RethinkDNS Basic (id 4), selected. */
  lemma SeedCatalog(t: Table)
    requires IsDohTable(t) && t.rows == map[]
    ensures TableRun(DoHEndpoint, t, SeedDohEndpoints, 0).Ok?
    ensures var t' := TableRun(DoHEndpoint, t, SeedDohEndpoints, 0).value;
      && IsDohTable(t')
      && t'.rows.Keys == {[Int(1)], [Int(2)], [Int(3)], [Int(4)], [Int(5)]}
      && t'.rows[[Int(1)]] == DohRow(SeedDohEndpoints[0].values)
      && t'.rows[[Int(2)]] == DohRow(SeedDohEndpoints[1].values)
      && t'.rows[[Int(3)]] == DohRow(SeedDohEndpoints[2].values)
      && t'.rows[[Int(4)]] == DohRow(SeedDohEndpoints[3].values)
      && t'.rows[[Int(5)]] == DohRow(SeedDohEndpoints[4].values)
      && (forall k | k in t'.rows :: Get(t'.rows[k], "isSelected") == Int(1) <==> k == [Int(4)])
  {
    SeedsAreSeed();
    var v1, v2, v3, v4, v5 := SeedDohEndpoints[0].values, SeedDohEndpoints[1].values, SeedDohEndpoints[2].values,
                              SeedDohEndpoints[3].values, SeedDohEndpoints[4].values;
    SeedRun(t, v1, v2, v3, v4, v5);
    SeededRows(t, v1, v2, v3, v4, v5);
  }

  /** What five upserts into an empty table leave, and which row is selected. */
  lemma SeededRows(t: Table, v1: seq<Value>, v2: seq<Value>, v3: seq<Value>, v4: seq<Value>, v5: seq<Value>)
    requires IsDohTable(t) && t.rows == map[]
    requires |v1| == |v2| == |v3| == |v4| == |v5| == |DohColumns|
    requires v1[4] == Int(0) && v2[4] == Int(0) && v3[4] == Int(0) && v4[4] == Int(1) && v5[4] == Int(0)
    ensures var t' := Seeded(t, v1, v2, v3, v4, v5);
      && IsDohTable(t')
      && t'.rows.Keys == {[Int(1)], [Int(2)], [Int(3)], [Int(4)], [Int(5)]}
      && t'.rows[[Int(1)]] == DohRow(v1) && t'.rows[[Int(2)]] == DohRow(v2) && t'.rows[[Int(3)]] == DohRow(v3)
      && t'.rows[[Int(4)]] == DohRow(v4) && t'.rows[[Int(5)]] == DohRow(v5)
      && (forall k | k in t'.rows :: Get(t'.rows[k], "isSelected") == Int(1) <==> k == [Int(4)])
  {
    var r1, r2, r3, r4, r5 := DohRow(v1), DohRow(v2), DohRow(v3), DohRow(v4), DohRow(v5);
    DohRowAt(v1, 4);
    DohRowAt(v2, 4);
    DohRowAt(v3, 4);
    DohRowAt(v4, 4);
    DohRowAt(v5, 4);
    FiveWrites(t.rows, [Int(1)], [Int(2)], [Int(3)], [Int(4)], [Int(5)], r1, r2, r3, r4, r5);
    OnlyFourthSelected(Seeded(t, v1, v2, v3, v4, v5).rows, r1, r2, r3, r4, r5);
  }

  /** Of five rows under ids 1..5, only the one with isSelected = 1 is selected. */
  lemma OnlyFourthSelected(m: map<Key, Row>, r1: Row, r2: Row, r3: Row, r4: Row, r5: Row)
    requires m.Keys == {[Int(1)], [Int(2)], [Int(3)], [Int(4)], [Int(5)]}
    requires m[[Int(1)]] == r1 && m[[Int(2)]] == r2 && m[[Int(3)]] == r3 && m[[Int(4)]] == r4 && m[[Int(5)]] == r5
    requires Get(r1, "isSelected") == Int(0) && Get(r2, "isSelected") == Int(0) && Get(r3, "isSelected") == Int(0)
    requires Get(r4, "isSelected") == Int(1) && Get(r5, "isSelected") == Int(0)
    ensures forall k | k in m :: Get(m[k], "isSelected") == Int(1) <==> k == [Int(4)]
  {
    forall k | k in m ensures Get(m[k], "isSelected") == Int(1) <==> k == [Int(4)] {
      if k == [Int(1)] {
      } else if k == [Int(2)] {
      } else if k == [Int(3)] {
      } else if k == [Int(4)] {
      } else {
        assert k == [Int(5)];
      }
    }
  }

  /** Writing five distinct keys into an empty map. */
  lemma FiveWrites<K, V>(m: map<K, V>, a: K, b: K, c: K, d: K, e: K, va: V, vb: V, vc: V, vd: V, ve: V)
    requires m == map[]
    requires a != b && a != c && a != d && a != e && b != c && b != d && b != e && c != d && c != e && d != e
    ensures var m' := m[a := va][b := vb][c := vc][d := vd][e := ve];
      && m'.Keys == {a, b, c, d, e}
      && m'[a] == va && m'[b] == vb && m'[c] == vc && m'[d] == vd && m'[e] == ve
  {
  }

  /** In the store, the seed statements change DoHEndpoint as above and nothing else. */
  lemma SeedCatalogInStore(db: Db)
    requires DoHEndpoint in db.tables
    ensures ExecAll(db, SeedDohEndpoints) == match TableRun(DoHEndpoint, db.tables[DoHEndpoint], SeedDohEndpoints, 0)
      case Err(e) => Err(e)
      case Ok(t) => Ok(Put(db, DoHEndpoint, t))
  {
    ExecFromOnTable(db, SeedDohEndpoints, 0, DoHEndpoint);
  }
}
