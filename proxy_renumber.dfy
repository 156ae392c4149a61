/** Step 11 -> 12's `addNetworkDns`: the DNS proxy endpoints with ids 1..3 move up by one,
    highest first, and the "Network DNS" resolver takes id 1. */
module ProxyRenumber {
  import opened Results
  import opened Sql
  import opened Migrations

  /** The DNSProxyEndpoint schema created in step 3 -> 4. */
  predicate IsDnsProxyTable(t: Table) {
    t.columns == DnsProxyColumns && t.key == ["id"] && t.notNull == DnsProxyNotNull
  }

  /** `UPDATE ... SET id = b WHERE id = a` on rows filed by id: the row with id `a`, if any,
      moves to key `b` with its id rewritten; every other row stays. */
  function Rekeyed(m: map<Key, Row>, a: int, b: int): map<Key, Row> {
    if [Int(a)] in m then (m - {[Int(a)]})[[Int(b)] := m[[Int(a)]]["id" := Int(b)]] else m
  }

  /** The key a row with id `a` moves to, every other key staying. */
  function Moved(k: Key, a: int, b: int): Key {
    if k == [Int(a)] then [Int(b)] else k
  }

  /** In a table keyed by id, a row's key is its id. */
  lemma IdIsKey(t: Table, k: Key)
    requires t.key == ["id"] && WellFormed(t) && k in t.rows
    ensures k == [Get(t.rows[k], "id")]
  {
    assert KeyOf(t.key, t.rows[k]) == k;
  }

  /** `WHERE id = a` matches exactly the row filed under `[a]`, which the update files under `[b]`. */
  lemma UpdatedKey(t: Table, a: int, b: int, k: Key)
    requires t.key == ["id"] && WellFormed(t) && k in t.rows
    ensures Holds(ById(a), t.rows[k]) <==> k == [Int(a)]
    ensures UpdatedRow(t, ById(a), SetTo("id", Int(b)), k) == if k == [Int(a)] then t.rows[k]["id" := Int(b)] else t.rows[k]
    ensures KeyOf(t.key, UpdatedRow(t, ById(a), SetTo("id", Int(b)), k)) == Moved(k, a, b)
  {
    IdIsKey(t, k);
    AssignOne(t.rows[k], "id", Int(b));
  }

  /** Moving one id keeps keys unique exactly when the target id is free or the source id absent. */
  lemma RekeyUnique(t: Table, a: int, b: int)
    requires t.key == ["id"] && WellFormed(t) && a != b
    ensures UpdateKeepsKeysUnique(t, ById(a), SetTo("id", Int(b))) <==> !([Int(a)] in t.rows && [Int(b)] in t.rows)
  {
    var cond, sets := ById(a), SetTo("id", Int(b));
    if [Int(a)] in t.rows && [Int(b)] in t.rows {
      UpdatedKey(t, a, b, [Int(a)]);
      UpdatedKey(t, a, b, [Int(b)]);
      assert [Int(a)] != [Int(b)];
    } else {
      forall k1, k2 | k1 in t.rows && k2 in t.rows && k1 != k2
        ensures KeyOf(t.key, UpdatedRow(t, cond, sets, k1)) != KeyOf(t.key, UpdatedRow(t, cond, sets, k2))
      {
        UpdatedKey(t, a, b, k1);
        UpdatedKey(t, a, b, k2);
      }
    }
  }

  /** Every row is found under its moved key. */
  lemma RekeyRowsFrom(t: Table, a: int, b: int, k: Key)
    requires t.key == ["id"] && WellFormed(t) && a != b && k in t.rows
    requires UpdateKeepsKeysUnique(t, ById(a), SetTo("id", Int(b)))
    ensures Moved(k, a, b) in UpdatedRows(t, ById(a), SetTo("id", Int(b)))
    ensures UpdatedRows(t, ById(a), SetTo("id", Int(b)))[Moved(k, a, b)] == UpdatedRow(t, ById(a), SetTo("id", Int(b)), k)
  {
    UpdatedKey(t, a, b, k);
  }

  /** Every updated row is the moved row, or a row that did not move. */
  lemma RekeyRowsInto(t: Table, a: int, b: int, k': Key)
    requires t.key == ["id"] && WellFormed(t) && a != b
    requires UpdateKeepsKeysUnique(t, ById(a), SetTo("id", Int(b)))
    requires k' in UpdatedRows(t, ById(a), SetTo("id", Int(b)))
    ensures k' in Rekeyed(t.rows, a, b) && UpdatedRows(t, ById(a), SetTo("id", Int(b)))[k'] == Rekeyed(t.rows, a, b)[k']
  {
    var cond, sets := ById(a), SetTo("id", Int(b));
    var k :| k in t.rows && KeyOf(t.key, UpdatedRow(t, cond, sets, k)) == k';
    UpdatedKey(t, a, b, k);
    RekeyRowsFrom(t, a, b, k);
  }

  /** The updated rows are the rows with one id moved. */
  lemma RekeyRows(t: Table, a: int, b: int)
    requires t.key == ["id"] && WellFormed(t) && a != b
    requires UpdateKeepsKeysUnique(t, ById(a), SetTo("id", Int(b)))
    ensures UpdatedRows(t, ById(a), SetTo("id", Int(b))) == Rekeyed(t.rows, a, b)
  {
    RekeyRowsWithin(t, a, b);
    RekeyRowsCover(t, a, b);
    SameMap(UpdatedRows(t, ById(a), SetTo("id", Int(b))), Rekeyed(t.rows, a, b));
  }

  lemma RekeyRowsWithin(t: Table, a: int, b: int)
    requires t.key == ["id"] && WellFormed(t) && a != b
    requires UpdateKeepsKeysUnique(t, ById(a), SetTo("id", Int(b)))
    ensures var u, m := UpdatedRows(t, ById(a), SetTo("id", Int(b))), Rekeyed(t.rows, a, b);
      forall k' | k' in u :: k' in m && u[k'] == m[k']
  {
    forall k' | k' in UpdatedRows(t, ById(a), SetTo("id", Int(b)))
      ensures k' in Rekeyed(t.rows, a, b) && UpdatedRows(t, ById(a), SetTo("id", Int(b)))[k'] == Rekeyed(t.rows, a, b)[k']
    {
      RekeyRowsInto(t, a, b, k');
    }
  }

  lemma RekeyRowsCover(t: Table, a: int, b: int)
    requires t.key == ["id"] && WellFormed(t) && a != b
    requires UpdateKeepsKeysUnique(t, ById(a), SetTo("id", Int(b)))
    ensures var u, m := UpdatedRows(t, ById(a), SetTo("id", Int(b))), Rekeyed(t.rows, a, b);
      forall k' | k' in m :: k' in u
  {
    forall k' | k' in Rekeyed(t.rows, a, b) ensures k' in UpdatedRows(t, ById(a), SetTo("id", Int(b))) {
      if k' == [Int(b)] && [Int(a)] in t.rows {
        RekeyRowsFrom(t, a, b, [Int(a)]);
      } else {
        assert k' in t.rows && Moved(k', a, b) == k';
        RekeyRowsFrom(t, a, b, k');
      }
    }
  }

  /** `UPDATE t SET id = b WHERE id = a` on a sound table keyed by id: it fails exactly when both
      ids are taken; otherwise it moves the row with id `a`, if any, to id `b`, keeping the table
      sound, and leaves every other row as it was. */
  lemma Rekey(name: string, t: Table, a: int, b: int)
    requires Sound(t) && t.key == ["id"] && "id" in t.columns && a != b
    ensures UpdateRows(name, t, ById(a), SetTo("id", Int(b))).Ok? <==> !([Int(a)] in t.rows && [Int(b)] in t.rows)
    ensures UpdateRows(name, t, ById(a), SetTo("id", Int(b))).Ok? ==>
      UpdateRows(name, t, ById(a), SetTo("id", Int(b))).value == t.(rows := Rekeyed(t.rows, a, b))
    ensures Sound(t.(rows := Rekeyed(t.rows, a, b)))
  {
    RekeyUnique(t, a, b);
    if !([Int(a)] in t.rows && [Int(b)] in t.rows) {
      RekeyNullFree(t, a, b);
      UpdateRowsOk(name, t, ById(a), SetTo("id", Int(b)));
      RekeyRows(t, a, b);
    }
    RekeyedSound(t, a, b);
  }

  /** Setting a non-null id keeps every NOT NULL column filled. */
  lemma RekeyNullFree(t: Table, a: int, b: int)
    requires Sound(t)
    ensures forall k | k in t.rows && Holds(ById(a), t.rows[k]) :: NullFree(t, Assign(t.rows[k], SetTo("id", Int(b))))
  {
    forall k | k in t.rows && Holds(ById(a), t.rows[k]) ensures NullFree(t, Assign(t.rows[k], SetTo("id", Int(b)))) {
      AssignOne(t.rows[k], "id", Int(b));
      assert NullFree(t, t.rows[k]);
    }
  }

  /** Moving one id keeps a sound table sound. */
  lemma RekeyedSound(t: Table, a: int, b: int)
    requires Sound(t) && t.key == ["id"]
    ensures Sound(t.(rows := Rekeyed(t.rows, a, b)))
  {
    var t' := t.(rows := Rekeyed(t.rows, a, b));
    if [Int(a)] in t.rows {
      var r := t.rows[[Int(a)]];
      assert NullFree(t, r);
      assert KeyOf(t.key, r["id" := Int(b)]) == [Int(b)];
      forall k | k in t'.rows ensures KeyOf(t'.key, t'.rows[k]) == k && NullFree(t', t'.rows[k]) {
        if k != [Int(b)] {
          assert t'.rows[k] == t.rows[k];
        }
      }
    }
  }

  // ---------------------------------------------------------------------------------------
  // The four statements

  /** The row a VALUES list makes in DNSProxyEndpoint. */
  function ProxyRow(vals: seq<Value>): Row
    requires |vals| == |DnsProxyColumns|
  {
    Build(DnsProxyColumns, Literals(vals), map[])
  }

  /** The rows after the three moves, highest id first. */
  function Shifted(m: map<Key, Row>): map<Key, Row> {
    Rekeyed(Rekeyed(Rekeyed(m, 3, 4), 2, 3), 1, 2)
  }

  /** The three updates and an insert of `vals`. */
  function Renumbering(vals: seq<Value>): seq<Stmt> {
    [UpdateWhere(DnsProxyEndpoint, ById(3), SetTo("id", Int(4))),
     UpdateWhere(DnsProxyEndpoint, ById(2), SetTo("id", Int(3))),
     UpdateWhere(DnsProxyEndpoint, ById(1), SetTo("id", Int(2))),
     Insert(DnsProxyEndpoint, vals)]
  }

  /** The step's own statements insert the network resolver. */
  lemma AddNetworkDnsIsRenumbering()
    ensures AddNetworkDns == Renumbering(NetworkDns)
  {
  }

  /** A complete DNSProxyEndpoint VALUES list with id 1. */
  predicate FirstEntry(vals: seq<Value>) {
    |vals| == |DnsProxyColumns| && vals[0] == Int(1) && forall i | 0 <= i < |vals| :: vals[i] != Null
  }

  lemma ProxyColumnsDistinct()
    ensures Distinct(DnsProxyColumns) && forall c | c in DnsProxyNotNull :: c in DnsProxyColumns
  {
  }

  /** Each column of a DNSProxyEndpoint row holds the value at its position in the VALUES list. */
  lemma ProxyRowAt(vals: seq<Value>, i: nat)
    requires |vals| == |DnsProxyColumns| && i < |vals|
    ensures Get(ProxyRow(vals), DnsProxyColumns[i]) == vals[i]
  {
    ProxyColumnsDistinct();
    BuildLiteralsAt(DnsProxyColumns, vals, i);
  }

  /** Each of the three updates moves one id up by one. */
  lemma MoveStep(t: Table, s: Stmt, a: int, b: int)
    requires s == UpdateWhere(DnsProxyEndpoint, ById(a), SetTo("id", Int(b))) && a != b
    requires Sound(t) && t.key == ["id"] && "id" in t.columns && !([Int(a)] in t.rows && [Int(b)] in t.rows)
    ensures TableStep(DnsProxyEndpoint, t, s) == Ok(t.(rows := Rekeyed(t.rows, a, b)))
    ensures Sound(t.(rows := Rekeyed(t.rows, a, b))) && [Int(a)] !in Rekeyed(t.rows, a, b)
  {
    Rekey(DnsProxyEndpoint, t, a, b);
  }

  /** Inserting the entry into a table whose id 1 is free files it under id 1. */
  lemma InsertFirst(t: Table, vals: seq<Value>, s: Stmt)
    requires IsDnsProxyTable(t) && [Int(1)] !in t.rows && FirstEntry(vals) && s == Insert(DnsProxyEndpoint, vals)
    ensures TableStep(DnsProxyEndpoint, t, s) == Ok(t.(rows := t.rows[[Int(1)] := ProxyRow(vals)]))
  {
    ProxyColumnsDistinct();
    InsertKeyedByFirst(DnsProxyEndpoint, t, vals, s);
  }

  /** The row `addNetworkDns` files under id 1: "Network DNS", an external resolver on port 53
      that is not selected. */
  lemma NetworkDnsRow()
    ensures Get(ProxyRow(NetworkDns), "id") == Int(1)
    ensures Get(ProxyRow(NetworkDns), "proxyName") == Text("Network DNS")
    ensures Get(ProxyRow(NetworkDns), "proxyType") == Text("External")
    ensures Get(ProxyRow(NetworkDns), "proxyPort") == Int(53)
    ensures Get(ProxyRow(NetworkDns), "isSelected") == Int(0)
  {
    ProxyRowAt(NetworkDns, 0);
    ProxyRowAt(NetworkDns, 1);
    ProxyRowAt(NetworkDns, 2);
    ProxyRowAt(NetworkDns, 5);
    ProxyRowAt(NetworkDns, 6);
  }

  /** The four statements, one table state after another. */
  lemma RenumberRun(t: Table, t1: Table, t2: Table, t3: Table, t4: Table, vals: seq<Value>)
    requires TableStep(DnsProxyEndpoint, t, Renumbering(vals)[0]) == Ok(t1)
    requires TableStep(DnsProxyEndpoint, t1, Renumbering(vals)[1]) == Ok(t2)
    requires TableStep(DnsProxyEndpoint, t2, Renumbering(vals)[2]) == Ok(t3)
    requires TableStep(DnsProxyEndpoint, t3, Renumbering(vals)[3]) == Ok(t4)
    ensures TableRun(DnsProxyEndpoint, t, Renumbering(vals), 0) == Ok(t4)
  {
    var n, ss := DnsProxyEndpoint, Renumbering(vals);
    assert TableRun(n, t3, ss, 3) == Ok(t4);
    assert TableRun(n, t2, ss, 2) == Ok(t4);
    assert TableRun(n, t1, ss, 1) == Ok(t4);
  }

  /** With id 3 or id 4 free, the four statements succeed. */
  lemma RenumberOk(t: Table, vals: seq<Value>)
    requires IsDnsProxyTable(t) && Sound(t) && !([Int(3)] in t.rows && [Int(4)] in t.rows) && FirstEntry(vals)
    ensures TableRun(DnsProxyEndpoint, t, Renumbering(vals), 0) == Ok(t.(rows := Shifted(t.rows)[[Int(1)] := ProxyRow(vals)]))
  {
    var ss := Renumbering(vals);
    MoveStep(t, ss[0], 3, 4);
    var t1 := t.(rows := Rekeyed(t.rows, 3, 4));
    MoveStep(t1, ss[1], 2, 3);
    var t2 := t1.(rows := Rekeyed(t1.rows, 2, 3));
    MoveStep(t2, ss[2], 1, 2);
    var t3 := t2.(rows := Rekeyed(t2.rows, 1, 2));
    InsertFirst(t3, vals, ss[3]);
    RenumberRun(t, t1, t2, t3, t3.(rows := t3.rows[[Int(1)] := ProxyRow(vals)]), vals);
  }

  /** With ids 3 and 4 both taken, the first update fails and so does the run. */
  lemma RenumberFails(t: Table, vals: seq<Value>)
    requires Sound(t) && t.key == ["id"] && "id" in t.columns && [Int(3)] in t.rows && [Int(4)] in t.rows
    ensures TableRun(DnsProxyEndpoint, t, Renumbering(vals), 0).Err?
  {
    var ss := Renumbering(vals);
    FirstMoveFails(t, ss[0]);
    TableRunStops(DnsProxyEndpoint, t, ss, 0);
  }

  /** Moving id 3 to id 4 while both are taken breaks the primary key. */
  lemma FirstMoveFails(t: Table, s: Stmt)
    requires s == UpdateWhere(DnsProxyEndpoint, ById(3), SetTo("id", Int(4)))
    requires Sound(t) && t.key == ["id"] && "id" in t.columns && [Int(3)] in t.rows && [Int(4)] in t.rows
    ensures TableStep(DnsProxyEndpoint, t, s).Err?
  {
    Rekey(DnsProxyEndpoint, t, 3, 4);
  }

  /** `addNetworkDns` on a sound DNSProxyEndpoint table: it fails exactly when ids 3 and 4 are
      both taken; otherwise ids 1..3 move up by one and id 1 then holds the network resolver. */
  lemma AddNetworkDnsRun(t: Table)
    requires IsDnsProxyTable(t) && Sound(t)
    ensures TableRun(DnsProxyEndpoint, t, AddNetworkDns, 0).Ok? <==> !([Int(3)] in t.rows && [Int(4)] in t.rows)
    ensures TableRun(DnsProxyEndpoint, t, AddNetworkDns, 0).Ok? ==>
      TableRun(DnsProxyEndpoint, t, AddNetworkDns, 0).value == t.(rows := Shifted(t.rows)[[Int(1)] := ProxyRow(NetworkDns)])
  {
    AddNetworkDnsIsRenumbering();
    if [Int(3)] in t.rows && [Int(4)] in t.rows {
      RenumberFails(t, NetworkDns);
    } else {
      RenumberOk(t, NetworkDns);
    }
  }
}
