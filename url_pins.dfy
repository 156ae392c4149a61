/** Steps 6 -> 7, 8 -> 9 and 9 -> 10 repoint DoH endpoints chosen by id: each statement is
    `UPDATE DoHEndpoint SET dohURL = '...' WHERE id = n`. */
module UrlPins {
  import opened Results
  import opened Sql
  import opened Migrations
  import opened DohCatalog

  /** `UPDATE DoHEndpoint SET dohURL = url WHERE id = id`. */
  function Pin(id: int, url: string): Stmt {
    UpdateWhere(DoHEndpoint, ById(id), SetTo("dohURL", Text(url)))
  }

  /** The endpoints after repointing id `id` at `url`: the endpoint with that id, if there is
      one, has the new URL and every column else as before; every other endpoint is kept. */
  function Repointed(m: map<Key, Row>, id: int, url: string): map<Key, Row> {
    if [Int(id)] in m then m[[Int(id)] := m[[Int(id)]]["dohURL" := Text(url)]] else m
  }

  /** The three steps are pins of the default endpoint (id 4) and, in 6 -> 7, of Cloudflare
      Security (id 3). */
  lemma StepsArePins()
    ensures Migration6To7 == [Pin(3, "https://security.cloudflare-dns.com/dns-query"),
                              Pin(4, "https://basic.bravedns.com/1:YBcgAIAQIAAIAABgIAA=")]
    ensures Migration8To9 == [Pin(4, "https://basic.bravedns.com/1:YASAAQBwIAA=")]
    ensures Migration9To10 == [Pin(4, "https://basic.bravedns.com/1:IAAgAA==")]
  {
  }

  /** `WHERE id = n` matches exactly the endpoint filed under `[n]`. */
  lemma ByIdMatchesKey(t: Table, id: int, k: Key)
    requires t.key == ["id"] && WellFormed(t) && k in t.rows
    ensures Holds(ById(id), t.rows[k]) <==> k == [Int(id)]
  {
    assert KeyOf(t.key, t.rows[k]) == k;
    assert k == [Get(t.rows[k], "id")];
  }

  /** A pin on a sound table keyed by id with a `dohURL` column always succeeds, leaves the
      rows `Repointed` says, and keeps the table sound. */
  lemma PinStep(t: Table, id: int, url: string)
    requires t.key == ["id"] && "id" in t.columns && "dohURL" in t.columns && Sound(t)
    ensures TableStep(DoHEndpoint, t, Pin(id, url)) == Ok(t.(rows := Repointed(t.rows, id, url)))
    ensures Sound(t.(rows := Repointed(t.rows, id, url)))
  {
    PinRows(t, id, url);
    RepointedSound(t, id, url);
  }

  /** Without an `id` or a `dohURL` column the pin fails. */
  lemma PinRefused(t: Table, id: int, url: string)
    requires !("id" in t.columns && "dohURL" in t.columns)
    ensures TableStep(DoHEndpoint, t, Pin(id, url)) == Err(NoSuchColumn(DoHEndpoint))
  {
    if "dohURL" in t.columns {
      assert !CondResolves(ById(id), t.columns);
    } else {
      assert !SetsResolve(SetTo("dohURL", Text(url)), t.columns);
    }
  }

  /** The UPDATE itself: no row can break a constraint, and the rows become `Repointed`. */
  lemma PinRows(t: Table, id: int, url: string)
    requires t.key == ["id"] && "id" in t.columns && "dohURL" in t.columns && Sound(t)
    ensures UpdateRows(DoHEndpoint, t, ById(id), SetTo("dohURL", Text(url))) == Ok(t.(rows := Repointed(t.rows, id, url)))
  {
    var cond, sets := ById(id), SetTo("dohURL", Text(url));
    forall k | k in t.rows && Holds(cond, t.rows[k]) ensures NullFree(t, Assign(t.rows[k], sets)) {
      AssignOne(t.rows[k], "dohURL", Text(url));
      assert NullFree(t, t.rows[k]);
    }
    OffKeyAssignKeepsKeys(t, cond, sets);
    UpdatedRowsKeys(t, cond, sets);
    UpdateRowsOk(DoHEndpoint, t, cond, sets);
    var u := UpdatedRows(t, cond, sets);
    var m := Repointed(t.rows, id, url);
    assert m.Keys == t.rows.Keys;
    forall k | k in u ensures k in m && u[k] == m[k] {
      PinRowAt(t, id, url, k);
    }
    SameMap(u, m);
  }

  /** The endpoint filed under `k` after the UPDATE is the one `Repointed` files there. */
  lemma PinRowAt(t: Table, id: int, url: string, k: Key)
    requires t.key == ["id"] && WellFormed(t) && k in t.rows
    ensures UpdateKeepsKeysUnique(t, ById(id), SetTo("dohURL", Text(url)))
    ensures k in UpdatedRows(t, ById(id), SetTo("dohURL", Text(url))) && k in Repointed(t.rows, id, url)
    ensures UpdatedRows(t, ById(id), SetTo("dohURL", Text(url)))[k] == Repointed(t.rows, id, url)[k]
  {
    var cond, sets := ById(id), SetTo("dohURL", Text(url));
    OffKeyAssignKeepsKeys(t, cond, sets);
    UpdatedRowsAt(t, cond, sets, k);
    ByIdMatchesKey(t, id, k);
    AssignOne(t.rows[k], "dohURL", Text(url));
  }

  /** Repointing keeps every endpoint under its id and every NOT NULL column filled. */
  lemma RepointedSound(t: Table, id: int, url: string)
    requires t.key == ["id"] && Sound(t)
    ensures Sound(t.(rows := Repointed(t.rows, id, url)))
  {
    var m := Repointed(t.rows, id, url);
    forall k | k in m ensures KeyOf(t.key, m[k]) == k && NullFree(t, m[k]) {
      assert NullFree(t, t.rows[k]);
      assert KeyOf(t.key, t.rows[k]) == k;
      KeyOfAgrees(t.key, m[k], t.rows[k]);
    }
  }

  lemma DohColumnsHaveUrl()
    ensures "id" in DohColumns && "dohURL" in DohColumns
  {
    assert DohColumns[0] == "id" && DohColumns[2] == "dohURL";
  }

  /** In the store, a run of pins changes DoHEndpoint alone, one `Repointed` after another. */
  lemma PinsInStore(db: Db, ss: seq<Stmt>, i: nat)
    requires DoHEndpoint in db.tables && forall j | i <= j < |ss| :: OnTable(ss[j], DoHEndpoint)
    ensures ExecFrom(db, ss, i) == match TableRun(DoHEndpoint, db.tables[DoHEndpoint], ss, i)
      case Err(e) => Err(e)
      case Ok(t) => Ok(Put(db, DoHEndpoint, t))
  {
    ExecFromOnTable(db, ss, i, DoHEndpoint);
  }

  /** Pinning the same id twice leaves the second URL: only the last pin of an id matters. */
  lemma LaterPinWins(m: map<Key, Row>, id: int, u1: string, u2: string)
    ensures Repointed(Repointed(m, id, u1), id, u2) == Repointed(m, id, u2)
  {
    if [Int(id)] in m {
      assert m[[Int(id)]]["dohURL" := Text(u1)]["dohURL" := Text(u2)] == m[[Int(id)]]["dohURL" := Text(u2)];
    }
  }

  /** Pins of two different ids commute. */
  lemma PinsCommute(m: map<Key, Row>, a: int, b: int, ua: string, ub: string)
    requires a != b
    ensures Repointed(Repointed(m, a, ua), b, ub) == Repointed(Repointed(m, b, ub), a, ua)
  {
    assert [Int(a)] != [Int(b)];
  }

  /** Steps 8 -> 9 and 9 -> 10 (and each pin of 6 -> 7): on a sound catalog one pin succeeds
      and changes only the DoH URL of the endpoint with that id, the store otherwise unchanged;
      without the catalog table the step fails. */
  lemma OnePinRun(db: Db, id: int, url: string)
    ensures DoHEndpoint !in db.tables ==> ExecAll(db, [Pin(id, url)]) == Err(NoSuchTable(DoHEndpoint))
    ensures DoHEndpoint in db.tables && IsDohTable(db.tables[DoHEndpoint]) && Sound(db.tables[DoHEndpoint]) ==>
      var t := db.tables[DoHEndpoint];
      ExecAll(db, [Pin(id, url)]) == Ok(Put(db, DoHEndpoint, t.(rows := Repointed(t.rows, id, url))))
  {
    if DoHEndpoint in db.tables && IsDohTable(db.tables[DoHEndpoint]) && Sound(db.tables[DoHEndpoint]) {
      var t := db.tables[DoHEndpoint];
      DohColumnsHaveUrl();
      PinStep(t, id, url);
      PinsInStore(db, [Pin(id, url)], 0);
      assert TableRun(DoHEndpoint, t.(rows := Repointed(t.rows, id, url)), [Pin(id, url)], 1)
        == Ok(t.(rows := Repointed(t.rows, id, url)));
    }
  }

  /** Step 6 -> 7: two pins in a row; the catalog ends with both endpoints repointed. */
  lemma TwoPinsRun(db: Db, a: int, ua: string, b: int, ub: string)
    ensures DoHEndpoint !in db.tables ==> ExecAll(db, [Pin(a, ua), Pin(b, ub)]) == Err(NoSuchTable(DoHEndpoint))
    ensures DoHEndpoint in db.tables && IsDohTable(db.tables[DoHEndpoint]) && Sound(db.tables[DoHEndpoint]) ==>
      var t := db.tables[DoHEndpoint];
      ExecAll(db, [Pin(a, ua), Pin(b, ub)]) == Ok(Put(db, DoHEndpoint, t.(rows := Repointed(Repointed(t.rows, a, ua), b, ub))))
  {
    if DoHEndpoint in db.tables && IsDohTable(db.tables[DoHEndpoint]) && Sound(db.tables[DoHEndpoint]) {
      var ss := [Pin(a, ua), Pin(b, ub)];
      var t := db.tables[DoHEndpoint];
      DohColumnsHaveUrl();
      PinStep(t, a, ua);
      var t1 := t.(rows := Repointed(t.rows, a, ua));
      PinStep(t1, b, ub);
      var t2 := t1.(rows := Repointed(t1.rows, b, ub));
      PinsInStore(db, ss, 0);
      assert TableRun(DoHEndpoint, t2, ss, 2) == Ok(t2);
      assert TableRun(DoHEndpoint, t1, ss, 1) == Ok(t2);
    }
  }
}
