/** Step 11 -> 12 rewrites every DoH endpoint URL from the old domain to the new one. */
module DohRewrite {
  import opened Results
  import opened Strings
  import opened Sql
  import opened Migrations

  const OldDomain := "bravedns"
  const NewDomain := "rethinkdns"

  /** The rewrite statement of step 11 -> 12. */
  const RewriteUrls: Stmt := RetireViewsAndRewriteUrls[2]

  /** What the rewrite makes of one URL value: text has every occurrence of the old domain
      replaced; NULL and non-text values are left alone. */
  function RewrittenUrl(v: Value): Value {
    if v.Text? then Text(ReplaceAll(v.s, OldDomain, NewDomain)) else v
  }

  /** "rethinkdns" contains no 'b' and no proper suffix of "bravedns" can be read at its start. */
  lemma NewDomainIsClean()
    ensures |OldDomain| > 0 && OldDomain[0] !in NewDomain
    ensures NoTailOverlap(OldDomain, NewDomain)
  {
    forall m | 1 <= m < |OldDomain| ensures DisagreesWithTail(OldDomain, NewDomain, m) {
      if m == 1 {
        assert NewDomain[1] != OldDomain[m..][1];
      } else {
        assert NewDomain[0] != OldDomain[m..][0];
      }
    }
  }

  /** A URL the rewrite produced no longer mentions the old domain. */
  lemma RewrittenUrlIsClean(v: Value)
    ensures RewrittenUrl(v).Text? && v.Text? ==> !Occurs(OldDomain, RewrittenUrl(v).s)
  {
    NewDomainIsClean();
    if v.Text? {
      ReplaceAllLeavesNoPattern(v.s, OldDomain, NewDomain);
    }
  }

  /** A URL without the old domain is left exactly as it was. */
  lemma CleanUrlUnchanged(v: Value)
    requires v.Text? ==> !Occurs(OldDomain, v.s)
    ensures RewrittenUrl(v) == v
  {
    if v.Text? {
      ReplaceAllWithoutPattern(v.s, OldDomain, NewDomain);
    }
  }

  const UrlSets: map<string, Expr> := map["dohURL" := ReplaceIn("dohURL", OldDomain, NewDomain)]

  /** The rewrite statement is an UPDATE of every DoHEndpoint row. */
  lemma RewriteUrlsIsUpdate(db: Db)
    requires DoHEndpoint in db.tables
    ensures RewriteUrls == UpdateWhere(DoHEndpoint, Always, UrlSets)
    ensures ExecStmt(db, RewriteUrls) ==
      var t :- UpdateRows(DoHEndpoint, db.tables[DoHEndpoint], Always, UrlSets); Ok(Put(db, DoHEndpoint, t))
  {
  }

  /** The rewrite keeps every row under its id, changes its `dohURL` as `RewrittenUrl` says,
      leaves every other column alone, and leaves no URL mentioning the old domain. */
  lemma RewriteEveryUrl(db: Db)
    requires DoHEndpoint in db.tables
    requires var t := db.tables[DoHEndpoint];
      && WellFormed(t) && "dohURL" in t.columns && "dohURL" !in t.key
      && forall k | k in t.rows :: NullFree(t, t.rows[k])
    ensures ExecStmt(db, RewriteUrls).Ok?
    ensures var t := db.tables[DoHEndpoint];
      var t' := ExecStmt(db, RewriteUrls).value.tables[DoHEndpoint];
      && t'.columns == t.columns && t'.key == t.key && t'.notNull == t.notNull
      && t'.rows.Keys == t.rows.Keys
      && (forall k | k in t.rows :: Get(t'.rows[k], "dohURL") == RewrittenUrl(Get(t.rows[k], "dohURL")))
      && (forall k, c | k in t.rows && c != "dohURL" :: Get(t'.rows[k], c) == Get(t.rows[k], c))
      && (forall k | k in t.rows && Get(t'.rows[k], "dohURL").Text? :: !Occurs(OldDomain, Get(t'.rows[k], "dohURL").s))
  {
    RewriteUrlsIsUpdate(db);
    RewriteTable(db.tables[DoHEndpoint]);
  }

  lemma RewriteTable(t: Table)
    requires WellFormed(t) && "dohURL" in t.columns && "dohURL" !in t.key
    requires forall k | k in t.rows :: NullFree(t, t.rows[k])
    ensures UpdateRows(DoHEndpoint, t, Always, UrlSets).Ok?
    ensures var t' := UpdateRows(DoHEndpoint, t, Always, UrlSets).value;
      && t'.columns == t.columns && t'.key == t.key && t'.notNull == t.notNull
      && t'.rows.Keys == t.rows.Keys
      && (forall k | k in t.rows :: Get(t'.rows[k], "dohURL") == RewrittenUrl(Get(t.rows[k], "dohURL")))
      && (forall k, c | k in t.rows && c != "dohURL" :: Get(t'.rows[k], c) == Get(t.rows[k], c))
      && (forall k | k in t.rows && Get(t'.rows[k], "dohURL").Text? :: !Occurs(OldDomain, Get(t'.rows[k], "dohURL").s))
  {
    forall k | k in t.rows ensures NullFree(t, Assign(t.rows[k], UrlSets)) {
      AssignUrlKeepsOthers(t.rows[k]);
    }
    UpdateOffKey(DoHEndpoint, t, Always, UrlSets);
    var t' := UpdateRows(DoHEndpoint, t, Always, UrlSets).value;
    forall k | k in t.rows
      ensures Get(t'.rows[k], "dohURL") == RewrittenUrl(Get(t.rows[k], "dohURL"))
      ensures forall c | c != "dohURL" :: Get(t'.rows[k], c) == Get(t.rows[k], c)
      ensures Get(t'.rows[k], "dohURL").Text? ==> !Occurs(OldDomain, Get(t'.rows[k], "dohURL").s)
    {
      AssignUrlKeepsOthers(t.rows[k]);
      RewrittenUrlIsClean(Get(t.rows[k], "dohURL"));
    }
  }

  /** Assigning the rewritten URL to a row changes only `dohURL`, and keeps it non-NULL. */
  lemma AssignUrlKeepsOthers(r: Row)
    ensures Get(Assign(r, UrlSets), "dohURL") == RewrittenUrl(Get(r, "dohURL"))
    ensures forall c | c != "dohURL" :: Get(Assign(r, UrlSets), c) == Get(r, c)
  {
  }
}
