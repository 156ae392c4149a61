/** The registered migration chain and the upgrade that walks it from the stored version to
    the declared schema version. */
module Chain {
  import opened Results
  import opened Sql
  import opened Migrations
  import CategoryReset

  /** A registered `Migration(from, to)`. */
  datatype Step = Step(from: nat, to: nat)

  /** The schema version the database class declares. */
  const TargetVersion: nat := 12

  /** The migrations in the order the builder registers them. */
  const Registry: seq<Step> := [
    Step(1, 2), Step(2, 3), Step(3, 4), Step(4, 5), Step(5, 6), Step(6, 7),
    Step(7, 8), Step(8, 9), Step(9, 10), Step(10, 11), Step(11, 12)
  ]

  /** The statements each registered step runs, by start version: entry `v - 1` is the body
      of step `v -> v + 1`, as registered. */
  const Scripts: seq<seq<Stmt>> := [
    Migration1To2, Migration2To3, Migration3To4, Migration4To5, Migration5To6,
    Migration6To7, Migration7To8, Migration8To9, Migration9To10, Migration10To11, Migration11To12
  ]

  /** The same lists with step 1 -> 2 in its corrected form. */
  const CorrectedScripts: seq<seq<Stmt>> := Scripts[0 := Migration1To2Corrected]

  /** The statements step `s` runs, looked up in `scripts`. */
  function Statements(scripts: seq<seq<Stmt>>, s: Step): seq<Stmt> {
    if 1 <= s.from <= |scripts| then scripts[s.from - 1] else []
  }

  datatype MigrationError =
    | NoPath(version: int)
    | StepFailed(from: nat, to: nat, cause: SqlError)

  /** The first registered step that starts at version `v`, searching from position `i`. */
  function FindStep(reg: seq<Step>, v: nat, i: nat): (r: Option<Step>)
    ensures r.Some? ==> r.value in reg && r.value.from == v
    ensures r.None? ==> forall j | i <= j < |reg| :: reg[j].from != v
    decreases |reg| - i
  {
    if i >= |reg| then None
    else if reg[i].from == v then Some(reg[i])
    else FindStep(reg, v, i + 1)
  }

  /** The steps an upgrade from version `v` runs: from `v`, repeatedly the registered step
      starting where the previous one ended, until the target version. A version above the
      target (a downgrade) or one the registry cannot lead on from has no path. */
  function PathFrom(v: nat): Result<seq<Step>, MigrationError>
    decreases TargetVersion - v
  {
    if v == TargetVersion then Ok([])
    else if v > TargetVersion then Err(NoPath(v))
    else
      match FindStep(Registry, v, 0)
      case None => Err(NoPath(v))
      case Some(s) =>
        if s.to <= v || s.to > TargetVersion then Err(NoPath(v))
        else
          var rest :- PathFrom(s.to);
          Ok([s] + rest)
  }

  /** The steps of `path` from position `i` on, each run to completion in order; the first
      failing statement stops the upgrade and names its step. */
  function RunPath(scripts: seq<seq<Stmt>>, db: Db, path: seq<Step>, i: nat): Result<Db, MigrationError>
    decreases |path| - i
  {
    if i >= |path| then Ok(db)
    else
      match ExecAll(db, Statements(scripts, path[i]))
      case Err(e) => Err(StepFailed(path[i].from, path[i].to, e))
      case Ok(d) => RunPath(scripts, d, path, i + 1)
  }

  /** Upgrading the store from version `v` to the target version. */
  function Migrate(scripts: seq<seq<Stmt>>, db: Db, v: nat): Result<Db, MigrationError> {
    var path :- PathFrom(v);
    RunPath(scripts, db, path, 0)
  }

  /** The store, its recorded version and the failure, if any, after an open at version `v`. */
  datatype Outcome = Outcome(db: Db, version: nat, failure: Option<MigrationError>)

  /** The whole upgrade is one transaction: it either reaches the target version or leaves
      store and version as they were. */
  function Upgrade(scripts: seq<seq<Stmt>>, db: Db, v: nat): Outcome {
    match Migrate(scripts, db, v)
    case Ok(d) => Outcome(d, TargetVersion, None)
    case Err(e) => Outcome(db, v, Some(e))
  }

  // ---------------------------------------------------------------------------------------
  // Lemmas

  /** The registry is a contiguous chain 1 -> 2 -> ... -> 12 with no start version repeated. */
  lemma RegistryIsChain()
    ensures |Registry| == TargetVersion - 1
    ensures forall i | 0 <= i < |Registry| :: Registry[i].from == i + 1 && Registry[i].to == Registry[i].from + 1
    ensures forall i, j | 0 <= i < j < |Registry| :: Registry[i].from != Registry[j].from
    ensures Registry[|Registry| - 1].to == TargetVersion
  {
  }

  /** The step found is the earliest one from position `i` on that starts at `v`. */
  lemma {:induction false} FindStepIsFirst(reg: seq<Step>, v: nat, i: nat, p: nat)
    requires i <= p < |reg| && reg[p].from == v
    requires forall j | i <= j < p :: reg[j].from != v
    ensures FindStep(reg, v, i) == Some(reg[p])
    decreases p - i
  {
    if i < p {
      FindStepIsFirst(reg, v, i + 1, p);
    }
  }

  /** In the registry, the step found for version `v` is the one at position `v - 1`. */
  lemma {:induction false} FindStepInChain(v: nat, i: nat)
    requires 1 <= v < TargetVersion && i <= v - 1
    ensures FindStep(Registry, v, i) == Some(Registry[v - 1])
    decreases v - i
  {
    RegistryIsChain();
    if i < v - 1 {
      FindStepInChain(v, i + 1);
    }
  }

  /** From every version 1..12 the path is the tail of the registry from that version on. */
  lemma {:induction false} PathFromChain(v: nat)
    requires 1 <= v <= TargetVersion
    ensures PathFrom(v) == Ok(Registry[v - 1..])
    decreases TargetVersion - v
  {
    RegistryIsChain();
    if v < TargetVersion {
      FindStepInChain(v, 0);
      PathFromChain(v + 1);
      assert Registry[v - 1].to == v + 1;
      assert Registry[v - 1..] == [Registry[v - 1]] + Registry[v..];
    } else {
      assert Registry[v - 1..] == [];
    }
  }

  /** No registered step starts at version 0 or above the target, so a store recorded at such
      a version has no path. Creating a fresh store is not part of this model. */
  lemma PathFromOutside(v: nat)
    requires v < 1 || v > TargetVersion
    ensures PathFrom(v) == Err(NoPath(v))
  {
    if v == 0 {
      RegistryIsChain();
      assert FindStep(Registry, 0, 0).None?;
    }
  }

  /** Every path starts at the stored version, climbs by one version per step and ends at the target. */
  lemma PathIsContiguous(v: nat)
    requires PathFrom(v).Ok?
    ensures var path := PathFrom(v).value;
      && |path| == TargetVersion - v
      && (forall i | 0 <= i < |path| :: path[i].from == v + i && path[i].to == v + i + 1)
      && (forall i | 0 <= i < |path| :: path[i] in Registry)
  {
    if v < 1 || v > TargetVersion {
      PathFromOutside(v);
    } else {
      PathFromChain(v);
      RegistryIsChain();
    }
  }

  /** Upgrading from version `v` is running step `v -> v + 1`, then upgrading from `v + 1`. */
  lemma MigrateStep(scripts: seq<seq<Stmt>>, db: Db, v: nat)
    requires 1 <= v < TargetVersion
    ensures Migrate(scripts, db, v) == match ExecAll(db, Statements(scripts, Step(v, v + 1)))
      case Err(e) => Err(StepFailed(v, v + 1, e))
      case Ok(d) => Migrate(scripts, d, v + 1)
  {
    PathFromChain(v);
    PathFromChain(v + 1);
    RegistryIsChain();
    var path := Registry[v - 1..];
    assert path[0] == Step(v, v + 1);
    match ExecAll(db, Statements(scripts, Step(v, v + 1)))
    case Err(e) =>
    case Ok(d) => RunPathShift(scripts, d, path, Registry[v..], 1);
  }

  /** Running a path from position `i` equals running its tail from position `i - 1`. */
  lemma {:induction false} RunPathShift(scripts: seq<seq<Stmt>>, db: Db, path: seq<Step>, tail: seq<Step>, i: nat)
    requires 1 <= i <= |path| && tail == path[1..]
    ensures RunPath(scripts, db, path, i) == RunPath(scripts, db, tail, i - 1)
    decreases |path| - i
  {
    if i < |path| {
      assert path[i] == tail[i - 1];
      match ExecAll(db, Statements(scripts, path[i]))
      case Err(e) =>
      case Ok(d) => RunPathShift(scripts, d, path, tail, i + 1);
    }
  }

  /** As registered, an upgrade from version 1 fails in its first step, and being one
      transaction leaves the store at version 1. */
  lemma UpgradeFromOneFails(db: Db)
    ensures Migrate(Scripts, db, 1).Err? && Migrate(Scripts, db, 1).error.StepFailed?
    ensures Migrate(Scripts, db, 1).error.from == 1 && Migrate(Scripts, db, 1).error.to == 2
    ensures Upgrade(Scripts, db, 1) == Outcome(db, 1, Some(Migrate(Scripts, db, 1).error))
  {
    MigrateStep(Scripts, db, 1);
    assert Statements(Scripts, Step(1, 2)) == Migration1To2;
    CategoryReset.Migration1To2AlwaysFails(db);
  }

  /** The correction changes nothing for a store at version 2 or above. */
  lemma {:induction false} CorrectionOnlyAtOne(db: Db, v: nat)
    requires 2 <= v <= TargetVersion
    ensures Migrate(CorrectedScripts, db, v) == Migrate(Scripts, db, v)
    decreases TargetVersion - v
  {
    if v < TargetVersion {
      MigrateStep(Scripts, db, v);
      MigrateStep(CorrectedScripts, db, v);
      assert Statements(CorrectedScripts, Step(v, v + 1)) == Statements(Scripts, Step(v, v + 1));
      match ExecAll(db, Statements(Scripts, Step(v, v + 1)))
      case Err(_) =>
      case Ok(d) => CorrectionOnlyAtOne(d, v + 1);
    }
  }

  /** At the target version there is nothing to run. */
  lemma MigrateAtTarget(scripts: seq<seq<Stmt>>, db: Db)
    ensures Migrate(scripts, db, TargetVersion) == Ok(db)
  {
  }

  /** An upgrade either reaches the target version from a version 1..12, or leaves store and
      version untouched. */
  lemma UpgradeAllOrNothing(scripts: seq<seq<Stmt>>, db: Db, v: nat)
    ensures var o := Upgrade(scripts, db, v);
      || (o.failure.None? && o.version == TargetVersion && 1 <= v <= TargetVersion)
      || (o.failure.Some? && o.db == db && o.version == v)
  {
    if v < 1 || v > TargetVersion {
      PathFromOutside(v);
    }
  }

  /** A failed upgrade names a registered step at or above the stored version. */
  lemma UpgradeFailureNamesStep(scripts: seq<seq<Stmt>>, db: Db, v: nat)
    requires 1 <= v <= TargetVersion
    ensures Migrate(scripts, db, v).Err? ==> var e := Migrate(scripts, db, v).error;
      e.StepFailed? && Step(e.from, e.to) in Registry[v - 1..]
  {
    PathFromChain(v);
    RunPathFails(scripts, db, Registry[v - 1..], 0);
  }

  /** A failing run names one of the steps it ran. */
  lemma {:induction false} RunPathFails(scripts: seq<seq<Stmt>>, db: Db, path: seq<Step>, i: nat)
    ensures RunPath(scripts, db, path, i).Err? ==>
      RunPath(scripts, db, path, i).error.StepFailed? &&
      Step(RunPath(scripts, db, path, i).error.from, RunPath(scripts, db, path, i).error.to) in path[i..]
    decreases |path| - i
  {
    if i < |path| {
      match ExecAll(db, Statements(scripts, path[i]))
      case Err(e) =>
      case Ok(d) =>
        RunPathFails(scripts, d, path, i + 1);
        assert forall x | x in path[i + 1..] :: x in path[i..];
    }
  }
}
