/** What a migration run promises (app/db/migrations.py:7-87). */
module MigrationProperties {
  import opened Payloads
  import opened Migrations

  // ---------------------------------------------------------------- running twice

  predicate Satisfied(d: Dialect, s: Schema, st: Stage) { Apply(d, s, st) == Some(s) }

  /** Meeting a requirement leaves nothing to do for it. */
  lemma ApplySatisfies(d: Dialect, s: Schema, st: Stage)
    requires Apply(d, s, st).Some?
    ensures Satisfied(d, Apply(d, s, st).value, st)
  {
  }

  /** Requirements that cannot undo what an earlier one settled. */
  predicate Keeps(later: Stage, earlier: Stage) {
    && !(later.CreateTable? && earlier.AddColumn? && later.table == earlier.table)
    && (earlier.AddIndex? ==> later.AddIndex?)
  }

  lemma StaysSatisfied(d: Dialect, s: Schema, earlier: Stage, later: Stage)
    requires Satisfied(d, s, earlier) && Keeps(later, earlier) && Apply(d, s, later).Some?
    ensures Satisfied(d, Apply(d, s, later).value, earlier)
  {
    var next := Apply(d, s, later).value;
    match earlier
    case AddColumn(table, column, _) => assert table !in s.tables || column in s.tables[table] by { ColumnSettled(d, s, earlier); }
    case CreateTable(table, _, _, _, _) => assert table in s.tables by { TableSettled(d, s, earlier); }
    case AddIndex(name, index) => IndexStaysSettled(d, s, earlier, later);
  }

  lemma ColumnSettled(d: Dialect, s: Schema, st: Stage)
    requires st.AddColumn? && Satisfied(d, s, st)
    ensures st.table !in s.tables || st.column in s.tables[st.table]
  {
  }

  lemma TableSettled(d: Dialect, s: Schema, st: Stage)
    requires st.CreateTable? && Satisfied(d, s, st)
    ensures st.table in s.tables
  {
  }

  lemma IndexSettled(d: Dialect, s: Schema, st: Stage)
    requires st.AddIndex? && Satisfied(d, s, st)
    ensures d == OtherDialect || !HasColumns(s.tables, st.index) || Covered(s.indexes, st.index) || st.name in s.indexes
  {
  }

  lemma IndexStaysSettled(d: Dialect, s: Schema, earlier: Stage, later: Stage)
    requires earlier.AddIndex? && later.AddIndex? && Satisfied(d, s, earlier)
    ensures Satisfied(d, Apply(d, s, later).value, earlier)
  {
    var next := Apply(d, s, later).value;
    assert next.tables == s.tables;
    if Covered(s.indexes, earlier.index) {
      var name :| name in s.indexes && Serves(s.indexes[name], earlier.index);
      assert name in next.indexes && Serves(next.indexes[name], earlier.index);
    } else {
      IndexSettled(d, s, earlier);
    }
  }

  predicate WellOrdered(stages: seq<Stage>) {
    forall i, j :: 0 <= i < j < |stages| ==> Keeps(stages[j], stages[i])
  }

  predicate SatisfiedUpTo(d: Dialect, s: Schema, stages: seq<Stage>, k: nat)
    requires k <= |stages|
  {
    forall i :: 0 <= i < k ==> Satisfied(d, s, stages[i])
  }

  lemma {:induction false} SkipSatisfied(d: Dialect, s: Schema, stages: seq<Stage>, i: nat, k: nat)
    requires i <= k <= |stages| && SatisfiedUpTo(d, s, stages, k)
    ensures RunFrom(d, s, stages, i) == RunFrom(d, s, stages, k)
    decreases k - i
  {
    if i < k { SkipSatisfied(d, s, stages, i + 1, k); }
  }

  lemma {:induction false} RunReachesFixpoint(d: Dialect, s: Schema, stages: seq<Stage>, k: nat)
    requires k <= |stages| && WellOrdered(stages) && SatisfiedUpTo(d, s, stages, k)
    ensures var r := RunFrom(d, s, stages, k); RunFrom(d, r.schema, stages, 0) == r
    decreases |stages| - k
  {
    SkipSatisfied(d, s, stages, 0, k);
    if k < |stages| && Apply(d, s, stages[k]).Some? {
      var next := Apply(d, s, stages[k]).value;
      ApplySatisfies(d, s, stages[k]);
      forall i | 0 <= i < k + 1
        ensures Satisfied(d, next, stages[i])
      {
        if i < k { StaysSatisfied(d, s, stages[i], stages[k]); }
      }
      RunReachesFixpoint(d, next, stages, k + 1);
    }
  }

  lemma StagesAreWellOrdered()
    ensures WellOrdered(STAGES)
  {
  }

  /** Running the migration twice is running it once, for every dialect and
      every starting schema: a second run changes nothing, and one that was
      refused is refused again at the same place. */
  lemma MigratingTwice(d: Dialect, s: Schema)
    ensures Migrated(d, Migrated(d, s).schema) == Migrated(d, s)
  {
    StagesAreWellOrdered();
    RunReachesFixpoint(d, s, STAGES, 0);
  }

  // ---------------------------------------------------------------- nothing is lost

  predicate Extends(s: Schema, t: Schema) {
    && (forall n :: n in s.tables ==> n in t.tables && s.tables[n] <= t.tables[n])
    && (forall n :: n in s.indexes ==> n in t.indexes && t.indexes[n] == s.indexes[n])
    && s.keys <= t.keys && s.referable <= t.referable && s.constraints <= t.constraints
  }

  lemma {:induction false} RunExtends(d: Dialect, s: Schema, stages: seq<Stage>, k: nat)
    requires k <= |stages|
    ensures Extends(s, RunFrom(d, s, stages, k).schema)
    decreases |stages| - k
  {
    if k < |stages| && Apply(d, s, stages[k]).Some? {
      var next := Apply(d, s, stages[k]).value;
      assert Extends(s, next);
      RunExtends(d, next, stages, k + 1);
    }
  }

  /** A run, even a refused one, drops no table, column, index or foreign key
      and redefines no index. */
  lemma NothingIsDropped(d: Dialect, s: Schema)
    ensures Extends(s, Migrated(d, s).schema)
  {
    RunExtends(d, s, STAGES, 0);
  }

  /** The columns the requirements from the k-th on add to a table. */
  function ColumnsFrom(stages: seq<Stage>, k: nat, table: TableName): set<ColumnName>
    requires k <= |stages|
    decreases |stages| - k
  {
    if k == |stages| then {}
    else
      (if stages[k].AddColumn? && stages[k].table == table then {stages[k].column} else {})
      + ColumnsFrom(stages, k + 1, table)
  }

  lemma {:induction false} RunAddsColumns(d: Dialect, s: Schema, stages: seq<Stage>, k: nat, table: TableName)
    requires k <= |stages| && table in s.tables && RunFrom(d, s, stages, k).ok
    ensures table in RunFrom(d, s, stages, k).schema.tables
    ensures RunFrom(d, s, stages, k).schema.tables[table] == s.tables[table] + ColumnsFrom(stages, k, table)
    decreases |stages| - k
  {
    if k < |stages| { RunAddsColumns(d, Apply(d, s, stages[k]).value, stages, k + 1, table); }
  }

  /** The tables the requirements from the k-th on create. */
  function CreatedFrom(stages: seq<Stage>, k: nat): set<TableName>
    requires k <= |stages|
    decreases |stages| - k
  {
    if k == |stages| then {}
    else (if stages[k].CreateTable? then {stages[k].table} else {}) + CreatedFrom(stages, k + 1)
  }

  lemma {:induction false} RunCreatesTables(d: Dialect, s: Schema, stages: seq<Stage>, k: nat)
    requires k <= |stages| && RunFrom(d, s, stages, k).ok
    ensures RunFrom(d, s, stages, k).schema.tables.Keys == s.tables.Keys + CreatedFrom(stages, k)
    decreases |stages| - k
  {
    if k < |stages| {
      var next := Apply(d, s, stages[k]).value;
      RunCreatesTables(d, next, stages, k + 1);
      assert next.tables.Keys == s.tables.Keys + if stages[k].CreateTable? then {stages[k].table} else {};
    }
  }

  /** The columns a table of the starting schema gains. */
  function NewColumns(table: TableName): set<ColumnName> {
    match table
    case ScanJobs => {ApiKeyId}
    case Files => {Filename}
    case ApiKeys => {RevokedAt, LastUsedAt}
    case AdminUsers => {IsActive}
    case _ => {}
  }

  lemma {:induction false} NoColumnsFrom(k: nat, table: TableName)
    requires 8 <= k <= |STAGES|
    ensures ColumnsFrom(STAGES, k, table) == {} && CreatedFrom(STAGES, k) == {}
    decreases |STAGES| - k
  {
    StageOrder();
    if k < |STAGES| {
      assert STAGES[k].AddIndex?;
      NoColumnsFrom(k + 1, table);
    }
  }

  lemma StageEffects(table: TableName)
    ensures ColumnsFrom(STAGES, 0, table) == NewColumns(table)
    ensures CreatedFrom(STAGES, 0) == {ApiKeyUsages, AdminUsers, ApiKeyAuditLogs}
  {
    StageOrder();
    TableEffects(table);
    assert ColumnsFrom(STAGES, 2, table) == NewColumns(table) - {ApiKeyId, Filename};
    assert CreatedFrom(STAGES, 2) == CreatedFrom(STAGES, 4);
  }

  lemma TableEffects(table: TableName)
    ensures ColumnsFrom(STAGES, 4, table) == if table == AdminUsers then {IsActive} else {}
    ensures CreatedFrom(STAGES, 4) == {ApiKeyUsages, AdminUsers, ApiKeyAuditLogs}
  {
    StageOrder();
    NoColumnsFrom(8, table);
    assert ColumnsFrom(STAGES, 7, table) == {} && CreatedFrom(STAGES, 7) == {ApiKeyAuditLogs};
    assert ColumnsFrom(STAGES, 6, table) == if table == AdminUsers then {IsActive} else {};
    assert CreatedFrom(STAGES, 5) == {AdminUsers, ApiKeyAuditLogs};
  }

  /** After a successful run the old tables hold exactly the columns they had
      and the new ones, and the only new tables are the three named here. */
  lemma TablesAfterMigration(d: Dialect, s: Schema, table: TableName)
    requires Migrated(d, s).ok
    ensures Migrated(d, s).schema.tables.Keys == s.tables.Keys + {ApiKeyUsages, AdminUsers, ApiKeyAuditLogs}
    ensures table in s.tables ==> Migrated(d, s).schema.tables[table] == s.tables[table] + NewColumns(table)
  {
    StageEffects(table);
    RunCreatesTables(d, s, STAGES, 0);
    if table in s.tables { RunAddsColumns(d, s, STAGES, 0, table); }
  }

  // ---------------------------------------------------------------- when it succeeds

  /** On Postgres a foreign key needs a table with an id it can refer to, and its
      constraint a free name. */
  predicate ReferencesExist(s: Schema) {
    && (ScanJobs in s.tables && ApiKeyId !in s.tables[ScanJobs] && !HasKey(s, ADD_JOBS_KEY) ==>
          ApiKeys in s.referable && (ScanJobs, "fk_scan_jobs_api_key") !in s.constraints)
    && CreatableTables(s.tables.Keys, s.referable, UqUsagesKeyJob in s.indexes)
  }

  /** The tables to be created refer to tables that are there. */
  predicate CreatableTables(tables: set<TableName>, referable: set<TableName>, uniqueNameTaken: bool) {
    && (ApiKeyUsages !in tables ==> ApiKeys in referable && ScanJobs in referable && !uniqueNameTaken)
    && (ApiKeyAuditLogs !in tables ==> ApiKeys in referable && (AdminUsers in tables ==> AdminUsers in referable))
  }

  lemma {:induction false} HarmlessRun(d: Dialect, s: Schema, k: nat)
    requires 8 <= k <= |STAGES|
    ensures RunFrom(d, s, STAGES, k).ok
    decreases |STAGES| - k
  {
    StageOrder();
    if k < |STAGES| {
      assert STAGES[k].AddIndex?;
      HarmlessRun(d, Apply(d, s, STAGES[k]).value, k + 1);
    }
  }

  lemma {:induction false} ElsewhereNeverRefused(d: Dialect, s: Schema, stages: seq<Stage>, k: nat)
    requires k <= |stages| && d != Postgres
    ensures RunFrom(d, s, stages, k).ok
    decreases |stages| - k
  {
    if k < |stages| { ElsewhereNeverRefused(d, Apply(d, s, stages[k]).value, stages, k + 1); }
  }

  /** The last step that can be refused: the audit log, after the admin table. */
  lemma AuditLogsDecide(s: Schema)
    ensures RunFrom(Postgres, s, STAGES, 6).ok <==>
            ApiKeyAuditLogs in s.tables || (ApiKeys in s.referable && AdminUsers in s.referable)
  {
    StageOrder();
    var next := Apply(Postgres, s, ADD_IS_ACTIVE).value;
    assert next.tables.Keys == s.tables.Keys && next.referable == s.referable;
    var last := Apply(Postgres, next, CREATE_AUDIT_LOGS);
    AuditLogKeys(s.referable);
    if last.Some? { HarmlessRun(Postgres, last.value, 8); }
    assert RunFrom(Postgres, next, STAGES, 7).ok <==> last.Some?;
  }

  lemma AuditLogKeys(referable: set<TableName>)
    ensures (exists key :: key in CREATE_AUDIT_LOGS.keys && key.refers !in referable)
            <==> !(ApiKeys in referable && AdminUsers in referable)
  {
    var toKeys := ForeignKey(ApiKeyAuditLogs, {ApiKeyId}, ApiKeys, "fk_api_key_audit_logs_api_key");
    var toAdmins := ForeignKey(ApiKeyAuditLogs, {PerformedByAdminId}, AdminUsers, "fk_api_key_audit_logs_admin_user");
    assert CREATE_AUDIT_LOGS.keys == {toKeys, toAdmins};
    assert toKeys in CREATE_AUDIT_LOGS.keys && toAdmins in CREATE_AUDIT_LOGS.keys;
  }

  lemma UsageKeys(referable: set<TableName>)
    ensures (exists key :: key in CREATE_USAGES.keys && key.refers !in referable)
            <==> !(ApiKeys in referable && ScanJobs in referable)
  {
    var toKeys := ForeignKey(ApiKeyUsages, {ApiKeyId}, ApiKeys, "fk_api_key_usages_api_key");
    var toJobs := ForeignKey(ApiKeyUsages, {JobId}, ScanJobs, "fk_api_key_usages_job");
    assert CREATE_USAGES.keys == {toKeys, toJobs};
    assert toKeys in CREATE_USAGES.keys && toJobs in CREATE_USAGES.keys;
  }

  /** The admin table is never refused, and once created it can be referred to. */
  lemma AdminsExist(s: Schema) returns (next: Schema)
    ensures Apply(Postgres, s, CREATE_ADMINS) == Some(next)
    ensures next.tables.Keys == s.tables.Keys + {AdminUsers}
    ensures next.referable == if AdminUsers in s.tables then s.referable else s.referable + {AdminUsers}
  {
    next := Apply(Postgres, s, CREATE_ADMINS).value;
  }

  lemma UsagesDecide(s: Schema)
    ensures RunFrom(Postgres, s, STAGES, 4).ok <==> CreatableTables(s.tables.Keys, s.referable, UqUsagesKeyJob in s.indexes)
  {
    StageOrder();
    var usages := Apply(Postgres, s, CREATE_USAGES);
    UsageKeys(s.referable);
    assert usages.Some? <==>
           (ApiKeyUsages !in s.tables ==> ApiKeys in s.referable && ScanJobs in s.referable && UqUsagesKeyJob !in s.indexes);
    if usages.Some? {
      var admins := AdminsExist(usages.value);
      AuditLogsDecide(admins);
    }
  }

  /** A run succeeds on every other dialect, and on Postgres iff no foreign key
      it has to create refers to a missing table. */
  lemma MigrationSucceeds(d: Dialect, s: Schema)
    ensures Migrated(d, s).ok <==> d != Postgres || ReferencesExist(s)
  {
    if d != Postgres {
      ElsewhereNeverRefused(d, s, STAGES, 0);
    } else {
      StageOrder();
      var s1 := Apply(d, s, ADD_JOBS_KEY);
      if s1.Some? {
        assert s1.value.tables.Keys == s.tables.Keys;
        PlainColumnsNeverRefused(s1.value, 1);
      }
    }
  }

  lemma {:induction false} PlainColumnsNeverRefused(s: Schema, k: nat)
    requires 1 <= k <= 4
    ensures RunFrom(Postgres, s, STAGES, k).ok <==> CreatableTables(s.tables.Keys, s.referable, UqUsagesKeyJob in s.indexes)
    decreases 4 - k
  {
    if k == 4 {
      UsagesDecide(s);
    } else {
      ColumnStages(k);
      var next := PlainColumn(s, k);
      PlainColumnsNeverRefused(next, k + 1);
    }
  }

  lemma ColumnStages(k: nat)
    requires 1 <= k <= 3
    ensures |STAGES| == 14 && STAGES[k].AddColumn? && STAGES[k].refers.None?
  {
    StageOrder();
  }

  lemma PlainColumn(s: Schema, k: nat) returns (next: Schema)
    requires k < |STAGES| && STAGES[k].AddColumn? && STAGES[k].refers.None?
    ensures next.tables.Keys == s.tables.Keys && next.referable == s.referable && next.indexes == s.indexes
    ensures RunFrom(Postgres, s, STAGES, k) == RunFrom(Postgres, next, STAGES, k + 1)
  {
    next := Apply(Postgres, s, STAGES[k]).value;
    Advance(Postgres, s, next, k);
  }

  // ---------------------------------------------------------------- indexes

  /** A requirement that takes neither the name nor the place of an index. */
  predicate Unrelated(st: Stage, wanted: Stage)
    requires wanted.AddIndex?
  {
    match st
    case AddColumn(_, _, _) => true
    case CreateTable(_, _, _, unique, extra) => Aside(unique, wanted) && Aside(extra, wanted)
    case AddIndex(name, index) => name != wanted.name && !Serves(index, wanted.index)
  }

  predicate Aside(made: Option<(IndexName, Index)>, wanted: Stage)
    requires wanted.AddIndex?
  {
    made.None? || (made.value.0 != wanted.name && !Serves(made.value.1, wanted.index))
  }

  predicate SameForIndex(s: Schema, t: Schema, wanted: Stage)
    requires wanted.AddIndex?
  {
    && (Covered(s.indexes, wanted.index) <==> Covered(t.indexes, wanted.index))
    && (wanted.name in s.indexes <==> wanted.name in t.indexes)
  }

  lemma UnrelatedStep(d: Dialect, s: Schema, st: Stage, wanted: Stage)
    requires wanted.AddIndex? && Unrelated(st, wanted) && Apply(d, s, st).Some?
    ensures SameForIndex(s, Apply(d, s, st).value, wanted)
  {
    var next := Apply(d, s, st).value;
    match st
    case AddColumn(_, _, _) =>
    case AddIndex(name, index) => MadeAside(s, Some((name, index)), wanted);
    case CreateTable(_, _, _, unique, extra) =>
      if next.indexes != s.indexes {
        var guarded := Made(s, unique);
        assert next.indexes == Made(guarded, extra).indexes;
        MadeAside(s, unique, wanted);
        MadeAside(guarded, extra, wanted);
      }
  }

  lemma MadeAside(s: Schema, made: Option<(IndexName, Index)>, wanted: Stage)
    requires wanted.AddIndex? && Aside(made, wanted)
    ensures SameForIndex(s, Made(s, made), wanted)
  {
    if made.Some? && made.value.0 !in s.indexes {
      AddedIndexServesOnlyItself(s.indexes, AddIndex(made.value.0, made.value.1), wanted.index);
    }
  }

  lemma {:induction false} UnrelatedRun(d: Dialect, s: Schema, stages: seq<Stage>, k: nat, wanted: Stage)
    requires k <= |stages| && wanted.AddIndex? && RunFrom(d, s, stages, k).ok
    requires forall i :: k <= i < |stages| ==> Unrelated(stages[i], wanted)
    ensures SameForIndex(s, RunFrom(d, s, stages, k).schema, wanted)
    decreases |stages| - k
  {
    if k < |stages| {
      UnrelatedStep(d, s, stages[k], wanted);
      UnrelatedRun(d, Apply(d, s, stages[k]).value, stages, k + 1, wanted);
    }
  }

  lemma {:induction false} IndexesKeepTables(d: Dialect, s: Schema, stages: seq<Stage>, k: nat)
    requires k <= |stages| && forall i :: k <= i < |stages| ==> stages[i].AddIndex?
    ensures RunFrom(d, s, stages, k).schema.tables == s.tables
    decreases |stages| - k
  {
    if k < |stages| { IndexesKeepTables(d, Apply(d, s, stages[k]).value, stages, k + 1); }
  }

  lemma {:induction false} IndexIsCovered(d: Dialect, s: Schema, stages: seq<Stage>, k: nat, n: nat)
    requires k <= n < |stages| && stages[n].AddIndex? && d != OtherDialect && RunFrom(d, s, stages, k).ok
    requires forall i :: k <= i < |stages| && i != n ==> Unrelated(stages[i], stages[n])
    requires forall i :: n <= i < |stages| ==> stages[i].AddIndex?
    ensures var after := RunFrom(d, s, stages, k).schema;
            HasColumns(after.tables, stages[n].index) ==>
              (Covered(after.indexes, stages[n].index) <==>
               Covered(s.indexes, stages[n].index) || stages[n].name !in s.indexes)
    decreases n - k
  {
    var next := Apply(d, s, stages[k]).value;
    if k < n {
      UnrelatedStep(d, s, stages[k], stages[n]);
      IndexIsCovered(d, next, stages, k + 1, n);
    } else {
      IndexesKeepTables(d, s, stages, n);
      UnrelatedRun(d, next, stages, n + 1, stages[n]);
      if next != s { assert stages[n].name in next.indexes && Serves(next.indexes[stages[n].name], stages[n].index); }
    }
  }

  lemma StagesAreUnrelated(n: nat)
    requires 8 <= n < |STAGES|
    ensures STAGES[n].AddIndex?
    ensures forall i :: 0 <= i < |STAGES| && i != n ==> Unrelated(STAGES[i], STAGES[n])
    ensures forall i :: n <= i < |STAGES| ==> STAGES[i].AddIndex?
  {
    StageOrder();
    IndexesAreSeparate();
    forall i | 0 <= i < |STAGES| && i != n
      ensures Unrelated(STAGES[i], STAGES[n])
    {
      if i >= 8 { assert Separate((INDEXES + [FILES_INDEX])[i - 8], (INDEXES + [FILES_INDEX])[n - 8]); }
    }
  }

  /** After a successful run on Postgres or SQLite, an index whose table and
      columns exist is covered iff it was covered before or its name was free:
      only a foreign index of the same name can leave it out. */
  lemma IndexesAfterMigration(d: Dialect, s: Schema, n: nat)
    requires 8 <= n < |STAGES| && STAGES[n].AddIndex? && d != OtherDialect && Migrated(d, s).ok
    ensures var after := Migrated(d, s).schema;
            HasColumns(after.tables, STAGES[n].index) ==>
              (Covered(after.indexes, STAGES[n].index) <==>
               Covered(s.indexes, STAGES[n].index) || STAGES[n].name !in s.indexes)
  {
    StagesAreUnrelated(n);
    IndexIsCovered(d, s, STAGES, 0, n);
  }

  // ------------------------------------------------------- what is created

  /** Whether a table has an index that serves for the wanted columns: on files
      any that holds the hash, elsewhere one on exactly these columns. */
  ghost predicate HasIndexFor(indexes: map<IndexName, Index>, table: TableName, columns: seq<ColumnName>) {
    exists name :: name in indexes && indexes[name].table == table
                   && if table == Files then Sha256 in indexes[name].columns else indexes[name].columns == columns
  }

  /** The six wanted indexes. */
  predicate Wanted(name: IndexName, table: TableName, columns: seq<ColumnName>) {
    match name
    case IxJobsCreatedAt => table == ScanJobs && columns == [CreatedAt]
    case IxJobsKeyStatus => table == ScanJobs && columns == [ApiKeyId, Status]
    case IxUsagesCreatedAt => table == ApiKeyUsages && columns == [CreatedAt]
    case IxUsagesKeyCreatedAt => table == ApiKeyUsages && columns == [ApiKeyId, CreatedAt]
    case IxResultsJobScannedAt => table == EngineResults && columns == [JobId, ScannedAt]
    case IxFilesSha256 => table == Files && columns == [Sha256]
    case _ => false
  }

  lemma WantedStage(name: IndexName, table: TableName, columns: seq<ColumnName>) returns (n: nat)
    requires Wanted(name, table, columns)
    ensures 8 <= n < |STAGES| && STAGES[n] == AddIndex(name, Index(table, columns))
  {
    StageOrder();
    match name
    case IxJobsCreatedAt => n := 8;
    case IxJobsKeyStatus => n := 9;
    case IxUsagesCreatedAt => n := 10;
    case IxUsagesKeyCreatedAt => n := 11;
    case IxResultsJobScannedAt => n := 12;
    case IxFilesSha256 => n := 13;
    assert STAGES[n] == (INDEXES + [FILES_INDEX])[n - 8];
  }

  lemma CoveredMeaning(indexes: map<IndexName, Index>, name: IndexName, table: TableName, columns: seq<ColumnName>)
    requires Wanted(name, table, columns)
    ensures Covered(indexes, Index(table, columns)) <==> HasIndexFor(indexes, table, columns)
  {
    if n :| n in indexes && Serves(indexes[n], Index(table, columns)) {
      assert indexes[n].table == table;
    }
    if n :| n in indexes && indexes[n].table == table
            && if table == Files then Sha256 in indexes[n].columns else indexes[n].columns == columns {
      assert Serves(indexes[n], Index(table, columns));
    }
  }

  /** Each wanted index whose table and columns exist after a successful run on
      Postgres or SQLite is there, or one that serves for it, iff one served for
      it before or its name was free. */
  lemma WantedIndexesAfterMigration(d: Dialect, s: Schema, name: IndexName, table: TableName, columns: seq<ColumnName>)
    requires Wanted(name, table, columns) && d != OtherDialect && Migrated(d, s).ok
    ensures var after := Migrated(d, s).schema;
            table in after.tables && (forall c | c in columns :: c in after.tables[table]) ==>
              (HasIndexFor(after.indexes, table, columns) <==> HasIndexFor(s.indexes, table, columns) || name !in s.indexes)
  {
    var n := WantedStage(name, table, columns);
    IndexesAfterMigration(d, s, n);
    CoveredMeaning(Migrated(d, s).schema.indexes, name, table, columns);
    CoveredMeaning(s.indexes, name, table, columns);
  }

  /** Dialects other than the two get no index. */
  lemma {:induction false} NoIndexElsewhere(s: Schema, stages: seq<Stage>, k: nat)
    requires k <= |stages|
    ensures RunFrom(OtherDialect, s, stages, k).schema.indexes == s.indexes
    decreases |stages| - k
  {
    if k < |stages| { NoIndexElsewhere(Apply(OtherDialect, s, stages[k]).value, stages, k + 1); }
  }

  /** A table that was missing has the columns and keys it was created with. */
  lemma {:induction false} CreatedTable(d: Dialect, s: Schema, stages: seq<Stage>, k: nat, n: nat)
    requires k <= n < |stages| && stages[n].CreateTable? && stages[n].table !in s.tables && RunFrom(d, s, stages, k).ok
    requires forall i :: k <= i < n && stages[i].CreateTable? ==> stages[i].table != stages[n].table
    ensures var after := RunFrom(d, s, stages, k).schema;
            && stages[n].table in after.tables
            && after.tables[stages[n].table] == stages[n].columns + ColumnsFrom(stages, n + 1, stages[n].table)
            && (d == Postgres ==> stages[n].keys <= after.keys)
    decreases n - k
  {
    var next := Apply(d, s, stages[k]).value;
    if k < n {
      CreatedTable(d, next, stages, k + 1, n);
    } else {
      RunAddsColumns(d, next, stages, n + 1, stages[n].table);
      RunExtends(d, next, stages, n + 1);
    }
  }

  /** The usage table, the admin table and the audit log, where they were missing. */
  lemma NewTables(d: Dialect, s: Schema)
    requires Migrated(d, s).ok
    ensures var after := Migrated(d, s).schema;
            && {ApiKeyUsages, AdminUsers, ApiKeyAuditLogs} <= after.tables.Keys
            && (ApiKeyUsages !in s.tables ==>
                  after.tables[ApiKeyUsages] == {Id, ApiKeyId, JobId, CreatedAt, Status, VerdictColumn})
            && (AdminUsers !in s.tables ==>
                  after.tables[AdminUsers]
                  == {Id, Username, PasswordHash, IsSuperadmin, IsActive, CreatedAt, UpdatedAt, LastLoginAt})
            && (ApiKeyAuditLogs !in s.tables ==>
                  after.tables[ApiKeyAuditLogs]
                  == {Id, ApiKeyId, Action, PerformedByAdminId, PerformedByUsername, CreatedAt, Metadata})
  {
    StageOrder();
    LateColumns();
    TablesAfterMigration(d, s, Files);
    if ApiKeyUsages !in s.tables { CreatedTable(d, s, STAGES, 0, 4); }
    if AdminUsers !in s.tables { CreatedTable(d, s, STAGES, 0, 5); }
    if ApiKeyAuditLogs !in s.tables { CreatedTable(d, s, STAGES, 0, 7); }
  }

  /** A requirement that creates an index of this name. */
  predicate Takes(st: Stage, name: IndexName) {
    match st
    case AddColumn(_, _, _) => false
    case AddIndex(n, _) => n == name
    case CreateTable(_, _, _, unique, extra) =>
      (unique.Some? && unique.value.0 == name) || (extra.Some? && extra.value.0 == name)
  }

  lemma {:induction false} CreatedIndex(s: Schema, stages: seq<Stage>, k: nat, n: nat, name: IndexName, index: Index)
    requires k <= n < |stages| && stages[n].CreateTable? && stages[n].table !in s.tables && RunFrom(Postgres, s, stages, k).ok
    requires forall i :: k <= i < n ==>
               !Takes(stages[i], name) && (stages[i].CreateTable? ==> stages[i].table != stages[n].table)
    requires stages[n].unique.None? && stages[n].extra == Some((name, index)) && name !in s.indexes
    ensures var after := RunFrom(Postgres, s, stages, k).schema; name in after.indexes && after.indexes[name] == index
    decreases n - k
  {
    var next := Apply(Postgres, s, stages[k]).value;
    if k < n {
      CreatedIndex(next, stages, k + 1, n, name, index);
    } else {
      RunExtends(Postgres, next, stages, n + 1);
    }
  }

  /** On Postgres the new admin table has its index on the user name, unless an
      index of that name was there before. */
  lemma NewAdminIndex(s: Schema)
    requires Migrated(Postgres, s).ok && AdminUsers !in s.tables && IxAdminUsername !in s.indexes
    ensures IxAdminUsername in Migrated(Postgres, s).schema.indexes
    ensures Migrated(Postgres, s).schema.indexes[IxAdminUsername] == Index(AdminUsers, [Username])
  {
    StageOrder();
    CreatedIndex(s, STAGES, 0, 5, IxAdminUsername, Index(AdminUsers, [Username]));
  }

  lemma LateColumns()
    ensures ColumnsFrom(STAGES, 5, ApiKeyUsages) == {} && ColumnsFrom(STAGES, 6, AdminUsers) == {IsActive}
    ensures ColumnsFrom(STAGES, 8, ApiKeyAuditLogs) == {}
  {
    StageOrder();
    NoColumnsFrom(8, ApiKeyUsages);
    NoColumnsFrom(8, AdminUsers);
    NoColumnsFrom(8, ApiKeyAuditLogs);
    assert ColumnsFrom(STAGES, 7, ApiKeyUsages) == {} && ColumnsFrom(STAGES, 7, AdminUsers) == {};
    assert ColumnsFrom(STAGES, 6, ApiKeyUsages) == {};
  }

  predicate HasForeignKey(s: Schema, table: TableName, column: ColumnName, refers: TableName) {
    exists key :: key in s.keys && key.table == table && key.refers == refers && column in key.columns
  }

  /** On Postgres the new tables refer to keys, jobs and admins, and so does the
      new column of the jobs unless a foreign key already did. */
  lemma NewKeys(s: Schema)
    requires Migrated(Postgres, s).ok
    ensures var after := Migrated(Postgres, s).schema;
            && (ApiKeyUsages !in s.tables ==>
                  HasForeignKey(after, ApiKeyUsages, ApiKeyId, ApiKeys) && HasForeignKey(after, ApiKeyUsages, JobId, ScanJobs))
            && (ApiKeyAuditLogs !in s.tables ==>
                  && HasForeignKey(after, ApiKeyAuditLogs, ApiKeyId, ApiKeys)
                  && HasForeignKey(after, ApiKeyAuditLogs, PerformedByAdminId, AdminUsers))
            && (ScanJobs in s.tables && ApiKeyId !in s.tables[ScanJobs] ==>
                  && HasForeignKey(after, ScanJobs, ApiKeyId, ApiKeys)
                  && (!HasForeignKey(s, ScanJobs, ApiKeyId, ApiKeys) ==> (ScanJobs, "fk_scan_jobs_api_key") in after.constraints))
  {
    StageOrder();
    var after := Migrated(Postgres, s).schema;
    if ApiKeyUsages !in s.tables {
      CreatedTable(Postgres, s, STAGES, 0, 4);
      assert ForeignKey(ApiKeyUsages, {ApiKeyId}, ApiKeys, "fk_api_key_usages_api_key") in after.keys;
      assert ForeignKey(ApiKeyUsages, {JobId}, ScanJobs, "fk_api_key_usages_job") in after.keys;
    }
    if ApiKeyAuditLogs !in s.tables {
      CreatedTable(Postgres, s, STAGES, 0, 7);
      assert ForeignKey(ApiKeyAuditLogs, {ApiKeyId}, ApiKeys, "fk_api_key_audit_logs_api_key") in after.keys;
      assert ForeignKey(ApiKeyAuditLogs, {PerformedByAdminId}, AdminUsers, "fk_api_key_audit_logs_admin_user") in after.keys;
    }
    if ScanJobs in s.tables && ApiKeyId !in s.tables[ScanJobs] {
      var next := Apply(Postgres, s, ADD_JOBS_KEY).value;
      JobsKeyAdded(s);
      RunExtends(Postgres, next, STAGES, 1);
      var key :| key in next.keys && key.table == ScanJobs && key.refers == ApiKeys && ApiKeyId in key.columns;
      assert key in after.keys;
    }
  }

  lemma JobsKeyAdded(s: Schema)
    requires ScanJobs in s.tables && ApiKeyId !in s.tables[ScanJobs] && Apply(Postgres, s, ADD_JOBS_KEY).Some?
    ensures HasForeignKey(Apply(Postgres, s, ADD_JOBS_KEY).value, ScanJobs, ApiKeyId, ApiKeys)
    ensures !HasForeignKey(s, ScanJobs, ApiKeyId, ApiKeys) ==>
              (ScanJobs, "fk_scan_jobs_api_key") in Apply(Postgres, s, ADD_JOBS_KEY).value.constraints
  {
    if HasKey(s, ADD_JOBS_KEY) {
      var key :| key in s.keys && key.table == ScanJobs && key.refers == ApiKeys && ApiKeyId in key.columns;
      assert key in Apply(Postgres, s, ADD_JOBS_KEY).value.keys;
    } else {
      assert KeyFor(ADD_JOBS_KEY) in Apply(Postgres, s, ADD_JOBS_KEY).value.keys;
    }
  }
}
