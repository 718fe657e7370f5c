/** Bringing an existing database up to date (app/db/migrations.py). A schema
    is its tables with their columns, its indexes by name and its foreign keys;
    every statement of a failed transaction is undone. */
module Migrations {
  import opened Payloads

  datatype Dialect = Postgres | Sqlite | OtherDialect

  datatype TableName =
    | ScanJobs | Files | ApiKeys | ApiKeyUsages | AdminUsers | ApiKeyAuditLogs | EngineResults
    | OtherTable(name: string)

  datatype ColumnName =
    | Id | ApiKeyId | JobId | CreatedAt | UpdatedAt | LastLoginAt | LastUsedAt | RevokedAt | ScannedAt
    | Status | VerdictColumn | Username | PasswordHash | IsSuperadmin | IsActive | Filename | Sha256
    | Action | PerformedByAdminId | PerformedByUsername | Metadata
    | OtherColumn(name: string)

  datatype IndexName =
    | IxJobsCreatedAt | IxJobsKeyStatus | IxUsagesCreatedAt | IxUsagesKeyCreatedAt | IxResultsJobScannedAt
    | IxFilesSha256 | IxAdminUsername | UqUsagesKeyJob
    | OtherIndex(name: string)

  datatype Index = Index(table: TableName, columns: seq<ColumnName>)

  datatype ForeignKey = ForeignKey(table: TableName, columns: set<ColumnName>, refers: TableName, name: string)

  /** Tables with their columns, indexes by name, foreign keys, the tables whose
      id a foreign key may refer to (it is unique and of the right type), and the
      constraint names in use. */
  datatype Schema = Schema(tables: map<TableName, set<ColumnName>>, indexes: map<IndexName, Index>,
                           keys: set<ForeignKey>, referable: set<TableName>, constraints: set<(TableName, string)>)

  // ---------------------------------------------------------------- one step at a time

  /** What the migration asks for, one requirement at a time. */
  datatype Stage =
    | AddColumn(table: TableName, column: ColumnName, refers: Option<(TableName, string)>)
    | CreateTable(table: TableName, columns: set<ColumnName>, keys: set<ForeignKey>,
                  unique: Option<(IndexName, Index)>, extra: Option<(IndexName, Index)>)
    | AddIndex(name: IndexName, index: Index)

  function KeyFor(st: Stage): ForeignKey
    requires st.AddColumn? && st.refers.Some?
  {
    ForeignKey(st.table, {st.column}, st.refers.value.0, st.refers.value.1)
  }

  predicate HasKey(s: Schema, st: Stage)
    requires st.AddColumn? && st.refers.Some?
  {
    exists key :: key in s.keys && key.table == st.table && key.refers == st.refers.value.0 && st.column in key.columns
  }

  function WithKey(s: Schema, key: ForeignKey): Schema {
    s.(keys := s.keys + {key}, constraints := s.constraints + {(key.table, key.name)})
  }

  /** Postgres refuses a table when a foreign key cannot refer to its target or
      the name of its unique constraint is taken by an index. */
  predicate Refuses(s: Schema, st: Stage)
    requires st.CreateTable?
  {
    || (exists key :: key in st.keys && key.refers !in s.referable)
    || (st.unique.Some? && st.unique.value.0 in s.indexes)
  }

  function WithColumn(s: Schema, table: TableName, column: ColumnName): Schema
    requires table in s.tables
  {
    s.(tables := s.tables[table := s.tables[table] + {column}])
  }

  /** CREATE INDEX IF NOT EXISTS: a taken name makes it do nothing. */
  function WithIndex(s: Schema, name: IndexName, index: Index): Schema {
    if name in s.indexes then s else s.(indexes := s.indexes[name := index])
  }

  function Made(s: Schema, made: Option<(IndexName, Index)>): Schema {
    if made.None? then s else WithIndex(s, made.value.0, made.value.1)
  }

  /** An index on files serves when it holds the hash at all, any other when
      its columns are the wanted ones in order. */
  predicate Serves(existing: Index, wanted: Index) {
    existing.table == wanted.table &&
    if wanted.table == Files && Sha256 in wanted.columns then Sha256 in existing.columns
    else existing.columns == wanted.columns
  }

  predicate Covered(indexes: map<IndexName, Index>, wanted: Index) {
    exists name :: name in indexes && Serves(indexes[name], wanted)
  }

  predicate HasColumns(tables: map<TableName, set<ColumnName>>, index: Index) {
    index.table in tables && forall i :: 0 <= i < |index.columns| ==> index.columns[i] in tables[index.table]
  }

  /** The schema once a requirement is met; None when the database refuses. */
  function Apply(d: Dialect, s: Schema, st: Stage): Option<Schema> {
    match st
    case AddColumn(table, column, refers) =>
      if table !in s.tables || column in s.tables[table] then Some(s)
      else if d != Postgres || refers.None? || HasKey(s, st) then Some(WithColumn(s, table, column))
      else if refers.value.0 !in s.referable || (table, refers.value.1) in s.constraints then None
      else Some(WithKey(WithColumn(s, table, column), KeyFor(st)))
    case CreateTable(table, columns, keys, unique, extra) =>
      if table in s.tables then Some(s)
      else if d != Postgres then Some(s.(tables := s.tables[table := columns]))
      else if Refuses(s, st) then None
      else
        var created := s.(tables := s.tables[table := columns], keys := s.keys + keys, referable := s.referable + {table},
                          constraints := s.constraints + (set key | key in keys :: (table, key.name)));
        Some(Made(Made(created, unique), extra))
    case AddIndex(name, index) =>
      if d == OtherDialect || !HasColumns(s.tables, index) || Covered(s.indexes, index) then Some(s)
      else Some(WithIndex(s, name, index))
  }

  const ADD_JOBS_KEY := AddColumn(ScanJobs, ApiKeyId, Some((ApiKeys, "fk_scan_jobs_api_key")))
  const ADD_FILENAME := AddColumn(Files, Filename, None)
  const ADD_REVOKED_AT := AddColumn(ApiKeys, RevokedAt, None)
  const ADD_LAST_USED_AT := AddColumn(ApiKeys, LastUsedAt, None)
  const CREATE_USAGES :=
    CreateTable(ApiKeyUsages, {Id, ApiKeyId, JobId, CreatedAt, Status, VerdictColumn},
                {ForeignKey(ApiKeyUsages, {ApiKeyId}, ApiKeys, "fk_api_key_usages_api_key"),
                 ForeignKey(ApiKeyUsages, {JobId}, ScanJobs, "fk_api_key_usages_job")},
                Some((UqUsagesKeyJob, Index(ApiKeyUsages, [ApiKeyId, JobId]))), None)
  const CREATE_ADMINS :=
    CreateTable(AdminUsers, {Id, Username, PasswordHash, IsSuperadmin, IsActive, CreatedAt, UpdatedAt, LastLoginAt},
                {}, None, Some((IxAdminUsername, Index(AdminUsers, [Username]))))
  const ADD_IS_ACTIVE := AddColumn(AdminUsers, IsActive, None)
  const CREATE_AUDIT_LOGS :=
    CreateTable(ApiKeyAuditLogs, {Id, ApiKeyId, Action, PerformedByAdminId, PerformedByUsername, CreatedAt, Metadata},
                {ForeignKey(ApiKeyAuditLogs, {ApiKeyId}, ApiKeys, "fk_api_key_audit_logs_api_key"),
                 ForeignKey(ApiKeyAuditLogs, {PerformedByAdminId}, AdminUsers, "fk_api_key_audit_logs_admin_user")},
                None, None)

  const INDEXES: seq<Stage> :=
    [AddIndex(IxJobsCreatedAt, Index(ScanJobs, [CreatedAt])),
     AddIndex(IxJobsKeyStatus, Index(ScanJobs, [ApiKeyId, Status])),
     AddIndex(IxUsagesCreatedAt, Index(ApiKeyUsages, [CreatedAt])),
     AddIndex(IxUsagesKeyCreatedAt, Index(ApiKeyUsages, [ApiKeyId, CreatedAt])),
     AddIndex(IxResultsJobScannedAt, Index(EngineResults, [JobId, ScannedAt]))]

  const FILES_INDEX := AddIndex(IxFilesSha256, Index(Files, [Sha256]))

  const STAGES: seq<Stage> :=
    [ADD_JOBS_KEY, ADD_FILENAME, ADD_REVOKED_AT, ADD_LAST_USED_AT,
     CREATE_USAGES, CREATE_ADMINS, ADD_IS_ACTIVE, CREATE_AUDIT_LOGS] + INDEXES + [FILES_INDEX]

  datatype Migration = Migration(schema: Schema, ok: bool)

  /** Meeting the requirements from the k-th on, up to the first refusal. */
  function RunFrom(d: Dialect, s: Schema, stages: seq<Stage>, k: nat): Migration
    requires k <= |stages|
    decreases |stages| - k
  {
    if k == |stages| then Migration(s, true)
    else
      match Apply(d, s, stages[k])
      case None => Migration(s, false)
      case Some(next) => RunFrom(d, next, stages, k + 1)
  }

  function Migrated(d: Dialect, s: Schema): Migration { RunFrom(d, s, STAGES, 0) }

  // ---------------------------------------------------------------- the program

  /** A database and the migration as the program runs it: tables and indexes
      are looked up once, before the changes they decide about. */
  class Database {
    const dialect: Dialect
    var tables: map<TableName, set<ColumnName>>
    var indexes: map<IndexName, Index>
    var keys: set<ForeignKey>
    var referable: set<TableName>
    var constraints: set<(TableName, string)>

    constructor (d: Dialect, s: Schema)
      ensures dialect == d && Now() == s
    {
      dialect := d;
      tables, indexes, keys := s.tables, s.indexes, s.keys;
      referable, constraints := s.referable, s.constraints;
    }

    function Now(): Schema
      reads this
    {
      Schema(tables, indexes, keys, referable, constraints)
    }

    /** Adds the key column to the jobs; on Postgres with its foreign key, in
        one transaction. */
    method AddScanJobsApiKeyId() returns (ok: bool)
      requires ScanJobs in tables && ApiKeyId !in tables[ScanJobs]
      modifies this
      ensures Apply(dialect, old(Now()), ADD_JOBS_KEY) == if ok then Some(Now()) else None
      ensures !ok ==> Now() == old(Now())
      ensures tables.Keys == old(tables.Keys)
    {
      var hasKey := HasKey(Now(), ADD_JOBS_KEY);
      if dialect == Postgres && !hasKey {
        if ApiKeys !in referable || (ScanJobs, "fk_scan_jobs_api_key") in constraints { return false; }
        keys := keys + {KeyFor(ADD_JOBS_KEY)};
        constraints := constraints + {(ScanJobs, "fk_scan_jobs_api_key")};
      }
      tables := tables[ScanJobs := tables[ScanJobs] + {ApiKeyId}];
      return true;
    }

    method AddPlainColumn(table: TableName, column: ColumnName)
      requires table in tables && column !in tables[table]
      modifies this`tables
      ensures Apply(dialect, old(Now()), AddColumn(table, column, None)) == Some(Now())
      ensures tables == old(tables)[table := old(tables)[table] + {column}]
      ensures tables.Keys == old(tables.Keys)
    {
      tables := tables[table := tables[table] + {column}];
    }

    method CreateMissingTable(st: Stage) returns (ok: bool)
      requires st.CreateTable? && st.table !in tables
      modifies this
      ensures Apply(dialect, old(Now()), st) == if ok then Some(Now()) else None
      ensures !ok ==> Now() == old(Now())
      ensures ok ==> tables == old(tables)[st.table := st.columns]
    {
      if dialect == Postgres {
        if Refuses(Now(), st) { return false; }
        keys, referable := keys + st.keys, referable + {st.table};
        constraints := constraints + (set key | key in st.keys :: (st.table, key.name));
        if st.unique.Some? {
          indexes := indexes[st.unique.value.0 := st.unique.value.1];
        }
        if st.extra.Some? && st.extra.value.0 !in indexes {
          indexes := indexes[st.extra.value.0 := st.extra.value.1];
        }
      }
      tables := tables[st.table := st.columns];
      return true;
    }

    method AddPerformanceIndexes()
      modifies this`indexes
      ensures RunFrom(dialect, old(Now()), INDEXES + [FILES_INDEX], 0) == Migration(Now(), true)
    {
      ghost var all := INDEXES + [FILES_INDEX];
      ghost var start := Now();
      if dialect == OtherDialect {
        NothingToIndex(dialect, start, all, 0);
        return;
      }
      var existing := indexes;
      var specs := INDEXES;
      if Files in tables { specs := specs + [FILES_INDEX]; }
      for i := 0 to |specs|
        invariant start.tables == tables && start.keys == keys
        invariant start.referable == referable && start.constraints == constraints
        invariant RunFrom(dialect, start, all, 0) == RunFrom(dialect, Now(), all, i)
        invariant forall j :: i <= j < |specs| ==>
                    (Covered(indexes, specs[j].index) <==> Covered(existing, specs[j].index))
      {
        assert specs[i] == all[i];
        if HasColumns(tables, specs[i].index) && !Covered(existing, specs[i].index) {
          ghost var before := indexes;
          if specs[i].name !in indexes {
            indexes := indexes[specs[i].name := specs[i].index];
            OthersStayUncovered(before, specs[i], specs, i);
          }
        }
      }
      if Files !in tables { assert all[5] == FILES_INDEX; }
    }

    method AddMissingColumns(names: set<TableName>) returns (ok: bool)
      requires names == tables.Keys
      modifies this
      ensures ok ==> Migrated(dialect, old(Now())) == RunFrom(dialect, Now(), STAGES, 4)
      ensures !ok ==> Migrated(dialect, old(Now())) == Migration(Now(), false)
      ensures names == tables.Keys
    {
      StageOrder();
      ghost var s0 := Now();
      if ScanJobs in names && ApiKeyId !in tables[ScanJobs] {
        ok := AddScanJobsApiKeyId();
        if !ok { return; }
      }
      ghost var s1 := Now();
      Advance(dialect, s0, s1, 0);

      if Files in names && Filename !in tables[Files] { AddPlainColumn(Files, Filename); }
      ghost var s2 := Now();
      Advance(dialect, s1, s2, 1);

      ghost var s3 := s2;
      if ApiKeys in names {
        var columns := tables[ApiKeys];
        if RevokedAt !in columns { AddPlainColumn(ApiKeys, RevokedAt); }
        s3 := Now();
        if LastUsedAt !in columns { AddPlainColumn(ApiKeys, LastUsedAt); }
      }
      Advance(dialect, s2, s3, 2);
      Advance(dialect, s3, Now(), 3);
      ok := true;
    }

    method CreateMissingTables(names: set<TableName>) returns (ok: bool)
      requires names == tables.Keys
      modifies this
      ensures ok ==> RunFrom(dialect, old(Now()), STAGES, 4) == RunFrom(dialect, Now(), STAGES, 8)
      ensures !ok ==> RunFrom(dialect, old(Now()), STAGES, 4) == Migration(Now(), false)
    {
      StageOrder();
      ghost var s4 := Now();
      if ApiKeyUsages !in names {
        ok := CreateMissingTable(CREATE_USAGES);
        if !ok { return; }
      }
      ghost var s5 := Now();
      Advance(dialect, s4, s5, 4);
      assert forall t :: t != ApiKeyUsages ==> (t in names <==> t in tables);

      ghost var s6 := s5;
      if AdminUsers !in names {
        ok := CreateMissingTable(CREATE_ADMINS);
        s6 := Now();
      } else if IsActive !in tables[AdminUsers] {
        AddPlainColumn(AdminUsers, IsActive);
      }
      ghost var s7 := Now();
      Advance(dialect, s5, s6, 5);
      Advance(dialect, s6, s7, 6);

      if ApiKeyAuditLogs !in names {
        ok := CreateMissingTable(CREATE_AUDIT_LOGS);
        if !ok { return; }
      }
      Advance(dialect, s7, Now(), 7);
      ok := true;
    }

    /** The columns and tables are looked up by the names found at the start. */
    method RunMigrations() returns (ok: bool)
      modifies this
      ensures Migration(Now(), ok) == Migrated(dialect, old(Now()))
    {
      var names := tables.Keys;
      ok := AddMissingColumns(names);
      if !ok { return; }
      ok := CreateMissingTables(names);
      if !ok { return; }
      IndexesComeLast(dialect, Now(), 0);
      AddPerformanceIndexes();
    }
  }

  lemma Advance(d: Dialect, s: Schema, next: Schema, k: nat)
    requires k < |STAGES| && Apply(d, s, STAGES[k]) == Some(next)
    ensures RunFrom(d, s, STAGES, k) == RunFrom(d, next, STAGES, k + 1)
  {
  }

  /** Where each requirement stands in the list. */
  lemma StageOrder()
    ensures |STAGES| == 14
    ensures STAGES[0] == ADD_JOBS_KEY && STAGES[1] == ADD_FILENAME
    ensures STAGES[2] == ADD_REVOKED_AT && STAGES[3] == ADD_LAST_USED_AT
    ensures STAGES[4] == CREATE_USAGES && STAGES[5] == CREATE_ADMINS
    ensures STAGES[6] == ADD_IS_ACTIVE && STAGES[7] == CREATE_AUDIT_LOGS
    ensures forall i :: 8 <= i < 14 ==> STAGES[i] == (INDEXES + [FILES_INDEX])[i - 8]
  {
  }

  lemma {:induction false} IndexesComeLast(d: Dialect, s: Schema, i: nat)
    requires i <= 6
    ensures RunFrom(d, s, STAGES, 8 + i) == RunFrom(d, s, INDEXES + [FILES_INDEX], i)
    decreases 6 - i
  {
    StageOrder();
    if i < 6 {
      var next := Apply(d, s, STAGES[8 + i]);
      if next.Some? { IndexesComeLast(d, next.value, i + 1); }
    }
  }

  lemma {:induction false} NothingToIndex(d: Dialect, s: Schema, stages: seq<Stage>, k: nat)
    requires k <= |stages| && d == OtherDialect
    requires forall i :: 0 <= i < |stages| ==> stages[i].AddIndex?
    ensures RunFrom(d, s, stages, k) == Migration(s, true)
    decreases |stages| - k
  {
    if k < |stages| { NothingToIndex(d, s, stages, k + 1); }
  }

  /** The wanted indexes differ in name, and none serves for another. */
  predicate Separate(a: Stage, b: Stage)
    requires a.AddIndex? && b.AddIndex?
  {
    a.name != b.name && !Serves(a.index, b.index)
  }

  lemma IndexesAreSeparate()
    ensures forall i, j :: 0 <= i < 6 && 0 <= j < 6 && i != j ==>
              Separate((INDEXES + [FILES_INDEX])[i], (INDEXES + [FILES_INDEX])[j])
  {
  }

  /** Creating one index decides nothing about the ones after it, so looking
      the existing indexes up once is as good as looking each time. */
  lemma OthersStayUncovered(before: map<IndexName, Index>, st: Stage, specs: seq<Stage>, i: nat)
    requires i < |specs| && st == specs[i] && st.AddIndex? && st.name !in before
    requires specs == INDEXES || specs == INDEXES + [FILES_INDEX]
    ensures forall j :: i < j < |specs| ==>
              (Covered(before[st.name := st.index], specs[j].index) <==> Covered(before, specs[j].index))
  {
    IndexesAreSeparate();
    forall j | i < j < |specs|
      ensures Covered(before[st.name := st.index], specs[j].index) <==> Covered(before, specs[j].index)
    {
      AddedIndexServesOnlyItself(before, st, specs[j].index);
    }
  }

  lemma AddedIndexServesOnlyItself(before: map<IndexName, Index>, st: Stage, wanted: Index)
    requires st.AddIndex? && st.name !in before && !Serves(st.index, wanted)
    ensures Covered(before[st.name := st.index], wanted) <==> Covered(before, wanted)
  {
    var after := before[st.name := st.index];
    if Covered(before, wanted) {
      var name :| name in before && Serves(before[name], wanted);
      assert name in after && Serves(after[name], wanted);
    }
    if Covered(after, wanted) {
      var name :| name in after && Serves(after[name], wanted);
      assert name in before && Serves(before[name], wanted);
    }
  }
}
