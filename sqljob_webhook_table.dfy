/**
 * The webhook's two test tables as statements about the model: the create
 * table, one lemma per entry, and the ordered update table, whose entries
 * run one after the other against the same stored job so that admitted
 * patches accumulate.
 */
module SqlJobWebhookTable {
  import opened Wrappers
  import opened SqlJobTypes
  import opened SqlJobWebhook
  import opened SqlJobStore
  import opened Runs
  import Cron

  /**
   * BackoffLimit and RestartPolicy are left unset by both tables. The model
   * assumes the stored job carries these defaults; the RestartPolicy entry
   * only needs a default other than Never.
   */
  const DefaultBackoffLimit: int32 := 5
  const DefaultRestartPolicy: RestartPolicy := OnFailure

  //
  // The create table.
  //

  /** The job every create entry starts from: MariaDB, user and password secret all named "foo". */
  function CreateJob(schedule: Option<Schedule>, sql: Option<string>,
                     successfulLimit: Option<int32>, failedLimit: Option<int32>): SqlJobSpec
  {
    SqlJobSpec(
      mariaDBRef := MariaDBRef("foo", false),
      username := "foo",
      passwordSecretKeyRef := SecretKeySelector("foo", "foo"),
      database := None,
      sql := sql,
      sqlConfigMapKeyRef := None,
      dependsOn := [],
      schedule := schedule,
      backoffLimit := DefaultBackoffLimit,
      restartPolicy := DefaultRestartPolicy,
      resources := None,
      successfulJobsHistoryLimit := successfulLimit,
      failedJobsHistoryLimit := failedLimit)
  }

  const EveryMinute := Schedule("*/1 * * * *", false)
  const FooSchedule := Schedule("foo", false)

  /** The reasons of a create request, rule by rule. */
  lemma CreateReasons(s: SqlJobSpec)
    ensures ValidateCreate(s) ==
      SourceViolations(s) +
      FieldRuleViolations(ScheduleField, s) +
      FieldRuleViolations(BackoffLimitField, s) +
      FieldRuleViolations(SuccessfulJobsHistoryLimitField, s) +
      FieldRuleViolations(FailedJobsHistoryLimitField, s)
  {
    var a, b := FieldRuleViolations(ScheduleField, s), FieldRuleViolations(BackoffLimitField, s);
    var c, d := FieldRuleViolations(SuccessfulJobsHistoryLimitField, s), FieldRuleViolations(FailedJobsHistoryLimitField, s);
    assert ValidateCreate(s) == SourceViolations(s) + (((a + b) + c) + d) by {
      RuleViolationsByField(s);
    }
    AppendRegroup(SourceViolations(s), a, b, c, d);
  }

  /** What each rule of the table reports on spec `s`, spelled out field by field. */
  lemma RuleReasons(s: SqlJobSpec)
    ensures FieldRuleViolations(ScheduleField, s) ==
      if s.schedule.Some? && !Cron.ValidCron(s.schedule.value.cron)
      then [MalformedRecurrence(s.schedule.value.cron)] else []
    ensures FieldRuleViolations(BackoffLimitField, s) ==
      if s.backoffLimit < 0 then [OutOfBoundsValue(BackoffLimitField, s.backoffLimit as int)] else []
    ensures FieldRuleViolations(SuccessfulJobsHistoryLimitField, s) ==
      if s.successfulJobsHistoryLimit.Some? && s.successfulJobsHistoryLimit.value < 0
      then [OutOfBoundsValue(SuccessfulJobsHistoryLimitField, s.successfulJobsHistoryLimit.value as int)] else []
    ensures FieldRuleViolations(FailedJobsHistoryLimitField, s) ==
      if s.failedJobsHistoryLimit.Some? && s.failedJobsHistoryLimit.value < 0
      then [OutOfBoundsValue(FailedJobsHistoryLimitField, s.failedJobsHistoryLimit.value as int)] else []
  {
  }

  /** Regrouping a concatenation of five sequences. */
  lemma AppendRegroup<T>(x: seq<T>, a: seq<T>, b: seq<T>, c: seq<T>, d: seq<T>)
    ensures x + (((a + b) + c) + d) == (((x + a) + b) + c) + d
  {
  }

  // Each create entry is stated for every job that has the fields the entry
  // sets, whatever its other fields hold; CreateTable instantiates them.

  /** "No SQL": a job with valid MariaDB reference and credentials but no SQL source is denied. */
  lemma CreateNoSql(s: SqlJobSpec)
    requires s.sql.None? && s.sqlConfigMapKeyRef.None? && s.schedule.None?
    requires s.backoffLimit >= 0
    requires s.successfulJobsHistoryLimit.None? && s.failedJobsHistoryLimit.None?
    ensures Admit(Create(s)) == Denied([MissingSqlSource])
  {
    CreateReasons(s);
    RuleReasons(s);
  }

  /** "Invalid schedule": a malformed cron expression, and no SQL source either. */
  lemma CreateInvalidSchedule(s: SqlJobSpec)
    requires s.sql.None? && s.sqlConfigMapKeyRef.None?
    requires s.schedule.Some? && !Cron.ValidCron(s.schedule.value.cron)
    requires s.backoffLimit >= 0
    requires s.successfulJobsHistoryLimit.None? && s.failedJobsHistoryLimit.None?
    ensures Admit(Create(s)) == Denied([MissingSqlSource, MalformedRecurrence(s.schedule.value.cron)])
  {
    CreateReasons(s);
    RuleReasons(s);
  }

  /**
   * "Invalid history limits": SQL set, a malformed cron expression, both
   * limits -5; every problem is reported, in field order.
   */
  lemma CreateInvalidHistoryLimits(s: SqlJobSpec)
    requires s.sql.Some?
    requires s.schedule.Some? && !Cron.ValidCron(s.schedule.value.cron)
    requires s.backoffLimit >= 0
    requires s.successfulJobsHistoryLimit == Some(-5) && s.failedJobsHistoryLimit == Some(-5)
    ensures Admit(Create(s)) == Denied([
      MalformedRecurrence(s.schedule.value.cron),
      OutOfBoundsValue(SuccessfulJobsHistoryLimitField, -5),
      OutOfBoundsValue(FailedJobsHistoryLimitField, -5)])
  {
    CreateReasons(s);
    RuleReasons(s);
  }

  /** "Valid": SQL set and no schedule; an absent schedule is not an error. */
  lemma CreateValid(s: SqlJobSpec)
    requires s.sql.Some? && s.schedule.None?
    requires s.backoffLimit >= 0
    requires s.successfulJobsHistoryLimit.None? && s.failedJobsHistoryLimit.None?
    ensures Admit(Create(s)) == Allowed
  {
    ValidateCreateAccepts(s);
  }

  /** "Valid with schedule": SQL set and a well-formed cron expression. */
  lemma CreateValidWithSchedule(s: SqlJobSpec)
    requires s.sql.Some?
    requires s.schedule.Some? && Cron.ValidCron(s.schedule.value.cron)
    requires s.backoffLimit >= 0
    requires s.successfulJobsHistoryLimit.None? && s.failedJobsHistoryLimit.None?
    ensures Admit(Create(s)) == Allowed
  {
    ValidateCreateAccepts(s);
  }

  /**
   * "Valid with schedule and history limits": limits of 5 are fine, but the
   * entry's cron expression is malformed, so the job is denied for its
   * schedule alone.
   */
  lemma CreateScheduleAndHistoryLimits(s: SqlJobSpec)
    requires s.sql.Some?
    requires s.schedule.Some? && !Cron.ValidCron(s.schedule.value.cron)
    requires s.backoffLimit >= 0
    requires s.successfulJobsHistoryLimit == Some(5) && s.failedJobsHistoryLimit == Some(5)
    ensures Admit(Create(s)) == Denied([MalformedRecurrence(s.schedule.value.cron)])
  {
    CreateReasons(s);
    RuleReasons(s);
  }

  /** The create table, entry by entry, on the jobs it submits. */
  lemma CreateTable()
    ensures Admit(Create(CreateJob(None, None, None, None))) == Denied([MissingSqlSource])
    ensures Admit(Create(CreateJob(Some(FooSchedule), None, None, None))) ==
      Denied([MissingSqlSource, MalformedRecurrence("foo")])
    ensures Admit(Create(CreateJob(Some(FooSchedule), Some("foo"), Some(-5), Some(-5)))) ==
      Denied([MalformedRecurrence("foo"),
              OutOfBoundsValue(SuccessfulJobsHistoryLimitField, -5),
              OutOfBoundsValue(FailedJobsHistoryLimitField, -5)])
    ensures Admit(Create(CreateJob(None, Some("foo"), None, None))) == Allowed
    ensures Admit(Create(CreateJob(Some(EveryMinute), Some("foo"), None, None))) == Allowed
    ensures Admit(Create(CreateJob(Some(FooSchedule), Some("foo"), Some(5), Some(5)))) ==
      Denied([MalformedRecurrence("foo")])
  {
    Cron.FooInvalid();
    Cron.EveryMinuteValid();
    CreateNoSql(CreateJob(None, None, None, None));
    CreateInvalidSchedule(CreateJob(Some(FooSchedule), None, None, None));
    CreateInvalidHistoryLimits(CreateJob(Some(FooSchedule), Some("foo"), Some(-5), Some(-5)));
    CreateValid(CreateJob(None, Some("foo"), None, None));
    CreateValidWithSchedule(CreateJob(Some(EveryMinute), Some("foo"), None, None));
    CreateScheduleAndHistoryLimits(CreateJob(Some(FooSchedule), Some("foo"), Some(5), Some(5)));
  }

  /**
   * The create table end to end: each entry deletes the stored job and
   * creates its own, and gets the outcome the table expects.
   */
  method CreateContext() returns (outcomes: seq<Outcome>)
    ensures outcomes == [
      Rejected([MissingSqlSource]),
      Rejected([MissingSqlSource, MalformedRecurrence("foo")]),
      Rejected([MalformedRecurrence("foo"),
                OutOfBoundsValue(SuccessfulJobsHistoryLimitField, -5),
                OutOfBoundsValue(FailedJobsHistoryLimitField, -5)]),
      Written,
      Written,
      Rejected([MalformedRecurrence("foo")])]
  {
    CreateTable();
    var store := new Store();
    var o0 := RunCreateEntry(store, CreateJob(None, None, None, None));
    var o1 := RunCreateEntry(store, CreateJob(Some(FooSchedule), None, None, None));
    var o2 := RunCreateEntry(store, CreateJob(Some(FooSchedule), Some("foo"), Some(-5), Some(-5)));
    var o3 := RunCreateEntry(store, CreateJob(None, Some("foo"), None, None));
    var o4 := RunCreateEntry(store, CreateJob(Some(EveryMinute), Some("foo"), None, None));
    var o5 := RunCreateEntry(store, CreateJob(Some(FooSchedule), Some("foo"), Some(5), Some(5)));
    outcomes := [o0, o1, o2, o3, o4, o5];
  }

  //
  // The ordered update table.
  //

  const CreateUsersTable :=
    "CREATE TABLE IF NOT EXISTS users (id bigint PRIMARY KEY AUTO_INCREMENT, "
    + "username varchar(255) NOT NULL, email varchar(255) NOT NULL, "
    + "UNIQUE KEY name__unique_idx (username), UNIQUE KEY email__unique_idx (email));"

  const CpuRequest := ResourceRequirements(map["cpu" := "200m"], map[])
  const FooConfigMap := ConfigMapKeySelector("foo", "")

  /**
   * What the update table needs of the job it starts from: inline SQL, and
   * values that the rejected entries' patches actually change.
   */
  predicate FitsUpdateTable(s: SqlJobSpec) {
    s.sql.Some? && s.sql != Some("foo") &&
    s.restartPolicy != Never &&
    s.mariaDBRef.refName != "another-mariadb" &&
    s.username != "foo" &&
    s.passwordSecretKeyRef.secretName != "foo" &&
    s.database != Some("foo") &&
    s.dependsOn != []
  }

  // The stored job after each admitted entry, starting from job s.
  function AfterBackoffLimit(s: SqlJobSpec): SqlJobSpec { s.(backoffLimit := 20) }
  function AfterResources(s: SqlJobSpec): SqlJobSpec { AfterBackoffLimit(s).(resources := Some(CpuRequest)) }
  function AfterConfigMap(s: SqlJobSpec): SqlJobSpec { AfterResources(s).(sqlConfigMapKeyRef := Some(FooConfigMap)) }
  function AfterSchedule(s: SqlJobSpec): SqlJobSpec { AfterConfigMap(s).(schedule := Some(EveryMinute)) }
  function AfterSuccessfulLimit(s: SqlJobSpec): SqlJobSpec { AfterSchedule(s).(successfulJobsHistoryLimit := Some(5)) }
  function AfterFailedLimit(s: SqlJobSpec): SqlJobSpec { AfterSuccessfulLimit(s).(failedJobsHistoryLimit := Some(5)) }

  /** The update entries' patch functions, in table order. */
  const UpdatingBackoffLimit: Patch := [SetBackoffLimit(20)]
  const UpdatingRestartPolicy: Patch := [SetRestartPolicy(Never)]
  const UpdatingResources: Patch := [SetResources(Some(CpuRequest))]
  const UpdatingMariaDBRef: Patch := [SetMariaDBRefName("another-mariadb")]
  const UpdatingUsername: Patch := [SetUsername("foo")]
  const UpdatingPasswordSecretKeyRef: Patch := [SetPasswordSecretKeyRefName("foo")]
  const UpdatingDatabase: Patch := [SetDatabase(Some("foo"))]
  const UpdatingDependsOn: Patch := [SetDependsOn([])]
  const UpdatingSql: Patch := [SetSql(Some("foo"))]
  const UpdatingSqlConfigMapKeyRef: Patch := [SetSqlConfigMapKeyRef(Some(FooConfigMap))]
  const UpdatingSchedule: Patch := [SetSchedule(Some(EveryMinute))]
  const UpdatingWrongSchedule: Patch := [SetSchedule(Some(FooSchedule))]
  const UpdatingSuccessfulLimit: Patch := [SetSuccessfulJobsHistoryLimit(Some(5))]
  const UpdatingWrongSuccessfulLimit: Patch := [SetSuccessfulJobsHistoryLimit(Some(-5))]
  const UpdatingFailedLimit: Patch := [SetFailedJobsHistoryLimit(Some(5))]
  const UpdatingWrongFailedLimit: Patch := [SetFailedJobsHistoryLimit(Some(-5))]
  const RemovingSql: Patch := [SetSql(None), SetSqlConfigMapKeyRef(None)]

  /** The update table, in four runs of four entries and the removal of SQL. */
  const UpdateTable: seq<Patch> :=
    FirstEntries + ImmutableEntries + SourceEntries + HistoryLimitEntries + [RemovingSql]

  /** BackoffLimit, RestartPolicy, Resources and MariaDBRef. */
  const FirstEntries: seq<Patch> := [
    UpdatingBackoffLimit, UpdatingRestartPolicy, UpdatingResources, UpdatingMariaDBRef]

  const FirstOutcomes: seq<Outcome> := [
    Written,
    Rejected([ImmutableFieldChanged(RestartPolicyField)]),
    Written,
    Rejected([ImmutableFieldChanged(MariaDBRefField)])]

  /** Username, PasswordSecretKeyRef, Database and DependsOn. */
  const ImmutableEntries: seq<Patch> := [
    UpdatingUsername, UpdatingPasswordSecretKeyRef, UpdatingDatabase, UpdatingDependsOn]

  const ImmutableOutcomes: seq<Outcome> := [
    Rejected([ImmutableFieldChanged(UsernameField)]),
    Rejected([ImmutableFieldChanged(PasswordSecretKeyRefField)]),
    Rejected([ImmutableFieldChanged(DatabaseField)]),
    Rejected([ImmutableFieldChanged(DependsOnField)])]

  /** Sql, SqlConfigMapKeyRef and Schedule twice. */
  const SourceEntries: seq<Patch> := [
    UpdatingSql, UpdatingSqlConfigMapKeyRef, UpdatingSchedule, UpdatingWrongSchedule]

  const SourceOutcomes: seq<Outcome> := [
    Rejected([ImmutableFieldChanged(SqlField)]),
    Written,
    Written,
    Rejected([MalformedRecurrence("foo")])]

  /** The two history limits, each set first to 5 and then to -5. */
  const HistoryLimitEntries: seq<Patch> := [
    UpdatingSuccessfulLimit, UpdatingWrongSuccessfulLimit, UpdatingFailedLimit, UpdatingWrongFailedLimit]

  const HistoryLimitOutcomes: seq<Outcome> := [
    Written,
    Rejected([OutOfBoundsValue(SuccessfulJobsHistoryLimitField, -5)]),
    Written,
    Rejected([OutOfBoundsValue(FailedJobsHistoryLimitField, -5)])]

  const RemovingSqlOutcome: Outcome := Rejected([ImmutableFieldChanged(SqlField), MissingSqlSource])

  /** What each entry of the update table expects, in table order. */
  const ExpectedUpdateOutcomes: seq<Outcome> :=
    FirstOutcomes + ImmutableOutcomes + SourceOutcomes + HistoryLimitOutcomes + [RemovingSqlOutcome]

  /** A one-assignment patch is that assignment, and changes at most the field it assigns. */
  lemma OneEditChanges(s: SqlJobSpec, e: Edit)
    ensures ApplyPatch(s, [e]) == ApplyEdit(s, e)
    ensures forall g :: Changed(g, s, ApplyPatch(s, [e])) ==> g == EditedField(e)
  {
    assert [e][1..] == [];
  }

  /** An entry whose one assignment changes an immutable field is rejected, naming that field. */
  lemma ImmutableEntry(s: SqlJobSpec, e: Edit)
    requires IsImmutable(EditedField(e)) && Changed(EditedField(e), s, ApplyEdit(s, e))
    requires HasSqlSource(ApplyEdit(s, e))
    ensures PatchStep(s, [e]) == (s, Rejected([ImmutableFieldChanged(EditedField(e))]))
  {
    OneEditChanges(s, e);
    SingleFieldUpdateReasons(s, ApplyEdit(s, e), EditedField(e));
    assert [ImmutableFieldChanged(EditedField(e))] + [] == [ImmutableFieldChanged(EditedField(e))];
  }

  /** An entry whose one assignment changes a field that passes its rule is admitted. */
  lemma AdmittedEntry(s: SqlJobSpec, e: Edit)
    requires !IsImmutable(EditedField(e)) && Passes(EditedField(e), ApplyEdit(s, e))
    requires HasSqlSource(ApplyEdit(s, e))
    ensures PatchStep(s, [e]) == (ApplyEdit(s, e), Written)
  {
    OneEditChanges(s, e);
    ValidateUpdateAccepts(s, ApplyEdit(s, e));
  }

  /** An entry that assigns a well-formed schedule to a job with a SQL source is admitted. */
  lemma ScheduleEntry(s: SqlJobSpec, schedule: Schedule)
    requires Cron.ValidCron(schedule.cron) && HasSqlSource(s)
    ensures PatchStep(s, [SetSchedule(Some(schedule))]) == (s.(schedule := Some(schedule)), Written)
  {
    var e := SetSchedule(Some(schedule));
    assert EditedField(e) == ScheduleField;
    assert ApplyEdit(s, e) == s.(schedule := Some(schedule));
    AdmittedEntry(s, e);
  }

  /** An entry whose one assignment changes a field to a value its rule rejects. */
  lemma RevalidatedEntry(s: SqlJobSpec, e: Edit, v: Violation)
    requires !IsImmutable(EditedField(e)) && Changed(EditedField(e), s, ApplyEdit(s, e))
    requires FieldRuleViolations(EditedField(e), ApplyEdit(s, e)) == [v]
    requires HasSqlSource(ApplyEdit(s, e))
    ensures PatchStep(s, [e]) == (s, Rejected([v]))
  {
    OneEditChanges(s, e);
    SingleFieldUpdateReasons(s, ApplyEdit(s, e), EditedField(e));
    assert [v] + [] == [v];
  }

  /** The job the update table creates before its entries run. */
  function UpdateFixture(): SqlJobSpec {
    SqlJobSpec(
      mariaDBRef := MariaDBRef("mariadb-webhook", true),
      username := "test",
      passwordSecretKeyRef := SecretKeySelector("test", "test"),
      database := Some("test"),
      sql := Some(CreateUsersTable),
      sqlConfigMapKeyRef := None,
      dependsOn := [LocalObjectReference("sqljob-webhook")],
      schedule := None,
      backoffLimit := DefaultBackoffLimit,
      restartPolicy := DefaultRestartPolicy,
      resources := None,
      successfulJobsHistoryLimit := None,
      failedJobsHistoryLimit := None)
  }

  /** The fixture is admitted at creation and fits the update table. */
  lemma FixtureFitsUpdateTable()
    ensures Admit(Create(UpdateFixture())) == Allowed
    ensures FitsUpdateTable(UpdateFixture())
  {
    CreateValid(UpdateFixture());
  }

  /** Updating BackoffLimit: no ceiling stops 20. */
  lemma UpdateBackoffLimitEntry(s: SqlJobSpec)
    requires FitsUpdateTable(s)
    ensures PatchStep(s, UpdatingBackoffLimit) == (AfterBackoffLimit(s), Written)
  {
    AdmittedEntry(s, SetBackoffLimit(20));
  }

  /** Updating RestartPolicy: immutable. */
  lemma UpdateRestartPolicyEntry(s: SqlJobSpec)
    requires FitsUpdateTable(s)
    ensures PatchStep(AfterBackoffLimit(s), UpdatingRestartPolicy) == (AfterBackoffLimit(s), Rejected([ImmutableFieldChanged(RestartPolicyField)]))
  {
    ImmutableEntry(AfterBackoffLimit(s), SetRestartPolicy(Never));
  }

  /** Updating Resources: freely mutable. */
  lemma UpdateResourcesEntry(s: SqlJobSpec)
    requires FitsUpdateTable(s)
    ensures PatchStep(AfterBackoffLimit(s), UpdatingResources) == (AfterResources(s), Written)
  {
    AdmittedEntry(AfterBackoffLimit(s), SetResources(Some(CpuRequest)));
  }

  /** Updating MariaDBRef: immutable. */
  lemma UpdateMariaDBRefEntry(s: SqlJobSpec)
    requires FitsUpdateTable(s)
    ensures PatchStep(AfterResources(s), UpdatingMariaDBRef) == (AfterResources(s), Rejected([ImmutableFieldChanged(MariaDBRefField)]))
  {
    ImmutableEntry(AfterResources(s), SetMariaDBRefName("another-mariadb"));
  }

  /** Updating Username: immutable. */
  lemma UpdateUsernameEntry(s: SqlJobSpec)
    requires FitsUpdateTable(s)
    ensures PatchStep(AfterResources(s), UpdatingUsername) == (AfterResources(s), Rejected([ImmutableFieldChanged(UsernameField)]))
  {
    ImmutableEntry(AfterResources(s), SetUsername("foo"));
  }

  /** Updating PasswordSecretKeyRef: immutable. */
  lemma UpdatePasswordSecretKeyRefEntry(s: SqlJobSpec)
    requires FitsUpdateTable(s)
    ensures PatchStep(AfterResources(s), UpdatingPasswordSecretKeyRef) == (AfterResources(s), Rejected([ImmutableFieldChanged(PasswordSecretKeyRefField)]))
  {
    ImmutableEntry(AfterResources(s), SetPasswordSecretKeyRefName("foo"));
  }

  /** Updating Database: immutable. */
  lemma UpdateDatabaseEntry(s: SqlJobSpec)
    requires FitsUpdateTable(s)
    ensures PatchStep(AfterResources(s), UpdatingDatabase) == (AfterResources(s), Rejected([ImmutableFieldChanged(DatabaseField)]))
  {
    ImmutableEntry(AfterResources(s), SetDatabase(Some("foo")));
  }

  /** Updating DependsOn (cleared): immutable. */
  lemma UpdateDependsOnEntry(s: SqlJobSpec)
    requires FitsUpdateTable(s)
    ensures PatchStep(AfterResources(s), UpdatingDependsOn) == (AfterResources(s), Rejected([ImmutableFieldChanged(DependsOnField)]))
  {
    ImmutableEntry(AfterResources(s), SetDependsOn([]));
  }

  /** Updating Sql: immutable. */
  lemma UpdateSqlEntry(s: SqlJobSpec)
    requires FitsUpdateTable(s)
    ensures PatchStep(AfterResources(s), UpdatingSql) == (AfterResources(s), Rejected([ImmutableFieldChanged(SqlField)]))
  {
    ImmutableEntry(AfterResources(s), SetSql(Some("foo")));
  }

  /** Updating SqlConfigMapKeyRef while Sql stays set: both sources may be present. */
  lemma UpdateSqlConfigMapKeyRefEntry(s: SqlJobSpec)
    requires FitsUpdateTable(s)
    ensures PatchStep(AfterResources(s), UpdatingSqlConfigMapKeyRef) == (AfterConfigMap(s), Written)
  {
    AdmittedEntry(AfterResources(s), SetSqlConfigMapKeyRef(Some(FooConfigMap)));
  }

  /** Updating Schedule to a valid cron expression. */
  lemma UpdateScheduleEntry(s: SqlJobSpec)
    requires FitsUpdateTable(s)
    ensures PatchStep(AfterConfigMap(s), UpdatingSchedule) == (AfterSchedule(s), Written)
  {
    Cron.EveryMinuteValid();
    ScheduleEntry(AfterConfigMap(s), EveryMinute);
  }

  /** Updating with wrong Schedule: the changed cron expression is re-validated. */
  lemma UpdateWrongScheduleEntry(s: SqlJobSpec)
    requires FitsUpdateTable(s)
    ensures PatchStep(AfterSchedule(s), UpdatingWrongSchedule) == (AfterSchedule(s), Rejected([MalformedRecurrence("foo")]))
  {
    Cron.FooInvalid();
    RevalidatedEntry(AfterSchedule(s), SetSchedule(Some(FooSchedule)), MalformedRecurrence("foo"));
  }

  /** Updating SuccessfulJobsHistoryLimit to 5. */
  lemma UpdateSuccessfulLimitEntry(s: SqlJobSpec)
    requires FitsUpdateTable(s)
    ensures PatchStep(AfterSchedule(s), UpdatingSuccessfulLimit) == (AfterSuccessfulLimit(s), Written)
  {
    AdmittedEntry(AfterSchedule(s), SetSuccessfulJobsHistoryLimit(Some(5)));
  }

  /** Updating SuccessfulJobsHistoryLimit to -5: negative. */
  lemma UpdateWrongSuccessfulLimitEntry(s: SqlJobSpec)
    requires FitsUpdateTable(s)
    ensures PatchStep(AfterSuccessfulLimit(s), UpdatingWrongSuccessfulLimit) == (AfterSuccessfulLimit(s), Rejected([OutOfBoundsValue(SuccessfulJobsHistoryLimitField, -5)]))
  {
    RevalidatedEntry(AfterSuccessfulLimit(s), SetSuccessfulJobsHistoryLimit(Some(-5)),
      OutOfBoundsValue(SuccessfulJobsHistoryLimitField, -5));
  }

  /** Updating FailedJobsHistoryLimit to 5. */
  lemma UpdateFailedLimitEntry(s: SqlJobSpec)
    requires FitsUpdateTable(s)
    ensures PatchStep(AfterSuccessfulLimit(s), UpdatingFailedLimit) == (AfterFailedLimit(s), Written)
  {
    AdmittedEntry(AfterSuccessfulLimit(s), SetFailedJobsHistoryLimit(Some(5)));
  }

  /** Updating FailedJobsHistoryLimit to -5: negative. */
  lemma UpdateWrongFailedLimitEntry(s: SqlJobSpec)
    requires FitsUpdateTable(s)
    ensures PatchStep(AfterFailedLimit(s), UpdatingWrongFailedLimit) == (AfterFailedLimit(s), Rejected([OutOfBoundsValue(FailedJobsHistoryLimitField, -5)]))
  {
    RevalidatedEntry(AfterFailedLimit(s), SetFailedJobsHistoryLimit(Some(-5)),
      OutOfBoundsValue(FailedJobsHistoryLimitField, -5));
  }

  /** Removing SQL, after the ConfigMap source was added: rejected for changing inline SQL and for leaving no source. */
  lemma RemovingSqlEntry(s: SqlJobSpec)
    requires FitsUpdateTable(s)
    ensures PatchStep(AfterFailedLimit(s), RemovingSql) == (AfterFailedLimit(s), RemovingSqlOutcome)
  {
    RemovingBothSources(AfterFailedLimit(s));
  }

  /** The first four entries: BackoffLimit and Resources are admitted, the rest rejected. */
  lemma UpdateTableFirstEntries(s: SqlJobSpec)
    requires FitsUpdateTable(s)
    ensures Replay(s, FirstEntries) == (AfterResources(s), FirstOutcomes)
  {
    var s1, s2 := AfterBackoffLimit(s), AfterResources(s);
    UpdateBackoffLimitEntry(s);
    UpdateRestartPolicyEntry(s);
    UpdateResourcesEntry(s);
    UpdateMariaDBRefEntry(s);
    RunFour(PatchStep, s, UpdatingBackoffLimit, UpdatingRestartPolicy, UpdatingResources, UpdatingMariaDBRef,
      s1, s1, s2, s2, FirstOutcomes[0], FirstOutcomes[1], FirstOutcomes[2], FirstOutcomes[3]);
  }

  /** The next four entries each change one immutable field and are rejected. */
  lemma UpdateTableImmutableEntries(s: SqlJobSpec)
    requires FitsUpdateTable(s)
    ensures Replay(AfterResources(s), ImmutableEntries) == (AfterResources(s), ImmutableOutcomes)
  {
    var s2 := AfterResources(s);
    UpdateUsernameEntry(s);
    UpdatePasswordSecretKeyRefEntry(s);
    UpdateDatabaseEntry(s);
    UpdateDependsOnEntry(s);
    RunFour(PatchStep, s2, UpdatingUsername, UpdatingPasswordSecretKeyRef, UpdatingDatabase, UpdatingDependsOn,
      s2, s2, s2, s2, ImmutableOutcomes[0], ImmutableOutcomes[1], ImmutableOutcomes[2], ImmutableOutcomes[3]);
  }

  /** Inline SQL is immutable; the ConfigMap source and a well-formed schedule are admitted. */
  lemma UpdateTableSourceEntries(s: SqlJobSpec)
    requires FitsUpdateTable(s)
    ensures Replay(AfterResources(s), SourceEntries) == (AfterSchedule(s), SourceOutcomes)
  {
    var s2, s3, s4 := AfterResources(s), AfterConfigMap(s), AfterSchedule(s);
    UpdateSqlEntry(s);
    UpdateSqlConfigMapKeyRefEntry(s);
    UpdateScheduleEntry(s);
    UpdateWrongScheduleEntry(s);
    RunFour(PatchStep, s2, UpdatingSql, UpdatingSqlConfigMapKeyRef, UpdatingSchedule, UpdatingWrongSchedule,
      s2, s3, s4, s4, SourceOutcomes[0], SourceOutcomes[1], SourceOutcomes[2], SourceOutcomes[3]);
  }

  /** Each history limit is admitted at 5 and rejected at -5. */
  lemma UpdateTableHistoryLimitEntries(s: SqlJobSpec)
    requires FitsUpdateTable(s)
    ensures Replay(AfterSchedule(s), HistoryLimitEntries) == (AfterFailedLimit(s), HistoryLimitOutcomes)
  {
    var s4, s5, s6 := AfterSchedule(s), AfterSuccessfulLimit(s), AfterFailedLimit(s);
    UpdateSuccessfulLimitEntry(s);
    UpdateWrongSuccessfulLimitEntry(s);
    UpdateFailedLimitEntry(s);
    UpdateWrongFailedLimitEntry(s);
    RunFour(PatchStep, s4, UpdatingSuccessfulLimit, UpdatingWrongSuccessfulLimit, UpdatingFailedLimit, UpdatingWrongFailedLimit,
      s5, s5, s6, s6, HistoryLimitOutcomes[0], HistoryLimitOutcomes[1], HistoryLimitOutcomes[2], HistoryLimitOutcomes[3]);
  }

  /**
   * The ordered update table: running its entries one after the other from
   * a fitting job gives each entry's expected outcome, and the stored job
   * ends up with exactly the admitted patches applied.
   */
  lemma UpdateTableOutcomes(s: SqlJobSpec)
    requires FitsUpdateTable(s)
    ensures Replay(s, UpdateTable) == (AfterFailedLimit(s), ExpectedUpdateOutcomes)
  {
    var first, immutable, sources := FirstEntries, ImmutableEntries, SourceEntries;
    UpdateTableFirstEntries(s);
    UpdateTableImmutableEntries(s);
    UpdateTableSourceEntries(s);
    UpdateTableHistoryLimitEntries(s);
    RemovingSqlEntry(s);
    RunOne(PatchStep, AfterFailedLimit(s), RemovingSql);
    RunAppend(PatchStep, s, first, immutable);
    RunAppend(PatchStep, s, first + immutable, sources);
    RunAppend(PatchStep, s, first + immutable + sources, HistoryLimitEntries);
    RunAppend(PatchStep, s, first + immutable + sources + HistoryLimitEntries, [RemovingSql]);
  }

  /** Clearing both SQL sources of a job with inline SQL is rejected, for both reasons. */
  lemma RemovingBothSources(prev: SqlJobSpec)
    requires prev.sql.Some?
    ensures PatchStep(prev, RemovingSql) ==
      (prev, Rejected([ImmutableFieldChanged(SqlField), MissingSqlSource]))
  {
    var cleared := prev.(sql := None);
    var next := cleared.(sqlConfigMapKeyRef := None);
    assert RemovingSql[0] == SetSql(None);
    assert RemovingSql[1..] == [SetSqlConfigMapKeyRef(None)];
    OneEditChanges(cleared, SetSqlConfigMapKeyRef(None));
    assert ApplyEdit(prev, SetSql(None)) == cleared;
    assert ApplyPatch(prev, RemovingSql) == next;
    forall g | Changed(g, prev, next) ensures g == SqlField || g == SqlConfigMapKeyRefField {
      SpecEqualIffNoFieldChanged(prev, next);
    }
    SqlSourcesUpdateReasons(prev, next);
    assert FieldUpdateViolations(SqlField, prev, next) == [ImmutableFieldChanged(SqlField)];
    assert FieldUpdateViolations(SqlConfigMapKeyRefField, prev, next) == [];
    assert [ImmutableFieldChanged(SqlField)] + [] + [MissingSqlSource] ==
      [ImmutableFieldChanged(SqlField), MissingSqlSource];
    var reasons := ValidateUpdate(prev, next);
    assert reasons == [ImmutableFieldChanged(SqlField), MissingSqlSource];
    assert PatchStep(prev, RemovingSql) == (prev, Rejected(reasons));
  }

  /**
   * The ordered update context end to end: create the fixture in an empty
   * store, then run the update table against it; every entry gets the
   * outcome the table expects, and the stored job keeps the admitted patches.
   */
  method OrderedUpdateContext() returns (outcomes: seq<Outcome>, stored: SqlJobSpec)
    ensures outcomes == ExpectedUpdateOutcomes
    ensures stored == AfterFailedLimit(UpdateFixture())
  {
    var store := new Store();
    var created := store.Create(UpdateFixture());
    FixtureFitsUpdateTable();
    assert created == Written;
    UpdateTableOutcomes(UpdateFixture());
    outcomes := RunUpdateTable(store, UpdateTable);
    stored := store.stored.value;
  }
}
