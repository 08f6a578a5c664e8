/**
 * The SqlJob resource as the admission webhook sees it: the spec fields the
 * update table touches, a field enumeration that covers the whole spec, and
 * the one-field patches the update table applies.
 */
module SqlJobTypes {
  import opened Wrappers

  /** Go's int32, the width of BackoffLimit and of the history limits. */
  newtype int32 = x: int | -0x8000_0000 <= x < 0x8000_0000

  datatype LocalObjectReference = LocalObjectReference(name: string)

  /** The MariaDB instance the job runs against. */
  datatype MariaDBRef = MariaDBRef(refName: string, waitForIt: bool)

  /** Selects the key of a Secret that holds the password. */
  datatype SecretKeySelector = SecretKeySelector(secretName: string, secretKey: string)

  /** Selects the key of a ConfigMap that holds the SQL text. */
  datatype ConfigMapKeySelector = ConfigMapKeySelector(configMapName: string, configMapKey: string)

  datatype Schedule = Schedule(cron: string, suspend: bool)

  datatype RestartPolicy = Always | OnFailure | Never

  /** Compute resources; quantities are kept as their text, unparsed. */
  datatype ResourceRequirements = ResourceRequirements(requests: map<string, string>, limits: map<string, string>)

  datatype SqlJobSpec = SqlJobSpec(
    mariaDBRef: MariaDBRef,
    username: string,
    passwordSecretKeyRef: SecretKeySelector,
    database: Option<string>,
    sql: Option<string>,
    sqlConfigMapKeyRef: Option<ConfigMapKeySelector>,
    dependsOn: seq<LocalObjectReference>,
    schedule: Option<Schedule>,
    backoffLimit: int32,
    restartPolicy: RestartPolicy,
    resources: Option<ResourceRequirements>,
    successfulJobsHistoryLimit: Option<int32>,
    failedJobsHistoryLimit: Option<int32>)

  /** A job has SQL to run when inline SQL or a ConfigMap reference is present. */
  predicate HasSqlSource(s: SqlJobSpec) {
    s.sql.Some? || s.sqlConfigMapKeyRef.Some?
  }

  /** One identifier per field of SqlJobSpec. */
  datatype Field =
    | MariaDBRefField
    | UsernameField
    | PasswordSecretKeyRefField
    | DatabaseField
    | SqlField
    | SqlConfigMapKeyRefField
    | DependsOnField
    | ScheduleField
    | BackoffLimitField
    | RestartPolicyField
    | ResourcesField
    | SuccessfulJobsHistoryLimitField
    | FailedJobsHistoryLimitField

  const AllFields: seq<Field> := [
    MariaDBRefField, UsernameField, PasswordSecretKeyRefField, DatabaseField,
    SqlField, SqlConfigMapKeyRefField, DependsOnField, ScheduleField,
    BackoffLimitField, RestartPolicyField, ResourcesField,
    SuccessfulJobsHistoryLimitField, FailedJobsHistoryLimitField]

  /** The value of one field, tagged by its type. */
  datatype FieldValue =
    | RefValue(ref: MariaDBRef)
    | TextValue(text: string)
    | SecretValue(secret: SecretKeySelector)
    | OptTextValue(optText: Option<string>)
    | ConfigMapValue(configMap: Option<ConfigMapKeySelector>)
    | RefsValue(refs: seq<LocalObjectReference>)
    | ScheduleValue(optSchedule: Option<Schedule>)
    | Int32Value(n: int32)
    | PolicyValue(policy: RestartPolicy)
    | ResourcesValue(optResources: Option<ResourceRequirements>)
    | OptInt32Value(optN: Option<int32>)

  function Get(f: Field, s: SqlJobSpec): FieldValue {
    match f
    case MariaDBRefField => RefValue(s.mariaDBRef)
    case UsernameField => TextValue(s.username)
    case PasswordSecretKeyRefField => SecretValue(s.passwordSecretKeyRef)
    case DatabaseField => OptTextValue(s.database)
    case SqlField => OptTextValue(s.sql)
    case SqlConfigMapKeyRefField => ConfigMapValue(s.sqlConfigMapKeyRef)
    case DependsOnField => RefsValue(s.dependsOn)
    case ScheduleField => ScheduleValue(s.schedule)
    case BackoffLimitField => Int32Value(s.backoffLimit)
    case RestartPolicyField => PolicyValue(s.restartPolicy)
    case ResourcesField => ResourcesValue(s.resources)
    case SuccessfulJobsHistoryLimitField => OptInt32Value(s.successfulJobsHistoryLimit)
    case FailedJobsHistoryLimitField => OptInt32Value(s.failedJobsHistoryLimit)
  }

  /** Field `f` differs, by value, between `a` and `b`. */
  predicate Changed(f: Field, a: SqlJobSpec, b: SqlJobSpec) {
    Get(f, a) != Get(f, b)
  }

  /** The field list is complete: every field identifier is in it. */
  lemma AllFieldsComplete(f: Field)
    ensures f in AllFields
  {
  }

  /**
   * The field table covers the whole spec: two specs are equal exactly when
   * no field changed, so comparing field by field misses nothing.
   */
  lemma SpecEqualIffNoFieldChanged(a: SqlJobSpec, b: SqlJobSpec)
    ensures a == b <==> forall f :: !Changed(f, a, b)
  {
    if forall f :: !Changed(f, a, b) {
      assert a.mariaDBRef == b.mariaDBRef by {
        assert !Changed(MariaDBRefField, a, b);
      }
      assert a.username == b.username by {
        assert !Changed(UsernameField, a, b);
      }
      assert a.passwordSecretKeyRef == b.passwordSecretKeyRef by {
        assert !Changed(PasswordSecretKeyRefField, a, b);
      }
      assert a.database == b.database by {
        assert !Changed(DatabaseField, a, b);
      }
      assert a.sql == b.sql by {
        assert !Changed(SqlField, a, b);
      }
      assert a.sqlConfigMapKeyRef == b.sqlConfigMapKeyRef by {
        assert !Changed(SqlConfigMapKeyRefField, a, b);
      }
      assert a.dependsOn == b.dependsOn by {
        assert !Changed(DependsOnField, a, b);
      }
      assert a.schedule == b.schedule by {
        assert !Changed(ScheduleField, a, b);
      }
      assert a.backoffLimit == b.backoffLimit by {
        assert !Changed(BackoffLimitField, a, b);
      }
      assert a.restartPolicy == b.restartPolicy by {
        assert !Changed(RestartPolicyField, a, b);
      }
      assert a.resources == b.resources by {
        assert !Changed(ResourcesField, a, b);
      }
      assert a.successfulJobsHistoryLimit == b.successfulJobsHistoryLimit by {
        assert !Changed(SuccessfulJobsHistoryLimitField, a, b);
      }
      assert a.failedJobsHistoryLimit == b.failedJobsHistoryLimit by {
        assert !Changed(FailedJobsHistoryLimitField, a, b);
      }
    }
  }

  /** One assignment of a patch function: `job.Spec.X = v`. */
  datatype Edit =
    | SetMariaDBRefName(newRefName: string)
    | SetUsername(newUsername: string)
    | SetPasswordSecretKeyRefName(newSecretName: string)
    | SetDatabase(newDatabase: Option<string>)
    | SetSql(newSql: Option<string>)
    | SetSqlConfigMapKeyRef(newConfigMapRef: Option<ConfigMapKeySelector>)
    | SetDependsOn(newDependsOn: seq<LocalObjectReference>)
    | SetSchedule(newSchedule: Option<Schedule>)
    | SetBackoffLimit(newBackoffLimit: int32)
    | SetRestartPolicy(newRestartPolicy: RestartPolicy)
    | SetResources(newResources: Option<ResourceRequirements>)
    | SetSuccessfulJobsHistoryLimit(newSuccessfulLimit: Option<int32>)
    | SetFailedJobsHistoryLimit(newFailedLimit: Option<int32>)

  /** A patch function: its assignments, applied in order to the current job. */
  type Patch = seq<Edit>

  /** The field an edit assigns to. */
  function EditedField(e: Edit): Field {
    match e
    case SetMariaDBRefName(_) => MariaDBRefField
    case SetUsername(_) => UsernameField
    case SetPasswordSecretKeyRefName(_) => PasswordSecretKeyRefField
    case SetDatabase(_) => DatabaseField
    case SetSql(_) => SqlField
    case SetSqlConfigMapKeyRef(_) => SqlConfigMapKeyRefField
    case SetDependsOn(_) => DependsOnField
    case SetSchedule(_) => ScheduleField
    case SetBackoffLimit(_) => BackoffLimitField
    case SetRestartPolicy(_) => RestartPolicyField
    case SetResources(_) => ResourcesField
    case SetSuccessfulJobsHistoryLimit(_) => SuccessfulJobsHistoryLimitField
    case SetFailedJobsHistoryLimit(_) => FailedJobsHistoryLimitField
  }

  /**
   * The value the edited field holds after edit `e` on spec `s`. A patch
   * that renames the MariaDB reference or the password secret keeps the
   * rest of that struct.
   */
  function AssignedValue(s: SqlJobSpec, e: Edit): FieldValue {
    match e
    case SetMariaDBRefName(n) => RefValue(MariaDBRef(n, s.mariaDBRef.waitForIt))
    case SetUsername(u) => TextValue(u)
    case SetPasswordSecretKeyRefName(n) =>
      SecretValue(SecretKeySelector(n, s.passwordSecretKeyRef.secretKey))
    case SetDatabase(d) => OptTextValue(d)
    case SetSql(q) => OptTextValue(q)
    case SetSqlConfigMapKeyRef(c) => ConfigMapValue(c)
    case SetDependsOn(ds) => RefsValue(ds)
    case SetSchedule(sch) => ScheduleValue(sch)
    case SetBackoffLimit(b) => Int32Value(b)
    case SetRestartPolicy(p) => PolicyValue(p)
    case SetResources(res) => ResourcesValue(res)
    case SetSuccessfulJobsHistoryLimit(l) => OptInt32Value(l)
    case SetFailedJobsHistoryLimit(l) => OptInt32Value(l)
  }

  /** The spec after one assignment: the assigned field takes its new value, and no other field changes. */
  function ApplyEdit(s: SqlJobSpec, e: Edit): (r: SqlJobSpec)
    ensures Get(EditedField(e), r) == AssignedValue(s, e)
    ensures forall f :: Changed(f, s, r) ==> f == EditedField(e)
  {
    match e
    case SetMariaDBRefName(n) => s.(mariaDBRef := s.mariaDBRef.(refName := n))
    case SetUsername(u) => s.(username := u)
    case SetPasswordSecretKeyRefName(n) =>
      s.(passwordSecretKeyRef := s.passwordSecretKeyRef.(secretName := n))
    case SetDatabase(d) => s.(database := d)
    case SetSql(q) => s.(sql := q)
    case SetSqlConfigMapKeyRef(c) => s.(sqlConfigMapKeyRef := c)
    case SetDependsOn(ds) => s.(dependsOn := ds)
    case SetSchedule(sch) => s.(schedule := sch)
    case SetBackoffLimit(b) => s.(backoffLimit := b)
    case SetRestartPolicy(p) => s.(restartPolicy := p)
    case SetResources(res) => s.(resources := res)
    case SetSuccessfulJobsHistoryLimit(l) => s.(successfulJobsHistoryLimit := l)
    case SetFailedJobsHistoryLimit(l) => s.(failedJobsHistoryLimit := l)
  }

  /** The fields a patch assigns to. */
  function PatchedFields(p: Patch): set<Field> {
    set i | 0 <= i < |p| :: EditedField(p[i])
  }

  /** The spec after a whole patch; fields the patch does not assign keep their value. */
  function ApplyPatch(s: SqlJobSpec, p: Patch): (r: SqlJobSpec)
    ensures forall f :: Changed(f, s, r) ==> f in PatchedFields(p)
    decreases |p|
  {
    if p == [] then s
    else
      var s1 := ApplyEdit(s, p[0]);
      var r := ApplyPatch(s1, p[1..]);
      PatchedFieldsCons(p);
      assert forall f :: Changed(f, s, r) ==> Changed(f, s, s1) || Changed(f, s1, r);
      r
  }

  /** The fields of a non-empty patch are its first assignment's and those of the rest. */
  lemma PatchedFieldsCons(p: Patch)
    requires p != []
    ensures PatchedFields(p) == {EditedField(p[0])} + PatchedFields(p[1..])
  {
    forall f | f in PatchedFields(p[1..]) ensures f in PatchedFields(p) {
      var i :| 0 <= i < |p| - 1 && EditedField(p[1..][i]) == f;
      assert p[1..][i] == p[i + 1];
    }
    forall f | f in PatchedFields(p) ensures f in {EditedField(p[0])} + PatchedFields(p[1..]) {
      var i :| 0 <= i < |p| && EditedField(p[i]) == f;
      if i > 0 {
        assert p[i] == p[1..][i - 1];
      }
    }
  }

  /** Assignments apply in order: a patch followed by one more assignment is that assignment on the patched spec. */
  lemma {:induction false} ApplyPatchSnoc(s: SqlJobSpec, p: Patch, e: Edit)
    ensures ApplyPatch(s, p + [e]) == ApplyEdit(ApplyPatch(s, p), e)
    decreases |p|
  {
    if p == [] {
      assert [] + [e] == [e];
      assert [e][1..] == [];
    } else {
      assert (p + [e])[0] == p[0];
      assert (p + [e])[1..] == p[1..] + [e];
      ApplyPatchSnoc(ApplyEdit(s, p[0]), p[1..], e);
    }
  }

  /** The last assignment to a field wins: after a patch, the field it ends with holds that assignment's value. */
  lemma LastAssignmentWins(s: SqlJobSpec, p: Patch)
    requires p != []
    ensures Get(EditedField(p[|p| - 1]), ApplyPatch(s, p)) ==
      AssignedValue(ApplyPatch(s, p[..|p| - 1]), p[|p| - 1])
  {
    var front, e := p[..|p| - 1], p[|p| - 1];
    assert p == front + [e];
    ApplyPatchSnoc(s, front, e);
  }
}
