/**
 * The SqlJob admission webhook: the per-field mutability table, the
 * create-time validation and the update-time validation, which compares the
 * immutable fields and re-validates the mutable fields that changed. Every
 * validator returns its violations as values; an admission request is
 * allowed exactly when no validator reports one.
 */
module SqlJobWebhook {
  import opened Wrappers
  import opened SqlJobTypes
  import Cron

  /** The reasons a request is denied. */
  datatype Violation =
    | MissingSqlSource
    | MalformedRecurrence(cron: string)
    | OutOfBoundsValue(field: Field, value: int)
    | ImmutableFieldChanged(field: Field)

  /** A re-validation rule that a field's value must pass. */
  datatype Rule = CronRule | NonNegativeRule

  datatype Mutability = Immutable | Mutable

  datatype Policy = Policy(mutability: Mutability, rule: Option<Rule>)

  /**
   * The field table: the one place that says which fields may change and
   * how they are checked. Only mutable fields carry a rule, and each rule
   * sits on a field whose value it can read.
   */
  function PolicyOf(f: Field): (p: Policy)
    ensures p.rule.Some? ==> p.mutability == Mutable
    ensures p.rule == Some(CronRule) ==> forall s :: Get(f, s).ScheduleValue?
    ensures p.rule == Some(NonNegativeRule) ==>
      forall s :: Get(f, s).Int32Value? || Get(f, s).OptInt32Value?
  {
    match f
    case MariaDBRefField => Policy(Immutable, None)
    case UsernameField => Policy(Immutable, None)
    case PasswordSecretKeyRefField => Policy(Immutable, None)
    case DatabaseField => Policy(Immutable, None)
    case SqlField => Policy(Immutable, None)
    case SqlConfigMapKeyRefField => Policy(Mutable, None)
    case DependsOnField => Policy(Immutable, None)
    case ScheduleField => Policy(Mutable, Some(CronRule))
    case BackoffLimitField => Policy(Mutable, Some(NonNegativeRule))
    case RestartPolicyField => Policy(Immutable, None)
    case ResourcesField => Policy(Mutable, None)
    case SuccessfulJobsHistoryLimitField => Policy(Mutable, Some(NonNegativeRule))
    case FailedJobsHistoryLimitField => Policy(Mutable, Some(NonNegativeRule))
  }

  predicate IsImmutable(f: Field) {
    PolicyOf(f).mutability == Immutable
  }

  /**
   * The violations of `rule` by the value `v` of field `f`. An absent
   * schedule or an absent limit is never checked.
   */
  function CheckRule(rule: Rule, f: Field, v: FieldValue): (r: seq<Violation>)
    ensures rule == CronRule && v.ScheduleValue? && v.optSchedule.Some? ==>
      (r == [] <==> Cron.ValidCron(v.optSchedule.value.cron))
    ensures rule == NonNegativeRule && v.Int32Value? ==> (r == [] <==> v.n >= 0)
    ensures rule == NonNegativeRule && v.OptInt32Value? && v.optN.Some? ==>
      (r == [] <==> v.optN.value >= 0)
    ensures rule == CronRule && r != [] ==>
      v.ScheduleValue? && v.optSchedule.Some? && r == [MalformedRecurrence(v.optSchedule.value.cron)]
    ensures rule == NonNegativeRule && r != [] && v.Int32Value? ==>
      r == [OutOfBoundsValue(f, v.n as int)]
    ensures rule == NonNegativeRule && r != [] && !v.Int32Value? ==>
      v.OptInt32Value? && v.optN.Some? && r == [OutOfBoundsValue(f, v.optN.value as int)]
  {
    match rule
    case CronRule =>
      if v.ScheduleValue? && v.optSchedule.Some? && !Cron.ValidCron(v.optSchedule.value.cron)
      then [MalformedRecurrence(v.optSchedule.value.cron)]
      else []
    case NonNegativeRule =>
      if v.Int32Value? && v.n < 0 then [OutOfBoundsValue(f, v.n as int)]
      else if v.OptInt32Value? && v.optN.Some? && v.optN.value < 0
      then [OutOfBoundsValue(f, v.optN.value as int)]
      else []
  }

  /** A schedule, when present, carries a valid cron expression. */
  predicate ScheduleValid(s: SqlJobSpec) {
    s.schedule.Some? ==> Cron.ValidCron(s.schedule.value.cron)
  }

  /** A count that, when present, is not negative. */
  predicate NonNegativeIfPresent(n: Option<int32>) {
    n.Some? ==> n.value >= 0
  }

  /**
   * What each field's rule demands, stated field by field: a reference for
   * the table-driven check below.
   */
  predicate Passes(f: Field, s: SqlJobSpec) {
    match f
    case ScheduleField => ScheduleValid(s)
    case BackoffLimitField => s.backoffLimit >= 0
    case SuccessfulJobsHistoryLimitField => NonNegativeIfPresent(s.successfulJobsHistoryLimit)
    case FailedJobsHistoryLimitField => NonNegativeIfPresent(s.failedJobsHistoryLimit)
    case _ => true
  }

  /** The backoff limit is not negative, and neither are the history limits when present. */
  predicate LimitsValid(s: SqlJobSpec) {
    Passes(BackoffLimitField, s) &&
    Passes(SuccessfulJobsHistoryLimitField, s) && Passes(FailedJobsHistoryLimitField, s)
  }

  /** The rule violations of field `f` in spec `s`, when the table gives `f` a rule. */
  function FieldRuleViolations(f: Field, s: SqlJobSpec): (r: seq<Violation>)
    ensures forall x :: x in r ==> !x.ImmutableFieldChanged? && !x.MissingSqlSource?
  {
    match PolicyOf(f).rule
    case None => []
    case Some(rule) => CheckRule(rule, f, Get(f, s))
  }

  /** The rule violations of the fields in `fields`, in order. */
  function RuleViolations(fields: seq<Field>, s: SqlJobSpec): (r: seq<Violation>)
    ensures forall x :: x in r ==> !x.ImmutableFieldChanged? && !x.MissingSqlSource?
  {
    if fields == [] then []
    else FieldRuleViolations(fields[0], s) + RuleViolations(fields[1..], s)
  }

  /** The source selector: a job must name inline SQL or a ConfigMap holding it. */
  function SourceViolations(s: SqlJobSpec): (r: seq<Violation>)
    ensures r == [] <==> HasSqlSource(s)
    ensures forall x :: x in r ==> x == MissingSqlSource
  {
    if HasSqlSource(s) then [] else [MissingSqlSource]
  }

  /** Create-time validation: a SQL source, and every rule of the table on the next job. */
  function ValidateCreate(s: SqlJobSpec): (r: seq<Violation>)
    ensures MissingSqlSource in r <==> !HasSqlSource(s)
    ensures forall x :: x in r ==> !x.ImmutableFieldChanged?
  {
    SourceViolations(s) + RuleViolations(AllFields, s)
  }

  /** The update-time violations of one field: none unless it changed. */
  function FieldUpdateViolations(f: Field, prev: SqlJobSpec, next: SqlJobSpec): (r: seq<Violation>)
    ensures !Changed(f, prev, next) ==> r == []
    ensures forall x :: x in r ==> !x.MissingSqlSource?
  {
    if !Changed(f, prev, next) then []
    else if IsImmutable(f) then [ImmutableFieldChanged(f)]
    else FieldRuleViolations(f, next)
  }

  /** The update-time violations of the fields in `fields`, in order; no short cut on the first. */
  function UpdateViolations(fields: seq<Field>, prev: SqlJobSpec, next: SqlJobSpec): (r: seq<Violation>)
    ensures forall x :: x in r ==> !x.MissingSqlSource?
  {
    if fields == [] then []
    else FieldUpdateViolations(fields[0], prev, next) + UpdateViolations(fields[1..], prev, next)
  }

  /**
   * Update-time validation: every changed field is classified by the table,
   * and the updated job must still have a SQL source.
   */
  function ValidateUpdate(prev: SqlJobSpec, next: SqlJobSpec): (r: seq<Violation>)
    ensures MissingSqlSource in r <==> !HasSqlSource(next)
  {
    UpdateViolations(AllFields, prev, next) + SourceViolations(next)
  }

  datatype Operation =
    | Create(newJob: SqlJobSpec)
    | Update(oldJob: SqlJobSpec, newJob: SqlJobSpec)
    | Delete(oldJob: SqlJobSpec)

  datatype Decision = Allowed | Denied(reasons: seq<Violation>)

  /** The reasons of a request; an empty list allows it. */
  function Reasons(op: Operation): seq<Violation> {
    match op
    case Create(n) => ValidateCreate(n)
    case Update(o, n) => ValidateUpdate(o, n)
    case Delete(_) => []
  }

  /** The admission decision: allow, or deny with every reason found. */
  function Admit(op: Operation): (d: Decision)
    ensures d == Allowed <==> Reasons(op) == []
    ensures d.Denied? ==> d.reasons != [] && d.reasons == Reasons(op)
    ensures op.Delete? ==> d == Allowed
  {
    var vs := Reasons(op);
    if vs == [] then Allowed else Denied(vs)
  }

  //
  // Properties of the validators.
  //

  /** The table-driven rule check of a field agrees with what the field's rule demands. */
  lemma FieldRulePasses(f: Field, s: SqlJobSpec)
    ensures FieldRuleViolations(f, s) == [] <==> Passes(f, s)
  {
  }

  lemma {:induction false} RuleViolationsEmpty(fields: seq<Field>, s: SqlJobSpec)
    ensures RuleViolations(fields, s) == [] <==>
      forall i :: 0 <= i < |fields| ==> FieldRuleViolations(fields[i], s) == []
  {
    if fields != [] {
      RuleViolationsEmpty(fields[1..], s);
      assert forall i :: 0 < i < |fields| ==> fields[1..][i - 1] == fields[i];
    }
  }

  lemma {:induction false} UpdateViolationsEmpty(fields: seq<Field>, prev: SqlJobSpec, next: SqlJobSpec)
    ensures UpdateViolations(fields, prev, next) == [] <==>
      forall i :: 0 <= i < |fields| ==> FieldUpdateViolations(fields[i], prev, next) == []
  {
    if fields != [] {
      UpdateViolationsEmpty(fields[1..], prev, next);
      assert forall i :: 0 < i < |fields| ==> fields[1..][i - 1] == fields[i];
    }
  }

  lemma {:induction false} InUpdateViolations(fields: seq<Field>, prev: SqlJobSpec, next: SqlJobSpec, i: nat, x: Violation)
    requires i < |fields| && x in FieldUpdateViolations(fields[i], prev, next)
    ensures x in UpdateViolations(fields, prev, next)
  {
    if i > 0 {
      assert fields[1..][i - 1] == fields[i];
      InUpdateViolations(fields[1..], prev, next, i - 1, x);
    }
  }

  lemma {:induction false} FromUpdateViolations(fields: seq<Field>, prev: SqlJobSpec, next: SqlJobSpec, x: Violation)
    returns (i: nat)
    requires x in UpdateViolations(fields, prev, next)
    ensures i < |fields| && x in FieldUpdateViolations(fields[i], prev, next)
  {
    if x in FieldUpdateViolations(fields[0], prev, next) {
      i := 0;
    } else {
      var j := FromUpdateViolations(fields[1..], prev, next, x);
      i := j + 1;
    }
  }

  /** A field's update violation is among the reasons of the update. */
  lemma FieldViolationReported(prev: SqlJobSpec, next: SqlJobSpec, f: Field, x: Violation)
    requires x in FieldUpdateViolations(f, prev, next)
    ensures x in ValidateUpdate(prev, next)
  {
    AllFieldsComplete(f);
    var i :| 0 <= i < |AllFields| && AllFields[i] == f;
    InUpdateViolations(AllFields, prev, next, i, x);
  }

  /** Every reason of an update other than the source check comes from one field. */
  lemma ReportingField(prev: SqlJobSpec, next: SqlJobSpec, x: Violation) returns (f: Field)
    requires x in ValidateUpdate(prev, next) && x != MissingSqlSource
    ensures x in FieldUpdateViolations(f, prev, next) && Changed(f, prev, next)
  {
    var i := FromUpdateViolations(AllFields, prev, next, x);
    f := AllFields[i];
  }

  lemma {:induction false} RuleViolationsAppend(fs: seq<Field>, gs: seq<Field>, s: SqlJobSpec)
    ensures RuleViolations(fs + gs, s) == RuleViolations(fs, s) + RuleViolations(gs, s)
  {
    if fs == [] {
      assert fs + gs == gs;
    } else {
      assert (fs + gs)[0] == fs[0];
      assert (fs + gs)[1..] == fs[1..] + gs;
      RuleViolationsAppend(fs[1..], gs, s);
    }
  }

  lemma {:induction false} RuleViolationsNoRule(fs: seq<Field>, s: SqlJobSpec)
    requires forall i :: 0 <= i < |fs| ==> PolicyOf(fs[i]).rule.None?
    ensures RuleViolations(fs, s) == []
  {
    if fs != [] {
      RuleViolationsNoRule(fs[1..], s);
    }
  }

  /** The field list read as: fields without a rule, schedule and backoff limit, more fields without a rule, the history limits. */
  lemma AllFieldsByRule()
    ensures AllFields ==
      (([MariaDBRefField, UsernameField, PasswordSecretKeyRefField, DatabaseField,
         SqlField, SqlConfigMapKeyRefField, DependsOnField] + [ScheduleField, BackoffLimitField]) +
       [RestartPolicyField, ResourcesField]) +
      [SuccessfulJobsHistoryLimitField, FailedJobsHistoryLimitField]
  {
  }

  /** The fields the table gives no rule contribute nothing to the create-time check. */
  lemma UnruledFieldsSilent(s: SqlJobSpec)
    ensures RuleViolations([MariaDBRefField, UsernameField, PasswordSecretKeyRefField, DatabaseField,
      SqlField, SqlConfigMapKeyRefField, DependsOnField], s) == []
    ensures RuleViolations([RestartPolicyField, ResourcesField], s) == []
  {
    RuleViolationsNoRule([MariaDBRefField, UsernameField, PasswordSecretKeyRefField, DatabaseField,
      SqlField, SqlConfigMapKeyRefField, DependsOnField], s);
    RuleViolationsNoRule([RestartPolicyField, ResourcesField], s);
  }

  /** The rule violations of two fields are the first's, then the second's. */
  lemma RuleViolationsPair(f: Field, g: Field, s: SqlJobSpec)
    ensures RuleViolations([f, g], s) == FieldRuleViolations(f, s) + FieldRuleViolations(g, s)
  {
    assert [f, g][1..] == [g];
    assert [g][1..] == [];
    assert RuleViolations([g], s) == FieldRuleViolations(g, s) + [];
    assert FieldRuleViolations(g, s) + [] == FieldRuleViolations(g, s);
  }

  /** The create-time rule check of the whole spec: only the fields with a rule contribute, in field order. */
  lemma RuleViolationsByField(s: SqlJobSpec)
    ensures RuleViolations(AllFields, s) ==
      FieldRuleViolations(ScheduleField, s) +
      FieldRuleViolations(BackoffLimitField, s) +
      FieldRuleViolations(SuccessfulJobsHistoryLimitField, s) +
      FieldRuleViolations(FailedJobsHistoryLimitField, s)
  {
    var before := [MariaDBRefField, UsernameField, PasswordSecretKeyRefField, DatabaseField,
      SqlField, SqlConfigMapKeyRefField, DependsOnField];
    var after := [RestartPolicyField, ResourcesField];
    var one := [ScheduleField, BackoffLimitField];
    var two := [SuccessfulJobsHistoryLimitField, FailedJobsHistoryLimitField];
    var first := FieldRuleViolations(ScheduleField, s) + FieldRuleViolations(BackoffLimitField, s);
    var limits := FieldRuleViolations(SuccessfulJobsHistoryLimitField, s) +
      FieldRuleViolations(FailedJobsHistoryLimitField, s);
    AllFieldsByRule();
    UnruledFieldsSilent(s);
    RuleViolationsPair(ScheduleField, BackoffLimitField, s);
    RuleViolationsPair(SuccessfulJobsHistoryLimitField, FailedJobsHistoryLimitField, s);
    assert RuleViolations(before + one, s) == first by {
      RuleViolationsAppend(before, one, s);
    }
    assert RuleViolations((before + one) + after, s) == first by {
      RuleViolationsAppend(before + one, after, s);
    }
    RuleViolationsAppend((before + one) + after, two, s);
  }

  lemma {:induction false} UpdateViolationsAppend(fs: seq<Field>, gs: seq<Field>, prev: SqlJobSpec, next: SqlJobSpec)
    ensures UpdateViolations(fs + gs, prev, next) == UpdateViolations(fs, prev, next) + UpdateViolations(gs, prev, next)
  {
    if fs == [] {
      assert fs + gs == gs;
    } else {
      assert (fs + gs)[0] == fs[0];
      assert (fs + gs)[1..] == fs[1..] + gs;
      UpdateViolationsAppend(fs[1..], gs, prev, next);
    }
  }

  lemma {:induction false} UpdateViolationsUnchanged(fs: seq<Field>, prev: SqlJobSpec, next: SqlJobSpec)
    requires forall i :: 0 <= i < |fs| ==> !Changed(fs[i], prev, next)
    ensures UpdateViolations(fs, prev, next) == []
  {
    if fs != [] {
      UpdateViolationsUnchanged(fs[1..], prev, next);
    }
  }

  /**
   * An update that changes inline SQL and the ConfigMap reference and
   * nothing else is judged by those two fields, in table order, and by the
   * source check.
   */
  lemma SqlSourcesUpdateReasons(prev: SqlJobSpec, next: SqlJobSpec)
    requires forall g :: Changed(g, prev, next) ==> g == SqlField || g == SqlConfigMapKeyRefField
    ensures ValidateUpdate(prev, next) ==
      FieldUpdateViolations(SqlField, prev, next) +
      FieldUpdateViolations(SqlConfigMapKeyRefField, prev, next) +
      SourceViolations(next)
  {
    var before := [MariaDBRefField, UsernameField, PasswordSecretKeyRefField, DatabaseField];
    var sources := [SqlField, SqlConfigMapKeyRefField];
    var after := [DependsOnField, ScheduleField, BackoffLimitField, RestartPolicyField, ResourcesField,
      SuccessfulJobsHistoryLimitField, FailedJobsHistoryLimitField];
    assert AllFields == (before + sources) + after;
    UpdateViolationsUnchanged(before, prev, next);
    UpdateViolationsUnchanged(after, prev, next);
    UpdateViolationsAppend(before + sources, after, prev, next);
    UpdateViolationsAppend(before, sources, prev, next);
    assert sources[1..] == [SqlConfigMapKeyRefField];
    assert sources[1..][1..] == [];
    assert UpdateViolations(sources[1..], prev, next) ==
      FieldUpdateViolations(SqlConfigMapKeyRefField, prev, next) + [];
    assert UpdateViolations(sources, prev, next) ==
      FieldUpdateViolations(SqlField, prev, next) + FieldUpdateViolations(SqlConfigMapKeyRefField, prev, next);
    assert UpdateViolations(AllFields, prev, next) == UpdateViolations(sources, prev, next);
  }

  /** Over a list without repeats, only the one changed field can report. */
  lemma {:induction false} UpdateViolationsSingle(fields: seq<Field>, prev: SqlJobSpec, next: SqlJobSpec, f: Field)
    requires forall i, j :: 0 <= i < j < |fields| ==> fields[i] != fields[j]
    requires forall g :: Changed(g, prev, next) ==> g == f
    ensures UpdateViolations(fields, prev, next) ==
      if f in fields then FieldUpdateViolations(f, prev, next) else []
  {
    if fields != [] {
      UpdateViolationsSingle(fields[1..], prev, next, f);
      if fields[0] == f {
        assert f !in fields[1..] by {
          forall i | 0 <= i < |fields| - 1 ensures fields[1..][i] != f {
            assert fields[1..][i] == fields[i + 1];
          }
        }
      }
    }
  }

  /**
   * An update that changes one field only is judged by that field alone
   * (and by the source check): for an immutable field the reason names it.
   */
  lemma SingleFieldUpdateReasons(prev: SqlJobSpec, next: SqlJobSpec, f: Field)
    requires forall g :: Changed(g, prev, next) ==> g == f
    ensures ValidateUpdate(prev, next) == FieldUpdateViolations(f, prev, next) + SourceViolations(next)
    ensures IsImmutable(f) && Changed(f, prev, next) ==>
      Admit(Update(prev, next)) == Denied([ImmutableFieldChanged(f)] + SourceViolations(next))
  {
    AllFieldsComplete(f);
    UpdateViolationsSingle(AllFields, prev, next, f);
  }

  /**
   * Create-time acceptance: a job is admitted exactly when it has a SQL
   * source, its schedule (if any) is a valid cron expression and its backoff
   * limit and history limits (if any) are not negative. Having both SQL
   * sources is allowed, and no limit has a ceiling.
   */
  lemma ValidateCreateAccepts(s: SqlJobSpec)
    ensures ValidateCreate(s) == [] <==> HasSqlSource(s) && ScheduleValid(s) && LimitsValid(s)
  {
    RuleViolationsByField(s);
    FieldRulePasses(ScheduleField, s);
    FieldRulePasses(BackoffLimitField, s);
    FieldRulePasses(SuccessfulJobsHistoryLimitField, s);
    FieldRulePasses(FailedJobsHistoryLimitField, s);
  }

  /**
   * Update-time acceptance: an update is admitted exactly when every field it
   * changes is mutable and passes its rule, and the updated job still has a
   * SQL source. Unchanged fields are not inspected.
   */
  lemma ValidateUpdateAccepts(prev: SqlJobSpec, next: SqlJobSpec)
    ensures ValidateUpdate(prev, next) == [] <==>
      HasSqlSource(next) &&
      forall f :: Changed(f, prev, next) ==> !IsImmutable(f) && Passes(f, next)
  {
    UpdateViolationsEmpty(AllFields, prev, next);
    forall f ensures FieldUpdateViolations(f, prev, next) == [] <==>
      (Changed(f, prev, next) ==> !IsImmutable(f) && Passes(f, next))
    {
      FieldRulePasses(f, next);
    }
    if forall i :: 0 <= i < |AllFields| ==> FieldUpdateViolations(AllFields[i], prev, next) == [] {
      forall f ensures FieldUpdateViolations(f, prev, next) == [] {
        AllFieldsComplete(f);
      }
    }
  }

  /**
   * ImmutableFieldChanged(f) is among the update's reasons exactly when the
   * table marks `f` immutable and the update changes it.
   */
  lemma ImmutableFieldChangeDenied(prev: SqlJobSpec, next: SqlJobSpec, f: Field)
    ensures ImmutableFieldChanged(f) in ValidateUpdate(prev, next) <==> IsImmutable(f) && Changed(f, prev, next)
  {
    var x := ImmutableFieldChanged(f);
    if IsImmutable(f) && Changed(f, prev, next) {
      FieldViolationReported(prev, next, f, x);
    }
    if x in ValidateUpdate(prev, next) {
      var g := ReportingField(prev, next, x);
    }
  }

  /** Resubmitting a job unchanged is allowed exactly when it has a SQL source. */
  lemma UnchangedUpdateAllowed(s: SqlJobSpec)
    ensures ValidateUpdate(s, s) == [] <==> HasSqlSource(s)
  {
    ValidateUpdateAccepts(s, s);
  }

  /** In particular, every job creation admits can be resubmitted unchanged. */
  lemma AdmittedJobResubmitAllowed(s: SqlJobSpec)
    requires ValidateCreate(s) == []
    ensures Admit(Update(s, s)) == Allowed
  {
    UnchangedUpdateAllowed(s);
  }

  /**
   * Changing only a field that the table marks mutable and gives no rule
   * (SqlConfigMapKeyRef, Resources) is allowed to any value,
   * as long as the job keeps a SQL source.
   */
  lemma FreeFieldChangeAllowed(prev: SqlJobSpec, next: SqlJobSpec, f: Field)
    requires PolicyOf(f) == Policy(Mutable, None)
    requires forall g :: Changed(g, prev, next) ==> g == f
    requires HasSqlSource(next)
    ensures ValidateUpdate(prev, next) == []
  {
    ValidateUpdateAccepts(prev, next);
  }

  /** A changed schedule is re-validated: an invalid cron expression is a reason to deny. */
  lemma ScheduleChangeRevalidated(prev: SqlJobSpec, next: SqlJobSpec)
    requires Changed(ScheduleField, prev, next) && next.schedule.Some?
    ensures MalformedRecurrence(next.schedule.value.cron) in ValidateUpdate(prev, next) <==>
      !Cron.ValidCron(next.schedule.value.cron)
  {
    var x := MalformedRecurrence(next.schedule.value.cron);
    if !Cron.ValidCron(next.schedule.value.cron) {
      FieldViolationReported(prev, next, ScheduleField, x);
    }
    if x in ValidateUpdate(prev, next) {
      var g := ReportingField(prev, next, x);
      assert x in FieldRuleViolations(g, next);
      assert PolicyOf(g).rule == Some(CronRule);
      assert g == ScheduleField;
    }
  }

  /** A changed history limit is re-validated: a negative value is a reason to deny. */
  lemma HistoryLimitChangeRevalidated(prev: SqlJobSpec, next: SqlJobSpec, f: Field)
    requires f == SuccessfulJobsHistoryLimitField || f == FailedJobsHistoryLimitField
    requires Changed(f, prev, next) && Get(f, next).optN.Some?
    ensures OutOfBoundsValue(f, Get(f, next).optN.value as int) in ValidateUpdate(prev, next) <==>
      Get(f, next).optN.value < 0
  {
    var x := OutOfBoundsValue(f, Get(f, next).optN.value as int);
    if Get(f, next).optN.value < 0 {
      FieldViolationReported(prev, next, f, x);
    }
    if x in ValidateUpdate(prev, next) {
      var g := ReportingField(prev, next, x);
      assert x in FieldRuleViolations(g, next);
      assert g == f;
    }
  }

  /** A changed backoff limit is re-validated: a negative value is a reason to deny. */
  lemma BackoffLimitChangeRevalidated(prev: SqlJobSpec, next: SqlJobSpec)
    requires Changed(BackoffLimitField, prev, next)
    ensures OutOfBoundsValue(BackoffLimitField, next.backoffLimit as int) in ValidateUpdate(prev, next) <==>
      next.backoffLimit < 0
  {
    var x := OutOfBoundsValue(BackoffLimitField, next.backoffLimit as int);
    if next.backoffLimit < 0 {
      FieldViolationReported(prev, next, BackoffLimitField, x);
    }
    if x in ValidateUpdate(prev, next) {
      var g := ReportingField(prev, next, x);
      assert x in FieldRuleViolations(g, next);
      assert g == BackoffLimitField;
    }
  }

  /**
   * Clearing inline SQL and the ConfigMap reference together is denied: the
   * job would have no SQL left, and inline SQL is immutable besides.
   */
  lemma RemovingAllSqlDenied(prev: SqlJobSpec, next: SqlJobSpec)
    requires prev.sql.Some?
    requires next.sql.None? && next.sqlConfigMapKeyRef.None?
    ensures MissingSqlSource in ValidateUpdate(prev, next)
    ensures ImmutableFieldChanged(SqlField) in ValidateUpdate(prev, next)
  {
    ImmutableFieldChangeDenied(prev, next, SqlField);
  }

  /**
   * Admission keeps the job well-formed: an admitted update of an admitted
   * job yields a job that creation would admit too, although the update
   * re-checks only the fields it changes.
   */
  lemma UpdatePreservesAdmissibility(prev: SqlJobSpec, next: SqlJobSpec)
    requires ValidateCreate(prev) == []
    requires ValidateUpdate(prev, next) == []
    ensures ValidateCreate(next) == []
  {
    ValidateCreateAccepts(prev);
    ValidateUpdateAccepts(prev, next);
    ValidateCreateAccepts(next);
    assert !Changed(ScheduleField, prev, next) ==> prev.schedule == next.schedule;
    assert !Changed(BackoffLimitField, prev, next) ==> prev.backoffLimit == next.backoffLimit;
    assert !Changed(SuccessfulJobsHistoryLimitField, prev, next) ==>
      prev.successfulJobsHistoryLimit == next.successfulJobsHistoryLimit;
    assert !Changed(FailedJobsHistoryLimitField, prev, next) ==>
      prev.failedJobsHistoryLimit == next.failedJobsHistoryLimit;
    assert Changed(ScheduleField, prev, next) ==> Passes(ScheduleField, next);
    assert Changed(SuccessfulJobsHistoryLimitField, prev, next) ==> Passes(SuccessfulJobsHistoryLimitField, next);
    assert Changed(FailedJobsHistoryLimitField, prev, next) ==> Passes(FailedJobsHistoryLimitField, next);
  }
}
