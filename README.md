# SqlJob admission webhook — a Dafny model

This project models the admission webhook of the mariadb-operator `SqlJob`
resource. The model follows the two Ginkgo tables in
`api/v1alpha1/sqljob_webhook_test.go`, which fix what the webhook accepts and
what it rejects:

- **The create table.** Each entry deletes the job and creates it again. The
  create must fail exactly when the entry says `wantErr`. A job is accepted
  when it has a SQL source (inline `Sql` or a `SqlConfigMapKeyRef`), a
  well-formed cron schedule if it has one, a non-negative backoff limit, and
  non-negative history limits if it has them.
- **The ordered update table.** One job is created once. Each entry then
  reads it, assigns some fields and merge-patches it back. Every change to
  an immutable field is rejected: the MariaDB reference, the username, the
  password secret, the database, `DependsOn`, the inline SQL and the restart
  policy. Mutable fields that carry a rule must still pass it: the schedule
  must be valid cron, and the backoff limit and the history limits must be
  non-negative. The remaining fields are free. A job may never be left with
  no SQL source.
  Admitted patches stay in the stored job, so later entries see the effects
  of earlier ones.

The modules:

- `Wrappers`: `Option`.
- `Cron`: the recurrence grammar. An expression is five fields separated by
  ASCII white space. Each field is `*`, a step `*/n` with n at least 1, or
  a number within that position's range: minute 0-59, hour 0-23, day of
  month 1-31, month 1-12, day of week 0-6. Includes the splitting of an
  expression into fields and its inverse.
- `SqlJobTypes`: the `SqlJobSpec` record and its field enumeration. A patch
  function is modelled as a sequence of field assignments (`Edit`s) applied
  in order.
- `SqlJobWebhook`: the single declarative field table `PolicyOf` (each field
  is immutable or mutable, with an optional rule), `ValidateCreate`,
  `ValidateUpdate` and the decision `Admit`. Every validator returns its
  violations as values. Reasons from all fields are gathered in field order,
  with no stop at the first one.
- `Runs`: a run of an ordered table under any step function, with lemmas
  for splitting and concatenating runs.
- `SqlJobStore`: the object store as a class holding at most one job. Its
  `Create` and `Patch` methods consult the webhook; `Get` reads the stored
  job and `Delete` empties the store. It also has the loop that runs an update
  table against the stored job.
- `SqlJobWebhookTable`: the create table and the update table, entry by
  entry, plus both contexts run end to end against a `Store`.

## Model

| member | source | states |
|---|---|---|
| Cron.ValidCron | api/v1alpha1/sqljob_webhook_test.go:52-75 | definition of the schedule check: exactly five whitespace-separated fields, each `*`, a step of at least 1, or a number within its position's range |
| Cron.StepField | api/v1alpha1/sqljob_webhook_test.go:323-332 | a step field `*/n` is accepted in every position exactly when n is at least 1 |
| Cron.MinuteSixtyInvalid | api/v1alpha1/sqljob_webhook_test.go:333-342 | `60 * * * *` is rejected: minute 60 is out of range |
| Cron.ZeroStepInvalid | api/v1alpha1/sqljob_webhook_test.go:333-342 | `*/0 * * * *` is rejected: a step must be at least 1 |
| Cron.FieldsUnfields | api/v1alpha1/sqljob_webhook_test.go:323-342 | splitting a space-joined list of words gives back exactly those words |
| Cron.ValidCronUnfields | api/v1alpha1/sqljob_webhook_test.go:323-342 | words joined by spaces form a valid expression exactly when there are five of them and each is a cron field within its position's range |
| Cron.EveryMinuteValid | api/v1alpha1/sqljob_webhook_test.go:127-151 | `*/1 * * * *` is a valid cron expression |
| Cron.FooInvalid | api/v1alpha1/sqljob_webhook_test.go:52-75 | `foo` is not a valid cron expression |
| SqlJobTypes.SpecEqualIffNoFieldChanged | api/v1alpha1/sqljob_webhook_test.go:195-225 | two specs are equal exactly when no field of the table differs between them, so the field list covers the whole spec |
| SqlJobTypes.ApplyEdit | api/v1alpha1/sqljob_webhook_test.go:247-377 | after an assignment the assigned field holds the assigned value (a renamed reference keeps the rest of its struct), and no other field changes |
| SqlJobTypes.ApplyPatch | api/v1alpha1/sqljob_webhook_test.go:235-236 | a patch function changes only fields that its assignments name |
| SqlJobTypes.ApplyPatchSnoc | api/v1alpha1/sqljob_webhook_test.go:371-378 | a patch's assignments apply in order: one more assignment acts on the job the earlier ones produced |
| SqlJobTypes.LastAssignmentWins | api/v1alpha1/sqljob_webhook_test.go:371-378 | the field a patch assigns last holds that assignment's value |
| SqlJobWebhook.PolicyOf | api/v1alpha1/sqljob_webhook_test.go:245-370 | the field table: only mutable fields carry a rule, the cron rule sits on a schedule-valued field, and the non-negative rule on an integer-valued one |
| SqlJobWebhook.CheckRule | api/v1alpha1/sqljob_webhook_test.go:323-370 | a present schedule passes exactly when its cron is valid, and the violation then names the expression; a backoff limit, or a present history limit, passes exactly when it is non-negative, and the violation then names the field and the value; absent values always pass |
| SqlJobWebhook.SourceViolations | api/v1alpha1/sqljob_webhook_test.go:31-51 | there are no source violations exactly when inline SQL or a ConfigMap reference is present, and the only possible violation is a missing SQL source |
| SqlJobWebhook.ValidateCreate | api/v1alpha1/sqljob_webhook_test.go:31-51 | a create reports a missing SQL source exactly when the job has none, and never reports an immutable-field change |
| SqlJobWebhook.ValidateUpdate | api/v1alpha1/sqljob_webhook_test.go:371-378 | an update reports a missing SQL source exactly when the new job has none |
| SqlJobWebhook.FieldUpdateViolations | api/v1alpha1/sqljob_webhook_test.go:245-370 | a field that did not change contributes no update violation |
| SqlJobWebhook.Admit | api/v1alpha1/sqljob_webhook_test.go:22-30 | a request is allowed exactly when its validator reports no reason; a denial carries all the reasons; a delete is always allowed |
| SqlJobWebhook.ValidateCreateAccepts | api/v1alpha1/sqljob_webhook_test.go:20-181 | a create is accepted exactly when the job has a SQL source, a valid schedule if any, a non-negative backoff limit, and non-negative history limits if any |
| SqlJobWebhook.ValidateUpdateAccepts | api/v1alpha1/sqljob_webhook_test.go:229-379 | an update is accepted exactly when the new job has a SQL source and every changed field is mutable and passes its rule |
| SqlJobWebhook.ImmutableFieldChangeDenied | api/v1alpha1/sqljob_webhook_test.go:252-311 | an update names field f as an immutable-field change exactly when f is immutable in the table and changed |
| SqlJobWebhook.SingleFieldUpdateReasons | api/v1alpha1/sqljob_webhook_test.go:252-311 | when one field changes, the update's reasons are that field's reasons followed by the source check, and an immutable field is named alone |
| SqlJobWebhook.SqlSourcesUpdateReasons | api/v1alpha1/sqljob_webhook_test.go:371-378 | when only the SQL sources change, the reasons are the inline SQL's, then the ConfigMap's, then the source check |
| SqlJobWebhook.RuleViolationsByField | api/v1alpha1/sqljob_webhook_test.go:76-104 | the create-time rule violations are the schedule's, then the backoff limit's, then the successful limit's, then the failed limit's |
| SqlJobWebhook.UnchangedUpdateAllowed | api/v1alpha1/sqljob_webhook_test.go:235-238 | a patch that changes nothing is accepted exactly when the job has a SQL source |
| SqlJobWebhook.AdmittedJobResubmitAllowed | api/v1alpha1/sqljob_webhook_test.go:231-238 | resubmitting an admitted job unchanged is allowed |
| SqlJobWebhook.FreeFieldChangeAllowed | api/v1alpha1/sqljob_webhook_test.go:259-322 | changing only a mutable field without a rule (resources, ConfigMap source) is accepted while a SQL source remains |
| SqlJobWebhook.BackoffLimitChangeRevalidated | api/v1alpha1/sqljob_webhook_test.go:245-251 | a changed backoff limit is reported as out of bounds exactly when it is negative |
| SqlJobWebhook.ScheduleChangeRevalidated | api/v1alpha1/sqljob_webhook_test.go:323-342 | a changed schedule is reported as malformed exactly when its cron is invalid |
| SqlJobWebhook.HistoryLimitChangeRevalidated | api/v1alpha1/sqljob_webhook_test.go:343-370 | a changed history limit is reported as out of bounds exactly when it is negative |
| SqlJobWebhook.RemovingAllSqlDenied | api/v1alpha1/sqljob_webhook_test.go:371-378 | clearing both SQL sources of a job with inline SQL reports both the missing source and the inline SQL change |
| SqlJobWebhook.UpdatePreservesAdmissibility | api/v1alpha1/sqljob_webhook_test.go:184-244 | an accepted update of an admitted job yields a job that would itself be admitted at creation |
| SqlJobStore.PatchStep | api/v1alpha1/sqljob_webhook_test.go:231-243 | definition of one update entry: the patched job is kept when the webhook accepts it, otherwise the job stays and the reasons are returned; its properties are in `PatchStepOutcome` |
| Runs.Run | api/v1alpha1/sqljob_webhook_test.go:229-244 | a run of a table yields one outcome per entry |
| Runs.RunAppend | api/v1alpha1/sqljob_webhook_test.go:184-244 | running two tables in sequence equals running their concatenation, starting the second from the state the first leaves |
| Runs.RunEntries | api/v1alpha1/sqljob_webhook_test.go:229-244 | when every entry takes the given state to the next one with the given outcome, the run yields the last state and all the outcomes |
| Runs.RunFour | api/v1alpha1/sqljob_webhook_test.go:229-244 | four entries' individual steps compose into the run of the four |
| SqlJobStore.PatchStepOutcome | api/v1alpha1/sqljob_webhook_test.go:231-243 | a patch is written exactly when the webhook accepts the patched job, which is then stored; otherwise the job is unchanged and the rejection carries the webhook's reasons; an admitted job stays admitted |
| SqlJobStore.Replay | api/v1alpha1/sqljob_webhook_test.go:229-244 | replaying an update table yields one outcome per entry |
| SqlJobStore.ReplayKeepsAdmissibility | api/v1alpha1/sqljob_webhook_test.go:184-244 | every outcome of a replay is a write or a rejection, and an admitted job stays admitted however many entries run |
| SqlJobStore.AllRejectedLeavesJob | api/v1alpha1/sqljob_webhook_test.go:231-243 | if every entry is rejected, the stored job is the one the table started from |
| SqlJobStore.Store.Create | api/v1alpha1/sqljob_webhook_test.go:24 | creating into an empty store succeeds exactly when the webhook admits the job, and stores it then; a rejection carries the reasons and stores nothing; an occupied store reports that the job already exists |
| SqlJobStore.Store.Delete | api/v1alpha1/sqljob_webhook_test.go:23 | deletion empties the store |
| SqlJobStore.Store.Get | api/v1alpha1/sqljob_webhook_test.go:233 | reading returns the stored job |
| SqlJobStore.Store.Patch | api/v1alpha1/sqljob_webhook_test.go:235-238 | patching a missing job reports it as not found; otherwise the new stored job and the outcome are the single update step, and only admitted jobs are ever stored |
| SqlJobStore.RunCreateEntry | api/v1alpha1/sqljob_webhook_test.go:22-30 | delete then create succeeds exactly when admission allows the job; on success the job is stored, otherwise the store is empty and the outcome carries the reasons |
| SqlJobStore.RunUpdateTable | api/v1alpha1/sqljob_webhook_test.go:229-244 | running an update table entry by entry against the store leaves the stored job and the outcomes that the replay of the table defines |
| SqlJobWebhookTable.CreateReasons | api/v1alpha1/sqljob_webhook_test.go:76-104 | a create's reasons are the source check, then the schedule rule, then the backoff-limit rule, then the two history-limit rules |
| SqlJobWebhookTable.CreateNoSql | api/v1alpha1/sqljob_webhook_test.go:31-51 | a job with no SQL source is denied for that reason alone |
| SqlJobWebhookTable.CreateInvalidSchedule | api/v1alpha1/sqljob_webhook_test.go:52-75 | a job with no SQL source and a malformed schedule is denied for both |
| SqlJobWebhookTable.CreateInvalidHistoryLimits | api/v1alpha1/sqljob_webhook_test.go:76-104 | a job with a malformed schedule and both limits at -5 is denied for all three, in field order |
| SqlJobWebhookTable.CreateValid | api/v1alpha1/sqljob_webhook_test.go:105-126 | a job with SQL and no schedule is allowed |
| SqlJobWebhookTable.CreateValidWithSchedule | api/v1alpha1/sqljob_webhook_test.go:127-151 | a job with SQL and a valid schedule is allowed |
| SqlJobWebhookTable.CreateScheduleAndHistoryLimits | api/v1alpha1/sqljob_webhook_test.go:152-180 | limits of 5 pass, but the entry's malformed schedule denies the job |
| SqlJobWebhookTable.CreateTable | api/v1alpha1/sqljob_webhook_test.go:20-181 | the six create entries, on the jobs they submit, get the decisions the table expects |
| SqlJobWebhookTable.CreateContext | api/v1alpha1/sqljob_webhook_test.go:20-181 | running the six create entries against a store yields the expected outcome for each |
| SqlJobWebhookTable.OneEditChanges | api/v1alpha1/sqljob_webhook_test.go:247-370 | a one-assignment patch changes at most the field it assigns |
| SqlJobWebhookTable.ImmutableEntry | api/v1alpha1/sqljob_webhook_test.go:252-311 | a patch that changes one immutable field is rejected, naming that field, and the job is unchanged |
| SqlJobWebhookTable.AdmittedEntry | api/v1alpha1/sqljob_webhook_test.go:245-269 | a patch that changes one mutable field to a value passing its rule is written |
| SqlJobWebhookTable.ScheduleEntry | api/v1alpha1/sqljob_webhook_test.go:323-332 | setting a valid schedule on a job with a SQL source is written |
| SqlJobWebhookTable.RevalidatedEntry | api/v1alpha1/sqljob_webhook_test.go:333-370 | a patch that changes one mutable field to a value breaking its rule is rejected for that alone |
| SqlJobWebhookTable.FixtureFitsUpdateTable | api/v1alpha1/sqljob_webhook_test.go:189-228 | the update context's job is admitted at creation and meets what the update table needs |
| SqlJobWebhookTable.UpdateBackoffLimitEntry | api/v1alpha1/sqljob_webhook_test.go:245-251 | setting the backoff limit to 20 is written |
| SqlJobWebhookTable.UpdateRestartPolicyEntry | api/v1alpha1/sqljob_webhook_test.go:252-258 | changing the restart policy is rejected |
| SqlJobWebhookTable.UpdateResourcesEntry | api/v1alpha1/sqljob_webhook_test.go:259-269 | setting a CPU request is written |
| SqlJobWebhookTable.UpdateMariaDBRefEntry | api/v1alpha1/sqljob_webhook_test.go:270-276 | changing the MariaDB reference is rejected |
| SqlJobWebhookTable.UpdateUsernameEntry | api/v1alpha1/sqljob_webhook_test.go:277-283 | changing the username is rejected |
| SqlJobWebhookTable.UpdatePasswordSecretKeyRefEntry | api/v1alpha1/sqljob_webhook_test.go:284-290 | changing the password secret is rejected |
| SqlJobWebhookTable.UpdateDatabaseEntry | api/v1alpha1/sqljob_webhook_test.go:291-297 | changing the database is rejected |
| SqlJobWebhookTable.UpdateDependsOnEntry | api/v1alpha1/sqljob_webhook_test.go:298-304 | clearing DependsOn is rejected |
| SqlJobWebhookTable.UpdateSqlEntry | api/v1alpha1/sqljob_webhook_test.go:305-311 | changing the inline SQL is rejected |
| SqlJobWebhookTable.UpdateSqlConfigMapKeyRefEntry | api/v1alpha1/sqljob_webhook_test.go:312-322 | setting a ConfigMap source beside inline SQL is written |
| SqlJobWebhookTable.UpdateScheduleEntry | api/v1alpha1/sqljob_webhook_test.go:323-332 | setting the schedule `*/1 * * * *` is written |
| SqlJobWebhookTable.UpdateWrongScheduleEntry | api/v1alpha1/sqljob_webhook_test.go:333-342 | setting the schedule `foo` is rejected as malformed |
| SqlJobWebhookTable.UpdateSuccessfulLimitEntry | api/v1alpha1/sqljob_webhook_test.go:343-349 | setting the successful-jobs limit to 5 is written |
| SqlJobWebhookTable.UpdateWrongSuccessfulLimitEntry | api/v1alpha1/sqljob_webhook_test.go:350-356 | setting the successful-jobs limit to -5 is rejected as out of bounds |
| SqlJobWebhookTable.UpdateFailedLimitEntry | api/v1alpha1/sqljob_webhook_test.go:357-363 | setting the failed-jobs limit to 5 is written |
| SqlJobWebhookTable.UpdateWrongFailedLimitEntry | api/v1alpha1/sqljob_webhook_test.go:364-370 | setting the failed-jobs limit to -5 is rejected as out of bounds |
| SqlJobWebhookTable.RemovingSqlEntry | api/v1alpha1/sqljob_webhook_test.go:371-378 | clearing both SQL sources after all earlier entries is rejected and leaves the job as it was |
| SqlJobWebhookTable.RemovingBothSources | api/v1alpha1/sqljob_webhook_test.go:371-378 | clearing both SQL sources of any job with inline SQL is rejected, for the inline SQL change and the missing source |
| SqlJobWebhookTable.UpdateTableFirstEntries | api/v1alpha1/sqljob_webhook_test.go:245-276 | the first four entries: backoff limit and resources are written, restart policy and MariaDB reference rejected |
| SqlJobWebhookTable.UpdateTableImmutableEntries | api/v1alpha1/sqljob_webhook_test.go:277-304 | the credential, database and DependsOn entries are all rejected and leave the job unchanged |
| SqlJobWebhookTable.UpdateTableSourceEntries | api/v1alpha1/sqljob_webhook_test.go:305-342 | the inline SQL change is rejected; the ConfigMap source and the valid schedule are written; `foo` is rejected |
| SqlJobWebhookTable.UpdateTableHistoryLimitEntries | api/v1alpha1/sqljob_webhook_test.go:343-370 | each history limit is written at 5 and rejected at -5 |
| SqlJobWebhookTable.UpdateTableOutcomes | api/v1alpha1/sqljob_webhook_test.go:229-379 | the seventeen update entries, run in order, each get the expected outcome, and the job ends up with exactly the admitted patches applied |
| SqlJobWebhookTable.OrderedUpdateContext | api/v1alpha1/sqljob_webhook_test.go:184-379 | creating the fixture in an empty store and running the update table against it yields the expected outcomes and final job |

## Left out

- The API server and the Kubernetes client are not modelled: no network, no
  namespaces, no object metadata. `Store` stands in for them and holds the
  one job each table works on. `Create` and `Patch` consult the webhook;
  `Get` and `Delete` do not.
- The merge-patch mechanics (`client.MergeFrom`, `DeepCopy`, the JSON diff)
  are not modelled. A patch is the list of field assignments its patch
  function performs, applied in order to the job just read.
- The webhook's Go implementation is not part of this model. The field
  classification follows the system's documented field table, applied to
  whole structs. The MariaDB reference is immutable including `waitForIt`,
  and the password secret including its key, although no entry changes
  those parts.
- The backoff limit must be non-negative, as the documented bounds rule
  says. No entry sets a negative backoff limit; the update table only shows
  20 being accepted.
- No limit has an upper bound. The documented ceiling has no value, and the
  tables accept a backoff limit of 20 and history limits of 5.
- `DependsOn` is only compared as a whole. Checks on the shape, existence
  or cycles of the referenced jobs are not modelled.
- Defaulting is not modelled. The jobs in both tables leave the backoff
  limit and the restart policy unset. The model assumes they are stored as 5
  and `OnFailure`. The RestartPolicy entry (line 255) sets `Never`, so it is
  rejected only when the stored default differs from `Never`; any default
  other than `Never` gives the same outcomes.
- Resource quantities such as `200m` are opaque strings, not parsed.
- Only a subset of cron is accepted: `*`, `*/n` and single numbers per
  field. Ranges (`1-5`), lists (`1,15`), steps on a number or a range
  (`5/10`), month and weekday names, 7 as Sunday, and descriptors such as
  `@daily` are rejected by the model although standard cron accepts them.
  Every expression in the tables falls inside the subset.
- The fixture's multi-line `CREATE TABLE` statement is kept as one line.
  Only its presence matters to the webhook.
- Violation reasons are symbolic. The text of the API server's error
  messages is not modelled, and the tables only test whether an error
  occurs.
- Ginkgo and Gomega scaffolding (`DescribeTable`, `Ordered`, `BeforeAll`,
  `Expect`) is not modelled. It is represented by the context methods and
  the table lemmas.
- Creating a job with both inline SQL and a ConfigMap reference is
  accepted. The update table reaches that state without a rejection, and no
  entry rejects it.
