/** The shared `jobs` table and the two repositories that work on it. */
module JobTable {
  import opened Basics
  import opened Validation
  import opened Jobs
  import GatewayDecision

  /** A row: enum columns hold their string values. */
  datatype JobModel = JobModel(
    id: string, url: string, domain: string, requiredFields: seq<string>,
    status: string, result: Option<Data>, failureReason: Option<string>)

  function StatusValue(status: JobStatus): string {
    match status
    case Pending => "pending"
    case RecoveryPending => "recovery_pending"
    case Recovering => "recovering"
    case Success => "success"
    case Failed => "failed"
    case NeedsHumanReview => "needs_human_review"
  }

  function StatusOf(raw: string): Option<JobStatus> {
    if raw == "pending" then Some(Pending)
    else if raw == "recovery_pending" then Some(RecoveryPending)
    else if raw == "recovering" then Some(Recovering)
    else if raw == "success" then Some(Success)
    else if raw == "failed" then Some(Failed)
    else if raw == "needs_human_review" then Some(NeedsHumanReview)
    else None
  }

  function ReasonColumn(reason: Option<FailureReason>): Option<string> {
    if reason.Some? then Some(GatewayDecision.ReasonValue(reason.value)) else None
  }

  function JobToModel(job: Job): JobModel {
    JobModel(job.id, job.url, job.domain, job.requiredFields,
             StatusValue(job.status), job.result, ReasonColumn(job.failureReason))
  }

  /** `Raised` is the ValueError of an unknown status or reason. */
  function ModelToJob(model: JobModel): Answer<Job> {
    var status := StatusOf(model.status);
    if status.None? then Raised
    else if model.failureReason.None? || model.failureReason.value == "" then
      Returned(Job(model.id, model.url, model.domain, model.requiredFields, status.value, model.result, None))
    else
      var reason := GatewayDecision.ReasonOf(model.failureReason.value);
      if reason.None? then Raised
      else Returned(Job(model.id, model.url, model.domain, model.requiredFields, status.value, model.result, reason))
  }

  lemma StatusRoundTrip(status: JobStatus)
    ensures StatusOf(StatusValue(status)) == Some(status)
  {
  }

  /** Storing a job and reading it back gives the job. */
  lemma RowRoundTrip(job: Job)
    ensures ModelToJob(JobToModel(job)) == Returned(job)
  {
    StatusRoundTrip(job.status);
    if job.failureReason.Some? { GatewayDecision.ReasonRoundTrip(job.failureReason.value, ""); }
  }

  /** The only columns a write to an existing row touches. */
  function WithMutableColumns(row: JobModel, job: Job): JobModel {
    row.(status := StatusValue(job.status), result := job.result, failureReason := ReasonColumn(job.failureReason))
  }

  lemma WithMutableColumnsReads(row: JobModel, job: Job)
    requires ModelToJob(row).Returned?
    ensures ModelToJob(WithMutableColumns(row, job)) ==
            Returned(ModelToJob(row).value.(status := job.status, result := job.result,
                failureReason := job.failureReason))
  {
    StatusRoundTrip(job.status);
    if job.failureReason.Some? { GatewayDecision.ReasonRoundTrip(job.failureReason.value, ""); }
  }

  // ----- the same writes on decoded jobs -----

  datatype WriteMode = Columns | WholeRow

  /** `save`: insert, or overwrite three columns (or, as the simple reading, the row). */
  function Upsert(mode: WriteMode, jobs: map<string, Job>, job: Job): map<string, Job> {
    if mode.Columns? && job.id in jobs then
      jobs[job.id := jobs[job.id].(status := job.status, result := job.result, failureReason := job.failureReason)]
    else jobs[job.id := job]
  }

  ghost predicate Readable(rows: map<string, JobModel>) {
    forall id :: id in rows ==> rows[id].id == id && ModelToJob(rows[id]).Returned?
  }

  /** The rows as the domain sees them. */
  function Decoded(rows: map<string, JobModel>): map<string, Job>
    requires Readable(rows)
  {
    map id | id in rows :: ModelToJob(rows[id]).value
  }

  lemma DecodedPut(rows: map<string, JobModel>, model: JobModel)
    requires Readable(rows) && ModelToJob(model).Returned?
    ensures Readable(rows[model.id := model])
    ensures Decoded(rows[model.id := model]) == Decoded(rows)[model.id := ModelToJob(model).value]
  {
  }

  class Table {
    var rows: map<string, JobModel>

    constructor ()
      ensures rows == map[]
    {
      rows := map[];
    }

    ghost predicate Valid()
      reads this
    {
      Readable(rows)
    }

    /** The table as the domain sees it. */
    ghost function Jobs(): map<string, Job>
      reads this
      requires Valid()
    {
      Decoded(rows)
    }
  }

  /** The gateway's repository. */
  class SqlAlchemyJobRepository {
    const table: Table

    constructor (table: Table)
      ensures this.table == table
    {
      this.table := table;
    }

    /** `raises` says whether the session does, before anything is committed. */
    method Save(job: Job, raises: bool) returns (r: Answer<()>)
      requires table.Valid()
      modifies table
      ensures table.Valid()
      ensures r.Raised? <==> raises
      ensures r.Raised? ==> table.rows == old(table.rows)
      ensures r.Returned? ==> table.Jobs() == Upsert(Columns, old(table.Jobs()), job)
      ensures forall id :: id in old(table.rows) && id != job.id ==>
              id in table.rows && table.rows[id] == old(table.rows)[id]
    {
      if raises { return Raised; }
      if job.id !in table.rows {
        RowRoundTrip(job);
        DecodedPut(table.rows, JobToModel(job));
        table.rows := table.rows[job.id := JobToModel(job)];
      } else {
        WithMutableColumnsReads(table.rows[job.id], job);
        DecodedPut(table.rows, WithMutableColumns(table.rows[job.id], job));
        table.rows := table.rows[job.id := WithMutableColumns(table.rows[job.id], job)];
      }
      r := Returned(());
    }

    method Get(id: string, raises: bool) returns (r: Answer<Option<Job>>)
      ensures table.Valid() && !raises ==> r == Returned(if id in table.Jobs() then Some(table.Jobs()[id]) else None)
      ensures r.Raised? <==> raises || (id in table.rows && ModelToJob(table.rows[id]).Raised?)
    {
      if raises { return Raised; }
      r := Read(table, id);
    }
  }

  /** The recovery engine's repository on the same table: it never inserts. */
  class SqlJobRepository {
    const table: Table

    constructor (table: Table)
      ensures this.table == table
    {
      this.table := table;
    }

    method Get(id: string, raises: bool) returns (r: Answer<Option<Job>>)
      ensures table.Valid() && !raises ==> r == Returned(if id in table.Jobs() then Some(table.Jobs()[id]) else None)
      ensures r.Raised? <==> raises || (id in table.rows && ModelToJob(table.rows[id]).Raised?)
    {
      if raises { return Raised; }
      r := Read(table, id);
    }

    method Update(job: Job, raises: bool) returns (r: Answer<()>)
      requires table.Valid()
      modifies table
      ensures table.Valid()
      ensures r.Raised? <==> raises || job.id !in old(table.rows)
      ensures r.Raised? ==> table.rows == old(table.rows)
      ensures r.Returned? ==> table.Jobs() == Upsert(Columns, old(table.Jobs()), job)
    {
      if raises || job.id !in table.rows {
        return Raised;
      }
      WithMutableColumnsReads(table.rows[job.id], job);
      DecodedPut(table.rows, WithMutableColumns(table.rows[job.id], job));
      table.rows := table.rows[job.id := WithMutableColumns(table.rows[job.id], job)];
      r := Returned(());
    }
  }

  method Read(table: Table, id: string) returns (r: Answer<Option<Job>>)
    ensures table.Valid() ==> r == Returned(if id in table.Jobs() then Some(table.Jobs()[id]) else None)
    ensures r.Raised? <==> id in table.rows && ModelToJob(table.rows[id]).Raised?
  {
    if id !in table.rows { return Returned(None); }
    var job := ModelToJob(table.rows[id]);
    r := if job.Raised? then Raised else Returned(Some(job.value));
  }
}
