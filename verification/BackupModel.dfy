/** The backup tables and the atomic statements (or transactions) that `src/backups/repository.rs`
    runs on them. Identifiers are natural numbers: the code only compares them, and sorts names. */
module BackupModel {
  import opened Outcomes

  type JobId = nat
  type RowId = nat
  type TargetId = nat
  type UserId = nat
  type Owner = nat
  type Time = int

  /** Times are clock readings in nanoseconds; a lease lasts thirty seconds. */
  const LEASE: Time := 30_000_000_000
  const MAX_CANDIDATES: nat := 16

  datatype Code =
    | TargetChanged
    | LeaseLost
    | Database
    | ExportFailed
    | CorruptData
    | SecretUnavailable
    | UploadFailed
    | PartialFailure
    | AllTargetsFailed

  datatype JobStatus = JobQueued | JobRunning | JobSucceeded | JobPartial | JobFailed {
    predicate Terminal() { JobSucceeded? || JobPartial? || JobFailed? }
  }

  datatype RowStatus = RowQueued | RowRunning | RowSucceeded | RowFailed {
    predicate Terminal() { RowSucceeded? || RowFailed? }
  }

  datatype Job = Job(
    userId: UserId, status: JobStatus, leaseOwner: Option<Owner>, leaseToken: int,
    leaseUntil: Option<Time>, lastError: Option<Code>, createdAt: Time)

  datatype Row = Row(
    jobId: JobId, targetId: Option<TargetId>, targetKind: nat, targetName: nat,
    targetRevision: int, status: RowStatus, byteSize: Option<nat>, errorCode: Option<Code>)

  /** A configured destination. `readable` is whether the stored configuration and retention parse. */
  datatype Target = Target(userId: UserId, kind: nat, enabled: bool, revision: int, readable: bool)

  datatype Db = Db(jobs: map<JobId, Job>, rows: map<RowId, Row>, targets: map<TargetId, Target>)

  datatype Claim = Claim(jobId: JobId, userId: UserId, owner: Owner, token: int)

  datatype Candidate = Candidate(jobId: JobId, userId: UserId, token: int)

  /** What `pending_execution_targets` keeps of a selected row. */
  datatype PendingRow = PendingRow(
    id: RowId, targetId: Option<TargetId>, targetKind: nat, targetRevision: int)

  // ---- guards

  /** The five filters shared by `ensure_active_claim`, `lock_active_claim` and `heartbeat`. */
  predicate Active(db: Db, c: Claim, now: Time) {
    && Owned(db, c)
    && db.jobs[c.jobId].leaseUntil.Some?
    && db.jobs[c.jobId].leaseUntil.value > now
  }

  /** The filters of the last update of `finish_job`, which does not look at the lease deadline. */
  predicate Owned(db: Db, c: Claim) {
    && c.jobId in db.jobs
    && var job := db.jobs[c.jobId];
    && job.userId == c.userId
    && job.status.JobRunning?
    && job.leaseOwner == Some(c.owner)
    && job.leaseToken == c.token
  }

  // ---- claiming

  function Requeued(job: Job, now: Time): Job {
    if job.status.JobRunning? && job.leaseUntil.Some? && job.leaseUntil.value <= now then
      job.(status := JobQueued, leaseOwner := None, leaseUntil := None)
    else
      job
  }

  function RequeueExpired(db: Db, now: Time): Db {
    db.(jobs := map id | id in db.jobs :: Requeued(db.jobs[id], now))
  }

  function CandidateOf(db: Db, id: JobId): Candidate
    requires id in db.jobs
  {
    Candidate(id, db.jobs[id].userId, db.jobs[id].leaseToken)
  }

  /** The candidate query of `claim_next`: `cands` lists the oldest queued jobs, oldest first, at
      most sixteen of them. Jobs created at the same time may come in any order. */
  predicate OldestQueued(db: Db, cands: seq<Candidate>) {
    && |cands| <= MAX_CANDIDATES
    && (forall i :: 0 <= i < |cands| ==>
      cands[i].jobId in db.jobs && db.jobs[cands[i].jobId].status.JobQueued? &&
      cands[i] == CandidateOf(db, cands[i].jobId))
    && (forall i, k :: 0 <= i < k < |cands| ==>
      cands[i].jobId != cands[k].jobId &&
      db.jobs[cands[i].jobId].createdAt <= db.jobs[cands[k].jobId].createdAt)
    && (forall id :: id in db.jobs ==> db.jobs[id].status.JobQueued? ==>
      id in JobIds(cands) ||
      (|cands| == MAX_CANDIDATES &&
       forall i :: 0 <= i < |cands| ==> db.jobs[cands[i].jobId].createdAt <= db.jobs[id].createdAt))
  }

  function JobIds(cands: seq<Candidate>): (ids: seq<JobId>)
    ensures |ids| == |cands|
    ensures forall i :: 0 <= i < |cands| ==> ids[i] == cands[i].jobId
  {
    seq(|cands|, i requires 0 <= i < |cands| => cands[i].jobId)
  }

  /** `claim_next` passes over a candidate whose token cannot be advanced. */
  predicate Claimable(cand: Candidate) {
    0 <= cand.token < I64_MAX
  }

  predicate Unchanged(db: Db, cand: Candidate) {
    && cand.jobId in db.jobs
    && db.jobs[cand.jobId].status.JobQueued?
    && db.jobs[cand.jobId].leaseToken == cand.token
  }

  /** The compare-and-set on `(status, lease_token)`. */
  function TryClaim(db: Db, cand: Candidate, owner: Owner, now: Time): Db {
    if Unchanged(db, cand) then
      db.(jobs := db.jobs[cand.jobId := db.jobs[cand.jobId].(
        status := JobRunning, leaseOwner := Some(owner), leaseToken := cand.token + 1,
        leaseUntil := Some(now + LEASE))])
    else
      db
  }

  function Heartbeat(db: Db, c: Claim, now: Time): Db {
    if Active(db, c, now) then
      db.(jobs := db.jobs[c.jobId := db.jobs[c.jobId].(leaseUntil := Some(now + LEASE))])
    else
      db
  }

  // ---- row writes, each under `lock_active_claim`

  /** The guard of `mark_target_running` and `complete_target`: a live claim and a row of its job.
      The status of the row is not looked at. */
  predicate RowGuard(db: Db, c: Claim, r: RowId, now: Time) {
    Active(db, c, now) && r in db.rows && db.rows[r].jobId == c.jobId
  }

  function MarkRunning(db: Db, c: Claim, r: RowId, now: Time): Db {
    if RowGuard(db, c, r, now) then
      db.(rows := db.rows[r := db.rows[r].(status := RowRunning, errorCode := None)])
    else
      db
  }

  /** Byte counts beyond the signed 64-bit range end the transaction with an error. */
  predicate Storable(outcome: Result<nat, Code>) {
    outcome.Ok? ==> outcome.value <= I64_MAX
  }

  function Complete(db: Db, c: Claim, r: RowId, outcome: Result<nat, Code>, now: Time): Db {
    if RowGuard(db, c, r, now) && Storable(outcome) then
      db.(rows := db.rows[r := match outcome
        case Ok(bytes) => db.rows[r].(status := RowSucceeded, byteSize := Some(bytes), errorCode := None)
        case Err(code) => db.rows[r].(status := RowFailed, byteSize := None, errorCode := Some(code))])
    else
      db
  }

  function FailedRow(row: Row, job: JobId, code: Code): Row {
    if row.jobId == job && !row.status.RowSucceeded? then
      row.(status := RowFailed, errorCode := Some(code))
    else
      row
  }

  function FailPending(db: Db, c: Claim, code: Code, now: Time): Db {
    if Active(db, c, now) then
      db.(rows := map r | r in db.rows :: FailedRow(db.rows[r], c.jobId, code))
    else
      db
  }

  // ---- finishing

  function RowsOf(db: Db, j: JobId): set<RowId> {
    set r | r in db.rows && db.rows[r].jobId == j
  }

  function RowsWith(db: Db, j: JobId, status: RowStatus): set<RowId> {
    set r | r in db.rows && db.rows[r].jobId == j && db.rows[r].status == status
  }

  /** The status that `finish_job` derives from the row counts it has read. */
  function CountedStatus(total: nat, succeeded: nat, failed: nat): JobStatus {
    if succeeded == total then JobSucceeded
    else if succeeded > 0 && failed > 0 then JobPartial
    else JobFailed
  }

  function CountedError(total: nat, succeeded: nat, failed: nat): Option<Code> {
    if CountedStatus(total, succeeded, failed) == JobSucceeded then None
    else if succeeded > 0 then Some(PartialFailure)
    else Some(AllTargetsFailed)
  }

  function Verdict(db: Db, j: JobId): JobStatus {
    CountedStatus(|RowsOf(db, j)|, |RowsWith(db, j, RowSucceeded)|, |RowsWith(db, j, RowFailed)|)
  }

  function VerdictError(db: Db, j: JobId): Option<Code> {
    CountedError(|RowsOf(db, j)|, |RowsWith(db, j, RowSucceeded)|, |RowsWith(db, j, RowFailed)|)
  }

  function Finish(db: Db, c: Claim, status: JobStatus, error: Option<Code>): Db {
    if Owned(db, c) then
      db.(jobs := db.jobs[c.jobId := db.jobs[c.jobId].(
        status := status, lastError := error, leaseOwner := None, leaseUntil := None)])
    else
      db
  }

  // ---- rows selected for execution

  /** The row query of `pending_execution_targets`: the rows of the job that have not succeeded,
      ordered by target name. Rows of one name may come in any order. */
  predicate PendingRows(db: Db, j: JobId, todo: seq<PendingRow>) {
    && (forall i, k :: 0 <= i < k < |todo| ==> todo[i].id != todo[k].id)
    && (forall i :: 0 <= i < |todo| ==>
      && todo[i].id in db.rows
      && db.rows[todo[i].id].jobId == j
      && !db.rows[todo[i].id].status.RowSucceeded?
      && todo[i] == Selected(todo[i].id, db.rows[todo[i].id]))
    && (forall i, k :: 0 <= i < k < |todo| ==>
      db.rows[todo[i].id].targetName <= db.rows[todo[k].id].targetName)
    && (forall r :: r in db.rows ==>
      db.rows[r].jobId == j && !db.rows[r].status.RowSucceeded? ==> r in Ids(todo))
  }

  function Selected(id: RowId, row: Row): PendingRow {
    PendingRow(id, row.targetId, row.targetKind, row.targetRevision)
  }

  function Ids(todo: seq<PendingRow>): (ids: seq<RowId>)
    ensures |ids| == |todo|
    ensures forall i :: 0 <= i < |todo| ==> ids[i] == todo[i].id
  {
    seq(|todo|, i requires 0 <= i < |todo| => todo[i].id)
  }

  /** Whether the destination of a selected row is still the one the job was queued for. */
  predicate Resolvable(db: Db, c: Claim, row: PendingRow) {
    && row.targetId.Some?
    && row.targetId.value in db.targets
    && var target := db.targets[row.targetId.value];
    && target.userId == c.userId
    && target.enabled
    && target.revision == row.targetRevision
    && target.kind == row.targetKind
  }

  // ---- other writers

  /** `insert_job_rows`: a queued job with its rows, all under new identifiers. */
  function Insert(db: Db, j: JobId, user: UserId, rows: map<RowId, Row>, now: Time): Db {
    db.(jobs := db.jobs[j := Job(user, JobQueued, None, 0, None, None, now)], rows := db.rows + rows)
  }

  /** Removing jobs removes their rows (`ON DELETE CASCADE`). */
  function WithoutJobs(db: Db, gone: set<JobId>): Db {
    db.(jobs := map j | j in db.jobs && j !in gone :: db.jobs[j],
        rows := map r | r in db.rows && db.rows[r].jobId !in gone :: db.rows[r])
  }

  function FinishedBefore(db: Db, cutoff: Time): set<JobId> {
    set j | j in db.jobs && db.jobs[j].createdAt < cutoff && db.jobs[j].status.Terminal()
  }

  function Cleanup(db: Db, cutoff: Time): Db {
    WithoutJobs(db, FinishedBefore(db, cutoff))
  }

  /** Removing a destination clears the references to it (`ON DELETE SET NULL`). */
  function WithoutTargets(db: Db, gone: set<TargetId>): Db {
    db.(targets := map t | t in db.targets && t !in gone :: db.targets[t],
        rows := map r | r in db.rows :: Detached(db.rows[r], gone))
  }

  function Detached(row: Row, gone: set<TargetId>): Row {
    if row.targetId.Some? && row.targetId.value in gone then row.(targetId := None) else row
  }

  /** Deleting a user deletes the user's jobs and destinations. */
  function WithoutUser(db: Db, user: UserId): Db {
    WithoutTargets(
      WithoutJobs(db, set j | j in db.jobs && db.jobs[j].userId == user),
      set t | t in db.targets && db.targets[t].userId == user)
  }
}
