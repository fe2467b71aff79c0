/** Several workers run `BackupRuntime::run_pass` against one database. Every SQL statement, or
    transaction where the code opens one, is one atomic step; between two steps of a worker any
    other worker and any other writer may run, and every clock reading is arbitrary. */
module BackupProtocol {
  import opened Outcomes
  import opened BackupModel

  type WorkerId = nat

  const MAX_JOBS_PER_PASS: nat := 4

  /** The statement a worker executes next, with the local variables it still needs. */
  datatype Phase =
    | Idle
    | Requeue
    | Select(at: Time)
    | TryNext(at: Time, cands: seq<Candidate>)
    | Export(claim: Claim)
    | CheckPending(claim: Claim)
    | ReadPending(claim: Claim)
    | Resolve(claim: Claim, todo: seq<PendingRow>, ready: seq<RowId>)
    | Reject(claim: Claim, todo: seq<PendingRow>, ready: seq<RowId>, code: Code)
    | FailRest(claim: Claim, code: Code)
    | Beat(claim: Claim, open: seq<RowId>)
    | Mark(claim: Claim, open: seq<RowId>)
    | Upload(claim: Claim, open: seq<RowId>)
    | CheckFinish(claim: Claim)
    | ReadFinish(claim: Claim)
    | WriteFinish(claim: Claim, status: JobStatus, error: Option<Code>)
    | CleanUp

  /** `left` counts the iterations of the job loop that have not ended, `passes` the completed passes. */
  datatype Worker = Worker(owner: Owner, left: nat, passes: nat, phase: Phase)

  /** What one step reads from outside the database: the clock, the result of an export, an upload
      or a decryption, the row order of a query, and whether the statement reports a failure
      (`fault`), having taken effect nevertheless (`applied`). */
  datatype Input = Input(
    now: Time, fault: bool, applied: bool, exported: bool, decrypted: bool,
    upload: Result<nat, Code>, cands: seq<Candidate>, rows: seq<PendingRow>)

  datatype Action =
    | Work(worker: WorkerId, input: Input)
    | Crash(worker: WorkerId)
    | Enqueue(job: JobId, user: UserId, rows: map<RowId, Row>, at: Time)
    | PutTarget(target: TargetId, config: Target)
    | DropTarget(target: TargetId)
    | DropUser(user: UserId)
    | Join(worker: WorkerId, owner: Owner)

  /** The database, the workers, and the identifiers handed out so far. */
  datatype Sys = Sys(db: Db, workers: map<WorkerId, Worker>, usedJobs: set<JobId>, usedRows: set<RowId>)

  // ---- one step of a worker

  function ClaimOf(p: Phase): Option<Claim> {
    match p
    case Idle | Requeue | Select(_) | TryNext(_, _) | CleanUp => None
    case _ => Some(p.claim)
  }

  function Execute(c: Claim, open: seq<RowId>): Phase {
    if open == [] then CheckFinish(c) else Beat(c, open)
  }

  function NextJob(left: nat): Phase {
    if left == 0 then CleanUp else Requeue
  }

  function Pred(n: nat): nat {
    if n == 0 then 0 else n - 1
  }

  /** The loop head of `pending_execution_targets`: another row, or the list is complete. */
  function ResolveNext(c: Claim, todo: seq<PendingRow>, ready: seq<RowId>): Phase {
    if todo == [] then Execute(c, ready) else Resolve(c, todo, ready)
  }

  function TryNextStep(db: Db, wk: Worker, input: Input): (Db, Worker)
    requires wk.phase.TryNext?
  {
    var TryNext(at, cands) := wk.phase;
    if cands == [] then (db, wk.(phase := CleanUp))
    else if !Claimable(cands[0]) || !Unchanged(db, cands[0]) then
      (db, wk.(phase := TryNext(at, cands[1..])))
    else
      (TryClaim(db, cands[0], wk.owner, at),
       wk.(phase := Export(Claim(cands[0].jobId, cands[0].userId, wk.owner, cands[0].token + 1))))
  }

  function ResolveStep(db: Db, wk: Worker, input: Input): Phase
    requires wk.phase.Resolve?
  {
    var Resolve(c, todo, ready) := wk.phase;
    if todo == [] then Execute(c, ready)
    else if input.fault then FailRest(c, Database)
    else if !Resolvable(db, c, todo[0]) then Reject(c, todo, ready, TargetChanged)
    else if !db.targets[todo[0].targetId.value].readable then FailRest(c, CorruptData)
    else if !input.decrypted then Reject(c, todo, ready, SecretUnavailable)
    else ResolveNext(c, todo[1..], ready + [todo[0].id])
  }

  function RejectStep(db: Db, wk: Worker, input: Input): (Db, Phase)
    requires wk.phase.Reject?
  {
    var Reject(c, todo, ready, code) := wk.phase;
    if todo == [] then (db, FailRest(c, CorruptData))
    else if input.fault then
      (if input.applied then Complete(db, c, todo[0].id, Err(code), input.now) else db, FailRest(c, Database))
    else if RowGuard(db, c, todo[0].id, input.now) then
      (Complete(db, c, todo[0].id, Err(code), input.now), ResolveNext(c, todo[1..], ready))
    else
      (db, FailRest(c, LeaseLost))
  }

  function UploadStep(db: Db, wk: Worker, input: Input): (Db, Phase)
    requires wk.phase.Upload?
  {
    var Upload(c, open) := wk.phase;
    if open != [] && RowGuard(db, c, open[0], input.now) && Storable(input.upload) then
      (Complete(db, c, open[0], input.upload, input.now), Execute(c, open[1..]))
    else
      (db, Idle)
  }

  /** A step of a worker that holds a claim, except the last one of `finish_job`. */
  function ClaimedStep(db: Db, wk: Worker, input: Input): (Db, Phase)
    requires ClaimOf(wk.phase).Some? && !wk.phase.WriteFinish?
  {
    var c := wk.phase.claim;
    match wk.phase
    case Export(_) => (db, if input.exported then CheckPending(c) else FailRest(c, ExportFailed))
    case CheckPending(_) =>
      (db, if input.fault then FailRest(c, Database)
           else if Active(db, c, input.now) then ReadPending(c) else FailRest(c, LeaseLost))
    case ReadPending(_) =>
      (db, if input.fault then FailRest(c, Database)
           else if PendingRows(db, c.jobId, input.rows) then ResolveNext(c, input.rows, []) else wk.phase)
    case Resolve(_, _, _) => (db, ResolveStep(db, wk, input))
    case Reject(_, _, _, _) => RejectStep(db, wk, input)
    case FailRest(_, code) =>
      if Active(db, c, input.now) then (FailPending(db, c, code, input.now), CheckFinish(c)) else (db, Idle)
    case Beat(_, open) =>
      if Active(db, c, input.now) then (Heartbeat(db, c, input.now), Mark(c, open)) else (db, Idle)
    case Mark(_, open) =>
      if open != [] && RowGuard(db, c, open[0], input.now)
      then (MarkRunning(db, c, open[0], input.now), Upload(c, open)) else (db, Idle)
    case Upload(_, _) => UploadStep(db, wk, input)
    case CheckFinish(_) => (db, if Active(db, c, input.now) then ReadFinish(c) else Idle)
    case ReadFinish(_) => (db, WriteFinish(c, Verdict(db, c.jobId), VerdictError(db, c.jobId)))
    case _ => (db, wk.phase)
  }

  function WorkerStep(db: Db, wk: Worker, input: Input): (Db, Worker) {
    match wk.phase
    case Idle => (db, wk.(left := MAX_JOBS_PER_PASS, phase := Requeue))
    case Requeue => (RequeueExpired(db, input.now), wk.(phase := Select(input.now)))
    case Select(at) =>
      (db, if OldestQueued(db, input.cands) then wk.(phase := TryNext(at, input.cands)) else wk)
    case TryNext(_, _) => TryNextStep(db, wk, input)
    case WriteFinish(c, status, error) =>
      if Owned(db, c)
      then (Finish(db, c, status, error), wk.(left := Pred(wk.left), phase := NextJob(Pred(wk.left))))
      else (db, wk.(phase := Idle))
    case CleanUp => (Cleanup(db, input.now - HISTORY), wk.(passes := wk.passes + 1, phase := Idle))
    case _ =>
      var (db', phase) := ClaimedStep(db, wk, input);
      (db', wk.(phase := phase))
  }

  /** Seven days. */
  const HISTORY: Time := 604_800_000_000_000

  // ---- the whole system

  predicate Insertable(s: Sys, a: Action)
    requires a.Enqueue?
  {
    && a.job !in s.usedJobs
    && a.rows.Keys !! s.usedRows
    && a.rows != map[]
    && |a.rows| <= 0xffff
    && (forall r :: r in a.rows ==> a.rows[r].jobId == a.job && a.rows[r].status.RowQueued?)
  }

  function Do(s: Sys, a: Action): Sys {
    match a
    case Work(w, input) =>
      if w in s.workers then
        var (db, wk) := WorkerStep(s.db, s.workers[w], input);
        s.(db := db, workers := s.workers[w := wk])
      else s
    case Crash(w) => if w in s.workers then s.(workers := s.workers[w := s.workers[w].(phase := Idle)]) else s
    case Join(w, owner) => if w in s.workers then s else s.(workers := s.workers[w := Worker(owner, 0, 0, Idle)])
    case Enqueue(j, user, rows, at) =>
      if Insertable(s, a) then
        s.(db := Insert(s.db, j, user, rows, at), usedJobs := s.usedJobs + {j}, usedRows := s.usedRows + rows.Keys)
      else s
    case PutTarget(t, config) => s.(db := s.db.(targets := s.db.targets[t := config]))
    case DropTarget(t) => s.(db := WithoutTargets(s.db, {t}))
    case DropUser(u) => s.(db := WithoutUser(s.db, u))
  }

  function Run(s: Sys, acts: seq<Action>): Sys
    decreases |acts|
  {
    if acts == [] then s else Run(Do(s, acts[0]), acts[1..])
  }

  lemma {:induction false} RunAppend(s: Sys, a: seq<Action>, b: seq<Action>)
    ensures Run(s, a + b) == Run(Run(s, a), b)
    decreases |a|
  {
    if a == [] {
      assert a + b == b;
    } else {
      assert (a + b)[1..] == a[1..] + b;
      RunAppend(Do(s, a[0]), a[1..], b);
    }
  }

  function Start(): Sys {
    Sys(Db(map[], map[], map[]), map[], {}, {})
  }
}
