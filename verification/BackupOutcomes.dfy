/** Which outcome a row of a backup job is given: every final status of a row was given to it by a step
    of a worker under a live claim, with what that worker had read. */
module BackupOutcomes {
  import opened Outcomes
  import opened BackupModel
  import opened BackupProtocol
  import opened BackupSafety
  import opened BackupTheorems

  // ---- what a step gives to a row

  /** A worker whose claim is live has uploaded to the destination of the row. */
  ghost predicate Uploads(s: Sys, a: Action, r: RowId, outcome: Result<nat, Code>) {
    && a.Work? && a.worker in s.workers && s.workers[a.worker].phase.Upload?
    && var Upload(c, open) := s.workers[a.worker].phase;
    && open != [] && open[0] == r && IsRowOf(s.db, r, c.jobId)
    && Active(s.db, c, a.input.now)
    && a.input.upload == outcome
  }

  /** A worker whose claim is live has found that the row cannot be executed. */
  ghost predicate Rejects(s: Sys, a: Action, r: RowId, code: Code) {
    && a.Work? && a.worker in s.workers && s.workers[a.worker].phase.Reject?
    && var Reject(c, todo, ready, found) := s.workers[a.worker].phase;
    && todo != [] && todo[0].id == r && IsRowOf(s.db, r, c.jobId)
    && Active(s.db, c, a.input.now)
    && code == found
  }

  /** A worker whose claim is live gives up the job of the row. */
  ghost predicate GivesUp(s: Sys, a: Action, r: RowId, code: Code) {
    && a.Work? && a.worker in s.workers && s.workers[a.worker].phase.FailRest?
    && var FailRest(c, found) := s.workers[a.worker].phase;
    && IsRowOf(s.db, r, c.jobId) && !s.db.rows[r].status.RowSucceeded?
    && Active(s.db, c, a.input.now)
    && code == found
  }

  ghost predicate Fails(s: Sys, a: Action, r: RowId, code: Code) {
    Uploads(s, a, r, Err(code)) || Rejects(s, a, r, code) || GivesUp(s, a, r, code)
  }

  /** A successful upload leaves the row succeeded, with the bytes uploaded; a failed one leaves it
      failed, with its code. A byte count that cannot be stored leaves it alone and ends the pass. */
  lemma UploadStores(s: Sys, a: Action, r: RowId, outcome: Result<nat, Code>)
    requires Uploads(s, a, r, outcome)
    ensures r in Do(s, a).db.rows
    ensures match outcome
      case Ok(bytes) =>
        if bytes <= I64_MAX
        then Do(s, a).db.rows[r] == s.db.rows[r].(status := RowSucceeded, byteSize := Some(bytes), errorCode := None)
        else Do(s, a).db == s.db && Do(s, a).workers[a.worker].phase == Idle
      case Err(code) =>
        Do(s, a).db.rows[r] == s.db.rows[r].(status := RowFailed, byteSize := None, errorCode := Some(code))
  {
  }

  /** A row that cannot be executed is failed with the reason, unless the database reports a failure
      that took no effect. */
  lemma RejectStores(s: Sys, a: Action, r: RowId, code: Code)
    requires Rejects(s, a, r, code) && (a.input.fault ==> a.input.applied)
    ensures r in Do(s, a).db.rows
    ensures Do(s, a).db.rows[r] == s.db.rows[r].(status := RowFailed, byteSize := None, errorCode := Some(code))
  {
  }

  /** Giving up fails every row that has not succeeded. */
  lemma GivingUpStores(s: Sys, a: Action, r: RowId, code: Code)
    requires GivesUp(s, a, r, code)
    ensures r in Do(s, a).db.rows
    ensures Do(s, a).db.rows[r] == s.db.rows[r].(status := RowFailed, errorCode := Some(code))
  {
  }

  // ---- where final statuses come from

  /** What a row says of its past: the status of a finished row, with its bytes or its code. */
  ghost predicate Says(row: Row, outcome: Result<nat, Code>) {
    match outcome
    case Ok(bytes) => row.status == RowSucceeded && row.byteSize == Some(bytes) && row.errorCode == None
    case Err(code) => row.status == RowFailed && row.errorCode == Some(code)
  }

  ghost predicate Gives(s: Sys, a: Action, r: RowId, outcome: Result<nat, Code>) {
    match outcome
    case Ok(bytes) => Uploads(s, a, r, Ok(bytes))
    case Err(code) => Fails(s, a, r, code)
  }

  /** The row had been finished before the step, with the same outcome, or the step has finished it. */
  ghost predicate Accounted(s: Sys, a: Action, r: RowId)
    requires r in Do(s, a).db.rows
  {
    var row := Do(s, a).db.rows[r];
    row.status.Terminal() ==>
      || (r in s.db.rows && SameRow(s.db.rows[r], row))
      || exists outcome :: Says(row, outcome) && Gives(s, a, r, outcome)
  }

  lemma RowStepAccounted(s: Sys, a: Action, r: RowId)
    requires a.Work? && a.worker in s.workers && WritesRows(s.workers[a.worker].phase)
    requires r in Do(s, a).db.rows
    ensures Accounted(s, a, r)
  {
    var p, now := s.workers[a.worker].phase, a.input.now;
    var row := Do(s, a).db.rows[r];
    if row != s.db.rows[r] {
      match p {
        case Upload(c, open) =>
          assert Uploads(s, a, r, a.input.upload);
          assert Says(row, a.input.upload) && Gives(s, a, r, a.input.upload);
        case Reject(c, todo, ready, code) =>
          assert Rejects(s, a, r, code);
          assert Says(row, Err(code)) && Gives(s, a, r, Err(code));
        case FailRest(c, code) =>
          assert GivesUp(s, a, r, code);
          assert Says(row, Err(code)) && Gives(s, a, r, Err(code));
        case Mark(c, open) =>
      }
    }
  }

  lemma WorkAccounted(s: Sys, a: Action, r: RowId)
    requires a.Work? && a.worker in s.workers && r in Do(s, a).db.rows
    ensures Accounted(s, a, r)
  {
    var wk := s.workers[a.worker];
    StepDb(s.db, wk, a.input);
    if WritesRows(wk.phase) {
      RowStepAccounted(s, a, r);
    } else if !wk.phase.CleanUp? && !wk.phase.WriteFinish? {
      QuietStep(s.db, wk, a.input);
    }
  }

  lemma OutsiderAccounted(s: Sys, a: Action, r: RowId)
    requires !a.Work? && r in Do(s, a).db.rows
    ensures Accounted(s, a, r)
  {
  }

  lemma StepAccounted(s: Sys, a: Action, r: RowId)
    requires r in Do(s, a).db.rows
    ensures Accounted(s, a, r)
  {
    if a.Work? {
      if a.worker in s.workers { WorkAccounted(s, a, r); }
    } else {
      OutsiderAccounted(s, a, r);
    }
  }

  /** The step at position `k` of a run from the start has given the outcome to the row. */
  ghost predicate GivenAt(acts: seq<Action>, k: nat, r: RowId, outcome: Result<nat, Code>) {
    k < |acts| && Gives(Run(Start(), acts[..k]), acts[k], r, outcome)
  }

  lemma LastStep(s: Sys, acts: seq<Action>)
    requires acts != []
    ensures Run(s, acts) == Do(Run(s, acts[..|acts| - 1]), acts[|acts| - 1])
  {
    var init, last := acts[..|acts| - 1], acts[|acts| - 1];
    assert init + [last] == acts;
    RunAppend(s, init, [last]);
    assert [last][1..] == [];
  }

  /** In every reachable state a row that has succeeded was uploaded by a worker whose claim was live,
      and has the bytes of that upload; a row that has failed was given its code by a worker whose
      claim was live: by an upload that failed, by a destination that could not be used, or by giving
      up the job. */
  lemma {:induction false} OutcomesWereGiven(acts: seq<Action>, r: RowId)
    requires r in Run(Start(), acts).db.rows && Run(Start(), acts).db.rows[r].status.Terminal()
    ensures exists k: nat, outcome ::
      Says(Run(Start(), acts).db.rows[r], outcome) && GivenAt(acts, k, r, outcome)
    decreases |acts|
  {
    if acts != [] {
      var init, last := acts[..|acts| - 1], acts[|acts| - 1];
      var s := Run(Start(), init);
      LastStep(Start(), acts);
      StepAccounted(s, last, r);
      var row := Run(Start(), acts).db.rows[r];
      if r in s.db.rows && SameRow(s.db.rows[r], row) {
        OutcomesWereGiven(init, r);
        var k: nat, outcome :| Says(s.db.rows[r], outcome) && GivenAt(init, k, r, outcome);
        assert acts[..k] == init[..k];
        assert Says(row, outcome) && GivenAt(acts, k, r, outcome);
      } else {
        var outcome :| Says(row, outcome) && Gives(s, last, r, outcome);
        assert GivenAt(acts, |acts| - 1, r, outcome);
      }
    }
  }

  // ---- destinations, leases and history

  /** The destination that a row was queued for is there, enabled, and has not been changed since. */
  ghost predicate StillThere(db: Db, c: Claim, row: PendingRow) {
    && row.targetId.Some?
    && (exists t :: t in db.targets && row.targetId == Some(t) && db.targets[t].userId == c.userId &&
          db.targets[t].enabled && db.targets[t].kind == row.targetKind && db.targets[t].revision == row.targetRevision)
  }

  lemma ResolvableIsThere(db: Db, c: Claim, row: PendingRow)
    ensures Resolvable(db, c, row) <==> StillThere(db, c, row)
  {
    if Resolvable(db, c, row) {
      var t := row.targetId.value;
      assert t in db.targets && db.targets[t].enabled;
    }
  }

  /** A row whose destination is gone, disabled, changed or another user's is not kept for upload but is
      set down to be failed. */
  lemma UnusableIsRejected(db: Db, wk: Worker, input: Input)
    requires wk.phase.Resolve? && wk.phase.todo != [] && !input.fault
    requires !StillThere(db, wk.phase.claim, wk.phase.todo[0])
    ensures WorkerStep(db, wk, input) ==
      (db, wk.(phase := Reject(wk.phase.claim, wk.phase.todo, wk.phase.ready, TargetChanged)))
  {
    ResolvableIsThere(db, wk.phase.claim, wk.phase.todo[0]);
  }

  /** The rows that a worker may still upload. */
  ghost function ToUpload(p: Phase): seq<RowId> {
    match p
    case Resolve(_, todo, ready) => ready
    case Reject(_, todo, ready, _) => ready
    case Beat(_, open) => open
    case Mark(_, open) => open
    case Upload(_, open) => open
    case _ => []
  }

  /** A rejected row is not among those uploaded afterwards. */
  lemma RejectedIsNotUploaded(db: Db, wk: Worker, input: Input)
    requires wk.phase.Reject? && wk.phase.todo != []
    requires Distinct(Ids(wk.phase.todo) + wk.phase.ready)
    ensures wk.phase.todo[0].id !in ToUpload(WorkerStep(db, wk, input).1.phase)
  {
    var Reject(c, todo, ready, code) := wk.phase;
    var open := Ids(todo) + ready;
    assert open[0] == todo[0].id;
    forall i | 0 <= i < |ready|
      ensures ready[i] != todo[0].id
    {
      assert open[|todo| + i] == ready[i];
    }
  }

  /** A row comes to be uploaded only by being resolved, while its destination is still there. */
  lemma OnlyResolvedIsUploaded(db: Db, wk: Worker, input: Input, r: RowId)
    requires r in ToUpload(WorkerStep(db, wk, input).1.phase) && r !in ToUpload(wk.phase)
    ensures wk.phase.Resolve? && wk.phase.todo != [] && wk.phase.todo[0].id == r
    ensures StillThere(db, wk.phase.claim, wk.phase.todo[0])
  {
    if wk.phase.Resolve? && wk.phase.todo != [] {
      ResolvableIsThere(db, wk.phase.claim, wk.phase.todo[0]);
    }
  }

  /** A heartbeat under a live claim puts the end of the lease thirty seconds after the clock. */
  lemma HeartbeatExtends(s: Sys, a: Action)
    requires a.Work? && a.worker in s.workers && s.workers[a.worker].phase.Beat?
    requires Active(s.db, s.workers[a.worker].phase.claim, a.input.now)
    ensures var j := s.workers[a.worker].phase.claim.jobId; var t := Do(s, a);
      j in t.db.jobs && t.db.jobs[j] == s.db.jobs[j].(leaseUntil := Some(a.input.now + 30 * 1_000_000_000))
  {
  }

  ghost predicate Over(job: Job) {
    job.status.JobSucceeded? || job.status.JobPartial? || job.status.JobFailed?
  }

  /** The cleanup deletes exactly the finished jobs that are older than seven days, with their rows. */
  lemma CleanupExactly(s: Sys, a: Action, j: JobId, r: RowId)
    requires a.Work? && a.worker in s.workers && s.workers[a.worker].phase.CleanUp?
    ensures j in Do(s, a).db.jobs <==>
      j in s.db.jobs && !(Over(s.db.jobs[j]) && s.db.jobs[j].createdAt < a.input.now - 7 * 24 * 3_600 * 1_000_000_000)
    ensures j in Do(s, a).db.jobs ==> Do(s, a).db.jobs[j] == s.db.jobs[j]
    ensures IsRowOf(s.db, r, j) && j in s.db.jobs ==> (r in Do(s, a).db.rows <==> j in Do(s, a).db.jobs)
  {
  }
}
