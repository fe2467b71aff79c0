/** The guarantees of the backup lease protocol over whole runs. */
module BackupTheorems {
  import opened Outcomes
  import opened BackupModel
  import opened BackupProtocol
  import opened BackupSafety

  ghost predicate Reachable(s: Sys) {
    exists acts :: s == Run(Start(), acts)
  }

  lemma ReachableInv(s: Sys)
    requires Reachable(s)
    ensures Inv(s)
  {
    var acts :| s == Run(Start(), acts);
    RunKeepsInv(Start(), acts);
  }

  // ---- the stored status of a job

  ghost predicate AllRows(db: Db, j: JobId, status: RowStatus) {
    forall r :: IsRowOf(db, r, j) ==> db.rows[r].status == status
  }

  ghost predicate SomeRow(db: Db, j: JobId, status: RowStatus) {
    exists r :: IsRowOf(db, r, j) && db.rows[r].status == status
  }

  /** The status and the error of a job say what became of its rows. */
  ghost predicate Agrees(db: Db, j: JobId)
    requires j in db.jobs
  {
    var job := db.jobs[j];
    && (job.status == JobSucceeded <==> AllRows(db, j, RowSucceeded))
    && (job.status == JobPartial <==> SomeRow(db, j, RowSucceeded) && SomeRow(db, j, RowFailed))
    && (job.status == JobFailed <==> AllRows(db, j, RowFailed))
    && (job.lastError == None <==> job.status == JobSucceeded)
    && (job.lastError == Some(PartialFailure) <==> job.status == JobPartial)
    && (job.lastError == Some(AllTargetsFailed) <==> job.status == JobFailed)
  }

  lemma CountIsZero(db: Db, j: JobId, status: RowStatus)
    ensures |RowsWith(db, j, status)| == 0 <==> !SomeRow(db, j, status)
  {
    var hits := RowsWith(db, j, status);
    assert forall r :: r in hits <==> IsRowOf(db, r, j) && db.rows[r].status == status;
    assert |hits| == 0 <==> hits == {};
    if hits != {} {
      var r :| r in hits;
      assert IsRowOf(db, r, j);
    }
  }

  lemma CountIsAll(db: Db, j: JobId, status: RowStatus)
    ensures |RowsWith(db, j, status)| == |RowsOf(db, j)| <==> AllRows(db, j, status)
  {
    var hits, all := RowsWith(db, j, status), RowsOf(db, j);
    assert hits <= all;
    if |hits| == |all| {
      SubsetOfEqualSize(hits, all);
      forall r | IsRowOf(db, r, j)
        ensures db.rows[r].status == status
      {
        assert r in all;
      }
    }
    if AllRows(db, j, status) {
      forall r | r in all
        ensures r in hits
      {
        assert IsRowOf(db, r, j);
      }
      assert hits == all;
    }
  }

  lemma SubsetOfEqualSize<T>(a: set<T>, b: set<T>)
    requires a <= b && |a| == |b|
    ensures a == b
  {
    assert b == (b - a) + a;
    assert |b| == |b - a| + |a|;
  }

  /** Over terminal rows, the counting rule of `finish_job` has the intended meaning. */
  lemma CountingRule(db: Db, j: JobId)
    requires j in db.jobs && AllTerminal(db, j) && (exists r :: IsRowOf(db, r, j))
    requires db.jobs[j].status == Verdict(db, j) && db.jobs[j].lastError == VerdictError(db, j)
    ensures Agrees(db, j)
  {
    CountIsZero(db, j, RowSucceeded);
    CountIsZero(db, j, RowFailed);
    CountIsAll(db, j, RowSucceeded);
    var r :| IsRowOf(db, r, j);
    if AllRows(db, j, RowFailed) {
      assert db.rows[r].status == RowFailed;
    }
    if !SomeRow(db, j, RowSucceeded) {
      forall q | IsRowOf(db, q, j)
        ensures db.rows[q].status == RowFailed
      {
      }
      assert !AllRows(db, j, RowSucceeded);
    }
  }

  /** In every reachable state a finished job has rows, all of them terminal, and its status and
      error agree with them. */
  lemma FinishedJobsAgree(s: Sys, j: JobId)
    requires Reachable(s) && j in s.db.jobs && s.db.jobs[j].status.Terminal()
    ensures Agrees(s.db, j)
    ensures AllTerminal(s.db, j) && exists r :: IsRowOf(s.db, r, j)
  {
    ReachableInv(s);
    assert JobInv(s, j);
    CountingRule(s.db, j);
  }

  /** When the last update of `finish_job` takes effect, the status it stores agrees with the rows at
      that moment, although they were read in an earlier step without a lock. */
  lemma FinishAgrees(s: Sys, w: WorkerId, input: Input)
    requires Reachable(s) && w in s.workers && s.workers[w].phase.WriteFinish?
    requires Owned(s.db, s.workers[w].phase.claim)
    ensures var s' := Do(s, Work(w, input)); var j := s.workers[w].phase.claim.jobId;
      && s'.db.rows == s.db.rows
      && j in s'.db.jobs && s'.db.jobs[j].status == s.workers[w].phase.status
      && s'.db.jobs[j].status.Terminal()
      && Agrees(s'.db, j)
  {
    ReachableInv(s);
    assert PhaseInv(s, s.workers[w].phase);
    var j := s.workers[w].phase.claim.jobId;
    TerminalVerdict(s.db, j);
    WorkKeepsInv(s, w, input);
    assert JobInv(Do(s, Work(w, input)), j);
    CountingRule(Do(s, Work(w, input)).db, j);
  }

  // ---- what later states keep

  /** Everything that a later state has kept. */
  ghost predicate Later(s: Sys, s': Sys) {
    && s.usedJobs <= s'.usedJobs
    && s.usedRows <= s'.usedRows
    && (forall r :: r in s.usedRows && r !in s.db.rows ==> r !in s'.db.rows)
    && (forall j :: j in s.usedJobs && j !in s.db.jobs ==> j !in s'.db.jobs)
    && (forall r :: r in s.db.rows && r in s'.db.rows ==> RowKept(s.db.rows[r], s'.db.rows[r]))
    && (forall j :: j in s.db.jobs && j in s'.db.jobs ==> JobKept(s, s', j))
  }

  /** A row stays with its job, and once it has succeeded it stays as it is. */
  ghost predicate RowKept(row: Row, row': Row) {
    row'.jobId == row.jobId && (row.status.RowSucceeded? ==> SameRow(row, row'))
  }

  /** Tokens never decrease, a token that is not current never becomes so, and a finished job and
      its rows never change. */
  ghost predicate JobKept(s: Sys, s': Sys, j: JobId)
    requires j in s.db.jobs && j in s'.db.jobs
  {
    var job, job' := s.db.jobs[j], s'.db.jobs[j];
    && job.leaseToken <= job'.leaseToken
    && (job'.status.JobRunning? && job'.leaseToken == job.leaseToken ==> job.status.JobRunning?)
    && (job.status.Terminal() ==> job' == job && SameRows(s.db, s'.db, j))
  }

  /** The row writes of a worker never touch a row that has succeeded: neither of the two updates
      looks at the row status, but the worker's list holds only rows that have not. */
  lemma WorkKeepsSucceeded(s: Sys, wk: Worker, input: Input, r: RowId)
    requires Inv(s) && PhaseInv(s, wk.phase) && r in s.db.rows && s.db.rows[r].status.RowSucceeded?
    ensures var db' := WorkerStep(s.db, wk, input).0;
      r in db'.rows ==> db'.rows[r] == s.db.rows[r]
  {
    StepDb(s.db, wk, input);
    if WritesRows(wk.phase) {
      RowStepKeepsSucceeded(s.db, wk, input, r);
    } else if !wk.phase.CleanUp? && !wk.phase.WriteFinish? {
      QuietStep(s.db, wk, input);
    }
  }

  lemma RowStepKeepsSucceeded(db: Db, wk: Worker, input: Input, r: RowId)
    requires WritesRows(wk.phase) && r in db.rows && db.rows[r].status.RowSucceeded?
    requires Current(db, wk.phase.claim) ==> Knows(db, wk.phase)
    ensures var db' := ClaimedStep(db, wk, input).0;
      r in db'.rows && db'.rows[r] == db.rows[r]
  {
    if Current(db, wk.phase.claim) {
      match wk.phase
      case Reject(c, todo, ready, _) =>
        if todo != [] {
          assert (Ids(todo) + ready)[0] == todo[0].id;
        }
      case Mark(c, open) =>
        assert open != [] ==> !db.rows[open[0]].status.RowSucceeded?;
      case Upload(c, open) =>
        assert open != [] ==> !db.rows[open[0]].status.RowSucceeded?;
      case FailRest(_, _) =>
    }
  }

  lemma ShapeLater(s: Sys, s': Sys, writer: Option<Claim>)
    requires Inv(s) && Shape(s, s', writer)
    requires forall r :: r in s.db.rows && r in s'.db.rows && s.db.rows[r].status.RowSucceeded? ==>
      SameRow(s.db.rows[r], s'.db.rows[r])
    ensures Later(s, s')
  {
    forall j | j in s'.db.jobs
      ensures j in s.usedJobs ==> j in s.db.jobs
      ensures j in s.db.jobs ==> JobKept(s, s', j)
    {
      assert Framed(s, s', writer, j);
    }
  }

  lemma StepLater(s: Sys, a: Action)
    requires Inv(s)
    ensures Later(s, Do(s, a))
  {
    var s' := Do(s, a);
    if a.Work? && a.worker in s.workers {
      var wk := s.workers[a.worker];
      WorkKeepsInv(s, a.worker, a.input);
      assert PhaseInv(s, wk.phase);
      forall r | r in s.db.rows && r in s'.db.rows && s.db.rows[r].status.RowSucceeded?
        ensures SameRow(s.db.rows[r], s'.db.rows[r])
      {
        WorkKeepsSucceeded(s, wk, a.input, r);
      }
      ShapeLater(s, s', ClaimOf(wk.phase));
    } else if !a.Work? {
      OutsiderKeepsInv(s, a);
      forall r | r in s.db.rows && r in s'.db.rows && s.db.rows[r].status.RowSucceeded?
        ensures SameRow(s.db.rows[r], s'.db.rows[r])
      {
        assert RowInv(s, r);
      }
      ShapeLater(s, s', None);
    }
  }

  lemma LaterTransitive(s: Sys, m: Sys, t: Sys)
    requires Inv(s) && Later(s, m) && Later(m, t)
    ensures Later(s, t)
  {
    forall j | j in s.db.jobs && j in t.db.jobs
      ensures JobKept(s, t, j)
    {
      assert JobInv(s, j);
      assert j in m.db.jobs;
      assert JobKept(s, m, j) && JobKept(m, t, j);
    }
    forall r | r in s.db.rows && r in t.db.rows
      ensures RowKept(s.db.rows[r], t.db.rows[r])
    {
      assert RowInv(s, r);
      assert r in m.db.rows;
    }
  }

  lemma {:induction false} RunLater(s: Sys, acts: seq<Action>)
    requires Inv(s)
    ensures Later(s, Run(s, acts))
    decreases |acts|
  {
    if acts != [] {
      var m := Do(s, acts[0]);
      StepLater(s, acts[0]);
      StepKeepsInv(s, acts[0]);
      RunLater(m, acts[1..]);
      LaterTransitive(s, m, Run(m, acts[1..]));
    }
  }

  /** A row that has succeeded stays as it is in every later state, with its byte count and the
      description of its destination, until its job is deleted; only the reference to the
      destination is cleared when that is deleted. */
  lemma SucceededForever(s: Sys, acts: seq<Action>, r: RowId)
    requires Reachable(s) && r in s.db.rows && s.db.rows[r].status.RowSucceeded?
    ensures var t := Run(s, acts);
      r in t.db.rows ==> SameRow(s.db.rows[r], t.db.rows[r])
  {
    ReachableInv(s);
    RunLater(s, acts);
  }

  /** A finished job is final: its record and its rows, with their byte counts and error codes, stay
      as they are until the job is deleted, and no row joins it; only references to deleted
      destinations are cleared. */
  lemma FinishedForever(s: Sys, acts: seq<Action>, j: JobId)
    requires Reachable(s) && j in s.db.jobs && s.db.jobs[j].status.Terminal()
    ensures var t := Run(s, acts);
      j in t.db.jobs ==> t.db.jobs[j] == s.db.jobs[j] && SameRows(s.db, t.db, j)
  {
    ReachableInv(s);
    RunLater(s, acts);
  }

  /** Fencing: once the job of a claim has a larger token, or has been requeued, finished or deleted,
      the claim never passes a guard again, whatever the clocks say. */
  lemma SupersededForever(s: Sys, acts: seq<Action>, c: Claim, now: Time)
    requires Reachable(s) && c.jobId in s.usedJobs && !Current(s.db, c)
    requires c.jobId in s.db.jobs ==> c.token <= s.db.jobs[c.jobId].leaseToken
    ensures !Active(Run(s, acts).db, c, now) && !Owned(Run(s, acts).db, c)
  {
    ReachableInv(s);
    RunLater(s, acts);
    if c.jobId in s.db.jobs && c.jobId in Run(s, acts).db.jobs {
      assert JobKept(s, Run(s, acts), c.jobId);
    }
  }

  /** A worker whose claim is not current any more has lost it for good. */
  lemma LostClaimForever(s: Sys, acts: seq<Action>, w: WorkerId, now: Time)
    requires Reachable(s) && w in s.workers && ClaimOf(s.workers[w].phase).Some?
    requires !Current(s.db, ClaimOf(s.workers[w].phase).value)
    ensures var c := ClaimOf(s.workers[w].phase).value;
      !Active(Run(s, acts).db, c, now) && !Owned(Run(s, acts).db, c)
  {
    ReachableInv(s);
    assert PhaseInv(s, s.workers[w].phase);
    SupersededForever(s, acts, ClaimOf(s.workers[w].phase).value, now);
  }

  /** At most one worker holds the current claim of a job. */
  lemma OneCurrentHolder(s: Sys, v: WorkerId, w: WorkerId)
    requires Reachable(s) && v in s.workers && w in s.workers && v != w
    requires ClaimOf(s.workers[v].phase).Some? && ClaimOf(s.workers[w].phase).Some?
    requires Current(s.db, ClaimOf(s.workers[v].phase).value)
    requires Current(s.db, ClaimOf(s.workers[w].phase).value)
    ensures ClaimOf(s.workers[v].phase).value.jobId != ClaimOf(s.workers[w].phase).value.jobId
  {
    ReachableInv(s);
    assert Apart(s.workers[v].phase, s.workers[w].phase);
  }

  /** Every successful claim strictly raises the token of its job. */
  lemma ClaimRaisesToken(s: Sys, w: WorkerId, input: Input)
    requires Reachable(s) && w in s.workers && s.workers[w].phase.TryNext?
    requires Do(s, Work(w, input)).workers[w].phase.Export?
    ensures var c := Do(s, Work(w, input)).workers[w].phase.claim;
      && Current(Do(s, Work(w, input)).db, c)
      && c.jobId in s.db.jobs && c.token == s.db.jobs[c.jobId].leaseToken + 1
      && c.token <= I64_MAX
      && forall v :: v in s.workers && ClaimOf(s.workers[v].phase).Some? && ClaimOf(s.workers[v].phase).value.jobId == c.jobId ==>
           ClaimOf(s.workers[v].phase).value.token < c.token
  {
    ReachableInv(s);
    var c := Do(s, Work(w, input)).workers[w].phase.claim;
    forall v | v in s.workers && ClaimOf(s.workers[v].phase).Some? && ClaimOf(s.workers[v].phase).value.jobId == c.jobId
      ensures ClaimOf(s.workers[v].phase).value.token < c.token
    {
      assert PhaseInv(s, s.workers[v].phase);
    }
  }
}
