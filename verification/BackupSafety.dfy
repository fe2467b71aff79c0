/** What every interleaving of backup workers keeps: token fencing, and everything that follows. */
module BackupSafety {
  import opened Outcomes
  import opened BackupModel
  import opened BackupProtocol

  // ---- vocabulary

  /** The claim still is the newest one of its job, and the job runs under it. */
  ghost predicate Current(db: Db, c: Claim) {
    c.jobId in db.jobs && db.jobs[c.jobId].status.JobRunning? && db.jobs[c.jobId].leaseToken == c.token
  }

  ghost predicate IsRowOf(db: Db, r: RowId, j: JobId) {
    r in db.rows && db.rows[r].jobId == j
  }

  /** The row is as it was, except that its destination may have been deleted. */
  ghost predicate SameRow(row: Row, row': Row) {
    row' == row || row' == row.(targetId := None)
  }

  /** Job `j` has the same rows in both databases. */
  ghost predicate SameRows(db: Db, db': Db, j: JobId) {
    forall r :: (IsRowOf(db, r, j) <==> IsRowOf(db', r, j)) &&
                (IsRowOf(db, r, j) ==> SameRow(db.rows[r], db'.rows[r]))
  }

  /** The rows of a job are split into `open` ones, none of which has succeeded, and terminal ones. */
  ghost predicate Split(db: Db, j: JobId, open: seq<RowId>) {
    && Distinct(open)
    && (forall i :: 0 <= i < |open| ==> IsRowOf(db, open[i], j) && !db.rows[open[i]].status.RowSucceeded?)
    && (forall r :: IsRowOf(db, r, j) ==> r in open || db.rows[r].status.Terminal())
  }

  ghost predicate AllTerminal(db: Db, j: JobId) {
    forall r :: IsRowOf(db, r, j) ==> db.rows[r].status.Terminal()
  }

  // ---- invariant

  /** A finished job agrees with its rows, which are all terminal. */
  ghost predicate JobInv(s: Sys, j: JobId)
    requires j in s.db.jobs
  {
    && j in s.usedJobs
    && s.db.jobs[j].leaseToken >= 0
    && (exists r :: IsRowOf(s.db, r, j))
    && (s.db.jobs[j].status.Terminal() ==>
      && AllTerminal(s.db, j)
      && s.db.jobs[j].status == Verdict(s.db, j)
      && s.db.jobs[j].lastError == VerdictError(s.db, j))
  }

  /** What a worker whose claim is current knows about the rows of its job. */
  ghost predicate Knows(db: Db, p: Phase)
    requires ClaimOf(p).Some?
  {
    match p
    case Resolve(c, todo, ready) => Split(db, c.jobId, Ids(todo) + ready)
    case Reject(c, todo, ready, _) => Split(db, c.jobId, Ids(todo) + ready)
    case Beat(c, open) => Split(db, c.jobId, open)
    case Mark(c, open) => Split(db, c.jobId, open)
    case Upload(c, open) => Split(db, c.jobId, open)
    case CheckFinish(c) => AllTerminal(db, c.jobId)
    case ReadFinish(c) => AllTerminal(db, c.jobId)
    case WriteFinish(c, status, error) =>
      AllTerminal(db, c.jobId) && status == Verdict(db, c.jobId) && error == VerdictError(db, c.jobId)
    case _ => true
  }

  /** A claim was handed out for a known job, under a token that the job has reached. */
  ghost predicate HeldInv(s: Sys, c: Claim) {
    c.jobId in s.usedJobs && (c.jobId in s.db.jobs ==> c.token <= s.db.jobs[c.jobId].leaseToken)
  }

  ghost predicate PhaseInv(s: Sys, p: Phase) {
    ClaimOf(p).Some? ==>
      HeldInv(s, ClaimOf(p).value) && (Current(s.db, ClaimOf(p).value) ==> Knows(s.db, p))
  }

  ghost predicate RowInv(s: Sys, r: RowId)
    requires r in s.db.rows
  {
    r in s.usedRows && s.db.rows[r].jobId in s.db.jobs
  }

  /** No two workers hold the same claim. */
  ghost predicate Apart(p: Phase, q: Phase) {
    ClaimOf(p).Some? && ClaimOf(q).Some? ==>
      ClaimOf(p).value.jobId != ClaimOf(q).value.jobId || ClaimOf(p).value.token != ClaimOf(q).value.token
  }

  ghost predicate Inv(s: Sys) {
    && (forall j :: j in s.db.jobs ==> JobInv(s, j))
    && (forall r :: r in s.db.rows ==> RowInv(s, r))
    && (forall w :: w in s.workers ==> PhaseInv(s, s.workers[w].phase))
    && (forall v, w :: v in s.workers && w in s.workers && v != w ==> Apart(s.workers[v].phase, s.workers[w].phase))
  }

  // ---- the shape of every step, seen from one job

  /** What a step may do to job `j` when only the holder of claim `writer` may write its rows. */
  ghost predicate Framed(s: Sys, s': Sys, writer: Option<Claim>, j: JobId)
    requires j in s'.db.jobs
  {
    if j in s.db.jobs then
      var job, job' := s.db.jobs[j], s'.db.jobs[j];
      || (job' == job && SameRows(s.db, s'.db, j))
      || (job' == job && Writes(s, writer, j) && forall r :: IsRowOf(s.db, r, j) <==> IsRowOf(s'.db, r, j))
      || (SameRows(s.db, s'.db, j) && Relabelled(job, job'))
      || (SameRows(s.db, s'.db, j) && Writes(s, writer, j) && Finished(s.db, j, job, job'))
    else
      j !in s.usedJobs && j in s'.usedJobs && s'.db.jobs[j].status.JobQueued? && s'.db.jobs[j].leaseToken == 0 &&
      exists r :: IsRowOf(s'.db, r, j)
  }

  ghost predicate Writes(s: Sys, writer: Option<Claim>, j: JobId) {
    writer.Some? && writer.value.jobId == j && Current(s.db, writer.value)
  }

  /** A running job loses or renews its lease; a queued one is claimed under the next token. */
  ghost predicate Relabelled(job: Job, job': Job) {
    || (job.status.JobRunning? && (job'.status.JobRunning? || job'.status.JobQueued?) && job'.leaseToken == job.leaseToken)
    || (job.status.JobQueued? && job'.status.JobRunning? && job'.leaseToken == job.leaseToken + 1)
  }

  ghost predicate Finished(db: Db, j: JobId, job: Job, job': Job) {
    && job'.leaseToken == job.leaseToken
    && AllTerminal(db, j)
    && job'.status.Terminal()
    && job'.status == Verdict(db, j)
    && job'.lastError == VerdictError(db, j)
  }

  ghost predicate Shape(s: Sys, s': Sys, writer: Option<Claim>) {
    && s.usedJobs <= s'.usedJobs
    && s.usedRows <= s'.usedRows
    && (forall j :: j in s'.db.jobs ==> Framed(s, s', writer, j))
    && (forall r :: r in s'.db.rows ==>
      && s'.db.rows[r].jobId in s'.db.jobs
      && if r in s.db.rows then s'.db.rows[r].jobId == s.db.rows[r].jobId
         else r !in s.usedRows && r in s'.usedRows)
  }

  /** The counts of `finish_job` depend only on the statuses of the rows of the job. */
  lemma VerdictFrame(db: Db, db': Db, j: JobId)
    requires SameRows(db, db', j)
    ensures Verdict(db, j) == Verdict(db', j) && VerdictError(db, j) == VerdictError(db', j)
  {
    assert forall r :: r in RowsOf(db, j) <==> IsRowOf(db, r, j);
    assert forall r :: r in RowsOf(db', j) <==> IsRowOf(db', r, j);
    assert RowsOf(db, j) == RowsOf(db', j);
    assert RowsWith(db, j, RowSucceeded) == RowsWith(db', j, RowSucceeded);
    assert RowsWith(db, j, RowFailed) == RowsWith(db', j, RowFailed);
  }

  lemma KnowsFrame(db: Db, db': Db, p: Phase)
    requires ClaimOf(p).Some? && Knows(db, p) && SameRows(db, db', ClaimOf(p).value.jobId)
    ensures Knows(db', p)
  {
    VerdictFrame(db, db', ClaimOf(p).value.jobId);
  }

  lemma JobInvKept(s: Sys, s': Sys, writer: Option<Claim>, j: JobId)
    requires Inv(s) && Shape(s, s', writer) && j in s'.db.jobs
    ensures JobInv(s', j)
  {
    assert Framed(s, s', writer, j);
    if j in s.db.jobs {
      assert JobInv(s, j);
      var r :| IsRowOf(s.db, r, j);
      assert IsRowOf(s'.db, r, j);
      if SameRows(s.db, s'.db, j) {
        VerdictFrame(s.db, s'.db, j);
      }
    }
  }

  /** The phase of a worker survives a step that writes no rows under the worker's own claim. */
  lemma PhaseInvKept(s: Sys, s': Sys, writer: Option<Claim>, p: Phase)
    requires Inv(s) && Shape(s, s', writer) && PhaseInv(s, p)
    requires writer.Some? && ClaimOf(p).Some? ==>
      writer.value.jobId != ClaimOf(p).value.jobId || writer.value.token != ClaimOf(p).value.token
    ensures PhaseInv(s', p)
  {
    if ClaimOf(p).Some? {
      var c := ClaimOf(p).value;
      if c.jobId in s'.db.jobs {
        assert Framed(s, s', writer, c.jobId);
        if Current(s'.db, c) && c.jobId in s.db.jobs {
          KnowsFrame(s.db, s'.db, p);
        }
      }
    }
  }

  // ---- every writer has that shape

  lemma RowWriteShape(s: Sys, c: Claim, db': Db)
    requires Inv(s) && Current(s.db, c)
    requires db'.jobs == s.db.jobs && db'.rows.Keys == s.db.rows.Keys
    requires forall r :: r in s.db.rows ==>
      db'.rows[r].jobId == s.db.rows[r].jobId &&
      (s.db.rows[r].jobId != c.jobId ==> db'.rows[r] == s.db.rows[r])
    ensures Shape(s, s.(db := db'), Some(c))
  {
    forall j | j in db'.jobs
      ensures Framed(s, s.(db := db'), Some(c), j)
    {
      assert JobInv(s, j);
    }
    forall r | r in db'.rows
      ensures db'.rows[r].jobId in db'.jobs
    {
      assert RowInv(s, r);
    }
  }

  /** Any step that changes job records only, and each of them as allowed. */
  lemma JobWriteShape(s: Sys, db': Db, writer: Option<Claim>)
    requires Inv(s)
    requires db'.rows == s.db.rows && db'.jobs.Keys == s.db.jobs.Keys
    requires forall j :: j in s.db.jobs ==>
      || db'.jobs[j] == s.db.jobs[j]
      || Relabelled(s.db.jobs[j], db'.jobs[j])
      || (Writes(s, writer, j) && Finished(s.db, j, s.db.jobs[j], db'.jobs[j]))
    ensures Shape(s, s.(db := db'), writer)
  {
    forall j | j in db'.jobs
      ensures Framed(s, s.(db := db'), writer, j)
    {
      assert SameRows(s.db, db', j);
    }
    forall r | r in db'.rows
      ensures db'.rows[r].jobId in db'.jobs
    {
      assert RowInv(s, r);
    }
  }

  lemma RemovalShape(s: Sys, gone: set<JobId>)
    requires Inv(s)
    ensures Shape(s, s.(db := WithoutJobs(s.db, gone)), None)
  {
    var db' := WithoutJobs(s.db, gone);
    forall j | j in db'.jobs
      ensures Framed(s, s.(db := db'), None, j)
    {
      assert SameRows(s.db, db', j);
    }
    forall r | r in db'.rows
      ensures db'.rows[r].jobId in db'.jobs
    {
      assert RowInv(s, r);
    }
  }

  lemma DetachShape(s: Sys, gone: set<TargetId>)
    requires Inv(s)
    ensures Shape(s, s.(db := WithoutTargets(s.db, gone)), None)
  {
    var db' := WithoutTargets(s.db, gone);
    forall j | j in db'.jobs
      ensures Framed(s, s.(db := db'), None, j)
    {
      assert SameRows(s.db, db', j);
    }
    forall r | r in db'.rows
      ensures db'.rows[r].jobId in db'.jobs
    {
      assert RowInv(s, r);
    }
  }

  lemma InsertShape(s: Sys, a: Action)
    requires Inv(s) && a.Enqueue? && Insertable(s, a)
    ensures Shape(s, Do(s, a), None)
  {
    var s' := Do(s, a);
    forall r | r in s'.db.rows
      ensures s'.db.rows[r].jobId in s'.db.jobs
      ensures if r in s.db.rows then s'.db.rows[r].jobId == s.db.rows[r].jobId
              else r !in s.usedRows && r in s'.usedRows
    {
      if r in s.db.rows { assert RowInv(s, r); }
    }
    forall j | j in s'.db.jobs
      ensures Framed(s, s', None, j)
    {
      if j in s.db.jobs {
        assert JobInv(s, j);
        forall r
          ensures IsRowOf(s.db, r, j) <==> IsRowOf(s'.db, r, j)
          ensures IsRowOf(s.db, r, j) ==> SameRow(s.db.rows[r], s'.db.rows[r])
        {
          if r in s.db.rows { assert RowInv(s, r); }
        }
        assert SameRows(s.db, s'.db, j);
      } else {
        var r :| r in a.rows;
        assert IsRowOf(s'.db, r, j);
      }
    }
  }

  ghost predicate WritesRows(p: Phase) {
    p.Reject? || p.FailRest? || p.Mark? || p.Upload?
  }

  lemma RowStepShape(s: Sys, wk: Worker, input: Input)
    requires Inv(s) && WritesRows(wk.phase)
    ensures Shape(s, s.(db := ClaimedStep(s.db, wk, input).0), ClaimOf(wk.phase))
  {
    var db' := ClaimedStep(s.db, wk, input).0;
    if db' == s.db {
      JobWriteShape(s, db', ClaimOf(wk.phase));
    } else {
      RowWriteShape(s, wk.phase.claim, db');
    }
  }

  /** A verdict is written only by the holder of the current claim, over terminal rows. */
  lemma FinishShape(s: Sys, p: Phase)
    requires Inv(s) && PhaseInv(s, p) && p.WriteFinish?
    ensures Shape(s, s.(db := Finish(s.db, p.claim, p.status, p.error)), Some(p.claim))
  {
    var db' := Finish(s.db, p.claim, p.status, p.error);
    if Owned(s.db, p.claim) {
      assert Current(s.db, p.claim);
      TerminalVerdict(s.db, p.claim.jobId);
    }
    JobWriteShape(s, db', Some(p.claim));
  }

  /** The code never derives a status that is not final. */
  lemma TerminalVerdict(db: Db, j: JobId)
    ensures Verdict(db, j).Terminal()
  {
  }

  /** The remaining steps change no row; they relabel jobs or change nothing. */
  lemma QuietStep(db: Db, wk: Worker, input: Input)
    requires !wk.phase.CleanUp? && !wk.phase.WriteFinish? && !WritesRows(wk.phase)
    ensures var db' := WorkerStep(db, wk, input).0;
      && db'.rows == db.rows && db'.jobs.Keys == db.jobs.Keys
      && forall j :: j in db.jobs ==> db'.jobs[j] == db.jobs[j] || Relabelled(db.jobs[j], db'.jobs[j])
  {
    if ClaimOf(wk.phase).Some? && !wk.phase.Beat? {
      assert ClaimedStep(db, wk, input).0 == db;
    }
  }

  /** The database after a step, by the kind of the phase. */
  lemma StepDb(db: Db, wk: Worker, input: Input)
    ensures wk.phase.CleanUp? ==>
      WorkerStep(db, wk, input).0 == WithoutJobs(db, FinishedBefore(db, input.now - HISTORY))
    ensures wk.phase.WriteFinish? ==>
      WorkerStep(db, wk, input).0 == Finish(db, wk.phase.claim, wk.phase.status, wk.phase.error)
    ensures WritesRows(wk.phase) ==> WorkerStep(db, wk, input).0 == ClaimedStep(db, wk, input).0
  {
  }

  /** A step of a worker writes rows only under the claim the worker holds, and a verdict only when
      it is that of the rows. */
  lemma WorkerShape(s: Sys, wk: Worker, input: Input, db': Db)
    requires Inv(s) && PhaseInv(s, wk.phase) && db' == WorkerStep(s.db, wk, input).0
    ensures Shape(s, s.(db := db'), ClaimOf(wk.phase))
  {
    StepDb(s.db, wk, input);
    if wk.phase.CleanUp? {
      RemovalShape(s, FinishedBefore(s.db, input.now - HISTORY));
    } else if wk.phase.WriteFinish? {
      FinishShape(s, wk.phase);
    } else if WritesRows(wk.phase) {
      RowStepShape(s, wk, input);
    } else {
      QuietStep(s.db, wk, input);
      JobWriteShape(s, db', ClaimOf(wk.phase));
    }
  }

  // ---- the step of a worker keeps what the worker knows

  lemma ExecuteKnows(db: Db, c: Claim, open: seq<RowId>)
    requires Split(db, c.jobId, open)
    ensures Knows(db, Execute(c, open))
  {
  }

  lemma ResolveNextKnows(db: Db, c: Claim, todo: seq<PendingRow>, ready: seq<RowId>)
    requires Split(db, c.jobId, Ids(todo) + ready)
    ensures Knows(db, ResolveNext(c, todo, ready))
  {
    if todo == [] {
      assert Ids(todo) + ready == ready;
      ExecuteKnows(db, c, ready);
    }
  }

  lemma ReadKnows(db: Db, c: Claim, todo: seq<PendingRow>)
    requires PendingRows(db, c.jobId, todo)
    ensures Split(db, c.jobId, Ids(todo) + [])
  {
    var open := Ids(todo);
    assert open + [] == open;
    forall r | IsRowOf(db, r, c.jobId)
      ensures r in open || db.rows[r].status.Terminal()
    {
      assert !db.rows[r].status.RowSucceeded? ==> r in open;
    }
  }

  /** Moving the head of the list to its end, as resolving a row does, keeps the split. */
  lemma SplitRotate(db: Db, j: JobId, todo: seq<PendingRow>, ready: seq<RowId>)
    requires todo != [] && Split(db, j, Ids(todo) + ready)
    ensures Split(db, j, Ids(todo[1..]) + (ready + [todo[0].id]))
  {
    var before := Ids(todo) + ready;
    var after := Ids(todo[1..]) + (ready + [todo[0].id]);
    assert Ids(todo[1..]) == Ids(todo)[1..];
    assert after == before[1..] + [before[0]];
    SplitCycle(db, j, before);
  }

  lemma SplitCycle(db: Db, j: JobId, open: seq<RowId>)
    requires open != [] && Split(db, j, open)
    ensures Split(db, j, open[1..] + [open[0]])
  {
    var after := open[1..] + [open[0]];
    assert forall i :: 0 <= i < |open| - 1 ==> after[i] == open[i + 1];
    forall r | IsRowOf(db, r, j)
      ensures r in after || db.rows[r].status.Terminal()
    {
      if r in open {
        var i :| 0 <= i < |open| && open[i] == r;
        assert r == if i == 0 then after[|open| - 1] else after[i - 1];
      }
    }
  }

  /** Bringing the first open row to a terminal status takes it out of the open ones. */
  lemma SplitComplete(db: Db, db': Db, j: JobId, open: seq<RowId>)
    requires open != [] && Split(db, j, open)
    requires db'.rows.Keys == db.rows.Keys
    requires forall r :: r in db.rows && r != open[0] ==> db'.rows[r] == db.rows[r]
    requires IsRowOf(db', open[0], j) && db'.rows[open[0]].status.Terminal()
    ensures Split(db', j, open[1..])
  {
    assert forall i :: 0 <= i < |open| - 1 ==> open[1..][i] == open[i + 1];
    forall r | IsRowOf(db', r, j)
      ensures r in open[1..] || db'.rows[r].status.Terminal()
    {
      if r != open[0] {
        assert IsRowOf(db, r, j);
      }
    }
  }

  lemma UploadKnows(db: Db, wk: Worker, input: Input)
    requires wk.phase.Upload? && Knows(db, wk.phase)
    ensures var (db', p) := UploadStep(db, wk, input); ClaimOf(p).Some? ==> Knows(db', p)
  {
    var Upload(c, open) := wk.phase;
    var (db', p) := UploadStep(db, wk, input);
    if p != Idle {
      SplitComplete(db, db', c.jobId, open);
      ExecuteKnows(db', c, open[1..]);
    }
  }

  lemma RejectKnows(db: Db, wk: Worker, input: Input)
    requires wk.phase.Reject? && Knows(db, wk.phase)
    ensures var (db', p) := RejectStep(db, wk, input); ClaimOf(p).Some? ==> Knows(db', p)
  {
    var Reject(c, todo, ready, code) := wk.phase;
    var (db', p) := RejectStep(db, wk, input);
    if !p.FailRest? {
      var open := Ids(todo) + ready;
      assert open[1..] == Ids(todo[1..]) + ready;
      SplitComplete(db, db', c.jobId, open);
      ResolveNextKnows(db', c, todo[1..], ready);
    }
  }

  lemma ResolveKnows(db: Db, wk: Worker, input: Input)
    requires wk.phase.Resolve? && Knows(db, wk.phase)
    ensures var p := ResolveStep(db, wk, input); ClaimOf(p).Some? ==> Knows(db, p)
  {
    var Resolve(c, todo, ready) := wk.phase;
    if todo == [] {
      assert Ids(todo) + ready == ready;
      ExecuteKnows(db, c, ready);
    } else {
      SplitRotate(db, c.jobId, todo, ready);
      ResolveNextKnows(db, c, todo[1..], ready + [todo[0].id]);
    }
  }

  lemma MarkKnows(db: Db, wk: Worker, input: Input)
    requires wk.phase.Mark? && Knows(db, wk.phase)
    ensures var (db', p) := ClaimedStep(db, wk, input); ClaimOf(p).Some? ==> Knows(db', p)
  {
    var Mark(c, open) := wk.phase;
    var (db', p) := ClaimedStep(db, wk, input);
    if p != Idle {
      forall r | IsRowOf(db', r, c.jobId)
        ensures r in open || db'.rows[r].status.Terminal()
      {
        assert IsRowOf(db, r, c.jobId);
      }
    }
  }

  lemma FailRestKnows(db: Db, wk: Worker, input: Input)
    requires wk.phase.FailRest?
    ensures var (db', p) := ClaimedStep(db, wk, input); ClaimOf(p).Some? ==> Knows(db', p)
  {
  }

  lemma ClaimedKnows(db: Db, wk: Worker, input: Input)
    requires ClaimOf(wk.phase).Some? && !wk.phase.WriteFinish? && Knows(db, wk.phase)
    ensures var (db', p) := ClaimedStep(db, wk, input); ClaimOf(p).Some? ==> Knows(db', p)
  {
    match wk.phase
    case ReadPending(c) =>
      if !input.fault && PendingRows(db, c.jobId, input.rows) {
        ReadKnows(db, c, input.rows);
        ResolveNextKnows(db, c, input.rows, []);
      }
    case Resolve(_, _, _) => ResolveKnows(db, wk, input);
    case Reject(_, _, _, _) => RejectKnows(db, wk, input);
    case FailRest(_, _) => FailRestKnows(db, wk, input);
    case Mark(_, _) => MarkKnows(db, wk, input);
    case Upload(_, _) => UploadKnows(db, wk, input);
    case _ =>
  }

  // ---- the invariant holds in every run

  /** The steps of a claimed job neither hand out nor take away claims. */
  lemma ClaimedStepKeepsClaim(db: Db, wk: Worker, input: Input)
    requires ClaimOf(wk.phase).Some? && !wk.phase.WriteFinish?
    ensures var (db', p) := ClaimedStep(db, wk, input);
      && db'.jobs.Keys == db.jobs.Keys
      && (forall j :: j in db.jobs ==>
        db'.jobs[j].status == db.jobs[j].status && db'.jobs[j].leaseToken == db.jobs[j].leaseToken)
      && (ClaimOf(p).Some? ==> ClaimOf(p) == ClaimOf(wk.phase))
  {
  }

  lemma MoverKept(s: Sys, wk: Worker, input: Input, s': Sys)
    requires Inv(s) && PhaseInv(s, wk.phase)
    requires s'.db == WorkerStep(s.db, wk, input).0 && s'.usedJobs == s.usedJobs
    ensures PhaseInv(s', WorkerStep(s.db, wk, input).1.phase)
  {
    var p := WorkerStep(s.db, wk, input).1.phase;
    if ClaimOf(wk.phase).Some? && !wk.phase.WriteFinish? {
      ClaimedStepKeepsClaim(s.db, wk, input);
      if ClaimOf(p).Some? && Current(s'.db, ClaimOf(p).value) {
        ClaimedKnows(s.db, wk, input);
      }
    } else if ClaimOf(p).Some? {
      assert wk.phase.TryNext? && p.Export?;
      assert JobInv(s, p.claim.jobId);
    }
  }

  /** A worker that takes a step ends up apart from every other worker: a claim it keeps was apart
      before, and a token it is handed is larger than every token held for the job. */
  lemma MoverApart(s: Sys, wk: Worker, input: Input, q: Phase)
    requires Inv(s) && PhaseInv(s, q) && Apart(wk.phase, q)
    ensures Apart(WorkerStep(s.db, wk, input).1.phase, q)
  {
    var p := WorkerStep(s.db, wk, input).1.phase;
    if ClaimOf(wk.phase).Some? && !wk.phase.WriteFinish? {
      ClaimedStepKeepsClaim(s.db, wk, input);
    } else if ClaimOf(p).Some? {
      assert wk.phase.TryNext? && p.Export?;
    }
  }

  lemma WorkKeepsInv(s: Sys, w: WorkerId, input: Input)
    requires Inv(s) && w in s.workers
    ensures Inv(Do(s, Work(w, input)))
    ensures Shape(s, Do(s, Work(w, input)), ClaimOf(s.workers[w].phase))
  {
    var wk := s.workers[w];
    var (db', wk') := WorkerStep(s.db, wk, input);
    var s' := Do(s, Work(w, input));
    WorkerShape(s, wk, input, db');
    ShapeOfDb(s, db', ClaimOf(wk.phase), s');
    InvFromShape(s, s', ClaimOf(wk.phase));
    forall v | v in s'.workers
      ensures PhaseInv(s', s'.workers[v].phase)
    {
      if v == w {
        MoverKept(s, wk, input, s');
      } else {
        assert Apart(wk.phase, s.workers[v].phase);
        PhaseInvKept(s, s', ClaimOf(wk.phase), s.workers[v].phase);
      }
    }
    forall v | v in s'.workers && v != w
      ensures Apart(wk'.phase, s'.workers[v].phase)
    {
      MoverApart(s, wk, input, s.workers[v].phase);
    }
  }

  lemma ShapeOfDb(s: Sys, db': Db, writer: Option<Claim>, s': Sys)
    requires Shape(s, s.(db := db'), writer)
    requires s'.db == db' && s'.usedJobs == s.usedJobs && s'.usedRows == s.usedRows
    ensures Shape(s, s', writer)
  {
    forall j | j in s'.db.jobs
      ensures Framed(s, s', writer, j)
    {
      assert Framed(s, s.(db := db'), writer, j);
    }
  }

  lemma InvFromShape(s: Sys, s': Sys, writer: Option<Claim>)
    requires Inv(s) && Shape(s, s', writer)
    ensures forall j :: j in s'.db.jobs ==> JobInv(s', j)
    ensures forall r :: r in s'.db.rows ==> RowInv(s', r)
  {
    forall j | j in s'.db.jobs
      ensures JobInv(s', j)
    {
      JobInvKept(s, s', writer, j);
    }
    forall r | r in s'.db.rows
      ensures RowInv(s', r)
    {
      if r in s.db.rows { assert RowInv(s, r); }
    }
  }

  /** The other writers. */
  lemma OutsiderShape(s: Sys, a: Action)
    requires Inv(s) && !a.Work?
    ensures Shape(s, Do(s, a), None)
  {
    match a
    case Enqueue(_, _, _, _) =>
      if Insertable(s, a) { InsertShape(s, a); } else { JobWriteShape(s, s.db, None); }
    case DropTarget(t) => DetachShape(s, {t});
    case DropUser(u) => UserShape(s, u);
    case PutTarget(t, config) => JobWriteShape(s, Do(s, a).db, None);
    case _ =>
      JobWriteShape(s, s.db, None);
      ShapeOfDb(s, s.db, None, Do(s, a));
  }

  lemma UserShape(s: Sys, u: UserId)
    requires Inv(s)
    ensures Shape(s, s.(db := WithoutUser(s.db, u)), None)
  {
    var db' := WithoutUser(s.db, u);
    forall j | j in db'.jobs
      ensures Framed(s, s.(db := db'), None, j)
    {
      UserRows(s.db, u, j);
    }
    forall r | r in db'.rows
      ensures r in s.db.rows && db'.rows[r].jobId == s.db.rows[r].jobId && db'.rows[r].jobId in db'.jobs
    {
      assert RowInv(s, r);
    }
  }

  lemma UserRows(db: Db, u: UserId, j: JobId)
    requires j in WithoutUser(db, u).jobs
    ensures j in db.jobs && WithoutUser(db, u).jobs[j] == db.jobs[j] && SameRows(db, WithoutUser(db, u), j)
  {
  }

  lemma OutsiderKeepsInv(s: Sys, a: Action)
    requires Inv(s) && !a.Work?
    ensures Inv(Do(s, a)) && Shape(s, Do(s, a), None)
  {
    var s' := Do(s, a);
    OutsiderShape(s, a);
    InvFromShape(s, s', None);
    forall v | v in s'.workers
      ensures PhaseInv(s', s'.workers[v].phase)
    {
      if v in s.workers && s'.workers[v] == s.workers[v] {
        PhaseInvKept(s, s', None, s.workers[v].phase);
      }
    }
    forall v, w | v in s'.workers && w in s'.workers && v != w
      ensures Apart(s'.workers[v].phase, s'.workers[w].phase)
    {
      if v in s.workers && w in s.workers {
        assert Apart(s.workers[v].phase, s.workers[w].phase);
      }
    }
  }

  lemma StepKeepsInv(s: Sys, a: Action)
    requires Inv(s)
    ensures Inv(Do(s, a))
  {
    if a.Work? {
      if a.worker in s.workers { WorkKeepsInv(s, a.worker, a.input); }
    } else {
      OutsiderKeepsInv(s, a);
    }
  }

  /** The invariant holds in every reachable state. */
  lemma {:induction false} RunKeepsInv(s: Sys, acts: seq<Action>)
    requires Inv(s)
    ensures Inv(Run(s, acts))
    decreases |acts|
  {
    if acts != [] {
      StepKeepsInv(s, acts[0]);
      RunKeepsInv(Do(s, acts[0]), acts[1..]);
    }
  }
}
