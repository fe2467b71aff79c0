/** What single statements on the backup tables do, told from the rows before and after them: claiming,
    the guard of a lease, the last update of a job, and deletions. */
module BackupStatements {
  import opened Outcomes
  import opened BackupModel
  import opened BackupProtocol
  import opened BackupSafety

  // ---- leases

  /** The job runs for this user, owner and token, and its lease has not ended. */
  ghost predicate Live(db: Db, c: Claim, now: Time) {
    HeldBy(db, c) && exists end :: db.jobs[c.jobId].leaseUntil == Some(end) && end > now
  }

  ghost predicate HeldBy(db: Db, c: Claim) {
    && c.jobId in db.jobs
    && db.jobs[c.jobId].status == JobRunning
    && db.jobs[c.jobId].userId == c.userId
    && db.jobs[c.jobId].leaseOwner == Some(c.owner)
    && db.jobs[c.jobId].leaseToken == c.token
  }

  lemma GuardsAreLive(db: Db, c: Claim, now: Time)
    ensures Active(db, c, now) <==> Live(db, c, now)
    ensures Owned(db, c) <==> HeldBy(db, c)
  {
  }

  /** A worker writes to the tables under its claim only while the lease lasts. The one exception is the
      last update of a job, which asks for the claim but not for the time. */
  lemma WritesNeedLease(db: Db, wk: Worker, input: Input)
    requires ClaimOf(wk.phase).Some? && WorkerStep(db, wk, input).0 != db
    ensures if wk.phase.WriteFinish? then HeldBy(db, wk.phase.claim) else Live(db, wk.phase.claim, input.now)
  {
    GuardsAreLive(db, wk.phase.claim, input.now);
  }

  /** Requeueing takes the lease from exactly the running jobs whose lease has ended. */
  lemma RequeueExactly(db: Db, now: Time, j: JobId)
    ensures var db' := RequeueExpired(db, now);
      && db'.rows == db.rows && db'.targets == db.targets
      && (j in db'.jobs <==> j in db.jobs)
    ensures j in db.jobs && Lapsed(db.jobs[j], now) ==> GivenUp(db.jobs[j], RequeueExpired(db, now).jobs[j])
    ensures j in db.jobs && !Lapsed(db.jobs[j], now) ==> RequeueExpired(db, now).jobs[j] == db.jobs[j]
  {
  }

  ghost predicate Lapsed(job: Job, now: Time) {
    job.status == JobRunning && exists end :: job.leaseUntil == Some(end) && end <= now
  }

  /** The job waits again, without an owner, and with everything else as it was. */
  ghost predicate GivenUp(job: Job, job': Job) {
    && job'.status == JobQueued && job'.leaseOwner == None && job'.leaseUntil == None
    && job'.userId == job.userId && job'.leaseToken == job.leaseToken
    && job'.lastError == job.lastError && job'.createdAt == job.createdAt
  }

  // ---- claiming

  /** The candidates are queued jobs, each once, the oldest first. */
  lemma OldestMeans(db: Db, cands: seq<Candidate>, i: nat, k: nat)
    requires OldestQueued(db, cands) && i < k < |cands|
    ensures cands[i].jobId in db.jobs && db.jobs[cands[i].jobId].status == JobQueued
    ensures cands[i].token == db.jobs[cands[i].jobId].leaseToken && cands[i].userId == db.jobs[cands[i].jobId].userId
    ensures cands[k].jobId in db.jobs && cands[i].jobId != cands[k].jobId
    ensures db.jobs[cands[i].jobId].createdAt <= db.jobs[cands[k].jobId].createdAt
  {
  }

  /** There are at most sixteen, and a queued job is left out only when there are sixteen none of which is
      younger. */
  lemma OldestComplete(db: Db, cands: seq<Candidate>, i: nat, j: JobId)
    requires OldestQueued(db, cands) && i < |cands|
    requires j in db.jobs && db.jobs[j].status == JobQueued
    requires forall n :: 0 <= n < |cands| ==> cands[n].jobId != j
    ensures |cands| == 16 && cands[i].jobId in db.jobs && db.jobs[cands[i].jobId].createdAt <= db.jobs[j].createdAt
  {
    assert j !in JobIds(cands);
  }

  lemma NoneOnlyIfNoneWaits(db: Db, j: JobId)
    requires OldestQueued(db, []) && j in db.jobs
    ensures db.jobs[j].status != JobQueued
  {
    assert j !in JobIds([]);
  }

  /** A candidate that still waits under the token seen is claimed: it runs for this worker under the next
      token, with a lease of thirty seconds. */
  lemma WaitingIsClaimed(db: Db, wk: Worker, input: Input)
    requires wk.phase.TryNext? && wk.phase.cands != []
    requires var cand := wk.phase.cands[0];
      && cand.jobId in db.jobs && db.jobs[cand.jobId].status == JobQueued
      && db.jobs[cand.jobId].leaseToken == cand.token && 0 <= cand.token < I64_MAX
    ensures var cand := wk.phase.cands[0]; var (db', wk') := WorkerStep(db, wk, input);
      && wk'.phase == Export(Claim(cand.jobId, cand.userId, wk.owner, cand.token + 1))
      && db' == db.(jobs := db.jobs[cand.jobId := db.jobs[cand.jobId].(status := JobRunning, leaseOwner := Some(wk.owner),
           leaseToken := cand.token + 1, leaseUntil := Some(wk.phase.at + 30 * 1_000_000_000))])
  {
  }

  /** Any other candidate is passed over, and nothing is written. */
  lemma OthersArePassed(db: Db, wk: Worker, input: Input)
    requires wk.phase.TryNext? && wk.phase.cands != []
    requires var cand := wk.phase.cands[0];
      !(cand.jobId in db.jobs && db.jobs[cand.jobId].status == JobQueued && db.jobs[cand.jobId].leaseToken == cand.token)
      || cand.token == I64_MAX
    ensures WorkerStep(db, wk, input) == (db, wk.(phase := TryNext(wk.phase.at, wk.phase.cands[1..])))
  {
  }

  /** The rows selected for execution are those of the job that have not succeeded, each once, in the
      order of the names of their destinations. */
  lemma PendingMeans(db: Db, j: JobId, todo: seq<PendingRow>, i: nat, k: nat)
    requires PendingRows(db, j, todo) && i < k < |todo|
    ensures todo[i].id in db.rows && todo[k].id in db.rows && todo[i].id != todo[k].id
    ensures db.rows[todo[i].id].targetName <= db.rows[todo[k].id].targetName
    ensures db.rows[todo[i].id].jobId == j && db.rows[todo[i].id].status != RowSucceeded
    ensures todo[i].targetId == db.rows[todo[i].id].targetId && todo[i].targetKind == db.rows[todo[i].id].targetKind
    ensures todo[i].targetRevision == db.rows[todo[i].id].targetRevision
  {
  }

  lemma PendingComplete(db: Db, j: JobId, todo: seq<PendingRow>, r: RowId)
    requires PendingRows(db, j, todo) && IsRowOf(db, r, j)
    ensures db.rows[r].status == RowSucceeded <==> forall i :: 0 <= i < |todo| ==> todo[i].id != r
  {
    if db.rows[r].status != RowSucceeded {
      assert r in Ids(todo);
    }
  }

  /** Marking a row running under a live claim changes its status and clears its error. */
  lemma MarkingMeans(db: Db, wk: Worker, input: Input)
    requires wk.phase.Mark? && wk.phase.open != []
    requires Live(db, wk.phase.claim, input.now) && IsRowOf(db, wk.phase.open[0], wk.phase.claim.jobId)
    ensures var r := wk.phase.open[0]; var (db', wk') := WorkerStep(db, wk, input);
      && wk' == wk.(phase := Upload(wk.phase.claim, wk.phase.open))
      && db' == db.(rows := db.rows[r := db.rows[r].(status := RowRunning, errorCode := None)])
  {
    GuardsAreLive(db, wk.phase.claim, input.now);
  }

  // ---- the last update of a job

  /** The final update stores status and error and gives the lease back; token, user and creation time
      stay. */
  lemma FinishStores(db: Db, wk: Worker, input: Input)
    requires wk.phase.WriteFinish? && HeldBy(db, wk.phase.claim)
    ensures var j := wk.phase.claim.jobId; var db' := WorkerStep(db, wk, input).0;
      && db'.rows == db.rows && db'.targets == db.targets
      && db'.jobs == db.jobs[j := Job(db.jobs[j].userId, wk.phase.status, None, wk.phase.claim.token, None,
           wk.phase.error, db.jobs[j].createdAt)]
  {
    GuardsAreLive(db, wk.phase.claim, input.now);
  }

  // ---- deletions

  ghost function Cleared(row: Row, gone: bool): Row {
    if gone then row.(targetId := None) else row
  }

  /** Deleting a destination clears exactly the references to it. */
  lemma DropTargetExactly(s: Sys, t: TargetId, r: RowId)
    ensures var s' := Do(s, DropTarget(t));
      && s'.db.jobs == s.db.jobs && t !in s'.db.targets
      && (forall u :: u != t ==> (u in s'.db.targets <==> u in s.db.targets))
      && (r in s'.db.rows <==> r in s.db.rows)
    ensures r in s.db.rows ==>
      Do(s, DropTarget(t)).db.rows[r] == Cleared(s.db.rows[r], s.db.rows[r].targetId == Some(t))
  {
  }

  /** Deleting a user deletes exactly the user's jobs, with their rows, and the user's destinations, with
      the references to them. */
  lemma DropUserExactly(s: Sys, u: UserId, j: JobId, t: TargetId, r: RowId)
    ensures var s' := Do(s, DropUser(u));
      && (j in s'.db.jobs <==> j in s.db.jobs && s.db.jobs[j].userId != u)
      && (j in s'.db.jobs ==> s'.db.jobs[j] == s.db.jobs[j])
      && (t in s'.db.targets <==> t in s.db.targets && s.db.targets[t].userId != u)
      && (t in s'.db.targets ==> s'.db.targets[t] == s.db.targets[t])
    ensures r in s.db.rows && s.db.rows[r].jobId in s.db.jobs ==>
      (r in Do(s, DropUser(u)).db.rows <==> s.db.jobs[s.db.rows[r].jobId].userId != u)
    ensures r in Do(s, DropUser(u)).db.rows ==>
      r in s.db.rows && Do(s, DropUser(u)).db.rows[r] == Cleared(s.db.rows[r], TargetOf(s.db, s.db.rows[r], u))
  {
  }

  ghost predicate TargetOf(db: Db, row: Row, u: UserId) {
    row.targetId.Some? && row.targetId.value in db.targets && db.targets[row.targetId.value].userId == u
  }
}
