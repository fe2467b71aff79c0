/** One pass of `BackupRuntime::run_pass`, written as the program it is, while others use the same
    database: after each statement an arbitrary sequence of foreign actions takes place. The pass is
    shown to be a run of the protocol, so that every theorem about runs holds of the program. */
module BackupRuntime {
  import opened Outcomes
  import opened BackupModel
  import opened BackupProtocol
  import opened BackupSafety
  import opened BackupTheorems

  predicate Foreign(me: WorkerId, a: Action) {
    match a
    case Work(w, _) => w != me
    case Crash(w) => w != me
    case _ => true
  }

  /** The candidate query of `claim_next`. */
  method QueryOldestQueued(db: Db) returns (cands: seq<Candidate>)
    ensures OldestQueued(db, cands)
  {
    cands := [];
    var rest := set id | id in db.jobs && db.jobs[id].status.JobQueued?;
    while rest != {} && |cands| < MAX_CANDIDATES
      invariant |cands| <= MAX_CANDIDATES && Gathered(db, cands, rest)
      decreases |rest|
    {
      var oldest := Oldest(db, rest);
      GatheredMore(db, cands, rest, oldest);
      cands := cands + [CandidateOf(db, oldest)];
      rest := rest - {oldest};
    }
  }

  /** The queued jobs are split into candidates, oldest first, and the rest, none of them older. */
  ghost predicate Gathered(db: Db, cands: seq<Candidate>, rest: set<JobId>) {
    && (forall id :: id in rest ==> id in db.jobs && db.jobs[id].status.JobQueued? && id !in JobIds(cands))
    && (forall id :: id in db.jobs && db.jobs[id].status.JobQueued? ==> id in rest || id in JobIds(cands))
    && (forall i :: 0 <= i < |cands| ==>
      cands[i].jobId in db.jobs && db.jobs[cands[i].jobId].status.JobQueued? &&
      cands[i] == CandidateOf(db, cands[i].jobId))
    && (forall i, id :: 0 <= i < |cands| && id in rest ==>
      db.jobs[cands[i].jobId].createdAt <= db.jobs[id].createdAt)
    && (forall i, k :: 0 <= i < k < |cands| ==>
      cands[i].jobId != cands[k].jobId && db.jobs[cands[i].jobId].createdAt <= db.jobs[cands[k].jobId].createdAt)
  }

  lemma GatheredMore(db: Db, cands: seq<Candidate>, rest: set<JobId>, oldest: JobId)
    requires Gathered(db, cands, rest) && oldest in rest
    requires forall id :: id in rest ==> id in db.jobs && db.jobs[oldest].createdAt <= db.jobs[id].createdAt
    ensures Gathered(db, cands + [CandidateOf(db, oldest)], rest - {oldest})
  {
    var more := cands + [CandidateOf(db, oldest)];
    assert JobIds(more) == JobIds(cands) + [oldest];
    assert forall i :: 0 <= i < |cands| ==> JobIds(cands)[i] == cands[i].jobId;
  }

  method Oldest(db: Db, ids: set<JobId>) returns (oldest: JobId)
    requires ids != {} && ids <= db.jobs.Keys
    ensures oldest in ids && forall id :: id in ids ==> db.jobs[oldest].createdAt <= db.jobs[id].createdAt
  {
    oldest :| oldest in ids;
    var rest := ids - {oldest};
    while rest != {}
      invariant rest <= ids && oldest in ids
      invariant forall id :: id in ids - rest ==> db.jobs[oldest].createdAt <= db.jobs[id].createdAt
      decreases |rest|
    {
      var id :| id in rest;
      if db.jobs[id].createdAt < db.jobs[oldest].createdAt { oldest := id; }
      rest := rest - {id};
    }
  }

  /** The row query of `pending_execution_targets`. */
  method QueryPendingRows(db: Db, j: JobId) returns (todo: seq<PendingRow>)
    ensures PendingRows(db, j, todo)
  {
    todo := [];
    var rest := set r | r in db.rows && db.rows[r].jobId == j && !db.rows[r].status.RowSucceeded?;
    while rest != {}
      invariant forall r :: r in rest ==> r in db.rows && db.rows[r].jobId == j && !db.rows[r].status.RowSucceeded? && r !in Ids(todo)
      invariant forall r :: r in db.rows && db.rows[r].jobId == j && !db.rows[r].status.RowSucceeded? ==> r in rest || r in Ids(todo)
      invariant forall i :: 0 <= i < |todo| ==>
        todo[i].id in db.rows && db.rows[todo[i].id].jobId == j && !db.rows[todo[i].id].status.RowSucceeded? &&
        todo[i] == Selected(todo[i].id, db.rows[todo[i].id])
      invariant forall i, r :: 0 <= i < |todo| && r in rest ==>
        db.rows[todo[i].id].targetName <= db.rows[r].targetName
      invariant forall i, k :: 0 <= i < k < |todo| ==>
        todo[i].id != todo[k].id && db.rows[todo[i].id].targetName <= db.rows[todo[k].id].targetName
      decreases |rest|
    {
      var first := FirstByName(db, rest);
      ghost var before := todo;
      todo := todo + [Selected(first, db.rows[first])];
      rest := rest - {first};
      assert Ids(todo) == Ids(before) + [first];
    }
  }

  method FirstByName(db: Db, ids: set<RowId>) returns (first: RowId)
    requires ids != {} && ids <= db.rows.Keys
    ensures first in ids && forall r :: r in ids ==> db.rows[first].targetName <= db.rows[r].targetName
  {
    first :| first in ids;
    var rest := ids - {first};
    while rest != {}
      invariant rest <= ids && first in ids
      invariant forall r :: r in ids - rest ==> db.rows[first].targetName <= db.rows[r].targetName
      decreases |rest|
    {
      var r :| r in rest;
      if db.rows[r].targetName < db.rows[first].targetName { first := r; }
      rest := rest - {r};
    }
  }

  // ---- passes that nothing disturbs

  /** The claim is held, and its lease lasts up to `end`. */
  ghost predicate HeldUntil(db: Db, c: Claim, end: Time) {
    Owned(db, c) && db.jobs[c.jobId].leaseUntil.Some? && db.jobs[c.jobId].leaseUntil.value >= end
  }

  ghost predicate AreRowsOf(db: Db, c: Claim, rows: seq<RowId>) {
    forall i :: 0 <= i < |rows| ==> IsRowOf(db, rows[i], c.jobId)
  }

  /** Both databases have the same rows, whatever their status. */
  ghost predicate SameRowIds(db: Db, db': Db) {
    forall r, j :: IsRowOf(db, r, j) <==> IsRowOf(db', r, j)
  }

  ghost predicate OfTheirUsers(db: Db, cands: seq<Candidate>) {
    forall i :: 0 <= i < |cands| ==>
      cands[i].jobId in db.jobs && db.jobs[cands[i].jobId].userId == cands[i].userId
  }

  class BackupRuntime {
    const me: WorkerId
    const owner: Owner
    /** What the others do after the n-th statement of this worker. */
    const world: nat -> seq<Action>
    /** What the n-th statement of this worker reads from outside the database. */
    const inputs: nat -> Input
    var sys: Sys
    var tick: nat
    ghost const origin: Sys
    ghost var trace: seq<Action>

    constructor (me: WorkerId, owner: Owner, world: nat -> seq<Action>, inputs: nat -> Input, sys: Sys)
      requires me in sys.workers && sys.workers[me].owner == owner && sys.workers[me].phase == Idle
      requires forall n, i :: 0 <= i < |world(n)| ==> Foreign(me, world(n)[i])
      ensures Valid() && Phase() == Idle && this.sys == sys && this.origin == sys && trace == []
    {
      this.me, this.owner, this.world, this.inputs := me, owner, world, inputs;
      this.sys, this.tick, this.origin, this.trace := sys, 0, sys, [];
    }

    /** The state is the one that the recorded actions lead to. */
    ghost predicate Valid()
      reads this
    {
      && me in sys.workers
      && sys.workers[me].owner == owner
      && sys == Run(origin, trace)
      && (forall n, i :: 0 <= i < |world(n)| ==> Foreign(me, world(n)[i]))
    }

    function Phase(): Phase
      reads this
      requires me in sys.workers
    {
      sys.workers[me].phase
    }

    function Left(): nat
      reads this
      requires me in sys.workers
    {
      sys.workers[me].left
    }

    function Passes(): nat
      reads this
      requires me in sys.workers
    {
      sys.workers[me].passes
    }

    /** Nobody else acts, no statement fails, every clock reading lies within one lease of `t`, and byte
        counts can be stored. Exports and uploads may fail, and so may decryption. */
    ghost predicate Calm(t: Time) {
      forall n :: world(n) == [] && !inputs(n).fault && t <= inputs(n).now < t + LEASE && Storable(inputs(n).upload)
    }

    ghost predicate Steady(c: Claim, t: Time)
      reads this
    {
      Calm(t) && HeldUntil(sys.db, c, t + LEASE)
    }

    function Reading(): Input
      reads this
    {
      inputs(tick)
    }

    /** Executes one statement with its effect on the database, then lets the others run. */
    method Commit(input: Input, db: Db, next: Worker)
      requires Valid() && WorkerStep(sys.db, sys.workers[me], input) == (db, next) && next.owner == owner
      modifies this`sys, this`tick, this`trace
      ensures Valid() && sys.workers[me] == next
      ensures trace == old(trace) + [Work(me, input)] + world(old(tick))
      ensures world(old(tick)) == [] ==> sys.db == db
    {
      sys := sys.(db := db, workers := sys.workers[me := next]);
      Interfere([Work(me, input)]);
    }

    /** A failing statement, or the end of the process, ends the pass. */
    method Abort()
      requires Valid()
      modifies this`sys, this`tick, this`trace
      ensures Valid() && Phase() == Idle && Left() == old(Left()) && Passes() == old(Passes())
      ensures trace == old(trace) + [Crash(me)] + world(old(tick))
    {
      sys := sys.(workers := sys.workers[me := sys.workers[me].(phase := Idle)]);
      Interfere([Crash(me)]);
    }

    /** Whether the next statement reports a failure, which ends the pass. */
    method Failing() returns (failed: bool)
      requires Valid()
      modifies this`sys, this`tick, this`trace
      ensures Valid() && old(trace) <= trace && Left() == old(Left()) && Passes() == old(Passes())
      ensures if failed then Phase() == Idle else sys == old(sys) && tick == old(tick) && trace == old(trace)
      ensures failed == old(Reading()).fault
    {
      failed := Reading().fault;
      if failed {
        Abort();
      }
    }

    method Interfere(ghost own: seq<Action>)
      requires me in sys.workers && sys.workers[me].owner == owner
      requires sys == Run(Run(origin, trace), own)
      requires forall n, i :: 0 <= i < |world(n)| ==> Foreign(me, world(n)[i])
      modifies this`sys, this`tick, this`trace
      ensures Valid() && sys.workers[me] == old(sys.workers[me])
      ensures trace == old(trace) + own + world(old(tick))
      ensures world(old(tick)) == [] ==> sys == old(sys)
    {
      ForeignActionsKeepMe(sys, world(tick), me);
      RunAppend(origin, trace, own);
      RunAppend(origin, trace + own, world(tick));
      sys := Run(sys, world(tick));
      trace := trace + own + world(tick);
      tick := tick + 1;
    }

    method ClaimNext() returns (ok: bool, claim: Option<Claim>)
      requires Valid() && Phase() == Requeue
      modifies this`sys, this`tick, this`trace
      ensures Valid() && old(trace) <= trace && Left() == old(Left()) && Passes() == old(Passes())
      ensures Phase() == if !ok then Idle else match claim case None => CleanUp case Some(c) => Export(c)
      ensures forall t :: Calm(t) ==> ok && (claim.Some? ==> Steady(claim.value, t))
    {
      var now, cands;
      ok, now, cands := SelectCandidates();
      if !ok { return false, None; }
      ok, claim := TryCandidates(now, cands);
    }

    /** Requeueing, and the query for candidates. */
    method SelectCandidates() returns (ok: bool, now: Time, cands: seq<Candidate>)
      requires Valid() && Phase() == Requeue
      modifies this`sys, this`tick, this`trace
      ensures Valid() && old(trace) <= trace
      ensures sys.workers[me] == old(sys.workers[me]).(phase := if ok then TryNext(now, cands) else Idle)
      ensures forall t :: Calm(t) ==> ok && t <= now && OfTheirUsers(sys.db, cands)
    {
      var wk := sys.workers[me];
      now, cands := Reading().now, [];
      var broken := Failing();
      if broken { return false, now, cands; }
      Commit(Reading(), RequeueExpired(sys.db, now), wk.(phase := Select(now)));
      broken := Failing();
      if broken { return false, now, cands; }
      cands := QueryOldestQueued(sys.db);
      Commit(Reading().(cands := cands), sys.db, wk.(phase := TryNext(now, cands)));
      ok := true;
    }

    /** The loop over the candidates. */
    method TryCandidates(now: Time, found: seq<Candidate>) returns (ok: bool, claim: Option<Claim>)
      requires Valid() && Phase() == TryNext(now, found)
      modifies this`sys, this`tick, this`trace
      ensures Valid() && old(trace) <= trace && Left() == old(Left()) && Passes() == old(Passes())
      ensures Phase() == if !ok then Idle else match claim case None => CleanUp case Some(c) => Export(c)
      ensures forall t :: Calm(t) && t <= now && old(OfTheirUsers(sys.db, found)) ==>
        ok && (claim.Some? ==> Steady(claim.value, t))
    {
      var wk := sys.workers[me];
      var cands := found;
      while cands != []
        invariant Valid() && old(trace) <= trace && sys.workers[me] == wk.(phase := TryNext(now, cands))
        invariant forall t :: Calm(t) && old(OfTheirUsers(sys.db, found)) ==> OfTheirUsers(sys.db, cands)
        decreases |cands|
      {
        var broken := Failing();
        if broken { return false, None; }
        var cand := cands[0];
        if !Claimable(cand) || !Unchanged(sys.db, cand) {
          Commit(Reading(), sys.db, wk.(phase := TryNext(now, cands[1..])));
        } else {
          var c := Claim(cand.jobId, cand.userId, owner, cand.token + 1);
          Commit(Reading(), TryClaim(sys.db, cand, owner, now), wk.(phase := Export(c)));
          return true, Some(c);
        }
        cands := cands[1..];
      }
      Commit(Reading(), sys.db, wk.(phase := CleanUp));
      return true, None;
    }

    method PendingExecutionTargets(c: Claim) returns (result: Result<seq<RowId>, Code>)
      requires Valid() && Phase() == CheckPending(c)
      modifies this`sys, this`tick, this`trace
      ensures Valid() && old(trace) <= trace && Left() == old(Left()) && Passes() == old(Passes())
      ensures Phase() == match result case Ok(ready) => Execute(c, ready) case Err(code) => FailRest(c, code)
      ensures forall t :: old(Steady(c, t)) ==> Steady(c, t) && (result.Ok? ==> AreRowsOf(sys.db, c, result.value))
    {
      var wk := sys.workers[me];
      var input := Reading();
      if input.fault || !Active(sys.db, c, input.now) {
        var code := if input.fault then Database else LeaseLost;
        Commit(input, sys.db, wk.(phase := FailRest(c, code)));
        return Err(code);
      }
      Commit(input, sys.db, wk.(phase := ReadPending(c)));
      if Reading().fault {
        Commit(Reading(), sys.db, wk.(phase := FailRest(c, Database)));
        return Err(Database);
      }
      var todo := QueryPendingRows(sys.db, c.jobId);
      Commit(Reading().(rows := todo), sys.db, wk.(phase := ResolveNext(c, todo, [])));
      result := ResolveRows(c, todo);
    }

    method ResolveRows(c: Claim, rows: seq<PendingRow>) returns (result: Result<seq<RowId>, Code>)
      requires Valid() && Phase() == ResolveNext(c, rows, [])
      modifies this`sys, this`tick, this`trace
      ensures Valid() && old(trace) <= trace && Left() == old(Left()) && Passes() == old(Passes())
      ensures Phase() == match result case Ok(ready) => Execute(c, ready) case Err(code) => FailRest(c, code)
      ensures forall t :: old(Steady(c, t) && AreRowsOf(sys.db, c, Ids(rows))) ==>
        Steady(c, t) && (result.Ok? ==> AreRowsOf(sys.db, c, result.value))
    {
      var wk := sys.workers[me];
      var todo, ready := rows, [];
      while todo != []
        invariant Valid() && old(trace) <= trace
        invariant forall t :: old(Steady(c, t) && AreRowsOf(sys.db, c, Ids(rows))) ==>
          Steady(c, t) && AreRowsOf(sys.db, c, Ids(todo)) && AreRowsOf(sys.db, c, ready)
        invariant sys.workers[me] == wk.(phase := ResolveNext(c, todo, ready))
          decreases |todo|
      {
        result := ResolveRow(c, todo, ready);
        if result.Err? { return; }
        todo, ready := todo[1..], result.value;
      }
      return Ok(ready);
    }

    /** One selected row: it is kept for execution, failed, or the end of the job. */
    method ResolveRow(c: Claim, todo: seq<PendingRow>, ready: seq<RowId>) returns (result: Result<seq<RowId>, Code>)
      requires Valid() && todo != [] && Phase() == Resolve(c, todo, ready)
      modifies this`sys, this`tick, this`trace
      ensures Valid() && old(trace) <= trace
      ensures sys.workers[me] == old(sys.workers[me]).(
        phase := match result case Ok(kept) => ResolveNext(c, todo[1..], kept) case Err(code) => FailRest(c, code))
      ensures result.Ok? ==> result.value == ready || result.value == ready + [todo[0].id]
      ensures forall t :: old(Steady(c, t)) ==> Steady(c, t) && SameRowIds(old(sys.db), sys.db)
    {
      var wk := sys.workers[me];
      var input := Reading();
      if input.fault {
        Commit(input, sys.db, wk.(phase := FailRest(c, Database)));
        return Err(Database);
      }
      if !Resolvable(sys.db, c, todo[0]) {
        Commit(input, sys.db, wk.(phase := Reject(c, todo, ready, TargetChanged)));
        result := RejectRow(c, todo, ready, TargetChanged);
      } else if !sys.db.targets[todo[0].targetId.value].readable {
        Commit(input, sys.db, wk.(phase := FailRest(c, CorruptData)));
        return Err(CorruptData);
      } else if !input.decrypted {
        Commit(input, sys.db, wk.(phase := Reject(c, todo, ready, SecretUnavailable)));
        result := RejectRow(c, todo, ready, SecretUnavailable);
      } else {
        Commit(input, sys.db, wk.(phase := ResolveNext(c, todo[1..], ready + [todo[0].id])));
        return Ok(ready + [todo[0].id]);
      }
    }

    /** `complete_target` with an error, for a row that cannot be executed. */
    method RejectRow(c: Claim, todo: seq<PendingRow>, ready: seq<RowId>, code: Code)
      returns (result: Result<seq<RowId>, Code>)
      requires Valid() && todo != [] && Phase() == Reject(c, todo, ready, code)
      modifies this`sys, this`tick, this`trace
      ensures Valid() && old(trace) <= trace
      ensures sys.workers[me] == old(sys.workers[me]).(
        phase := match result case Ok(_) => ResolveNext(c, todo[1..], ready) case Err(e) => FailRest(c, e))
      ensures result.Ok? ==> result.value == ready
      ensures forall t :: old(Steady(c, t)) ==> Steady(c, t) && SameRowIds(old(sys.db), sys.db)
    {
      var wk := sys.workers[me];
      var input := Reading();
      var written := Complete(sys.db, c, todo[0].id, Err(code), input.now);
      if input.fault {
        Commit(input, if input.applied then written else sys.db, wk.(phase := FailRest(c, Database)));
        return Err(Database);
      }
      if !RowGuard(sys.db, c, todo[0].id, input.now) {
        Commit(input, sys.db, wk.(phase := FailRest(c, LeaseLost)));
        return Err(LeaseLost);
      }
      Commit(input, written, wk.(phase := ResolveNext(c, todo[1..], ready)));
      return Ok(ready);
    }

    method FailPendingTargets(c: Claim, code: Code) returns (ok: bool)
      requires Valid() && Phase() == FailRest(c, code)
      modifies this`sys, this`tick, this`trace
      ensures Valid() && old(trace) <= trace
      ensures Phase() == if ok then CheckFinish(c) else Idle
      ensures Left() == old(Left()) && Passes() == old(Passes())
      ensures forall t :: old(Steady(c, t)) ==> ok && Steady(c, t)
    {
      var wk := sys.workers[me];
      var broken := Failing();
      if broken { return false; }
      ok := Active(sys.db, c, Reading().now);
      if ok {
        Commit(Reading(), FailPending(sys.db, c, code, Reading().now), wk.(phase := CheckFinish(c)));
      } else {
        Commit(Reading(), sys.db, wk.(phase := Idle));
      }
    }

    /** `heartbeat`. */
    method HeartbeatClaim(c: Claim, open: seq<RowId>) returns (ok: bool)
      requires Valid() && Phase() == Beat(c, open)
      modifies this`sys, this`tick, this`trace
      ensures Valid() && old(trace) <= trace
      ensures sys.workers[me] == old(sys.workers[me]).(phase := if ok then Mark(c, open) else Idle)
      ensures forall t :: old(Steady(c, t)) ==> ok && Steady(c, t) && SameRowIds(old(sys.db), sys.db)
    {
      var wk := sys.workers[me];
      var broken := Failing();
      if broken { return false; }
      ok := Active(sys.db, c, Reading().now);
      Commit(Reading(), Heartbeat(sys.db, c, Reading().now), wk.(phase := if ok then Mark(c, open) else Idle));
    }

    /** `mark_target_running`. */
    method MarkTargetRunning(c: Claim, open: seq<RowId>) returns (ok: bool)
      requires Valid() && open != [] && Phase() == Mark(c, open)
      modifies this`sys, this`tick, this`trace
      ensures Valid() && old(trace) <= trace
      ensures sys.workers[me] == old(sys.workers[me]).(phase := if ok then Upload(c, open) else Idle)
      ensures forall t :: old(Steady(c, t) && IsRowOf(sys.db, open[0], c.jobId)) ==>
        ok && Steady(c, t) && SameRowIds(old(sys.db), sys.db)
    {
      var wk := sys.workers[me];
      var broken := Failing();
      if broken { return false; }
      var now := Reading().now;
      ok := RowGuard(sys.db, c, open[0], now);
      Commit(Reading(), MarkRunning(sys.db, c, open[0], now), wk.(phase := if ok then Upload(c, open) else Idle));
    }

    /** The upload, and `complete_target` with its result. */
    method CompleteTarget(c: Claim, open: seq<RowId>) returns (ok: bool)
      requires Valid() && open != [] && Phase() == Upload(c, open)
      modifies this`sys, this`tick, this`trace
      ensures Valid() && old(trace) <= trace
      ensures sys.workers[me] == old(sys.workers[me]).(phase := if ok then Execute(c, open[1..]) else Idle)
      ensures forall t :: old(Steady(c, t) && IsRowOf(sys.db, open[0], c.jobId)) ==>
        ok && Steady(c, t) && SameRowIds(old(sys.db), sys.db)
    {
      var wk := sys.workers[me];
      var broken := Failing();
      if broken { return false; }
      var now, outcome := Reading().now, Reading().upload;
      ok := RowGuard(sys.db, c, open[0], now) && Storable(outcome);
      Commit(Reading(), Complete(sys.db, c, open[0], outcome, now),
        wk.(phase := if ok then Execute(c, open[1..]) else Idle));
    }

    /** The loop over the targets of a job. */
    method ExecuteTargets(c: Claim, targets: seq<RowId>) returns (ok: bool)
      requires Valid() && Phase() == Execute(c, targets)
      modifies this`sys, this`tick, this`trace
      ensures Valid() && old(trace) <= trace
      ensures Phase() == if ok then CheckFinish(c) else Idle
      ensures Left() == old(Left()) && Passes() == old(Passes())
      ensures forall t :: old(Steady(c, t) && AreRowsOf(sys.db, c, targets)) ==> ok && Steady(c, t)
    {
      ghost var wk := sys.workers[me];
      var open := targets;
      while open != []
        invariant Valid() && old(trace) <= trace && sys.workers[me] == wk.(phase := Execute(c, open))
        invariant forall t :: old(Steady(c, t) && AreRowsOf(sys.db, c, targets)) ==>
          Steady(c, t) && AreRowsOf(sys.db, c, open)
        decreases |open|
      {
        ok := HeartbeatClaim(c, open);
        if !ok { return; }
        ok := MarkTargetRunning(c, open);
        if !ok { return; }
        ok := CompleteTarget(c, open);
        if !ok { return; }
        open := open[1..];
      }
      return true;
    }

    /** `ensure_active_claim` at the start of `finish_job`. */
    method EnsureActiveClaim(c: Claim) returns (ok: bool)
      requires Valid() && Phase() == CheckFinish(c)
      modifies this`sys, this`tick, this`trace
      ensures Valid() && old(trace) <= trace
      ensures sys.workers[me] == old(sys.workers[me]).(phase := if ok then ReadFinish(c) else Idle)
      ensures forall t :: old(Steady(c, t)) ==> ok && Steady(c, t)
    {
      var wk := sys.workers[me];
      var broken := Failing();
      if broken { return false; }
      ok := Active(sys.db, c, Reading().now);
      Commit(Reading(), sys.db, wk.(phase := if ok then ReadFinish(c) else Idle));
    }

    /** The last update of `finish_job`. */
    method StoreVerdict(c: Claim, status: JobStatus, error: Option<Code>) returns (ok: bool)
      requires Valid() && Phase() == WriteFinish(c, status, error)
      modifies this`sys, this`tick, this`trace
      ensures Valid() && old(trace) <= trace
      ensures ok ==> Phase() == NextJob(Pred(old(Left()))) && Left() == Pred(old(Left()))
      ensures !ok ==> Phase() == Idle
      ensures Passes() == old(Passes())
      ensures forall t :: old(Steady(c, t)) ==> ok
    {
      var wk := sys.workers[me];
      var broken := Failing();
      if broken { return false; }
      ok := Owned(sys.db, c);
      if ok {
        var left := Pred(wk.left);
        Commit(Reading(), Finish(sys.db, c, status, error), wk.(left := left, phase := NextJob(left)));
      } else {
        Commit(Reading(), sys.db, wk.(phase := Idle));
      }
    }

    /** The row counts of `finish_job`, and what they come to. */
    method CountRows(c: Claim) returns (ok: bool, status: JobStatus, error: Option<Code>)
      requires Valid() && Phase() == ReadFinish(c)
      modifies this`sys, this`tick, this`trace
      ensures Valid() && old(trace) <= trace && Left() == old(Left()) && Passes() == old(Passes())
      ensures Phase() == if ok then WriteFinish(c, status, error) else Idle
      ensures forall t :: old(Steady(c, t)) ==> ok && Steady(c, t)
    {
      var total := |RowsOf(sys.db, c.jobId)|;
      var succeeded := |RowsWith(sys.db, c.jobId, RowSucceeded)|;
      var failed := |RowsWith(sys.db, c.jobId, RowFailed)|;
      status, error := CountedStatus(total, succeeded, failed), CountedError(total, succeeded, failed);
      var broken := Failing();
      if broken { return false, status, error; }
      Commit(Reading(), sys.db, sys.workers[me].(phase := WriteFinish(c, status, error)));
      ok := true;
    }

    method FinishJob(c: Claim) returns (ok: bool)
      requires Valid() && Phase() == CheckFinish(c)
      modifies this`sys, this`tick, this`trace
      ensures Valid() && old(trace) <= trace
      ensures ok ==> Phase() == NextJob(Pred(old(Left()))) && Left() == Pred(old(Left()))
      ensures !ok ==> Phase() == Idle
      ensures Passes() == old(Passes())
      ensures forall t :: old(Steady(c, t)) ==> ok
    {
      ok := EnsureActiveClaim(c);
      if !ok { return; }
      var status, error;
      ok, status, error := CountRows(c);
      if !ok { return; }
      ok := StoreVerdict(c, status, error);
    }

    /** The body of the job loop after a claim. */
    method RunJob(c: Claim) returns (ok: bool)
      requires Valid() && Phase() == Export(c)
      modifies this`sys, this`tick, this`trace
      ensures Valid() && old(trace) <= trace
      ensures ok ==> Phase() == NextJob(Pred(old(Left()))) && Left() == Pred(old(Left()))
      ensures !ok ==> Phase() == Idle
      ensures Passes() == old(Passes())
      ensures forall t :: old(Steady(c, t)) ==> ok
    {
      var prepared := PrepareTargets(c);
      match prepared {
        case Ok(targets) => ok := ExecuteTargets(c, targets);
        case Err(code) => ok := FailPendingTargets(c, code);
      }
      if ok {
        ok := FinishJob(c);
      }
    }

    /** The export and the list of targets, either of which may fail. */
    method PrepareTargets(c: Claim) returns (result: Result<seq<RowId>, Code>)
      requires Valid() && Phase() == Export(c)
      modifies this`sys, this`tick, this`trace
      ensures Valid() && old(trace) <= trace && Left() == old(Left()) && Passes() == old(Passes())
      ensures Phase() == match result case Ok(ready) => Execute(c, ready) case Err(code) => FailRest(c, code)
      ensures forall t :: old(Steady(c, t)) ==> Steady(c, t) && (result.Ok? ==> AreRowsOf(sys.db, c, result.value))
    {
      var wk := sys.workers[me];
      if !Reading().exported {
        Commit(Reading(), sys.db, wk.(phase := FailRest(c, ExportFailed)));
        return Err(ExportFailed);
      }
      Commit(Reading(), sys.db, wk.(phase := CheckPending(c)));
      result := PendingExecutionTargets(c);
    }

    /** One pass. It is a run of the protocol, with the foreign actions interleaved as they came; it
        ends with the worker idle, the whole cycle completed unless it fails, and everything kept
        that the protocol keeps. A pass that nothing disturbs does not fail. */
    method RunPass() returns (ok: bool)
      requires Valid() && Phase() == Idle
      modifies this`sys, this`tick, this`trace
      ensures Valid() && Phase() == Idle && old(trace) <= trace
      ensures Passes() == old(Passes()) + if ok then 1 else 0
      ensures Reachable(origin) ==> Inv(sys) && Later(old(sys), sys)
      ensures forall t :: Calm(t) ==> ok
    {
      ghost var earlier := trace;
      ok := RunCycle();
      if Reachable(origin) {
        PassIsLater(origin, earlier, trace);
      }
    }

    method RunCycle() returns (ok: bool)
      requires Valid() && Phase() == Idle
      modifies this`sys, this`tick, this`trace
      ensures Valid() && Phase() == Idle && old(trace) <= trace
      ensures Passes() == old(Passes()) + if ok then 1 else 0
      ensures forall t :: Calm(t) ==> ok
    {
      Commit(Reading(), sys.db, sys.workers[me].(left := MAX_JOBS_PER_PASS, phase := Requeue));
      ok := RunJobs();
      if ok {
        ok := CleanupHistory();
      }
    }

    method CleanupHistory() returns (ok: bool)
      requires Valid() && Phase() == CleanUp
      modifies this`sys, this`tick, this`trace
      ensures Valid() && Phase() == Idle && old(trace) <= trace
      ensures Passes() == old(Passes()) + if ok then 1 else 0
      ensures forall t :: Calm(t) ==> ok
    {
      var broken := Failing();
      if broken { return false; }
      var wk := sys.workers[me];
      Commit(Reading(), Cleanup(sys.db, Reading().now - HISTORY), wk.(passes := wk.passes + 1, phase := Idle));
      return true;
    }

    method RunJobs() returns (ok: bool)
      requires Valid() && Phase() == Requeue && Left() == MAX_JOBS_PER_PASS
      modifies this`sys, this`tick, this`trace
      ensures Valid() && old(trace) <= trace
      ensures Phase() == if ok then CleanUp else Idle
      ensures Passes() == old(Passes())
      ensures forall t :: Calm(t) ==> ok
    {
      for i := 0 to MAX_JOBS_PER_PASS
        invariant Valid() && old(trace) <= trace
        invariant Left() == MAX_JOBS_PER_PASS - i && Phase() == NextJob(Left()) && Passes() == old(Passes())
      {
        var claim;
        ok, claim := ClaimNext();
        if !ok || claim.None? {
          return;
        }
        ok := RunJob(claim.value);
        if !ok {
          return;
        }
      }
      return true;
    }
  }

  lemma {:induction false} ForeignActionsKeepMe(s: Sys, acts: seq<Action>, me: WorkerId)
    requires me in s.workers && forall i :: 0 <= i < |acts| ==> Foreign(me, acts[i])
    ensures me in Run(s, acts).workers && Run(s, acts).workers[me] == s.workers[me]
    decreases |acts|
  {
    if acts != [] {
      assert Foreign(me, acts[0]);
      ForeignActionsKeepMe(Do(s, acts[0]), acts[1..], me);
    }
  }

  lemma PassIsLater(origin: Sys, before: seq<Action>, after: seq<Action>)
    requires Reachable(origin) && before <= after
    ensures Inv(Run(origin, after)) && Later(Run(origin, before), Run(origin, after))
  {
    ReachableInv(origin);
    RunKeepsInv(origin, before);
    RunKeepsInv(origin, after);
    assert after == before + after[|before|..];
    RunAppend(origin, before, after[|before|..]);
    RunLater(Run(origin, before), after[|before|..]);
  }
}
