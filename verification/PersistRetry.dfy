/** `persist_feed_scheduled`: up to three attempts to persist a document, any of which may fail with a
    transient database error before or after its commit took effect, while others use the database
    (`src/feeds/persistence.rs`). */
module PersistRetry {
  import opened Outcomes
  import opened ReaderModel
  import opened IngestModel
  import opened Persistence
  import opened PersistLoop
  import opened PersistFeed
  import opened ReaderRuns
  import opened RefreshTheorems

  const RETRY_BACKOFFS: nat := 2

  datatype ScheduleOutcome = ScheduleOutcome(nextAt: Time, consecutiveFailures: nat, retryAfterAt: Option<Time>)

  /** How the database fails an attempt: the error is `transient` or not, and the commit has taken
      effect nevertheless (`applied`) or not. */
  datatype Fault = NoFault | Fails(transient: bool, applied: bool)

  /** What the n-th attempt meets: what others did before it, its clock readings, and its fault. */
  datatype Attempt = Attempt(others: Store -> Store, now: Time, at: Time, fault: Fault)

  // ---- what others may do

  /** Others keep the invariant, leave an ended run and its events alone, and do not use the
      identifiers drawn for this document. */
  ghost predicate Others(s: Store, s': Store, run: RunId, doc: seq<Incoming>) {
    && (Inv(s) ==> Inv(s'))
    && (run in s.runs ==> run in s'.runs)
    && Settled(s, s', run)
    && (FreshIds(s.entries, doc) ==> FreshIds(s'.entries, doc))
  }

  lemma OthersTwice(s: Store, t: Store, u: Store, run: RunId, doc: seq<Incoming>)
    requires Others(s, t, run, doc) && Others(t, u, run, doc)
    ensures Others(s, u, run, doc)
  {
    SettledTransitive(s, t, u, run);
  }

  /** An ingest of a document that shares no identifier with this one. */
  predicate Apart(a: Action, doc: seq<Incoming>) {
    a.Ingest? ==> forall i, j :: 0 <= i < |a.doc.entries| && 0 <= j < |doc| ==> a.doc.entries[i].id != doc[j].id
  }

  lemma StepIsOthers(s: Store, a: Action, s': Store, run: RunId, doc: seq<Incoming>)
    requires Inv(s) && Next(s, a, s') && Apart(a, doc)
    ensures Others(s, s', run, doc)
  {
    NextKeepsInv(s, a, s');
    StepSettles(s, a, s', run);
    RunsStay(s, a, s', run);
    if FreshIds(s.entries, doc) {
      forall j | 0 <= j < |doc|
        ensures doc[j].id !in s'.entries
      {
        NotAdded(s, a, s', doc, j);
      }
    }
  }

  lemma RunsStay(s: Store, a: Action, s': Store, run: RunId)
    requires Next(s, a, s')
    ensures run in s.runs ==> run in s'.runs
  {
  }

  lemma NotAdded(s: Store, a: Action, s': Store, doc: seq<Incoming>, j: nat)
    requires Next(s, a, s') && Apart(a, doc) && j < |doc| && doc[j].id !in s.entries
    ensures doc[j].id !in s'.entries
  {
    if a.Ingest? && doc[j].id in s'.entries {
      var env := EnvOf(s, a.claim.feed, a.doc.entries, a.at);
      NothingElseAdded(Pass(s.entries, s.feeds[a.claim.feed].head, 0, 0), env, a.doc.entries, doc[j].id);
    }
  }

  lemma StepIsOthersAt(trace: seq<Store>, acts: seq<Action>, k: nat, run: RunId, doc: seq<Incoming>)
    requires IsRun(trace, acts) && Inv(trace[0]) && k < |acts| && Apart(acts[k], doc)
    ensures Others(trace[k], trace[k + 1], run, doc)
  {
    StepOfRun(trace, acts, k);
    StepIsOthers(trace[k], acts[k], trace[k + 1], run, doc);
  }

  /** Any run of the reader is something that others may do. */
  lemma {:induction false} RunsAreOthers(trace: seq<Store>, acts: seq<Action>, k: nat, run: RunId, doc: seq<Incoming>)
    requires IsRun(trace, acts) && Inv(trace[0]) && k < |trace|
    requires forall n :: 0 <= n < |acts| ==> Apart(acts[n], doc)
    ensures Others(trace[0], trace[k], run, doc)
  {
    if k > 0 {
      RunsAreOthers(trace, acts, k - 1, run, doc);
      StepIsOthersAt(trace, acts, k - 1, run, doc);
      OthersTwice(trace[0], trace[k - 1], trace[k], run, doc);
    }
  }

  // ---- attempts

  /** A commit that took effect: the stores before and after it, and what it reported. */
  datatype Commit = Commit(before: Store, after: Store, result: PersistResult)

  ghost predicate Applied(k: Commit, c: Claim, doc: Document) {
    exists now, at :: AppliedAt(k, c, doc, now, at)
  }

  ghost predicate AppliedAt(k: Commit, c: Claim, doc: Document, now: Time, at: Time) {
    && Admitted(k.before, c, doc.entries, now, at)
    && k.after == Persisted(k.before, c, doc, at)
    && k.result == ResultOf(k.before, c.feed, doc, at)
  }

  /** From `s`, others and at most one application of the document have led to `t`. */
  ghost predicate AtMostOnce(s: Store, t: Store, c: Claim, doc: Document, commits: seq<Commit>) {
    if commits == [] then Others(s, t, c.run, doc.entries)
    else
      && |commits| == 1
      && Applied(commits[0], c, doc)
      && Others(s, commits[0].before, c.run, doc.entries)
      && Others(commits[0].after, t, c.run, doc.entries)
  }

  ghost predicate Reported(result: Result<PersistResult, Failure>, commits: seq<Commit>) {
    result.Ok? ==> |commits| == 1 && result.value == commits[0].result
  }

  /** The run shows the one application: its status, its counts, and one event of each kind. */
  ghost predicate RunShows(s: Store, c: Claim, doc: Document, result: PersistResult) {
    && c.run in s.runs
    && s.runs[c.run].status == StatusOf(doc)
    && s.runs[c.run].counts == result.counts
    && PersistedKey(c.run) in s.outbox && s.outbox[PersistedKey(c.run)] == PersistedEvent(c, result)
    && CompletedKey(c.run) in s.outbox && s.outbox[CompletedKey(c.run)] == CompletedEvent(c, StatusOf(doc), result.counts)
  }

  lemma AppliedShows(s: Store, t: Store, c: Claim, doc: Document, commits: seq<Commit>)
    requires AtMostOnce(s, t, c, doc, commits) && commits != []
    ensures RunShows(t, c, doc, commits[0].result)
  {
    var k := commits[0];
    var now, at :| AppliedAt(k, c, doc, now, at);
    assert RunShows(k.after, c, doc, k.result);
    assert Settled(k.after, t, c.run);
  }

  /** Once applied, the claim authorizes nothing any more. */
  lemma AppliedIsUnauthorized(s: Store, t: Store, c: Claim, doc: Document, commits: seq<Commit>)
    requires AtMostOnce(s, t, c, doc, commits) && commits != []
    ensures forall now :: !Authorized(t, c, now)
  {
    AppliedShows(s, t, c, doc, commits);
  }

  lemma OthersGoOn(s: Store, t: Store, u: Store, c: Claim, doc: Document, commits: seq<Commit>)
    requires AtMostOnce(s, t, c, doc, commits) && Others(t, u, c.run, doc.entries)
    ensures AtMostOnce(s, u, c, doc, commits)
  {
    OthersTwice(if commits == [] then s else commits[0].after, t, u, c.run, doc.entries);
  }

  // ---- what each attempt finds, leaves and reports

  /** An attempt that has been made: the store it found, the one it left, and its report. */
  datatype Tried = Tried(found: Store, left: Store, result: Result<PersistResult, Failure>, transient: bool)

  /** The transaction by itself: it persists the document, or reports why not and leaves everything. */
  ghost predicate Plain(t: Tried, c: Claim, doc: Document, now: Time, at: Time) {
    && (t.result.Ok? ==>
      && Admitted(t.found, c, doc.entries, now, at)
      && t.left == Persisted(t.found, c, doc, at)
      && t.result.value == ResultOf(t.found, c.feed, doc, at))
    && (t.result.Err? ==> t.left == t.found)
    && (DistinctHashes(doc.entries) ==>
      Refusal(t.found, c, doc, now, at) == if t.result.Ok? then None else Some(t.result.error))
    && !t.transient
  }

  /** The attempt goes as its fault has it. */
  ghost predicate Meets(t: Tried, attempt: Attempt, c: Claim, doc: Document) {
    match attempt.fault
    case NoFault => Plain(t, c, doc, attempt.now, attempt.at)
    case Fails(transient, applied) =>
      if applied then exists plain :: Plain(plain, c, doc, attempt.now, attempt.at) && Unreported(t, plain, transient)
      else t.left == t.found && t.result == Err(Database) && t.transient == transient
  }

  /** What the transaction did is done, but its success is not reported. */
  ghost predicate Unreported(t: Tried, plain: Tried, transient: bool) {
    if plain.result.Ok? then t == plain.(result := Err(Database), transient := transient) else t == plain
  }

  ghost function LeftBefore(s: Store, tries: seq<Tried>, n: nat): Store
    requires n <= |tries|
  {
    if n == 0 then s else tries[n - 1].left
  }

  /** One attempt after the other, each after the others have acted on what the one before it left. */
  ghost predicate Chain(s: Store, attempts: seq<Attempt>, tries: seq<Tried>, c: Claim, doc: Document) {
    |tries| <= |attempts| && forall n :: 0 <= n < |tries| ==> Made(s, attempts, tries, n, c, doc)
  }

  ghost predicate Made(s: Store, attempts: seq<Attempt>, tries: seq<Tried>, n: nat, c: Claim, doc: Document)
    requires n < |tries| <= |attempts|
  {
    MadeOf(attempts[n], tries[n], LeftBefore(s, tries, n), c, doc)
  }

  ghost predicate MadeOf(attempt: Attempt, tried: Tried, before: Store, c: Claim, doc: Document) {
    tried.found == attempt.others(before) && Meets(tried, attempt, c, doc)
  }

  lemma FailedWithoutEffect(attempt: Attempt, tried: Tried, before: Store, c: Claim, doc: Document)
    requires MadeOf(attempt, tried, before, c, doc) && attempt.fault == Fails(true, false)
    ensures tried.left == attempt.others(before) && tried.transient
  {
  }

  lemma PlainGetsThrough(attempt: Attempt, tried: Tried, before: Store, c: Claim, doc: Document)
    requires MadeOf(attempt, tried, before, c, doc) && attempt.fault.NoFault? && DistinctHashes(doc.entries)
    requires Refusal(attempt.others(before), c, doc, attempt.now, attempt.at).None?
    ensures tried.result.Ok? && !tried.transient
  {
  }

  /** An attempt is made exactly when all before it have reported a transient error, and the last one
      made is the one reported. */
  ghost predicate Retried(s: Store, attempts: seq<Attempt>, tries: seq<Tried>, c: Claim, doc: Document, t: Store,
        result: Result<PersistResult, Failure>) {
    && Chain(s, attempts, tries, c, doc)
    && tries != []
    && (forall n :: 0 <= n < |tries| - 1 ==> tries[n].transient)
    && (|tries| < |attempts| ==> !tries[|tries| - 1].transient)
    && result == tries[|tries| - 1].result
    && t == tries[|tries| - 1].left
  }

  /** The store that an attempt finds when no earlier one has had an effect. */
  ghost function FoundBy(s: Store, attempts: seq<Attempt>, k: nat): Store
    requires k < |attempts|
  {
    attempts[k].others(if k == 0 then s else FoundBy(s, attempts, k - 1))
  }

  /** The first attempt that does not fail transiently meets no fault, and nothing stands in its way. */
  ghost predicate GetsThrough(s: Store, attempts: seq<Attempt>, c: Claim, doc: Document, k: nat)
    requires k < |attempts|
  {
    && DistinctHashes(doc.entries)
    && attempts[k].fault.NoFault?
    && (forall n :: 0 <= n < k ==> attempts[n].fault == Fails(true, false))
    && Refusal(FoundBy(s, attempts, k), c, doc, attempts[k].now, attempts[k].at).None?
  }

  lemma {:induction false} ReachedWithoutEffect(s: Store, attempts: seq<Attempt>, tries: seq<Tried>, c: Claim, doc: Document,
        k: nat, t: Store, result: Result<PersistResult, Failure>)
    requires Retried(s, attempts, tries, c, doc, t, result) && k < |attempts|
    requires forall n :: 0 <= n < k ==> attempts[n].fault == Fails(true, false)
    ensures k < |tries| && attempts[k].others(LeftBefore(s, tries, k)) == FoundBy(s, attempts, k)
  {
    if k > 0 {
      ReachedWithoutEffect(s, attempts, tries, c, doc, k - 1, t, result);
      assert Made(s, attempts, tries, k - 1, c, doc);
      FailedWithoutEffect(attempts[k - 1], tries[k - 1], LeftBefore(s, tries, k - 1), c, doc);
    }
  }

  /** Such an attempt is the one reported, and it succeeds. */
  lemma GottenThrough(s: Store, attempts: seq<Attempt>, tries: seq<Tried>, c: Claim, doc: Document, k: nat, t: Store,
        result: Result<PersistResult, Failure>)
    requires Retried(s, attempts, tries, c, doc, t, result) && k < |attempts|
    requires GetsThrough(s, attempts, c, doc, k)
    ensures |tries| == k + 1 && result.Ok?
  {
    ReachedWithoutEffect(s, attempts, tries, c, doc, k, t, result);
    assert Made(s, attempts, tries, k, c, doc);
    PlainGetsThrough(attempts[k], tries[k], LeftBefore(s, tries, k), c, doc);
  }

  lemma AllGottenThrough(s: Store, attempts: seq<Attempt>, tries: seq<Tried>, c: Claim, doc: Document, t: Store,
        result: Result<PersistResult, Failure>)
    requires Retried(s, attempts, tries, c, doc, t, result)
    ensures forall k :: 0 <= k < |attempts| && GetsThrough(s, attempts, c, doc, k) ==> |tries| == k + 1 && result.Ok?
  {
    forall k | 0 <= k < |attempts| && GetsThrough(s, attempts, c, doc, k)
      ensures |tries| == k + 1 && result.Ok?
    {
      GottenThrough(s, attempts, tries, c, doc, k, t, result);
    }
  }

  lemma ChainGrows(s: Store, attempts: seq<Attempt>, tries: seq<Tried>, c: Claim, doc: Document, tried: Tried)
    requires Chain(s, attempts, tries, c, doc) && |tries| < |attempts|
    requires MadeOf(attempts[|tries|], tried, LeftBefore(s, tries, |tries|), c, doc)
    ensures Chain(s, attempts, tries + [tried], c, doc)
  {
    var more := tries + [tried];
    forall n | 0 <= n < |more|
      ensures Made(s, attempts, more, n, c, doc)
    {
      assert LeftBefore(s, more, n) == LeftBefore(s, tries, n);
      if n < |tries| { assert more[n] == tries[n] && Made(s, attempts, tries, n, c, doc); }
    }
  }

  /** All attempts so far have reported transient errors. */
  ghost predicate Underway(s: Store, attempts: seq<Attempt>, tries: seq<Tried>, c: Claim, doc: Document, t: Store) {
    && Chain(s, attempts, tries, c, doc)
    && t == LeftBefore(s, tries, |tries|)
    && (forall n :: 0 <= n < |tries| ==> tries[n].transient)
  }

  lemma UnderwayGrows(s: Store, attempts: seq<Attempt>, tries: seq<Tried>, c: Claim, doc: Document, t: Store, tried: Tried)
    requires Underway(s, attempts, tries, c, doc, t) && |tries| < |attempts|
    requires MadeOf(attempts[|tries|], tried, t, c, doc)
    ensures tried.transient ==> Underway(s, attempts, tries + [tried], c, doc, tried.left)
    ensures !tried.transient || |tries| + 1 == |attempts| ==>
      Retried(s, attempts, tries + [tried], c, doc, tried.left, tried.result)
  {
    ChainGrows(s, attempts, tries, c, doc, tried);
  }

  /** One attempt, with the fault that the database reports for it. */
  method Try(repo: FeedRepository, c: Claim, doc: Document, attempt: Attempt)
    returns (result: Result<PersistResult, Failure>, transient: bool, ghost commits: seq<Commit>)
    requires Inv(repo.store)
    requires Authorized(repo.store, c, attempt.now) ==> FreshIds(repo.store.entries, doc.entries)
    modifies repo
    ensures Inv(repo.store)
    ensures if commits == [] then repo.store == old(repo.store)
      else |commits| == 1 && commits[0].before == old(repo.store) && commits[0].after == repo.store && Applied(commits[0], c, doc)
    ensures Reported(result, commits)
    ensures transient ==> result.Err?
    ensures Meets(Tried(old(repo.store), repo.store, result, transient), attempt, c, doc)
  {
    var fault := attempt.fault;
    if fault.Fails? && !fault.applied {
      return Err(Database), fault.transient, [];
    }
    ghost var before := repo.store;
    result := repo.PersistFeedOnce(c, doc, attempt.now, attempt.at);
    transient, commits := false, [];
    ghost var plain := Tried(before, repo.store, result, false);
    assert Plain(plain, c, doc, attempt.now, attempt.at);
    if result.Ok? {
      commits := [Commit(before, repo.store, result.value)];
      assert AppliedAt(commits[0], c, doc, attempt.now, attempt.at);
      if fault.Fails? {
        result, transient := Err(Database), fault.transient;
      }
    }
    assert fault.Fails? ==> Unreported(Tried(before, repo.store, result, transient), plain, fault.transient);
  }

  /** The others, then one attempt. */
  method TryNext(repo: FeedRepository, c: Claim, doc: Document, attempts: seq<Attempt>, n: nat, ghost s: Store,
        ghost done: seq<Commit>, ghost tries: seq<Tried>)
    returns (result: Result<PersistResult, Failure>, transient: bool, ghost commits: seq<Commit>, ghost more: seq<Tried>)
    requires Inv(s) && FreshIds(s.entries, doc.entries)
    requires Inv(repo.store) && AtMostOnce(s, repo.store, c, doc, done)
    requires n == |tries| < |attempts| && Underway(s, attempts, tries, c, doc, repo.store)
    requires forall t :: Inv(t) ==> Others(t, attempts[n].others(t), c.run, doc.entries)
    modifies repo
    ensures Inv(repo.store) && AtMostOnce(s, repo.store, c, doc, commits)
    ensures Reported(result, commits) && done <= commits
    ensures transient ==> result.Err?
    ensures |more| == n + 1
    ensures transient ==> Underway(s, attempts, more, c, doc, repo.store)
    ensures !transient || n + 1 == |attempts| ==> Retried(s, attempts, more, c, doc, repo.store, result)
  {
    ghost var before := repo.store;
    ghost var found := attempts[n].others(repo.store);
    OthersGoOn(s, repo.store, found, c, doc, done);
    repo.store := attempts[n].others(repo.store);
    if done != [] {
      AppliedIsUnauthorized(s, repo.store, c, doc, done);
    }
    ghost var now;
    result, transient, now := Try(repo, c, doc, attempts[n]);
    commits := done + now;
    ghost var tried := Tried(found, repo.store, result, transient);
    UnderwayGrows(s, attempts, tries, c, doc, before, tried);
    more := tries + [tried];
  }

  lemma Conclude(s: Store, attempts: seq<Attempt>, tries: seq<Tried>, c: Claim, doc: Document, t: Store,
        result: Result<PersistResult, Failure>, commits: seq<Commit>)
    requires Retried(s, attempts, tries, c, doc, t, result) && AtMostOnce(s, t, c, doc, commits)
    ensures commits != [] ==> RunShows(t, c, doc, commits[0].result)
    ensures forall k :: 0 <= k < |attempts| && GetsThrough(s, attempts, c, doc, k) ==> |tries| == k + 1 && result.Ok?
  {
    if commits != [] { AppliedShows(s, t, c, doc, commits); }
    AllGottenThrough(s, attempts, tries, c, doc, t, result);
  }

  /** Whatever fails and whatever others do, the document is applied at most once; success is reported
      only for the application that took place; and if it took place, the run shows it, with exactly
      its two events. The attempts are made one after the other up to the first that does not report a
      transient error, or the third, whose report is the result; so the first attempt that meets no fault
      succeeds if nothing stands in its way. */
  method PersistFeedScheduled(repo: FeedRepository, c: Claim, doc: Document, schedule: ScheduleOutcome,
        attempts: seq<Attempt>)
    returns (result: Result<PersistResult, Failure>, ghost commits: seq<Commit>, ghost tries: seq<Tried>)
    requires Inv(repo.store) && FreshIds(repo.store.entries, doc.entries)
    requires |attempts| == 3
    requires forall n, t :: 0 <= n < |attempts| && Inv(t) ==> Others(t, attempts[n].others(t), c.run, doc.entries)
    modifies repo
    ensures Inv(repo.store)
    ensures AtMostOnce(old(repo.store), repo.store, c, doc, commits)
    ensures result.Ok? ==> |commits| == 1 && result.value == commits[0].result
    ensures commits != [] ==> RunShows(repo.store, c, doc, commits[0].result)
    ensures schedule.consecutiveFailures != 0 || schedule.retryAfterAt.Some? ==>
      result == Err(InvalidRequest) && repo.store == old(repo.store)
    ensures schedule.consecutiveFailures == 0 && schedule.retryAfterAt.None? ==>
      && Retried(old(repo.store), attempts, tries, c, doc, repo.store, result)
      && forall k :: 0 <= k < |attempts| && GetsThrough(old(repo.store), attempts, c, doc, k) ==>
           |tries| == k + 1 && result.Ok? && |commits| == 1
  {
    commits, tries := [], [];
    if schedule.consecutiveFailures != 0 || schedule.retryAfterAt.Some? {
      return Err(InvalidRequest), [], [];
    }
    ghost var s := repo.store;
    var transient;
    for n := 0 to RETRY_BACKOFFS
      invariant Inv(repo.store) && AtMostOnce(s, repo.store, c, doc, commits)
      invariant |tries| == n && Underway(s, attempts, tries, c, doc, repo.store)
    {
      result, transient, commits, tries := TryNext(repo, c, doc, attempts, n, s, commits, tries);
      if !transient {
        Conclude(s, attempts, tries, c, doc, repo.store, result, commits);
        return;
      }
    }
    result, transient, commits, tries := TryNext(repo, c, doc, attempts, RETRY_BACKOFFS, s, commits, tries);
    Conclude(s, attempts, tries, c, doc, repo.store, result, commits);
  }
}
