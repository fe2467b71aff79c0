/** Refresh runs over whole runs of the reader: leases, ended runs, and the lifecycle outbox. */
module RefreshTheorems {
  import opened Outcomes
  import opened ReaderModel
  import opened IngestModel
  import opened Persistence
  import opened ReaderRuns
  import PersistFeed

  // ---- the outbox mirrors the runs

  predicate Persists(status: RunStatus) {
    status.Success? || status.Partial?
  }

  predicate Completes(status: RunStatus) {
    Persists(status) || status.NotModified? || status.Error?
  }

  /** A run has the events that its status calls for, and they repeat its counts. */
  ghost predicate Mirrored(s: Store, run: RunId)
    requires run in s.runs
  {
    var r, p, c := s.runs[run], PersistedKey(run), CompletedKey(run);
    && (p in s.outbox <==> Persists(r.status))
    && (c in s.outbox <==> Completes(r.status))
    && (p in s.outbox ==> s.outbox[p] == Event(r.feed, run, 10, PersistedPayload(r.generation, r.counts)))
    && (c in s.outbox ==>
      && s.outbox[c].payload.CompletedPayload?
      && s.outbox[c] == Event(r.feed, run, 20, CompletedPayload(r.status, s.outbox[c].payload.httpStatus, r.counts)))
  }

  ghost predicate OutboxMirrorsRuns(s: Store) {
    forall run :: run in s.runs ==> Mirrored(s, run)
  }

  /** The runs and events that a step may touch are those of the run it names. */
  predicate Names(a: Action, run: RunId) {
    match a
    case Ingest(c, _, _, _) => c.run == run
    case ClaimRun(c, _, _) => c.run == run
    case EndRun(c, _, _, _) => c.run == run
    case LoseRun(r) => r == run
    case _ => false
  }

  /** The run and its events are as they were. */
  ghost predicate RunKept(s: Store, s': Store, run: RunId) {
    && (run in s'.runs <==> run in s.runs)
    && (run in s.runs ==> s'.runs[run] == s.runs[run])
    && (forall key: EventKey :: key.run == run ==> (key in s'.outbox <==> key in s.outbox))
    && (forall key: EventKey :: key.run == run && key in s.outbox ==> s'.outbox[key] == s.outbox[key])
  }

  lemma OtherRunPersisted(s: Store, c: IngestModel.Claim, doc: Document, at: Time, run: RunId)
    requires c.feed in s.feeds && c.run in s.runs && c.run != run
    ensures RunKept(s, Persisted(s, c, doc, at), run)
  {
  }

  lemma OtherRunEnded(s: Store, c: IngestModel.Claim, status: RunStatus, httpStatus: Option<int>, run: RunId)
    requires c.feed in s.feeds && c.run in s.runs && c.run != run
    ensures RunKept(s, Ended(s, c, status, httpStatus), run)
  {
  }

  /** Only four kinds of steps touch refresh runs or the outbox. */
  lemma RunsUntouched(s: Store, a: Action, s': Store)
    requires Next(s, a, s') && !a.Ingest? && !a.ClaimRun? && !a.EndRun? && !a.LoseRun?
    ensures s'.runs == s.runs && s'.outbox == s.outbox
  {
  }

  lemma OthersRunsKept(s: Store, a: Action, s': Store, run: RunId)
    requires Next(s, a, s') && !Names(a, run)
    ensures RunKept(s, s', run)
  {
    if a.Ingest? {
      if PersistFeed.Refusal(s, a.claim, a.doc, a.now, a.at).None? {
        OtherRunPersisted(s, a.claim, a.doc, a.at, run);
      }
    } else if a.EndRun? {
      OtherRunEnded(s, a.claim, a.status, a.httpStatus, run);
    } else if !a.ClaimRun? && !a.LoseRun? {
      RunsUntouched(s, a, s');
    }
  }

  lemma NamedRunMirrored(s: Store, a: Action, s': Store, run: RunId)
    requires Inv(s) && Next(s, a, s') && Names(a, run) && run in s'.runs
    requires run in s.runs ==> Mirrored(s, run)
    ensures Mirrored(s', run)
  {
    forall key | key in s.outbox && key.run == run
      ensures run in s.runs && !s.runs[run].status.Running?
    {
      assert EventInv(s, key);
    }
  }

  lemma StepMirrors(s: Store, a: Action, s': Store)
    requires Inv(s) && OutboxMirrorsRuns(s) && Next(s, a, s')
    ensures OutboxMirrorsRuns(s')
  {
    forall run | run in s'.runs
      ensures Mirrored(s', run)
    {
      if Names(a, run) {
        NamedRunMirrored(s, a, s', run);
      } else {
        OthersRunsKept(s, a, s', run);
      }
    }
  }

  lemma StepMirrorsAt(trace: seq<Store>, acts: seq<Action>, k: nat)
    requires IsRun(trace, acts) && Inv(trace[0]) && k < |acts| && OutboxMirrorsRuns(trace[k])
    ensures OutboxMirrorsRuns(trace[k + 1])
  {
    StepOfRun(trace, acts, k);
    StepMirrors(trace[k], acts[k], trace[k + 1]);
  }

  /** In every state of every run, each refresh run has exactly the lifecycle events of its status:
      one persisted and one completed event with matching counts when it has persisted something. */
  lemma {:induction false} OutboxAlwaysMirrors(trace: seq<Store>, acts: seq<Action>, k: nat)
    requires IsRun(trace, acts) && Inv(trace[0]) && OutboxMirrorsRuns(trace[0]) && k < |trace|
    ensures OutboxMirrorsRuns(trace[k])
  {
    if k > 0 {
      OutboxAlwaysMirrors(trace, acts, k - 1);
      StepMirrorsAt(trace, acts, k - 1);
    }
  }

  // ---- ended runs

  /** The run has ended and is unchanged, with its events. */
  ghost predicate Settled(s: Store, s': Store, run: RunId) {
    run in s.runs && !s.runs[run].status.Running? ==>
      && run in s'.runs && s'.runs[run] == s.runs[run]
      && (forall key: EventKey :: key.run == run ==> (key in s'.outbox <==> key in s.outbox))
      && (forall key: EventKey :: key.run == run && key in s.outbox ==> s'.outbox[key] == s.outbox[key])
  }

  lemma StepSettles(s: Store, a: Action, s': Store, run: RunId)
    requires Next(s, a, s')
    ensures Settled(s, s', run)
  {
    if !Names(a, run) {
      OthersRunsKept(s, a, s', run);
    }
  }

  lemma StepSettlesAt(trace: seq<Store>, acts: seq<Action>, k: nat, run: RunId)
    requires IsRun(trace, acts) && k < |acts|
    ensures Settled(trace[k], trace[k + 1], run)
  {
    assert StepAt(trace, acts, k);
    StepSettles(trace[k], acts[k], trace[k + 1], run);
  }

  lemma SettledTransitive(s: Store, t: Store, u: Store, run: RunId)
    requires Settled(s, t, run) && Settled(t, u, run)
    ensures Settled(s, u, run)
  {
  }

  /** An ended run never changes again, nor do its events. */
  lemma {:induction false} EndedForever(trace: seq<Store>, acts: seq<Action>, i: nat, j: nat, run: RunId)
    requires IsRun(trace, acts) && i <= j < |trace|
    ensures Settled(trace[i], trace[j], run)
  {
    if i < j {
      EndedForever(trace, acts, i, j - 1, run);
      StepSettlesAt(trace, acts, j - 1, run);
      SettledTransitive(trace[i], trace[j - 1], trace[j], run);
    }
  }

  /** At most one ingest of a refresh run is ever accepted. */
  lemma PersistedAtMostOnce(trace: seq<Store>, acts: seq<Action>, i: nat, j: nat)
    requires IsRun(trace, acts) && Inv(trace[0]) && i < j < |acts|
    requires acts[i].Ingest? && acts[j].Ingest? && acts[i].claim.run == acts[j].claim.run
    requires PersistFeed.Refusal(trace[i], acts[i].claim, acts[i].doc, acts[i].now, acts[i].at).None?
    ensures PersistFeed.Refusal(trace[j], acts[j].claim, acts[j].doc, acts[j].now, acts[j].at).Some?
    ensures trace[j + 1] == trace[j]
  {
    EndedForever(trace, acts, i + 1, j, acts[i].claim.run);
    assert StepAt(trace, acts, i) && StepAt(trace, acts, j);
  }

  // ---- lease tokens

  lemma TokenGrows(s: Store, a: Action, s': Store, f: FeedId)
    requires Inv(s) && Next(s, a, s') && f in s.feeds
    ensures f in s'.feeds && s.feeds[f].leaseToken <= s'.feeds[f].leaseToken
    ensures a.ClaimRun? && a.claim.feed == f ==> s.feeds[f].leaseToken < s'.feeds[f].leaseToken == a.claim.token
  {
  }

  lemma TokenGrowsAt(trace: seq<Store>, acts: seq<Action>, k: nat, f: FeedId)
    requires IsRun(trace, acts) && Inv(trace[0]) && k < |acts| && f in trace[k].feeds
    ensures f in trace[k + 1].feeds && trace[k].feeds[f].leaseToken <= trace[k + 1].feeds[f].leaseToken
  {
    StepOfRun(trace, acts, k);
    TokenGrows(trace[k], acts[k], trace[k + 1], f);
  }

  lemma {:induction false} TokensGrow(trace: seq<Store>, acts: seq<Action>, i: nat, j: nat, f: FeedId)
    requires IsRun(trace, acts) && Inv(trace[0]) && i <= j < |trace| && f in trace[i].feeds
    ensures f in trace[j].feeds && trace[i].feeds[f].leaseToken <= trace[j].feeds[f].leaseToken
  {
    if i < j {
      TokensGrow(trace, acts, i, j - 1, f);
      TokenGrowsAt(trace, acts, j - 1, f);
    }
  }

  /** Once a feed has been claimed anew, no operation under an older claim is ever authorized. */
  lemma SupersededClaimIsLost(trace: seq<Store>, acts: seq<Action>, i: nat, j: nat, late: Claim, now: Time)
    requires IsRun(trace, acts) && Inv(trace[0]) && i < j < |trace|
    requires acts[i].ClaimRun? && acts[i].claim.feed == late.feed && late.token < acts[i].claim.token
    ensures !Authorized(trace[j], late, now)
  {
    StepOfRun(trace, acts, i);
    TokensGrow(trace, acts, i + 1, j, late.feed);
  }
}
