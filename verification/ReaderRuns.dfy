/** Whole runs of the reader: every transaction that changes the reader tables is one atomic step. */
module ReaderRuns {
  import opened Outcomes
  import opened ReaderModel
  import opened IngestModel
  import opened Persistence
  import opened PersistLoop
  import PersistFeed
  import MarkRead
  import ArticleRetention

  datatype Action =
    | Ingest(claim: Claim, doc: Document, now: Time, at: Time)
    | Mark(user: UserId, scope: MarkRead.Scope, feeds: seq<FeedId>, snapshot: int)
    | Patch(user: UserId, entry: EntryId, isRead: Option<bool>, isStarred: Option<bool>)
    | Purge(cutoff: Time, ids: seq<EntryId>)
    | Subscribe(user: UserId, feed: FeedId)
    | Unsubscribe(user: UserId, feed: FeedId)
    | AddFeed(feed: FeedId)
    | ClaimRun(claim: Claim, until: Time, now: Time)
    | ExtendLease(claim: Claim, until: Time, now: Time)
    | EndRun(claim: Claim, status: RunStatus, httpStatus: Option<int>, now: Time)
    | LoseRun(run: RunId)
    | SetContentJobs(jobs: set<EntryId>)

  // ---- the single operations

  /** `CurrentState::apply`: an override is stored only where it differs from the frontier. */
  function NextOverride(baseRead: bool, current: Option<bool>, isRead: Option<bool>): Option<bool> {
    if isRead.None? then current else if isRead.value == baseRead then None else isRead
  }

  /** `update_state_for_user`: a neutral row is deleted, an unchanged one left alone. */
  function Patched(s: Store, u: UserId, e: EntryId, isRead: Option<bool>, isStarred: Option<bool>): Store {
    if !Visible(s, u, e) then s
    else
      var entry := s.entries[e];
      var current := StateOf(s, u, e);
      var baseRead := entry.sequence <= s.subscriptions[(u, entry.feed)].readThrough;
      var readOverride := NextOverride(baseRead, if current.Some? then current.value.readOverride else None, isRead);
      var starred := if isStarred.Some? then isStarred.value else current.Some? && current.value.starred;
      if readOverride.None? && !starred then
        if current.Some? then s.(states := s.states - {(u, e)}) else s
      else if current.Some? && current.value.readOverride == readOverride && current.value.starred == starred then s
      else
        s.(states := s.states[(u, e) := EntryState(entry.feed, entry.sequence, readOverride, starred,
          if current.Some? then current.value.revision + 1 else 1)])
  }

  /** `insert_subscription_statement`: the last hundred entries are visible, and unread. */
  function Subscribed(s: Store, u: UserId, f: FeedId): Store
    requires f in s.feeds
  {
    var start := InitialFrontier(s.feeds[f].head);
    s.(subscriptions := s.subscriptions[(u, f) := Subscription(start, start, 0, None)])
  }

  /** The deletion of a subscription, which deletes the state rows that belong to it. */
  function Unsubscribed(s: Store, u: UserId, f: FeedId): Store {
    s.(subscriptions := s.subscriptions - {(u, f)},
       states := map key | key in s.states && !(key.0 == u && s.states[key].feed == f) :: s.states[key])
  }

  predicate LeaseFree(feed: Feed, now: Time) {
    (feed.leaseOwner.None? && feed.leaseUntil.None?) || (feed.leaseUntil.Some? && feed.leaseUntil.value <= now)
  }

  /** `complete_owned`: the run ends without persisting anything, with a completed event unless it is
      cancelled. */
  function Ended(s: Store, c: Claim, status: RunStatus, httpStatus: Option<int>): Store
    requires c.feed in s.feeds && c.run in s.runs
  {
    var none := Counts(0, 0, 0);
    var key := CompletedKey(c.run);
    s.(feeds := s.feeds[c.feed := s.feeds[c.feed].(leaseOwner := None, leaseUntil := None)],
       runs := s.runs[c.run := s.runs[c.run].(status := status, counts := none)],
       outbox := if status.Cancelled? then s.outbox
         else s.outbox[key := Event(c.feed, c.run, OrderOf(key), CompletedPayload(status, httpStatus, none))])
  }

  // ---- steps

  ghost predicate Next(s: Store, a: Action, s': Store) {
    match a
    case Ingest(c, doc, now, at) =>
      && FreshIds(s.entries, doc.entries) && DistinctHashes(doc.entries)
      && s' == if PersistFeed.Refusal(s, c, doc, now, at).None? then Persisted(s, c, doc, at) else s
    case Mark(u, scope, feeds, snapshot) =>
      && 0 <= snapshot <= s.generation
      && MarkRead.Lists(s, u, scope, feeds)
      && MarkRead.MarksRead(s, s', u, feeds, snapshot)
    case Patch(u, e, isRead, isStarred) => s' == Patched(s, u, e, isRead, isStarred)
    case Purge(cutoff, ids) => ArticleRetention.OldestPurgeable(s, cutoff, ids) && s' == ArticleRetention.Purge(s, ids)
    case Subscribe(u, f) => f in s.feeds && (u, f) !in s.subscriptions && s' == Subscribed(s, u, f)
    case Unsubscribe(u, f) => s' == Unsubscribed(s, u, f)
    case AddFeed(f) => f !in s.feeds && s' == s.(feeds := s.feeds[f := Feed(0, None, 0, None)])
    case ClaimRun(c, until, now) =>
      && c.feed in s.feeds && c.run !in s.runs && LeaseFree(s.feeds[c.feed], now)
      && c.token == s.feeds[c.feed].leaseToken + 1
      && s' == s.(
        feeds := s.feeds[c.feed := s.feeds[c.feed].(leaseOwner := Some(c.owner), leaseToken := c.token, leaseUntil := Some(until))],
        runs := s.runs[c.run := RefreshRun(c.feed, Running, c.token, Counts(0, 0, 0), None)])
    case ExtendLease(c, until, now) =>
      && Authorized(s, c, now)
      && s' == s.(feeds := s.feeds[c.feed := s.feeds[c.feed].(leaseUntil := Some(until))])
    case EndRun(c, status, httpStatus, now) =>
      && Authorized(s, c, now) && (status.NotModified? || status.Error? || status.Cancelled?)
      && s' == Ended(s, c, status, httpStatus)
    case LoseRun(run) =>
      && run in s.runs && s.runs[run].status.Running?
      && s' == s.(runs := s.runs[run := s.runs[run].(status := LeaseLost)])
    case SetContentJobs(jobs) => s' == s.(contentJobs := jobs)
  }

  ghost predicate StepAt(trace: seq<Store>, acts: seq<Action>, k: nat)
    requires k < |acts| < |trace|
  {
    Next(trace[k], acts[k], trace[k + 1])
  }

  /** A run: consecutive states and the steps between them. */
  ghost predicate IsRun(trace: seq<Store>, acts: seq<Action>) {
    && |trace| == |acts| + 1
    && (forall k :: 0 <= k < |acts| ==> StepAt(trace, acts, k))
  }

  // ---- an accepted document

  /** Accepting a document one entry at a time keeps the entries in order. */
  lemma {:induction false} PlainPassGrown(base: Entries, low: int, env: Env, doc: seq<Incoming>, k: nat)
    requires k <= |doc| && Grown(base, base, env, low, low) && FreshIds(base, doc) && DistinctHashes(doc)
    requires ExistingExact(base, env, doc)
    ensures var pass := OneByOne(Pass(base, low, 0, 0), env, doc[..k]);
      Grown(base, pass.entries, env, low, pass.head)
  {
    var p := Pass(base, low, 0, 0);
    if k == 0 {
      assert doc[..0] == [];
    } else {
      PlainPassGrown(base, low, env, doc, k - 1);
      PlainPassGrownMore(base, low, env, doc, k - 1);
    }
  }

  lemma PlainPassGrownMore(base: Entries, low: int, env: Env, doc: seq<Incoming>, k: nat)
    requires k < |doc| && FreshIds(base, doc) && DistinctHashes(doc) && ExistingExact(base, env, doc)
    requires var pass := OneByOne(Pass(base, low, 0, 0), env, doc[..k]);
      Grown(base, pass.entries, env, low, pass.head)
    ensures var pass := OneByOne(Pass(base, low, 0, 0), env, doc[..k + 1]);
      Grown(base, pass.entries, env, low, pass.head)
  {
    var pass := OneByOne(Pass(base, low, 0, 0), env, doc[..k]);
    OneMore(Pass(base, low, 0, 0), env, doc, k);
    if IsNew(env, doc[k]) {
      PlainPassGrownNew(base, low, env, doc, k);
    } else if doc[k].identity.hash !in env.retired {
      assert Live(base, env.feed, doc[k].identity.hash);
      PlainPassGrownOld(base, low, env, doc[k], pass.entries, pass.head);
    }
  }

  lemma PlainPassGrownOld(base: Entries, low: int, env: Env, e: Incoming, entries: Entries, head: int)
    requires Grown(base, entries, env, low, head) && Live(base, env.feed, e.identity.hash)
    ensures Grown(base, Refresh(entries, env.feed, e), env, low, head)
  {
    var id :| id in base && LiveWith(base, env.feed, e.identity.hash, id);
    RefreshOne(entries, env.feed, e, id);
    WrittenContentIsIncoming(entries[id].content, e);
    GrownUpdate(base, entries, env, low, head, id, e);
  }

  lemma OnePending(row: Pending)
    ensures PendingMap([row]) == map[row.id := row.entry]
  {
    assert [row][..0] == [];
  }

  lemma PlainPassGrownNew(base: Entries, low: int, env: Env, doc: seq<Incoming>, k: nat)
    requires k < |doc| && FreshIds(base, doc) && DistinctHashes(doc) && ExistingExact(base, env, doc)
    requires IsNew(env, doc[k])
    requires var pass := OneByOne(Pass(base, low, 0, 0), env, doc[..k]);
      Grown(base, pass.entries, env, low, pass.head)
    ensures var pass := OneByOne(Pass(base, low, 0, 0), env, doc[..k + 1]);
      Grown(base, pass.entries, env, low, pass.head)
  {
    var pass := OneByOne(Pass(base, low, 0, 0), env, doc[..k]);
    OneMore(Pass(base, low, 0, 0), env, doc, k);
    NextIsFresh(base, low, env, doc, k);
    var row := Pending(doc[k].id, NewEntry(env, doc[k], pass.head + 1));
    var pr := Progress(pass.head + 1, 0, [row], [], map[]);
    OnePending(row);
    PendingAccepted(base, low, pass.entries, env, doc, k + 1, pr);
    GrownFlush(base, pass.entries, env, low, pr);
  }

  lemma IngestKeepsInv(s: Store, c: Claim, doc: Document, now: Time, at: Time)
    requires Inv(s) && FreshIds(s.entries, doc.entries) && DistinctHashes(doc.entries)
    requires PersistFeed.Refusal(s, c, doc, now, at).None?
    ensures Inv(Persisted(s, c, doc, at))
  {
    PersistFeed.InvGrown(s, c.feed, doc.entries, at);
    PersistFeed.EnvExact(s, c.feed, doc.entries, at);
    assert doc.entries[..|doc.entries|] == doc.entries;
    PlainPassGrown(s.entries, s.feeds[c.feed].head, EnvOf(s, c.feed, doc.entries, at), doc.entries, |doc.entries|);
    PersistFeed.PersistedKeepsInv(s, c, doc, at);
  }

  // ---- the invariant over runs

  /** Nothing but the lease columns, the runs and the outbox differ. */
  ghost predicate SameReading(s: Store, s': Store) {
    && s'.entries == s.entries && s'.generation == s.generation && s'.retired == s.retired
    && s'.subscriptions == s.subscriptions && s'.states == s.states
    && (forall f :: f in s.feeds ==> f in s'.feeds && s'.feeds[f].head == s.feeds[f].head)
  }

  lemma SameReadingKeepsInv(s: Store, s': Store)
    requires Inv(s) && SameReading(s, s')
    requires forall f :: f in s'.feeds ==> 0 <= s'.feeds[f].head <= I64_MAX
    requires forall key :: key in s'.outbox ==> EventInv(s', key)
    ensures Inv(s')
  {
    forall e | e in s'.entries
      ensures EntryInv(s', e)
    {
      assert EntryInv(s, e);
    }
    forall key | key in s'.subscriptions
      ensures SubscriptionInv(s', key)
    {
      assert SubscriptionInv(s, key);
    }
    forall key | key in s'.states
      ensures StateInv(s', key)
    {
      assert StateInv(s, key);
    }
  }

  lemma SubscriptionsKeepInv(s: Store, s': Store)
    requires Inv(s) && s' == s.(subscriptions := s'.subscriptions, states := s'.states)
    requires forall key :: key in s'.subscriptions ==> SubscriptionInv(s', key)
    requires forall key :: key in s'.states ==> StateInv(s', key)
    ensures Inv(s')
  {
    forall e | e in s'.entries
      ensures EntryInv(s', e)
    {
      assert EntryInv(s, e);
    }
    forall key | key in s'.outbox
      ensures EventInv(s', key)
    {
      assert EventInv(s, key);
    }
  }

  lemma PatchedRow(s: Store, u: UserId, e: EntryId, isRead: Option<bool>, isStarred: Option<bool>, key: (UserId, EntryId))
    requires Inv(s) && key in Patched(s, u, e, isRead, isStarred).states
    ensures StateInv(Patched(s, u, e, isRead, isStarred), key)
  {
    if key in s.states { assert StateInv(s, key); }
  }

  lemma PatchKeepsInv(s: Store, u: UserId, e: EntryId, isRead: Option<bool>, isStarred: Option<bool>)
    requires Inv(s)
    ensures Inv(Patched(s, u, e, isRead, isStarred))
  {
    var s' := Patched(s, u, e, isRead, isStarred);
    assert s' == s.(states := s'.states);
    forall key | key in s'.states
      ensures StateInv(s', key)
    {
      PatchedRow(s, u, e, isRead, isStarred, key);
    }
    forall key | key in s'.subscriptions
      ensures SubscriptionInv(s', key)
    {
      assert SubscriptionInv(s, key);
    }
    SubscriptionsKeepInv(s, s');
  }

  lemma SubscribeKeepsInv(s: Store, u: UserId, f: FeedId)
    requires Inv(s) && f in s.feeds
    ensures Inv(Subscribed(s, u, f))
  {
    var s' := Subscribed(s, u, f);
    forall key | key in s'.subscriptions
      ensures SubscriptionInv(s', key)
    {
      if key in s.subscriptions { assert SubscriptionInv(s, key); }
    }
    forall key | key in s'.states
      ensures StateInv(s', key)
    {
      assert StateInv(s, key);
    }
    SubscriptionsKeepInv(s, s');
  }

  lemma UnsubscribeKeepsInv(s: Store, u: UserId, f: FeedId)
    requires Inv(s)
    ensures Inv(Unsubscribed(s, u, f))
  {
    var s' := Unsubscribed(s, u, f);
    forall key | key in s'.subscriptions
      ensures SubscriptionInv(s', key)
    {
      assert SubscriptionInv(s, key);
    }
    forall key | key in s'.states
      ensures StateInv(s', key)
    {
      assert StateInv(s, key);
    }
    SubscriptionsKeepInv(s, s');
  }

  predicate IsLeaseAction(a: Action) {
    a.AddFeed? || a.ClaimRun? || a.ExtendLease? || a.EndRun? || a.LoseRun? || a.SetContentJobs?
  }

  lemma LeaseStepKeepsInv(s: Store, a: Action, s': Store)
    requires Inv(s) && Next(s, a, s') && IsLeaseAction(a)
    ensures Inv(s') && SameReading(s, s')
  {
    forall key | key in s'.outbox
      ensures EventInv(s', key)
    {
      if key in s.outbox { assert EventInv(s, key); }
    }
    SameReadingKeepsInv(s, s');
  }

  /** Every step keeps the invariant. */
  lemma NextKeepsInv(s: Store, a: Action, s': Store)
    requires Inv(s) && Next(s, a, s')
    ensures Inv(s')
  {
    match a
    case Ingest(c, doc, now, at) =>
      if PersistFeed.Refusal(s, c, doc, now, at).None? { IngestKeepsInv(s, c, doc, now, at); }
    case Mark(u, scope, feeds, snapshot) => MarkRead.ReadingKeepsInv(s, s', u, feeds);
    case Patch(u, e, isRead, isStarred) => PatchKeepsInv(s, u, e, isRead, isStarred);
    case Purge(cutoff, ids) => ArticleRetention.PurgeKeepsInv(s, ids);
    case Subscribe(u, f) => SubscribeKeepsInv(s, u, f);
    case Unsubscribe(u, f) => UnsubscribeKeepsInv(s, u, f);
    case _ => LeaseStepKeepsInv(s, a, s');
  }

  /** Every state of every run satisfies the invariant: sequences are distinct and within the head, a
      larger sequence never has a smaller generation, and live and retired identities are disjoint. */
  lemma {:induction false} RunKeepsInv(trace: seq<Store>, acts: seq<Action>, k: nat)
    requires IsRun(trace, acts) && Inv(trace[0]) && k < |trace|
    ensures Inv(trace[k])
  {
    if k > 0 {
      RunKeepsInv(trace, acts, k - 1);
      assert StepAt(trace, acts, k - 1);
      NextKeepsInv(trace[k - 1], acts[k - 1], trace[k]);
    }
  }

  lemma StepOfRun(trace: seq<Store>, acts: seq<Action>, k: nat)
    requires IsRun(trace, acts) && Inv(trace[0]) && k < |acts|
    ensures Inv(trace[k]) && StepAt(trace, acts, k) && Inv(trace[k + 1])
  {
    RunKeepsInv(trace, acts, k);
    RunKeepsInv(trace, acts, k + 1);
  }

  /** The tables of a new installation. */
  function Empty(): Store {
    Store(map[], 0, map[], {}, map[], map[], {}, map[], map[])
  }

  lemma EmptyInv()
    ensures Inv(Empty())
  {
  }
}
