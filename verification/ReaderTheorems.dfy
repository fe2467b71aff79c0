/** What holds over whole runs of the reader. */
module ReaderTheorems {
  import opened Outcomes
  import opened ReaderModel
  import opened IngestModel
  import opened Persistence
  import opened PersistLoop
  import opened ReaderRuns
  import PersistFeed
  import MarkRead
  import ArticleRetention
  import Listing

  // ---- an ingest, seen from outside

  /** What an ingest does to the entries: the old ones keep all but their content, the new ones come
      after everything else of their feed and in a generation of their own. */
  ghost predicate Extends(s: Store, s': Store, f: FeedId) {
    && s' == s.(entries := s'.entries, feeds := s'.feeds, generation := s'.generation, runs := s'.runs, outbox := s'.outbox)
    && s.generation <= s'.generation
    && (forall e :: e in s.entries ==> e in s'.entries && s'.entries[e] == s.entries[e].(content := s'.entries[e].content))
    && (forall e :: e in s'.entries && e !in s.entries ==> Appended(s, s', f, e))
  }

  ghost predicate Appended(s: Store, s': Store, f: FeedId, e: EntryId) {
    && e in s'.entries && f in s.feeds
    && s'.entries[e].feed == f
    && s'.entries[e].sequence > s.feeds[f].head
    && s'.entries[e].generation == s.generation + 1
  }

  lemma IngestExtends(s: Store, a: Action, s': Store)
    requires Inv(s) && a.Ingest? && Next(s, a, s')
    ensures Extends(s, s', a.claim.feed)
  {
    var Ingest(c, doc, now, at) := a;
    if PersistFeed.Refusal(s, c, doc, now, at).None? {
      var env := EnvOf(s, c.feed, doc.entries, at);
      PersistFeed.InvGrown(s, c.feed, doc.entries, at);
      PersistFeed.EnvExact(s, c.feed, doc.entries, at);
      assert doc.entries[..|doc.entries|] == doc.entries;
      PlainPassGrown(s.entries, s.feeds[c.feed].head, env, doc.entries, |doc.entries|);
      forall e | e in s'.entries && e !in s.entries
        ensures Appended(s, s', c.feed, e)
      {
        assert Added(s'.entries[e], env, s.feeds[c.feed].head, s'.feeds[c.feed].head);
      }
    }
  }

  lemma ExtendsKeepsStatus(s: Store, s': Store, f: FeedId, u: UserId, e: EntryId)
    requires Inv(s) && Extends(s, s', f)
    ensures Read(s', u, e) <==> Read(s, u, e)
    ensures Starred(s', u, e) <==> Starred(s, u, e)
  {
    if e in s'.entries && e !in s.entries {
      assert Appended(s, s', f, e);
      if (u, f) in s.subscriptions { assert SubscriptionInv(s, (u, f)); }
    }
  }

  // ---- refinement of a plain set of read entries

  type Marks = iset<(UserId, EntryId)>

  ghost function ReadSet(s: Store): Marks {
    iset key: (UserId, EntryId) | Read(s, key.0, key.1)
  }

  ghost function StarSet(s: Store): Marks {
    iset key: (UserId, EntryId) | Starred(s, key.0, key.1)
  }

  /** The steps on a plain set of read entries: no frontiers, no overrides. What a step adds or removes
      depends on the listed entries alone. */
  ghost function PlainRead(read: Marks, s: Store, a: Action): Marks {
    match a
    case Mark(u, _, feeds, snapshot) =>
      read + iset key: (UserId, EntryId) | key.0 == u && MarkRead.Asked(s, u, feeds, snapshot, key.1)
    case Patch(u, e, isRead, _) =>
      if !Visible(s, u, e) || isRead.None? then read
      else if isRead.value then read + iset{(u, e)} else read - iset{(u, e)}
    case Purge(_, ids) => iset key | key in read && key.1 !in ids
    case Unsubscribe(u, f) => iset key | key in read && !(key.0 == u && OfFeed(s, key.1, f))
    case _ => read
  }

  ghost function PlainStars(stars: Marks, s: Store, a: Action): Marks {
    match a
    case Patch(u, e, _, isStarred) =>
      if !Visible(s, u, e) || isStarred.None? then stars
      else if isStarred.value then stars + iset{(u, e)} else stars - iset{(u, e)}
    case Unsubscribe(u, f) => iset key | key in stars && !(key.0 == u && OfFeed(s, key.1, f))
    case _ => stars
  }

  /** The patched entry gets the status asked for, and keeps the one that is not mentioned. */
  lemma PatchSets(s: Store, u: UserId, e: EntryId, isRead: Option<bool>, isStarred: Option<bool>)
    requires Visible(s, u, e)
    ensures var s' := Patched(s, u, e, isRead, isStarred);
      && Visible(s', u, e)
      && IsRead(s', u, e) == (if isRead.Some? then isRead.value else IsRead(s, u, e))
      && IsStarred(s', u, e) == (if isStarred.Some? then isStarred.value else IsStarred(s, u, e))
  {
  }

  lemma PatchKeepsOthers(s: Store, a: Action, u: UserId, e: EntryId)
    requires a.Patch? && ((u, e) != (a.user, a.entry) || !Visible(s, u, e))
    ensures var s' := Patched(s, a.user, a.entry, a.isRead, a.isStarred);
      && (Read(s', u, e) <==> Read(s, u, e))
      && (Starred(s', u, e) <==> Starred(s, u, e))
  {
    var s' := Patched(s, a.user, a.entry, a.isRead, a.isStarred);
    assert Visible(s', u, e) <==> Visible(s, u, e);
    assert e in s.entries && (u, e) != (a.user, a.entry) ==> StateOf(s', u, e) == StateOf(s, u, e);
  }

  lemma PatchStatus(s: Store, a: Action, s': Store, u: UserId, e: EntryId)
    requires Inv(s) && a.Patch? && Next(s, a, s')
    ensures (u, e) in ReadSet(s') <==> (u, e) in PlainRead(ReadSet(s), s, a)
    ensures (u, e) in StarSet(s') <==> (u, e) in PlainStars(StarSet(s), s, a)
  {
    if (u, e) == (a.user, a.entry) && Visible(s, u, e) {
      PatchSets(s, u, e, a.isRead, a.isStarred);
    } else {
      PatchKeepsOthers(s, a, u, e);
    }
  }

  lemma PurgeStatus(s: Store, a: Action, s': Store, u: UserId, e: EntryId)
    requires Inv(s) && a.Purge? && Next(s, a, s')
    ensures (u, e) in ReadSet(s') <==> (u, e) in PlainRead(ReadSet(s), s, a)
    ensures (u, e) in StarSet(s') <==> (u, e) in PlainStars(StarSet(s), s, a)
  {
    ArticleRetention.PurgeKeepsStatus(s, a.cutoff, a.ids, u, e);
  }

  /** A new subscription starts with everything unread and nothing starred. */
  lemma SubscribeStatus(s: Store, u: UserId, f: FeedId, v: UserId, e: EntryId)
    requires Inv(s) && f in s.feeds && (u, f) !in s.subscriptions
    ensures Read(Subscribed(s, u, f), v, e) <==> Read(s, v, e)
    ensures Starred(Subscribed(s, u, f), v, e) <==> Starred(s, v, e)
  {
    if (v, e) in s.states {
      assert StateInv(s, (v, e));
    }
    if !(v == u && OfFeed(s, e, f)) {
      assert Visible(Subscribed(s, u, f), v, e) <==> Visible(s, v, e);
    }
  }

  /** An end of a subscription takes its marks with it. */
  lemma UnsubscribeStatus(s: Store, u: UserId, f: FeedId, v: UserId, e: EntryId)
    requires Inv(s)
    ensures Read(Unsubscribed(s, u, f), v, e) <==> Read(s, v, e) && !(v == u && OfFeed(s, e, f))
    ensures Starred(Unsubscribed(s, u, f), v, e) <==> Starred(s, v, e) && !(v == u && OfFeed(s, e, f))
  {
    if (v, e) in s.states {
      assert StateInv(s, (v, e));
    }
    if e in s.entries && !(v == u && OfFeed(s, e, f)) {
      assert Visible(Unsubscribed(s, u, f), v, e) <==> Visible(s, v, e);
      assert StateOf(Unsubscribed(s, u, f), v, e) == StateOf(s, v, e);
    }
  }

  lemma SubscriptionStatus(s: Store, a: Action, s': Store, u: UserId, e: EntryId)
    requires Inv(s) && (a.Subscribe? || a.Unsubscribe?) && Next(s, a, s')
    ensures (u, e) in ReadSet(s') <==> (u, e) in PlainRead(ReadSet(s), s, a)
    ensures (u, e) in StarSet(s') <==> (u, e) in PlainStars(StarSet(s), s, a)
  {
    if a.Subscribe? {
      SubscribeStatus(s, a.user, a.feed, u, e);
    } else {
      UnsubscribeStatus(s, a.user, a.feed, u, e);
    }
  }

  lemma IngestStatus(s: Store, a: Action, s': Store, u: UserId, e: EntryId)
    requires Inv(s) && a.Ingest? && Next(s, a, s')
    ensures (u, e) in ReadSet(s') <==> (u, e) in PlainRead(ReadSet(s), s, a)
    ensures (u, e) in StarSet(s') <==> (u, e) in PlainStars(StarSet(s), s, a)
  {
    IngestExtends(s, a, s');
    ExtendsKeepsStatus(s, s', a.claim.feed, u, e);
  }

  lemma MarkStatus(s: Store, a: Action, s': Store, u: UserId, e: EntryId)
    requires a.Mark? && Next(s, a, s')
    ensures (u, e) in ReadSet(s') <==> (u, e) in PlainRead(ReadSet(s), s, a)
    ensures (u, e) in StarSet(s') <==> (u, e) in PlainStars(StarSet(s), s, a)
  {
  }

  lemma SameReadingStatus(s: Store, s': Store, u: UserId, e: EntryId)
    requires SameReading(s, s')
    ensures Visible(s', u, e) <==> Visible(s, u, e)
    ensures Read(s', u, e) <==> Read(s, u, e)
    ensures Starred(s', u, e) <==> Starred(s, u, e)
  {
  }

  lemma LeaseStatus(s: Store, a: Action, s': Store, u: UserId, e: EntryId)
    requires Inv(s) && IsLeaseAction(a) && Next(s, a, s')
    ensures (u, e) in ReadSet(s') <==> (u, e) in PlainRead(ReadSet(s), s, a)
    ensures (u, e) in StarSet(s') <==> (u, e) in PlainStars(StarSet(s), s, a)
  {
    LeaseStepKeepsInv(s, a, s');
    SameReadingStatus(s, s', u, e);
  }

  /** Every step does to the read and the starred entries what the plain sets say. */
  lemma StepStatus(s: Store, a: Action, s': Store, u: UserId, e: EntryId)
    requires Inv(s) && Next(s, a, s')
    ensures (u, e) in ReadSet(s') <==> (u, e) in PlainRead(ReadSet(s), s, a)
    ensures (u, e) in StarSet(s') <==> (u, e) in PlainStars(StarSet(s), s, a)
  {
    if a.Ingest? { IngestStatus(s, a, s', u, e); }
    else if a.Mark? { MarkStatus(s, a, s', u, e); }
    else if a.Patch? { PatchStatus(s, a, s', u, e); }
    else if a.Purge? { PurgeStatus(s, a, s', u, e); }
    else if a.Subscribe? || a.Unsubscribe? { SubscriptionStatus(s, a, s', u, e); }
    else { LeaseStatus(s, a, s', u, e); }
  }

  ghost function ReplayRead(read: Marks, trace: seq<Store>, acts: seq<Action>, k: nat): Marks
    requires k <= |acts| < |trace|
  {
    if k == 0 then read else PlainRead(ReplayRead(read, trace, acts, k - 1), trace[k - 1], acts[k - 1])
  }

  ghost function ReplayStars(stars: Marks, trace: seq<Store>, acts: seq<Action>, k: nat): Marks
    requires k <= |acts| < |trace|
  {
    if k == 0 then stars else PlainStars(ReplayStars(stars, trace, acts, k - 1), trace[k - 1], acts[k - 1])
  }

  lemma StepRefines(trace: seq<Store>, acts: seq<Action>, k: nat)
    requires IsRun(trace, acts) && Inv(trace[0]) && k < |acts|
    ensures ReadSet(trace[k + 1]) == PlainRead(ReadSet(trace[k]), trace[k], acts[k])
    ensures StarSet(trace[k + 1]) == PlainStars(StarSet(trace[k]), trace[k], acts[k])
  {
    var s, a, s' := trace[k], acts[k], trace[k + 1];
    StepOfRun(trace, acts, k);
    forall key: (UserId, EntryId)
      ensures key in ReadSet(s') <==> key in PlainRead(ReadSet(s), s, a)
      ensures key in StarSet(s') <==> key in PlainStars(StarSet(s), s, a)
    {
      StepStatus(s, a, s', key.0, key.1);
    }
  }

  /** Frontiers with overrides refine a plain set of read entries and one of starred entries, over
      every run of all operations. */
  lemma {:induction false} RunsRefinePlainSets(trace: seq<Store>, acts: seq<Action>, k: nat)
    requires IsRun(trace, acts) && Inv(trace[0]) && k < |trace|
    ensures ReadSet(trace[k]) == ReplayRead(ReadSet(trace[0]), trace, acts, k)
    ensures StarSet(trace[k]) == ReplayStars(StarSet(trace[0]), trace, acts, k)
  {
    if k > 0 {
      RunsRefinePlainSets(trace, acts, k - 1);
      StepRefines(trace, acts, k - 1);
    }
  }

  // ---- purged articles never come back

  lemma RetiredGrows(trace: seq<Store>, acts: seq<Action>, k: nat)
    requires IsRun(trace, acts) && Inv(trace[0]) && k < |acts|
    ensures trace[k].retired <= trace[k + 1].retired
  {
    StepOfRun(trace, acts, k);
    RetiredGrowsInStep(trace[k], acts[k], trace[k + 1]);
  }

  lemma RetiredGrowsInStep(s: Store, a: Action, s': Store)
    requires Inv(s) && Next(s, a, s')
    ensures s.retired <= s'.retired
  {
    if a.Ingest? { IngestExtends(s, a, s'); }
  }

  lemma RetiredIsNotLive(s: Store, f: FeedId, h: Hash)
    requires Inv(s) && (f, h) in s.retired
    ensures !Live(s.entries, f, h)
  {
    forall e | e in s.entries
      ensures !LiveWith(s.entries, f, h, e)
    {
      assert EntryInv(s, e);
    }
  }

  lemma {:induction false} StaysRetired(trace: seq<Store>, acts: seq<Action>, i: nat, j: nat, f: FeedId, h: Hash)
    requires IsRun(trace, acts) && Inv(trace[0]) && i <= j < |trace| && (f, h) in trace[i].retired
    ensures (f, h) in trace[j].retired
  {
    if i < j {
      StaysRetired(trace, acts, i, j - 1, f, h);
      RetiredGrows(trace, acts, j - 1);
    }
  }

  /** A retired identity stays retired, and in no later state is an entry live under it. */
  lemma RetiredForever(trace: seq<Store>, acts: seq<Action>, i: nat, j: nat, f: FeedId, h: Hash)
    requires IsRun(trace, acts) && Inv(trace[0]) && i <= j < |trace| && (f, h) in trace[i].retired
    ensures (f, h) in trace[j].retired && !Live(trace[j].entries, f, h)
  {
    StaysRetired(trace, acts, i, j, f, h);
    RunKeepsInv(trace, acts, j);
    RetiredIsNotLive(trace[j], f, h);
  }

  /** A purged article never comes back, whatever is ingested later. */
  lemma PurgedNeverReturns(trace: seq<Store>, acts: seq<Action>, i: nat, j: nat, e: EntryId)
    requires IsRun(trace, acts) && Inv(trace[0]) && i < j < |trace|
    requires acts[i].Purge? && e in acts[i].ids
    ensures e in trace[i].entries && !Live(trace[j].entries, trace[i].entries[e].feed, trace[i].entries[e].identity.hash)
  {
    var ids := acts[i].ids;
    StepOfRun(trace, acts, i);
    var n :| 0 <= n < |ids| && ids[n] == e;
    assert ArticleRetention.Purgeable(trace[i], acts[i].cutoff, ids[n]);
    assert (trace[i].entries[e].feed, trace[i].entries[e].identity.hash) in ArticleRetention.Tombstones(trace[i], ids);
    RetiredForever(trace, acts, i + 1, j, trace[i].entries[e].feed, trace[i].entries[e].identity.hash);
  }

  // ---- articles stay unread until they have been seen

  lemma GenerationsGrow(trace: seq<Store>, acts: seq<Action>, k: nat, e: EntryId)
    requires IsRun(trace, acts) && Inv(trace[0]) && k < |acts|
    ensures var s, s' := trace[k], trace[k + 1];
      && s.generation <= s'.generation
      && (e in s'.entries ==> s'.entries[e].generation <= s'.generation)
      && (e in s.entries && e in s'.entries ==> s'.entries[e].generation == s.entries[e].generation)
      && (e !in s.entries && e in s'.entries ==> s'.entries[e].generation > s.generation)
  {
    StepOfRun(trace, acts, k);
    EntriesKept(trace[k], acts[k], trace[k + 1], e);
    if acts[k].Ingest? { IngestExtends(trace[k], acts[k], trace[k + 1]); }
    if e in trace[k + 1].entries { assert EntryInv(trace[k + 1], e); }
  }

  /** A step makes an entry read only if the user patches it or marks as read from a late snapshot. */
  lemma StaysUnread(trace: seq<Store>, acts: seq<Action>, k: nat, u: UserId, e: EntryId)
    requires IsRun(trace, acts) && Inv(trace[0]) && k < |acts| && !Read(trace[k], u, e)
    requires acts[k].Patch? ==> (acts[k].user, acts[k].entry) != (u, e)
    requires acts[k].Mark? && acts[k].user == u && e in trace[k].entries ==> acts[k].snapshot < trace[k].entries[e].generation
    ensures !Read(trace[k + 1], u, e)
  {
    StepRefines(trace, acts, k);
    assert (u, e) !in ReadSet(trace[k]);
    assert (u, e) !in PlainRead(ReadSet(trace[k]), trace[k], acts[k]);
    assert (u, e) !in ReadSet(trace[k + 1]);
  }

  /** The user does nothing about the entry between two states: no patch, and no mark-read at a
      snapshot that includes generation `g`. */
  ghost predicate Untouched(acts: seq<Action>, i: nat, j: nat, u: UserId, e: EntryId, g: int)
    requires j <= |acts|
  {
    forall k :: i <= k < j ==>
      && (acts[k].Patch? ==> (acts[k].user, acts[k].entry) != (u, e))
      && (acts[k].Mark? && acts[k].user == u ==> acts[k].snapshot < g)
  }

  /** A newly ingested entry is unread for everybody, and stays unread for a user until the user
      patches it or marks as read at a snapshot that includes it: requests made from older
      snapshots cannot reach it, nor can anything that others do. */
  lemma {:induction false} UnreadUntilSeen(trace: seq<Store>, acts: seq<Action>, i: nat, j: nat, u: UserId, e: EntryId)
    requires IsRun(trace, acts) && Inv(trace[0]) && i < j < |trace|
    requires e !in trace[i].entries && e in trace[i + 1].entries
    requires Untouched(acts, i, j, u, e, trace[i + 1].entries[e].generation)
    ensures !Read(trace[j], u, e)
    ensures trace[j].generation >= trace[i + 1].entries[e].generation
    ensures e in trace[j].entries ==> trace[j].entries[e].generation >= trace[i + 1].entries[e].generation
  {
    GenerationsGrow(trace, acts, j - 1, e);
    if i + 1 < j {
      UnreadUntilSeen(trace, acts, i, j - 1, u, e);
    }
    StaysUnread(trace, acts, j - 1, u, e);
  }

  // ---- paging

  /** Listings of everything, without search terms. */
  predicate Plain(f: Listing.Filter) {
    f.state.All? && f.search.None?
  }

  predicate Steady(a: Action, u: UserId) {
    !(a.Subscribe? && a.user == u) && !(a.Unsubscribe? && a.user == u)
  }

  lemma SubscriptionsKept(s: Store, a: Action, s': Store, key: (UserId, FeedId))
    requires Inv(s) && Next(s, a, s') && Steady(a, key.0)
    ensures key in s'.subscriptions <==> key in s.subscriptions
    ensures key in s.subscriptions ==>
      && s'.subscriptions[key].startSequence == s.subscriptions[key].startSequence
      && s'.subscriptions[key].category == s.subscriptions[key].category
  {
    if a.Mark? && key in s.subscriptions {
      assert MarkRead.SubscriptionKept(s, s', a.user, a.feeds, key);
    }
  }

  lemma EntriesKept(s: Store, a: Action, s': Store, e: EntryId)
    requires Inv(s) && Next(s, a, s')
    ensures e in s.entries && (!a.Purge? || e !in a.ids) ==>
      && e in s'.entries
      && s'.entries[e] == s.entries[e].(content := s'.entries[e].content)
    ensures e in s.entries && a.Purge? && e in a.ids ==> e !in s'.entries
    ensures e !in s.entries && e in s'.entries ==> s'.entries[e].generation > s.generation
  {
    if a.Ingest? {
      IngestExtends(s, a, s');
      if e in s'.entries && e !in s.entries { assert Appended(s, s', a.claim.feed, e); }
    }
  }

  /** What matches at a snapshot already taken neither grows nor moves, and shrinks by purges only. */
  lemma StepMatches(s: Store, a: Action, s': Store, f: Listing.Filter, snapshot: int, e: EntryId)
    requires Inv(s) && Next(s, a, s') && Steady(a, f.user) && Plain(f) && snapshot <= s.generation
    ensures Listing.Matches(s', f, snapshot, e) <==> Listing.Matches(s, f, snapshot, e) && !(a.Purge? && e in a.ids)
    ensures Listing.Matches(s', f, snapshot, e) ==> Listing.KeyOf(s', e) == Listing.KeyOf(s, e)
  {
    EntriesKept(s, a, s', e);
    if e in s.entries {
      SubscriptionsKept(s, a, s', (f.user, s.entries[e].feed));
    }
  }

  /** The states that the pages are read from, in the order of the run. */
  ghost predicate ReadAt(trace: seq<Store>, at: seq<nat>, states: seq<Store>) {
    && |at| == |states| > 0
    && (forall k :: 0 <= k < |at| ==> at[k] < |trace| && states[k] == trace[at[k]])
    && (forall k :: 0 <= k < |at| - 1 ==> at[k] <= at[k + 1])
  }

  ghost predicate SteadyRun(trace: seq<Store>, acts: seq<Action>, u: UserId) {
    && IsRun(trace, acts) && Inv(trace[0])
    && (forall k :: 0 <= k < |acts| ==> Steady(acts[k], u))
  }

  lemma {:induction false} GenerationsAlong(trace: seq<Store>, acts: seq<Action>, i: nat, j: nat)
    requires IsRun(trace, acts) && Inv(trace[0]) && i <= j < |trace|
    ensures trace[i].generation <= trace[j].generation
  {
    if i < j {
      GenerationsAlong(trace, acts, i, j - 1);
      GenerationsGrow(trace, acts, j - 1, 0);
    }
  }

  lemma MatchesAt(trace: seq<Store>, acts: seq<Action>, k: nat, f: Listing.Filter, snapshot: int, e: EntryId)
    requires SteadyRun(trace, acts, f.user) && Plain(f) && k < |acts| && snapshot <= trace[k].generation
    ensures Listing.Matches(trace[k + 1], f, snapshot, e) <==>
      Listing.Matches(trace[k], f, snapshot, e) && !(acts[k].Purge? && e in acts[k].ids)
    ensures Listing.Matches(trace[k + 1], f, snapshot, e) ==> Listing.KeyOf(trace[k + 1], e) == Listing.KeyOf(trace[k], e)
  {
    StepOfRun(trace, acts, k);
    StepMatches(trace[k], acts[k], trace[k + 1], f, snapshot, e);
  }

  /** Between two states of a run a listing loses exactly the entries purged in between. */
  lemma {:induction false} MatchesAlong(trace: seq<Store>, acts: seq<Action>, i: nat, j: nat, f: Listing.Filter,
        snapshot: int, e: EntryId)
    requires SteadyRun(trace, acts, f.user) && Plain(f) && i <= j < |trace| && snapshot <= trace[i].generation
    ensures Listing.Matches(trace[j], f, snapshot, e) <==>
      Listing.Matches(trace[i], f, snapshot, e) && forall k :: i <= k < j ==> !(acts[k].Purge? && e in acts[k].ids)
    ensures Listing.Matches(trace[j], f, snapshot, e) ==> Listing.KeyOf(trace[j], e) == Listing.KeyOf(trace[i], e)
  {
    if i < j {
      MatchesAlong(trace, acts, i, j - 1, f, snapshot, e);
      GenerationsAlong(trace, acts, i, j - 1);
      MatchesAt(trace, acts, j - 1, f, snapshot, e);
    }
  }

  lemma {:induction false} AtGrows(at: seq<nat>, k: nat)
    requires k < |at| && forall n :: 0 <= n < |at| - 1 ==> at[n] <= at[n + 1]
    ensures at[0] <= at[k]
  {
    if k > 0 { AtGrows(at, k - 1); }
  }

  lemma PagesShrink(trace: seq<Store>, acts: seq<Action>, at: seq<nat>, states: seq<Store>, f: Listing.Filter, snapshot: int)
    requires SteadyRun(trace, acts, f.user) && Plain(f) && ReadAt(trace, at, states) && snapshot <= states[0].generation
    ensures Listing.ShrinksAlong(states, f, snapshot)
  {
    forall k | 0 <= k < |states| - 1
      ensures Listing.Shrinks(states[k], states[k + 1], f, snapshot)
    {
      AtGrows(at, k);
      GenerationsAlong(trace, acts, at[0], at[k]);
      forall e | Listing.Matches(states[k + 1], f, snapshot, e)
        ensures Listing.Matches(states[k], f, snapshot, e) && states[k + 1].entries[e].sortAtUs == states[k].entries[e].sortAtUs
      {
        MatchesAlong(trace, acts, at[k], at[k + 1], f, snapshot, e);
      }
    }
  }

  /** Following the cursors to the end of a listing, while the store runs on. The entries listed are in
      strict order, all of them matched when the snapshot was taken, and one that matched then is
      missing only if it was purged since. */
  lemma PagesListTheSnapshot(trace: seq<Store>, acts: seq<Action>, taken: nat, at: seq<nat>, states: seq<Store>,
        pages: seq<Listing.Page>, f: Listing.Filter, limit: nat)
    requires SteadyRun(trace, acts, f.user) && Plain(f) && ReadAt(trace, at, states) && taken <= at[0]
    requires Listing.Walk(states, pages, f, limit, None, trace[taken].generation)
    ensures Listing.Sorted(Listing.Listed(pages))
    ensures forall i :: 0 <= i < |Listing.Listed(pages)| ==>
      var item := Listing.Listed(pages)[i];
      && Listing.Matches(trace[taken], f, trace[taken].generation, item.key.id)
      && item.key == Listing.KeyOf(trace[taken], item.key.id)
    ensures forall e :: Listing.Matches(trace[taken], f, trace[taken].generation, e) && !Listing.Holds(Listing.Listed(pages), e) ==>
      exists k :: taken <= k < |acts| && acts[k].Purge? && e in acts[k].ids
  {
    var snapshot := trace[taken].generation;
    var n := |states| - 1;
    GenerationsAlong(trace, acts, taken, at[0]);
    PagesShrink(trace, acts, at, states, f, snapshot);
    Listing.WalkLists(states, pages, f, limit, None, snapshot);
    AtGrows(at, n);
    forall i | 0 <= i < |Listing.Listed(pages)|
      ensures Listing.Matches(trace[taken], f, snapshot, Listing.Listed(pages)[i].key.id)
      ensures Listing.Listed(pages)[i].key == Listing.KeyOf(trace[taken], Listing.Listed(pages)[i].key.id)
    {
      MatchesAlong(trace, acts, taken, at[0], f, snapshot, Listing.Listed(pages)[i].key.id);
    }
    forall e | Listing.Matches(trace[taken], f, snapshot, e) && !Listing.Holds(Listing.Listed(pages), e)
      ensures exists k :: taken <= k < |acts| && acts[k].Purge? && e in acts[k].ids
    {
      MatchesAlong(trace, acts, taken, at[n], f, snapshot, e);
      assert !Listing.Candidate(states[n], f, snapshot, None, e);
    }
  }

  /** A patch that changes the stored state of an entry moves its revision on by one. */
  lemma PatchMovesRevision(s: Store, u: UserId, e: EntryId, isRead: Option<bool>, isStarred: Option<bool>)
    requires Inv(s) && Patched(s, u, e, isRead, isStarred) != s && (u, e) in Patched(s, u, e, isRead, isStarred).states
    ensures Patched(s, u, e, isRead, isStarred).states[(u, e)].revision ==
      if (u, e) in s.states then s.states[(u, e)].revision + 1 else 1
  {
    if (u, e) in s.states { assert StateInv(s, (u, e)); }
  }
}
