/** Marking everything up to a snapshot as read (`src/feeds/bulk_read.rs`). */
module MarkRead {
  import opened Outcomes
  import opened ReaderModel

  datatype Scope = Everything | OneFeed(feed: FeedId) | OneCategory(category: CategoryId)

  datatype Failure = InvalidUserId | InvalidSnapshotGeneration | CorruptData

  const U16_MAX: nat := 0xffff

  predicate InScope(scope: Scope, feed: FeedId, sub: Subscription) {
    match scope
    case Everything => true
    case OneFeed(f) => feed == f
    case OneCategory(c) => sub.category == Some(c)
  }

  /** The subscriptions that `lock_target_subscriptions` selects. */
  predicate Selected(s: Store, u: UserId, scope: Scope, f: FeedId) {
    (u, f) in s.subscriptions && InScope(scope, f, s.subscriptions[(u, f)])
  }

  // ---- one subscription, as the statements treat it

  /** An entry counted by the `MAX(feed_sequence)` query. */
  predicate Counted(s: Store, f: FeedId, start: int, snapshot: int, e: EntryId) {
    && e in s.entries
    && s.entries[e].feed == f
    && s.entries[e].sequence > start
    && s.entries[e].generation <= snapshot
  }

  /** The result of that query. */
  ghost predicate IsTarget(s: Store, f: FeedId, start: int, snapshot: int, target: Option<int>) {
    match target
    case None => forall e :: !Counted(s, f, start, snapshot, e)
    case Some(t) =>
      && (exists e :: Counted(s, f, start, snapshot, e) && s.entries[e].sequence == t)
      && (forall e :: Counted(s, f, start, snapshot, e) ==> s.entries[e].sequence <= t)
  }

  /** The state rows with an override in the range that both statements address. */
  predicate InRange(s: Store, u: UserId, f: FeedId, start: int, target: int, key: (UserId, EntryId)) {
    && key in s.states
    && key.0 == u
    && s.states[key].feed == f
    && start < s.states[key].sequence <= target
    && s.states[key].readOverride.Some?
  }

  function ClearStarred(s: Store, u: UserId, f: FeedId, start: int, target: int): Store {
    s.(states := map key | key in s.states ::
      if InRange(s, u, f, start, target, key) && s.states[key].starred
      then s.states[key].(readOverride := None, revision := s.states[key].revision + 1)
      else s.states[key])
  }

  function DeleteNeutral(s: Store, u: UserId, f: FeedId, start: int, target: int): Store {
    s.(states := map key | key in s.states && !(InRange(s, u, f, start, target, key) && !s.states[key].starred) ::
      s.states[key])
  }

  function Max(a: int, b: int): int {
    if a >= b then a else b
  }

  // ---- the whole transaction, as a plain set operation

  /** The query result of `lock_target_subscriptions`: each selected subscription once. */
  ghost predicate Lists(s: Store, u: UserId, scope: Scope, feeds: seq<FeedId>) {
    && Distinct(feeds)
    && (forall f :: f in feeds <==> Selected(s, u, scope, f))
  }

  /** The entries that the request asks to mark: visible, of the feeds, ingested by the snapshot. */
  ghost predicate Asked(s: Store, u: UserId, feeds: seq<FeedId>, snapshot: int, e: EntryId) {
    Visible(s, u, e) && s.entries[e].feed in feeds && s.entries[e].generation <= snapshot
  }

  /** Nothing but overrides and frontiers of one user, for some feeds, changed; frontiers moved forward. */
  ghost predicate OnlyReading(s: Store, s': Store, u: UserId, feeds: seq<FeedId>) {
    && s' == s.(subscriptions := s'.subscriptions, states := s'.states)
    && s'.subscriptions.Keys == s.subscriptions.Keys
    && s'.states.Keys <= s.states.Keys
    && (forall key :: key in s.subscriptions ==> SubscriptionKept(s, s', u, feeds, key))
    && (forall key :: key in s.states ==> StateKept(s, s', u, feeds, key))
  }

  ghost predicate SubscriptionKept(s: Store, s': Store, u: UserId, feeds: seq<FeedId>, key: (UserId, FeedId))
    requires key in s.subscriptions && key in s'.subscriptions
  {
    var sub, sub' := s.subscriptions[key], s'.subscriptions[key];
    && sub' == sub.(readThrough := sub'.readThrough, revision := sub'.revision)
    && sub.readThrough <= sub'.readThrough
    && (key.1 in s.feeds && sub.readThrough <= s.feeds[key.1].head ==> sub'.readThrough <= s.feeds[key.1].head)
    && sub.revision <= sub'.revision
    && (key.0 != u || key.1 !in feeds ==> sub' == sub)
  }

  ghost predicate StateKept(s: Store, s': Store, u: UserId, feeds: seq<FeedId>, key: (UserId, EntryId))
    requires key in s.states
  {
    && (key in s'.states ==>
      s'.states[key] == s.states[key].(
        readOverride := s'.states[key].readOverride, revision := s'.states[key].revision))
    && (key.0 != u || s.states[key].feed !in feeds ==> key in s'.states && s'.states[key] == s.states[key])
  }

  /** What the request means: exactly the entries asked for become read, all others keep their
      status, and stars stay. */
  ghost predicate MarksRead(s: Store, s': Store, u: UserId, feeds: seq<FeedId>, snapshot: int) {
    && OnlyReading(s, s', u, feeds)
    && (forall v, e :: Visible(s', v, e) <==> Visible(s, v, e))
    && (forall v, e :: Read(s', v, e) <==> Read(s, v, e) || (v == u && Asked(s, u, feeds, snapshot, e)))
    && (forall v, e :: Starred(s', v, e) <==> Starred(s, v, e))
  }

  // ---- one subscription

  function Advance(s: Store, key: (UserId, FeedId), frontier: int): Store
    requires key in s.subscriptions
  {
    s.(subscriptions := s.subscriptions[key := s.subscriptions[key].(
      readThrough := frontier, revision := s.subscriptions[key].revision + 1)])
  }

  /** The state after the two statements and the frontier update for one subscription. */
  function MarkOne(s: Store, u: UserId, f: FeedId, target: int): Store
    requires (u, f) in s.subscriptions
  {
    var sub := s.subscriptions[(u, f)];
    var cleared := DeleteNeutral(ClearStarred(s, u, f, sub.startSequence, target), u, f, sub.startSequence, target);
    if cleared == s && target <= sub.readThrough then s
    else Advance(cleared, (u, f), Max(sub.readThrough, target))
  }

  /** The sequence bound says the same as the generation bound, because ingest hands out sequences
      and generations in the same order. */
  lemma BoundsAgree(s: Store, f: FeedId, start: int, snapshot: int, target: int, e: EntryId)
    requires Inv(s) && IsTarget(s, f, start, snapshot, Some(target))
    requires e in s.entries && s.entries[e].feed == f && s.entries[e].sequence > start
    ensures s.entries[e].sequence <= target <==> s.entries[e].generation <= snapshot
  {
    var last :| Counted(s, f, start, snapshot, last) && s.entries[last].sequence == target;
    if e != last {
      assert Ordered(s.entries[e], s.entries[last]);
    }
    if s.entries[e].generation <= snapshot {
      assert Counted(s, f, start, snapshot, e);
    }
  }

  /** The states after the two statements, row by row. */
  lemma StatesAfter(s: Store, u: UserId, f: FeedId, target: int, key: (UserId, EntryId))
    requires (u, f) in s.subscriptions && key in s.states
    ensures var s' := MarkOne(s, u, f, target); var start := s.subscriptions[(u, f)].startSequence;
      if InRange(s, u, f, start, target, key) then
        if s.states[key].starred
        then key in s'.states &&
          s'.states[key] == s.states[key].(readOverride := None, revision := s.states[key].revision + 1)
        else key !in s'.states
      else key in s'.states && s'.states[key] == s.states[key]
  {
    var start := s.subscriptions[(u, f)].startSequence;
    var first := ClearStarred(s, u, f, start, target);
    var second := DeleteNeutral(first, u, f, start, target);
    assert MarkOne(s, u, f, target).states == second.states;
    if InRange(s, u, f, start, target, key) {
      assert InRange(first, u, f, start, target, key) <==> !s.states[key].starred;
    }
  }

  /** Changing overrides and moving frontiers within the sequence heads keeps the invariant. */
  lemma ReadingKeepsInv(s: Store, s': Store, u: UserId, feeds: seq<FeedId>)
    requires Inv(s) && OnlyReading(s, s', u, feeds)
    ensures Inv(s')
  {
    forall e | e in s'.entries
      ensures EntryInv(s', e)
    {
      assert EntryInv(s, e);
    }
    forall key | key in s'.states
      ensures StateInv(s', key)
    {
      assert StateInv(s, key) && StateKept(s, s', u, feeds, key);
    }
    forall key | key in s'.subscriptions
      ensures SubscriptionInv(s', key)
    {
      assert SubscriptionInv(s, key) && SubscriptionKept(s, s', u, feeds, key);
    }
    forall key | key in s'.outbox
      ensures EventInv(s', key)
    {
      assert EventInv(s, key);
    }
  }

  lemma MarkOneKeeps(s: Store, u: UserId, f: FeedId, target: int)
    requires (u, f) in s.subscriptions && f in s.feeds && target <= s.feeds[f].head
    ensures OnlyReading(s, MarkOne(s, u, f, target), u, [f])
  {
    forall key | key in s.states
      ensures StateKept(s, MarkOne(s, u, f, target), u, [f], key)
    {
      StatesAfter(s, u, f, target, key);
    }
  }

  lemma MarkOneStatus(s: Store, u: UserId, f: FeedId, snapshot: int, target: int, v: UserId, e: EntryId)
    requires Inv(s) && (u, f) in s.subscriptions
    requires IsTarget(s, f, s.subscriptions[(u, f)].startSequence, snapshot, Some(target))
    ensures var s' := MarkOne(s, u, f, target);
      && (Visible(s', v, e) <==> Visible(s, v, e))
      && (Read(s', v, e) <==> Read(s, v, e) || (v == u && Asked(s, u, [f], snapshot, e)))
      && (Starred(s', v, e) <==> Starred(s, v, e))
  {
    if v == u && OfFeed(s, e, f) && Visible(s, u, e) {
      MarkOneOwn(s, u, f, snapshot, target, e);
    } else {
      MarkOneOther(s, u, f, target, v, e);
    }
  }

  lemma OtherStateAfter(s: Store, u: UserId, f: FeedId, target: int, v: UserId, e: EntryId)
    requires Inv(s) && (u, f) in s.subscriptions && e in s.entries && !(v == u && s.entries[e].feed == f)
    ensures MarkOne(s, u, f, target).entries == s.entries
    ensures StateOf(MarkOne(s, u, f, target), v, e) == StateOf(s, v, e)
  {
    if (v, e) in s.states {
      StatesAfter(s, u, f, target, (v, e));
      assert StateInv(s, (v, e));
    }
  }

  /** Entries of other feeds, and everything of other users, keep their status. */
  lemma MarkOneOther(s: Store, u: UserId, f: FeedId, target: int, v: UserId, e: EntryId)
    requires Inv(s) && (u, f) in s.subscriptions && !(v == u && OfFeed(s, e, f) && Visible(s, u, e))
    ensures var s' := MarkOne(s, u, f, target);
      && (Visible(s', v, e) <==> Visible(s, v, e))
      && (Read(s', v, e) <==> Read(s, v, e))
      && (Starred(s', v, e) <==> Starred(s, v, e))
  {
    if e in s.entries && !(v == u && s.entries[e].feed == f) {
      OtherStateAfter(s, u, f, target, v, e);
    }
  }

  lemma MarkOneOwn(s: Store, u: UserId, f: FeedId, snapshot: int, target: int, e: EntryId)
    requires Inv(s) && (u, f) in s.subscriptions && OfFeed(s, e, f) && Visible(s, u, e)
    requires IsTarget(s, f, s.subscriptions[(u, f)].startSequence, snapshot, Some(target))
    ensures var s' := MarkOne(s, u, f, target);
      && Visible(s', u, e)
      && (IsRead(s', u, e) <==> IsRead(s, u, e) || s.entries[e].generation <= snapshot)
      && (IsStarred(s', u, e) <==> IsStarred(s, u, e))
  {
    BoundsAgree(s, f, s.subscriptions[(u, f)].startSequence, snapshot, target, e);
    OwnStateAfter(s, u, f, target, e);
  }

  /** An entry up to the target loses its override; the star stays. */
  lemma OwnStateAfter(s: Store, u: UserId, f: FeedId, target: int, e: EntryId)
    requires Inv(s) && (u, f) in s.subscriptions && OfFeed(s, e, f) && Visible(s, u, e)
    ensures var s' := MarkOne(s, u, f, target); var before := StateOf(s, u, e);
      && s'.entries == s.entries
      && if before.Some? && before.value.readOverride.Some? && s.entries[e].sequence <= target
         then StateOf(s', u, e) == if before.value.starred
           then Some(before.value.(readOverride := None, revision := before.value.revision + 1)) else None
         else StateOf(s', u, e) == before
  {
    if (u, e) in s.states {
      StatesAfter(s, u, f, target, (u, e));
      assert StateInv(s, (u, e));
    }
  }

  lemma MarkOneExact(s: Store, u: UserId, f: FeedId, snapshot: int, target: int)
    requires Inv(s) && (u, f) in s.subscriptions
    requires IsTarget(s, f, s.subscriptions[(u, f)].startSequence, snapshot, Some(target))
    ensures MarksRead(s, MarkOne(s, u, f, target), u, [f], snapshot)
  {
    var last :| Counted(s, f, s.subscriptions[(u, f)].startSequence, snapshot, last) && s.entries[last].sequence == target;
    assert EntryInv(s, last) && SubscriptionInv(s, (u, f));
    MarkOneKeeps(s, u, f, target);
    forall v, e
      ensures var s' := MarkOne(s, u, f, target);
        && (Visible(s', v, e) <==> Visible(s, v, e))
        && (Read(s', v, e) <==> Read(s, v, e) || (v == u && Asked(s, u, [f], snapshot, e)))
        && (Starred(s', v, e) <==> Starred(s, v, e))
    {
      MarkOneStatus(s, u, f, snapshot, target, v, e);
    }
  }

  /** A subscription without an entry to mark has nothing asked of it. */
  lemma NothingAsked(s: Store, u: UserId, f: FeedId, snapshot: int)
    requires (u, f) in s.subscriptions
    requires IsTarget(s, f, s.subscriptions[(u, f)].startSequence, snapshot, None)
    ensures MarksRead(s, s, u, [f], snapshot)
  {
    forall e
      ensures !Asked(s, u, [f], snapshot, e)
    {
      assert !Counted(s, f, s.subscriptions[(u, f)].startSequence, snapshot, e);
    }
  }

  lemma MarksReadTwice(s: Store, m: Store, t: Store, u: UserId, done: seq<FeedId>, f: FeedId, snapshot: int)
    requires MarksRead(s, m, u, done, snapshot) && MarksRead(m, t, u, [f], snapshot)
    ensures MarksRead(s, t, u, done + [f], snapshot)
  {
    forall key | key in s.states
      ensures StateKept(s, t, u, done + [f], key)
    {
      assert StateKept(s, m, u, done, key);
      if key in m.states { assert StateKept(m, t, u, [f], key); }
    }
    forall key | key in s.subscriptions
      ensures SubscriptionKept(s, t, u, done + [f], key)
    {
      assert SubscriptionKept(s, m, u, done, key);
      assert SubscriptionKept(m, t, u, [f], key);
    }
    forall v, e
      ensures Read(t, v, e) <==> Read(s, v, e) || (v == u && Asked(s, u, done + [f], snapshot, e))
    {
      assert Asked(m, u, [f], snapshot, e) <==> Asked(s, u, [f], snapshot, e);
      assert Read(m, v, e) <==> Read(s, v, e) || (v == u && Asked(s, u, done, snapshot, e));
    }
  }

  /** The subscriptions that a request has changed. */
  ghost function Changed(s: Store, s': Store): set<(UserId, FeedId)> {
    set key | key in s.subscriptions && key in s'.subscriptions && s'.subscriptions[key] != s.subscriptions[key]
  }

  lemma ChangedByOne(s: Store, m: Store, u: UserId, done: seq<FeedId>, f: FeedId, target: int)
    requires OnlyReading(s, m, u, done) && f !in done && (u, f) in m.subscriptions
    ensures var t := MarkOne(m, u, f, target);
      |Changed(s, t)| == |Changed(s, m)| + if t == m then 0 else 1
  {
    var t := MarkOne(m, u, f, target);
    assert SubscriptionKept(s, m, u, done, (u, f));
    if t != m {
      assert t.subscriptions[(u, f)].revision != m.subscriptions[(u, f)].revision;
      assert (u, f) !in Changed(s, m);
      assert Changed(s, t) == Changed(s, m) + {(u, f)};
    }
  }

  // ---- what the scopes mean

  /** A visible entry that had been ingested by the snapshot. */
  ghost predicate SeenBy(s: Store, u: UserId, snapshot: int, e: EntryId) {
    Visible(s, u, e) && s.entries[e].generation <= snapshot
  }

  /** The user has put the feed of the entry into the category. */
  ghost predicate FiledUnder(s: Store, u: UserId, c: CategoryId, e: EntryId) {
    && e in s.entries
    && (u, s.entries[e].feed) in s.subscriptions
    && s.subscriptions[(u, s.entries[e].feed)].category == Some(c)
  }

  /** Exactly these entries have become read for the user: all visible ones ingested by the snapshot,
      those of one feed, or those of the feeds that the user has put into one category. Every other
      entry, and every other user's, has kept its status, and every star has stayed. */
  ghost predicate MarkedInScope(s: Store, s': Store, u: UserId, scope: Scope, snapshot: int) {
    && (forall v, e :: Starred(s', v, e) <==> Starred(s, v, e))
    && match scope
       case Everything => forall v, e ::
         Read(s', v, e) <==> Read(s, v, e) || (v == u && SeenBy(s, u, snapshot, e))
       case OneFeed(f) => forall v, e ::
         Read(s', v, e) <==> Read(s, v, e) || (v == u && SeenBy(s, u, snapshot, e) && s.entries[e].feed == f)
       case OneCategory(c) => forall v, e ::
         Read(s', v, e) <==> Read(s, v, e) || (v == u && SeenBy(s, u, snapshot, e) && FiledUnder(s, u, c, e))
  }

  lemma MarksScope(s: Store, s': Store, u: UserId, scope: Scope, feeds: seq<FeedId>, snapshot: int)
    requires Lists(s, u, scope, feeds) && MarksRead(s, s', u, feeds, snapshot)
    ensures MarkedInScope(s, s', u, scope, snapshot)
  {
    forall e | SeenBy(s, u, snapshot, e)
      ensures scope.Everything? ==> s.entries[e].feed in feeds
      ensures scope.OneFeed? ==> (s.entries[e].feed in feeds <==> s.entries[e].feed == scope.feed)
      ensures scope.OneCategory? ==> (s.entries[e].feed in feeds <==> FiledUnder(s, u, scope.category, e))
    {
      assert s.entries[e].feed in feeds <==> Selected(s, u, scope, s.entries[e].feed);
    }
    forall v, e
      ensures Read(s', v, e) <==> Read(s, v, e) || (v == u && SeenBy(s, u, snapshot, e) && s.entries[e].feed in feeds)
    {
      assert Asked(s, u, feeds, snapshot, e) <==> SeenBy(s, u, snapshot, e) && s.entries[e].feed in feeds;
    }
  }

  class FeedRepository {
    var store: Store

    constructor (store: Store)
      ensures this.store == store
    {
      this.store := store;
    }

    /** The `MAX(feed_sequence)` query. */
    method TargetSequence(f: FeedId, start: int, snapshot: int) returns (target: Option<int>)
      ensures IsTarget(store, f, start, snapshot, target)
    {
      target := None;
      var rest := store.entries.Keys;
      while rest != {}
        invariant rest <= store.entries.Keys
        invariant forall e :: Counted(store, f, start, snapshot, e) && e !in rest ==>
          target.Some? && store.entries[e].sequence <= target.value
        invariant target.Some? ==>
          exists e :: Counted(store, f, start, snapshot, e) && store.entries[e].sequence == target.value
        decreases |rest|
      {
        var e :| e in rest;
        if Counted(store, f, start, snapshot, e) && (target.None? || target.value < store.entries[e].sequence) {
          target := Some(store.entries[e].sequence);
        }
        rest := rest - {e};
      }
    }

    /** The loop body for one locked subscription. */
    method MarkSubscription(u: UserId, f: FeedId, snapshot: int) returns (changed: bool, ghost target: int)
      requires Inv(store) && (u, f) in store.subscriptions
      modifies this
      ensures MarksRead(old(store), store, u, [f], snapshot)
      ensures changed <==> store != old(store)
      ensures changed ==> store == MarkOne(old(store), u, f, target)
    {
      target := 0;
      var sub := store.subscriptions[(u, f)];
      var last := TargetSequence(f, sub.startSequence, snapshot);
      if last.None? {
        NothingAsked(store, u, f, snapshot);
        return false, 0;
      }
      target := last.value;
      MarkOneExact(store, u, f, snapshot, target);
      ghost var goal := MarkOne(store, u, f, target);
      var before := store.states;
      store := ClearStarred(store, u, f, sub.startSequence, last.value);
      store := DeleteNeutral(store, u, f, sub.startSequence, last.value);
      var frontier := Max(sub.readThrough, last.value);
      if frontier == sub.readThrough && store.states == before {
        return false, target;
      }
      store := Advance(store, (u, f), frontier);
      assert store == goal;
      assert store.subscriptions[(u, f)].revision != sub.revision;
      return true, target;
    }

    /** The loop step: what the request has done grows by one feed, the count by the changed row. */
    method MarkNext(u: UserId, feeds: seq<FeedId>, i: nat, snapshot: int, ghost begun: Store) returns (changed: bool)
      requires i < |feeds| && Distinct(feeds) && (u, feeds[i]) in begun.subscriptions
      requires Inv(begun) && MarksRead(begun, store, u, feeds[..i], snapshot)
      modifies this
      ensures MarksRead(begun, store, u, feeds[..i + 1], snapshot)
      ensures |Changed(begun, store)| == |Changed(begun, old(store))| + if changed then 1 else 0
    {
      ghost var before := store;
      ghost var target;
      ReadingKeepsInv(begun, store, u, feeds[..i]);
      changed, target := MarkSubscription(u, feeds[i], snapshot);
      assert feeds[..i + 1] == feeds[..i] + [feeds[i]];
      MarksReadTwice(begun, before, store, u, feeds[..i], feeds[i], snapshot);
      if changed {
        ChangedByOne(begun, before, u, feeds[..i], feeds[i], target);
      }
    }

    /** The loop over the locked subscriptions. */
    method MarkFeeds(u: UserId, feeds: seq<FeedId>, snapshot: int) returns (result: Result<nat, Failure>)
      requires Inv(store) && Distinct(feeds) && forall f :: f in feeds ==> (u, f) in store.subscriptions
      modifies this
      ensures result.Ok? ==> MarksRead(old(store), store, u, feeds, snapshot)
      ensures result.Ok? ==> result.value == |Changed(old(store), store)|
      ensures result.Err? ==> result.error == CorruptData && |feeds| > U16_MAX
    {
      ghost var begun := store;
      var changed := 0;
      MarksReadNothing(begun, u, snapshot);
      for i := 0 to |feeds|
        invariant MarksRead(begun, store, u, feeds[..i], snapshot)
        invariant changed == |Changed(begun, store)| && changed <= i && changed <= U16_MAX
      {
        var moved := MarkNext(u, feeds, i, snapshot, begun);
        if moved && changed == U16_MAX {
          return Err(CorruptData);
        }
        changed := changed + if moved then 1 else 0;
      }
      assert feeds[..|feeds|] == feeds;
      return Ok(changed);
    }

    method LockTargetSubscriptions(u: UserId, scope: Scope) returns (feeds: seq<FeedId>)
      ensures Lists(store, u, scope, feeds)
    {
      feeds := [];
      var rest := set key | key in store.subscriptions && key.0 == u && Selected(store, u, scope, key.1) :: key.1;
      while rest != {}
        invariant Distinct(feeds)
        invariant forall f :: f in rest || f in feeds <==> Selected(store, u, scope, f)
        invariant forall f :: f in rest ==> f !in feeds
        decreases |rest|
      {
        var f :| f in rest;
        feeds := feeds + [f];
        rest := rest - {f};
      }
    }

    /** Marks everything in scope up to a snapshot as read, in one transaction. The number returned
        is that of the subscriptions whose row changed. */
    method MarkReadForUser(u: UserId, active: bool, scope: Scope, snapshot: int)
      returns (result: Result<nat, Failure>, feeds: seq<FeedId>)
      requires Inv(store)
      modifies this
      ensures Inv(store)
      ensures result.Ok? ==> Lists(old(store), u, scope, feeds) && MarksRead(old(store), store, u, feeds, snapshot)
      ensures result.Ok? ==> result.value == |Changed(old(store), store)|
      ensures result.Ok? ==> MarkedInScope(old(store), store, u, scope, snapshot)
      ensures result.Err? ==> store == old(store)
      ensures result == Err(InvalidUserId) <==> snapshot >= 0 && !active
      ensures result == Err(InvalidSnapshotGeneration) <==>
        snapshot < 0 || (active && snapshot > old(store).generation)
      ensures result == Err(CorruptData) ==> Lists(old(store), u, scope, feeds) && |feeds| > U16_MAX
    {
      feeds := [];
      if snapshot < 0 { return Err(InvalidSnapshotGeneration), []; }
      if !active { return Err(InvalidUserId), []; }
      if snapshot > store.generation { return Err(InvalidSnapshotGeneration), []; }
      var begun := store;
      feeds := LockTargetSubscriptions(u, scope);
      result := MarkFeeds(u, feeds, snapshot);
      if result.Err? {
        store := begun;
      } else {
        ReadingKeepsInv(begun, store, u, feeds);
        MarksScope(begun, store, u, scope, feeds, snapshot);
      }
    }
  }

  lemma MarksReadNothing(s: Store, u: UserId, snapshot: int)
    ensures MarksRead(s, s, u, [], snapshot) && Changed(s, s) == {}
  {
  }

  /** Entries that arrive after the request keep their own status: the frontier never runs ahead of
      the sequence head, from which later entries are numbered. */
  lemma LaterEntriesStayUnread(s: Store, f: FeedId, u: UserId, sequence: int)
    requires Inv(s) && (u, f) in s.subscriptions && f in s.feeds && sequence > s.feeds[f].head
    ensures s.subscriptions[(u, f)].startSequence < sequence
    ensures !(sequence <= s.subscriptions[(u, f)].readThrough)
  {
    assert SubscriptionInv(s, (u, f));
  }

  /** The target of a subscription is the largest sequence among the entries of the feed that the user
      sees and that had been ingested by the snapshot; there is none when there is no such entry. */
  lemma TargetMeans(s: Store, u: UserId, f: FeedId, snapshot: int, target: Option<int>)
    requires (u, f) in s.subscriptions && IsTarget(s, f, s.subscriptions[(u, f)].startSequence, snapshot, target)
    ensures target.None? <==> forall e :: SeenBy(s, u, snapshot, e) ==> s.entries[e].feed != f
    ensures target.Some? ==> exists e :: SeenBy(s, u, snapshot, e) && s.entries[e].feed == f && s.entries[e].sequence == target.value
    ensures target.Some? ==> forall e :: SeenBy(s, u, snapshot, e) && s.entries[e].feed == f ==> s.entries[e].sequence <= target.value
  {
    forall e
      ensures Counted(s, f, s.subscriptions[(u, f)].startSequence, snapshot, e) <==>
        SeenBy(s, u, snapshot, e) && s.entries[e].feed == f
    {
    }
  }

  /** A request moves the revision of a subscription on by one, or leaves the subscription alone. */
  lemma RevisionMovesOn(s: Store, u: UserId, f: FeedId, target: int)
    requires (u, f) in s.subscriptions
    ensures var sub, sub' := s.subscriptions[(u, f)], MarkOne(s, u, f, target).subscriptions[(u, f)];
      && (sub' == sub || sub'.revision == sub.revision + 1)
      && sub'.startSequence == sub.startSequence && sub'.category == sub.category
      && sub'.readThrough == (if target > sub.readThrough then target else sub.readThrough)
  {
  }
}
