/** The reader tables: feeds with their sequence heads, the ingest generation, entries, retired
    identities, subscriptions, per-entry states, refresh runs and the lifecycle outbox. */
module ReaderModel {
  import opened Outcomes

  type UserId = nat
  type FeedId = nat
  type EntryId = nat
  type CategoryId = nat
  type RunId = nat
  type Owner = nat
  type Hash = nat
  type Time = int

  // ---- rows

  /** The identity of an entry, with the index hash computed from it. */
  datatype Identity = Identity(kind: IdentityKind, text: string, hash: Hash)

  datatype Metadata = Metadata(
    canonicalUrl: Option<string>, title: Option<string>, author: Option<string>, searchText: string,
    summary: Option<string>, publishedAtUs: Option<int>, enclosureJson: Option<string>)

  datatype Hashes = Hashes(source: string, content: string, pipeline: string)

  datatype Content = Content(meta: Metadata, body: string, hashes: Hashes)

  datatype Entry = Entry(
    feed: FeedId, sequence: int, generation: int, identity: Identity, content: Content,
    sortAtUs: int, insertedAt: Time)

  type Entries = map<EntryId, Entry>

  datatype Feed = Feed(head: int, leaseOwner: Option<Owner>, leaseToken: int, leaseUntil: Option<Time>)

  datatype Subscription = Subscription(
    startSequence: int, readThrough: int, revision: int, category: Option<CategoryId>)

  datatype EntryState = EntryState(
    feed: FeedId, sequence: int, readOverride: Option<bool>, starred: bool, revision: int)

  datatype RunStatus = Running | Success | Partial | NotModified | Error | LeaseLost | Cancelled

  datatype Counts = Counts(added: nat, updated: nat, dropped: nat)

  datatype RefreshRun = RefreshRun(
    feed: FeedId, status: RunStatus, leaseToken: int, counts: Counts, generation: Option<int>)

  /** The idempotency keys `refresh:<run>:persisted:v1` and `refresh:<run>:completed:v1`. */
  datatype EventKey = PersistedKey(run: RunId) | CompletedKey(run: RunId)

  datatype Payload =
    | PersistedPayload(generation: Option<int>, counts: Counts)
    | CompletedPayload(status: RunStatus, httpStatus: Option<int>, counts: Counts)

  datatype Event = Event(feed: FeedId, run: RunId, order: int, payload: Payload)

  datatype Store = Store(
    feeds: map<FeedId, Feed>,
    generation: int,
    entries: Entries,
    retired: set<(FeedId, Hash)>,
    subscriptions: map<(UserId, FeedId), Subscription>,
    states: map<(UserId, EntryId), EntryState>,
    contentJobs: set<EntryId>,
    runs: map<RunId, RefreshRun>,
    outbox: map<EventKey, Event>)

  // ---- reading

  /** The entry is listed for the user: a subscription to its feed starts before it. */
  predicate Visible(s: Store, u: UserId, e: EntryId) {
    && e in s.entries
    && (u, s.entries[e].feed) in s.subscriptions
    && s.entries[e].sequence > s.subscriptions[(u, s.entries[e].feed)].startSequence
  }

  /** The state row that the listing joins to a visible entry. */
  function StateOf(s: Store, u: UserId, e: EntryId): Option<EntryState>
    requires e in s.entries
  {
    if (u, e) in s.states && s.states[(u, e)].feed == s.entries[e].feed &&
       s.states[(u, e)].sequence == s.entries[e].sequence
    then Some(s.states[(u, e)]) else None
  }

  /** The override if there is one, else whether the entry lies at or before the frontier. */
  predicate IsRead(s: Store, u: UserId, e: EntryId)
    requires Visible(s, u, e)
  {
    var state := StateOf(s, u, e);
    if state.Some? && state.value.readOverride.Some? then state.value.readOverride.value
    else s.entries[e].sequence <= s.subscriptions[(u, s.entries[e].feed)].readThrough
  }

  predicate IsStarred(s: Store, u: UserId, e: EntryId)
    requires Visible(s, u, e)
  {
    StateOf(s, u, e).Some? && StateOf(s, u, e).value.starred
  }

  predicate OfFeed(s: Store, e: EntryId, f: FeedId) {
    e in s.entries && s.entries[e].feed == f
  }

  ghost predicate Read(s: Store, u: UserId, e: EntryId) {
    Visible(s, u, e) && IsRead(s, u, e)
  }

  ghost predicate Unread(s: Store, u: UserId, e: EntryId) {
    Visible(s, u, e) && !IsRead(s, u, e)
  }

  ghost predicate Starred(s: Store, u: UserId, e: EntryId) {
    Visible(s, u, e) && IsStarred(s, u, e)
  }

  // ---- invariant

  /** An entry lies within the counters that number it. */
  ghost predicate EntryInv(s: Store, e: EntryId)
    requires e in s.entries
  {
    var entry := s.entries[e];
    && entry.feed in s.feeds
    && 1 <= entry.sequence <= s.feeds[entry.feed].head
    && 1 <= entry.generation <= s.generation
    && (entry.feed, entry.identity.hash) !in s.retired
  }

  /** Two entries of a feed differ in sequence and identity, and the later sequence is not of an
      earlier generation. */
  ghost predicate Ordered(a: Entry, b: Entry) {
    a.feed == b.feed ==>
      && a.sequence != b.sequence
      && a.identity.hash != b.identity.hash
      && (a.sequence < b.sequence ==> a.generation <= b.generation)
      && (b.sequence < a.sequence ==> b.generation <= a.generation)
  }

  ghost predicate SubscriptionInv(s: Store, key: (UserId, FeedId))
    requires key in s.subscriptions
  {
    && key.1 in s.feeds
    && 0 <= s.subscriptions[key].startSequence <= s.subscriptions[key].readThrough <= s.feeds[key.1].head
  }

  /** A state row carries the feed and the sequence of its entry and belongs to a subscription. */
  ghost predicate StateInv(s: Store, key: (UserId, EntryId))
    requires key in s.states
  {
    && key.1 in s.entries
    && s.states[key].feed == s.entries[key.1].feed
    && s.states[key].sequence == s.entries[key.1].sequence
    && (key.0, s.states[key].feed) in s.subscriptions
  }

  /** Lifecycle events exist for ended runs only, under their own key and order number. */
  ghost predicate EventInv(s: Store, key: EventKey)
    requires key in s.outbox
  {
    && key.run in s.runs
    && !s.runs[key.run].status.Running?
    && s.outbox[key].run == key.run
    && s.outbox[key].order == OrderOf(key)
  }

  ghost predicate EntriesOrdered(entries: Entries) {
    forall a, b :: a in entries && b in entries && a != b ==> Ordered(entries[a], entries[b])
  }

  ghost predicate Inv(s: Store) {
    && 0 <= s.generation <= I64_MAX
    && (forall f :: f in s.feeds ==> 0 <= s.feeds[f].head <= I64_MAX)
    && (forall e :: e in s.entries ==> EntryInv(s, e))
    && EntriesOrdered(s.entries)
    && (forall key :: key in s.subscriptions ==> SubscriptionInv(s, key))
    && (forall key :: key in s.states ==> StateInv(s, key))
    && (forall key :: key in s.outbox ==> EventInv(s, key))
  }

  function OrderOf(key: EventKey): int {
    match key
    case PersistedKey(_) => 10
    case CompletedKey(_) => 20
  }
}
