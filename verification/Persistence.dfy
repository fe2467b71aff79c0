/** Persisting a refreshed feed in one transaction, with entries looked up in batches of 128 and
    inserted in batches of 32 that carry over from one lookup batch to the next
    (`src/feeds/persistence.rs`, with the outbox of `src/feeds/lifecycle.rs`). */
module Persistence {
  import opened Outcomes
  import opened ReaderModel
  import opened IngestModel

  const IDENTITY_BATCH_SIZE: nat := 128
  const NEW_ENTRY_INSERT_BATCH_SIZE: nat := 32

  datatype Failure =
    | InvalidRequest
    | LeaseIsLost
    | CorruptData
    | IdentityHashCollision
    | SequenceExhausted
    | GenerationExhausted
    | CountOverflow
    | Database
    | LifecycleEventConflict

  datatype Document = Document(entries: seq<Incoming>, dropped: nat)

  datatype PersistResult = PersistResult(counts: Counts, generation: Option<int>)

  // ---- what the transaction means

  /** The filter of `authorize_statement`. */
  predicate Authorized(s: Store, c: Claim, now: Time) {
    && c.feed in s.feeds
    && s.feeds[c.feed].leaseOwner == Some(c.owner)
    && s.feeds[c.feed].leaseToken == c.token
    && s.feeds[c.feed].leaseUntil.Some?
    && s.feeds[c.feed].leaseUntil.value > now
    && c.run in s.runs
    && s.runs[c.run].feed == c.feed
    && s.runs[c.run].status.Running?
    && s.runs[c.run].leaseToken == c.token
  }

  function ExistingHashes(s: Store, f: FeedId, doc: seq<Incoming>): set<Hash> {
    set e, id | e in doc && id in s.entries && LiveWith(s.entries, f, e.identity.hash, id) :: e.identity.hash
  }

  function RetiredHashes(s: Store, f: FeedId, doc: seq<Incoming>): set<Hash> {
    set e | e in doc && (f, e.identity.hash) in s.retired :: e.identity.hash
  }

  function EnvOf(s: Store, f: FeedId, doc: seq<Incoming>, at: Time): Env {
    Env(f, ExistingHashes(s, f, doc), RetiredHashes(s, f, doc), s.generation + 1, at)
  }

  function PassOf(s: Store, f: FeedId, doc: seq<Incoming>, at: Time): Pass
    requires f in s.feeds
  {
    OneByOne(Pass(s.entries, s.feeds[f].head, 0, 0), EnvOf(s, f, doc, at), doc)
  }

  function StatusOf(doc: Document): RunStatus {
    if doc.dropped == 0 then Success else Partial
  }

  function ResultOf(s: Store, f: FeedId, doc: Document, at: Time): PersistResult
    requires f in s.feeds
  {
    var pass := PassOf(s, f, doc.entries, at);
    PersistResult(Counts(pass.added, pass.updated, doc.dropped),
      if pass.added == 0 then None else Some(s.generation + 1))
  }

  function PersistedEvent(c: Claim, result: PersistResult): Event {
    Event(c.feed, c.run, OrderOf(PersistedKey(c.run)), PersistedPayload(result.generation, result.counts))
  }

  function CompletedEvent(c: Claim, status: RunStatus, counts: Counts): Event {
    Event(c.feed, c.run, OrderOf(CompletedKey(c.run)), CompletedPayload(status, Some(200), counts))
  }

  /** The store after the transaction: the plain pass over the document, the counters it used up, the
      lease released, the run completed, and one event of each kind. */
  function Persisted(s: Store, c: Claim, doc: Document, at: Time): Store
    requires c.feed in s.feeds && c.run in s.runs
  {
    var pass := PassOf(s, c.feed, doc.entries, at);
    var result := ResultOf(s, c.feed, doc, at);
    Completed(s.(entries := pass.entries, generation := if pass.added == 0 then s.generation else s.generation + 1),
      c, doc, result, pass.head)
  }

  /** The statements after the entries: feed, run, lease and the two events. */
  function Completed(s: Store, c: Claim, doc: Document, result: PersistResult, head: int): Store
    requires c.feed in s.feeds && c.run in s.runs
  {
    s.(feeds := s.feeds[c.feed := s.feeds[c.feed].(head := head, leaseOwner := None, leaseUntil := None)],
       runs := s.runs[c.run := s.runs[c.run].(
         status := StatusOf(doc), counts := result.counts, generation := result.generation)],
       outbox := s.outbox[PersistedKey(c.run) := PersistedEvent(c, result)]
                         [CompletedKey(c.run) := CompletedEvent(c, StatusOf(doc), result.counts)])
  }

  // ---- batches

  /** Rows looked up by identity hash. */
  type Rows = map<Hash, EntryId>

  /** A row of the pending insert batch. */
  datatype Pending = Pending(id: EntryId, entry: Entry)

  function PendingMap(pending: seq<Pending>): Entries {
    if pending == [] then map[]
    else PendingMap(pending[..|pending| - 1])[pending[|pending| - 1].id := pending[|pending| - 1].entry]
  }

  lemma {:induction false} PendingKeys(pending: seq<Pending>, id: EntryId)
    ensures id in PendingMap(pending) <==> exists m :: 0 <= m < |pending| && pending[m].id == id
    ensures id in PendingMap(pending) ==>
      exists m :: 0 <= m < |pending| && pending[m].id == id && pending[m].entry == PendingMap(pending)[id]
  {
    if pending != [] {
      var init := pending[..|pending| - 1];
      PendingKeys(init, id);
      assert forall m :: 0 <= m < |init| ==> init[m] == pending[m];
      if pending[|pending| - 1].id != id && id in PendingMap(init) {
        var m :| 0 <= m < |init| && init[m].id == id && init[m].entry == PendingMap(init)[id];
        assert pending[m].id == id && pending[m].entry == PendingMap(pending)[id];
      }
    }
  }

  /** The unique indexes accept an insert batch. */
  predicate Accepted(entries: Entries, pending: seq<Pending>) {
    && (forall m :: 0 <= m < |pending| ==> pending[m].id !in entries)
    && (forall m, id :: 0 <= m < |pending| && id in entries ==>
      !LiveWith(entries, pending[m].entry.feed, pending[m].entry.identity.hash, id))
    && (forall m, n :: 0 <= m < n < |pending| ==>
      pending[m].id != pending[n].id && pending[m].entry.identity.hash != pending[n].entry.identity.hash)
  }

  /** The variables of the loop: the sequence head, the update count, the pending insert batch, the
      sizes of the batches inserted, and the looked-up rows not yet used. */
  datatype Progress = Progress(
    head: int, updated: nat, pending: seq<Pending>, batches: seq<nat>, rows: Rows)

  /** The entries have grown from `base` within the document's feed and generation. */
  ghost predicate Grown(base: Entries, entries: Entries, env: Env, low: int, high: int) {
    && EntriesOrdered(entries)
    && base.Keys <= entries.Keys
    && (forall id :: id in base ==> entries[id] == base[id].(content := entries[id].content))
    && (forall id :: id in entries && id !in base ==> Added(entries[id], env, low, high))
    && (forall id :: id in base && base[id].feed == env.feed ==> base[id].sequence <= low)
    && (forall id :: id in base ==> base[id].generation < env.generation)
    && low <= high
  }

  ghost predicate Added(entry: Entry, env: Env, low: int, high: int) {
    && entry.feed == env.feed
    && entry.generation == env.generation
    && low < entry.sequence <= high
    && entry.identity.hash !in env.retired
    && entry.identity.hash !in env.existing
  }

  /** The pending batch holds the newest sequences. */
  ghost predicate PendingShape(env: Env, pr: Progress) {
    forall m :: 0 <= m < |pr.pending| ==>
      Added(pr.pending[m].entry, env, pr.head - |pr.pending| + m, pr.head - |pr.pending| + m + 1)
  }

  /** The stored entries together with the pending batch are those of the plain pass so far. */
  ghost predicate Tracks(base: Entries, low: int, entries: Entries, env: Env, doc: seq<Incoming>, k: nat, pr: Progress)
    requires k <= |doc|
  {
    Follows(base, low, entries, env, OneByOne(Pass(base, low, 0, 0), env, doc[..k]), pr)
  }

  ghost predicate Follows(base: Entries, low: int, entries: Entries, env: Env, pass: Pass, pr: Progress) {
    && Grown(base, entries, env, low, pr.head - |pr.pending|)
    && PendingShape(env, pr)
    && entries + PendingMap(pr.pending) == pass.entries
    && pr.head == pass.head
    && pr.updated == pass.updated
    && BatchSizes(pr, pass.added)
    && (forall m :: 0 <= m < |pr.pending| ==> pr.pending[m].id !in entries)
    && (forall m, n :: 0 <= m < n < |pr.pending| ==> pr.pending[m].id != pr.pending[n].id)
  }

  /** Every batch inserted so far has exactly 32 rows. */
  ghost predicate BatchSizes(pr: Progress, added: nat) {
    && |pr.pending| <= NEW_ENTRY_INSERT_BATCH_SIZE
    && (forall i :: 0 <= i < |pr.batches| ==> pr.batches[i] == NEW_ENTRY_INSERT_BATCH_SIZE)
    && added == |pr.batches| * NEW_ENTRY_INSERT_BATCH_SIZE + |pr.pending|
  }

  // ---- updating one entry

  /** With unique identities, refreshing all rows of an identity refreshes the one looked up. */
  lemma RefreshOne(entries: Entries, feed: FeedId, e: Incoming, id: EntryId)
    requires EntriesOrdered(entries) && LiveWith(entries, feed, e.identity.hash, id)
    ensures Refresh(entries, feed, e) == entries[id := entries[id].(content := StoredContent(e))]
    ensures Stale(entries, feed, e) <==> entries[id].content != StoredContent(e)
  {
    forall other | other in entries && other != id
      ensures !LiveWith(entries, feed, e.identity.hash, other)
    {
      assert Ordered(entries[other], entries[id]);
    }
  }

  /** Rows still pending are not touched by an update, whose identity was live from the start. */
  lemma RefreshBesidePending(entries: Entries, env: Env, e: Incoming, pr: Progress)
    requires PendingShape(env, pr) && e.identity.hash in env.existing
    requires forall m :: 0 <= m < |pr.pending| ==> pr.pending[m].id !in entries
    ensures Refresh(entries + PendingMap(pr.pending), env.feed, e) == Refresh(entries, env.feed, e) + PendingMap(pr.pending)
    ensures Stale(entries + PendingMap(pr.pending), env.feed, e) <==> Stale(entries, env.feed, e)
  {
    var all := entries + PendingMap(pr.pending);
    forall id | id in PendingMap(pr.pending)
      ensures id !in entries && !LiveWith(all, env.feed, e.identity.hash, id)
    {
      PendingKeys(pr.pending, id);
    }
    if Stale(all, env.feed, e) {
      var id :| id in all && LiveWith(all, env.feed, e.identity.hash, id) && all[id].content != StoredContent(e);
      assert id in entries && LiveWith(entries, env.feed, e.identity.hash, id);
    }
    if Stale(entries, env.feed, e) {
      var id :| id in entries && LiveWith(entries, env.feed, e.identity.hash, id) && entries[id].content != StoredContent(e);
      assert id in all && LiveWith(all, env.feed, e.identity.hash, id);
    }
  }

  // ---- where the added rows come from

  ghost predicate ComesFrom(pass: Pass, env: Env, doc: seq<Incoming>, id: EntryId, k: nat) {
    && k < |doc| && doc[k].id == id && IsNew(env, doc[k])
    && id in pass.entries && pass.entries[id].identity == doc[k].identity
  }

  /** Every row that the pass has added is a new entry of the document, under its identity. */
  lemma {:induction false} AddedFromDocument(p: Pass, env: Env, doc: seq<Incoming>, id: EntryId)
    requires id in OneByOne(p, env, doc).entries && id !in p.entries
    requires FreshIds(p.entries, doc)
    ensures exists k :: 0 <= k < |doc| && ComesFrom(OneByOne(p, env, doc), env, doc, id, k)
  {
    var init := doc[..|doc| - 1];
    var last := doc[|doc| - 1];
    if last.id == id && IsNew(env, last) {
      assert ComesFrom(OneByOne(p, env, doc), env, doc, id, |doc| - 1);
    } else {
      AddedFromDocument(p, env, init, id);
      var k :| 0 <= k < |init| && ComesFrom(OneByOne(p, env, init), env, init, id, k);
      assert ComesFrom(OneByOne(p, env, doc), env, doc, id, k);
    }
  }

  lemma FreshPrefix(base: Entries, doc: seq<Incoming>, k: nat)
    requires k <= |doc| && FreshIds(base, doc)
    ensures FreshIds(base, doc[..k])
  {
  }

  /** The next new entry comes under an identifier that is neither stored nor pending. */
  lemma NextIsFresh(base: Entries, low: int, env: Env, doc: seq<Incoming>, k: nat)
    requires k < |doc| && FreshIds(base, doc)
    ensures doc[k].id !in OneByOne(Pass(base, low, 0, 0), env, doc[..k]).entries
  {
    var p := Pass(base, low, 0, 0);
    FreshPrefix(base, doc, k);
    if doc[k].id in OneByOne(p, env, doc[..k]).entries {
      AddedFromDocument(p, env, doc[..k], doc[k].id);
      assert false;
    }
  }

  /** When a document repeats no identity, the added rows have identities of their own. */
  lemma AddedHashesDiffer(base: Entries, low: int, env: Env, doc: seq<Incoming>, k: nat, a: EntryId, b: EntryId)
    requires k <= |doc| && FreshIds(base, doc) && DistinctHashes(doc) && a != b
    requires var entries := OneByOne(Pass(base, low, 0, 0), env, doc[..k]).entries;
      a in entries && b in entries && a !in base && b !in base
    ensures var entries := OneByOne(Pass(base, low, 0, 0), env, doc[..k]).entries;
      entries[a].identity.hash != entries[b].identity.hash
  {
    var p := Pass(base, low, 0, 0);
    FreshPrefix(base, doc, k);
    AddedFromDocument(p, env, doc[..k], a);
    AddedFromDocument(p, env, doc[..k], b);
    var m :| 0 <= m < k && ComesFrom(OneByOne(p, env, doc[..k]), env, doc[..k], a, m);
    var n :| 0 <= n < k && ComesFrom(OneByOne(p, env, doc[..k]), env, doc[..k], b, n);
    assert m != n && doc[m] == doc[..k][m] && doc[n] == doc[..k][n];
  }

  /** `existing` are the document's identities that were live at the start. */
  ghost predicate ExistingExact(base: Entries, env: Env, doc: seq<Incoming>) {
    forall k :: 0 <= k < |doc| ==>
      (doc[k].identity.hash in env.existing <==> Live(base, env.feed, doc[k].identity.hash))
  }

  ghost predicate Live(entries: Entries, feed: FeedId, hash: Hash) {
    exists id :: id in entries && LiveWith(entries, feed, hash, id)
  }

  /** For a document without repeated identities the unique indexes accept the pending batch. */
  lemma PendingAccepted(base: Entries, low: int, entries: Entries, env: Env, doc: seq<Incoming>, k: nat, pr: Progress)
    requires k <= |doc| && FreshIds(base, doc) && DistinctHashes(doc) && ExistingExact(base, env, doc)
    requires Grown(base, entries, env, low, pr.head - |pr.pending|) && PendingShape(env, pr)
    requires entries + PendingMap(pr.pending) == OneByOne(Pass(base, low, 0, 0), env, doc[..k]).entries
    requires forall m :: 0 <= m < |pr.pending| ==> pr.pending[m].id !in entries
    requires forall m, n :: 0 <= m < n < |pr.pending| ==> pr.pending[m].id != pr.pending[n].id
    ensures Accepted(entries, pr.pending)
  {
    var pass := OneByOne(Pass(base, low, 0, 0), env, doc[..k]);
    forall m | 0 <= m < |pr.pending|
      ensures pr.pending[m].id in pass.entries && pass.entries[pr.pending[m].id] == pr.pending[m].entry
      ensures forall id :: id in entries ==> !LiveWith(entries, pr.pending[m].entry.feed, pr.pending[m].entry.identity.hash, id)
    {
      var mine := pr.pending[m].id;
      PendingKeys(pr.pending, mine);
      forall id | id in entries
        ensures !LiveWith(entries, pr.pending[m].entry.feed, pr.pending[m].entry.identity.hash, id)
      {
        PendingKeys(pr.pending, id);
        assert pass.entries[id] == entries[id];
        if id in base {
          PendingIsNotLive(base, low, env, doc, k, mine, id);
        } else {
          AddedHashesDiffer(base, low, env, doc, k, id, mine);
        }
      }
    }
    forall m, n | 0 <= m < n < |pr.pending|
      ensures pr.pending[m].entry.identity.hash != pr.pending[n].entry.identity.hash
    {
      AddedHashesDiffer(base, low, env, doc, k, pr.pending[m].id, pr.pending[n].id);
    }
  }

  lemma PendingIsNotLive(base: Entries, low: int, env: Env, doc: seq<Incoming>, k: nat, added: EntryId, id: EntryId)
    requires k <= |doc| && FreshIds(base, doc) && ExistingExact(base, env, doc) && id in base
    requires added in OneByOne(Pass(base, low, 0, 0), env, doc[..k]).entries && added !in base
    ensures !LiveWith(base, env.feed, OneByOne(Pass(base, low, 0, 0), env, doc[..k]).entries[added].identity.hash, id)
  {
    var p := Pass(base, low, 0, 0);
    FreshPrefix(base, doc, k);
    AddedFromDocument(p, env, doc[..k], added);
    var m :| 0 <= m < k && ComesFrom(OneByOne(p, env, doc[..k]), env, doc[..k], added, m);
    assert doc[m] == doc[..k][m];
    assert doc[m].identity.hash in env.existing <==> Live(base, env.feed, doc[m].identity.hash);
  }

  // ---- one step of the loop

  lemma TracksSkip(base: Entries, low: int, entries: Entries, env: Env, doc: seq<Incoming>, k: nat, pr: Progress)
    requires k < |doc| && Tracks(base, low, entries, env, doc, k, pr)
    requires doc[k].identity.hash in env.retired
    ensures Tracks(base, low, entries, env, doc, k + 1, pr)
  {
    OneMore(Pass(base, low, 0, 0), env, doc, k);
  }

  function Updated(entries: Entries, id: EntryId, e: Incoming): Entries
    requires id in entries
  {
    entries[id := entries[id].(content := WrittenContent(entries[id].content, e))]
  }

  lemma GrownUpdate(base: Entries, entries: Entries, env: Env, low: int, high: int, id: EntryId, e: Incoming)
    requires Grown(base, entries, env, low, high) && id in entries
    ensures Grown(base, Updated(entries, id, e), env, low, high)
  {
    var entries' := Updated(entries, id, e);
    forall a, b | a in entries' && b in entries' && a != b
      ensures Ordered(entries'[a], entries'[b])
    {
      assert Ordered(entries[a], entries[b]);
    }
  }

  /** Updating the row looked up does to stored and pending rows what the plain pass does. */
  lemma UpdateIsRefresh(entries: Entries, env: Env, e: Incoming, pr: Progress, id: EntryId)
    requires EntriesOrdered(entries) && LiveWith(entries, env.feed, e.identity.hash, id)
    requires PendingShape(env, pr) && e.identity.hash in env.existing
    requires forall m :: 0 <= m < |pr.pending| ==> pr.pending[m].id !in entries
    ensures var all := entries + PendingMap(pr.pending);
      && Refresh(all, env.feed, e) == Updated(entries, id, e) + PendingMap(pr.pending)
      && (Stale(all, env.feed, e) <==> entries[id].content != StoredContent(e))
  {
    WrittenContentIsIncoming(entries[id].content, e);
    RefreshOne(entries, env.feed, e, id);
    RefreshBesidePending(entries, env, e, pr);
  }

  /** The plain pass takes the same step as the update of the row looked up. */
  lemma StepUpdates(pass: Pass, entries: Entries, env: Env, e: Incoming, pr: Progress, id: EntryId)
    requires EntriesOrdered(entries) && PendingShape(env, pr)
    requires forall m :: 0 <= m < |pr.pending| ==> pr.pending[m].id !in entries
    requires e.identity.hash !in env.retired && e.identity.hash in env.existing
    requires LiveWith(entries, env.feed, e.identity.hash, id)
    requires entries + PendingMap(pr.pending) == pass.entries
    ensures Step(pass, env, e) == pass.(
      entries := Updated(entries, id, e) + PendingMap(pr.pending),
      updated := pass.updated + if entries[id].content != StoredContent(e) then 1 else 0)
  {
    UpdateIsRefresh(entries, env, e, pr, id);
  }

  lemma FollowsUpdate(base: Entries, low: int, entries: Entries, env: Env, pass: Pass, pr: Progress, e: Incoming,
        id: EntryId, pr': Progress)
    requires Follows(base, low, entries, env, pass, pr) && id in entries
    requires pr' == pr.(updated := pr'.updated, rows := pr'.rows)
    ensures Follows(base, low, Updated(entries, id, e), env,
      pass.(entries := Updated(entries, id, e) + PendingMap(pr.pending), updated := pr'.updated), pr')
  {
    GrownUpdate(base, entries, env, low, pr.head - |pr.pending|, id, e);
  }

  lemma TracksUpdate(base: Entries, low: int, entries: Entries, env: Env, doc: seq<Incoming>, k: nat, pr: Progress,
        id: EntryId, pr': Progress)
    requires k < |doc| && Tracks(base, low, entries, env, doc, k, pr)
    requires doc[k].identity.hash !in env.retired && doc[k].identity.hash in env.existing
    requires LiveWith(entries, env.feed, doc[k].identity.hash, id)
    requires pr' == pr.(
      updated := pr.updated + if entries[id].content != StoredContent(doc[k]) then 1 else 0, rows := pr'.rows)
    ensures Tracks(base, low, Updated(entries, id, doc[k]), env, doc, k + 1, pr')
  {
    var pass := OneByOne(Pass(base, low, 0, 0), env, doc[..k]);
    OneMore(Pass(base, low, 0, 0), env, doc, k);
    StepUpdates(pass, entries, env, doc[k], pr, id);
    FollowsUpdate(base, low, entries, env, pass, pr, doc[k], id, pr');
  }

  function Pushed(env: Env, pr: Progress, e: Incoming): Progress {
    pr.(head := pr.head + 1, pending := pr.pending + [Pending(e.id, NewEntry(env, e, pr.head + 1))])
  }

  lemma PushShape(env: Env, pr: Progress, e: Incoming)
    requires PendingShape(env, pr) && IsNew(env, e)
    ensures PendingShape(env, Pushed(env, pr, e))
  {
  }

  lemma PushSizes(env: Env, pr: Progress, e: Incoming, added: nat)
    requires BatchSizes(pr, added) && |pr.pending| < NEW_ENTRY_INSERT_BATCH_SIZE
    ensures BatchSizes(Pushed(env, pr, e), added + 1)
  {
  }

  lemma PushFresh(env: Env, entries: Entries, pr: Progress, e: Incoming)
    requires e.id !in entries + PendingMap(pr.pending)
    requires forall m :: 0 <= m < |pr.pending| ==> pr.pending[m].id !in entries
    requires forall m, n :: 0 <= m < n < |pr.pending| ==> pr.pending[m].id != pr.pending[n].id
    ensures var pending := Pushed(env, pr, e).pending;
      && (forall m :: 0 <= m < |pending| ==> pending[m].id !in entries)
      && (forall m, n :: 0 <= m < n < |pending| ==> pending[m].id != pending[n].id)
  {
    forall m | 0 <= m < |pr.pending|
      ensures pr.pending[m].id != e.id
    {
      PendingKeys(pr.pending, pr.pending[m].id);
    }
  }

  lemma PushedMap(env: Env, entries: Entries, pr: Progress, e: Incoming)
    ensures entries + PendingMap(Pushed(env, pr, e).pending) ==
      (entries + PendingMap(pr.pending))[e.id := NewEntry(env, e, pr.head + 1)]
  {
    var pr' := Pushed(env, pr, e);
    assert pr'.pending[..|pr'.pending| - 1] == pr.pending;
  }

  /** The plain pass takes the same step as the push. */
  lemma StepPushes(pass: Pass, entries: Entries, env: Env, e: Incoming, pr: Progress)
    requires IsNew(env, e) && entries + PendingMap(pr.pending) == pass.entries && pr.head == pass.head
    ensures Step(pass, env, e) ==
      Pass(entries + PendingMap(Pushed(env, pr, e).pending), pr.head + 1, pass.updated, pass.added + 1)
  {
    PushedMap(env, entries, pr, e);
  }

  lemma FollowsPush(base: Entries, low: int, entries: Entries, env: Env, pass: Pass, pr: Progress, e: Incoming)
    requires Follows(base, low, entries, env, pass, pr) && |pr.pending| < NEW_ENTRY_INSERT_BATCH_SIZE
    requires IsNew(env, e) && e.id !in pass.entries
    ensures Follows(base, low, entries, env, Step(pass, env, e), Pushed(env, pr, e))
  {
    StepPushes(pass, entries, env, e, pr);
    PushShape(env, pr, e);
    PushFresh(env, entries, pr, e);
    PushSizes(env, pr, e, pass.added);
  }

  lemma TracksPush(base: Entries, low: int, entries: Entries, env: Env, doc: seq<Incoming>, k: nat, pr: Progress)
    requires k < |doc| && Tracks(base, low, entries, env, doc, k, pr) && FreshIds(base, doc)
    requires IsNew(env, doc[k]) && |pr.pending| < NEW_ENTRY_INSERT_BATCH_SIZE
    ensures Tracks(base, low, entries, env, doc, k + 1, Pushed(env, pr, doc[k]))
  {
    OneMore(Pass(base, low, 0, 0), env, doc, k);
    NextIsFresh(base, low, env, doc, k);
    FollowsPush(base, low, entries, env, OneByOne(Pass(base, low, 0, 0), env, doc[..k]), pr, doc[k]);
  }

  function Flushed(pr: Progress): Progress {
    pr.(pending := [], batches := pr.batches + [|pr.pending|])
  }

  lemma GrownFlush(base: Entries, entries: Entries, env: Env, low: int, pr: Progress)
    requires Grown(base, entries, env, low, pr.head - |pr.pending|) && PendingShape(env, pr) && Accepted(entries, pr.pending)
    ensures Grown(base, entries + PendingMap(pr.pending), env, low, pr.head)
  {
    var all := entries + PendingMap(pr.pending);
    forall id | id in PendingMap(pr.pending)
      ensures id !in entries && id !in base && Added(all[id], env, low, pr.head)
      ensures all[id].sequence > pr.head - |pr.pending|
      ensures exists m :: 0 <= m < |pr.pending| && pr.pending[m].id == id && pr.pending[m].entry == all[id]
    {
      PendingKeys(pr.pending, id);
    }
    forall a, b | a in all && b in all && a != b
      ensures Ordered(all[a], all[b])
    {
      FlushedOrdered(base, entries, env, low, pr, a, b);
    }
  }

  lemma FlushedOrdered(base: Entries, entries: Entries, env: Env, low: int, pr: Progress, a: EntryId, b: EntryId)
    requires Grown(base, entries, env, low, pr.head - |pr.pending|) && PendingShape(env, pr) && Accepted(entries, pr.pending)
    requires var all := entries + PendingMap(pr.pending); a in all && b in all && a != b
    ensures var all := entries + PendingMap(pr.pending); Ordered(all[a], all[b])
  {
    PendingKeys(pr.pending, a);
    PendingKeys(pr.pending, b);
    if a !in PendingMap(pr.pending) && b !in PendingMap(pr.pending) {
      assert Ordered(entries[a], entries[b]);
    } else if a !in PendingMap(pr.pending) {
      StoredBeforePending(base, entries, env, low, pr, a, b);
    } else if b !in PendingMap(pr.pending) {
      StoredBeforePending(base, entries, env, low, pr, b, a);
    }
  }

  lemma StoredBeforePending(base: Entries, entries: Entries, env: Env, low: int, pr: Progress, a: EntryId, b: EntryId)
    requires Grown(base, entries, env, low, pr.head - |pr.pending|) && PendingShape(env, pr) && Accepted(entries, pr.pending)
    requires a in entries && b in PendingMap(pr.pending)
    ensures Ordered(entries[a], PendingMap(pr.pending)[b]) && Ordered(PendingMap(pr.pending)[b], entries[a])
  {
    PendingKeys(pr.pending, b);
    var m :| 0 <= m < |pr.pending| && pr.pending[m].id == b && pr.pending[m].entry == PendingMap(pr.pending)[b];
    assert !LiveWith(entries, pr.pending[m].entry.feed, pr.pending[m].entry.identity.hash, a);
    if a !in base {
      assert Added(entries[a], env, low, pr.head - |pr.pending|);
    }
  }

  lemma FollowsFlush(base: Entries, low: int, entries: Entries, env: Env, pass: Pass, pr: Progress)
    requires Follows(base, low, entries, env, pass, pr) && Accepted(entries, pr.pending)
    requires |pr.pending| == NEW_ENTRY_INSERT_BATCH_SIZE
    ensures Follows(base, low, entries + PendingMap(pr.pending), env, pass, Flushed(pr))
  {
    GrownFlush(base, entries, env, low, pr);
    assert entries + PendingMap(pr.pending) + PendingMap([]) == entries + PendingMap(pr.pending);
  }

  lemma TracksFlush(base: Entries, low: int, entries: Entries, env: Env, doc: seq<Incoming>, k: nat, pr: Progress)
    requires k <= |doc| && Tracks(base, low, entries, env, doc, k, pr) && Accepted(entries, pr.pending)
    requires |pr.pending| == NEW_ENTRY_INSERT_BATCH_SIZE
    ensures Tracks(base, low, entries + PendingMap(pr.pending), env, doc, k, Flushed(pr))
  {
    FollowsFlush(base, low, entries, env, OneByOne(Pass(base, low, 0, 0), env, doc[..k]), pr);
  }
}
