/** `persist_feed_once`: one transaction that persists a parsed document (`src/feeds/persistence.rs`). */
module PersistFeed {
  import opened Outcomes
  import opened ReaderModel
  import opened IngestModel
  import opened Persistence
  import opened PersistLoop

  // ---- when a document is refused

  /** The error for a document that brings no identity twice; none if it is persisted. */
  ghost function Refusal(s: Store, c: Claim, doc: Document, now: Time, at: Time): Option<Failure> {
    if c.token <= 0 then Some(InvalidRequest)
    else if !Authorized(s, c, now) then Some(LeaseIsLost)
    else if !NoClash(s.entries, c.feed, doc.entries) then Some(IdentityHashCollision)
    else
      var pass := PassOf(s, c.feed, doc.entries, at);
      if pass.added > 0 && s.generation >= I64_MAX then Some(GenerationExhausted)
      else if pass.head > I64_MAX then Some(SequenceExhausted)
      else if pass.updated > I32_MAX || pass.added > I32_MAX then Some(CountOverflow)
      else None
  }

  predicate Collides(entries: Entries, id: EntryId, entry: Entry) {
    LiveWith(entries, entry.feed, entry.identity.hash, id) && entries[id].identity != entry.identity
  }

  predicate Clashes(entry: Entry, incoming: map<Hash, Identity>) {
    entry.identity.hash in incoming && entry.identity != incoming[entry.identity.hash]
  }

  // ---- the invariant

  lemma InvGrown(s: Store, f: FeedId, doc: seq<Incoming>, at: Time)
    requires Inv(s) && f in s.feeds
    ensures Grown(s.entries, s.entries, EnvOf(s, f, doc, at), s.feeds[f].head, s.feeds[f].head)
  {
    forall id | id in s.entries
      ensures s.entries[id].generation < s.generation + 1
      ensures s.entries[id].feed == f ==> s.entries[id].sequence <= s.feeds[f].head
    {
      assert EntryInv(s, id);
    }
  }

  lemma EnvExact(s: Store, f: FeedId, doc: seq<Incoming>, at: Time)
    requires Inv(s)
    ensures ExistingExact(s.entries, EnvOf(s, f, doc, at), doc)
    ensures EnvOf(s, f, doc, at).retired !! EnvOf(s, f, doc, at).existing
  {
    var env := EnvOf(s, f, doc, at);
    forall k | 0 <= k < |doc| && Live(s.entries, f, doc[k].identity.hash)
      ensures doc[k].identity.hash in env.existing
    {
      var id :| id in s.entries && LiveWith(s.entries, f, doc[k].identity.hash, id);
      assert doc[k] in doc;
    }
    forall h | h in env.existing
      ensures h !in env.retired
    {
      var e, id :| e in doc && id in s.entries && LiveWith(s.entries, f, e.identity.hash, id) && h == e.identity.hash;
      assert EntryInv(s, id);
    }
  }

  /** A row that the pass adds has an identity that is not retired for the feed. */
  lemma AddedIsNotRetired(s: Store, f: FeedId, doc: seq<Incoming>, at: Time, id: EntryId)
    requires f in s.feeds && FreshIds(s.entries, doc)
    requires id in PassOf(s, f, doc, at).entries && id !in s.entries
    ensures (f, PassOf(s, f, doc, at).entries[id].identity.hash) !in s.retired
  {
    var env := EnvOf(s, f, doc, at);
    var p := Pass(s.entries, s.feeds[f].head, 0, 0);
    AddedFromDocument(p, env, doc, id);
    var k :| 0 <= k < |doc| && ComesFrom(OneByOne(p, env, doc), env, doc, id, k);
    assert doc[k] in doc && doc[k].identity.hash !in env.retired;
  }

  ghost predicate WithinLimits(s: Store, pass: Pass) {
    (pass.added > 0 ==> s.generation < I64_MAX) && pass.head <= I64_MAX
  }

  lemma PersistedEntryInv(s: Store, c: Claim, doc: Document, at: Time, id: EntryId)
    requires Inv(s) && c.feed in s.feeds && c.run in s.runs && FreshIds(s.entries, doc.entries)
    requires var pass := PassOf(s, c.feed, doc.entries, at);
      && Grown(s.entries, pass.entries, EnvOf(s, c.feed, doc.entries, at), s.feeds[c.feed].head, pass.head)
      && id in pass.entries
    ensures EntryInv(Persisted(s, c, doc, at), id)
  {
    HeadCountsNew(Pass(s.entries, s.feeds[c.feed].head, 0, 0), EnvOf(s, c.feed, doc.entries, at), doc.entries);
    if id in s.entries {
      assert EntryInv(s, id);
    } else {
      AddedIsNotRetired(s, c.feed, doc.entries, at, id);
    }
  }

  lemma PersistedKeepsInv(s: Store, c: Claim, doc: Document, at: Time)
    requires Inv(s) && c.feed in s.feeds && c.run in s.runs && FreshIds(s.entries, doc.entries)
    requires var pass := PassOf(s, c.feed, doc.entries, at);
      && Grown(s.entries, pass.entries, EnvOf(s, c.feed, doc.entries, at), s.feeds[c.feed].head, pass.head)
      && WithinLimits(s, pass)
    ensures Inv(Persisted(s, c, doc, at))
  {
    var s' := Persisted(s, c, doc, at);
    forall id | id in s'.entries
      ensures EntryInv(s', id)
    {
      PersistedEntryInv(s, c, doc, at, id);
    }
    forall key | key in s'.subscriptions
      ensures SubscriptionInv(s', key)
    {
      assert SubscriptionInv(s, key);
    }
    forall key | key in s'.states
      ensures StateInv(s', key)
    {
      assert StateInv(s, key);
    }
    forall key | key in s'.outbox
      ensures EventInv(s', key)
    {
      if key.run != c.run {
        assert key in s.outbox && EventInv(s, key);
      }
    }
  }

  // ---- the statements around the loop

  /** What the statements after the loop find, having been authorized at the start. */
  ghost predicate Claimed(s: Store, c: Claim) {
    && c.feed in s.feeds && s.feeds[c.feed].leaseOwner == Some(c.owner) && s.feeds[c.feed].leaseToken == c.token
    && c.run in s.runs && s.runs[c.run].feed == c.feed && s.runs[c.run].status.Running? && s.runs[c.run].leaseToken == c.token
  }

  ghost predicate NoEvents(s: Store, run: RunId) {
    forall key :: key in s.outbox ==> key.run != run && s.outbox[key].run != run
  }

  lemma RunningHasNoEvents(s: Store, run: RunId)
    requires Inv(s) && run in s.runs && s.runs[run].status.Running?
    ensures NoEvents(s, run)
  {
    forall key | key in s.outbox
      ensures key.run != run && s.outbox[key].run != run
    {
      assert EventInv(s, key);
    }
  }

  /** The store when the loop starts: the generation is allocated if there is a new entry. */
  function Allocated(s: Store, newCount: nat): Store {
    if newCount == 0 then s else s.(generation := s.generation + 1)
  }

  /** The statements before the loop let the document through. */
  ghost predicate Admitted(s: Store, c: Claim, doc: seq<Incoming>, now: Time, at: Time) {
    && c.token > 0 && Authorized(s, c, now)
    && WithinLimits(s, PassOf(s, c.feed, doc, at))
  }

  lemma AdmittedPasses(s: Store, c: Claim, doc: seq<Incoming>, now: Time, at: Time, generation: Option<int>)
    requires Inv(s) && Admitted(s, c, doc, now, at) && GenerationFor(EnvOf(s, c.feed, doc, at), doc, generation)
    ensures Grown(s.entries, s.entries, EnvOf(s, c.feed, doc, at), s.feeds[c.feed].head, s.feeds[c.feed].head)
    ensures DistinctHashes(doc) && NoClash(s.entries, c.feed, doc) ==>
      Passes(s.entries, s.feeds[c.feed].head, EnvOf(s, c.feed, doc, at), doc, generation)
  {
    InvGrown(s, c.feed, doc, at);
    EnvExact(s, c.feed, doc, at);
  }

  /** The state between the loop and the statements after it. */
  ghost predicate Looped(s: Store, t: Store, c: Claim, doc: Document, now: Time, at: Time, env: Env,
        generation: Option<int>, pr: Progress) {
    && Inv(s) && Admitted(s, c, doc.entries, now, at)
    && env == EnvOf(s, c.feed, doc.entries, at) && GenerationFor(env, doc.entries, generation)
    && t == Allocated(s, CountNew(env, doc.entries)).(entries := t.entries)
    && Finished(s.entries, s.feeds[c.feed].head, t.entries, env, doc.entries, pr)
  }

  lemma LoopedIsPass(s: Store, t: Store, c: Claim, doc: Document, now: Time, at: Time, env: Env,
        generation: Option<int>, pr: Progress)
    requires Looped(s, t, c, doc, now, at, env, generation, pr)
    ensures var newCount := CountNew(env, doc.entries);
      && pr.head == s.feeds[c.feed].head + newCount
      && newCount == PassOf(s, c.feed, doc.entries, at).added
      && PersistResult(Counts(newCount, pr.updated, doc.dropped), generation) == ResultOf(s, c.feed, doc, at)
      && Completed(t, c, doc, ResultOf(s, c.feed, doc, at), pr.head) == Persisted(s, c, doc, at)
    ensures Claimed(t, c) && NoEvents(t, c.run)
  {
    HeadCountsNew(Pass(s.entries, s.feeds[c.feed].head, 0, 0), env, doc.entries);
    RunningHasNoEvents(s, c.run);
  }

  lemma LoopedKeepsInv(s: Store, t: Store, c: Claim, doc: Document, now: Time, at: Time, env: Env,
        generation: Option<int>, pr: Progress)
    requires Looped(s, t, c, doc, now, at, env, generation, pr) && FreshIds(s.entries, doc.entries)
    ensures Inv(Persisted(s, c, doc, at))
  {
    PersistedKeepsInv(s, c, doc, at);
  }

  // ---- the method

  class FeedRepository {
    var store: Store

    constructor (store: Store)
      ensures this.store == store
    {
      this.store := store;
    }

    /** `insert_entry_batch`. */
    method InsertBatch(pr: Progress, generation: Option<int>) returns (failure: Option<Failure>)
      requires 0 < |pr.pending| <= NEW_ENTRY_INSERT_BATCH_SIZE
      modifies this
      ensures failure.None? <==> generation.Some? && Accepted(old(store).entries, pr.pending)
      ensures failure.None? ==> store == old(store).(entries := old(store).entries + PendingMap(pr.pending))
      ensures failure.Some? ==> store == old(store)
    {
      if generation.None? { return Some(CorruptData); }
      if Accepted(store.entries, pr.pending) {
        store := store.(entries := store.entries + PendingMap(pr.pending));
        return None;
      }
      for m := 0 to |pr.pending| {
        var entry := pr.pending[m].entry;
        if exists id :: id in store.entries && Collides(store.entries, id, entry) {
          return Some(IdentityHashCollision);
        }
      }
      return Some(Database);
    }

    /** A new entry joins the pending batch, which is inserted as soon as it is full. */
    method PersistNew(env: Env, e: Incoming, pr: Progress, generation: Option<int>) returns (result: Result<Progress, Failure>)
      requires |pr.pending| < NEW_ENTRY_INSERT_BATCH_SIZE
      modifies this
      ensures result.Ok? <==> NewFits(Loop(old(store).entries, pr), env, e, generation)
      ensures store == old(store).(entries := store.entries)
      ensures result.Ok? ==> Loop(store.entries, result.value) == NewStep(Loop(old(store).entries, pr), env, e)
    {
      if pr.head >= I64_MAX { return Err(SequenceExhausted); }
      var next := Pushed(env, pr, e);
      if |next.pending| == NEW_ENTRY_INSERT_BATCH_SIZE {
        var failure := InsertBatch(next, generation);
        if failure.Some? { return Err(failure.value); }
        next := Flushed(next);
      }
      return Ok(next);
    }

    /** A live entry is compared with the row looked up for it and updated if anything differs. */
    method PersistExisting(e: Incoming, pr: Progress) returns (result: Result<Progress, Failure>)
      requires forall h :: h in pr.rows ==> pr.rows[h] in store.entries
      modifies this
      ensures store == old(store).(entries := store.entries)
      ensures var at := Loop(old(store).entries, pr);
        && (result.Ok? <==> ExistingFits(at, e) && !(Changed(at, e) && pr.updated >= I32_MAX))
        && (result.Ok? ==> Loop(store.entries, result.value) == ExistingStep(at, e))
        && (result == Err(CountOverflow) <==> ExistingFits(at, e) && Changed(at, e) && pr.updated >= I32_MAX)
      ensures result == Err(CorruptData) <==> e.identity.hash !in pr.rows
    {
      if e.identity.hash !in pr.rows { return Err(CorruptData); }
      var id := pr.rows[e.identity.hash];
      var stored := store.entries[id];
      if stored.identity != e.identity { return Err(IdentityHashCollision); }
      var metadataChanged := stored.content.meta != e.meta;
      var envelopeChanged := stored.content.body != e.body;
      var hashesChanged := stored.content.hashes != Hashes(e.sourceHash, e.contentHash, PIPELINE_VERSION);
      WrittenContentIsIncoming(stored.content, e);
      if !metadataChanged && !envelopeChanged && !hashesChanged {
        assert Updated(store.entries, id, e) == store.entries;
        return Ok(pr.(rows := pr.rows - {e.identity.hash}));
      }
      if pr.updated >= I32_MAX { return Err(CountOverflow); }
      store := store.(entries := Updated(store.entries, id, e));
      return Ok(pr.(updated := pr.updated + 1, rows := pr.rows - {e.identity.hash}));
    }

    method PersistEntry(env: Env, e: Incoming, pr: Progress, generation: Option<int>) returns (result: Result<Progress, Failure>)
      requires |pr.pending| < NEW_ENTRY_INSERT_BATCH_SIZE
      requires forall h :: h in pr.rows ==> pr.rows[h] in store.entries
      modifies this
      ensures result.Ok? <==> Fits(Loop(old(store).entries, pr), env, e, generation) && !Overflows(Loop(old(store).entries, pr), env, e)
      ensures result == Err(CountOverflow) <== Overflows(Loop(old(store).entries, pr), env, e)
      ensures store == old(store).(entries := store.entries)
      ensures result.Ok? ==> Loop(store.entries, result.value) == EntryStep(Loop(old(store).entries, pr), env, e)
    {
      if e.identity.hash in env.retired { return Ok(pr); }
      if e.identity.hash in env.existing {
        result := PersistExisting(e, pr);
      } else {
        result := PersistNew(env, e, pr, generation);
      }
    }

    /** `lock_existing_entry_batch`, with its rows keyed by identity hash. */
    method LookupBatch(feed: FeedId, doc: seq<Incoming>, lo: nat, hi: nat) returns (rows: Rows)
      requires lo <= hi <= |doc|
      ensures LookedUp(store.entries, feed, doc, lo, hi, rows)
    {
      rows := map[];
      for m := lo to hi
        invariant LookedUp(store.entries, feed, doc, lo, m, rows)
      {
        var h := doc[m].identity.hash;
        ghost var before := rows;
        if exists id :: id in store.entries && LiveWith(store.entries, feed, h, id) {
          var id :| id in store.entries && LiveWith(store.entries, feed, h, id);
          rows := rows[h := id];
        }
        LookedUpMore(store.entries, feed, doc, lo, m, before, rows);
      }
    }

    /** One entry of a lookup batch. */
    method PersistInBatch(ghost base: Entries, ghost low: int, env: Env, doc: seq<Incoming>, k: nat, ghost hi: nat,
          pr: Progress, generation: Option<int>)
      returns (result: Result<Progress, Failure>)
      requires k < hi && FreshIds(base, doc) && InBatch(base, low, Loop(store.entries, pr), env, doc, k, hi, generation)
      modifies this
      ensures store == old(store).(entries := store.entries)
      ensures result.Ok? ==> InBatch(base, low, Loop(store.entries, result.value), env, doc, k + 1, hi, generation)
      ensures Passes(base, low, env, doc, generation) ==> OnlyOverflows(base, low, env, doc, result)
    {
      ghost var at := Loop(store.entries, pr);
      result := PersistEntry(env, doc[k], pr, generation);
      InBatchFits(base, low, at, env, doc, k, hi, generation);
      if result.Ok? {
        InBatchStep(base, low, at, env, doc, k, hi, generation);
      }
    }

    /** The loop over the entries of one lookup batch. */
    method PersistRows(ghost base: Entries, ghost low: int, env: Env, doc: seq<Incoming>, lo: nat, hi: nat,
          pr: Progress, generation: Option<int>)
      returns (result: Result<Progress, Failure>)
      requires lo < hi && FreshIds(base, doc) && InBatch(base, low, Loop(store.entries, pr), env, doc, lo, hi, generation)
      modifies this
      ensures store == old(store).(entries := store.entries)
      ensures result.Ok? ==> InBatch(base, low, Loop(store.entries, result.value), env, doc, hi, hi, generation)
      ensures Passes(base, low, env, doc, generation) ==> OnlyOverflows(base, low, env, doc, result)
    {
      var now := pr;
      for k := lo to hi
        invariant store == old(store).(entries := store.entries)
        invariant InBatch(base, low, Loop(store.entries, now), env, doc, k, hi, generation)
      {
        result := PersistInBatch(base, low, env, doc, k, hi, now, generation);
        if result.Err? { return; }
        now := result.value;
      }
      return Ok(now);
    }

    /** One lookup batch: every row looked up must be used. */
    method PersistBatch(ghost base: Entries, ghost low: int, env: Env, doc: seq<Incoming>, lo: nat, hi: nat,
          pr: Progress, generation: Option<int>)
      returns (result: Result<Progress, Failure>)
      requires lo < hi <= |doc| && FreshIds(base, doc) && Between(base, low, store.entries, env, doc, lo, pr)
      modifies this
      ensures store == old(store).(entries := store.entries)
      ensures result.Ok? ==> Between(base, low, store.entries, env, doc, hi, result.value)
      ensures Passes(base, low, env, doc, generation) ==> OnlyOverflows(base, low, env, doc, result)
    {
      var rows := LookupBatch(env.feed, doc, lo, hi);
      BatchStarts(base, low, store.entries, env, doc, lo, hi, pr, rows, generation);
      result := PersistRows(base, low, env, doc, lo, hi, pr.(rows := rows), generation);
      if result.Ok? && result.value.rows != map[] {
        BatchUsedUp(base, low, Loop(store.entries, result.value), env, doc, hi, generation);
        return Err(CorruptData);
      }
    }

    /** The loop of `persist_feed_once` over lookup batches, and the last insert batch. */
    method PersistEntries(env: Env, doc: seq<Incoming>, head: int,
          generation: Option<int>) returns (result: Result<Progress, Failure>)
      requires FreshIds(store.entries, doc) && Grown(store.entries, store.entries, env, head, head)
      modifies this
      ensures store == old(store).(entries := store.entries)
      ensures result.Ok? ==> Finished(old(store).entries, head, store.entries, env, doc, result.value)
      ensures Passes(old(store).entries, head, env, doc, generation) ==> OnlyOverflows(old(store).entries, head, env, doc, result)
    {
      ghost var base := store.entries;
      var pr := Progress(head, 0, [], [], map[]);
      StartsBetween(base, head, env, doc, pr);
      var lo := 0;
      while lo < |doc|
        invariant store == old(store).(entries := store.entries)
        invariant lo <= |doc| && Between(base, head, store.entries, env, doc, lo, pr)
      {
        var hi := if lo + IDENTITY_BATCH_SIZE <= |doc| then lo + IDENTITY_BATCH_SIZE else |doc|;
        result := PersistBatch(base, head, env, doc, lo, hi, pr, generation);
        if result.Err? { return; }
        pr, lo := result.value, hi;
      }
      LastBatch(base, head, store.entries, env, doc, pr);
      if pr.pending != [] {
        if Passes(base, head, env, doc, generation) {
          LastBatchFits(base, head, store.entries, env, doc, pr, generation);
        }
        var failure := InsertBatch(pr, generation);
        if failure.Some? { return Err(failure.value); }
        pr := Flushed(pr);
      }
      return Ok(pr);
    }

    // ---- the transaction around the loop

    /** `lock_existing_identities`: the live identities that the document brings again. */
    method ExistingIdentities(feed: FeedId, doc: seq<Incoming>) returns (result: Result<set<Hash>, Failure>)
      ensures result.Ok? ==> result.value == ExistingHashes(store, feed, doc)
      ensures result.Err? ==> result.error == IdentityHashCollision
      ensures DistinctHashes(doc) ==> (result.Ok? <==> NoClash(store.entries, feed, doc))
    {
      var incoming: map<Hash, Identity> := map[];
      for k := 0 to |doc|
        invariant forall h :: h in incoming ==> exists m :: 0 <= m < k && doc[m].identity == incoming[h] && doc[m].identity.hash == h
        invariant forall m :: 0 <= m < k ==> doc[m].identity.hash in incoming
      {
        incoming := incoming[doc[k].identity.hash := doc[k].identity];
      }
      assert DistinctHashes(doc) ==> forall m :: 0 <= m < |doc| ==> incoming[doc[m].identity.hash] == doc[m].identity;
      if exists id :: id in store.entries && store.entries[id].feed == feed && Clashes(store.entries[id], incoming) {
        return Err(IdentityHashCollision);
      }
      return Ok(ExistingHashes(store, feed, doc));
    }

    /** `increment_generation`. */
    method IncrementGeneration() returns (result: Result<int, Failure>)
      requires 0 <= store.generation <= I64_MAX
      modifies this
      ensures result == if old(store).generation == I64_MAX then Err(GenerationExhausted) else Ok(old(store).generation + 1)
      ensures store == if result.Ok? then old(store).(generation := old(store).generation + 1) else old(store)
    {
      if store.generation + 1 > I64_MAX { return Err(GenerationExhausted); }
      store := store.(generation := store.generation + 1);
      return Ok(store.generation);
    }

    /** `record_event`: an event already there must be the same one. */
    method RecordEvent(key: EventKey, event: Event) returns (failure: Option<Failure>)
      modifies this
      ensures failure.None? ==> store == old(store).(outbox := old(store).outbox[key := event])
      ensures failure.Some? ==> store == old(store) && failure.value == LifecycleEventConflict
      ensures failure.None? <==>
        if key in old(store).outbox then old(store).outbox[key] == event
        else forall other :: other in old(store).outbox ==>
          !(old(store).outbox[other].run == event.run && old(store).outbox[other].order == event.order)
    {
      if key in store.outbox {
        if store.outbox[key] != event { return Some(LifecycleEventConflict); }
        assert store.outbox[key := event] == store.outbox;
        return None;
      }
      if exists other :: other in store.outbox && store.outbox[other].run == event.run && store.outbox[other].order == event.order {
        return Some(LifecycleEventConflict);
      }
      store := store.(outbox := store.outbox[key := event]);
      return None;
    }

    /** The statements after the loop: feed, run, lease, and the two lifecycle events. */
    method CompleteRun(c: Claim, doc: Document, persisted: PersistResult,
          head: int) returns (result: Result<PersistResult, Failure>)
      requires c.feed in store.feeds && c.run in store.runs
      modifies this
      ensures result.Ok? ==> result.value == persisted && store == Completed(old(store), c, doc, persisted, head)
      ensures Claimed(old(store), c) && NoEvents(old(store), c.run) ==> result.Ok?
    {
      var feed := store.feeds[c.feed];
      if feed.leaseOwner != Some(c.owner) || feed.leaseToken != c.token { return Err(LeaseIsLost); }
      store := store.(feeds := store.feeds[c.feed := feed.(head := head)]);
      var run := store.runs[c.run];
      if run.feed != c.feed || !run.status.Running? || run.leaseToken != c.token { return Err(LeaseIsLost); }
      store := store.(runs := store.runs[c.run := run.(
        status := StatusOf(doc), counts := persisted.counts, generation := persisted.generation)]);
      feed := store.feeds[c.feed];
      if feed.leaseOwner != Some(c.owner) || feed.leaseToken != c.token { return Err(LeaseIsLost); }
      store := store.(feeds := store.feeds[c.feed := feed.(leaseOwner := None, leaseUntil := None)]);
      var failure := RecordEvent(PersistedKey(c.run), PersistedEvent(c, persisted));
      if failure.Some? { return Err(failure.value); }
      failure := RecordEvent(CompletedKey(c.run), CompletedEvent(c, StatusOf(doc), persisted.counts));
      return if failure.Some? then Err(failure.value) else Ok(persisted);
    }

    /** The statements before the loop: authorization, identities and the generation. */
    method Admit(c: Claim, doc: seq<Incoming>, now: Time, at: Time) returns (result: Result<(Env, Option<int>), Failure>)
      requires Inv(store)
      modifies this
      ensures result.Ok? ==> Admitted(old(store), c, doc, now, at)
      ensures result.Ok? ==>
        && result.value.0 == EnvOf(old(store), c.feed, doc, at)
        && GenerationFor(result.value.0, doc, result.value.1)
        && store == Allocated(old(store), CountNew(result.value.0, doc))
      ensures DistinctHashes(doc) ==>
        if result.Ok? then NoClash(store.entries, c.feed, doc)
        else forall dropped :: Refusal(old(store), c, Document(doc, dropped), now, at) == Some(result.error)
    {
      if c.token <= 0 { return Err(InvalidRequest); }
      if c.feed !in store.feeds { return Err(LeaseIsLost); }
      if !Authorized(store, c, now) { return Err(LeaseIsLost); }
      var head := store.feeds[c.feed].head;
      var existing := ExistingIdentities(c.feed, doc);
      if existing.Err? { return Err(existing.error); }
      var env := Env(c.feed, existing.value, RetiredHashes(store, c.feed, doc), store.generation + 1, at);
      assert env == EnvOf(store, c.feed, doc, at);
      HeadCountsNew(Pass(store.entries, head, 0, 0), env, doc);
      var newCount := CountNew(env, doc);
      var generation := None;
      if newCount != 0 {
        var next := IncrementGeneration();
        if next.Err? { return Err(next.error); }
        generation := Some(next.value);
      }
      if head + newCount > I64_MAX { return Err(SequenceExhausted); }
      return Ok((env, generation));
    }

    /** From the end of the loop to the commit. */
    method Finish(ghost s: Store, c: Claim, doc: Document, ghost now: Time, at: Time, env: Env,
          generation: Option<int>, progress: Progress)
      returns (result: Result<PersistResult, Failure>)
      requires Looped(s, store, c, doc, now, at, env, generation, progress)
      modifies this
      ensures result.Ok? ==> store == Persisted(s, c, doc, at) && result.value == ResultOf(s, c.feed, doc, at)
      ensures result.Err? ==> result.error == CountOverflow && PassOf(s, c.feed, doc.entries, at).added > I32_MAX
      ensures result.Ok? ==> PassOf(s, c.feed, doc.entries, at).added <= I32_MAX
    {
      LoopedIsPass(s, store, c, doc, now, at, env, generation, progress);
      var newCount := CountNew(env, doc.entries);
      if newCount > I32_MAX { return Err(CountOverflow); }
      var head := store.feeds[c.feed].head + newCount;
      if progress.head != head { return Err(CorruptData); }
      var persisted := PersistResult(Counts(newCount, progress.updated, doc.dropped), generation);
      result := CompleteRun(c, doc, persisted, head);
    }

    /** Everything between the begin and the commit. */
    method Transact(c: Claim, doc: Document, now: Time, at: Time) returns (result: Result<PersistResult, Failure>)
      requires Inv(store) && (Authorized(store, c, now) ==> FreshIds(store.entries, doc.entries))
      modifies this
      ensures result.Ok? ==>
        && Admitted(old(store), c, doc.entries, now, at)
        && store == Persisted(old(store), c, doc, at) && Inv(store)
        && result.value == ResultOf(old(store), c.feed, doc, at)
      ensures DistinctHashes(doc.entries) ==>
        Refusal(old(store), c, doc, now, at) == if result.Ok? then None else Some(result.error)
    {
      ghost var s := store;
      var admitted := Admit(c, doc.entries, now, at);
      if admitted.Err? { return Err(admitted.error); }
      var (env, generation) := admitted.value;
      var head := store.feeds[c.feed].head;
      AdmittedPasses(s, c, doc.entries, now, at, generation);
      var progress := PersistEntries(env, doc.entries, head, generation);
      if progress.Err? { return Err(progress.error); }
      LoopedKeepsInv(s, store, c, doc, now, at, env, generation, progress.value);
      result := Finish(s, c, doc, now, at, env, generation, progress.value);
    }

    /** One attempt: the document is persisted as the plain pass would, or nothing has happened. A
        document without repeated identities is refused for the listed causes only, so that neither
        the data checks nor the event conflicts can be met. */
    method PersistFeedOnce(c: Claim, doc: Document, now: Time, at: Time) returns (result: Result<PersistResult, Failure>)
      requires Inv(store) && (Authorized(store, c, now) ==> FreshIds(store.entries, doc.entries))
      modifies this
      ensures Inv(store)
      ensures result.Err? ==> store == old(store)
      ensures result.Ok? ==>
        && Admitted(old(store), c, doc.entries, now, at)
        && store == Persisted(old(store), c, doc, at)
        && result.value == ResultOf(old(store), c.feed, doc, at)
      ensures DistinctHashes(doc.entries) ==>
        Refusal(old(store), c, doc, now, at) == if result.Ok? then None else Some(result.error)
    {
      var begin := store;
      result := Transact(c, doc, now, at);
      if result.Err? { store := begin; }
    }
  }

  /** A run that has persisted its document ends in success, or in partial success when the parser has
      dropped entries, and with the counts of the document; the lease of the feed is released. */
  lemma PersistedRunSays(s: Store, c: Claim, doc: Document, at: Time)
    requires c.feed in s.feeds && c.run in s.runs
    ensures var s' := Persisted(s, c, doc, at); var env := EnvOf(s, c.feed, doc.entries, at);
      && c.run in s'.runs && c.feed in s'.feeds
      && (s'.runs[c.run].status == Success <==> doc.dropped == 0)
      && (s'.runs[c.run].status == RunStatus.Partial <==> doc.dropped > 0)
      && s'.runs[c.run].counts.dropped == doc.dropped
      && s'.runs[c.run].counts.added == CountNew(env, doc.entries)
      && s'.feeds[c.feed].head == s.feeds[c.feed].head + CountNew(env, doc.entries)
      && s'.feeds[c.feed].leaseOwner.None? && s'.feeds[c.feed].leaseUntil.None?
  {
    HeadCountsNew(Pass(s.entries, s.feeds[c.feed].head, 0, 0), EnvOf(s, c.feed, doc.entries, at), doc.entries);
  }

  /** The feed is leased to the owner under the token, the lease has not ended, and the run of that token
      is still running. */
  ghost predicate Leased(s: Store, c: Claim, now: Time) {
    && c.feed in s.feeds && c.run in s.runs
    && s.feeds[c.feed].leaseOwner == Some(c.owner) && s.feeds[c.feed].leaseToken == c.token
    && (exists end :: s.feeds[c.feed].leaseUntil == Some(end) && end > now)
    && s.runs[c.run].feed == c.feed && s.runs[c.run].leaseToken == c.token && s.runs[c.run].status == Running
  }

  /** A document is refused for want of the lease exactly when the claim has a token but not the lease. */
  lemma RefusedWithoutLease(s: Store, c: Claim, doc: Document, now: Time, at: Time)
    ensures Refusal(s, c, doc, now, at) == Some(LeaseIsLost) <==> c.token > 0 && !Leased(s, c, now)
    ensures Refusal(s, c, doc, now, at) == Some(InvalidRequest) <==> c.token <= 0
  {
    assert Authorized(s, c, now) <==> Leased(s, c, now);
  }
}
