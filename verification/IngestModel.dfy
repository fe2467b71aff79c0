/** Ingesting a parsed document one entry at a time: what `persist_feed_once` means, without its
    lookup and insert batches (`src/feeds/persistence.rs`). */
module IngestModel {
  import opened Outcomes
  import opened ReaderModel

  const PIPELINE_VERSION: string := "sanitize-v1"

  /** A parsed entry under the new identifier it would be inserted with. */
  datatype Incoming = Incoming(
    id: EntryId, identity: Identity, meta: Metadata, body: string, sourceHash: string, contentHash: string)

  datatype Claim = Claim(run: RunId, feed: FeedId, owner: Owner, token: int)

  /** What stays fixed while the entries of a document are persisted: the identities that were live
      or retired at the start, the generation for new entries, and the insertion time. */
  datatype Env = Env(
    feed: FeedId, existing: set<Hash>, retired: set<Hash>, generation: int, at: Time)

  datatype Pass = Pass(entries: Entries, head: int, updated: nat, added: nat)

  // ---- one entry

  function StoredContent(e: Incoming): Content {
    Content(e.meta, e.body, Hashes(e.sourceHash, e.contentHash, PIPELINE_VERSION))
  }

  function NewEntry(env: Env, e: Incoming, sequence: int): Entry {
    Entry(env.feed, sequence, env.generation, e.identity, StoredContent(e),
      if e.meta.publishedAtUs.Some? then e.meta.publishedAtUs.value else env.at, env.at)
  }

  /** The columns written by `update_existing_entry`, which picks one of three statements. */
  function WrittenContent(stored: Content, e: Incoming): Content {
    var hashesChanged := stored.hashes.source != e.sourceHash || stored.hashes.content != e.contentHash ||
      stored.hashes.pipeline != PIPELINE_VERSION;
    if hashesChanged then stored.(meta := e.meta, body := e.body, hashes := Hashes(e.sourceHash, e.contentHash, PIPELINE_VERSION))
    else if stored.body != e.body then stored.(meta := e.meta, body := e.body)
    else stored.(meta := e.meta)
  }

  /** Whichever statement is picked, the row then holds the incoming content. */
  lemma WrittenContentIsIncoming(stored: Content, e: Incoming)
    ensures WrittenContent(stored, e) == StoredContent(e)
  {
  }

  predicate LiveWith(entries: Entries, feed: FeedId, hash: Hash, id: EntryId) {
    id in entries && entries[id].feed == feed && entries[id].identity.hash == hash
  }

  predicate Stale(entries: Entries, feed: FeedId, e: Incoming) {
    exists id :: id in entries && LiveWith(entries, feed, e.identity.hash, id) && entries[id].content != StoredContent(e)
  }

  function Refresh(entries: Entries, feed: FeedId, e: Incoming): Entries {
    map id | id in entries ::
      if LiveWith(entries, feed, e.identity.hash, id) then entries[id].(content := StoredContent(e)) else entries[id]
  }

  predicate IsNew(env: Env, e: Incoming) {
    e.identity.hash !in env.retired && e.identity.hash !in env.existing
  }

  /** A retired identity is skipped, a live one is updated, any other gets the next sequence. */
  function Step(p: Pass, env: Env, e: Incoming): Pass {
    if e.identity.hash in env.retired then p
    else if e.identity.hash in env.existing then
      p.(entries := Refresh(p.entries, env.feed, e),
         updated := p.updated + if Stale(p.entries, env.feed, e) then 1 else 0)
    else
      Pass(p.entries[e.id := NewEntry(env, e, p.head + 1)], p.head + 1, p.updated, p.added + 1)
  }

  /** The plain pass over a document, in document order. */
  function OneByOne(p: Pass, env: Env, doc: seq<Incoming>): Pass {
    if doc == [] then p else Step(OneByOne(p, env, doc[..|doc| - 1]), env, doc[|doc| - 1])
  }

  lemma OneMore(p: Pass, env: Env, doc: seq<Incoming>, k: nat)
    requires k < |doc|
    ensures OneByOne(p, env, doc[..k + 1]) == Step(OneByOne(p, env, doc[..k]), env, doc[k])
  {
    assert doc[..k + 1][..k] == doc[..k];
  }

  function CountNew(env: Env, doc: seq<Incoming>): nat {
    if doc == [] then 0 else CountNew(env, doc[..|doc| - 1]) + if IsNew(env, doc[|doc| - 1]) then 1 else 0
  }

  /** The plain pass hands out consecutive sequences, one for each new entry. */
  lemma {:induction false} HeadCountsNew(p: Pass, env: Env, doc: seq<Incoming>)
    ensures OneByOne(p, env, doc).head == p.head + CountNew(env, doc)
    ensures OneByOne(p, env, doc).added == p.added + CountNew(env, doc)
    ensures OneByOne(p, env, doc).updated <= p.updated + |doc|
  {
    if doc != [] {
      HeadCountsNew(p, env, doc[..|doc| - 1]);
    }
  }

  lemma {:induction false} CountNewMonotone(env: Env, doc: seq<Incoming>, k: nat)
    requires k <= |doc|
    ensures CountNew(env, doc[..k]) <= CountNew(env, doc)
    ensures k < |doc| && IsNew(env, doc[k]) ==> CountNew(env, doc[..k]) < CountNew(env, doc)
  {
    if k == |doc| {
      assert doc[..k] == doc;
    } else {
      var init := doc[..|doc| - 1];
      assert init[..k] == doc[..k];
      CountNewMonotone(env, init, k);
    }
  }

  lemma {:induction false} UpdatedMonotone(p: Pass, env: Env, doc: seq<Incoming>, k: nat)
    requires k <= |doc|
    ensures OneByOne(p, env, doc[..k]).updated <= OneByOne(p, env, doc).updated
  {
    if k == |doc| {
      assert doc[..k] == doc;
    } else {
      var init := doc[..|doc| - 1];
      assert init[..k] == doc[..k];
      UpdatedMonotone(p, env, init, k);
    }
  }

  // ---- a whole document

  ghost predicate DistinctHashes(doc: seq<Incoming>) {
    forall i, j :: 0 <= i < j < |doc| ==> doc[i].identity.hash != doc[j].identity.hash
  }

  ghost predicate FreshIds(entries: Entries, doc: seq<Incoming>) {
    && (forall i :: 0 <= i < |doc| ==> doc[i].id !in entries)
    && (forall i, j :: 0 <= i < j < |doc| ==> doc[i].id != doc[j].id)
  }

  /** Each new entry of a document is stored under its identifier, with the sequence that its place
      among the new entries gives it, the generation of the ingest, and its sort time. */
  lemma {:induction false} NewEntriesInOrder(p: Pass, env: Env, doc: seq<Incoming>, k: nat)
    requires k < |doc| && IsNew(env, doc[k]) && DistinctHashes(doc) && FreshIds(p.entries, doc)
    ensures var entries := OneByOne(p, env, doc).entries;
      doc[k].id in entries && entries[doc[k].id] == NewEntry(env, doc[k], p.head + 1 + CountNew(env, doc[..k]))
  {
    var init := doc[..|doc| - 1];
    var last := doc[|doc| - 1];
    if k == |doc| - 1 {
      HeadCountsNew(p, env, init);
    } else {
      NewEntriesInOrder(p, env, init, k);
      assert init[..k] == doc[..k];
      assert doc[k].identity.hash != last.identity.hash && doc[k].id != last.id;
    }
  }

  /** Stored entries keep everything but their content; those whose identity the document brings
      again and that are not retired hold the document's content afterwards. */
  lemma {:induction false} OldEntriesRefreshed(p: Pass, env: Env, doc: seq<Incoming>, id: EntryId)
    requires id in p.entries && DistinctHashes(doc) && FreshIds(p.entries, doc)
    ensures var entries := OneByOne(p, env, doc).entries;
      && id in entries && entries[id] == p.entries[id].(content := entries[id].content)
      && (forall k :: 0 <= k < |doc| ==> (Refreshes(p, env, doc, k, id) ==> entries[id].content == StoredContent(doc[k])))
      && ((forall k :: 0 <= k < |doc| ==> !Refreshes(p, env, doc, k, id)) ==> entries[id] == p.entries[id])
  {
    if doc != [] {
      var init := doc[..|doc| - 1];
      OldEntriesRefreshed(p, env, init, id);
      forall k | 0 <= k < |init|
        ensures Refreshes(p, env, doc, k, id) <==> Refreshes(p, env, init, k, id)
      {
        assert init[k] == doc[k];
      }
      assert doc[|doc| - 1].id != id;
      assert !Refreshes(p, env, doc, |doc| - 1, id) ==>
        OneByOne(p, env, doc).entries[id] == OneByOne(p, env, init).entries[id];
      forall k | 0 <= k < |init| && Refreshes(p, env, doc, k, id)
        ensures !Refreshes(p, env, doc, |doc| - 1, id)
      {
      }
    }
  }

  ghost predicate Refreshes(p: Pass, env: Env, doc: seq<Incoming>, k: nat, id: EntryId)
    requires k < |doc|
  {
    && doc[k].identity.hash in env.existing && doc[k].identity.hash !in env.retired
    && LiveWith(p.entries, env.feed, doc[k].identity.hash, id)
  }

  /** The pass brings in nothing but the new entries of the document. */
  lemma {:induction false} NothingElseAdded(p: Pass, env: Env, doc: seq<Incoming>, id: EntryId)
    requires id in OneByOne(p, env, doc).entries && id !in p.entries
    ensures exists k :: 0 <= k < |doc| && doc[k].id == id && IsNew(env, doc[k])
  {
    var init := doc[..|doc| - 1];
    var last := doc[|doc| - 1];
    if id in OneByOne(p, env, init).entries {
      NothingElseAdded(p, env, init, id);
      var k :| 0 <= k < |init| && init[k].id == id && IsNew(env, init[k]);
      assert doc[k] == init[k];
    } else {
      assert last.id == id && IsNew(env, last);
    }
  }

  /** A new entry has the time at which it was published as its sort time, or for want of one the time of
      the ingest, and holds the content of the document. */
  lemma NewEntrySays(p: Pass, env: Env, doc: seq<Incoming>, k: nat)
    requires k < |doc| && IsNew(env, doc[k]) && DistinctHashes(doc) && FreshIds(p.entries, doc)
    ensures doc[k].id in OneByOne(p, env, doc).entries
    ensures var entry := OneByOne(p, env, doc).entries[doc[k].id];
      && entry.feed == env.feed && entry.identity == doc[k].identity
      && entry.generation == env.generation && entry.insertedAt == env.at
      && (doc[k].meta.publishedAtUs.Some? ==> entry.sortAtUs == doc[k].meta.publishedAtUs.value)
      && (doc[k].meta.publishedAtUs.None? ==> entry.sortAtUs == env.at)
      && entry.content.meta == doc[k].meta && entry.content.body == doc[k].body
      && entry.content.hashes == Hashes(doc[k].sourceHash, doc[k].contentHash, "sanitize-v1")
  {
    NewEntriesInOrder(p, env, doc, k);
  }
}
