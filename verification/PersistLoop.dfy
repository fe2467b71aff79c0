/** The loop of `persist_feed_once` as steps on its variables, with the invariants that tie the
    batched loop to the plain pass (`src/feeds/persistence.rs`). */
module PersistLoop {
  import opened Outcomes
  import opened ReaderModel
  import opened IngestModel
  import opened Persistence

  // ---- rows looked up for a batch

  ghost predicate RowsValid(entries: Entries, feed: FeedId, rows: Rows) {
    forall h :: h in rows ==> LiveWith(entries, feed, h, rows[h])
  }

  ghost predicate Brings(doc: seq<Incoming>, lo: nat, hi: nat, h: Hash) {
    exists m :: lo <= m < hi <= |doc| && doc[m].identity.hash == h
  }

  /** The rows not yet used are those of the live identities in the rest of the batch. */
  ghost predicate RowsExact(env: Env, doc: seq<Incoming>, lo: nat, hi: nat, rows: Rows) {
    forall h :: h in rows <==> Brings(doc, lo, hi, h) && h in env.existing
  }

  ghost predicate NoClash(entries: Entries, feed: FeedId, doc: seq<Incoming>) {
    forall k, id :: 0 <= k < |doc| && id in entries && LiveWith(entries, feed, doc[k].identity.hash, id) ==>
      entries[id].identity == doc[k].identity
  }

  /** Nothing about the document stands in the way of persisting it. */
  ghost predicate Smooth(base: Entries, low: int, env: Env, doc: seq<Incoming>) {
    var pass := OneByOne(Pass(base, low, 0, 0), env, doc);
    && DistinctHashes(doc)
    && ExistingExact(base, env, doc)
    && env.retired !! env.existing
    && NoClash(base, env.feed, doc)
    && pass.head <= I64_MAX
  }

  /** `generation` is absent exactly when the document has no new entry. */
  ghost predicate GenerationFor(env: Env, doc: seq<Incoming>, generation: Option<int>) {
    generation == if CountNew(env, doc) == 0 then None else Some(env.generation)
  }

  lemma BringsNext(doc: seq<Incoming>, lo: nat, hi: nat, h: Hash)
    requires lo < hi <= |doc|
    ensures Brings(doc, lo, hi, h) <==> doc[lo].identity.hash == h || Brings(doc, lo + 1, hi, h)
  {
    if Brings(doc, lo, hi, h) && doc[lo].identity.hash != h {
      var m :| lo <= m < hi <= |doc| && doc[m].identity.hash == h;
      assert lo + 1 <= m;
    }
  }

  lemma RowsSkip(env: Env, doc: seq<Incoming>, lo: nat, hi: nat, rows: Rows)
    requires lo < hi <= |doc| && RowsExact(env, doc, lo, hi, rows) && doc[lo].identity.hash !in env.existing
    ensures RowsExact(env, doc, lo + 1, hi, rows)
  {
    forall h
      ensures h in rows <==> Brings(doc, lo + 1, hi, h) && h in env.existing
    {
      BringsNext(doc, lo, hi, h);
    }
  }

  lemma RowsUse(env: Env, doc: seq<Incoming>, lo: nat, hi: nat, rows: Rows)
    requires lo < hi <= |doc| && RowsExact(env, doc, lo, hi, rows) && DistinctHashes(doc)
    ensures doc[lo].identity.hash in env.existing ==> doc[lo].identity.hash in rows
    ensures RowsExact(env, doc, lo + 1, hi, rows - {doc[lo].identity.hash})
  {
    forall h
      ensures h in rows - {doc[lo].identity.hash} <==> Brings(doc, lo + 1, hi, h) && h in env.existing
    {
      BringsNext(doc, lo, hi, h);
    }
    BringsNext(doc, lo, hi, doc[lo].identity.hash);
  }

  // ---- the loop body as a function of its variables

  /** The stored entries and the loop variables. */
  datatype Loop = Loop(entries: Entries, pr: Progress)

  function NewStep(at: Loop, env: Env, e: Incoming): Loop {
    var next := Pushed(env, at.pr, e);
    if |next.pending| == NEW_ENTRY_INSERT_BATCH_SIZE
    then Loop(at.entries + PendingMap(next.pending), Flushed(next))
    else Loop(at.entries, next)
  }

  predicate NewFits(at: Loop, env: Env, e: Incoming, generation: Option<int>) {
    && at.pr.head < I64_MAX
    && (|at.pr.pending| + 1 == NEW_ENTRY_INSERT_BATCH_SIZE ==>
      generation.Some? && Accepted(at.entries, Pushed(env, at.pr, e).pending))
  }

  predicate Changed(at: Loop, e: Incoming)
    requires ExistingFits(at, e)
  {
    at.entries[at.pr.rows[e.identity.hash]].content != StoredContent(e)
  }

  predicate ExistingFits(at: Loop, e: Incoming) {
    && e.identity.hash in at.pr.rows
    && at.pr.rows[e.identity.hash] in at.entries
    && at.entries[at.pr.rows[e.identity.hash]].identity == e.identity
  }

  function ExistingStep(at: Loop, e: Incoming): Loop
    requires ExistingFits(at, e)
  {
    var id := at.pr.rows[e.identity.hash];
    Loop(Updated(at.entries, id, e),
      at.pr.(updated := at.pr.updated + if Changed(at, e) then 1 else 0, rows := at.pr.rows - {e.identity.hash}))
  }

  predicate Fits(at: Loop, env: Env, e: Incoming, generation: Option<int>) {
    if e.identity.hash in env.retired then true
    else if e.identity.hash in env.existing then ExistingFits(at, e)
    else NewFits(at, env, e, generation)
  }

  /** One update more than the counter can hold. */
  predicate Overflows(at: Loop, env: Env, e: Incoming) {
    && e.identity.hash !in env.retired && e.identity.hash in env.existing
    && ExistingFits(at, e) && Changed(at, e) && at.pr.updated >= I32_MAX
  }

  function EntryStep(at: Loop, env: Env, e: Incoming): Loop
    requires e.identity.hash in env.existing && e.identity.hash !in env.retired ==> ExistingFits(at, e)
  {
    if e.identity.hash in env.retired then at
    else if e.identity.hash in env.existing then ExistingStep(at, e)
    else NewStep(at, env, e)
  }

  /** The loop invariant. */
  ghost predicate Holds(base: Entries, low: int, at: Loop, env: Env, doc: seq<Incoming>, k: nat)
    requires k <= |doc|
  {
    && Tracks(base, low, at.entries, env, doc, k, at.pr)
    && |at.pr.pending| < NEW_ENTRY_INSERT_BATCH_SIZE
    && at.pr.updated <= I32_MAX
    && RowsValid(at.entries, env.feed, at.pr.rows)
  }

  lemma NewStepHolds(base: Entries, low: int, at: Loop, env: Env, doc: seq<Incoming>, k: nat, generation: Option<int>)
    requires k < |doc| && Holds(base, low, at, env, doc, k) && FreshIds(base, doc)
    requires IsNew(env, doc[k]) && NewFits(at, env, doc[k], generation)
    ensures Holds(base, low, NewStep(at, env, doc[k]), env, doc, k + 1)
  {
    var next := Pushed(env, at.pr, doc[k]);
    TracksPush(base, low, at.entries, env, doc, k, at.pr);
    if |next.pending| == NEW_ENTRY_INSERT_BATCH_SIZE {
      TracksFlush(base, low, at.entries, env, doc, k + 1, next);
      KeepsStored(at.entries, next);
    }
  }

  lemma RowsKept(entries: Entries, feed: FeedId, rows: Rows, id: EntryId, e: Incoming)
    requires RowsValid(entries, feed, rows) && id in entries
    ensures RowsValid(Updated(entries, id, e), feed, rows - {e.identity.hash})
  {
  }

  lemma ExistingStepTracks(base: Entries, low: int, at: Loop, env: Env, doc: seq<Incoming>, k: nat)
    requires k < |doc| && Tracks(base, low, at.entries, env, doc, k, at.pr) && RowsValid(at.entries, env.feed, at.pr.rows)
    requires doc[k].identity.hash !in env.retired && doc[k].identity.hash in env.existing && ExistingFits(at, doc[k])
    ensures Tracks(base, low, ExistingStep(at, doc[k]).entries, env, doc, k + 1, ExistingStep(at, doc[k]).pr)
  {
    TracksUpdate(base, low, at.entries, env, doc, k, at.pr, at.pr.rows[doc[k].identity.hash], ExistingStep(at, doc[k]).pr);
  }

  lemma ExistingStepHolds(base: Entries, low: int, at: Loop, env: Env, doc: seq<Incoming>, k: nat)
    requires k < |doc| && Holds(base, low, at, env, doc, k)
    requires doc[k].identity.hash !in env.retired && doc[k].identity.hash in env.existing && ExistingFits(at, doc[k])
    requires !Overflows(at, env, doc[k])
    ensures Holds(base, low, ExistingStep(at, doc[k]), env, doc, k + 1)
  {
    ExistingStepTracks(base, low, at, env, doc, k);
    RowsKept(at.entries, env.feed, at.pr.rows, at.pr.rows[doc[k].identity.hash], doc[k]);
  }

  lemma StepHolds(base: Entries, low: int, at: Loop, env: Env, doc: seq<Incoming>, k: nat, generation: Option<int>)
    requires k < |doc| && Holds(base, low, at, env, doc, k) && FreshIds(base, doc)
    requires Fits(at, env, doc[k], generation) && !Overflows(at, env, doc[k])
    ensures Holds(base, low, EntryStep(at, env, doc[k]), env, doc, k + 1)
  {
    if doc[k].identity.hash in env.retired {
      TracksSkip(base, low, at.entries, env, doc, k, at.pr);
    } else if doc[k].identity.hash in env.existing {
      ExistingStepHolds(base, low, at, env, doc, k);
    } else {
      NewStepHolds(base, low, at, env, doc, k, generation);
    }
  }

  // ---- a smooth document never fails

  lemma SmoothNewFits(base: Entries, low: int, at: Loop, env: Env, doc: seq<Incoming>, k: nat, generation: Option<int>)
    requires k < |doc| && Holds(base, low, at, env, doc, k) && FreshIds(base, doc)
    requires Smooth(base, low, env, doc) && GenerationFor(env, doc, generation) && IsNew(env, doc[k])
    ensures NewFits(at, env, doc[k], generation)
  {
    NewWithinHead(base, low, env, doc, k);
    var next := Pushed(env, at.pr, doc[k]);
    TracksPush(base, low, at.entries, env, doc, k, at.pr);
    PendingAccepted(base, low, at.entries, env, doc, k + 1, next);
  }

  lemma SmoothExistingFits(base: Entries, low: int, at: Loop, env: Env, doc: seq<Incoming>, k: nat)
    requires k < |doc| && Holds(base, low, at, env, doc, k) && Smooth(base, low, env, doc)
    requires doc[k].identity.hash !in env.retired && doc[k].identity.hash in env.existing
    requires doc[k].identity.hash in at.pr.rows
    ensures ExistingFits(at, doc[k])
    ensures Overflows(at, env, doc[k]) ==> OneByOne(Pass(base, low, 0, 0), env, doc).updated > I32_MAX
  {
    var id := at.pr.rows[doc[k].identity.hash];
    assert LiveWith(at.entries, env.feed, doc[k].identity.hash, id);
    assert id in base && LiveWith(base, env.feed, doc[k].identity.hash, id);
    ExistingStepTracks(base, low, at, env, doc, k);
    UpdatedMonotone(Pass(base, low, 0, 0), env, doc, k + 1);
  }

  /** A smooth document passes every check of the loop but the update count, and uses up exactly the rows looked up. */
  lemma SmoothFits(base: Entries, low: int, at: Loop, env: Env, doc: seq<Incoming>, k: nat, hi: nat, generation: Option<int>)
    requires k < hi <= |doc| && Holds(base, low, at, env, doc, k) && FreshIds(base, doc)
    requires Smooth(base, low, env, doc) && GenerationFor(env, doc, generation)
    requires RowsExact(env, doc, k, hi, at.pr.rows)
    ensures Fits(at, env, doc[k], generation)
    ensures Overflows(at, env, doc[k]) ==> OneByOne(Pass(base, low, 0, 0), env, doc).updated > I32_MAX
    ensures RowsExact(env, doc, k + 1, hi, EntryStep(at, env, doc[k]).pr.rows)
  {
    RowsUse(env, doc, k, hi, at.pr.rows);
    if doc[k].identity.hash in env.existing {
      SmoothExistingFits(base, low, at, env, doc, k);
    } else {
      RowsSkip(env, doc, k, hi, at.pr.rows);
      if doc[k].identity.hash !in env.retired {
        SmoothNewFits(base, low, at, env, doc, k, generation);
      }
    }
  }

  // ---- a lookup batch

  lemma BringsLast(doc: seq<Incoming>, lo: nat, hi: nat, h: Hash)
    requires lo <= hi < |doc|
    ensures Brings(doc, lo, hi + 1, h) <==> Brings(doc, lo, hi, h) || doc[hi].identity.hash == h
  {
    if Brings(doc, lo, hi + 1, h) && doc[hi].identity.hash != h {
      var m :| lo <= m < hi + 1 <= |doc| && doc[m].identity.hash == h;
      assert m < hi;
    }
    if Brings(doc, lo, hi, h) {
      var m :| lo <= m < hi <= |doc| && doc[m].identity.hash == h;
      assert m < hi + 1;
    }
  }

  /** The rows of a batch of the document. */
  ghost predicate LookedUp(entries: Entries, feed: FeedId, doc: seq<Incoming>, lo: nat, hi: nat, rows: Rows) {
    && RowsValid(entries, feed, rows)
    && (forall h :: h in rows <==> Brings(doc, lo, hi, h) && Live(entries, feed, h))
  }

  lemma LookedUpMore(entries: Entries, feed: FeedId, doc: seq<Incoming>, lo: nat, hi: nat, rows: Rows, rows': Rows)
    requires lo <= hi < |doc| && LookedUp(entries, feed, doc, lo, hi, rows)
    requires RowsValid(entries, feed, rows')
    requires rows'.Keys == if Live(entries, feed, doc[hi].identity.hash) then rows.Keys + {doc[hi].identity.hash} else rows.Keys
    ensures LookedUp(entries, feed, doc, lo, hi + 1, rows')
  {
    forall h
      ensures h in rows' <==> Brings(doc, lo, hi + 1, h) && Live(entries, feed, h)
    {
      BringsLast(doc, lo, hi, h);
      assert h in rows' <==> h in rows'.Keys;
    }
  }

  /** Of the identities still to come, those live now are those that were live at the start. */
  lemma StillLive(base: Entries, low: int, entries: Entries, env: Env, doc: seq<Incoming>, k: nat, pr: Progress, m: nat)
    requires k <= m < |doc| && FreshIds(base, doc) && DistinctHashes(doc) && ExistingExact(base, env, doc)
    requires Tracks(base, low, entries, env, doc, k, pr)
    ensures Live(entries, env.feed, doc[m].identity.hash) <==> doc[m].identity.hash in env.existing
  {
    var h := doc[m].identity.hash;
    assert h in env.existing <==> Live(base, env.feed, h);
    if Live(base, env.feed, h) {
      var id :| id in base && LiveWith(base, env.feed, h, id);
      assert LiveWith(entries, env.feed, h, id);
    }
    if Live(entries, env.feed, h) {
      var id :| id in entries && LiveWith(entries, env.feed, h, id);
      if id in base {
        assert LiveWith(base, env.feed, h, id);
      } else {
        StoredComesFromPrefix(base, low, entries, env, doc, k, pr, id);
        assert false;
      }
    }
  }

  /** A row added so far has the identity of an entry already passed. */
  lemma StoredComesFromPrefix(base: Entries, low: int, entries: Entries, env: Env, doc: seq<Incoming>, k: nat,
        pr: Progress, id: EntryId)
    requires k <= |doc| && FreshIds(base, doc) && Tracks(base, low, entries, env, doc, k, pr)
    requires id in entries && id !in base
    ensures exists n :: 0 <= n < k && doc[n].identity == entries[id].identity
  {
    var p := Pass(base, low, 0, 0);
    FreshPrefix(base, doc, k);
    KeepsStored(entries, pr);
    assert id in entries + PendingMap(pr.pending);
    AddedFromDocument(p, env, doc[..k], id);
    var n :| 0 <= n < k && ComesFrom(OneByOne(p, env, doc[..k]), env, doc[..k], id, n);
    assert doc[n] == doc[..k][n];
  }

  lemma LookupExact(base: Entries, low: int, entries: Entries, env: Env, doc: seq<Incoming>, lo: nat, hi: nat,
        pr: Progress, rows: Rows)
    requires lo <= hi <= |doc| && FreshIds(base, doc) && DistinctHashes(doc) && ExistingExact(base, env, doc)
    requires Tracks(base, low, entries, env, doc, lo, pr) && LookedUp(entries, env.feed, doc, lo, hi, rows)
    ensures RowsExact(env, doc, lo, hi, rows)
  {
    forall h | Brings(doc, lo, hi, h)
      ensures Live(entries, env.feed, h) <==> h in env.existing
    {
      var m :| lo <= m < hi <= |doc| && doc[m].identity.hash == h;
      StillLive(base, low, entries, env, doc, lo, pr, m);
    }
  }

  ghost predicate Between(base: Entries, low: int, entries: Entries, env: Env, doc: seq<Incoming>, k: nat, pr: Progress) {
    k <= |doc| && Tracks(base, low, entries, env, doc, k, pr) && |pr.pending| < NEW_ENTRY_INSERT_BATCH_SIZE && pr.updated <= I32_MAX
  }

  ghost predicate Passes(base: Entries, low: int, env: Env, doc: seq<Incoming>, generation: Option<int>) {
    Smooth(base, low, env, doc) && GenerationFor(env, doc, generation)
  }

  /** The loop has come through, unless the plain pass updates more entries than can be counted. */
  ghost predicate OnlyOverflows(base: Entries, low: int, env: Env, doc: seq<Incoming>, result: Result<Progress, Failure>) {
    result.Ok? || (result.error == CountOverflow && OneByOne(Pass(base, low, 0, 0), env, doc).updated > I32_MAX)
  }

  /** The loop invariant within a lookup batch that ends before position `hi`. */
  ghost predicate InBatch(base: Entries, low: int, at: Loop, env: Env, doc: seq<Incoming>, k: nat, hi: nat,
        generation: Option<int>) {
    && k <= hi <= |doc|
    && Holds(base, low, at, env, doc, k)
    && (Passes(base, low, env, doc, generation) ==> RowsExact(env, doc, k, hi, at.pr.rows))
  }

  lemma BatchStarts(base: Entries, low: int, entries: Entries, env: Env, doc: seq<Incoming>, lo: nat, hi: nat,
        pr: Progress, rows: Rows, generation: Option<int>)
    requires lo <= hi <= |doc| && FreshIds(base, doc) && Between(base, low, entries, env, doc, lo, pr)
    requires LookedUp(entries, env.feed, doc, lo, hi, rows)
    ensures InBatch(base, low, Loop(entries, pr.(rows := rows)), env, doc, lo, hi, generation)
  {
    if Passes(base, low, env, doc, generation) {
      LookupExact(base, low, entries, env, doc, lo, hi, pr, rows);
    }
  }

  lemma InBatchFits(base: Entries, low: int, at: Loop, env: Env, doc: seq<Incoming>, k: nat, hi: nat,
        generation: Option<int>)
    requires k < hi && FreshIds(base, doc) && InBatch(base, low, at, env, doc, k, hi, generation)
    ensures Passes(base, low, env, doc, generation) ==> Fits(at, env, doc[k], generation)
    ensures Passes(base, low, env, doc, generation) && Overflows(at, env, doc[k]) ==>
      OneByOne(Pass(base, low, 0, 0), env, doc).updated > I32_MAX
  {
    if Passes(base, low, env, doc, generation) {
      SmoothFits(base, low, at, env, doc, k, hi, generation);
    }
  }

  lemma InBatchStep(base: Entries, low: int, at: Loop, env: Env, doc: seq<Incoming>, k: nat, hi: nat,
        generation: Option<int>)
    requires k < hi && FreshIds(base, doc) && InBatch(base, low, at, env, doc, k, hi, generation)
    requires Fits(at, env, doc[k], generation) && !Overflows(at, env, doc[k])
    ensures InBatch(base, low, EntryStep(at, env, doc[k]), env, doc, k + 1, hi, generation)
  {
    StepHolds(base, low, at, env, doc, k, generation);
    if Passes(base, low, env, doc, generation) {
      SmoothFits(base, low, at, env, doc, k, hi, generation);
    }
  }

  /** A document without repeated identities leaves no row of a batch unused. */
  lemma BatchUsedUp(base: Entries, low: int, at: Loop, env: Env, doc: seq<Incoming>, hi: nat, generation: Option<int>)
    requires InBatch(base, low, at, env, doc, hi, hi, generation)
    ensures Passes(base, low, env, doc, generation) ==> at.pr.rows == map[]
  {
    if Passes(base, low, env, doc, generation) {
      forall h
        ensures h !in at.pr.rows
      {
        assert !Brings(doc, hi, hi, h);
      }
    }
  }

  // ---- the whole document

  /** Every insert batch but the last has exactly 32 rows, and together they hold the new entries. */
  ghost predicate FullBatches(batches: seq<nat>, added: nat) {
    if batches == [] then added == 0
    else
      && 1 <= batches[|batches| - 1] <= NEW_ENTRY_INSERT_BATCH_SIZE
      && (forall i :: 0 <= i < |batches| - 1 ==> batches[i] == NEW_ENTRY_INSERT_BATCH_SIZE)
      && added == (|batches| - 1) * NEW_ENTRY_INSERT_BATCH_SIZE + batches[|batches| - 1]
  }

  /** What the batched loop leaves behind: exactly the plain pass. */
  ghost predicate Finished(base: Entries, low: int, entries: Entries, env: Env, doc: seq<Incoming>, pr: Progress) {
    var pass := OneByOne(Pass(base, low, 0, 0), env, doc);
    && Grown(base, entries, env, low, pr.head)
    && entries == pass.entries
    && pr.head == pass.head
    && pr.updated == pass.updated <= I32_MAX
    && FullBatches(pr.batches, pass.added)
  }

  lemma LastBatch(base: Entries, low: int, entries: Entries, env: Env, doc: seq<Incoming>, pr: Progress)
    requires Between(base, low, entries, env, doc, |doc|, pr)
    ensures pr.pending == [] ==> Finished(base, low, entries, env, doc, pr)
    ensures pr.pending != [] && Accepted(entries, pr.pending) ==>
      Finished(base, low, entries + PendingMap(pr.pending), env, doc, Flushed(pr))
  {
    assert doc[..|doc|] == doc;
    if pr.pending != [] && Accepted(entries, pr.pending) {
      GrownFlush(base, entries, env, low, pr);
    }
  }

  lemma LastBatchFits(base: Entries, low: int, entries: Entries, env: Env, doc: seq<Incoming>, pr: Progress,
        generation: Option<int>)
    requires Between(base, low, entries, env, doc, |doc|, pr) && FreshIds(base, doc)
    requires Passes(base, low, env, doc, generation) && pr.pending != []
    ensures generation.Some? && Accepted(entries, pr.pending)
  {
    assert doc[..|doc|] == doc;
    HeadCountsNew(Pass(base, low, 0, 0), env, doc);
    PendingAccepted(base, low, entries, env, doc, |doc|, pr);
  }

  lemma StartsBetween(entries: Entries, low: int, env: Env, doc: seq<Incoming>, pr: Progress)
    requires Grown(entries, entries, env, low, low) && pr == Progress(low, 0, [], [], map[])
    ensures Between(entries, low, entries, env, doc, 0, pr)
  {
    assert doc[..0] == [];
  }

  // ---- facts about the plain pass

  lemma KeepsStored(entries: Entries, pr: Progress)
    requires forall m :: 0 <= m < |pr.pending| ==> pr.pending[m].id !in entries
    ensures forall id :: id in entries ==> id !in PendingMap(pr.pending)
  {
    forall id | id in entries
      ensures id !in PendingMap(pr.pending)
    {
      PendingKeys(pr.pending, id);
    }
  }

  /** The precomputed final head bounds every sequence handed out in the loop. */
  lemma NewWithinHead(base: Entries, low: int, env: Env, doc: seq<Incoming>, k: nat)
    requires k < |doc| && IsNew(env, doc[k])
    ensures OneByOne(Pass(base, low, 0, 0), env, doc[..k]).head < OneByOne(Pass(base, low, 0, 0), env, doc).head
    ensures CountNew(env, doc) > 0
  {
    HeadCountsNew(Pass(base, low, 0, 0), env, doc[..k]);
    HeadCountsNew(Pass(base, low, 0, 0), env, doc);
    CountNewMonotone(env, doc, k);
  }
}
