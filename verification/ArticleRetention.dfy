/** Removing aged articles that every subscriber has read (`src/feeds/article_retention.rs`). */
module ArticleRetention {
  import opened Outcomes
  import opened ReaderModel
  import Listing

  const PURGE_BATCH: nat := 100
  const DAY: Time := 86_400_000_000_000
  const U16_MAX: int := 0xffff

  datatype Settings = Settings(enabled: bool, retentionDays: int)

  datatype Failure = InvalidRequest | CorruptData

  // ---- the selection

  /** A state row that protects its entry, whoever it belongs to. */
  predicate Protects(s: Store, key: (UserId, EntryId))
    requires key in s.states
  {
    s.states[key].starred || s.states[key].readOverride == Some(false)
  }

  /** A subscription of the inner queries: to the entry's feed, started before the entry. */
  predicate Subscribed(s: Store, e: EntryId, key: (UserId, FeedId))
    requires e in s.entries
  {
    && key in s.subscriptions
    && key.1 == s.entries[e].feed
    && s.entries[e].sequence > s.subscriptions[key].startSequence
  }

  /** `COALESCE(es.read_override, e.feed_sequence <= s.read_through_sequence)`, joined by user and
      entry alone. */
  predicate Coalesced(s: Store, e: EntryId, key: (UserId, FeedId))
    requires e in s.entries && key in s.subscriptions
  {
    if (key.0, e) in s.states && s.states[(key.0, e)].readOverride.Some?
    then s.states[(key.0, e)].readOverride.value
    else s.entries[e].sequence <= s.subscriptions[key].readThrough
  }

  predicate Purgeable(s: Store, cutoff: Time, e: EntryId) {
    && e in s.entries
    && s.entries[e].insertedAt < cutoff
    && !(exists key :: key in s.states && key.1 == e && Protects(s, key))
    && (exists key :: key in s.subscriptions && Subscribed(s, e, key))
    && !(exists key :: key in s.subscriptions && Subscribed(s, e, key) && !Coalesced(s, e, key))
    && e !in s.contentJobs
  }

  /** What the selection means: an old entry that somebody sees and nobody who sees it has left
      unread, that nobody has starred or set back to unread, and without content work. */
  lemma PurgeableExact(s: Store, cutoff: Time, e: EntryId)
    requires Inv(s)
    ensures Purgeable(s, cutoff, e) <==>
      && e in s.entries && s.entries[e].insertedAt < cutoff && e !in s.contentJobs
      && (exists u :: Visible(s, u, e))
      && (forall u :: Visible(s, u, e) ==> Read(s, u, e))
      && (forall u :: (u, e) in s.states ==> !s.states[(u, e)].starred && s.states[(u, e)].readOverride != Some(false))
  {
    if e in s.entries {
      forall u
        ensures Visible(s, u, e) <==> Subscribed(s, e, (u, s.entries[e].feed))
        ensures Visible(s, u, e) ==> (Read(s, u, e) <==> Coalesced(s, e, (u, s.entries[e].feed)))
      {
        ReadIsCoalesced(s, u, e);
      }
      if exists u :: Visible(s, u, e) {
        var u :| Visible(s, u, e);
        assert Subscribed(s, e, (u, s.entries[e].feed));
      }
      if Purgeable(s, cutoff, e) {
        var key :| key in s.subscriptions && Subscribed(s, e, key);
        assert key == (key.0, s.entries[e].feed) && Visible(s, key.0, e);
        forall u | (u, e) in s.states
          ensures !Protects(s, (u, e))
        {
        }
      }
    }
  }

  lemma ReadIsCoalesced(s: Store, u: UserId, e: EntryId)
    requires Inv(s) && e in s.entries
    ensures Visible(s, u, e) <==> Subscribed(s, e, (u, s.entries[e].feed))
    ensures Visible(s, u, e) ==> (IsRead(s, u, e) <==> Coalesced(s, e, (u, s.entries[e].feed)))
  {
    if (u, e) in s.states {
      assert StateInv(s, (u, e));
    }
  }

  // ---- the deletion

  function Tombstones(s: Store, ids: seq<EntryId>): set<(FeedId, Hash)> {
    set e | e in ids && e in s.entries :: (s.entries[e].feed, s.entries[e].identity.hash)
  }

  /** The tombstones are inserted and the entries deleted, which deletes their state rows. */
  function Purge(s: Store, ids: seq<EntryId>): Store {
    s.(retired := s.retired + Tombstones(s, ids),
       entries := map e | e in s.entries && e !in ids :: s.entries[e],
       states := map key | key in s.states && key.1 !in ids :: s.states[key])
  }

  lemma PurgeOneMore(s: Store, ids: seq<EntryId>, e: EntryId)
    requires e in s.entries && e !in ids
    ensures Purge(Purge(s, ids), [e]) == Purge(s, ids + [e])
  {
    assert Tombstones(s, ids + [e]) == Tombstones(s, ids) + Tombstones(Purge(s, ids), [e]);
    assert Purge(Purge(s, ids), [e]).entries == Purge(s, ids + [e]).entries;
    assert Purge(Purge(s, ids), [e]).states == Purge(s, ids + [e]).states;
  }

  // ---- what a purge leaves alone

  ghost predicate AllPurgeable(s: Store, cutoff: Time, ids: seq<EntryId>) {
    forall i :: 0 <= i < |ids| ==> Purgeable(s, cutoff, ids[i])
  }

  lemma PurgeKeepsInv(s: Store, ids: seq<EntryId>)
    requires Inv(s)
    ensures Inv(Purge(s, ids))
  {
    var s' := Purge(s, ids);
    forall e | e in s'.entries
      ensures EntryInv(s', e)
    {
      assert EntryInv(s, e);
      forall d | d in ids && d in s.entries
        ensures (s.entries[d].feed, s.entries[d].identity.hash) != (s.entries[e].feed, s.entries[e].identity.hash)
      {
        assert Ordered(s.entries[d], s.entries[e]);
      }
    }
    forall a, b | a in s'.entries && b in s'.entries && a != b
      ensures Ordered(s'.entries[a], s'.entries[b])
    {
      assert Ordered(s.entries[a], s.entries[b]);
    }
    forall key | key in s'.subscriptions
      ensures SubscriptionInv(s', key)
    {
      assert SubscriptionInv(s, key);
    }
    forall key | key in s'.states
      ensures StateInv(s', key)
    {
      assert StateInv(s, key);
    }
    forall key | key in s'.outbox
      ensures EventInv(s', key)
    {
      assert EventInv(s, key);
    }
  }

  /** For the entries that stay, nothing about them changes for anybody. */
  lemma KeptEntrySame(s: Store, ids: seq<EntryId>, u: UserId, e: EntryId)
    requires e !in ids
    ensures Visible(Purge(s, ids), u, e) <==> Visible(s, u, e)
    ensures e in s.entries ==> Purge(s, ids).entries[e] == s.entries[e] && StateOf(Purge(s, ids), u, e) == StateOf(s, u, e)
  {
  }

  /** A purged entry was read and unstarred for everybody who saw it. */
  lemma PurgedWasRead(s: Store, cutoff: Time, u: UserId, e: EntryId)
    requires Inv(s) && Purgeable(s, cutoff, e) && Visible(s, u, e)
    ensures IsRead(s, u, e) && !IsStarred(s, u, e)
  {
    PurgeableExact(s, cutoff, e);
    assert Read(s, u, e);
  }

  /** Unread and starred entries are untouched; read ones shrink by the purged entries. */
  lemma PurgeKeepsStatus(s: Store, cutoff: Time, ids: seq<EntryId>, u: UserId, e: EntryId)
    requires Inv(s) && AllPurgeable(s, cutoff, ids)
    ensures var s' := Purge(s, ids);
      && (Unread(s', u, e) <==> Unread(s, u, e))
      && (Starred(s', u, e) <==> Starred(s, u, e))
      && (Read(s', u, e) <==> Read(s, u, e) && e !in ids)
  {
    if e in ids {
      var i :| 0 <= i < |ids| && ids[i] == e;
      assert Purgeable(s, cutoff, ids[i]);
      if Visible(s, u, e) {
        PurgedWasRead(s, cutoff, u, e);
      }
    } else {
      KeptEntrySame(s, ids, u, e);
    }
  }

  /** Whether an entry matches an unread or starred listing does not depend on a purge, and neither
      does the item listed for it. */
  lemma PurgeKeepsMatches(s: Store, cutoff: Time, ids: seq<EntryId>, f: Listing.Filter, snapshot: int, e: EntryId)
    requires Inv(s) && AllPurgeable(s, cutoff, ids) && !f.state.All?
    ensures Listing.Matches(Purge(s, ids), f, snapshot, e) <==> Listing.Matches(s, f, snapshot, e)
    ensures Listing.Matches(s, f, snapshot, e) ==>
      Listing.ItemOf(Purge(s, ids), f.user, e) == Listing.ItemOf(s, f.user, e)
  {
    if e in ids {
      var i :| 0 <= i < |ids| && ids[i] == e;
      assert Purgeable(s, cutoff, ids[i]);
      if Visible(s, f.user, e) {
        PurgedWasRead(s, cutoff, f.user, e);
        Listing.UnreadConditionExact(s, f.user, e);
      }
    } else {
      KeptEntrySame(s, ids, f.user, e);
    }
  }

  /** A purge is invisible to every page of every unread or starred listing: the pages that can be
      returned after it are those that could be returned before it. */
  lemma PurgeKeepsPages(s: Store, cutoff: Time, ids: seq<EntryId>, f: Listing.Filter, limit: nat,
        cursor: Option<Listing.Cursor>, current: int, page: Listing.Page)
    requires Inv(s) && AllPurgeable(s, cutoff, ids) && !f.state.All?
    ensures Listing.IsPage(Purge(s, ids), f, limit, cursor, current, page) <==> Listing.IsPage(s, f, limit, cursor, current, page)
  {
    var s' := Purge(s, ids);
    var after := if cursor.Some? then Some(cursor.value.key) else None;
    forall e
      ensures Listing.Candidate(s', f, page.snapshot, after, e) <==> Listing.Candidate(s, f, page.snapshot, after, e)
      ensures Listing.Candidate(s, f, page.snapshot, after, e) ==>
        Listing.ItemOf(s', f.user, e) == Listing.ItemOf(s, f.user, e) && Listing.KeyOf(s', e) == Listing.KeyOf(s, e)
    {
      PurgeKeepsMatches(s, cutoff, ids, f, page.snapshot, e);
    }
    SameFirstOnes(s, s', f, page.snapshot, after, page.items, page.next.Some?);
    SameFirstOnes(s', s, f, page.snapshot, after, page.items, page.next.Some?);
  }

  ghost predicate SameCandidates(s: Store, s': Store, f: Listing.Filter, snapshot: int, after: Option<Listing.Key>) {
    forall e ::
      && (Listing.Candidate(s', f, snapshot, after, e) <==> Listing.Candidate(s, f, snapshot, after, e))
      && (Listing.Candidate(s, f, snapshot, after, e) ==>
        Listing.ItemOf(s', f.user, e) == Listing.ItemOf(s, f.user, e) && Listing.KeyOf(s', e) == Listing.KeyOf(s, e))
  }

  lemma SameFirstOnes(s: Store, s': Store, f: Listing.Filter, snapshot: int, after: Option<Listing.Key>,
        items: seq<Listing.Item>, more: bool)
    requires SameCandidates(s, s', f, snapshot, after)
    ensures Listing.FirstOnes(s, f, snapshot, after, items, more) ==> Listing.FirstOnes(s', f, snapshot, after, items, more)
  {
  }

  // ---- the method

  /** The rows that the statement selects: the oldest purgeable entries, at most 100 of them. */
  ghost predicate OldestPurgeable(s: Store, cutoff: Time, ids: seq<EntryId>) {
    && Distinct(ids)
    && AllPurgeable(s, cutoff, ids)
    && |ids| <= PURGE_BATCH
    && (forall e :: Purgeable(s, cutoff, e) && e !in ids ==>
      |ids| == PURGE_BATCH && forall i :: 0 <= i < |ids| ==> Older(s, ids[i], e))
    && (forall i, j :: 0 <= i < j < |ids| ==> Older(s, ids[i], ids[j]))
  }

  predicate Older(s: Store, a: EntryId, b: EntryId) {
    && a in s.entries && b in s.entries
    && (s.entries[a].insertedAt < s.entries[b].insertedAt ||
        (s.entries[a].insertedAt == s.entries[b].insertedAt && a < b))
  }

  class FeedRepository {
    var store: Store

    constructor (store: Store)
      ensures this.store == store
    {
      this.store := store;
    }

    method OldestOf(ids: set<EntryId>) returns (oldest: EntryId)
      requires ids != {} && ids <= store.entries.Keys
      ensures oldest in ids && forall e :: e in ids - {oldest} ==> Older(store, oldest, e)
    {
      oldest :| oldest in ids;
      var rest := ids - {oldest};
      while rest != {}
        invariant rest <= ids && oldest in ids && oldest !in rest
        invariant forall e :: e in ids && e !in rest && e != oldest ==> Older(store, oldest, e)
        decreases |rest|
      {
        var e :| e in rest;
        if Older(store, e, oldest) {
          forall other | other in ids && other !in rest && other != oldest
            ensures Older(store, e, other)
          {
            assert Older(store, oldest, other);
          }
          oldest := e;
        }
        rest := rest - {e};
      }
    }

    /** The selection statement, with its order and limit. */
    method SelectPurgeable(cutoff: Time) returns (ids: seq<EntryId>)
      ensures OldestPurgeable(store, cutoff, ids)
    {
      ids := [];
      var rest := set e | e in store.entries && Purgeable(store, cutoff, e);
      while rest != {} && |ids| < PURGE_BATCH
        invariant |ids| <= PURGE_BATCH && Distinct(ids) && AllPurgeable(store, cutoff, ids)
        invariant forall e :: e in rest <==> Purgeable(store, cutoff, e) && e !in ids
        invariant forall i, e :: 0 <= i < |ids| && e in rest ==> Older(store, ids[i], e)
        invariant forall i, j :: 0 <= i < j < |ids| ==> Older(store, ids[i], ids[j])
        decreases |rest|
      {
        var e := OldestOf(rest);
        ids := ids + [e];
        rest := rest - {e};
      }
    }

    /** A tombstone, then the deletion, which cascades to the state rows. */
    method RetireRow(e: EntryId)
      requires e in store.entries
      modifies this
      ensures store == Purge(old(store), [e])
    {
      store := store.(retired := store.retired + {(store.entries[e].feed, store.entries[e].identity.hash)});
      store := store.(entries := store.entries - {e},
        states := map key | key in store.states && key.1 != e :: store.states[key]);
    }

    /** The loop over the selected rows. */
    method RetireRows(ids: seq<EntryId>)
      requires Distinct(ids) && forall i :: 0 <= i < |ids| ==> ids[i] in store.entries
      modifies this
      ensures store == Purge(old(store), ids)
    {
      ghost var begun := store;
      PurgeNothing(begun);
      for i := 0 to |ids|
        invariant store == Purge(begun, ids[..i])
      {
        var e := ids[i];
        PurgeOneMore(begun, ids[..i], e);
        assert ids[..i + 1] == ids[..i] + [e];
        RetireRow(e);
      }
      assert ids[..|ids|] == ids;
    }

    /** One purge. Only SQLite databases purge, and only when the stored settings say so; the number
        returned is that of the entries removed. */
    method PurgeReadArticles(sqlite: bool, row: Option<Settings>, now: Time)
      returns (result: Result<nat, Failure>, purged: seq<EntryId>)
      requires Inv(store)
      modifies this
      ensures Inv(store) && store == Purge(old(store), purged)
      ensures if sqlite && SettingsFault(row).Some? then result == Err(SettingsFault(row).value) && purged == []
        else result == Ok(|purged|)
      ensures if sqlite && SettingsFault(row).None? && Loaded(row).enabled
        then OldestPurgeable(old(store), now - Loaded(row).retentionDays * (24 * 3_600 * 1_000_000_000), purged)
        else purged == []
    {
      purged := [];
      PurgeNothing(store);
      if !sqlite { return Ok(0), []; }
      var settings := LoadSettings(row);
      if settings.Err? { return Err(settings.error), []; }
      if !settings.value.enabled { return Ok(0), []; }
      purged := SelectPurgeable(now - settings.value.retentionDays * DAY);
      PurgeKeepsInv(store, purged);
      RetireRows(purged);
      return Ok(|purged|), purged;
    }

    /** `ArticleRetentionSettings::load`: the stored row, or the default, which does not purge. */
    static method LoadSettings(row: Option<Settings>) returns (result: Result<Settings, Failure>)
      ensures result == if SettingsFault(row).Some? then Err(SettingsFault(row).value) else Ok(Loaded(row))
    {
      if row.None? { return Ok(Settings(false, 30)); }
      var days := row.value.retentionDays;
      if !(0 <= days <= U16_MAX) { return Err(CorruptData); }
      if !(1 <= days <= 3650) { return Err(InvalidRequest); }
      return Ok(row.value);
    }
  }

  function Loaded(row: Option<Settings>): Settings {
    if row.Some? then row.value else Settings(false, 30)
  }

  /** Stored days must fit sixteen bits, and lie between 1 and 3650. */
  function SettingsFault(row: Option<Settings>): Option<Failure> {
    if row.None? || 1 <= row.value.retentionDays <= 3650 then None
    else if 0 <= row.value.retentionDays <= U16_MAX then Some(InvalidRequest)
    else Some(CorruptData)
  }

  lemma PurgeNothing(s: Store)
    ensures Purge(s, []) == s
  {
    assert Tombstones(s, []) == {};
    assert Purge(s, []).entries == s.entries;
    assert Purge(s, []).states == s.states;
  }

  /** No purgeable entry that is left behind was inserted before one that is purged. */
  lemma LeftBehindIsNewer(s: Store, cutoff: Time, ids: seq<EntryId>, i: nat, e: EntryId)
    requires OldestPurgeable(s, cutoff, ids) && i < |ids| && Purgeable(s, cutoff, e) && e !in ids
    ensures |ids| == 100 && ids[i] in s.entries && s.entries[ids[i]].insertedAt <= s.entries[e].insertedAt
    ensures s.entries[ids[i]].insertedAt == s.entries[e].insertedAt ==> ids[i] < e
  {
    assert Older(s, ids[i], e);
  }
}
