/** Listing entries page by page (`src/feeds/query.rs`). */
module Listing {
  import opened Outcomes
  import opened ReaderModel

  const MAX_LIMIT: nat := 100

  datatype ListState = All | UnreadOnly | StarredOnly

  /** What the filter hash of a cursor is computed from. `search` holds the normalized terms. */
  datatype Filter = Filter(
    user: UserId, state: ListState, feed: Option<FeedId>, category: Option<CategoryId>, search: Option<seq<string>>)

  /** The decoded cursor; the filter stands for its hash. */
  datatype Cursor = Cursor(filter: Filter, snapshot: int, key: Key)

  /** Entries are listed by descending sort time, then by descending identifier. */
  datatype Key = Key(sortAtUs: int, id: EntryId)

  datatype Item = Item(key: Key, read: bool, starred: bool)

  datatype Page = Page(items: seq<Item>, next: Option<Cursor>, snapshot: int)

  datatype Failure = InvalidLimit | InvalidSourceFilter | InvalidSearch | InvalidCursor

  // ---- the row predicate and the order

  predicate Precedes(a: Key, b: Key) {
    a.sortAtUs > b.sortAtUs || (a.sortAtUs == b.sortAtUs && a.id > b.id)
  }

  predicate AfterCursor(after: Option<Key>, k: Key) {
    after.Some? ==> Precedes(after.value, k)
  }

  predicate Contains(text: string, term: string) {
    exists i :: 0 <= i <= |text| && OccursAt(text, term, i)
  }

  predicate OccursAt(text: string, term: string, i: nat) {
    i + |term| <= |text| && text[i..i + |term|] == term
  }

  /** The condition that the `UNREAD` listing adds to its left join. */
  predicate UnreadCondition(s: Store, u: UserId, e: EntryId)
    requires Visible(s, u, e)
  {
    var state := StateOf(s, u, e);
    var readOverride := if state.Some? then state.value.readOverride else None;
    || readOverride == Some(false)
    || (readOverride.None? && s.entries[e].sequence > s.subscriptions[(u, s.entries[e].feed)].readThrough)
  }

  /** The rows that the statement selects, before the cursor. */
  predicate Matches(s: Store, f: Filter, snapshot: int, e: EntryId) {
    && Visible(s, f.user, e)
    && s.entries[e].generation <= snapshot
    && (f.feed.Some? ==> s.entries[e].feed == f.feed.value)
    && (f.category.Some? ==> s.subscriptions[(f.user, s.entries[e].feed)].category == f.category)
    && (f.search.Some? ==> forall i :: 0 <= i < |f.search.value| ==>
         Contains(s.entries[e].content.meta.searchText, f.search.value[i]))
    && match f.state
       case All => true
       case UnreadOnly => UnreadCondition(s, f.user, e)
       case StarredOnly => IsStarred(s, f.user, e)
  }

  function KeyOf(s: Store, e: EntryId): Key
    requires e in s.entries
  {
    Key(s.entries[e].sortAtUs, e)
  }

  function ItemOf(s: Store, u: UserId, e: EntryId): Item
    requires Visible(s, u, e)
  {
    Item(KeyOf(s, e), IsRead(s, u, e), IsStarred(s, u, e))
  }

  ghost predicate Sorted(items: seq<Item>) {
    forall i, j :: 0 <= i < j < |items| ==> Precedes(items[i].key, items[j].key)
  }

  ghost predicate Candidate(s: Store, f: Filter, snapshot: int, after: Option<Key>, e: EntryId) {
    Matches(s, f, snapshot, e) && AfterCursor(after, KeyOf(s, e))
  }

  ghost predicate Holds(items: seq<Item>, e: EntryId) {
    exists i :: 0 <= i < |items| && items[i].key.id == e
  }

  /** `items` are the first candidates in listing order, and `more` tells whether any are left. */
  ghost predicate FirstOnes(s: Store, f: Filter, snapshot: int, after: Option<Key>, items: seq<Item>, more: bool) {
    && Sorted(items)
    && (forall i :: 0 <= i < |items| ==>
      Candidate(s, f, snapshot, after, items[i].key.id) && items[i] == ItemOf(s, f.user, items[i].key.id))
    && (forall e :: Candidate(s, f, snapshot, after, e) && !Holds(items, e) ==>
      more && forall i :: 0 <= i < |items| ==> Precedes(items[i].key, KeyOf(s, e)))
    && (more ==> exists e :: Candidate(s, f, snapshot, after, e) && !Holds(items, e))
  }

  /** The `UNREAD` condition is the negation of the `is_read` column. */
  lemma UnreadConditionExact(s: Store, u: UserId, e: EntryId)
    requires Visible(s, u, e)
    ensures UnreadCondition(s, u, e) <==> !IsRead(s, u, e)
  {
  }

  // ---- one page

  /** What is wrong with a query: its limit, its sources, a search outside a feed, or a cursor that was
      issued for another query. */
  function QueryFault(f: Filter, limit: nat, cursor: Option<Cursor>): Option<Failure> {
    if limit == 0 || MAX_LIMIT < limit then Some(InvalidLimit)
    else if f.feed.Some? && f.category.Some? then Some(InvalidSourceFilter)
    else if f.search.Some? && f.feed.None? then Some(InvalidSearch)
    else if cursor.Some? && (cursor.value.snapshot < 0 || cursor.value.filter != f) then Some(InvalidCursor)
    else None
  }

  class FeedRepository {
    var store: Store

    constructor (store: Store)
      ensures this.store == store
    {
      this.store := store;
    }

    /** The listing statement, with `LIMIT count`. */
    static method Query(store: Store, f: Filter, snapshot: int, after: Option<Key>,
          count: nat) returns (items: seq<Item>, ghost more: bool)
      ensures |items| <= count && FirstOnes(store, f, snapshot, after, items, more)
      ensures more ==> |items| == count
    {
      items := [];
      var rest := set e | e in store.entries && Matches(store, f, snapshot, e) && AfterCursor(after, KeyOf(store, e));
      while rest != {} && |items| < count
        invariant |items| <= count && Sorted(items)
        invariant forall e :: e in rest ==> Candidate(store, f, snapshot, after, e) && !Holds(items, e)
        invariant forall e :: Candidate(store, f, snapshot, after, e) && !Holds(items, e) ==> e in rest
        invariant forall i :: 0 <= i < |items| ==>
          Candidate(store, f, snapshot, after, items[i].key.id) && items[i] == ItemOf(store, f.user, items[i].key.id)
        invariant forall i, e :: 0 <= i < |items| && e in rest ==> Precedes(items[i].key, KeyOf(store, e))
        decreases |rest|
      {
        var e := FirstOf(store, rest);
        HoldsOneMore(items, ItemOf(store, f.user, e));
        items := items + [ItemOf(store, f.user, e)];
        rest := rest - {e};
      }
      more := rest != {};
    }

    static method FirstOf(store: Store, ids: set<EntryId>) returns (first: EntryId)
      requires ids != {} && ids <= store.entries.Keys
      ensures first in ids && forall e :: e in ids - {first} ==> Precedes(KeyOf(store, first), KeyOf(store, e))
    {
      first :| first in ids;
      var rest := ids - {first};
      while rest != {}
        invariant rest <= ids && first in ids - rest
        invariant forall e :: e in ids - rest - {first} ==> Precedes(KeyOf(store, first), KeyOf(store, e))
        decreases |rest|
      {
        var e :| e in rest;
        if Precedes(KeyOf(store, e), KeyOf(store, first)) { first := e; }
        rest := rest - {e};
      }
    }

    /** A page holds the first matching entries after the cursor, in order; a next cursor is issued
        exactly when more entries match, and it points at the last item. The generation is read before
        the entries are, which are then found in `later`: others may have acted in between. */
    method ListForUser(f: Filter, limit: nat, cursor: Option<Cursor>, later: Store) returns (result: Result<Page, Failure>)
      ensures match QueryFault(f, limit, cursor)
        case Some(failure) => result == Err(failure)
        case None => result.Ok? && IsPage(later, f, limit, cursor, store.generation, result.value)
    {
      if !(1 <= limit <= MAX_LIMIT) { return Err(InvalidLimit); }
      if f.feed.Some? && f.category.Some? { return Err(InvalidSourceFilter); }
      if f.search.Some? && f.feed.None? { return Err(InvalidSearch); }
      if cursor.Some? && (cursor.value.snapshot < 0 || cursor.value.filter != f) { return Err(InvalidCursor); }
      var snapshot := if cursor.Some? then cursor.value.snapshot else store.generation;
      var after := if cursor.Some? then Some(cursor.value.key) else None;
      var items, more := Query(later, f, snapshot, after, limit + 1);
      var hasMore := |items| > limit;
      if hasMore {
        PopLast(later, f, snapshot, after, items, more);
        items := items[..|items| - 1];
      }
      var next := if hasMore then Some(Cursor(f, snapshot, items[|items| - 1].key)) else None;
      result := Ok(Page(items, next, snapshot));
    }
  }

  ghost predicate IsPage(s: Store, f: Filter, limit: nat, cursor: Option<Cursor>, current: int, page: Page) {
    && page.snapshot == (if cursor.Some? then cursor.value.snapshot else current)
    && FirstOnes(s, f, page.snapshot, if cursor.Some? then Some(cursor.value.key) else None, page.items, page.next.Some?)
    && |page.items| <= limit
    && (page.next.Some? ==> PointsAtLast(f, limit, page))
  }

  ghost predicate PointsAtLast(f: Filter, limit: nat, page: Page) {
    |page.items| == limit > 0 && page.next == Some(Cursor(f, page.snapshot, page.items[limit - 1].key))
  }

  lemma HoldsOneMore(items: seq<Item>, item: Item)
    ensures forall e :: Holds(items + [item], e) <==> Holds(items, e) || e == item.key.id
  {
    forall e
      ensures Holds(items + [item], e) <==> Holds(items, e) || e == item.key.id
    {
      if Holds(items, e) {
        var i :| 0 <= i < |items| && items[i].key.id == e;
        assert (items + [item])[i].key.id == e;
      }
      assert (items + [item])[|items|] == item;
    }
  }

  /** Popping the row beyond the limit leaves the first ones, with at least that row left over. */
  lemma PopLast(s: Store, f: Filter, snapshot: int, after: Option<Key>, items: seq<Item>, more: bool)
    requires items != [] && FirstOnes(s, f, snapshot, after, items, more)
    ensures FirstOnes(s, f, snapshot, after, items[..|items| - 1], true)
  {
    var last := items[|items| - 1];
    var kept := items[..|items| - 1];
    assert kept + [last] == items;
    HoldsOneMore(kept, last);
    forall i | 0 <= i < |kept|
      ensures kept[i].key.id != last.key.id
    {
      assert Precedes(items[i].key, items[|items| - 1].key);
    }
    assert !Holds(kept, last.key.id);
  }

  // ---- all pages

  /** Between two pages the matching entries keep their sort times, and none are added. */
  ghost predicate Shrinks(s: Store, s': Store, f: Filter, snapshot: int) {
    forall e :: Matches(s', f, snapshot, e) ==>
      Matches(s, f, snapshot, e) && s'.entries[e].sortAtUs == s.entries[e].sortAtUs
  }

  /** The pages obtained by following the cursors, each read from its own state of the store. */
  ghost predicate Walk(states: seq<Store>, pages: seq<Page>, f: Filter, limit: nat, cursor: Option<Cursor>, current: int)
    decreases |states|
  {
    && |states| == |pages| > 0
    && IsPage(states[0], f, limit, cursor, current, pages[0])
    && if |states| == 1 then pages[0].next.None?
       else pages[0].next.Some? && Walk(states[1..], pages[1..], f, limit, pages[0].next, current)
  }

  ghost function Listed(pages: seq<Page>): seq<Item> {
    if pages == [] then [] else pages[0].items + Listed(pages[1..])
  }

  ghost predicate ShrinksAlong(states: seq<Store>, f: Filter, snapshot: int) {
    forall k :: 0 <= k < |states| - 1 ==> Shrinks(states[k], states[k + 1], f, snapshot)
  }

  lemma PrecedesTransitive(a: Key, b: Key, c: Key)
    requires Precedes(a, b) && Precedes(b, c)
    ensures Precedes(a, c)
  {
  }

  lemma SortedAppend(a: seq<Item>, b: seq<Item>)
    requires Sorted(a) && Sorted(b)
    requires a != [] ==> forall j :: 0 <= j < |b| ==> Precedes(a[|a| - 1].key, b[j].key)
    ensures Sorted(a + b)
  {
    var all := a + b;
    forall i, j | 0 <= i < j < |all|
      ensures Precedes(all[i].key, all[j].key)
    {
      if i < |a| <= j && i < |a| - 1 {
        PrecedesTransitive(all[i].key, a[|a| - 1].key, all[j].key);
      }
    }
  }

  /** Following the cursors lists in strict order, hence without repetition, only entries that matched
      at the first page, and it misses none that still match at the last. */
  lemma {:induction false} WalkLists(states: seq<Store>, pages: seq<Page>, f: Filter, limit: nat,
        cursor: Option<Cursor>, current: int)
    requires Walk(states, pages, f, limit, cursor, current) && ShrinksAlong(states, f, pages[0].snapshot)
    ensures Sorted(Listed(pages))
    ensures forall i :: 0 <= i < |Listed(pages)| ==>
      var e := Listed(pages)[i].key.id;
      Matches(states[0], f, pages[0].snapshot, e) && Listed(pages)[i].key == KeyOf(states[0], e) &&
      AfterCursor(if cursor.Some? then Some(cursor.value.key) else None, KeyOf(states[0], e))
    ensures forall e :: Candidate(states[|states| - 1], f, pages[0].snapshot, if cursor.Some? then Some(cursor.value.key) else None, e) ==>
      Holds(Listed(pages), e)
    decreases |states|
  {
    var after := if cursor.Some? then Some(cursor.value.key) else None;
    var snapshot := pages[0].snapshot;
    var here := pages[0].items;
    assert Listed(pages) == here + Listed(pages[1..]);
    if |states| == 1 {
      assert pages[1..] == [];
      assert Listed(pages) == here;
    } else {
      var rest := Listed(pages[1..]);
      var last := here[limit - 1].key;
      TailShrinks(states, f, snapshot);
      WalkLists(states[1..], pages[1..], f, limit, pages[0].next, current);
      assert states[1..][0] == states[1];
      forall i | 0 <= i < |rest|
        ensures Matches(states[0], f, snapshot, rest[i].key.id)
        ensures rest[i].key == KeyOf(states[0], rest[i].key.id)
        ensures Precedes(last, rest[i].key) && AfterCursor(after, rest[i].key)
      {
        assert Shrinks(states[0], states[1], f, snapshot);
        assert Matches(states[1], f, snapshot, rest[i].key.id);
        if after.Some? {
          assert AfterCursor(after, here[limit - 1].key);
          PrecedesTransitive(after.value, last, rest[i].key);
        }
      }
      SortedAppend(here, rest);
      forall e | Candidate(states[|states| - 1], f, snapshot, after, e)
        ensures Holds(Listed(pages), e)
      {
        MatchedBefore(states, f, snapshot, e);
        HoldsAppend(here, rest, e);
      }
    }
  }

  lemma TailShrinks(states: seq<Store>, f: Filter, snapshot: int)
    requires states != [] && ShrinksAlong(states, f, snapshot)
    ensures ShrinksAlong(states[1..], f, snapshot)
  {
    var rest := states[1..];
    forall k | 0 <= k < |rest| - 1
      ensures Shrinks(rest[k], rest[k + 1], f, snapshot)
    {
      assert Shrinks(states[k + 1], states[k + 1 + 1], f, snapshot);
    }
  }

  /** What matches at the end has matched from the beginning, at the same place. */
  lemma {:induction false} MatchedBefore(states: seq<Store>, f: Filter, snapshot: int, e: EntryId)
    requires states != [] && ShrinksAlong(states, f, snapshot) && Matches(states[|states| - 1], f, snapshot, e)
    ensures Matches(states[0], f, snapshot, e)
    ensures states[|states| - 1].entries[e].sortAtUs == states[0].entries[e].sortAtUs
    decreases |states|
  {
    if |states| > 1 {
      var rest := states[1..];
      TailShrinks(states, f, snapshot);
      MatchedBefore(rest, f, snapshot, e);
      assert Shrinks(states[0], states[1], f, snapshot);
    }
  }

  lemma HoldsAppend(a: seq<Item>, b: seq<Item>, e: EntryId)
    ensures Holds(a + b, e) <==> Holds(a, e) || Holds(b, e)
  {
    if Holds(a, e) {
      var i :| 0 <= i < |a| && a[i].key.id == e;
      assert (a + b)[i] == a[i];
    }
    if Holds(b, e) {
      var i :| 0 <= i < |b| && b[i].key.id == e;
      assert (a + b)[|a| + i] == b[i];
    }
  }

  // ---- what a page shows

  /** An item of a page is an entry that the user sees, ingested by the snapshot, of the feed and the
      category asked for, holding every word searched for, and unread or starred where that is asked for;
      it shows the entry's sort time and status. */
  lemma ItemsBelong(s: Store, f: Filter, limit: nat, cursor: Option<Cursor>, current: int, page: Page, i: nat)
    requires IsPage(s, f, limit, cursor, current, page) && i < |page.items|
    ensures var item := page.items[i]; var e := item.key.id;
      && e in s.entries && item.key.sortAtUs == s.entries[e].sortAtUs
      && (f.user, s.entries[e].feed) in s.subscriptions
      && s.entries[e].generation <= (if cursor.Some? then cursor.value.snapshot else current)
      && (f.feed.Some? ==> s.entries[e].feed == f.feed.value)
      && (f.category.Some? ==> s.subscriptions[(f.user, s.entries[e].feed)].category == f.category)
      && (item.read <==> Read(s, f.user, e)) && (item.starred <==> Starred(s, f.user, e))
      && (f.state.UnreadOnly? ==> !item.read) && (f.state.StarredOnly? ==> item.starred)
  {
    var e := page.items[i].key.id;
    assert Candidate(s, f, page.snapshot, if cursor.Some? then Some(cursor.value.key) else None, e);
    UnreadConditionExact(s, f.user, e);
  }

  /** Sort times never grow along a page, and entries of one sort time come by falling identifiers. */
  lemma PagesDescend(s: Store, f: Filter, limit: nat, cursor: Option<Cursor>, current: int, page: Page, i: nat, j: nat)
    requires IsPage(s, f, limit, cursor, current, page) && i < j < |page.items|
    ensures var a, b := page.items[i].key, page.items[j].key;
      a.sortAtUs >= b.sortAtUs && (a.sortAtUs == b.sortAtUs ==> a.id > b.id)
  {
    assert Precedes(page.items[i].key, page.items[j].key);
  }

  /** An entry after the cursor that a page leaves out has no larger sort time than any that it shows,
      and a next page is announced. */
  lemma LeftOutIsOlder(s: Store, f: Filter, limit: nat, cursor: Option<Cursor>, current: int, page: Page, i: nat, e: EntryId)
    requires IsPage(s, f, limit, cursor, current, page) && i < |page.items|
    requires Candidate(s, f, page.snapshot, if cursor.Some? then Some(cursor.value.key) else None, e)
    requires !Holds(page.items, e)
    ensures page.next.Some? && s.entries[e].sortAtUs <= page.items[i].key.sortAtUs
  {
    assert Precedes(page.items[i].key, KeyOf(s, e));
  }

  /** Later pages never show a larger sort time than earlier ones. */
  lemma WalksDescend(items: seq<Item>, i: nat, j: nat)
    requires Sorted(items) && i < j < |items|
    ensures items[i].key.sortAtUs >= items[j].key.sortAtUs
    ensures items[i].key.sortAtUs == items[j].key.sortAtUs ==> items[i].key.id > items[j].key.id
  {
    assert Precedes(items[i].key, items[j].key);
  }

  /** A text contains a term when it reads so from some place on. */
  lemma ContainsMeans(text: string, term: string)
    ensures Contains(text, term) <==> exists before, after :: text == before + term + after
  {
    if Contains(text, term) {
      var i :| 0 <= i <= |text| && OccursAt(text, term, i);
      assert text == text[..i] + term + text[i + |term|..];
    }
    if exists before, after :: text == before + term + after {
      var before, after :| text == before + term + after;
      assert OccursAt(text, term, |before|);
    }
  }

  /** What a listing asks for, told from the rows. */
  ghost predicate AskedFor(s: Store, f: Filter, snapshot: int, e: EntryId) {
    && Visible(s, f.user, e)
    && s.entries[e].generation <= snapshot
    && f.feed in {None, Some(s.entries[e].feed)}
    && (f.category == None || s.subscriptions[(f.user, s.entries[e].feed)].category == f.category)
    && (f.search.None? || forall term :: term in f.search.value ==> ReadsIn(term, s.entries[e].content.meta.searchText))
    && (f.state.UnreadOnly? ==> Unread(s, f.user, e))
    && (f.state.StarredOnly? ==> Starred(s, f.user, e))
  }

  ghost predicate ReadsIn(term: string, text: string) {
    exists before, after :: text == before + term + after
  }

  /** The statement selects exactly these entries. */
  lemma MatchesExactly(s: Store, f: Filter, snapshot: int, e: EntryId)
    ensures Matches(s, f, snapshot, e) <==> AskedFor(s, f, snapshot, e)
  {
    if Visible(s, f.user, e) {
      UnreadConditionExact(s, f.user, e);
      if f.search.Some? {
        SearchMeans(s.entries[e].content.meta.searchText, f.search.value);
      }
    }
  }

  lemma SearchMeans(text: string, terms: seq<string>)
    ensures (forall i :: 0 <= i < |terms| ==> Contains(text, terms[i])) <==> forall term :: term in terms ==> ReadsIn(term, text)
  {
    forall term
      ensures Contains(text, term) <==> ReadsIn(term, text)
    {
      ContainsMeans(text, term);
    }
    if forall term :: term in terms ==> ReadsIn(term, text) {
      forall i | 0 <= i < |terms|
        ensures Contains(text, terms[i])
      {
        assert terms[i] in terms;
      }
    }
  }
}
