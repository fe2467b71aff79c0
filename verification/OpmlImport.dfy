/** Importing a parsed OPML document for one user, in one transaction (`src/feeds/opml.rs`). */
module OpmlImport {
  import opened Outcomes
  import Opml

  type FeedId = nat
  type CategoryId = nat
  type Hash = nat

  const MAX_SUBSCRIPTIONS_PER_USER: nat := 1_000
  const MAX_CATEGORIES_PER_USER: nat := 250
  const POSITION_STEP: int := 1_024

  datatype Failure = InvalidUserId | SubscriptionLimit | CategoryLimit | IdentityCollision | CorruptData

  datatype StoredFeed = StoredFeed(id: FeedId, url: string, disabled: bool, orphaned: bool, head: int)

  datatype Subscription = Subscription(
    category: Option<CategoryId>, title: Option<string>, position: int, start: int, readThrough: int)

  datatype Category = Category(id: CategoryId, title: string, position: int)

  /** The tables as the import of one user sees them: feeds by URL hash, the user's subscriptions by
      feed, the user's categories by normalized title. */
  datatype Tables = Tables(
    feeds: map<Hash, StoredFeed>, subscriptions: map<FeedId, Subscription>, categories: map<string, Category>)

  datatype Imported = Imported(validCount: nat, importedCount: nat, duplicateCount: nat, createdCategoryCount: nat)

  /** A candidate with the hash of its normalized URL and the identifiers that would be drawn for it. */
  datatype Candidate = Candidate(feed: Opml.OpmlFeed, hash: Hash, feedId: FeedId, categoryId: CategoryId)

  ghost predicate FeedIdsDistinct(feeds: map<Hash, StoredFeed>) {
    forall g, h :: g in feeds && h in feeds && g != h ==> feeds[g].id != feeds[h].id
  }

  ghost predicate FreshFeedIds(t: Tables, cands: seq<Candidate>) {
    && (forall i, h :: 0 <= i < |cands| && h in t.feeds ==> t.feeds[h].id != cands[i].feedId)
    && (forall i :: 0 <= i < |cands| ==> cands[i].feedId !in t.subscriptions)
    && (forall i, j :: 0 <= i < j < |cands| ==> cands[i].feedId != cands[j].feedId)
  }

  // ---- what an import means

  function Positions(t: Tables): set<int> {
    set f | f in t.subscriptions :: t.subscriptions[f].position
  }

  function CategoryPositions(t: Tables): set<int> {
    set c | c in t.categories :: t.categories[c].position
  }

  /** The largest of some positions, 0 if there are none. */
  ghost predicate IsLargest(positions: set<int>, largest: int) {
    if positions == {} then largest == 0 else largest in positions && forall p :: p in positions ==> p <= largest
  }

  /** The candidate's feed is stored under its hash, with its URL. */
  predicate Stored(t: Tables, c: Candidate) {
    c.hash in t.feeds && t.feeds[c.hash].url == c.feed.normalized
  }

  predicate IsSubscribed(t: Tables, c: Candidate) {
    Stored(t, c) && t.feeds[c.hash].id in t.subscriptions
  }

  /** Existing rows stay as they were, but for the mark of an orphan. */
  ghost predicate Keeps(t: Tables, t': Tables) {
    && (forall h :: h in t.feeds ==> h in t'.feeds && t'.feeds[h] == t.feeds[h].(orphaned := t'.feeds[h].orphaned))
    && (forall f :: f in t.subscriptions ==> f in t'.subscriptions && t'.subscriptions[f] == t.subscriptions[f])
    && (forall n :: n in t.categories ==> n in t'.categories && t'.categories[n] == t.categories[n])
  }

  /** A new subscription starts a hundred entries back, has the candidate's title, and is filed under
      the candidate's category. */
  ghost predicate Fulfils(t: Tables, c: Candidate) {
    && IsSubscribed(t, c)
    && (match c.feed.category
        case None => t.subscriptions[t.feeds[c.hash].id].category == None
        case Some(category) =>
          && category.normalized in t.categories
          && t.subscriptions[t.feeds[c.hash].id].category == Some(t.categories[category.normalized].id))
    && t.subscriptions[t.feeds[c.hash].id].title == c.feed.title
    && t.subscriptions[t.feeds[c.hash].id].start == t.subscriptions[t.feeds[c.hash].id].readThrough
       == InitialFrontier(t.feeds[c.hash].head)
  }

  ghost predicate Mentions(cands: seq<Candidate>, hash: Hash) {
    exists k :: 0 <= k < |cands| && cands[k].hash == hash
  }

  /** Every candidate so far is subscribed; those that were not before have the subscription asked for. */
  ghost predicate Satisfied(t: Tables, t': Tables, cands: seq<Candidate>) {
    forall i :: 0 <= i < |cands| ==>
      && IsSubscribed(t', cands[i])
      && (!IsSubscribed(t, cands[i]) && (forall k :: 0 <= k < i ==> cands[k].hash != cands[i].hash) ==> Fulfils(t', cands[i]))
  }

  /** Nothing is subscribed to but what was before and what the candidates name. */
  ghost predicate OnlyCandidates(t: Tables, t': Tables, cands: seq<Candidate>) {
    && (forall f :: f in t'.subscriptions && f !in t.subscriptions ==>
      exists i :: 0 <= i < |cands| && cands[i].hash in t'.feeds && t'.feeds[cands[i].hash].id == f)
    && (forall h :: h in t'.feeds && h !in t.feeds ==> exists i :: 0 <= i < |cands| && cands[i].hash == h)
    && (forall n :: n in t'.categories && n !in t.categories ==>
      exists i :: 0 <= i < |cands| && cands[i].feed.category.Some? && cands[i].feed.category.value.normalized == n)
  }

  ghost predicate Counted(t: Tables, t': Tables, n: nat, imported: nat, duplicates: nat, created: nat) {
    && imported + duplicates == n
    && |t'.subscriptions| == |t.subscriptions| + imported
    && |t'.categories| == |t.categories| + created
    && |t'.subscriptions| <= MAX_SUBSCRIPTIONS_PER_USER
    && |t'.categories| <= MAX_CATEGORIES_PER_USER
  }

  // ---- one candidate

  function WithFeed(t: Tables, c: Candidate): Tables {
    if c.hash in t.feeds then t
    else t.(feeds := t.feeds[c.hash := StoredFeed(c.feedId, c.feed.normalized, false, false, 0)])
  }

  function WithCategory(t: Tables, c: Candidate, position: int): Tables {
    if c.feed.category.None? || c.feed.category.value.normalized in t.categories then t
    else t.(categories := t.categories[c.feed.category.value.normalized :=
      Category(c.categoryId, c.feed.category.value.display, position)])
  }

  predicate CreatesCategory(t: Tables, c: Candidate) {
    c.feed.category.Some? && c.feed.category.value.normalized !in t.categories
  }

  function CategoryOf(t: Tables, c: Candidate): Option<CategoryId> {
    if c.feed.category.Some? && c.feed.category.value.normalized in t.categories
    then Some(t.categories[c.feed.category.value.normalized].id) else None
  }

  function WithSubscription(t: Tables, c: Candidate, position: int): Tables
    requires c.hash in t.feeds
  {
    var stored := t.feeds[c.hash];
    t.(feeds := t.feeds[c.hash := stored.(orphaned := false)],
       subscriptions := t.subscriptions[stored.id :=
         Subscription(CategoryOf(t, c), c.feed.title, position, InitialFrontier(stored.head), InitialFrontier(stored.head))])
  }

  function Placed(t: Tables, c: Candidate, categoryPosition: int, position: int): Tables {
    WithSubscription(WithCategory(WithFeed(t, c), c, categoryPosition), c, position)
  }

  function Adopted(t: Tables, c: Candidate): Tables
    requires c.hash in t.feeds
  {
    t.(feeds := t.feeds[c.hash := t.feeds[c.hash].(orphaned := false)])
  }

  /** The code clears the mark of an orphan before it looks for the category. */
  lemma PlacedInSteps(t: Tables, c: Candidate, categoryPosition: int, position: int)
    ensures var stored := WithFeed(t, c).feeds[c.hash];
      var between := WithCategory(Adopted(WithFeed(t, c), c), c, categoryPosition);
      Placed(t, c, categoryPosition, position) == between.(subscriptions := between.subscriptions[stored.id :=
        Subscription(CategoryOf(between, c), c.feed.title, position, InitialFrontier(stored.head), InitialFrontier(stored.head))])
  {
  }

  ghost predicate FreshFor(t: Tables, c: Candidate) {
    c.feedId !in t.subscriptions && forall h :: h in t.feeds ==> t.feeds[h].id != c.feedId
  }

  lemma WithFeedKeeps(t: Tables, c: Candidate)
    requires FeedIdsDistinct(t.feeds) && FreshFor(t, c)
    ensures Keeps(t, WithFeed(t, c)) && FeedIdsDistinct(WithFeed(t, c).feeds)
  {
  }

  lemma WithCategoryKeeps(t: Tables, c: Candidate, position: int)
    ensures Keeps(t, WithCategory(t, c, position))
  {
  }

  lemma WithCategoryAdds(t: Tables, c: Candidate, position: int)
    ensures |WithCategory(t, c, position).categories| == |t.categories| + if CreatesCategory(t, c) then 1 else 0
  {
    if CreatesCategory(t, c) {
      assert WithCategory(t, c, position).categories.Keys == t.categories.Keys + {c.feed.category.value.normalized};
    }
  }

  lemma WithSubscriptionKeeps(t: Tables, c: Candidate, position: int)
    requires c.hash in t.feeds && t.feeds[c.hash].id !in t.subscriptions
    ensures Keeps(t, WithSubscription(t, c, position))
  {
  }

  lemma WithSubscriptionAdds(t: Tables, c: Candidate, position: int)
    requires c.hash in t.feeds && t.feeds[c.hash].id !in t.subscriptions
    ensures |WithSubscription(t, c, position).subscriptions| == |t.subscriptions| + 1
    ensures FeedIdsDistinct(t.feeds) ==> FeedIdsDistinct(WithSubscription(t, c, position).feeds)
  {
    var t' := WithSubscription(t, c, position);
    assert t'.subscriptions.Keys == t.subscriptions.Keys + {t.feeds[c.hash].id};
    assert forall h :: h in t'.feeds ==> h in t.feeds && t'.feeds[h].id == t.feeds[h].id;
  }

  lemma WithSubscriptionFulfils(t: Tables, c: Candidate, position: int)
    requires Stored(t, c) && !CreatesCategory(t, c)
    ensures Fulfils(WithSubscription(t, c, position), c)
  {
  }

  lemma PlacedKeeps(t: Tables, c: Candidate, categoryPosition: int, position: int)
    requires FeedIdsDistinct(t.feeds) && FreshFor(t, c) && (c.hash in t.feeds ==> Stored(t, c) && !IsSubscribed(t, c))
    ensures var t' := Placed(t, c, categoryPosition, position);
      && Keeps(t, t') && FeedIdsDistinct(t'.feeds) && Fulfils(t', c)
      && |t'.subscriptions| == |t.subscriptions| + 1
      && |t'.categories| == |t.categories| + if CreatesCategory(t, c) then 1 else 0
  {
    var fed := WithFeed(t, c);
    var filed := WithCategory(fed, c, categoryPosition);
    WithFeedKeeps(t, c);
    WithCategoryKeeps(fed, c, categoryPosition);
    WithCategoryAdds(fed, c, categoryPosition);
    WithSubscriptionKeeps(filed, c, position);
    WithSubscriptionAdds(filed, c, position);
    WithSubscriptionFulfils(filed, c, position);
    KeepsTwice(t, fed, filed);
    KeepsTwice(t, filed, Placed(t, c, categoryPosition, position));
  }

  lemma KeepsTwice(t: Tables, m: Tables, t': Tables)
    requires Keeps(t, m) && Keeps(m, t')
    ensures Keeps(t, t')
  {
  }

  lemma SatisfiedLater(t: Tables, m: Tables, t': Tables, cands: seq<Candidate>)
    requires Satisfied(t, m, cands) && Keeps(m, t')
    ensures Satisfied(t, t', cands)
  {
  }

  lemma SatisfiedMore(t: Tables, t': Tables, cands: seq<Candidate>, c: Candidate)
    requires Satisfied(t, t', cands) && IsSubscribed(t', c)
    requires IsSubscribed(t, c) || Mentions(cands, c.hash) || Fulfils(t', c)
    ensures Satisfied(t, t', cands + [c])
  {
    var more := cands + [c];
    forall i | 0 <= i < |more|
      ensures IsSubscribed(t', more[i])
      ensures !IsSubscribed(t, more[i]) && (forall k :: 0 <= k < i ==> more[k].hash != more[i].hash) ==> Fulfils(t', more[i])
    {
      if i < |cands| {
        assert more[i] == cands[i];
        assert forall k :: 0 <= k < i ==> more[k] == cands[k];
      } else {
        assert forall k :: 0 <= k < |cands| ==> more[k] == cands[k];
      }
    }
  }

  /** Whatever is new belongs to the candidate. */
  ghost predicate Grows(m: Tables, t': Tables, c: Candidate) {
    && (forall h :: h in m.feeds ==> h in t'.feeds && t'.feeds[h].id == m.feeds[h].id)
    && (forall h :: h in t'.feeds && h !in m.feeds ==> h == c.hash && t'.feeds[h].id == c.feedId)
    && (forall f :: f in t'.subscriptions && f !in m.subscriptions ==> c.hash in t'.feeds && t'.feeds[c.hash].id == f)
    && (forall n :: n in t'.categories && n !in m.categories ==>
      c.feed.category.Some? && c.feed.category.value.normalized == n)
  }

  lemma PlacedGrows(m: Tables, c: Candidate, categoryPosition: int, position: int)
    ensures Grows(m, Placed(m, c, categoryPosition, position), c)
  {
  }

  lemma NewSubscriptions(t: Tables, m: Tables, t': Tables, cands: seq<Candidate>, c: Candidate)
    requires OnlyCandidates(t, m, cands) && Grows(m, t', c)
    ensures forall f :: f in t'.subscriptions && f !in t.subscriptions ==>
      exists i :: 0 <= i < |cands + [c]| && (cands + [c])[i].hash in t'.feeds && t'.feeds[(cands + [c])[i].hash].id == f
  {
    var more := cands + [c];
    assert more[|cands|] == c;
    forall f | f in t'.subscriptions && f !in t.subscriptions
      ensures exists i :: 0 <= i < |more| && more[i].hash in t'.feeds && t'.feeds[more[i].hash].id == f
    {
      if f in m.subscriptions {
        var i :| 0 <= i < |cands| && cands[i].hash in m.feeds && m.feeds[cands[i].hash].id == f;
        assert more[i] == cands[i];
      }
    }
  }

  lemma OnlyCandidatesMore(t: Tables, m: Tables, t': Tables, cands: seq<Candidate>, c: Candidate)
    requires OnlyCandidates(t, m, cands) && Grows(m, t', c)
    ensures OnlyCandidates(t, t', cands + [c])
  {
    var more := cands + [c];
    assert more[|cands|] == c;
    NewSubscriptions(t, m, t', cands, c);
    forall h | h in t'.feeds && h !in t.feeds
      ensures exists i :: 0 <= i < |more| && more[i].hash == h
    {
      if h in m.feeds {
        var i :| 0 <= i < |cands| && cands[i].hash == h;
        assert more[i] == cands[i];
      }
    }
    forall n | n in t'.categories && n !in t.categories
      ensures exists i :: 0 <= i < |more| && more[i].feed.category.Some? && more[i].feed.category.value.normalized == n
    {
      if n in m.categories {
        var i :| 0 <= i < |cands| && cands[i].feed.category.Some? && cands[i].feed.category.value.normalized == n;
        assert more[i] == cands[i];
      }
    }
  }

  /** A candidate found subscribed was so from the start, or an earlier one is of the same feed. */
  lemma SubscribedSince(t: Tables, m: Tables, cands: seq<Candidate>, c: Candidate)
    requires Keeps(t, m) && OnlyCandidates(t, m, cands) && FeedIdsDistinct(m.feeds) && IsSubscribed(m, c)
    requires FreshFeedIds(t, cands + [c])
    ensures IsSubscribed(t, c) || Mentions(cands, c.hash)
  {
    var id := m.feeds[c.hash].id;
    if id !in t.subscriptions {
      var i :| 0 <= i < |cands| && cands[i].hash in m.feeds && m.feeds[cands[i].hash].id == id;
      assert cands[i].hash == c.hash;
    } else if c.hash !in t.feeds {
      var i :| 0 <= i < |cands| && cands[i].hash == c.hash;
    }
  }

  /** The identifier drawn for a later candidate is not yet in use. */
  lemma StaysFresh(t: Tables, m: Tables, cands: seq<Candidate>, i: nat, used: seq<Candidate>)
    requires i < |cands| && used == cands[..i] && FreshFeedIds(t, cands) && IdsFrom(t, m, used)
    ensures FreshFor(m, cands[i])
  {
  }

  /** The feed identifiers in use are those from the start and those drawn for candidates. */
  ghost predicate IdsFrom(t: Tables, m: Tables, cands: seq<Candidate>) {
    && (forall h :: h in m.feeds ==>
      (h in t.feeds && t.feeds[h].id == m.feeds[h].id) || exists k :: 0 <= k < |cands| && cands[k].feedId == m.feeds[h].id)
    && (forall f :: f in m.subscriptions ==> f in t.subscriptions || exists h :: h in m.feeds && m.feeds[h].id == f)
  }

  lemma IdsFromMore(t: Tables, m: Tables, t': Tables, cands: seq<Candidate>, c: Candidate)
    requires IdsFrom(t, m, cands) && Grows(m, t', c)
    ensures IdsFrom(t, t', cands + [c])
  {
    var more := cands + [c];
    assert more[|cands|] == c;
    forall h | h in t'.feeds
      ensures (h in t.feeds && t.feeds[h].id == t'.feeds[h].id) || exists k :: 0 <= k < |more| && more[k].feedId == t'.feeds[h].id
    {
      if h in m.feeds && !(h in t.feeds && t.feeds[h].id == m.feeds[h].id) {
        var k :| 0 <= k < |cands| && cands[k].feedId == m.feeds[h].id;
        assert more[k] == cands[k];
      }
    }
    IdsOfSubscriptions(t, m, t', cands, c);
  }

  lemma IdsOfSubscriptions(t: Tables, m: Tables, t': Tables, cands: seq<Candidate>, c: Candidate)
    requires IdsFrom(t, m, cands) && Grows(m, t', c)
    ensures forall f :: f in t'.subscriptions ==> f in t.subscriptions || exists h :: h in t'.feeds && t'.feeds[h].id == f
  {
    forall f | f in t'.subscriptions && f !in t.subscriptions
      ensures exists h :: h in t'.feeds && t'.feeds[h].id == f
    {
      if f in m.subscriptions {
        var h :| h in m.feeds && m.feeds[h].id == f;
        assert h in t'.feeds && t'.feeds[h].id == f;
      } else {
        assert c.hash in t'.feeds && t'.feeds[c.hash].id == f;
      }
    }
  }

  // ---- positions

  /** The candidate was not subscribed at the start, and is the first of its feed. */
  ghost predicate NewAt(t: Tables, cands: seq<Candidate>, i: nat)
    requires i < |cands|
  {
    !IsSubscribed(t, cands[i]) && forall k :: 0 <= k < i ==> cands[k].hash != cands[i].hash
  }

  ghost predicate Precedes(t: Tables, a: Candidate, b: Candidate) {
    IsSubscribed(t, a) && IsSubscribed(t, b) &&
    t.subscriptions[t.feeds[a.hash].id].position < t.subscriptions[t.feeds[b.hash].id].position
  }

  /** New subscriptions come after all old ones, in the order of the document. */
  ghost predicate Positioned(t: Tables, t': Tables, cands: seq<Candidate>, low: int, high: int) {
    && low <= high
    && (forall f :: f in t'.subscriptions && f !in t.subscriptions ==> low < t'.subscriptions[f].position <= high)
    && (forall i, j :: 0 <= i < j < |cands| && NewAt(t, cands, i) && NewAt(t, cands, j) ==> Precedes(t', cands[i], cands[j]))
  }

  lemma NewAtPrefix(t: Tables, cands: seq<Candidate>, c: Candidate, i: nat)
    requires i < |cands|
    ensures NewAt(t, cands + [c], i) <==> NewAt(t, cands, i)
  {
    var more := cands + [c];
    assert forall k :: 0 <= k <= i ==> more[k] == cands[k];
  }

  lemma PositionedDuplicate(t: Tables, m: Tables, cands: seq<Candidate>, c: Candidate, low: int, high: int)
    requires Positioned(t, m, cands, low, high) && IsSubscribed(m, c)
    requires Keeps(t, m) && OnlyCandidates(t, m, cands) && FeedIdsDistinct(m.feeds) && FreshFeedIds(t, cands + [c])
    ensures Positioned(t, m, cands + [c], low, high)
  {
    var more := cands + [c];
    SubscribedSince(t, m, cands, c);
    assert !NewAt(t, more, |cands|) by {
      assert forall k :: 0 <= k < |cands| ==> more[k] == cands[k];
    }
    forall i, j | 0 <= i < j < |more| && NewAt(t, more, i) && NewAt(t, more, j)
      ensures Precedes(m, more[i], more[j])
    {
      NewAtPrefix(t, cands, c, i);
      NewAtPrefix(t, cands, c, j);
      assert more[i] == cands[i] && more[j] == cands[j];
    }
  }

  lemma PrecedesLater(m: Tables, t': Tables, a: Candidate, b: Candidate)
    requires Keeps(m, t') && Precedes(m, a, b)
    ensures Precedes(t', a, b)
  {
  }

  /** The tables have gained the candidate's subscription, at the position. */
  ghost predicate AddsAt(m: Tables, t': Tables, c: Candidate, position: int) {
    && Keeps(m, t') && IsSubscribed(t', c)
    && t'.feeds[c.hash].id !in m.subscriptions
    && t'.subscriptions[t'.feeds[c.hash].id].position == position
    && (forall f :: f in t'.subscriptions && f !in m.subscriptions ==> f == t'.feeds[c.hash].id)
  }

  lemma PlacedAddsAt(m: Tables, c: Candidate, categoryPosition: int, position: int)
    requires FeedIdsDistinct(m.feeds) && FreshFor(m, c) && (c.hash in m.feeds ==> Stored(m, c) && !IsSubscribed(m, c))
    ensures AddsAt(m, Placed(m, c, categoryPosition, position), c, position)
  {
    PlacedKeeps(m, c, categoryPosition, position);
  }

  /** The new subscriptions so far are no further than `high`. */
  ghost predicate UpTo(t: Tables, m: Tables, cands: seq<Candidate>, high: int) {
    forall i :: 0 <= i < |cands| && NewAt(t, cands, i) ==>
      IsSubscribed(m, cands[i]) && m.subscriptions[m.feeds[cands[i].hash].id].position <= high
  }

  lemma AddedIsLast(m: Tables, t': Tables, a: Candidate, c: Candidate, high: int)
    requires AddsAt(m, t', c, high + POSITION_STEP)
    requires IsSubscribed(m, a) && m.subscriptions[m.feeds[a.hash].id].position <= high
    ensures Precedes(t', a, c)
  {
  }

  lemma AddedInOrder(t: Tables, m: Tables, t': Tables, cands: seq<Candidate>, c: Candidate, low: int, high: int,
        i: nat, j: nat)
    requires Positioned(t, m, cands, low, high) && UpTo(t, m, cands, high) && AddsAt(m, t', c, high + POSITION_STEP)
    requires i < j < |cands + [c]| && NewAt(t, cands + [c], i) && NewAt(t, cands + [c], j)
    ensures Precedes(t', (cands + [c])[i], (cands + [c])[j])
  {
    NewAtPrefix(t, cands, c, i);
    if j < |cands| {
      NewAtPrefix(t, cands, c, j);
      PrecedesLater(m, t', cands[i], cands[j]);
    } else {
      AddedIsLast(m, t', cands[i], c, high);
    }
  }

  lemma AddedWithin(t: Tables, m: Tables, t': Tables, c: Candidate, low: int, high: int)
    requires AddsAt(m, t', c, high + POSITION_STEP) && low <= high
    requires forall f :: f in m.subscriptions && f !in t.subscriptions ==> low < m.subscriptions[f].position <= high
    ensures forall f :: f in t'.subscriptions && f !in t.subscriptions ==> low < t'.subscriptions[f].position <= high + POSITION_STEP
  {
  }

  lemma PositionedMore(t: Tables, m: Tables, t': Tables, cands: seq<Candidate>, c: Candidate, low: int, high: int)
    requires Positioned(t, m, cands, low, high) && UpTo(t, m, cands, high) && AddsAt(m, t', c, high + POSITION_STEP)
    ensures Positioned(t, t', cands + [c], low, high + POSITION_STEP)
  {
    var more := cands + [c];
    AddedWithin(t, m, t', c, low, high);
    forall i, j | 0 <= i < j < |more| && NewAt(t, more, i) && NewAt(t, more, j)
      ensures Precedes(t', more[i], more[j])
    {
      AddedInOrder(t, m, t', cands, c, low, high, i, j);
    }
  }

  lemma NewIsAboveLow(t: Tables, m: Tables, cands: seq<Candidate>, i: nat, low: int, high: int)
    requires Positioned(t, m, cands, low, high) && Keeps(t, m) && Satisfied(t, m, cands) && i < |cands| && NewAt(t, cands, i)
    requires IdsFrom(t, m, cands) && FreshFeedIds(t, cands)
    ensures IsSubscribed(m, cands[i]) && m.subscriptions[m.feeds[cands[i].hash].id].position <= high
  {
    var h := cands[i].hash;
    if h !in t.feeds {
      var k :| 0 <= k < |cands| && cands[k].feedId == m.feeds[h].id;
    }
  }

  lemma FreshPrefix(t: Tables, cands: seq<Candidate>, c: Candidate)
    requires FreshFeedIds(t, cands + [c])
    ensures FreshFeedIds(t, cands)
  {
    var more := cands + [c];
    assert forall i :: 0 <= i < |cands| ==> more[i] == cands[i];
  }

  // ---- the loop

  /** The variables of the loop. */
  datatype Counters = Counters(imported: nat, duplicates: nat, created: nat, nextCategory: int, nextSubscription: int)

  /** What a candidate that is not yet subscribed meets; none if it can be imported. */
  function CategoryObstacle(t: Tables, c: Candidate, n: Counters): Option<Failure> {
    if CreatesCategory(t, c) && |t.categories| >= MAX_CATEGORIES_PER_USER then Some(CategoryLimit)
    else if CreatesCategory(t, c) && n.nextCategory + POSITION_STEP > I64_MAX then Some(CorruptData)
    else None
  }

  function CategoryCounters(t: Tables, c: Candidate, n: Counters): Counters {
    if CreatesCategory(t, c) then n.(nextCategory := n.nextCategory + POSITION_STEP, created := n.created + 1) else n
  }

  function FeedObstacle(t: Tables, c: Candidate): Option<Failure> {
    if c.hash in t.feeds && t.feeds[c.hash].url != c.feed.normalized then Some(IdentityCollision)
    else if c.hash in t.feeds && t.feeds[c.hash].disabled then Some(CorruptData)
    else None
  }

  function Obstacle(t: Tables, c: Candidate, n: Counters): Option<Failure> {
    if FeedObstacle(t, c).Some? then FeedObstacle(t, c)
    else if IsSubscribed(t, c) then None
    else if |t.subscriptions| >= MAX_SUBSCRIPTIONS_PER_USER then Some(SubscriptionLimit)
    else if CategoryObstacle(t, c, n).Some? then CategoryObstacle(t, c, n)
    else if n.nextSubscription + POSITION_STEP > I64_MAX then Some(CorruptData)
    else None
  }

  function CountersAfter(t: Tables, c: Candidate, n: Counters): Counters {
    if IsSubscribed(t, c) then n.(duplicates := n.duplicates + 1)
    else Counters(n.imported + 1, n.duplicates, n.created + if CreatesCategory(t, c) then 1 else 0,
      n.nextCategory + if CreatesCategory(t, c) then POSITION_STEP else 0, n.nextSubscription + POSITION_STEP)
  }

  function TablesAfter(t: Tables, c: Candidate, n: Counters): Tables {
    if IsSubscribed(t, c) then t else Placed(t, c, n.nextCategory + POSITION_STEP, n.nextSubscription + POSITION_STEP)
  }

  datatype Outcome = Outcome(tables: Tables, counters: Counters)

  /** The loop as a function: each candidate in turn, up to the first obstacle. */
  function ImportAll(t: Tables, cands: seq<Candidate>, n: Counters): Result<Outcome, Failure> {
    if cands == [] then Ok(Outcome(t, n))
    else
      var last := cands[|cands| - 1];
      var before := ImportAll(t, cands[..|cands| - 1], n);
      if before.Err? then before
      else if Obstacle(before.value.tables, last, before.value.counters).Some? then
        Err(Obstacle(before.value.tables, last, before.value.counters).value)
      else
        Ok(Outcome(TablesAfter(before.value.tables, last, before.value.counters),
                   CountersAfter(before.value.tables, last, before.value.counters)))
  }

  ghost predicate Imports(t: Tables, cands: seq<Candidate>, n: Counters) {
    FeedIdsDistinct(t.feeds) && FreshFeedIds(t, cands) && ImportAll(t, cands, n).Ok?
  }

  lemma FreshUpTo(t: Tables, all: seq<Candidate>, i: nat)
    requires i <= |all| && FreshFeedIds(t, all)
    ensures FreshFeedIds(t, all[..i])
  {
  }

  /** One more candidate, with what is known of the tables before it. */
  lemma ImportsBefore(t: Tables, cands: seq<Candidate>, n: Counters)
    requires cands != [] && Imports(t, cands, n)
    ensures Imports(t, cands[..|cands| - 1], n)
    ensures var before := ImportAll(t, cands[..|cands| - 1], n).value; var c := cands[|cands| - 1];
      IsSubscribed(before.tables, c) ||
      (c.hash in before.tables.feeds ==> Stored(before.tables, c) && !IsSubscribed(before.tables, c))
    ensures cands == cands[..|cands| - 1] + [cands[|cands| - 1]]
  {
    FreshUpTo(t, cands, |cands| - 1);
  }

  /** Rows that were there before an import are kept. */
  lemma {:induction false} RowsKept(t: Tables, cands: seq<Candidate>, n: Counters)
    requires Imports(t, cands, n)
    ensures KeepsRows(t, ImportAll(t, cands, n).value.tables, cands)
  {
    if cands != [] {
      ImportsBefore(t, cands, n);
      RowsKept(t, cands[..|cands| - 1], n);
      RowsKeptByLast(t, cands, n);
    }
  }

  ghost predicate KeepsRows(t: Tables, m: Tables, cands: seq<Candidate>) {
    Keeps(t, m) && FeedIdsDistinct(m.feeds) && IdsFrom(t, m, cands)
  }

  lemma RowsKeptByLast(t: Tables, cands: seq<Candidate>, n: Counters)
    requires cands != [] && Imports(t, cands, n)
    requires KeepsRows(t, Before(t, cands, n).tables, cands[..|cands| - 1])
    ensures KeepsRows(t, ImportAll(t, cands, n).value.tables, cands)
  {
    ImportsBefore(t, cands, n);
    FreshForLast(t, Before(t, cands, n).tables, cands);
    RowsKeptByStep(t, Before(t, cands, n).tables, cands[..|cands| - 1], Last(cands), Before(t, cands, n).counters);
  }

  lemma RowsKeptByStep(t: Tables, m: Tables, cands: seq<Candidate>, c: Candidate, n: Counters)
    requires KeepsRows(t, m, cands) && FreshFor(m, c) && Obstacle(m, c, n).None?
    ensures KeepsRows(t, TablesAfter(m, c, n), cands + [c])
  {
    if IsSubscribed(m, c) {
      RowsKeptByDuplicate(t, m, cands, c);
    } else {
      RowsKeptByPlacing(t, m, cands, c, n);
    }
  }

  lemma FreshForLast(t: Tables, m: Tables, cands: seq<Candidate>)
    requires cands != [] && FreshFeedIds(t, cands) && KeepsRows(t, m, cands[..|cands| - 1])
    ensures FreshFor(m, Last(cands))
  {
    StaysFresh(t, m, cands, |cands| - 1, cands[..|cands| - 1]);
  }

  lemma RowsKeptByDuplicate(t: Tables, m: Tables, cands: seq<Candidate>, c: Candidate)
    requires KeepsRows(t, m, cands)
    ensures KeepsRows(t, m, cands + [c])
  {
    IdsFromMore(t, m, m, cands, c);
  }

  lemma RowsKeptByPlacing(t: Tables, m: Tables, cands: seq<Candidate>, c: Candidate, n: Counters)
    requires KeepsRows(t, m, cands) && !IsSubscribed(m, c)
    requires FreshFor(m, c) && (c.hash in m.feeds ==> Stored(m, c))
    ensures KeepsRows(t, TablesAfter(m, c, n), cands + [c])
  {
    assert TablesAfter(m, c, n) == Placed(m, c, n.nextCategory + POSITION_STEP, n.nextSubscription + POSITION_STEP);
    KeptByPlacing(t, m, c, n.nextCategory + POSITION_STEP, n.nextSubscription + POSITION_STEP);
    IdsByPlacing(t, m, cands, c, n.nextCategory + POSITION_STEP, n.nextSubscription + POSITION_STEP);
  }

  lemma KeptByPlacing(t: Tables, m: Tables, c: Candidate, categoryPosition: int, position: int)
    requires Keeps(t, m) && FeedIdsDistinct(m.feeds) && !IsSubscribed(m, c)
    requires FreshFor(m, c) && (c.hash in m.feeds ==> Stored(m, c))
    ensures Keeps(t, Placed(m, c, categoryPosition, position))
    ensures FeedIdsDistinct(Placed(m, c, categoryPosition, position).feeds)
  {
    PlacedKeeps(m, c, categoryPosition, position);
    KeepsTwice(t, m, Placed(m, c, categoryPosition, position));
  }

  lemma IdsByPlacing(t: Tables, m: Tables, cands: seq<Candidate>, c: Candidate, categoryPosition: int, position: int)
    requires IdsFrom(t, m, cands)
    ensures IdsFrom(t, Placed(m, c, categoryPosition, position), cands + [c])
  {
    PlacedGrows(m, c, categoryPosition, position);
    IdsFromMore(t, m, Placed(m, c, categoryPosition, position), cands, c);
  }

  /** The counters add up: imported and duplicate candidates are all candidates, and the tables have
      grown by the numbers reported, within the limits. */
  lemma {:induction false} CountersAddUp(t: Tables, cands: seq<Candidate>, n: Counters)
    requires Imports(t, cands, n) && n.imported == n.duplicates == n.created == 0
    requires |t.subscriptions| <= MAX_SUBSCRIPTIONS_PER_USER && |t.categories| <= MAX_CATEGORIES_PER_USER
    ensures var end := ImportAll(t, cands, n).value;
      Counted(t, end.tables, |cands|, end.counters.imported, end.counters.duplicates, end.counters.created)
  {
    if cands != [] {
      var init, c := cands[..|cands| - 1], cands[|cands| - 1];
      var before := ImportAll(t, init, n).value;
      ImportsBefore(t, cands, n);
      CountersAddUp(t, init, n);
      RowsKept(t, init, n);
      if !IsSubscribed(before.tables, c) {
        StaysFresh(t, before.tables, cands, |init|, init);
        PlacedKeeps(before.tables, c, before.counters.nextCategory + POSITION_STEP, before.counters.nextSubscription + POSITION_STEP);
      }
    }
  }

  ghost function Before(t: Tables, cands: seq<Candidate>, n: Counters): Outcome
    requires cands != [] && Imports(t, cands, n)
  {
    ImportAll(t, cands[..|cands| - 1], n).value
  }

  ghost function Last(cands: seq<Candidate>): Candidate
    requires cands != []
  {
    cands[|cands| - 1]
  }

  lemma LastGrows(t: Tables, cands: seq<Candidate>, n: Counters)
    requires cands != [] && Imports(t, cands, n)
    ensures Grows(Before(t, cands, n).tables, ImportAll(t, cands, n).value.tables, Last(cands))
  {
    var before := Before(t, cands, n);
    PlacedGrows(before.tables, Last(cands), before.counters.nextCategory + POSITION_STEP, before.counters.nextSubscription + POSITION_STEP);
  }

  /** Everything new belongs to a candidate. */
  lemma {:induction false} NothingElseImported(t: Tables, cands: seq<Candidate>, n: Counters)
    requires Imports(t, cands, n)
    ensures OnlyCandidates(t, ImportAll(t, cands, n).value.tables, cands)
  {
    if cands != [] {
      ImportsBefore(t, cands, n);
      NothingElseImported(t, cands[..|cands| - 1], n);
      LastGrows(t, cands, n);
      OnlyCandidatesMore(t, Before(t, cands, n).tables, ImportAll(t, cands, n).value.tables, cands[..|cands| - 1], Last(cands));
    }
  }

  lemma DuplicateIsOld(t: Tables, cands: seq<Candidate>, n: Counters)
    requires cands != [] && Imports(t, cands, n) && IsSubscribed(Before(t, cands, n).tables, Last(cands))
    ensures IsSubscribed(t, Last(cands)) || Mentions(cands[..|cands| - 1], Last(cands).hash)
  {
    ImportsBefore(t, cands, n);
    RowsKept(t, cands[..|cands| - 1], n);
    NothingElseImported(t, cands[..|cands| - 1], n);
    SubscribedSince(t, Before(t, cands, n).tables, cands[..|cands| - 1], Last(cands));
  }

  lemma BeforeNew(t: Tables, cands: seq<Candidate>, n: Counters)
    requires cands != [] && Imports(t, cands, n) && !IsSubscribed(Before(t, cands, n).tables, Last(cands))
    ensures var m := Before(t, cands, n).tables;
      FeedIdsDistinct(m.feeds) && FreshFor(m, Last(cands)) && (Last(cands).hash in m.feeds ==> Stored(m, Last(cands)))
  {
    ImportsBefore(t, cands, n);
    RowsKept(t, cands[..|cands| - 1], n);
    StaysFresh(t, Before(t, cands, n).tables, cands, |cands| - 1, cands[..|cands| - 1]);
  }

  lemma NewIsFulfilled(t: Tables, cands: seq<Candidate>, n: Counters)
    requires cands != [] && Imports(t, cands, n) && !IsSubscribed(Before(t, cands, n).tables, Last(cands))
    ensures Keeps(Before(t, cands, n).tables, ImportAll(t, cands, n).value.tables)
    ensures Fulfils(ImportAll(t, cands, n).value.tables, Last(cands))
  {
    var before := Before(t, cands, n);
    BeforeNew(t, cands, n);
    PlacedKeeps(before.tables, Last(cands), before.counters.nextCategory + POSITION_STEP, before.counters.nextSubscription + POSITION_STEP);
  }

  /** Every candidate is subscribed to in the end, as asked for if it was not before. */
  lemma {:induction false} AllSubscribed(t: Tables, cands: seq<Candidate>, n: Counters)
    requires Imports(t, cands, n)
    ensures Satisfied(t, ImportAll(t, cands, n).value.tables, cands)
  {
    if cands != [] {
      ImportsBefore(t, cands, n);
      AllSubscribed(t, cands[..|cands| - 1], n);
      if IsSubscribed(Before(t, cands, n).tables, Last(cands)) {
        DuplicateIsOld(t, cands, n);
        SatisfiedMore(t, Before(t, cands, n).tables, cands[..|cands| - 1], Last(cands));
      } else {
        NewIsFulfilled(t, cands, n);
        SatisfiedNext(t, Before(t, cands, n).tables, ImportAll(t, cands, n).value.tables, cands[..|cands| - 1], Last(cands));
      }
    }
  }

  lemma SatisfiedNext(t: Tables, m: Tables, t': Tables, cands: seq<Candidate>, c: Candidate)
    requires Satisfied(t, m, cands) && Keeps(m, t') && Fulfils(t', c)
    ensures Satisfied(t, t', cands + [c])
  {
    SatisfiedLater(t, m, t', cands);
    SatisfiedMore(t, t', cands, c);
  }

  /** New subscriptions are placed after all old ones, in document order. */
  lemma {:induction false} ImportedInOrder(t: Tables, cands: seq<Candidate>, n: Counters)
    requires Imports(t, cands, n)
    ensures var end := ImportAll(t, cands, n).value;
      Positioned(t, end.tables, cands, n.nextSubscription, end.counters.nextSubscription)
  {
    if cands != [] {
      ImportsBefore(t, cands, n);
      ImportedInOrder(t, cands[..|cands| - 1], n);
      if IsSubscribed(Before(t, cands, n).tables, Last(cands)) {
        DuplicateInOrder(t, cands, n);
      } else {
        NewInOrder(t, cands, n);
      }
    }
  }

  lemma DuplicateLeaves(t: Tables, cands: seq<Candidate>, n: Counters)
    requires cands != [] && Imports(t, cands, n) && IsSubscribed(Before(t, cands, n).tables, Last(cands))
    ensures var before, end := Before(t, cands, n), ImportAll(t, cands, n).value;
      end.tables == before.tables && end.counters.nextSubscription == before.counters.nextSubscription
  {
    ImportsBefore(t, cands, n);
  }

  lemma DuplicateInOrder(t: Tables, cands: seq<Candidate>, n: Counters)
    requires cands != [] && Imports(t, cands, n) && IsSubscribed(Before(t, cands, n).tables, Last(cands))
    requires var before := Before(t, cands, n);
      Positioned(t, before.tables, cands[..|cands| - 1], n.nextSubscription, before.counters.nextSubscription)
    ensures var end := ImportAll(t, cands, n).value;
      Positioned(t, end.tables, cands, n.nextSubscription, end.counters.nextSubscription)
  {
    var before := Before(t, cands, n);
    ImportsBefore(t, cands, n);
    DuplicateLeaves(t, cands, n);
    RowsKept(t, cands[..|cands| - 1], n);
    NothingElseImported(t, cands[..|cands| - 1], n);
    PositionedDuplicate(t, before.tables, cands[..|cands| - 1], Last(cands), n.nextSubscription, before.counters.nextSubscription);
  }

  lemma NewIsAddedAt(t: Tables, cands: seq<Candidate>, n: Counters)
    requires cands != [] && Imports(t, cands, n) && !IsSubscribed(Before(t, cands, n).tables, Last(cands))
    ensures var before := Before(t, cands, n);
      AddsAt(before.tables, ImportAll(t, cands, n).value.tables, Last(cands), before.counters.nextSubscription + POSITION_STEP)
  {
    var before := Before(t, cands, n);
    BeforeNew(t, cands, n);
    PlacedAddsAt(before.tables, Last(cands), before.counters.nextCategory + POSITION_STEP,
      before.counters.nextSubscription + POSITION_STEP);
  }

  lemma EarlierUpTo(t: Tables, cands: seq<Candidate>, n: Counters)
    requires Imports(t, cands, n)
    requires var end := ImportAll(t, cands, n).value;
      Positioned(t, end.tables, cands, n.nextSubscription, end.counters.nextSubscription)
    ensures UpTo(t, ImportAll(t, cands, n).value.tables, cands, ImportAll(t, cands, n).value.counters.nextSubscription)
  {
    var end := ImportAll(t, cands, n).value;
    RowsKept(t, cands, n);
    AllSubscribed(t, cands, n);
    forall i | 0 <= i < |cands| && NewAt(t, cands, i)
      ensures IsSubscribed(end.tables, cands[i])
      ensures end.tables.subscriptions[end.tables.feeds[cands[i].hash].id].position <= end.counters.nextSubscription
    {
      NewIsAboveLow(t, end.tables, cands, i, n.nextSubscription, end.counters.nextSubscription);
    }
  }

  lemma NewInOrder(t: Tables, cands: seq<Candidate>, n: Counters)
    requires cands != [] && Imports(t, cands, n) && !IsSubscribed(Before(t, cands, n).tables, Last(cands))
    requires var before := Before(t, cands, n);
      Positioned(t, before.tables, cands[..|cands| - 1], n.nextSubscription, before.counters.nextSubscription)
    ensures var end := ImportAll(t, cands, n).value;
      Positioned(t, end.tables, cands, n.nextSubscription, end.counters.nextSubscription)
  {
    var before := Before(t, cands, n);
    ImportsBefore(t, cands, n);
    EarlierUpTo(t, cands[..|cands| - 1], n);
    NewIsAddedAt(t, cands, n);
    PositionedMore(t, before.tables, ImportAll(t, cands, n).value.tables, cands[..|cands| - 1], Last(cands),
      n.nextSubscription, before.counters.nextSubscription);
  }

  /** Importing a document again changes nothing and reports only duplicates. */
  lemma {:induction false} ImportedAgain(t: Tables, cands: seq<Candidate>, n: Counters)
    requires forall i :: 0 <= i < |cands| ==> IsSubscribed(t, cands[i]) && !t.feeds[cands[i].hash].disabled
    ensures ImportAll(t, cands, n) == Ok(Outcome(t, n.(duplicates := n.duplicates + |cands|)))
  {
    if cands != [] {
      ImportedAgain(t, cands[..|cands| - 1], n);
    }
  }

  class FeedRepository {
    var tables: Tables

    constructor (tables: Tables)
      ensures this.tables == tables
    {
      this.tables := tables;
    }

    /** The largest position of the user's subscriptions, 0 if there are none. */
    method LastPosition() returns (last: int)
      ensures IsLargest(Positions(tables), last)
    {
      last := 0;
      var rest := tables.subscriptions.Keys;
      while rest != {}
        invariant rest <= tables.subscriptions.Keys
        invariant rest == tables.subscriptions.Keys || last in Positions(tables)
        invariant rest == tables.subscriptions.Keys ==> last == 0
        invariant forall f :: f in tables.subscriptions && f !in rest ==> tables.subscriptions[f].position <= last
        decreases |rest|
      {
        var f :| f in rest;
        if rest == tables.subscriptions.Keys || last < tables.subscriptions[f].position { last := tables.subscriptions[f].position; }
        rest := rest - {f};
      }
    }

    method LastCategoryPosition() returns (last: int)
      ensures IsLargest(CategoryPositions(tables), last)
    {
      last := 0;
      var rest := tables.categories.Keys;
      while rest != {}
        invariant rest <= tables.categories.Keys
        invariant rest == tables.categories.Keys || last in CategoryPositions(tables)
        invariant rest == tables.categories.Keys ==> last == 0
        invariant forall c :: c in tables.categories && c !in rest ==> tables.categories[c].position <= last
        decreases |rest|
      {
        var c :| c in rest;
        if rest == tables.categories.Keys || last < tables.categories[c].position { last := tables.categories[c].position; }
        rest := rest - {c};
      }
    }

    /** The feed of a candidate, which is created where it is missing. */
    method FeedFor(c: Candidate) returns (result: Result<StoredFeed, Failure>)
      modifies this
      ensures match FeedObstacle(old(tables), c)
        case Some(failure) => result == Err(failure)
        case None => tables == WithFeed(old(tables), c) && result == Ok(tables.feeds[c.hash])
    {
      if c.hash in tables.feeds {
        if tables.feeds[c.hash].url != c.feed.normalized { return Err(IdentityCollision); }
      } else {
        tables := tables.(feeds := tables.feeds[c.hash := StoredFeed(c.feedId, c.feed.normalized, false, false, 0)]);
      }
      if tables.feeds[c.hash].disabled { return Err(CorruptData); }
      return Ok(tables.feeds[c.hash]);
    }

    /** The category of a new subscription, which is created where it is missing. */
    method CategoryFor(c: Candidate, n: Counters) returns (result: Result<Counters, Failure>, category: Option<CategoryId>)
      modifies this
      ensures match CategoryObstacle(old(tables), c, n)
        case Some(failure) => result == Err(failure)
        case None =>
          && result == Ok(CategoryCounters(old(tables), c, n))
          && tables == WithCategory(old(tables), c, n.nextCategory + POSITION_STEP)
          && category == CategoryOf(tables, c)
    {
      if c.feed.category.None? { return Ok(n), None; }
      var title := c.feed.category.value.normalized;
      var next := n;
      if title !in tables.categories {
        if |tables.categories| >= MAX_CATEGORIES_PER_USER { return Err(CategoryLimit), None; }
        if n.nextCategory + POSITION_STEP > I64_MAX { return Err(CorruptData), None; }
        next := n.(nextCategory := n.nextCategory + POSITION_STEP, created := n.created + 1);
        tables := tables.(categories := tables.categories[title :=
          Category(c.categoryId, c.feed.category.value.display, next.nextCategory)]);
      }
      return Ok(next), Some(tables.categories[title].id);
    }

    /** The body of the loop. */
    method ImportCandidate(c: Candidate, n: Counters) returns (result: Result<Counters, Failure>)
      requires FreshFor(tables, c)
      modifies this
      ensures match Obstacle(old(tables), c, n)
        case Some(failure) => result == Err(failure)
        case None => result == Ok(CountersAfter(old(tables), c, n)) && tables == TablesAfter(old(tables), c, n)
    {
      ghost var before := tables;
      var found := FeedFor(c);
      if found.Err? { return Err(found.error); }
      var stored := found.value;
      if stored.id in tables.subscriptions { return Ok(n.(duplicates := n.duplicates + 1)); }
      if |tables.subscriptions| >= MAX_SUBSCRIPTIONS_PER_USER { return Err(SubscriptionLimit); }
      tables := tables.(feeds := tables.feeds[c.hash := stored.(orphaned := false)]);
      var placed, category := CategoryFor(c, n);
      if placed.Err? { return Err(placed.error); }
      var next := placed.value;
      if next.nextSubscription + POSITION_STEP > I64_MAX { return Err(CorruptData); }
      next := next.(nextSubscription := next.nextSubscription + POSITION_STEP, imported := next.imported + 1);
      tables := tables.(subscriptions := tables.subscriptions[stored.id :=
        Subscription(category, c.feed.title, next.nextSubscription, InitialFrontier(stored.head), InitialFrontier(stored.head))]);
      PlacedInSteps(before, c, n.nextCategory + POSITION_STEP, n.nextSubscription + POSITION_STEP);
      return Ok(next);
    }

    /** The loop over the feeds of the document. */
    method ImportLoop(cands: seq<Candidate>, start: Counters) returns (result: Result<Counters, Failure>)
      requires FreshFeedIds(tables, cands) && FeedIdsDistinct(tables.feeds)
      modifies this
      ensures match ImportAll(old(tables), cands, start)
        case Err(failure) => result == Err(failure)
        case Ok(end) => result == Ok(end.counters) && tables == end.tables
    {
      ghost var begun := tables;
      var n := start;
      for i := 0 to |cands|
        invariant ImportAll(begun, cands[..i], start) == Ok(Outcome(tables, n))
      {
        assert cands[..i + 1][..i] == cands[..i] && cands[..i + 1][i] == cands[i];
        FreshUpTo(begun, cands, i);
        RowsKept(begun, cands[..i], start);
        StaysFresh(begun, tables, cands, i, cands[..i]);
        result := ImportCandidate(cands[i], n);
        if result.Err? {
          ImportFails(begun, cands, start, i + 1);
          return;
        }
        n := result.value;
      }
      assert cands[..|cands|] == cands;
      return Ok(n);
    }

    /** `import_document` within its transaction. */
    method ImportOpml(active: bool, cands: seq<Candidate>, documentDuplicates: nat) returns (result: Result<Imported, Failure>)
      requires FreshFeedIds(tables, cands) && FeedIdsDistinct(tables.feeds)
      modifies this
      ensures result.Err? ==> tables == old(tables)
      ensures !active ==> result == Err(InvalidUserId)
      ensures active && (|old(tables).categories| > MAX_CATEGORIES_PER_USER || |old(tables).subscriptions| > MAX_SUBSCRIPTIONS_PER_USER) ==>
        result == Err(CorruptData)
      ensures active && |old(tables).categories| <= MAX_CATEGORIES_PER_USER && |old(tables).subscriptions| <= MAX_SUBSCRIPTIONS_PER_USER ==>
        exists low, lowCategory :: Decided(old(tables), tables, cands, documentDuplicates, result, low, lowCategory)
    {
      if !active { return Err(InvalidUserId); }
      if |tables.categories| > MAX_CATEGORIES_PER_USER { return Err(CorruptData); }
      var lowCategory := LastCategoryPosition();
      if |tables.subscriptions| > MAX_SUBSCRIPTIONS_PER_USER { return Err(CorruptData); }
      var low := LastPosition();
      if lowCategory < 0 || low < 0 {
        assert Decided(tables, tables, cands, documentDuplicates, Err(CorruptData), low, lowCategory);
        return Err(CorruptData);
      }
      var begin := tables;
      var start := Counters(0, 0, 0, lowCategory, low);
      var counted := ImportLoop(cands, start);
      if counted.Err? {
        tables := begin;
        assert Decided(begin, tables, cands, documentDuplicates, Err(counted.error), low, lowCategory);
        return Err(counted.error);
      }
      var n := counted.value;
      result := Ok(Imported(|cands|, n.imported, documentDuplicates + n.duplicates, n.created));
      assert Decided(begin, tables, cands, documentDuplicates, result, low, lowCategory);
    }
  }

  /** The outcome of an import by an active user whose tables are within the limits: the loop decides,
      unless a stored position is negative throughout. */
  ghost predicate Decided(t: Tables, t': Tables, cands: seq<Candidate>, documentDuplicates: nat,
        result: Result<Imported, Failure>, low: int, lowCategory: int) {
    && IsLargest(Positions(t), low) && IsLargest(CategoryPositions(t), lowCategory)
    && if low < 0 || lowCategory < 0 then result == Err(CorruptData)
       else match ImportAll(t, cands, Counters(0, 0, 0, lowCategory, low))
         case Err(failure) => result == Err(failure)
         case Ok(_) => result.Ok? && Complete(t, t', cands, documentDuplicates, result.value, low, lowCategory)
  }

  /** A successful import is the loop without an obstacle, started from empty counters. */
  ghost predicate Complete(t: Tables, t': Tables, cands: seq<Candidate>, documentDuplicates: nat, result: Imported,
        low: int, lowCategory: int) {
    var start := Counters(0, 0, 0, lowCategory, low);
    && ImportAll(t, cands, start).Ok?
    && var end := ImportAll(t, cands, start).value;
       && t' == end.tables
       && result == Imported(|cands|, end.counters.imported, documentDuplicates + end.counters.duplicates, end.counters.created)
  }

  lemma {:induction false} ImportFails(t: Tables, cands: seq<Candidate>, n: Counters, i: nat)
    requires i <= |cands| && ImportAll(t, cands[..i], n).Err?
    ensures ImportAll(t, cands, n) == ImportAll(t, cands[..i], n)
  {
    if i == |cands| {
      assert cands[..i] == cands;
    } else {
      assert cands[..|cands| - 1][..i] == cands[..i];
      ImportFails(t, cands[..|cands| - 1], n, i);
    }
  }

  /** What a successful import reports is true of the tables. */
  lemma ImportReports(t: Tables, t': Tables, cands: seq<Candidate>, documentDuplicates: nat, result: Imported,
        low: int, lowCategory: int)
    requires FeedIdsDistinct(t.feeds) && FreshFeedIds(t, cands)
    requires |t.subscriptions| <= MAX_SUBSCRIPTIONS_PER_USER && |t.categories| <= MAX_CATEGORIES_PER_USER
    requires Complete(t, t', cands, documentDuplicates, result, low, lowCategory)
    ensures result.importedCount + (result.duplicateCount - documentDuplicates) == result.validCount == |cands|
    ensures |t'.subscriptions| == |t.subscriptions| + result.importedCount <= MAX_SUBSCRIPTIONS_PER_USER
    ensures |t'.categories| == |t.categories| + result.createdCategoryCount <= MAX_CATEGORIES_PER_USER
  {
    CountersAddUp(t, cands, Counters(0, 0, 0, lowCategory, low));
  }

  // ---- orphans

  /** Feeds of the document are marked as orphans in `m` only if they were so in `t`, where the user
      had subscribed to them already. */
  ghost predicate Adopts(t: Tables, m: Tables, cands: seq<Candidate>) {
    forall i :: 0 <= i < |cands| ==> cands[i].hash in m.feeds && (m.feeds[cands[i].hash].orphaned ==> OldOrphan(t, cands[i].hash))
  }

  ghost predicate OldOrphan(t: Tables, h: Hash) {
    h in t.feeds && t.feeds[h].orphaned && t.feeds[h].id in t.subscriptions
  }

  /** No feed has become an orphan. */
  ghost predicate Sheds(t: Tables, m: Tables) {
    forall h :: h in t.feeds ==> h in m.feeds && (m.feeds[h].orphaned ==> t.feeds[h].orphaned)
  }

  lemma PlacedClears(m: Tables, c: Candidate, categoryPosition: int, position: int)
    ensures var m' := Placed(m, c, categoryPosition, position);
      Sheds(m, m') && c.hash in m'.feeds && !m'.feeds[c.hash].orphaned
  {
  }

  lemma AdoptsNew(t: Tables, m: Tables, m': Tables, cands: seq<Candidate>, c: Candidate)
    requires Adopts(t, m, cands) && Sheds(m, m') && c.hash in m'.feeds && !m'.feeds[c.hash].orphaned
    ensures Adopts(t, m', cands + [c])
  {
    forall i | 0 <= i < |cands|
      ensures cands[i].hash in m'.feeds && (m'.feeds[cands[i].hash].orphaned ==> OldOrphan(t, cands[i].hash))
    {
    }
    assert forall i :: 0 <= i <= |cands| ==> (cands + [c])[i] == if i < |cands| then cands[i] else c;
  }

  lemma AdoptsOld(t: Tables, m: Tables, cands: seq<Candidate>, c: Candidate)
    requires Adopts(t, m, cands) && Sheds(t, m) && IsSubscribed(m, c)
    requires Keeps(t, m) && OnlyCandidates(t, m, cands) && FeedIdsDistinct(m.feeds)
    requires FreshFeedIds(t, cands + [c])
    ensures Adopts(t, m, cands + [c])
  {
    SubscribedSince(t, m, cands, c);
    assert m.feeds[c.hash].orphaned ==> OldOrphan(t, c.hash);
    assert forall i :: 0 <= i <= |cands| ==> (cands + [c])[i] == if i < |cands| then cands[i] else c;
  }

  /** After an import no feed of the document is marked as an orphan, unless the user had subscribed to
      it before and it was marked then. */
  lemma {:induction false} NoOrphans(t: Tables, cands: seq<Candidate>, n: Counters)
    requires Imports(t, cands, n)
    ensures Sheds(t, ImportAll(t, cands, n).value.tables) && Adopts(t, ImportAll(t, cands, n).value.tables, cands)
  {
    if cands != [] {
      var init := cands[..|cands| - 1];
      var before := Before(t, cands, n);
      ImportsBefore(t, cands, n);
      NoOrphans(t, init, n);
      if IsSubscribed(before.tables, Last(cands)) {
        DuplicateLeaves(t, cands, n);
        RowsKept(t, init, n);
        NothingElseImported(t, init, n);
        AdoptsOld(t, before.tables, init, Last(cands));
      } else {
        PlacedClears(before.tables, Last(cands), before.counters.nextCategory + POSITION_STEP,
          before.counters.nextSubscription + POSITION_STEP);
        AdoptsNew(t, before.tables, ImportAll(t, cands, n).value.tables, init, Last(cands));
      }
    }
  }
}
