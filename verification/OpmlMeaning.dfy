/** What the feeds of an OPML document say, told from the place of their outlines in the document: the
    elements that enclose them and the attributes that they carry (`src/feeds/opml.rs`). */
module OpmlMeaning {
  import opened Outcomes
  import opened Opml
  import opened OpmlTree

  // ---- attributes

  /** The attribute at this position is the first one of the name. */
  ghost predicate FirstNamed(attributes: seq<(string, string)>, name: string, i: nat) {
    && i < |attributes|
    && SameName(attributes[i].0, name)
    && forall j :: 0 <= j < i ==> !SameName(attributes[j].0, name)
  }

  /** Names are equal but for the case of the letters from A to Z. */
  ghost predicate SameName(a: string, b: string) {
    |a| == |b| && forall i :: 0 <= i < |a| ==> SameLetter(a[i], b[i])
  }

  ghost predicate SameLetter(c: char, d: char) {
    c == d || ('A' <= c <= 'Z' && d as int == c as int + 32) || ('A' <= d <= 'Z' && c as int == d as int + 32)
  }

  lemma LowerDecides(c: char, d: char)
    ensures Lower(c) == Lower(d) <==> SameLetter(c, d)
  {
  }

  lemma NamesDecide(a: string, b: string)
    ensures EqIgnoreAsciiCase(a, b) <==> SameName(a, b)
  {
    if |a| == |b| {
      forall i | 0 <= i < |a|
        ensures Lower(a[i]) == Lower(b[i]) <==> SameLetter(a[i], b[i])
      {
        LowerDecides(a[i], b[i]);
      }
    }
  }

  /** Looking up an attribute gives the value of the first one of its name, if there is one. */
  lemma {:induction false} GetIsFirst(attributes: seq<(string, string)>, name: string)
    ensures Get(attributes, name).None? <==> forall i :: 0 <= i < |attributes| ==> !SameName(attributes[i].0, name)
    ensures Get(attributes, name).Some? ==>
      exists i: nat :: FirstNamed(attributes, name, i) && attributes[i].1 == Get(attributes, name).value
  {
    if attributes != [] {
      NamesDecide(attributes[0].0, name);
      if SameName(attributes[0].0, name) {
        assert FirstNamed(attributes, name, 0);
      } else {
        GetIsFirst(attributes[1..], name);
        if Get(attributes[1..], name).Some? {
          var i: nat :| FirstNamed(attributes[1..], name, i) && attributes[1..][i].1 == Get(attributes[1..], name).value;
          assert FirstNamed(attributes, name, i + 1);
        }
      }
    }
  }

  // ---- places

  /** An element with those that enclose it, the root first. */
  datatype Place = Place(element: Element, enclosing: seq<Element>)

  /** Below the body, which is a child of the root. */
  ghost predicate InBody(enclosing: seq<Element>) {
    |enclosing| >= 2 && Named(enclosing[1], "body")
  }

  ghost predicate HasFeedUrl(e: Element) {
    Get(AttributesOf(e), "xmlUrl").Some?
  }

  /** The outlines of the body that have a feed URL, in document order. */
  ghost function FeedOutlines(f: Forest, enclosing: seq<Element>): seq<Place> {
    match f
    case Done => []
    case Other(_, next) => FeedOutlines(next, enclosing)
    case Hollow(e, next) => HereIf(e, enclosing) + FeedOutlines(next, enclosing)
    case Tag(e, children, next) =>
      HereIf(e, enclosing) + FeedOutlines(children, enclosing + [e]) + FeedOutlines(next, enclosing)
  }

  ghost function HereIf(e: Element, enclosing: seq<Element>): seq<Place> {
    if InBody(enclosing) && Named(e, "outline") && HasFeedUrl(e) then [Place(e, enclosing)] else []
  }

  // ---- what an outline says

  /** The i-th enclosing element is an outline of the body without a feed URL. */
  ghost predicate IsCategory(enclosing: seq<Element>, i: nat) {
    InBody(enclosing) && 2 <= i < |enclosing| && Named(enclosing[i], "outline") && !HasFeedUrl(enclosing[i])
  }

  ghost predicate Innermost(enclosing: seq<Element>, i: nat) {
    IsCategory(enclosing, i) && forall j :: i < j < |enclosing| ==> !IsCategory(enclosing, j)
  }

  /** The title of an outline, else its text. */
  ghost function Caption(e: Element): Option<string> {
    var title, text := Get(AttributesOf(e), "title"), Get(AttributesOf(e), "text");
    if title.Some? then title else text
  }

  ghost function CategoryNamed(policy: Policy, e: Element): Option<ImportCategory> {
    if Caption(e).Some? then policy.category(Caption(e).value) else None
  }

  /** The category named by the innermost enclosing outline of the body without a feed URL, and none if
      there is none. */
  ghost predicate Under(policy: Policy, enclosing: seq<Element>, category: Option<ImportCategory>) {
    || (exists i: nat :: Innermost(enclosing, i) && category == CategoryNamed(policy, enclosing[i]))
    || ((forall i :: 0 <= i < |enclosing| ==> !IsCategory(enclosing, i)) && category == None)
  }

  /** The feed has the URL, the title and the category that its outline gives it. */
  ghost predicate Says(policy: Policy, p: Place, feed: OpmlFeed) {
    && Get(AttributesOf(p.element), "xmlUrl") == Some(feed.sourceUrl)
    && policy.url(feed.sourceUrl) == Some(feed.normalized)
    && feed.title == (if Caption(p.element).Some? then policy.title(Caption(p.element).value) else None)
    && Under(policy, p.enclosing, feed.category)
  }

  ghost predicate Yields(policy: Policy, p: Place, x: ParsedOutline) {
    match x
    case Feed(feed) => Says(policy, p, feed)
    case InvalidFeed => HasFeedUrl(p.element) && policy.url(Get(AttributesOf(p.element), "xmlUrl").value).None?
    case Category(_) => false
  }

  /** What is found are these outlines, one by one. */
  ghost predicate FoundAt(policy: Policy, places: seq<Place>, found: seq<ParsedOutline>) {
    |places| == |found| && forall k :: 0 <= k < |places| ==> Yields(policy, places[k], found[k])
  }

  lemma FoundAtJoin(policy: Policy, ps: seq<Place>, xs: seq<ParsedOutline>, qs: seq<Place>, ys: seq<ParsedOutline>)
    requires FoundAt(policy, ps, xs) && FoundAt(policy, qs, ys)
    ensures FoundAt(policy, ps + qs, xs + ys)
  {
  }

  lemma OwnFoundAt(policy: Policy, e: Element, enclosing: seq<Element>, category: Option<ImportCategory>)
    requires Under(policy, enclosing, category)
    ensures FoundAt(policy, HereIf(e, enclosing), OwnFound(policy, e, InBody(enclosing), category))
  {
  }

  lemma CategoriesWithin(e: Element, enclosing: seq<Element>, i: nat)
    requires i < |enclosing|
    ensures IsCategory(enclosing + [e], i) <==> IsCategory(enclosing, i)
  {
    assert (enclosing + [e])[i] == enclosing[i];
    assert |enclosing| >= 2 ==> (enclosing + [e])[1] == enclosing[1];
  }

  lemma CategoryHere(e: Element, enclosing: seq<Element>)
    ensures IsCategory(enclosing + [e], |enclosing|) <==>
      InBody(enclosing) && Named(e, "outline") && !HasFeedUrl(e)
  {
    assert (enclosing + [e])[|enclosing|] == e;
    assert |enclosing| >= 2 ==> (enclosing + [e])[1] == enclosing[1];
  }

  lemma UnderOwn(policy: Policy, e: Element, enclosing: seq<Element>)
    requires IsCategory(enclosing + [e], |enclosing|)
    ensures Under(policy, enclosing + [e], CategoryNamed(policy, e))
  {
    assert (enclosing + [e])[|enclosing|] == e;
    assert Innermost(enclosing + [e], |enclosing|);
  }

  lemma UnderOuter(policy: Policy, e: Element, enclosing: seq<Element>, category: Option<ImportCategory>)
    requires Under(policy, enclosing, category) && !IsCategory(enclosing + [e], |enclosing|)
    ensures Under(policy, enclosing + [e], category)
  {
    var inner := enclosing + [e];
    forall i | 0 <= i < |enclosing|
      ensures IsCategory(inner, i) <==> IsCategory(enclosing, i)
    {
      CategoriesWithin(e, enclosing, i);
    }
    if exists i: nat :: Innermost(enclosing, i) && category == CategoryNamed(policy, enclosing[i]) {
      var i: nat :| Innermost(enclosing, i) && category == CategoryNamed(policy, enclosing[i]);
      assert inner[i] == enclosing[i];
      assert Innermost(inner, i);
    }
  }

  /** The category that the recursion passes down to the content of an element. */
  ghost function Inner(policy: Policy, e: Element, enclosing: seq<Element>,
        category: Option<ImportCategory>): Option<ImportCategory> {
    var own := OwnOutline(policy, e, InBody(enclosing), category);
    if own.Some? && own.value.Category? then own.value.category else category
  }

  /** Within an element the category is its own, if it is a category, else the one it lies under. */
  lemma UnderChild(policy: Policy, e: Element, enclosing: seq<Element>, category: Option<ImportCategory>)
    requires Under(policy, enclosing, category)
    ensures Under(policy, enclosing + [e], Inner(policy, e, enclosing, category))
  {
    CategoryHere(e, enclosing);
    if IsCategory(enclosing + [e], |enclosing|) {
      UnderOwn(policy, e, enclosing);
    } else {
      UnderOuter(policy, e, enclosing, category);
    }
  }

  ghost function FoundIn(policy: Policy, f: Forest, enclosing: seq<Element>, category: Option<ImportCategory>): seq<ParsedOutline> {
    Found(policy, f, |enclosing|, InBody(enclosing), category)
  }

  lemma FoundInTag(policy: Policy, e: Element, children: Forest, next: Forest, enclosing: seq<Element>,
        category: Option<ImportCategory>)
    ensures FoundIn(policy, Tag(e, children, next), enclosing, category) ==
      OwnFound(policy, e, InBody(enclosing), category)
      + FoundIn(policy, children, enclosing + [e], Inner(policy, e, enclosing, category))
      + FoundIn(policy, next, enclosing, category)
  {
    assert InBody(enclosing + [e]) <==> InBody(enclosing) || (|enclosing| == 1 && Named(e, "body"));
  }

  lemma {:induction false} FoundIsOutlines(policy: Policy, f: Forest, enclosing: seq<Element>, category: Option<ImportCategory>)
    requires Under(policy, enclosing, category)
    ensures FoundAt(policy, FeedOutlines(f, enclosing), FoundIn(policy, f, enclosing, category))
    decreases f
  {
    match f
    case Done =>
    case Other(_, next) => FoundIsOutlines(policy, next, enclosing, category);
    case Hollow(e, next) =>
      OwnFoundAt(policy, e, enclosing, category);
      FoundIsOutlines(policy, next, enclosing, category);
      FoundAtJoin(policy, HereIf(e, enclosing), OwnFound(policy, e, InBody(enclosing), category),
        FeedOutlines(next, enclosing), FoundIn(policy, next, enclosing, category));
    case Tag(e, children, next) =>
      var inner := Inner(policy, e, enclosing, category);
      OwnFoundAt(policy, e, enclosing, category);
      UnderChild(policy, e, enclosing, category);
      FoundIsOutlines(policy, children, enclosing + [e], inner);
      FoundIsOutlines(policy, next, enclosing, category);
      FoundInTag(policy, e, children, next, enclosing, category);
      FoundAtJoin(policy, HereIf(e, enclosing), OwnFound(policy, e, InBody(enclosing), category),
        FeedOutlines(children, enclosing + [e]), FoundIn(policy, children, enclosing + [e], inner));
      FoundAtJoin(policy, HereIf(e, enclosing) + FeedOutlines(children, enclosing + [e]),
        OwnFound(policy, e, InBody(enclosing), category) + FoundIn(policy, children, enclosing + [e], inner),
        FeedOutlines(next, enclosing), FoundIn(policy, next, enclosing, category));
  }

  // ---- the feeds of a document

  lemma FoundInDocument(policy: Policy, doc: Forest)
    ensures FoundAt(policy, FeedOutlines(doc, []), Found(policy, doc, 0, false, None))
  {
    assert Under(policy, [], None);
    FoundIsOutlines(policy, doc, [], None);
  }

  /** The outline has this URL. */
  ghost predicate HasUrl(policy: Policy, p: Place, url: string) {
    HasFeedUrl(p.element) && policy.url(Get(AttributesOf(p.element), "xmlUrl").value) == Some(url)
  }

  /** The feed is what the first outline with its URL says. */
  ghost predicate SaidFirst(policy: Policy, places: seq<Place>, k: nat, feed: OpmlFeed) {
    && k < |places| && Says(policy, places[k], feed)
    && forall j :: 0 <= j < k ==> !HasUrl(policy, places[j], feed.normalized)
  }

  lemma FirstIsSaid(policy: Policy, places: seq<Place>, found: seq<ParsedOutline>, k: nat)
    requires FoundAt(policy, places, found) && k < |found| && First(found, k)
    ensures SaidFirst(policy, places, k, found[k].feed)
  {
    assert Yields(policy, places[k], found[k]);
    forall j | 0 <= j < k
      ensures !HasUrl(policy, places[j], found[k].feed.normalized)
    {
      assert Yields(policy, places[j], found[j]);
    }
  }

  /** The kept feeds are the first ones of their URLs. */
  lemma {:induction false} KeptIsFirst(found: seq<ParsedOutline>, i: nat)
    requires i < |Firsts(found)|
    ensures exists k :: 0 <= k < |found| && First(found, k) && found[k].feed == Firsts(found)[i]
  {
    var n := |found| - 1;
    if i < |Firsts(found[..n])| {
      KeptIsFirst(found[..n], i);
      var k :| 0 <= k < n && First(found[..n], k) && found[..n][k].feed == Firsts(found[..n])[i];
      assert forall j :: 0 <= j <= k ==> found[j] == found[..n][j];
      assert First(found, k);
    } else {
      assert First(found, n) && found[n].feed == Firsts(found)[i];
    }
  }

  /** Every feed of a document has the normalized URL of the first feed outline of the body with that
      URL, its title (else its text) as title, and the category named by the innermost outline without
      a feed URL that encloses it, or none if none does. */
  lemma FeedsSay(policy: Policy, doc: Forest, i: nat)
    requires i < |Meaning(policy, doc).feeds|
    ensures exists k: nat :: SaidFirst(policy, FeedOutlines(doc, []), k, Meaning(policy, doc).feeds[i])
  {
    var places, found := FeedOutlines(doc, []), Found(policy, doc, 0, false, None);
    MeaningCounts(policy, doc);
    FoundInDocument(policy, doc);
    KeptIsFirst(found, i);
    var k: nat :| k < |found| && First(found, k) && found[k].feed == Firsts(found)[i];
    FirstIsSaid(policy, places, found, k);
  }

  /** So do the feeds that the event loop reports. */
  lemma ParsedFeedsSay(policy: Policy, doc: Forest, i: nat)
    requires Summary(Loop(policy, Begin(), Events(doc))).Ok?
    requires i < |Summary(Loop(policy, Begin(), Events(doc))).value.feeds|
    ensures exists k: nat ::
      SaidFirst(policy, FeedOutlines(doc, []), k, Summary(Loop(policy, Begin(), Events(doc))).value.feeds[i])
  {
    LoopIsRecursion(policy, doc);
    FeedsSay(policy, doc, i);
  }

  /** And every feed outline of the body whose URL can be normalized is represented by a feed. */
  lemma OutlinesAreKept(policy: Policy, doc: Forest, k: nat, url: string)
    requires k < |FeedOutlines(doc, [])| && HasUrl(policy, FeedOutlines(doc, [])[k], url)
    ensures exists i :: 0 <= i < |Meaning(policy, doc).feeds| && Meaning(policy, doc).feeds[i].normalized == url
  {
    var found := Found(policy, doc, 0, false, None);
    MeaningCounts(policy, doc);
    FoundInDocument(policy, doc);
    assert Yields(policy, FeedOutlines(doc, [])[k], found[k]);
    FoundIsKept(found, k);
  }

  /** Every feed outline of the body is counted as a feed, a duplicate, or an invalid one. */
  lemma OutlinesAreCounted(policy: Policy, doc: Forest)
    ensures var m := Meaning(policy, doc);
      |m.feeds| + m.duplicateCount + m.invalidCount == |FeedOutlines(doc, [])|
  {
    var found := Found(policy, doc, 0, false, None);
    MeaningCounts(policy, doc);
    FoundInDocument(policy, doc);
    FeedsAndInvalids(policy, FeedOutlines(doc, []), found);
  }

  lemma {:induction false} FeedsAndInvalids(policy: Policy, places: seq<Place>, found: seq<ParsedOutline>)
    requires FoundAt(policy, places, found)
    ensures Feeds(found) + Invalids(found) == |found|
    decreases |found|
  {
    if found != [] {
      var n := |found| - 1;
      assert Yields(policy, places[n], found[n]);
      FeedsAndInvalids(policy, places[..n], found[..n]);
    }
  }
}
