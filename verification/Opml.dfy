/** Reading an OPML document from XML events with a depth counter and a stack of categories, against
    the structure of the document (`src/feeds/opml.rs`). */
module Opml {
  import opened Outcomes

  const MAX_OPML_BYTES: nat := 10 * 1024 * 1024
  const MAX_OPML_OUTLINES: nat := 10_000
  const MAX_XML_DEPTH: nat := 128
  const MAX_XML_EVENTS: nat := 100_000

  datatype Failure = DocumentTooLarge | OutlineLimit | DepthLimit | EventLimit | ForbiddenXmlConstruct | Malformed

  // ---- XML events

  /** An element; its name is absent if it does not decode, its attributes if they are not accepted. */
  datatype Element = Element(name: Option<string>, attributes: Option<seq<(string, string)>>)

  /** `Unreadable` is an error of the XML reader, `Ignored` a declaration, an instruction or a comment. */
  datatype Event =
    | Start(element: Element)
    | Empty(element: Element)
    | End(name: Option<string>)
    | Text(blank: bool)
    | Forbidden
    | Ignored
    | Unreadable

  // ---- outlines

  datatype ImportCategory = ImportCategory(display: string, normalized: string)

  datatype OpmlFeed = OpmlFeed(
    sourceUrl: string, normalized: string, title: Option<string>, category: Option<ImportCategory>)

  /** URL and label normalization, which this model does not look into. */
  datatype Policy = Policy(
    url: string -> Option<string>, title: string -> Option<string>, category: string -> Option<ImportCategory>)

  datatype ParsedOutline = Feed(feed: OpmlFeed) | Category(category: Option<ImportCategory>) | InvalidFeed

  function Lower(c: char): char {
    if 'A' <= c <= 'Z' then c - 'A' + 'a' else c
  }

  predicate EqIgnoreAsciiCase(a: string, b: string) {
    |a| == |b| && forall i :: 0 <= i < |a| ==> Lower(a[i]) == Lower(b[i])
  }

  /** The first attribute of the name. */
  function Get(attributes: seq<(string, string)>, name: string): Option<string> {
    if attributes == [] then None
    else if EqIgnoreAsciiCase(attributes[0].0, name) then Some(attributes[0].1)
    else Get(attributes[1..], name)
  }

  function Label(attributes: seq<(string, string)>): Option<string> {
    if Get(attributes, "title").Some? then Get(attributes, "title") else Get(attributes, "text")
  }

  function ParseOutline(policy: Policy, attributes: seq<(string, string)>, category: Option<ImportCategory>): ParsedOutline {
    var caption := Label(attributes);
    var source := Get(attributes, "xmlUrl");
    if source.None? then Category(if caption.Some? then policy.category(caption.value) else None)
    else
      var normalized := policy.url(source.value);
      if normalized.None? then InvalidFeed
      else Feed(OpmlFeed(source.value, normalized.value, if caption.Some? then policy.title(caption.value) else None, category))
  }

  // ---- the event loop as steps on its variables

  datatype CategoryFrame = CategoryFrame(depth: nat, category: Option<ImportCategory>)

  datatype Tally = Tally(outlines: nat, invalid: nat, duplicates: nat, feeds: seq<OpmlFeed>, urls: set<string>)

  datatype Progress = Progress(
    depth: nat, events: nat, rootSeen: bool, rootClosed: bool, bodySeen: bool, bodyDepth: Option<nat>,
    categories: seq<CategoryFrame>, tally: Tally)

  datatype OpmlDocument = OpmlDocument(feeds: seq<OpmlFeed>, outlineCount: nat, invalidCount: nat, duplicateCount: nat)

  function LastCategory(categories: seq<CategoryFrame>): Option<ImportCategory> {
    if categories == [] then None else categories[|categories| - 1].category
  }

  function AddFeed(t: Tally, feed: OpmlFeed): Tally {
    if feed.normalized in t.urls then t.(duplicates := t.duplicates + 1)
    else t.(feeds := t.feeds + [feed], urls := t.urls + {feed.normalized})
  }

  /** An outline element of an accepted name, opened at `openDepth`. `hollow` tells an empty-element tag,
      whose category has nothing to apply to. */
  function OutlineStep(policy: Policy, p: Progress, attributes: seq<(string, string)>, openDepth: nat,
        hollow: bool): Result<Progress, Failure> {
    if p.tally.outlines + 1 > MAX_OPML_OUTLINES then Err(OutlineLimit)
    else
      var counted := p.(tally := p.tally.(outlines := p.tally.outlines + 1));
      if !(p.bodyDepth.Some? && openDepth > p.bodyDepth.value) then Ok(counted)
      else
        match ParseOutline(policy, attributes, LastCategory(p.categories))
        case Feed(feed) => Ok(counted.(tally := AddFeed(counted.tally, feed)))
        case Category(category) =>
          Ok(if hollow then counted else counted.(categories := p.categories + [CategoryFrame(openDepth, category)]))
        case InvalidFeed => Ok(counted.(tally := counted.tally.(invalid := counted.tally.invalid + 1)))
  }

  /** What start tags and empty-element tags have in common, up to the outline. */
  function OpenStep(p: Progress, e: Element, hollow: bool): Result<Progress, Failure> {
    if e.name.None? then Err(Malformed)
    else if p.depth == 0 && (p.rootSeen || p.rootClosed || e.name.value != "opml") then Err(Malformed)
    else if e.attributes.None? then Err(Malformed)
    else if p.depth + 1 > MAX_XML_DEPTH then Err(DepthLimit)
    else
      var rooted := if p.depth == 0 then p.(rootSeen := true, rootClosed := hollow) else p;
      if e.name.value == "body" && p.depth == 1 then
        if p.bodySeen then Err(Malformed)
        else Ok(rooted.(bodySeen := true, bodyDepth := if hollow then p.bodyDepth else Some(p.depth + 1)))
      else Ok(rooted)
  }

  function EndStep(p: Progress, name: Option<string>): Result<Progress, Failure> {
    if p.depth == 0 || name.None? then Err(Malformed)
    else
      var popped := name.value == "outline" && p.categories != [] && p.categories[|p.categories| - 1].depth == p.depth;
      Ok(p.(
        categories := if popped then p.categories[..|p.categories| - 1] else p.categories,
        bodyDepth := if name.value == "body" && p.bodyDepth == Some(p.depth) then None else p.bodyDepth,
        depth := p.depth - 1,
        rootClosed := p.rootClosed || p.depth == 1))
  }

  function ElementStep(policy: Policy, p: Progress, e: Element, hollow: bool): Result<Progress, Failure> {
    var entered := OpenStep(p, e, hollow);
    if entered.Err? then entered
    else
      var outlined := if e.name.value == "outline"
        then OutlineStep(policy, entered.value, e.attributes.value, p.depth + 1, hollow) else entered;
      if outlined.Err? || hollow then outlined else Ok(outlined.value.(depth := p.depth + 1))
  }

  function Step(policy: Policy, p: Progress, event: Event): Result<Progress, Failure> {
    if event.Unreadable? then Err(Malformed)
    else if p.events + 1 > MAX_XML_EVENTS then Err(EventLimit)
    else
      var q := p.(events := p.events + 1);
      match event
      case Start(e) => ElementStep(policy, q, e, false)
      case Empty(e) => ElementStep(policy, q, e, true)
      case End(name) => EndStep(q, name)
      case Text(blank) => if q.depth == 0 && !blank then Err(Malformed) else Ok(q)
      case Forbidden => Err(ForbiddenXmlConstruct)
      case Ignored => Ok(q)
      case Unreadable => Err(Malformed)
  }

  function Loop(policy: Policy, p: Progress, events: seq<Event>): Result<Progress, Failure>
    decreases |events|
  {
    if events == [] then Ok(p)
    else
      var q := Step(policy, p, events[0]);
      if q.Err? then q else Loop(policy, q.value, events[1..])
  }

  function Begin(): Progress {
    Progress(0, 0, false, false, false, None, [], Tally(0, 0, 0, [], {}))
  }

  function Summary(end: Result<Progress, Failure>): Result<OpmlDocument, Failure> {
    if end.Err? then Err(end.error)
    else
      var p := end.value;
      if !p.rootSeen || !p.rootClosed || p.depth != 0 || !p.bodySeen then Err(Malformed)
      else Ok(OpmlDocument(p.tally.feeds, p.tally.outlines, p.tally.invalid, p.tally.duplicates))
  }

  lemma {:induction false} LoopAppend(policy: Policy, p: Progress, a: seq<Event>, b: seq<Event>)
    ensures Loop(policy, p, a + b) ==
      if Loop(policy, p, a).Err? then Loop(policy, p, a) else Loop(policy, Loop(policy, p, a).value, b)
    decreases |a|
  {
    if a == [] {
      assert a + b == b;
    } else {
      assert (a + b)[0] == a[0] && (a + b)[1..] == a[1..] + b;
      var q := Step(policy, p, a[0]);
      if q.Ok? { LoopAppend(policy, q.value, a[1..], b); }
    }
  }

  // ---- the method

  /** `OpmlDocument::parse`, on the events that the XML reader finds in an input of `size` bytes. */
  method Parse(policy: Policy, size: nat, events: seq<Event>) returns (result: Result<OpmlDocument, Failure>)
    ensures size == 0 ==> result == Err(Malformed)
    ensures size > MAX_OPML_BYTES ==> result == Err(DocumentTooLarge)
    ensures 0 < size <= MAX_OPML_BYTES ==> result == Summary(Loop(policy, Begin(), events))
  {
    if size == 0 { return Err(Malformed); }
    if size > MAX_OPML_BYTES { return Err(DocumentTooLarge); }
    var p := Begin();
    var i := 0;
    while i < |events|
      invariant i <= |events| && Loop(policy, Begin(), events) == Loop(policy, p, events[i..])
    {
      var event := events[i];
      ghost var goal := Step(policy, p, event);
      assert events[i..][0] == event && events[i..][1..] == events[i + 1..];
      if event.Unreadable? { return Err(Malformed); }
      var count := p.events + 1;
      if count > MAX_XML_EVENTS { return Err(EventLimit); }
      p := p.(events := count);
      match event {
        case Start(element) =>
          var failure;
          p, failure := OpenElement(policy, p, element, false);
          if failure.Some? { return Err(failure.value); }
          p := p.(depth := p.depth + 1);
        case Empty(element) =>
          var failure;
          p, failure := OpenElement(policy, p, element, true);
          if failure.Some? { return Err(failure.value); }
        case End(name) =>
          if p.depth == 0 || name.None? { return Err(Malformed); }
          p := CloseElement(p, name.value);
        case Text(blank) =>
          if p.depth == 0 && !blank { return Err(Malformed); }
        case Forbidden => return Err(ForbiddenXmlConstruct);
        case Ignored =>
      }
      assert goal == Ok(p);
      i := i + 1;
    }
    if !p.rootSeen || !p.rootClosed || p.depth != 0 || !p.bodySeen { return Err(Malformed); }
    return Ok(OpmlDocument(p.tally.feeds, p.tally.outlines, p.tally.invalid, p.tally.duplicates));
  }

  /** The branch for end tags. */
  method CloseElement(p: Progress, name: string) returns (q: Progress)
    requires p.depth > 0
    ensures EndStep(p, Some(name)) == Ok(q)
  {
    q := p;
    if name == "outline" && q.categories != [] && q.categories[|q.categories| - 1].depth == q.depth {
      q := q.(categories := q.categories[..|q.categories| - 1]);
    }
    if name == "body" && q.bodyDepth == Some(q.depth) { q := q.(bodyDepth := None); }
    q := q.(depth := q.depth - 1);
    if q.depth == 0 { q := q.(rootClosed := true); }
  }

  /** The branches for start tags and empty-element tags, before the depth is counted up. */
  method OpenElement(policy: Policy, p: Progress, element: Element, hollow: bool) returns (q: Progress,
        failure: Option<Failure>)
    ensures failure.None? ==>
      ElementStep(policy, p, element, hollow) == Ok(if hollow then q else q.(depth := p.depth + 1)) && q.depth == p.depth
    ensures failure.Some? ==> ElementStep(policy, p, element, hollow) == Err(failure.value)
  {
    q := p;
    if element.name.None? { return q, Some(Malformed); }
    var name := element.name.value;
    if q.depth == 0 {
      if q.rootSeen || q.rootClosed || name != "opml" { return q, Some(Malformed); }
      q := q.(rootSeen := true);
      if hollow { q := q.(rootClosed := true); }
    }
    if element.attributes.None? { return q, Some(Malformed); }
    var openDepth := q.depth + 1;
    if openDepth > MAX_XML_DEPTH { return q, Some(DepthLimit); }
    if name == "body" && q.depth == 1 {
      if q.bodySeen { return q, Some(Malformed); }
      q := q.(bodySeen := true);
      if !hollow { q := q.(bodyDepth := Some(openDepth)); }
    }
    if name == "outline" {
      if q.tally.outlines + 1 > MAX_OPML_OUTLINES { return q, Some(OutlineLimit); }
      var t := q.tally.(outlines := q.tally.outlines + 1);
      if q.bodyDepth.Some? && openDepth > q.bodyDepth.value {
        match ParseOutline(policy, element.attributes.value, LastCategory(q.categories)) {
          case Feed(feed) =>
            if feed.normalized in t.urls {
              t := t.(duplicates := t.duplicates + 1);
            } else {
              t := t.(feeds := t.feeds + [feed], urls := t.urls + {feed.normalized});
            }
          case Category(category) =>
            if !hollow { q := q.(categories := q.categories + [CategoryFrame(openDepth, category)]); }
          case InvalidFeed => t := t.(invalid := t.invalid + 1);
        }
      }
      q := q.(tally := t);
    }
    failure := None;
  }
}
