/** The meaning of an OPML document as a recursion over its elements, and the proof that the event loop
    computes it. */
module OpmlTree {
  import opened Outcomes
  import opened Opml

  /** What may stand between tags. */
  type Inert = e: Event | !e.Start? && !e.Empty? && !e.End? witness Ignored

  /** A row of siblings: an empty-element tag, an element with content, or something inert, and the
      siblings that follow it. */
  datatype Forest =
    | Done
    | Hollow(element: Element, next: Forest)
    | Tag(element: Element, children: Forest, next: Forest)
    | Other(event: Inert, next: Forest)

  /** The events of a well-nested document. */
  function Events(f: Forest): seq<Event> {
    match f
    case Done => []
    case Hollow(e, next) => [Empty(e)] + Events(next)
    case Tag(e, children, next) => [Start(e)] + Events(children) + [End(e.name)] + Events(next)
    case Other(event, next) => [event] + Events(next)
  }

  // ---- what the document says

  predicate Named(e: Element, name: string) {
    e.name == Some(name)
  }

  function AttributesOf(e: Element): seq<(string, string)> {
    if e.attributes.Some? then e.attributes.value else []
  }

  /** The element as an outline of the body, under its nearest enclosing category. */
  function OwnOutline(policy: Policy, e: Element, inBody: bool, category: Option<ImportCategory>): Option<ParsedOutline> {
    if inBody && Named(e, "outline") then Some(ParseOutline(policy, AttributesOf(e), category)) else None
  }

  function OwnFound(policy: Policy, e: Element, inBody: bool, category: Option<ImportCategory>): seq<ParsedOutline> {
    var own := OwnOutline(policy, e, inBody, category);
    if own.Some? && !own.value.Category? then [own.value] else []
  }

  /** The feed outlines of the body in document order, those whose URL cannot be normalized included.
      The category of a feed is that of its nearest enclosing outline without a feed URL: it is passed
      down, and nothing needs to be remembered of the depth at which it was opened. */
  function Found(policy: Policy, f: Forest, depth: nat, inBody: bool, category: Option<ImportCategory>): seq<ParsedOutline> {
    match f
    case Done => []
    case Other(_, next) => Found(policy, next, depth, inBody, category)
    case Hollow(e, next) =>
      OwnFound(policy, e, inBody, category) + Found(policy, next, depth, inBody, category)
    case Tag(e, children, next) =>
      var own := OwnOutline(policy, e, inBody, category);
      OwnFound(policy, e, inBody, category)
      + Found(policy, children, depth + 1, inBody || (depth == 1 && Named(e, "body")),
              if own.Some? && own.value.Category? then own.value.category else category)
      + Found(policy, next, depth, inBody, category)
  }

  function OwnOutlines(e: Element): nat {
    if Named(e, "outline") then 1 else 0
  }

  /** The outlines anywhere in the document. */
  function Outlines(f: Forest): nat {
    match f
    case Done => 0
    case Other(_, next) => Outlines(next)
    case Hollow(e, next) => OwnOutlines(e) + Outlines(next)
    case Tag(e, children, next) => OwnOutlines(e) + Outlines(children) + Outlines(next)
  }

  /** The body elements, which are children of a root. */
  function Bodies(f: Forest, depth: nat): nat {
    if depth > 1 then 0
    else
      match f
      case Done => 0
      case Other(_, next) => Bodies(next, depth)
      case Hollow(e, next) => (if depth == 1 && Named(e, "body") then 1 else 0) + Bodies(next, depth)
      case Tag(e, children, next) =>
        (if depth == 1 && Named(e, "body") then 1 else 0) + Bodies(children, depth + 1) + Bodies(next, depth)
  }

  function Roots(f: Forest): nat {
    match f
    case Done => 0
    case Other(_, next) => Roots(next)
    case Hollow(_, next) => 1 + Roots(next)
    case Tag(_, _, next) => 1 + Roots(next)
  }

  /** Nothing in the siblings is refused for itself: names and attributes are accepted, elements lie
      within the depth limit, and what stands between tags is allowed there. */
  predicate Sound(f: Forest, depth: nat) {
    match f
    case Done => true
    case Other(event, next) =>
      && !event.Forbidden? && !event.Unreadable? && (event.Text? ==> event.blank || depth > 0)
      && Sound(next, depth)
    case Hollow(e, next) => SoundElement(e, depth) && Sound(next, depth)
    case Tag(e, children, next) => SoundElement(e, depth) && Sound(children, depth + 1) && Sound(next, depth)
  }

  predicate SoundElement(e: Element, depth: nat) {
    e.name.Some? && e.attributes.Some? && depth + 1 <= MAX_XML_DEPTH && (depth == 0 ==> Named(e, "opml"))
  }

  /** The documents that are read: one root, one body, and every limit kept. */
  predicate Acceptable(doc: Forest) {
    && Sound(doc, 0)
    && Roots(doc) == 1
    && Bodies(doc, 0) == 1
    && |Events(doc)| <= MAX_XML_EVENTS
    && Outlines(doc) <= MAX_OPML_OUTLINES
  }

  /** Counting the outlines found: a feed whose URL came before is a duplicate. */
  function Absorb(t: Tally, found: seq<ParsedOutline>): Tally
    decreases |found|
  {
    if found == [] then t else Absorb(Count(t, found[0]), found[1..])
  }

  function Count(t: Tally, x: ParsedOutline): Tally {
    match x
    case Feed(feed) => AddFeed(t, feed)
    case InvalidFeed => t.(invalid := t.invalid + 1)
    case Category(_) => t
  }

  /** The tally after some outlines, with what was found of them in the body. */
  function TallyAfter(t: Tally, outlines: nat, found: seq<ParsedOutline>): Tally {
    Absorb(t.(outlines := t.outlines + outlines), found)
  }

  function Meaning(policy: Policy, doc: Forest): OpmlDocument {
    var t := TallyAfter(Tally(0, 0, 0, [], {}), Outlines(doc), Found(policy, doc, 0, false, None));
    OpmlDocument(t.feeds, t.outlines, t.invalid, t.duplicates)
  }

  // ---- the loop over siblings

  /** Between two siblings below the root: every open category was opened at the present depth or above. */
  ghost predicate Ready(p: Progress) {
    && p.depth >= 1 && p.rootSeen && !p.rootClosed
    && (p.bodyDepth.Some? ==> p.bodyDepth.value == 2 <= p.depth)
    && (p.categories != [] ==> p.categories[|p.categories| - 1].depth <= p.depth)
  }

  ghost predicate Accepts(p: Progress, f: Forest) {
    && Sound(f, p.depth)
    && p.events + |Events(f)| <= MAX_XML_EVENTS
    && p.tally.outlines + Outlines(f) <= MAX_OPML_OUTLINES
    && Bodies(f, p.depth) + (if p.bodySeen && p.depth <= 1 then 1 else 0) <= 1
  }

  /** The variables after the siblings: depth, body and category stack are as before. */
  ghost function After(policy: Policy, p: Progress, f: Forest): Progress {
    p.(events := p.events + |Events(f)|,
       bodySeen := p.bodySeen || Bodies(f, p.depth) > 0,
       tally := TallyAfter(p.tally, Outlines(f), Found(policy, f, p.depth, p.bodyDepth.Some?, LastCategory(p.categories))))
  }

  lemma {:induction false} AbsorbAppend(t: Tally, a: seq<ParsedOutline>, b: seq<ParsedOutline>)
    ensures Absorb(t, a + b) == Absorb(Absorb(t, a), b)
    decreases |a|
  {
    if a == [] {
      assert a + b == b;
    } else {
      assert (a + b)[0] == a[0] && (a + b)[1..] == a[1..] + b;
      AbsorbAppend(Count(t, a[0]), a[1..], b);
    }
  }

  /** The number of outlines is counted apart from what is found. */
  lemma {:induction false} AbsorbCounts(t: Tally, found: seq<ParsedOutline>, outlines: nat)
    ensures Absorb(t.(outlines := outlines), found) == Absorb(t, found).(outlines := outlines)
    ensures Absorb(t, found).outlines == t.outlines
    decreases |found|
  {
    if found != [] {
      AbsorbCounts(Count(t, found[0]), found[1..], outlines);
    }
  }

  /** The variables right after a start tag or an empty-element tag. */
  ghost function Within(policy: Policy, p: Progress, e: Element): Progress {
    var own := OwnOutline(policy, e, p.bodyDepth.Some?, LastCategory(p.categories));
    var isBody := p.depth == 1 && Named(e, "body");
    p.(depth := p.depth + 1,
       events := p.events + 1,
       bodySeen := p.bodySeen || isBody,
       bodyDepth := if isBody then Some(2) else p.bodyDepth,
       categories := if own.Some? && own.value.Category?
         then p.categories + [CategoryFrame(p.depth + 1, own.value.category)] else p.categories,
       tally := TallyAfter(p.tally, OwnOutlines(e), OwnFound(policy, e, p.bodyDepth.Some?, LastCategory(p.categories))))
  }

  ghost predicate Opens(p: Progress, e: Element) {
    && SoundElement(e, p.depth)
    && p.events + 1 <= MAX_XML_EVENTS
    && (Named(e, "outline") ==> p.tally.outlines + 1 <= MAX_OPML_OUTLINES)
    && (p.depth == 1 && Named(e, "body") ==> !p.bodySeen)
  }

  lemma AbsorbOne(t: Tally, x: ParsedOutline)
    ensures Absorb(t, [x]) == Count(t, x)
  {
    assert [x][1..] == [];
  }

  lemma StartTag(policy: Policy, p: Progress, e: Element)
    requires Ready(p)
    ensures if Opens(p, e) then Step(policy, p, Start(e)) == Ok(Within(policy, p, e)) && Ready(Within(policy, p, e))
      else Step(policy, p, Start(e)).Err?
  {
    var own := OwnOutline(policy, e, p.bodyDepth.Some?, LastCategory(p.categories));
    if own.Some? {
      AbsorbOne(p.tally.(outlines := p.tally.outlines + 1), own.value);
    }
  }

  /** An empty-element tag leaves the depth, the body and the category stack alone. */
  ghost function Past(policy: Policy, p: Progress, e: Element): Progress {
    Within(policy, p, e).(depth := p.depth, bodyDepth := p.bodyDepth, categories := p.categories)
  }

  lemma EmptyTag(policy: Policy, p: Progress, e: Element)
    requires Ready(p)
    ensures if Opens(p, e) then Step(policy, p, Empty(e)) == Ok(Past(policy, p, e)) else Step(policy, p, Empty(e)).Err?
  {
    var own := OwnOutline(policy, e, p.bodyDepth.Some?, LastCategory(p.categories));
    if own.Some? {
      AbsorbOne(p.tally.(outlines := p.tally.outlines + 1), own.value);
    }
  }

  /** An end tag takes back exactly what its start tag put on the stack. */
  lemma EndTag(policy: Policy, p: Progress, e: Element, q: Progress)
    requires Ready(p) && Opens(p, e)
    requires q == Within(policy, p, e).(events := q.events, bodySeen := q.bodySeen, tally := q.tally)
    requires q.events + 1 <= MAX_XML_EVENTS
    ensures Step(policy, q, End(e.name)) ==
      Ok(p.(events := q.events + 1, bodySeen := q.bodySeen, tally := q.tally))
  {
    var own := OwnOutline(policy, e, p.bodyDepth.Some?, LastCategory(p.categories));
    if own.Some? && own.value.Category? {
      assert q.categories[..|q.categories| - 1] == p.categories;
    }
  }

  ghost predicate InLimits(p: Progress) {
    p.events <= MAX_XML_EVENTS && p.tally.outlines <= MAX_OPML_OUTLINES
  }

  /** The loop over the events of the siblings accepts them exactly when they are acceptable, and then
      has the effect of the recursion. */
  ghost predicate Simulated(policy: Policy, p: Progress, f: Forest) {
    if Accepts(p, f) then Loop(policy, p, Events(f)) == Ok(After(policy, p, f)) else Loop(policy, p, Events(f)).Err?
  }

  lemma LoopFirst(policy: Policy, p: Progress, event: Event, rest: seq<Event>)
    ensures Loop(policy, p, [event] + rest) ==
      if Step(policy, p, event).Err? then Step(policy, p, event) else Loop(policy, Step(policy, p, event).value, rest)
  {
    assert ([event] + rest)[1..] == rest;
  }

  lemma TallySplit(t: Tally, x: nat, a: seq<ParsedOutline>, y: nat, b: seq<ParsedOutline>)
    ensures TallyAfter(t, x, a).outlines == t.outlines + x
    ensures TallyAfter(t, x + y, a + b) == TallyAfter(TallyAfter(t, x, a), y, b)
  {
    AbsorbAppend(t.(outlines := t.outlines + x + y), a, b);
    AbsorbCounts(t.(outlines := t.outlines + x), a, t.outlines + x + y);
  }

  lemma SimulatesOther(policy: Policy, p: Progress, event: Inert, next: Forest)
    requires Ready(p) && InLimits(p)
    requires p.events + 1 <= MAX_XML_EVENTS ==> Simulated(policy, p.(events := p.events + 1), next)
    ensures Simulated(policy, p, Other(event, next))
  {
    LoopFirst(policy, p, event, Events(next));
  }

  lemma HollowComposes(policy: Policy, p: Progress, e: Element, next: Forest)
    requires Ready(p) && InLimits(p)
    ensures Accepts(p, Hollow(e, next)) <==> Opens(p, e) && Accepts(Past(policy, p, e), next)
    ensures After(policy, p, Hollow(e, next)) == After(policy, Past(policy, p, e), next)
  {
    var inBody, category := p.bodyDepth.Some?, LastCategory(p.categories);
    TallySplit(p.tally, OwnOutlines(e), OwnFound(policy, e, inBody, category),
      Outlines(next), Found(policy, next, p.depth, inBody, category));
  }

  lemma SimulatesHollow(policy: Policy, p: Progress, e: Element, next: Forest)
    requires Ready(p) && InLimits(p)
    requires Opens(p, e) ==> Simulated(policy, Past(policy, p, e), next)
    ensures Simulated(policy, p, Hollow(e, next))
  {
    LoopFirst(policy, p, Empty(e), Events(next));
    EmptyTag(policy, p, e);
    HollowComposes(policy, p, e, next);
  }

  /** The variables after an element with content. */
  ghost function Beyond(policy: Policy, p: Progress, e: Element, children: Forest): Progress {
    var q := After(policy, Within(policy, p, e), children);
    p.(events := q.events + 1, bodySeen := q.bodySeen, tally := q.tally)
  }

  lemma CloseTag(policy: Policy, p: Progress, e: Element, children: Forest)
    requires Ready(p) && Opens(p, e)
    ensures Loop(policy, After(policy, Within(policy, p, e), children), [End(e.name)]) ==
      if p.events + 2 + |Events(children)| <= MAX_XML_EVENTS then Ok(Beyond(policy, p, e, children)) else Err(EventLimit)
  {
    var q := After(policy, Within(policy, p, e), children);
    LoopOne(policy, q, End(e.name));
    if q.events + 1 <= MAX_XML_EVENTS {
      EndTag(policy, p, e, q);
    }
  }

  lemma LoopOne(policy: Policy, p: Progress, event: Event)
    ensures Loop(policy, p, [event]) == Step(policy, p, event)
  {
    assert [event] + [] == [event];
    LoopFirst(policy, p, event, []);
  }

  ghost predicate TakesTag(policy: Policy, p: Progress, e: Element, children: Forest) {
    Opens(p, e) && Accepts(Within(policy, p, e), children) && p.events + 2 + |Events(children)| <= MAX_XML_EVENTS
  }

  lemma ContentOfTag(policy: Policy, p: Progress, e: Element, children: Forest)
    requires Ready(p) && Opens(p, e) && Simulated(policy, Within(policy, p, e), children)
    ensures var rest := Loop(policy, Within(policy, p, e), Events(children) + [End(e.name)]);
      if TakesTag(policy, p, e, children) then rest == Ok(Beyond(policy, p, e, children)) else rest.Err?
  {
    LoopAppend(policy, Within(policy, p, e), Events(children), [End(e.name)]);
    CloseTag(policy, p, e, children);
  }

  lemma WholeTag(policy: Policy, p: Progress, e: Element, children: Forest)
    requires Ready(p)
    requires Opens(p, e) ==> Simulated(policy, Within(policy, p, e), children)
    ensures var whole := Loop(policy, p, [Start(e)] + Events(children) + [End(e.name)]);
      if TakesTag(policy, p, e, children) then whole == Ok(Beyond(policy, p, e, children)) else whole.Err?
  {
    var rest := Events(children) + [End(e.name)];
    assert [Start(e)] + Events(children) + [End(e.name)] == [Start(e)] + rest;
    LoopFirst(policy, p, Start(e), rest);
    StartTag(policy, p, e);
    if Opens(p, e) {
      ContentOfTag(policy, p, e, children);
    }
  }

  lemma SimulatesTag(policy: Policy, p: Progress, e: Element, children: Forest, next: Forest)
    requires Ready(p) && InLimits(p)
    requires Opens(p, e) ==> Simulated(policy, Within(policy, p, e), children)
    requires TakesTag(policy, p, e, children) ==> Simulated(policy, Beyond(policy, p, e, children), next)
    ensures Simulated(policy, p, Tag(e, children, next))
  {
    LoopAppend(policy, p, [Start(e)] + Events(children) + [End(e.name)], Events(next));
    WholeTag(policy, p, e, children);
    TagAccepts(policy, p, e, children, next);
    TagAfter(policy, p, e, children, next);
  }

  lemma TagAccepts(policy: Policy, p: Progress, e: Element, children: Forest, next: Forest)
    requires Ready(p) && InLimits(p)
    ensures Accepts(p, Tag(e, children, next)) <==> TakesTag(policy, p, e, children) && Accepts(Beyond(policy, p, e, children), next)
  {
    TagTally(policy, p, e, children, next);
  }

  lemma TagAfter(policy: Policy, p: Progress, e: Element, children: Forest, next: Forest)
    requires Ready(p)
    ensures After(policy, p, Tag(e, children, next)) == After(policy, Beyond(policy, p, e, children), next)
  {
    TagTally(policy, p, e, children, next);
  }

  ghost function FoundWithin(policy: Policy, p: Progress, f: Forest): seq<ParsedOutline> {
    Found(policy, f, p.depth, p.bodyDepth.Some?, LastCategory(p.categories))
  }

  ghost function FoundHere(policy: Policy, p: Progress, e: Element): seq<ParsedOutline> {
    OwnFound(policy, e, p.bodyDepth.Some?, LastCategory(p.categories))
  }

  /** The stack of frames says the same as the category passed down. */
  lemma TagFound(policy: Policy, p: Progress, e: Element, children: Forest, next: Forest)
    requires Ready(p)
    ensures FoundWithin(policy, p, Tag(e, children, next)) ==
      FoundHere(policy, p, e) + FoundWithin(policy, Within(policy, p, e), children) + FoundWithin(policy, p, next)
  {
  }

  lemma TagTally(policy: Policy, p: Progress, e: Element, children: Forest, next: Forest)
    requires Ready(p)
    ensures Within(policy, p, e).tally.outlines == p.tally.outlines + OwnOutlines(e)
    ensures Beyond(policy, p, e, children).tally.outlines == p.tally.outlines + OwnOutlines(e) + Outlines(children)
    ensures After(policy, p, Tag(e, children, next)).tally == After(policy, Beyond(policy, p, e, children), next).tally
  {
    var within := Within(policy, p, e);
    var own, inner, rest := FoundHere(policy, p, e), FoundWithin(policy, within, children), FoundWithin(policy, p, next);
    TagFound(policy, p, e, children, next);
    TallyThrice(p.tally, OwnOutlines(e), own, Outlines(children), inner, Outlines(next), rest);
  }

  lemma TallyThrice(t: Tally, x: nat, a: seq<ParsedOutline>, y: nat, b: seq<ParsedOutline>, z: nat, c: seq<ParsedOutline>)
    ensures var t1 := TallyAfter(t, x, a); var t2 := TallyAfter(t1, y, b);
      && t1.outlines == t.outlines + x
      && t2.outlines == t.outlines + x + y
      && TallyAfter(t, x + y + z, a + b + c) == TallyAfter(t2, z, c)
  {
    TallySplit(t, x, a, y, b);
    TallySplit(TallyAfter(t, x, a), y, b, 0, []);
    TallySplit(t, x + y, a + b, z, c);
  }

  lemma {:induction false} Simulates(policy: Policy, p: Progress, f: Forest)
    requires Ready(p) && InLimits(p)
    ensures Simulated(policy, p, f)
    decreases f
  {
    match f
    case Done =>
    case Other(event, next) =>
      if p.events + 1 <= MAX_XML_EVENTS { Simulates(policy, p.(events := p.events + 1), next); }
      SimulatesOther(policy, p, event, next);
    case Hollow(e, next) =>
      if Opens(p, e) {
        StaysWithin(policy, p, e);
        Simulates(policy, Past(policy, p, e), next);
      }
      SimulatesHollow(policy, p, e, next);
    case Tag(e, children, next) =>
      if Opens(p, e) {
        StaysWithin(policy, p, e);
        Simulates(policy, Within(policy, p, e), children);
        if TakesTag(policy, p, e, children) {
          StaysBeyond(policy, p, e, children);
          Simulates(policy, Beyond(policy, p, e, children), next);
        }
      }
      SimulatesTag(policy, p, e, children, next);
  }

  lemma StaysWithin(policy: Policy, p: Progress, e: Element)
    requires Ready(p) && InLimits(p) && Opens(p, e)
    ensures Ready(Within(policy, p, e)) && InLimits(Within(policy, p, e))
    ensures Ready(Past(policy, p, e)) && InLimits(Past(policy, p, e))
  {
    StartTag(policy, p, e);
    TallySplit(p.tally, OwnOutlines(e), OwnFound(policy, e, p.bodyDepth.Some?, LastCategory(p.categories)), 0, []);
  }

  lemma StaysBeyond(policy: Policy, p: Progress, e: Element, children: Forest)
    requires Ready(p) && InLimits(p) && TakesTag(policy, p, e, children)
    ensures Ready(Beyond(policy, p, e, children)) && InLimits(Beyond(policy, p, e, children))
  {
    TagTally(policy, p, e, children, Done);
  }

  // ---- the loop over a whole document

  /** Outside of every element. */
  ghost predicate AtTop(p: Progress) {
    p.depth == 0 && p.rootSeen == p.rootClosed && p.bodyDepth.None? && p.categories == [] && InLimits(p)
  }

  function Flag(b: bool): nat {
    if b then 1 else 0
  }

  ghost predicate TopAccepts(p: Progress, f: Forest) {
    && Sound(f, 0)
    && p.events + |Events(f)| <= MAX_XML_EVENTS
    && p.tally.outlines + Outlines(f) <= MAX_OPML_OUTLINES
    && Flag(p.rootSeen) + Roots(f) <= 1
    && Flag(p.bodySeen) + Bodies(f, 0) <= 1
  }

  ghost function TopAfter(policy: Policy, p: Progress, f: Forest): Progress {
    p.(events := p.events + |Events(f)|,
       rootSeen := p.rootSeen || Roots(f) > 0,
       rootClosed := p.rootClosed || Roots(f) > 0,
       bodySeen := p.bodySeen || Bodies(f, 0) > 0,
       tally := TallyAfter(p.tally, Outlines(f), Found(policy, f, 0, false, None)))
  }

  ghost predicate TopSimulated(policy: Policy, p: Progress, f: Forest) {
    if TopAccepts(p, f) then Loop(policy, p, Events(f)) == Ok(TopAfter(policy, p, f)) else Loop(policy, p, Events(f)).Err?
  }

  lemma TopSimulatesOther(policy: Policy, p: Progress, event: Inert, next: Forest)
    requires AtTop(p)
    requires p.events + 1 <= MAX_XML_EVENTS ==> TopSimulated(policy, p.(events := p.events + 1), next)
    ensures TopSimulated(policy, p, Other(event, next))
  {
    LoopFirst(policy, p, event, Events(next));
  }

  ghost predicate RootOpens(p: Progress, e: Element) {
    SoundElement(e, 0) && p.events + 1 <= MAX_XML_EVENTS && !p.rootSeen
  }

  lemma TopSimulatesHollow(policy: Policy, p: Progress, e: Element, next: Forest)
    requires AtTop(p)
    requires RootOpens(p, e) ==> TopSimulated(policy, p.(events := p.events + 1, rootSeen := true, rootClosed := true), next)
    ensures TopSimulated(policy, p, Hollow(e, next))
  {
    assert [] + Found(policy, next, 0, false, None) == Found(policy, next, 0, false, None);
    LoopFirst(policy, p, Empty(e), Events(next));
  }

  ghost function InRoot(p: Progress): Progress {
    p.(depth := 1, events := p.events + 1, rootSeen := true, rootClosed := false)
  }

  ghost function PastRoot(policy: Policy, p: Progress, children: Forest): Progress {
    var q := After(policy, InRoot(p), children);
    q.(depth := 0, events := q.events + 1, rootClosed := true)
  }

  ghost predicate TakesRoot(p: Progress, e: Element, children: Forest) {
    RootOpens(p, e) && Accepts(InRoot(p), children) && p.events + 2 + |Events(children)| <= MAX_XML_EVENTS
  }

  lemma CloseRoot(policy: Policy, p: Progress, e: Element, children: Forest)
    requires AtTop(p) && RootOpens(p, e)
    ensures Loop(policy, After(policy, InRoot(p), children), [End(e.name)]) ==
      if p.events + 2 + |Events(children)| <= MAX_XML_EVENTS then Ok(PastRoot(policy, p, children)) else Err(EventLimit)
  {
    LoopOne(policy, After(policy, InRoot(p), children), End(e.name));
  }

  lemma WholeRoot(policy: Policy, p: Progress, e: Element, children: Forest)
    requires AtTop(p)
    ensures var whole := Loop(policy, p, [Start(e)] + Events(children) + [End(e.name)]);
      if TakesRoot(p, e, children) then whole == Ok(PastRoot(policy, p, children)) else whole.Err?
  {
    var rest := Events(children) + [End(e.name)];
    assert [Start(e)] + Events(children) + [End(e.name)] == [Start(e)] + rest;
    LoopFirst(policy, p, Start(e), rest);
    if RootOpens(p, e) {
      Simulates(policy, InRoot(p), children);
      LoopAppend(policy, InRoot(p), Events(children), [End(e.name)]);
      CloseRoot(policy, p, e, children);
    }
  }

  lemma RootFound(policy: Policy, p: Progress, e: Element, children: Forest, next: Forest)
    requires Named(e, "opml") && AtTop(p)
    ensures Found(policy, Tag(e, children, next), 0, false, None) ==
      FoundWithin(policy, InRoot(p), children) + Found(policy, next, 0, false, None)
    ensures Outlines(Tag(e, children, next)) == Outlines(children) + Outlines(next)
  {
  }

  lemma PastRootTally(policy: Policy, p: Progress, children: Forest)
    requires AtTop(p)
    ensures PastRoot(policy, p, children).tally.outlines == p.tally.outlines + Outlines(children)
  {
    TallySplit(p.tally, Outlines(children), FoundWithin(policy, InRoot(p), children), 0, []);
  }

  lemma RootAccepts(policy: Policy, p: Progress, e: Element, children: Forest, next: Forest)
    requires AtTop(p)
    ensures TopAccepts(p, Tag(e, children, next)) <==>
      TakesRoot(p, e, children) && TopAccepts(PastRoot(policy, p, children), next)
  {
    PastRootTally(policy, p, children);
  }

  lemma RootAfter(policy: Policy, p: Progress, e: Element, children: Forest, next: Forest)
    requires AtTop(p) && TakesRoot(p, e, children)
    ensures TopAfter(policy, p, Tag(e, children, next)) == TopAfter(policy, PastRoot(policy, p, children), next)
  {
    TallySplit(p.tally, Outlines(children), FoundWithin(policy, InRoot(p), children), Outlines(next), Found(policy, next, 0, false, None));
    RootFound(policy, p, e, children, next);
  }

  lemma TopSimulatesTag(policy: Policy, p: Progress, e: Element, children: Forest, next: Forest)
    requires AtTop(p)
    requires TakesRoot(p, e, children) ==> TopSimulated(policy, PastRoot(policy, p, children), next)
    ensures TopSimulated(policy, p, Tag(e, children, next))
  {
    LoopAppend(policy, p, [Start(e)] + Events(children) + [End(e.name)], Events(next));
    WholeRoot(policy, p, e, children);
    RootAccepts(policy, p, e, children, next);
    if TakesRoot(p, e, children) {
      RootAfter(policy, p, e, children, next);
    }
  }

  lemma StaysAtTop(policy: Policy, p: Progress, e: Element, children: Forest)
    requires AtTop(p) && TakesRoot(p, e, children)
    ensures AtTop(PastRoot(policy, p, children))
  {
    PastRootTally(policy, p, children);
  }

  lemma {:induction false} TopSimulates(policy: Policy, p: Progress, f: Forest)
    requires AtTop(p)
    ensures TopSimulated(policy, p, f)
    decreases f
  {
    match f
    case Done =>
    case Other(event, next) =>
      if p.events + 1 <= MAX_XML_EVENTS { TopSimulates(policy, p.(events := p.events + 1), next); }
      TopSimulatesOther(policy, p, event, next);
    case Hollow(e, next) =>
      if RootOpens(p, e) { TopSimulates(policy, p.(events := p.events + 1, rootSeen := true, rootClosed := true), next); }
      TopSimulatesHollow(policy, p, e, next);
    case Tag(e, children, next) =>
      if TakesRoot(p, e, children) {
        StaysAtTop(policy, p, e, children);
        TopSimulates(policy, PastRoot(policy, p, children), next);
      }
      TopSimulatesTag(policy, p, e, children, next);
  }

  /** For every well-nested document the event loop succeeds exactly when the document is acceptable,
      and then it computes what the recursion over the document says. */
  lemma LoopIsRecursion(policy: Policy, doc: Forest)
    ensures var result := Summary(Loop(policy, Begin(), Events(doc)));
      if Acceptable(doc) then result == Ok(Meaning(policy, doc)) else result.Err?
  {
    TopSimulates(policy, Begin(), doc);
  }

  // ---- feeds and duplicates

  /** Whether the i-th outline found is a feed whose URL no earlier one has. */
  ghost predicate First(found: seq<ParsedOutline>, i: nat)
    requires i < |found|
  {
    found[i].Feed? && forall k :: 0 <= k < i && found[k].Feed? ==> found[k].feed.normalized != found[i].feed.normalized
  }

  /** The feeds whose URL no earlier one has, in order. */
  ghost function Firsts(found: seq<ParsedOutline>): seq<OpmlFeed> {
    if found == [] then []
    else
      var init := Firsts(found[..|found| - 1]);
      if First(found, |found| - 1) then init + [found[|found| - 1].feed] else init
  }

  function Feeds(found: seq<ParsedOutline>): nat {
    if found == [] then 0 else Feeds(found[..|found| - 1]) + Flag(found[|found| - 1].Feed?)
  }

  function Invalids(found: seq<ParsedOutline>): nat {
    if found == [] then 0 else Invalids(found[..|found| - 1]) + Flag(found[|found| - 1].InvalidFeed?)
  }

  ghost predicate Urls(found: seq<ParsedOutline>, urls: set<string>) {
    && (forall i :: 0 <= i < |found| && found[i].Feed? ==> found[i].feed.normalized in urls)
    && (forall u :: u in urls ==> exists i :: 0 <= i < |found| && found[i].Feed? && found[i].feed.normalized == u)
  }

  lemma {:induction false} AbsorbMeans(found: seq<ParsedOutline>, outlines: nat)
    ensures var t := Absorb(Tally(outlines, 0, 0, [], {}), found);
      && t.feeds == Firsts(found)
      && |t.feeds| + t.duplicates == Feeds(found)
      && t.invalid == Invalids(found)
      && Urls(found, t.urls)
  {
    if found != [] {
      var init, last := found[..|found| - 1], found[|found| - 1];
      AbsorbMeans(init, outlines);
      AbsorbAppend(Tally(outlines, 0, 0, [], {}), init, [last]);
      AbsorbOne(Absorb(Tally(outlines, 0, 0, [], {}), init), last);
      assert found == init + [last];
      UrlsMore(init, last, Absorb(Tally(outlines, 0, 0, [], {}), init).urls);
    }
  }

  lemma UrlsMore(init: seq<ParsedOutline>, last: ParsedOutline, urls: set<string>)
    requires Urls(init, urls)
    ensures Urls(init + [last], if last.Feed? then urls + {last.feed.normalized} else urls)
    ensures last.Feed? ==> (First(init + [last], |init|) <==> last.feed.normalized !in urls)
  {
    var all := init + [last];
    forall u | u in urls
      ensures exists i :: 0 <= i < |all| && all[i].Feed? && all[i].feed.normalized == u
    {
      var i :| 0 <= i < |init| && init[i].Feed? && init[i].feed.normalized == u;
      assert all[i] == init[i];
    }
    if last.Feed? && last.feed.normalized in urls {
      var i :| 0 <= i < |init| && init[i].Feed? && init[i].feed.normalized == last.feed.normalized;
      assert all[i] == init[i];
    }
    assert forall i :: 0 <= i < |init| ==> all[i] == init[i];
    assert all[|init|] == last;
  }

  /** Every feed that is kept is one of those found. */
  lemma {:induction false} KeptWasFound(found: seq<ParsedOutline>, i: nat)
    requires i < |Firsts(found)|
    ensures exists k :: 0 <= k < |found| && found[k].Feed? && found[k].feed == Firsts(found)[i]
  {
    var n := |found| - 1;
    if i < |Firsts(found[..n])| {
      KeptWasFound(found[..n], i);
      var k :| 0 <= k < n && found[..n][k].Feed? && found[..n][k].feed == Firsts(found[..n])[i];
      assert found[k].feed == Firsts(found)[i];
    } else {
      assert found[n].feed == Firsts(found)[i];
    }
  }

  /** Every normalizable feed outline is represented by a kept feed with its URL. */
  lemma {:induction false} FoundIsKept(found: seq<ParsedOutline>, k: nat)
    requires k < |found| && found[k].Feed?
    ensures exists i :: 0 <= i < |Firsts(found)| && Firsts(found)[i].normalized == found[k].feed.normalized
  {
    var n := |found| - 1;
    if k < n || !First(found, n) {
      var m :| 0 <= m < n && found[m].Feed? && found[m].feed.normalized == found[k].feed.normalized;
      FoundIsKept(found[..n], m);
      var i :| 0 <= i < |Firsts(found[..n])| && Firsts(found[..n])[i].normalized == found[..n][m].feed.normalized;
      assert Firsts(found)[i] == Firsts(found[..n])[i];
    } else {
      assert Firsts(found)[|Firsts(found)| - 1] == found[n].feed;
    }
  }

  /** No two kept feeds have the same URL. */
  lemma {:induction false} KeptDistinct(found: seq<ParsedOutline>, i: nat, j: nat)
    requires i < j < |Firsts(found)|
    ensures Firsts(found)[i].normalized != Firsts(found)[j].normalized
  {
    var n := |found| - 1;
    var init := Firsts(found[..n]);
    if j < |init| {
      KeptDistinct(found[..n], i, j);
    } else {
      KeptWasFound(found[..n], i);
      var k :| 0 <= k < n && found[..n][k].Feed? && found[..n][k].feed == init[i];
      assert found[k].feed.normalized != found[n].feed.normalized;
    }
  }

  /** The counts of a document: the feeds are the first ones of each URL, in document order; feeds and
      duplicates together are the normalizable feed outlines of the body. */
  lemma MeaningCounts(policy: Policy, doc: Forest)
    ensures var found := Found(policy, doc, 0, false, None); var meaning := Meaning(policy, doc);
      && meaning.feeds == Firsts(found)
      && |meaning.feeds| + meaning.duplicateCount == Feeds(found)
      && meaning.invalidCount == Invalids(found)
      && meaning.outlineCount == Outlines(doc)
  {
    var found := Found(policy, doc, 0, false, None);
    AbsorbMeans(found, Outlines(doc));
    AbsorbCounts(Tally(Outlines(doc), 0, 0, [], {}), found, 0);
  }
}
