/** The last step of parsing a feed: candidates with the same index hash are folded into one entry
    (`src/feeds/parse/finalize.rs`), so that a document brings no identity twice. */
module FeedFinalize {
  import opened Outcomes
  import opened ReaderModel
  import opened IngestModel

  datatype Failure = InvalidUrl | ContentRejected | TotalTextTooLong | IdentityFailure | IdentityHashCollision

  /** A candidate with its identity and content, the time that decides between copies, and its place in
      the document. */
  datatype Candidate = Candidate(entry: Incoming, arbitration: Option<Time>, index: nat)

  predicate Newer(a: Option<Time>, b: Option<Time>) {
    a.Some? && (b.None? || a.value > b.value)
  }

  function HashOf(c: Candidate): Hash {
    c.entry.identity.hash
  }

  // ---- what folding means

  /** The first candidate of its hash. */
  ghost predicate First(cands: seq<Candidate>, f: nat) {
    f < |cands| && forall j :: 0 <= j < f ==> HashOf(cands[j]) != HashOf(cands[f])
  }

  /** The newest candidate of its hash, the earliest of them if there are several. */
  ghost predicate Newest(cands: seq<Candidate>, w: nat) {
    w < |cands| && forall j :: 0 <= j < |cands| && HashOf(cands[j]) == HashOf(cands[w]) ==>
      && (j < w ==> Newer(cands[w].arbitration, cands[j].arbitration))
      && (j > w ==> !Newer(cands[j].arbitration, cands[w].arbitration))
  }

  /** One entry for each hash, in the order in which the hashes come up, with the content of the newest
      candidate and the place of the first. */
  ghost predicate Folded(cands: seq<Candidate>, entries: seq<Candidate>, firsts: seq<nat>, newest: seq<nat>) {
    && |firsts| == |entries| && |newest| == |entries|
    && (forall k, l :: 0 <= k < l < |firsts| ==> firsts[k] < firsts[l])
    && (forall k :: 0 <= k < |entries| ==> FoldedAt(cands, entries[k], firsts[k], newest[k]))
    && (forall j :: 0 <= j < |cands| && First(cands, j) ==> j in firsts)
  }

  ghost predicate FoldedAt(cands: seq<Candidate>, entry: Candidate, f: nat, w: nat) {
    && First(cands, f) && Newest(cands, w) && HashOf(cands[f]) == HashOf(cands[w])
    && entry == cands[w].(index := cands[f].index)
  }

  ghost predicate Folds(cands: seq<Candidate>, entries: seq<Candidate>) {
    exists firsts, newest :: Folded(cands, entries, firsts, newest)
  }

  /** Candidates of one hash have one identity. */
  ghost predicate Consistent(cands: seq<Candidate>) {
    forall i, j :: 0 <= i < |cands| && 0 <= j < |cands| && HashOf(cands[i]) == HashOf(cands[j]) ==>
      cands[i].entry.identity == cands[j].entry.identity
  }

  lemma FirstsDiffer(cands: seq<Candidate>, f: nat, g: nat)
    requires First(cands, f) && First(cands, g) && f != g
    ensures HashOf(cands[f]) != HashOf(cands[g])
  {
  }

  lemma {:induction false} FirstOfHash(cands: seq<Candidate>, j: nat) returns (f: nat)
    requires j < |cands|
    ensures f <= j && First(cands, f) && HashOf(cands[f]) == HashOf(cands[j])
  {
    if First(cands, j) {
      f := j;
    } else {
      var i: nat :| i < j && HashOf(cands[i]) == HashOf(cands[j]);
      f := FirstOfHash(cands, i);
    }
  }

  /** The document handed on. */
  function Handed(entries: seq<Candidate>): (doc: seq<Incoming>)
    ensures |doc| == |entries|
    ensures forall k :: 0 <= k < |entries| ==> doc[k] == entries[k].entry
  {
    seq(|entries|, k requires 0 <= k < |entries| => entries[k].entry)
  }

  /** A document that has been folded brings no identity twice. */
  lemma FoldedIsDistinct(cands: seq<Candidate>, entries: seq<Candidate>)
    requires Folds(cands, entries)
    ensures DistinctHashes(Handed(entries))
  {
    var firsts, newest :| Folded(cands, entries, firsts, newest);
    forall k, l | 0 <= k < l < |entries|
      ensures HashOf(entries[k]) != HashOf(entries[l])
    {
      FirstsDiffer(cands, firsts[k], firsts[l]);
    }
  }

  /** And it brings every identity of the candidates. */
  lemma NothingIsLost(cands: seq<Candidate>, entries: seq<Candidate>, j: nat)
    requires Folds(cands, entries) && j < |cands|
    ensures exists k :: 0 <= k < |entries| && HashOf(entries[k]) == HashOf(cands[j])
  {
    var firsts, newest :| Folded(cands, entries, firsts, newest);
    var f := FirstOfHash(cands, j);
    var k :| 0 <= k < |firsts| && firsts[k] == f;
    assert FoldedAt(cands, entries[k], firsts[k], newest[k]);
  }

  lemma NewestIsOne(cands: seq<Candidate>, v: nat, w: nat)
    requires Newest(cands, v) && Newest(cands, w) && HashOf(cands[v]) == HashOf(cands[w])
    ensures v == w
  {
  }

  lemma EmptyTogether(a: seq<nat>, b: seq<nat>)
    requires forall x :: x in a <==> x in b
    ensures a == [] <==> b == []
  {
    if a != [] { assert a[0] in b; }
    if b != [] { assert b[0] in a; }
  }

  /** Increasing sequences of the same numbers are equal. */
  lemma {:induction false} IncreasingUnique(a: seq<nat>, b: seq<nat>)
    requires forall k, l :: 0 <= k < l < |a| ==> a[k] < a[l]
    requires forall k, l :: 0 <= k < l < |b| ==> b[k] < b[l]
    requires forall x :: x in a <==> x in b
    ensures a == b
    decreases |a|
  {
    EmptyTogether(a, b);
    if a != [] {
      var m, n := |a| - 1, |b| - 1;
      assert a[m] in b && b[n] in a;
      assert a[m] == b[n];
      forall x
        ensures x in a[..m] <==> x in b[..n]
      {
        assert x in a[..m] <==> x in a && x != a[m];
        assert x in b[..n] <==> x in b && x != b[n];
      }
      IncreasingUnique(a[..m], b[..n]);
      assert a == a[..m] + [a[m]] && b == b[..n] + [b[n]];
    }
  }

  lemma FoldedFirsts(cands: seq<Candidate>, entries: seq<Candidate>, firsts: seq<nat>, newest: seq<nat>, x: nat)
    requires Folded(cands, entries, firsts, newest)
    ensures x in firsts <==> First(cands, x)
  {
    if x in firsts {
      var k :| 0 <= k < |firsts| && firsts[k] == x;
      assert FoldedAt(cands, entries[k], firsts[k], newest[k]);
    }
  }

  /** The candidates leave no choice of the entries. */
  lemma FoldsUnique(cands: seq<Candidate>, a: seq<Candidate>, b: seq<Candidate>)
    requires Folds(cands, a) && Folds(cands, b)
    ensures a == b
  {
    var firsts, newest :| Folded(cands, a, firsts, newest);
    var firsts', newest' :| Folded(cands, b, firsts', newest');
    forall x
      ensures x in firsts <==> x in firsts'
    {
      FoldedFirsts(cands, a, firsts, newest, x);
      FoldedFirsts(cands, b, firsts', newest', x);
    }
    IncreasingUnique(firsts, firsts');
    forall k | 0 <= k < |a|
      ensures a[k] == b[k]
    {
      assert FoldedAt(cands, a[k], firsts[k], newest[k]) && FoldedAt(cands, b[k], firsts'[k], newest'[k]);
      NewestIsOne(cands, newest[k], newest'[k]);
    }
  }

  // ---- one step of the loop

  lemma FirstMore(cands: seq<Candidate>, c: Candidate, f: nat)
    requires f < |cands|
    ensures First(cands + [c], f) <==> First(cands, f)
  {
    assert forall j :: 0 <= j <= f ==> (cands + [c])[j] == cands[j];
  }

  lemma NewestOther(cands: seq<Candidate>, c: Candidate, w: nat)
    requires Newest(cands, w)
    requires HashOf(c) != HashOf(cands[w]) || !Newer(c.arbitration, cands[w].arbitration)
    ensures Newest(cands + [c], w)
  {
    assert forall j :: 0 <= j < |cands| ==> (cands + [c])[j] == cands[j];
  }

  lemma NewestNow(cands: seq<Candidate>, c: Candidate, w: nat)
    requires Newest(cands, w) && HashOf(c) == HashOf(cands[w]) && Newer(c.arbitration, cands[w].arbitration)
    ensures Newest(cands + [c], |cands|)
  {
    assert forall j :: 0 <= j < |cands| ==> (cands + [c])[j] == cands[j];
  }

  lemma FoldFirst(cands: seq<Candidate>, entries: seq<Candidate>, firsts: seq<nat>, newest: seq<nat>, c: Candidate)
    requires Folded(cands, entries, firsts, newest)
    requires forall j :: 0 <= j < |cands| ==> HashOf(cands[j]) != HashOf(c)
    ensures Folded(cands + [c], entries + [c], firsts + [|cands|], newest + [|cands|])
  {
    var all := cands + [c];
    assert forall j :: 0 <= j < |cands| ==> all[j] == cands[j];
    forall k | 0 <= k < |entries|
      ensures FoldedAt(all, entries[k], firsts[k], newest[k]) && firsts[k] < |cands|
    {
      assert FoldedAt(cands, entries[k], firsts[k], newest[k]);
      FirstMore(cands, c, firsts[k]);
      NewestOther(cands, c, newest[k]);
    }
    assert FoldedAt(all, c, |cands|, |cands|);
    forall j | 0 <= j < |all| && First(all, j)
      ensures j in firsts + [|cands|]
    {
      if j < |cands| { FirstMore(cands, c, j); }
    }
  }

  function Refold(entries: seq<Candidate>, k: nat, c: Candidate): seq<Candidate>
    requires k < |entries|
  {
    if Newer(c.arbitration, entries[k].arbitration) then entries[k := c.(index := entries[k].index)] else entries
  }

  function Renew(entries: seq<Candidate>, newest: seq<nat>, k: nat, c: Candidate, at: nat): seq<nat>
    requires k < |entries| == |newest|
  {
    if Newer(c.arbitration, entries[k].arbitration) then newest[k := at] else newest
  }

  lemma FoldAgain(cands: seq<Candidate>, entries: seq<Candidate>, firsts: seq<nat>, newest: seq<nat>, c: Candidate, k: nat)
    requires Folded(cands, entries, firsts, newest) && k < |entries| && HashOf(entries[k]) == HashOf(c)
    ensures Folded(cands + [c], Refold(entries, k, c), firsts, Renew(entries, newest, k, c, |cands|))
  {
    var all := cands + [c];
    var entries', newest' := Refold(entries, k, c), Renew(entries, newest, k, c, |cands|);
    forall l | 0 <= l < |entries|
      ensures FoldedAt(all, entries'[l], firsts[l], newest'[l])
    {
      RefoldedAt(cands, entries, firsts, newest, c, k, l);
    }
    forall j | 0 <= j < |all| && First(all, j)
      ensures j in firsts
    {
      assert FoldedAt(cands, entries[k], firsts[k], newest[k]);
      assert all[firsts[k]] == cands[firsts[k]];
      if j < |cands| { FirstMore(cands, c, j); }
    }
  }

  lemma RefoldedAt(cands: seq<Candidate>, entries: seq<Candidate>, firsts: seq<nat>, newest: seq<nat>, c: Candidate,
        k: nat, l: nat)
    requires Folded(cands, entries, firsts, newest) && k < |entries| && HashOf(entries[k]) == HashOf(c) && l < |entries|
    ensures FoldedAt(cands + [c], Refold(entries, k, c)[l], firsts[l], Renew(entries, newest, k, c, |cands|)[l])
  {
    assert FoldedAt(cands, entries[l], firsts[l], newest[l]);
    assert FoldedAt(cands, entries[k], firsts[k], newest[k]);
    FirstMore(cands, c, firsts[l]);
    if l != k {
      FirstsDiffer(cands, firsts[k], firsts[l]);
      NewestOther(cands, c, newest[l]);
    } else if Newer(c.arbitration, entries[k].arbitration) {
      NewestNow(cands, c, newest[k]);
    } else {
      NewestOther(cands, c, newest[k]);
    }
  }

  // ---- the loop

  /** Each candidate either has been prepared, or preparing it has failed. */
  type Prepared = Result<Candidate, Failure>

  ghost predicate PreparedAs(prepared: seq<Prepared>, cands: seq<Candidate>) {
    |cands| <= |prepared| && forall j :: 0 <= j < |cands| ==> prepared[j] == Ok(cands[j])
  }

  /** The candidates before the i-th can be folded, the i-th is what fails. */
  ghost predicate FailsAt(prepared: seq<Prepared>, cands: seq<Candidate>, failure: Failure) {
    && |cands| < |prepared| && PreparedAs(prepared, cands) && Consistent(cands)
    && match prepared[|cands|]
       case Err(e) => failure == e
       case Ok(c) => failure == IdentityHashCollision && !Consistent(cands + [c])
  }

  /** The entries found so far by their hashes. */
  ghost predicate Located(entries: seq<Candidate>, positions: map<Hash, nat>) {
    && (forall h :: h in positions ==> positions[h] < |entries| && HashOf(entries[positions[h]]) == h)
    && (forall k :: 0 <= k < |entries| ==> HashOf(entries[k]) in positions)
  }

  lemma NewHash(cands: seq<Candidate>, entries: seq<Candidate>, positions: map<Hash, nat>, c: Candidate)
    requires Folds(cands, entries) && Located(entries, positions) && Consistent(cands) && HashOf(c) !in positions
    ensures forall j :: 0 <= j < |cands| ==> HashOf(cands[j]) != HashOf(c)
    ensures Consistent(cands + [c])
  {
    forall j | 0 <= j < |cands|
      ensures HashOf(cands[j]) != HashOf(c)
    {
      NothingIsLost(cands, entries, j);
    }
  }

  lemma KnownHash(cands: seq<Candidate>, entries: seq<Candidate>, firsts: seq<nat>, newest: seq<nat>, c: Candidate, k: nat)
    requires Folded(cands, entries, firsts, newest) && Consistent(cands) && k < |entries|
    requires HashOf(entries[k]) == HashOf(c)
    ensures entries[k].entry.identity == c.entry.identity <==> Consistent(cands + [c])
  {
    var all := cands + [c];
    assert FoldedAt(cands, entries[k], firsts[k], newest[k]);
    assert all[newest[k]] == cands[newest[k]] && all[|cands|] == c;
    if entries[k].entry.identity == c.entry.identity {
      forall i | 0 <= i < |cands| && HashOf(cands[i]) == HashOf(c)
        ensures cands[i].entry.identity == c.entry.identity
      {
      }
      assert forall i :: 0 <= i < |all| ==> all[i] == if i < |cands| then cands[i] else c;
    }
  }

  lemma FailedIsNotAll(prepared: seq<Prepared>, cands: seq<Candidate>, failure: Failure, all: seq<Candidate>)
    requires FailsAt(prepared, cands, failure) && PreparedAs(prepared, all) && |all| == |prepared|
    ensures !Consistent(all)
  {
    assert forall i :: 0 <= i <= |cands| ==> (cands + [all[|cands|]])[i] == all[i];
  }

  lemma LocatedAgain(entries: seq<Candidate>, positions: map<Hash, nat>, k: nat, c: Candidate)
    requires Located(entries, positions) && k < |entries| && HashOf(entries[k]) == HashOf(c)
    ensures Located(Refold(entries, k, c), positions)
  {
  }

  lemma LocatedMore(entries: seq<Candidate>, positions: map<Hash, nat>, c: Candidate)
    requires Located(entries, positions) && HashOf(c) !in positions
    ensures Located(entries + [c], positions[HashOf(c) := |entries|])
  {
  }

  lemma PreparedMore(prepared: seq<Prepared>, cands: seq<Candidate>, c: Candidate)
    requires PreparedAs(prepared, cands) && |cands| < |prepared| && prepared[|cands|] == Ok(c)
    ensures PreparedAs(prepared, cands + [c])
  {
  }

  /** All candidates have been prepared and folded. */
  ghost predicate FoldsAll(prepared: seq<Prepared>, entries: seq<Candidate>, duplicates: nat) {
    exists cands :: PreparedAs(prepared, cands) && Complete(prepared, cands, entries, duplicates)
  }

  ghost predicate Complete(prepared: seq<Prepared>, cands: seq<Candidate>, entries: seq<Candidate>, duplicates: nat) {
    |cands| == |prepared| && Consistent(cands) && Folds(cands, entries) && duplicates + |entries| == |cands|
  }

  ghost predicate Fails(prepared: seq<Prepared>, failure: Failure) {
    exists cands :: FailsAt(prepared, cands, failure)
  }

  /** The loop invariant. */
  ghost predicate Folding(prepared: seq<Prepared>, cands: seq<Candidate>, entries: seq<Candidate>, firsts: seq<nat>,
        newest: seq<nat>, positions: map<Hash, nat>, duplicates: nat) {
    && PreparedAs(prepared, cands) && Consistent(cands)
    && Folded(cands, entries, firsts, newest)
    && Located(entries, positions)
    && duplicates + |entries| == |cands|
  }

  lemma FoldingAgain(prepared: seq<Prepared>, cands: seq<Candidate>, entries: seq<Candidate>, firsts: seq<nat>,
        newest: seq<nat>, positions: map<Hash, nat>, duplicates: nat, c: Candidate, k: nat)
    requires Folding(prepared, cands, entries, firsts, newest, positions, duplicates)
    requires |cands| < |prepared| && prepared[|cands|] == Ok(c) && k < |entries| && HashOf(entries[k]) == HashOf(c)
    requires entries[k].entry.identity == c.entry.identity
    ensures Folding(prepared, cands + [c], Refold(entries, k, c), firsts, Renew(entries, newest, k, c, |cands|), positions,
      duplicates + 1)
  {
    KnownHash(cands, entries, firsts, newest, c, k);
    FoldAgain(cands, entries, firsts, newest, c, k);
    LocatedAgain(entries, positions, k, c);
    PreparedMore(prepared, cands, c);
  }

  lemma FoldingFirst(prepared: seq<Prepared>, cands: seq<Candidate>, entries: seq<Candidate>, firsts: seq<nat>,
        newest: seq<nat>, positions: map<Hash, nat>, duplicates: nat, c: Candidate)
    requires Folding(prepared, cands, entries, firsts, newest, positions, duplicates)
    requires |cands| < |prepared| && prepared[|cands|] == Ok(c) && HashOf(c) !in positions
    ensures Folding(prepared, cands + [c], entries + [c], firsts + [|cands|], newest + [|cands|],
      positions[HashOf(c) := |entries|], duplicates)
  {
    NewHash(cands, entries, positions, c);
    FoldFirst(cands, entries, firsts, newest, c);
    LocatedMore(entries, positions, c);
    PreparedMore(prepared, cands, c);
  }

  /** One pass over the candidates with a map from hashes to places. It succeeds exactly when every
      candidate has been prepared and none has the hash of another identity; then it leaves the folded
      entries and the number of the others, and otherwise the failure of the first that does not fit. */
  method Finalize(prepared: seq<Prepared>) returns (result: Result<seq<Candidate>, Failure>, duplicates: nat)
    ensures result.Ok? ==> FoldsAll(prepared, result.value, duplicates)
    ensures result.Err? ==> Fails(prepared, result.error)
  {
    var entries: seq<Candidate> := [];
    var positions: map<Hash, nat> := map[];
    duplicates := 0;
    ghost var cands: seq<Candidate> := [];
    ghost var firsts: seq<nat> := [];
    ghost var newest: seq<nat> := [];
    for i := 0 to |prepared|
      invariant |cands| == i && Folding(prepared, cands, entries, firsts, newest, positions, duplicates)
    {
      if prepared[i].Err? {
        assert FailsAt(prepared, cands, prepared[i].error);
        return Err(prepared[i].error), duplicates;
      }
      var c := prepared[i].value;
      if HashOf(c) in positions {
        var k := positions[HashOf(c)];
        if entries[k].entry.identity != c.entry.identity {
          KnownHash(cands, entries, firsts, newest, c, k);
          assert FailsAt(prepared, cands, IdentityHashCollision);
          return Err(IdentityHashCollision), duplicates;
        }
        FoldingAgain(prepared, cands, entries, firsts, newest, positions, duplicates, c, k);
        duplicates := duplicates + 1;
        newest := Renew(entries, newest, k, c, |cands|);
        if Newer(c.arbitration, entries[k].arbitration) {
          entries := entries[k := c.(index := entries[k].index)];
        }
      } else {
        FoldingFirst(prepared, cands, entries, firsts, newest, positions, duplicates, c);
        positions := positions[HashOf(c) := |entries|];
        entries, firsts, newest := entries + [c], firsts + [|cands|], newest + [|cands|];
      }
      cands := cands + [c];
    }
    assert Complete(prepared, cands, entries, duplicates);
    return Ok(entries), duplicates;
  }

  /** A pass cannot both succeed and fail. */
  lemma SuccessOrFailure(prepared: seq<Prepared>, entries: seq<Candidate>, duplicates: nat, failure: Failure)
    requires Fails(prepared, failure)
    ensures !FoldsAll(prepared, entries, duplicates)
  {
    var cands :| FailsAt(prepared, cands, failure);
    if all :| PreparedAs(prepared, all) && Complete(prepared, all, entries, duplicates) {
      FailedIsNotAll(prepared, cands, failure, all);
    }
  }

  /** The content kept for an identity is that of a candidate which no candidate of the identity is newer
      than: where any has a time, the kept one has, and none has a larger. */
  lemma KeptIsNewest(cands: seq<Candidate>, entries: seq<Candidate>, k: nat, j: nat)
    requires Folds(cands, entries) && k < |entries| && j < |cands| && HashOf(entries[k]) == HashOf(cands[j])
    ensures cands[j].arbitration.Some? ==>
      entries[k].arbitration.Some? && cands[j].arbitration.value <= entries[k].arbitration.value
    ensures exists w: nat :: w < |cands| && KeptFrom(entries[k], cands[w])
  {
    var firsts, newest :| Folded(cands, entries, firsts, newest);
    FoldedNewest(cands, entries[k], firsts[k], newest[k], j);
    assert KeptFrom(entries[k], cands[newest[k]]);
  }

  /** Of candidates with the same time the first one is kept. */
  lemma KeptIsEarliest(cands: seq<Candidate>, entries: seq<Candidate>, k: nat)
    requires Folds(cands, entries) && k < |entries|
    ensures exists w: nat :: w < |cands| && KeptFrom(entries[k], cands[w]) && NoneBefore(cands, w)
  {
    var firsts, newest :| Folded(cands, entries, firsts, newest);
    assert FoldedAt(cands, entries[k], firsts[k], newest[k]);
    assert KeptFrom(entries[k], cands[newest[k]]) && NoneBefore(cands, newest[k]);
  }

  /** No candidate before this one has its hash and its time. */
  ghost predicate NoneBefore(cands: seq<Candidate>, w: nat) {
    w < |cands| && forall j :: 0 <= j < w && HashOf(cands[j]) == HashOf(cands[w]) ==>
      cands[j].arbitration != cands[w].arbitration
  }

  ghost predicate KeptFrom(entry: Candidate, c: Candidate) {
    entry.entry == c.entry && entry.arbitration == c.arbitration
  }

  lemma FoldedNewest(cands: seq<Candidate>, entry: Candidate, f: nat, w: nat, j: nat)
    requires FoldedAt(cands, entry, f, w) && j < |cands| && HashOf(entry) == HashOf(cands[j])
    ensures cands[j].arbitration.Some? ==>
      entry.arbitration.Some? && cands[j].arbitration.value <= entry.arbitration.value
  {
  }
}
