/** The per-user sliding-window limiter, whose deques are pruned and whose users are evicted, against
    the full history of accepted calls (`src/api/rate_limit.rs`). Times count nanoseconds. */
module MutationLimiter {
  import opened Outcomes

  type UserId = nat
  type Time = int

  const SECOND: Time := 1_000_000_000
  const USER_MUTATION_LIMIT: nat := 30
  const USER_MUTATION_WINDOW: Time := 15 * 60 * SECOND
  const USER_MUTATION_MAX_KEYS: nat := 10_000

  datatype Bucket = Bucket(attempts: seq<Time>, updatedAt: Time)

  datatype Limits = Limits(limit: nat, window: Time, maxKeys: nat)

  datatype Rejection = Rejection(retryAt: Time, retryAfterSeconds: nat)

  predicate Sane(l: Limits) {
    l.limit > 0 && l.window >= 0
  }

  // ---- one bucket

  /** `saturating_duration_since`. */
  function Since(now: Time, attempt: Time): Time {
    if now > attempt then now - attempt else 0
  }

  predicate Expired(now: Time, attempt: Time, window: Time) {
    Since(now, attempt) >= window
  }

  /** `cleanup_user_mutation_bucket`: drop expired attempts from the front. */
  function Prune(attempts: seq<Time>, now: Time, window: Time): (kept: seq<Time>)
    ensures |kept| <= |attempts|
  {
    if attempts != [] && Expired(now, attempts[0], window) then Prune(attempts[1..], now, window) else attempts
  }

  function Pruned(b: Bucket, now: Time, window: Time): Bucket {
    b.(attempts := Prune(b.attempts, now, window))
  }

  // ---- one call

  datatype Outcome = Accepted | Rejected(deadline: Time)

  /** The users that have a live attempt, pruned. */
  function Retained(users: map<UserId, Bucket>, now: Time, window: Time): map<UserId, Bucket> {
    map u | u in users && Prune(users[u].attempts, now, window) != [] :: Pruned(users[u], now, window)
  }

  ghost predicate Oldest(users: map<UserId, Bucket>, victim: UserId) {
    victim in users && forall u :: u in users ==> users[victim].updatedAt <= users[u].updatedAt
  }

  /** At capacity, users without live attempts go first; if that is not enough, one that was updated
      longest ago goes. */
  ghost predicate MadeRoom(l: Limits, users: map<UserId, Bucket>, now: Time, base: map<UserId, Bucket>) {
    var retained := Retained(users, now, l.window);
    if |users| < l.maxKeys then base == users
    else if |retained| < l.maxKeys || retained == map[] then base == retained
    else exists victim :: Oldest(retained, victim) && base == retained - {victim}
  }

  /** What a call does to the buckets. */
  ghost predicate Step(l: Limits, users: map<UserId, Bucket>, u: UserId, now: Time, users': map<UserId, Bucket>,
        outcome: Outcome)
    requires Sane(l)
  {
    if u in users then
      var pruned := Pruned(users[u], now, l.window);
      if |pruned.attempts| >= l.limit then
        users' == users[u := pruned] && outcome == Rejected(pruned.attempts[0] + l.window)
      else
        users' == users[u := Bucket(pruned.attempts + [now], now)] && outcome == Accepted
    else
      && outcome == Accepted
      && exists base :: MadeRoom(l, users, now, base) && users' == base[u := Bucket([now], now)]
  }

  /** `rate_limit_rejection`. */
  function RejectionAt(now: Time, wallClock: Time, deadline: Time): Rejection {
    var remaining := Since(deadline, now);
    var seconds := remaining / SECOND + if remaining % SECOND > 0 then 1 else 0;
    Rejection(wallClock + remaining, if seconds > 1 then seconds else 1)
  }

  /** The seconds are those still to wait, rounded up. */
  lemma RetryAfterRoundsUp(now: Time, wallClock: Time, deadline: Time)
    requires now < deadline
    ensures var r := RejectionAt(now, wallClock, deadline);
      && r.retryAt - wallClock == deadline - now
      && (r.retryAfterSeconds - 1) * SECOND < deadline - now <= r.retryAfterSeconds * SECOND
  {
  }

  class UserMutationLimiter {
    const limits: Limits
    var users: map<UserId, Bucket>

    constructor WithLimits(limits: Limits)
      ensures this.limits == limits && users == map[]
    {
      this.limits := limits;
      users := map[];
    }

    constructor New()
      ensures limits == Limits(USER_MUTATION_LIMIT, USER_MUTATION_WINDOW, USER_MUTATION_MAX_KEYS)
      ensures Sane(limits) && users == map[]
    {
      limits := Limits(USER_MUTATION_LIMIT, USER_MUTATION_WINDOW, USER_MUTATION_MAX_KEYS);
      users := map[];
    }

    static method CleanupUserMutationBucket(bucket: Bucket, now: Time, window: Time) returns (pruned: Bucket)
      ensures pruned == Pruned(bucket, now, window)
    {
      var attempts := bucket.attempts;
      while attempts != [] && Since(now, attempts[0]) >= window
        invariant Prune(attempts, now, window) == Prune(bucket.attempts, now, window)
        decreases |attempts|
      {
        attempts := attempts[1..];
      }
      pruned := bucket.(attempts := attempts);
    }

    /** The `retain` over all users. */
    method RetainLive(now: Time)
      modifies this
      ensures users == Retained(old(users), now, limits.window)
    {
      ghost var before := users;
      var rest := users.Keys;
      while rest != {}
        invariant rest <= before.Keys
        invariant forall u :: u in users <==> u in rest || (u in before && Prune(before[u].attempts, now, limits.window) != [])
        invariant forall u :: u in users ==>
          users[u] == if u in rest then before[u] else Pruned(before[u], now, limits.window)
        decreases |rest|
      {
        var u :| u in rest;
        var pruned := CleanupUserMutationBucket(users[u], now, limits.window);
        rest := rest - {u};
        if pruned.attempts == [] { users := users - {u}; } else { users := users[u := pruned]; }
      }
    }

    method OldestUser() returns (oldest: UserId)
      requires users != map[]
      ensures Oldest(users, oldest)
    {
      var rest := users.Keys;
      oldest :| oldest in rest;
      rest := rest - {oldest};
      while rest != {}
        invariant rest <= users.Keys && oldest in users
        invariant forall u :: u in users && u !in rest ==> users[oldest].updatedAt <= users[u].updatedAt
        decreases |rest|
      {
        var u :| u in rest;
        if users[u].updatedAt < users[oldest].updatedAt { oldest := u; }
        rest := rest - {u};
      }
    }

    /** A new user at capacity. */
    method MakeRoom(now: Time)
      modifies this
      ensures MadeRoom(limits, old(users), now, users)
    {
      if |users| >= limits.maxKeys {
        RetainLive(now);
        if |users| >= limits.maxKeys && users != map[] {
          var oldest := OldestUser();
          users := users - {oldest};
        }
      }
    }

    method CheckAt(u: UserId, now: Time, wallClock: Time) returns (rejection: Option<Rejection>, ghost outcome: Outcome)
      requires Sane(limits)
      modifies this
      ensures Step(limits, old(users), u, now, users, outcome)
      ensures match outcome
        case Accepted => rejection == None
        case Rejected(deadline) => rejection == Some(RejectionAt(now, wallClock, deadline))
    {
      if u in users {
        var bucket := CleanupUserMutationBucket(users[u], now, limits.window);
        if |bucket.attempts| >= limits.limit {
          users := users[u := bucket];
          var deadline := bucket.attempts[0] + limits.window;
          return Some(RejectionAt(now, wallClock, deadline)), Rejected(deadline);
        }
        users := users[u := Bucket(bucket.attempts + [now], now)];
        return None, Accepted;
      }
      MakeRoom(now);
      ghost var base := users;
      users := users[u := Bucket([now], now)];
      assert users == base[u := Bucket([now], now)];
      return None, Accepted;
    }
  }

  // ---- runs

  datatype Call = Call(user: UserId, now: Time)

  /** A run of the limiter from its construction, with calls at nondecreasing times. */
  datatype Run = Run(limits: Limits, states: seq<map<UserId, Bucket>>, calls: seq<Call>, outcomes: seq<Outcome>)

  ghost predicate StepAt(r: Run, k: nat)
    requires Sane(r.limits) && k < |r.calls| && |r.states| == |r.calls| + 1 && |r.outcomes| == |r.calls|
  {
    Step(r.limits, r.states[k], r.calls[k].user, r.calls[k].now, r.states[k + 1], r.outcomes[k])
  }

  ghost predicate IsRun(r: Run) {
    && Sane(r.limits) && |r.states| == |r.calls| + 1 && |r.outcomes| == |r.calls|
    && r.states[0] == map[]
    && (forall k :: 0 <= k < |r.calls| ==> StepAt(r, k))
    && (forall i, j :: 0 <= i < j < |r.calls| ==> r.calls[i].now <= r.calls[j].now)
  }

  /** The user loses live attempts to an eviction in the k-th call. */
  ghost predicate EvictedAt(r: Run, u: UserId, k: nat)
    requires IsRun(r) && k < |r.calls|
  {
    && u in r.states[k] && u !in r.states[k + 1]
    && Prune(r.states[k][u].attempts, r.calls[k].now, r.limits.window) != []
  }

  ghost predicate NotEvicted(r: Run, u: UserId)
    requires IsRun(r)
  {
    forall k :: 0 <= k < |r.calls| ==> !EvictedAt(r, u, k)
  }

  /** The full history: the times of all accepted calls of a user among the first k calls. */
  ghost function History(r: Run, u: UserId, k: nat): seq<Time>
    requires IsRun(r) && k <= |r.calls|
  {
    if k == 0 then []
    else if r.calls[k - 1].user == u && r.outcomes[k - 1].Accepted? then History(r, u, k - 1) + [r.calls[k - 1].now]
    else History(r, u, k - 1)
  }

  // ---- histories

  ghost predicate Ordered(times: seq<Time>) {
    forall i, j :: 0 <= i < j < |times| ==> times[i] <= times[j]
  }

  /** The attempts of a history that lie in the window ending at `now`. */
  function Recent(times: seq<Time>, now: Time, window: Time): nat {
    if times == [] then 0
    else Recent(times[..|times| - 1], now, window) + if Expired(now, times[|times| - 1], window) then 0 else 1
  }

  /** In an ordered history the expired attempts come first, so that pruning keeps exactly the recent
      ones. */
  lemma {:induction false} PruneCutsPrefix(times: seq<Time>, now: Time, window: Time)
    requires Ordered(times)
    ensures var kept := Prune(times, now, window); var cut := |times| - |kept|;
      && kept == times[cut..]
      && (forall i :: 0 <= i < cut ==> Expired(now, times[i], window))
      && (forall i :: cut <= i < |times| ==> !Expired(now, times[i], window))
    decreases |times|
  {
    if times != [] && Expired(now, times[0], window) {
      var rest := times[1..];
      PruneCutsPrefix(rest, now, window);
      assert forall i :: 1 <= i < |times| ==> times[i] == rest[i - 1];
    }
  }

  lemma {:induction false} RecentSplit(times: seq<Time>, cut: nat, now: Time, window: Time)
    requires cut <= |times|
    requires forall i :: 0 <= i < cut ==> Expired(now, times[i], window)
    requires forall i :: cut <= i < |times| ==> !Expired(now, times[i], window)
    ensures Recent(times, now, window) == |times| - cut
  {
    if times != [] {
      var init := times[..|times| - 1];
      RecentSplit(init, if cut == |times| then cut - 1 else cut, now, window);
    }
  }

  lemma PruneCountsRecent(times: seq<Time>, now: Time, window: Time)
    requires Ordered(times)
    ensures |Prune(times, now, window)| == Recent(times, now, window)
  {
    PruneCutsPrefix(times, now, window);
    RecentSplit(times, |times| - |Prune(times, now, window)|, now, window);
  }

  /** Pruning what has been pruned before is pruning the full history. */
  lemma {:induction false} PruneSuffix(times: seq<Time>, cut: nat, now: Time, window: Time)
    requires cut <= |times| && forall i :: 0 <= i < cut ==> Expired(now, times[i], window)
    ensures Prune(times[cut..], now, window) == Prune(times, now, window)
    decreases cut
  {
    if cut > 0 {
      var rest := times[1..];
      assert rest[cut - 1..] == times[cut..];
      assert forall i :: 0 <= i < cut - 1 ==> rest[i] == times[i + 1];
      PruneSuffix(rest, cut - 1, now, window);
    } else {
      assert times[0..] == times;
    }
  }

  // ---- the buckets refine the history

  /** The time of the last call among the first k, or any time if there was none. */
  ghost predicate NotBefore(r: Run, k: nat, now: Time)
    requires IsRun(r) && k <= |r.calls|
  {
    k > 0 ==> r.calls[k - 1].now <= now
  }

  /** The user's bucket is the history without expired attempts; a missing bucket means that all have
      expired. */
  ghost predicate Refines(r: Run, u: UserId, k: nat, now: Time)
    requires IsRun(r) && k <= |r.calls|
  {
    var times := History(r, u, k);
    && Ordered(times)
    && (forall i :: 0 <= i < |times| ==> times[i] <= now)
    && (if u in r.states[k]
        then Prune(r.states[k][u].attempts, now, r.limits.window) == Prune(times, now, r.limits.window)
        else Prune(times, now, r.limits.window) == [])
  }

  lemma {:induction false} PruneTwice(attempts: seq<Time>, earlier: Time, now: Time, window: Time)
    requires earlier <= now
    ensures Prune(Prune(attempts, earlier, window), now, window) == Prune(attempts, now, window)
    decreases |attempts|
  {
    if attempts != [] && Expired(earlier, attempts[0], window) {
      PruneTwice(attempts[1..], earlier, now, window);
    }
  }

  /** An accepted call appends to the pruned deque as it does to the full history. */
  lemma PruneAppend(times: seq<Time>, earlier: Time, now: Time, window: Time)
    requires Ordered(times) && earlier <= now
    ensures Prune(Prune(times, earlier, window) + [earlier], now, window) == Prune(times + [earlier], now, window)
  {
    PruneCutsPrefix(times, earlier, window);
    var cut := |times| - |Prune(times, earlier, window)|;
    assert (times + [earlier])[cut..] == times[cut..] + [earlier];
    PruneSuffix(times + [earlier], cut, now, window);
  }

  /** A call of one user leaves the bucket of another, prunes it, or removes it. */
  lemma OthersBucket(r: Run, u: UserId, k: nat)
    requires IsRun(r) && k < |r.calls| && r.calls[k].user != u
    ensures u in r.states[k + 1] ==>
      && u in r.states[k]
      && (r.states[k + 1][u] == r.states[k][u] || r.states[k + 1][u] == Pruned(r.states[k][u], r.calls[k].now, r.limits.window))
  {
    assert StepAt(r, k);
  }

  /** Whatever has been pruned and whoever has been evicted, a user who was not evicted is judged by the
      full history. */
  lemma {:induction false} BucketRefinesHistory(r: Run, u: UserId, k: nat, now: Time)
    requires IsRun(r) && NotEvicted(r, u) && k <= |r.calls| && NotBefore(r, k, now)
    ensures Refines(r, u, k, now)
    decreases k
  {
    if k > 0 {
      var t := r.calls[k - 1].now;
      BucketRefinesHistory(r, u, k - 1, t);
      BucketRefinesHistory(r, u, k - 1, now);
      if r.calls[k - 1].user == u { OwnCallRefines(r, u, k - 1, now); } else { OtherCallRefines(r, u, k - 1, now); }
    }
  }

  lemma OwnCallRefines(r: Run, u: UserId, k: nat, now: Time)
    requires IsRun(r) && k < |r.calls| && r.calls[k].user == u && r.calls[k].now <= now
    requires Refines(r, u, k, r.calls[k].now) && Refines(r, u, k, now)
    ensures Refines(r, u, k + 1, now)
  {
    var t, window, times := r.calls[k].now, r.limits.window, History(r, u, k);
    assert StepAt(r, k);
    PruneAppend(times, t, now, window);
    PruneTwice(times, t, now, window);
  }

  lemma OtherCallRefines(r: Run, u: UserId, k: nat, now: Time)
    requires IsRun(r) && NotEvicted(r, u) && k < |r.calls| && r.calls[k].user != u && r.calls[k].now <= now
    requires Refines(r, u, k, r.calls[k].now) && Refines(r, u, k, now)
    ensures Refines(r, u, k + 1, now)
  {
    OthersBucket(r, u, k);
    assert !EvictedAt(r, u, k);
    if u in r.states[k] {
      PruneTwice(r.states[k][u].attempts, r.calls[k].now, now, r.limits.window);
    }
  }

  // ---- what the limiter promises

  /** A call is accepted exactly when fewer than `limit` accepted calls of the user lie in the window
      that ends with it. */
  lemma AcceptedIffRoom(r: Run, u: UserId, k: nat)
    requires IsRun(r) && NotEvicted(r, u) && k < |r.calls| && r.calls[k].user == u
    ensures r.outcomes[k].Accepted? <==> Recent(History(r, u, k), r.calls[k].now, r.limits.window) < r.limits.limit
  {
    BucketRefinesHistory(r, u, k, r.calls[k].now);
    PruneCountsRecent(History(r, u, k), r.calls[k].now, r.limits.window);
    assert StepAt(r, k);
  }

  /** Any `limit` + 1 successive accepted calls span at least a window. */
  ghost predicate Spread(times: seq<Time>, l: Limits) {
    forall i :: 0 <= i && i + l.limit < |times| ==> times[i + l.limit] - times[i] >= l.window
  }

  lemma SpreadMore(times: seq<Time>, now: Time, l: Limits)
    requires Sane(l) && Ordered(times) && Spread(times, l) && Recent(times, now, l.window) < l.limit
    requires forall i :: 0 <= i < |times| ==> times[i] <= now
    ensures Spread(times + [now], l)
  {
    PruneCutsPrefix(times, now, l.window);
    PruneCountsRecent(times, now, l.window);
    var more := times + [now];
    forall i | 0 <= i && i + l.limit < |more|
      ensures more[i + l.limit] - more[i] >= l.window
    {
      if i + l.limit == |times| {
        assert Expired(now, times[i], l.window);
      } else {
        assert times[i + l.limit] - times[i] >= l.window;
      }
    }
  }

  /** No window ever holds more than `limit` accepted calls of a user. */
  lemma {:induction false} NoWindowOverflows(r: Run, u: UserId, k: nat)
    requires IsRun(r) && NotEvicted(r, u) && k <= |r.calls|
    ensures Spread(History(r, u, k), r.limits)
  {
    if k > 0 {
      NoWindowOverflows(r, u, k - 1);
      if r.calls[k - 1].user == u && r.outcomes[k - 1].Accepted? {
        AcceptedIffRoom(r, u, k - 1);
        BucketRefinesHistory(r, u, k - 1, r.calls[k - 1].now);
        SpreadMore(History(r, u, k - 1), r.calls[k - 1].now, r.limits);
      }
    }
  }

  lemma SpreadExpires(times: seq<Time>, i: nat, now: Time, l: Limits)
    requires Sane(l) && Spread(times, l) && i + l.limit < |times| && times[i + l.limit] <= now
    ensures Expired(now, times[i], l.window)
  {
    assert times[i + l.limit] - times[i] >= l.window;
  }

  /** The window holds no more than `limit` attempts. */
  lemma AtMostLimit(times: seq<Time>, now: Time, l: Limits)
    requires Sane(l) && Ordered(times) && Spread(times, l) && forall i :: 0 <= i < |times| ==> times[i] <= now
    ensures |Prune(times, now, l.window)| <= l.limit
  {
    var cut := |times| - |Prune(times, now, l.window)|;
    if cut + l.limit < |times| {
      SpreadExpires(times, cut, now, l);
      PruneCutsPrefix(times, now, l.window);
      assert false;
    }
  }

  /** With a full window, room appears exactly when the oldest recent attempt expires. */
  lemma RoomAtDeadline(times: seq<Time>, earlier: Time, now: Time, l: Limits)
    requires Sane(l) && Ordered(times) && Spread(times, l) && earlier <= now
    requires forall i :: 0 <= i < |times| ==> times[i] <= earlier
    requires |Prune(times, earlier, l.window)| >= l.limit
    ensures Recent(times, now, l.window) < l.limit <==> now >= Prune(times, earlier, l.window)[0] + l.window
  {
    AtMostLimit(times, earlier, l);
    PruneCutsPrefix(times, earlier, l.window);
    PruneCutsPrefix(times, now, l.window);
    PruneCountsRecent(times, now, l.window);
    var cut := |times| - |Prune(times, earlier, l.window)|;
    var cut' := |times| - |Prune(times, now, l.window)|;
    if now >= times[cut] + l.window {
      assert Expired(now, times[cut], l.window);
      assert cut' > cut;
    } else {
      assert !Expired(now, times[cut], l.window);
      assert cut' <= cut;
    }
  }

  /** The deadline of a rejection is exact: as long as the user has no newly accepted call, later calls
      are rejected before it and accepted from it on. */
  lemma DeadlineExact(r: Run, u: UserId, k: nat, j: nat)
    requires IsRun(r) && NotEvicted(r, u) && k < j < |r.calls|
    requires r.calls[k].user == u && r.outcomes[k].Rejected? && r.calls[j].user == u
    requires History(r, u, j) == History(r, u, k)
    ensures r.outcomes[j].Accepted? <==> r.calls[j].now >= r.outcomes[k].deadline
  {
    var times := History(r, u, k);
    BucketRefinesHistory(r, u, k, r.calls[k].now);
    NoWindowOverflows(r, u, k);
    RejectedDeadline(r, u, k);
    AcceptedIffRoom(r, u, j);
    RoomAtDeadline(times, r.calls[k].now, r.calls[j].now, r.limits);
  }

  lemma RejectedDeadline(r: Run, u: UserId, k: nat)
    requires IsRun(r) && k < |r.calls| && r.calls[k].user == u && r.outcomes[k].Rejected?
    requires Refines(r, u, k, r.calls[k].now)
    ensures var kept := Prune(History(r, u, k), r.calls[k].now, r.limits.window);
      |kept| >= r.limits.limit && r.outcomes[k].deadline == kept[0] + r.limits.window
  {
    assert StepAt(r, k);
  }

  // ---- storage

  function Capacity(l: Limits): nat {
    if l.maxKeys > 1 then l.maxKeys else 1
  }

  lemma SubmapSmaller(a: map<UserId, Bucket>, b: map<UserId, Bucket>)
    requires a.Keys <= b.Keys
    ensures |a| <= |b|
  {
    SubsetSmaller(a.Keys, b.Keys);
  }

  lemma {:induction false} SubsetSmaller(a: set<UserId>, b: set<UserId>)
    requires a <= b
    ensures |a| <= |b|
  {
    if a != {} {
      var x :| x in a;
      SubsetSmaller(a - {x}, b - {x});
    }
  }

  lemma StepBounded(l: Limits, users: map<UserId, Bucket>, u: UserId, now: Time, users': map<UserId, Bucket>,
        outcome: Outcome)
    requires Sane(l) && Step(l, users, u, now, users', outcome) && |users| <= Capacity(l)
    ensures |users'| <= Capacity(l)
  {
    if u in users {
      assert users'.Keys == users.Keys;
    } else {
      var base :| MadeRoom(l, users, now, base) && users' == base[u := Bucket([now], now)];
      RoomBounded(l, users, now, base);
      SubsetSmaller(users'.Keys, base.Keys + {u});
    }
  }

  lemma RoomBounded(l: Limits, users: map<UserId, Bucket>, now: Time, base: map<UserId, Bucket>)
    requires MadeRoom(l, users, now, base) && |users| <= Capacity(l)
    ensures |base| < Capacity(l)
  {
    var retained := Retained(users, now, l.window);
    SubmapSmaller(retained, users);
    if |users| >= l.maxKeys && |retained| >= l.maxKeys && retained != map[] {
      var victim :| Oldest(retained, victim) && base == retained - {victim};
      assert base.Keys == retained.Keys - {victim};
    }
  }

  /** With `maxKeys` zero, the first call still stores its user. */
  lemma ZeroKeysStoresOne(l: Limits, u: UserId, now: Time, users': map<UserId, Bucket>, outcome: Outcome)
    requires Sane(l) && l.maxKeys == 0 && Step(l, map[], u, now, users', outcome)
    ensures |users'| == 1 > l.maxKeys
  {
    var base :| MadeRoom(l, map[], now, base) && users' == base[u := Bucket([now], now)];
    assert Retained(map[], now, l.window) == map[];
    assert users'.Keys == {u};
  }

  /** The number of stored users never exceeds `maxKeys`, or one if that is zero. */
  lemma {:induction false} KeysBounded(r: Run, k: nat)
    requires IsRun(r) && k < |r.states|
    ensures |r.states[k]| <= Capacity(r.limits)
  {
    if k > 0 {
      KeysBounded(r, k - 1);
      CallBounded(r, k - 1);
    }
  }

  lemma CallBounded(r: Run, k: nat)
    requires IsRun(r) && k < |r.calls| && |r.states[k]| <= Capacity(r.limits)
    ensures |r.states[k + 1]| <= Capacity(r.limits)
  {
    assert StepAt(r, k);
    StepBounded(r.limits, r.states[k], r.calls[k].user, r.calls[k].now, r.states[k + 1], r.outcomes[k]);
  }

  /** An eviction of a user with live attempts happens only when every stored user has live attempts and
      the storage is full. */
  lemma EvictionOnlyWhenFull(r: Run, u: UserId, k: nat)
    requires IsRun(r) && k < |r.calls| && EvictedAt(r, u, k)
    ensures r.calls[k].user !in r.states[k]
    ensures |Retained(r.states[k], r.calls[k].now, r.limits.window)| >= r.limits.maxKeys
    ensures Oldest(Retained(r.states[k], r.calls[k].now, r.limits.window), u)
  {
    assert StepAt(r, k);
    var base :| MadeRoom(r.limits, r.states[k], r.calls[k].now, base) &&
      r.states[k + 1] == base[r.calls[k].user := Bucket([r.calls[k].now], r.calls[k].now)];
    assert u !in base;
  }

  /** A stored user was last updated by the last call that was accepted for the user. */
  lemma {:induction false} UpdatedByLastAccepted(r: Run, u: UserId, k: nat)
    requires IsRun(r) && k <= |r.calls| && u in r.states[k]
    ensures History(r, u, k) != []
    ensures r.states[k][u].updatedAt == History(r, u, k)[|History(r, u, k)| - 1]
  {
    if k > 0 {
      assert StepAt(r, k - 1);
      if u in r.states[k - 1] {
        UpdatedByLastAccepted(r, u, k - 1);
      }
    }
  }

  /** So after an accepted call nobody has been updated later than its user. */
  lemma AcceptedIsLatest(r: Run, k: nat, v: UserId)
    requires IsRun(r) && k < |r.calls| && r.outcomes[k].Accepted? && v in r.states[k + 1]
    ensures r.calls[k].user in r.states[k + 1]
    ensures r.states[k + 1][v].updatedAt <= r.states[k + 1][r.calls[k].user].updatedAt == r.calls[k].now
  {
    assert StepAt(r, k);
    UpdatedByLastAccepted(r, v, k + 1);
    HistoryIsPast(r, v, k + 1);
  }

  lemma {:induction false} HistoryIsPast(r: Run, u: UserId, k: nat)
    requires IsRun(r) && 0 < k <= |r.calls|
    ensures forall i :: 0 <= i < |History(r, u, k)| ==> History(r, u, k)[i] <= r.calls[k - 1].now
  {
    if k > 1 {
      HistoryIsPast(r, u, k - 1);
    }
  }
}
