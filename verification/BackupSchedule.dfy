/** Scheduled backups: the slot arithmetic and the order of the slots a user's jobs are made for. */
module BackupSchedule {
  import opened Outcomes

  type UserId = nat
  type Time = int

  const SECOND: int := 1_000_000_000
  /** The last instant of year 9999, beyond which date arithmetic fails. */
  const TIME_MAX: Time := 253_402_300_799_999_999_999

  datatype Failure = CorruptData | Conflict | InvalidInput

  /** Integer division that truncates toward zero. */
  function Truncate(a: int, b: int): int
    requires b > 0
  {
    if a >= 0 then a / b else -((-a) / b)
  }

  /** How many intervals to go on from `slot`. */
  function Steps(slot: Time, now: Time, seconds: int): int
    requires seconds > 0
  {
    var whole := Truncate(now - slot, SECOND);
    var elapsed := if whole > 0 then whole else 0;
    elapsed / seconds + 1
  }

  function NextScheduleSlot(slot: Time, now: Time, intervalHours: int): Result<Time, Failure> {
    var seconds := intervalHours * 3_600;
    if seconds <= 0 then Err(CorruptData)
    else
      var steps := Steps(slot, now, seconds);
      if seconds * steps > I64_MAX then Err(CorruptData)
      else
        var next := slot + seconds * steps * SECOND;
        if next > TIME_MAX then Err(CorruptData) else Ok(next)
  }

  /** `next` is the first slot of the grid `slot + k * interval`, k >= 1, that lies after `now`. */
  ghost predicate FirstAfter(slot: Time, now: Time, interval: int, next: Time) {
    && next > now
    && (exists k :: k >= 1 && next == GridPoint(slot, interval, k))
    && (forall k :: k >= 1 && GridPoint(slot, interval, k) > now ==> next <= GridPoint(slot, interval, k))
  }

  function Interval(hours: int): int {
    hours * 3_600 * SECOND
  }

  ghost function GridPoint(slot: Time, interval: int, k: int): Time {
    slot + interval * k
  }

  lemma QuotientBounds(a: int, b: int)
    requires b > 0
    ensures b * (a / b) <= a < b * (a / b + 1)
  {
    assert a == b * (a / b) + a % b;
  }

  lemma Regroup(b: int, c: int, k: int)
    ensures b * (c * k) == k * (b * c)
  {
  }

  /** `low` and `high` are multiples of `c` with `q` between them. */
  lemma Widen(a: int, b: int, q: int, low: int, high: int)
    requires b > 0 && low <= q < high && b * q <= a < b * (q + 1)
    ensures b * low <= a < b * high
  {
    ProductMonotone(b, low, q);
    ProductMonotone(b, q + 1, high);
  }

  /** Counting whole seconds, and whole intervals of whole seconds, loses nothing. */
  lemma QuotientOfQuotient(a: int, b: int, c: int)
    requires a >= 0 && b > 0 && c > 0
    ensures b * c > 0
    ensures (a / b) / c * (b * c) <= a < ((a / b) / c + 1) * (b * c)
  {
    var q := a / b;
    var k := q / c;
    ProductPositive(b, c);
    QuotientBounds(a, b);
    QuotientBounds(q, c);
    Widen(a, b, q, c * k, c * (k + 1));
    Regroup(b, c, k);
    Regroup(b, c, k + 1);
  }

  lemma ProductMonotone(b: int, x: int, y: int)
    requires b > 0 && x <= y
    ensures b * x <= b * y
  {
  }

  lemma ProductPositive(b: int, c: int)
    requires b > 0 && c > 0
    ensures b * c > 0
  {
  }

  /** A slot is computed exactly when the interval is positive and the first slot after `now` is a
      representable time; then it is that slot. */
  lemma NextSlotIsFirst(slot: Time, now: Time, intervalHours: int)
    requires slot <= TIME_MAX && now <= TIME_MAX && -TIME_MAX * 2 <= slot && intervalHours <= I32_MAX
    ensures var interval := Interval(intervalHours);
      match NextScheduleSlot(slot, now, intervalHours)
      case Ok(next) => intervalHours > 0 && next <= TIME_MAX && FirstAfter(slot, now, interval, next)
      case Err(_) => intervalHours > 0 ==> exists next :: next > TIME_MAX && FirstAfter(slot, now, interval, next)
  {
    if intervalHours > 0 {
      var seconds := intervalHours * 3_600;
      StepsAreFirst(slot, now, intervalHours);
      if seconds * Steps(slot, now, seconds) > I64_MAX {
        Overflow(slot, seconds * Steps(slot, now, seconds));
      }
    }
  }

  /** An offset beyond 64 bits of seconds leads beyond the last representable time. */
  lemma Overflow(slot: Time, offset: int)
    requires -TIME_MAX * 2 <= slot && offset > I64_MAX
    ensures slot + offset * SECOND > TIME_MAX
  {
  }

  lemma FirstOfGrid(slot: Time, now: Time, interval: int, steps: int)
    requires interval > 0 && steps >= 1 && GridPoint(slot, interval, steps) > now
    requires steps > 1 ==> GridPoint(slot, interval, steps - 1) <= now
    ensures FirstAfter(slot, now, interval, GridPoint(slot, interval, steps))
  {
    forall k | k >= 1 && GridPoint(slot, interval, k) > now
      ensures GridPoint(slot, interval, steps) <= GridPoint(slot, interval, k)
    {
      if k < steps {
        ProductMonotone(interval, k, steps - 1);
      } else {
        ProductMonotone(interval, steps, k);
      }
    }
  }

  lemma StepsAreFirst(slot: Time, now: Time, hours: int)
    requires hours > 0
    ensures var steps := Steps(slot, now, hours * 3_600);
      && steps >= 1
      && GridPoint(slot, Interval(hours), steps) == slot + hours * 3_600 * steps * SECOND
      && FirstAfter(slot, now, Interval(hours), GridPoint(slot, Interval(hours), steps))
  {
    var steps := Steps(slot, now, hours * 3_600);
    StepsBound(if now >= slot then now - slot else 0, hours * 3_600, steps);
    FirstOfGrid(slot, now, Interval(hours), steps);
    Commute(hours * 3_600, SECOND, steps);
  }

  lemma StepsBound(behind: int, seconds: int, steps: int)
    requires behind >= 0 && seconds > 0 && steps == behind / SECOND / seconds + 1
    ensures steps >= 1 && seconds * SECOND > 0
    ensures seconds * SECOND * (steps - 1) <= behind < seconds * SECOND * steps
  {
    QuotientOfQuotient(behind, SECOND, seconds);
  }

  lemma Commute(a: int, b: int, c: int)
    ensures a * b * c == a * c * b
  {
  }

  // ---- schedules over time

  datatype Schedule = Schedule(enabled: bool, intervalHours: int, nextRunAt: Option<Time>)

  /** The stored schedules, the scheduled jobs that exist (`uq_backup_jobs_schedule_slot` allows one
      for a user and slot), and the largest clock reading so far. */
  datatype State = State(schedules: map<UserId, Schedule>, jobs: set<(UserId, Time)>, clock: Time)

  /** `selected` is whether the schedule still has an enabled destination. Deleting a job frees its slot. */
  datatype Action =
    | Put(user: UserId, enabled: bool, intervalHours: int, now: Time)
    | EnqueueDue(user: UserId, selected: bool, now: Time)
    | DropJob(user: UserId, slot: Time)

  datatype Outcome = Outcome(state: State, made: Option<(UserId, Time)>, failure: Option<Failure>)

  function Fail(s: State, e: Failure): Outcome {
    Outcome(s, None, Some(e))
  }

  function PutSchedule(s: State, user: UserId, enabled: bool, intervalHours: int, now: Time): Outcome {
    if !(1 <= intervalHours <= 720) then Fail(s, InvalidInput)
    else
      var next := if enabled then Some(now + Interval(intervalHours)) else None;
      Outcome(s.(schedules := s.schedules[user := Schedule(enabled, intervalHours, next)]), None, None)
  }

  predicate Due(s: State, user: UserId, now: Time) {
    && user in s.schedules
    && var sched := s.schedules[user];
    && sched.enabled
    && sched.nextRunAt.Some?
    && sched.nextRunAt.value <= now
    && 1 <= sched.intervalHours <= 720
  }

  /** One transaction: a failure leaves everything as it was. */
  function EnqueueDueSchedule(s: State, user: UserId, selected: bool, now: Time): Outcome {
    if !Due(s, user, now) then Outcome(s, None, None)
    else
      var slot := s.schedules[user].nextRunAt.value;
      match NextScheduleSlot(slot, now, s.schedules[user].intervalHours)
      case Err(e) => Fail(s, e)
      case Ok(next) =>
        var moved := s.(schedules := s.schedules[user := s.schedules[user].(nextRunAt := Some(next))]);
        if !selected then Outcome(moved, None, None)
        else if (user, slot) in s.jobs then Fail(s, Conflict)
        else Outcome(moved.(jobs := moved.jobs + {(user, slot)}), Some((user, slot)), None)
  }

  function Attempt(s: State, a: Action): Outcome {
    match a
    case Put(user, enabled, hours, now) => PutSchedule(s, user, enabled, hours, now)
    case EnqueueDue(user, selected, now) => EnqueueDueSchedule(s, user, selected, now)
    case DropJob(user, slot) => Outcome(s.(jobs := s.jobs - {(user, slot)}), None, None)
  }

  function ClockAfter(s: State, a: Action): Time {
    if a.DropJob? || a.now < s.clock then s.clock else a.now
  }

  function Do(s: State, a: Action): State {
    Attempt(s, a).state.(clock := ClockAfter(s, a))
  }

  function Run(s: State, acts: seq<Action>): State
    decreases |acts|
  {
    if acts == [] then s else Run(Do(s, acts[0]), acts[1..])
  }

  /** The slots for which jobs of a user were made, in order. */
  function SlotsMade(s: State, acts: seq<Action>, user: UserId): seq<Time>
    decreases |acts|
  {
    if acts == [] then []
    else
      var made := Attempt(s, acts[0]).made;
      (if made.Some? && made.value.0 == user then [made.value.1] else []) + SlotsMade(Do(s, acts[0]), acts[1..], user)
  }

  ghost predicate Increasing(slots: seq<Time>) {
    forall i, k :: 0 <= i < k < |slots| ==> slots[i] < slots[k]
  }

  /** Clock readings never go back. */
  ghost predicate Monotone(s: State, acts: seq<Action>)
    decreases |acts|
  {
    acts == [] || ((acts[0].DropJob? || s.clock <= acts[0].now) && Monotone(Do(s, acts[0]), acts[1..]))
  }

  /** The slot lies before the next one of the user, if the user has one. */
  ghost predicate BeforeNext(s: State, user: UserId, slot: Time) {
    user in s.schedules && s.schedules[user].nextRunAt.Some? ==> slot < s.schedules[user].nextRunAt.value
  }

  /** Jobs exist only for slots that lie before the next slot of their user. */
  ghost predicate Ahead(s: State) {
    forall user, slot :: (user, slot) in s.jobs ==> BeforeNext(s, user, slot)
  }

  /** Moreover, these slots have passed. */
  ghost predicate Inv(s: State) {
    Ahead(s) && forall user, slot :: (user, slot) in s.jobs ==> slot <= s.clock
  }

  /** Every slot for which a job of the user may still be made is later than `bound`. */
  ghost predicate Beyond(s: State, user: UserId, bound: Time) {
    bound <= s.clock && BeforeNext(s, user, bound)
  }

  ghost predicate Timely(s: State, a: Action) {
    a.DropJob? || s.clock <= a.now
  }

  lemma NextSlotIsLater(slot: Time, now: Time, hours: int)
    requires NextScheduleSlot(slot, now, hours).Ok?
    ensures NextScheduleSlot(slot, now, hours).value > now
    ensures NextScheduleSlot(slot, now, hours).value > slot
    ensures exists k :: k >= 1 && NextScheduleSlot(slot, now, hours).value == GridPoint(slot, Interval(hours), k)
  {
    var steps := Steps(slot, now, hours * 3_600);
    StepsAreFirst(slot, now, hours);
    ProductPositive(Interval(hours), steps);
  }

  lemma StepKeepsBeyond(s: State, a: Action, user: UserId, bound: Time)
    requires Beyond(s, user, bound) && Timely(s, a)
    ensures Beyond(Do(s, a), user, bound)
  {
    if a.EnqueueDue? && Due(s, a.user, a.now) {
      var slot := s.schedules[a.user].nextRunAt.value;
      if NextScheduleSlot(slot, a.now, s.schedules[a.user].intervalHours).Ok? {
        NextSlotIsLater(slot, a.now, s.schedules[a.user].intervalHours);
      }
    }
  }

  lemma StepKeepsInv(s: State, a: Action)
    requires Inv(s) && Timely(s, a)
    ensures Inv(Do(s, a))
  {
    forall user, slot | (user, slot) in Do(s, a).jobs
      ensures Beyond(Do(s, a), user, slot)
    {
      if (user, slot) in s.jobs {
        StepKeepsBeyond(s, a, user, slot);
      } else {
        NextSlotIsLater(slot, a.now, s.schedules[user].intervalHours);
      }
    }
  }

  /** With a clock that never goes back, a slot for which a job is made lies beyond every earlier
      one. */
  lemma MadeSlotIsNew(s: State, a: Action)
    requires Inv(s) && Timely(s, a)
    ensures Attempt(s, a).failure != Some(Conflict)
    ensures var made := Attempt(s, a).made; made.Some? ==> Beyond(Do(s, a), made.value.0, made.value.1)
  {
    var made := Attempt(s, a).made;
    if made.Some? {
      NextSlotIsLater(made.value.1, a.now, s.schedules[made.value.0].intervalHours);
    }
  }

  lemma {:induction false} SlotsLieBeyond(s: State, acts: seq<Action>, user: UserId, bound: Time)
    requires Inv(s) && Beyond(s, user, bound) && Monotone(s, acts)
    ensures forall slot :: slot in SlotsMade(s, acts, user) ==> bound < slot
    decreases |acts|
  {
    if acts != [] {
      StepKeepsBeyond(s, acts[0], user, bound);
      StepKeepsInv(s, acts[0]);
      SlotsLieBeyond(Do(s, acts[0]), acts[1..], user, bound);
    }
  }

  lemma EarlierFirst(slot: Time, rest: seq<Time>)
    requires Increasing(rest) && forall t :: t in rest ==> slot < t
    ensures Increasing([slot] + rest)
  {
    var all := [slot] + rest;
    assert forall k :: 0 < k < |all| ==> all[k] == rest[k - 1] && all[k] in rest;
  }

  /** With a clock that never goes back, the scheduled jobs of each user are made for strictly
      increasing slots, across any changes of the schedule. */
  lemma {:induction false} SlotsStrictlyIncrease(s: State, acts: seq<Action>, user: UserId)
    requires Inv(s) && Monotone(s, acts)
    ensures Increasing(SlotsMade(s, acts, user))
    decreases |acts|
  {
    if acts != [] {
      var s' := Do(s, acts[0]);
      StepKeepsInv(s, acts[0]);
      MadeSlotIsNew(s, acts[0]);
      SlotsStrictlyIncrease(s', acts[1..], user);
      var made := Attempt(s, acts[0]).made;
      if made.Some? && made.value.0 == user {
        SlotsLieBeyond(s', acts[1..], user, made.value.1);
        EarlierFirst(made.value.1, SlotsMade(s', acts[1..], user));
      } else {
        assert SlotsMade(s, acts, user) == SlotsMade(s', acts[1..], user);
      }
    }
  }

  // ---- what an update and a due schedule leave

  ghost predicate OthersWait(s: State, t: State, user: UserId) {
    && (forall v :: v != user ==> (v in t.schedules <==> v in s.schedules))
    && (forall v :: v != user && v in s.schedules ==> t.schedules[v] == s.schedules[v])
  }

  /** A call that makes a job makes it for the slot that was due, and leaves the schedule enabled, with
      its interval, waiting for the first slot after the clock; nobody else's schedule changes. */
  lemma MadeJobLeaves(s: State, user: UserId, selected: bool, now: Time)
    requires Attempt(s, EnqueueDue(user, selected, now)).made.Some?
    ensures user in s.schedules && s.schedules[user].enabled && s.schedules[user].nextRunAt.Some?
    ensures var t := Do(s, EnqueueDue(user, selected, now)); var slot := s.schedules[user].nextRunAt.value;
      && selected && slot <= now && t.jobs == s.jobs + {(user, slot)} && (user, slot) !in s.jobs
      && user in t.schedules && t.schedules[user].enabled && t.schedules[user].nextRunAt.Some?
      && t.schedules[user].intervalHours == s.schedules[user].intervalHours
      && FirstAfter(slot, now, Interval(s.schedules[user].intervalHours), t.schedules[user].nextRunAt.value)
      && OthersWait(s, t, user)
  {
    StepsAreFirst(s.schedules[user].nextRunAt.value, now, s.schedules[user].intervalHours);
  }

  /** When no destination is enabled no job is made, but the schedule waits for its next slot all the
      same. */
  lemma UnselectedLeaves(s: State, user: UserId, now: Time)
    requires Due(s, user, now) && Attempt(s, EnqueueDue(user, false, now)).failure.None?
    ensures var t := Do(s, EnqueueDue(user, false, now));
      && t.jobs == s.jobs && user in t.schedules && t.schedules[user].enabled && t.schedules[user].nextRunAt.Some?
      && t.schedules[user].nextRunAt.value > now
  {
    NextSlotIsLater(s.schedules[user].nextRunAt.value, now, s.schedules[user].intervalHours);
  }

  /** An accepted update sets the schedule, one interval ahead of the clock if it is enabled. */
  lemma PutLeaves(s: State, user: UserId, enabled: bool, hours: int, now: Time)
    ensures var put := Put(user, enabled, hours, now); var t := Do(s, put);
      && (Attempt(s, put).failure.None? <==> 1 <= hours <= 720)
      && t.jobs == s.jobs
      && (1 <= hours <= 720 ==> t.schedules == s.schedules[user :=
        Schedule(enabled, hours, if enabled then Some(now + hours * 3_600 * 1_000_000_000) else None)])
      && (!(1 <= hours <= 720) ==> t.schedules == s.schedules)
  {
  }

  // ---- when the unique index rejects a scheduled job

  /** The guard of the branch that fails. */
  ghost predicate Rejected(s: State, user: UserId, selected: bool, now: Time) {
    && Due(s, user, now)
    && selected
    && (user, s.schedules[user].nextRunAt.value) in s.jobs
    && NextScheduleSlot(s.schedules[user].nextRunAt.value, now, s.schedules[user].intervalHours).Ok?
  }

  lemma ConflictIffRejected(s: State, a: Action)
    ensures Attempt(s, a).failure == Some(Conflict) <==>
      a.EnqueueDue? && Rejected(s, a.user, a.selected, a.now)
  {
  }

  /** An accepted update that enables a schedule puts its next slot beyond every job of the user. */
  ghost predicate SetsAhead(s: State, a: Action) {
    a.Put? && a.enabled && 1 <= a.intervalHours <= 720 ==>
      forall slot :: (a.user, slot) in s.jobs ==> slot < a.now + Interval(a.intervalHours)
  }

  /** With every job before the next slot of its user, no transaction is rejected, whatever the
      clock says, and only an update of a schedule can end that: exactly one that does not set the
      next slot beyond the jobs of the user. */
  lemma StepAhead(s: State, a: Action)
    requires Ahead(s)
    ensures Attempt(s, a).failure != Some(Conflict)
    ensures Ahead(Do(s, a)) <==> SetsAhead(s, a)
  {
    var t := Do(s, a);
    if SetsAhead(s, a) {
      forall user, slot | (user, slot) in t.jobs
        ensures BeforeNext(t, user, slot)
      {
        StepBeforeNext(s, a, user, slot);
      }
    } else {
      var slot :| (a.user, slot) in s.jobs && slot >= a.now + Interval(a.intervalHours);
      assert (a.user, slot) in t.jobs && !BeforeNext(t, a.user, slot);
    }
  }

  lemma StepBeforeNext(s: State, a: Action, user: UserId, slot: Time)
    requires Ahead(s) && SetsAhead(s, a) && (user, slot) in Do(s, a).jobs
    ensures BeforeNext(Do(s, a), user, slot)
  {
    if a.EnqueueDue? && Due(s, a.user, a.now) {
      var sched := s.schedules[a.user];
      if NextScheduleSlot(sched.nextRunAt.value, a.now, sched.intervalHours).Ok? {
        NextSlotIsLater(sched.nextRunAt.value, a.now, sched.intervalHours);
      }
    }
  }

  ghost predicate NeverConflicts(s: State, acts: seq<Action>)
    decreases |acts|
  {
    acts == [] || (Attempt(s, acts[0]).failure != Some(Conflict) && NeverConflicts(Do(s, acts[0]), acts[1..]))
  }

  ghost predicate AllSetAhead(s: State, acts: seq<Action>)
    decreases |acts|
  {
    acts == [] || (SetsAhead(s, acts[0]) && AllSetAhead(Do(s, acts[0]), acts[1..]))
  }

  /** No transaction of a run is rejected when each update of a schedule sets the next slot beyond
      the jobs that its user has at that moment; clocks may disagree and go back. */
  lemma {:induction false} RunNeverConflicts(s: State, acts: seq<Action>)
    requires Ahead(s) && AllSetAhead(s, acts)
    ensures NeverConflicts(s, acts) && Ahead(Run(s, acts))
    decreases |acts|
  {
    if acts != [] {
      StepAhead(s, acts[0]);
      RunNeverConflicts(Do(s, acts[0]), acts[1..]);
    }
  }

  // ---- the exact condition: no job on the grid of its user

  /** `slot` is one that the schedule comes to if it is left alone. */
  ghost predicate Awaited(s: State, user: UserId, slot: Time) {
    && user in s.schedules
    && var sched := s.schedules[user];
    && sched.enabled
    && 1 <= sched.intervalHours <= 720
    && sched.nextRunAt.Some?
    && slot + Interval(sched.intervalHours) <= TIME_MAX
    && OnGrid(sched.nextRunAt.value, Interval(sched.intervalHours), slot)
  }

  ghost predicate OnGrid(first: Time, interval: int, slot: Time) {
    exists k :: k >= 0 && slot == GridPoint(first, interval, k)
  }

  ghost predicate Clear(s: State) {
    forall user, slot :: (user, slot) in s.jobs ==> !Awaited(s, user, slot)
  }

  /** An accepted update that enables a schedule does not come to a job of the user later. */
  ghost predicate SetsClear(s: State, a: Action) {
    a.Put? && a.enabled && 1 <= a.intervalHours <= 720 ==>
      forall slot :: (a.user, slot) in s.jobs && slot + Interval(a.intervalHours) <= TIME_MAX ==>
        !OnGrid(a.now + Interval(a.intervalHours), Interval(a.intervalHours), slot)
  }

  lemma GridSum(first: Time, interval: int, j: int, k: int)
    ensures GridPoint(GridPoint(first, interval, j), interval, k) == GridPoint(first, interval, j + k)
  {
  }

  /** Slots that are still awaited after a step were awaited before it, and the one that a job is
      made for is awaited no more. */
  lemma StepAwaited(s: State, a: Action, user: UserId, slot: Time)
    requires !a.Put? && Awaited(Do(s, a), user, slot)
    ensures Awaited(s, user, slot)
    ensures Attempt(s, a).made != Some((user, slot))
  {
    if Do(s, a).schedules != s.schedules && user == a.user {
      var sched := s.schedules[user];
      var next, interval := sched.nextRunAt.value, Interval(sched.intervalHours);
      NextSlotIsLater(next, a.now, sched.intervalHours);
      var moved := NextScheduleSlot(next, a.now, sched.intervalHours).value;
      var j :| j >= 1 && moved == GridPoint(next, interval, j);
      var k :| k >= 0 && slot == GridPoint(moved, interval, k);
      GridSum(next, interval, j, k);
      ProductMonotone(interval, 1, j + k);
    }
  }

  /** From a clear state no transaction is rejected, and exactly the updates of a schedule that come
      to a job of the user later leave a state that is not clear. */
  lemma StepClear(s: State, a: Action)
    requires Clear(s)
    ensures Attempt(s, a).failure != Some(Conflict)
    ensures Clear(Do(s, a)) <==> SetsClear(s, a)
  {
    if a.Put? {
      PutClear(s, a);
    } else {
      forall user, slot | (user, slot) in Do(s, a).jobs
        ensures !Awaited(Do(s, a), user, slot)
      {
        if Awaited(Do(s, a), user, slot) {
          StepAwaited(s, a, user, slot);
        }
      }
      if a.EnqueueDue? && Rejected(s, a.user, a.selected, a.now) {
        RejectedIsAwaited(s, a);
        assert false;
      }
    }
  }

  lemma RejectedIsAwaited(s: State, a: Action)
    requires a.EnqueueDue? && Rejected(s, a.user, a.selected, a.now)
    ensures Awaited(s, a.user, s.schedules[a.user].nextRunAt.value)
  {
    var sched := s.schedules[a.user];
    var next, interval := sched.nextRunAt.value, Interval(sched.intervalHours);
    NextSlotIsLater(next, a.now, sched.intervalHours);
    var j :| j >= 1 && NextScheduleSlot(next, a.now, sched.intervalHours).value == GridPoint(next, interval, j);
    ProductMonotone(interval, 1, j);
    assert next == GridPoint(next, interval, 0);
  }

  lemma PutClear(s: State, a: Action)
    requires Clear(s) && a.Put?
    ensures Clear(Do(s, a)) <==> SetsClear(s, a)
  {
    var t := Do(s, a);
    if SetsClear(s, a) {
      forall user, slot | (user, slot) in t.jobs
        ensures !Awaited(t, user, slot)
      {
        assert !Awaited(s, user, slot);
      }
    } else {
      var slot :| (a.user, slot) in s.jobs && slot + Interval(a.intervalHours) <= TIME_MAX &&
        OnGrid(a.now + Interval(a.intervalHours), Interval(a.intervalHours), slot);
      assert (a.user, slot) in t.jobs && Awaited(t, a.user, slot);
    }
  }

  lemma AheadIsClear(s: State)
    requires Ahead(s)
    ensures Clear(s)
  {
    forall user, slot | (user, slot) in s.jobs
      ensures !Awaited(s, user, slot)
    {
      assert BeforeNext(s, user, slot);
      if Awaited(s, user, slot) {
        var sched := s.schedules[user];
        var k :| k >= 0 && slot == GridPoint(sched.nextRunAt.value, Interval(sched.intervalHours), k);
        ProductMonotone(Interval(sched.intervalHours), 0, k);
      }
    }
  }

  ghost predicate AllSetClear(s: State, acts: seq<Action>)
    decreases |acts|
  {
    acts == [] || (SetsClear(s, acts[0]) && AllSetClear(Do(s, acts[0]), acts[1..]))
  }

  lemma {:induction false} ClearRun(s: State, acts: seq<Action>)
    requires Clear(s) && AllSetClear(s, acts)
    ensures NeverConflicts(s, acts) && Clear(Run(s, acts))
    decreases |acts|
  {
    if acts != [] {
      StepClear(s, acts[0]);
      ClearRun(Do(s, acts[0]), acts[1..]);
    }
  }

  /** No schedule is updated. */
  ghost predicate Unattended(acts: seq<Action>) {
    forall i :: 0 <= i < |acts| ==> !acts[i].Put?
  }

  lemma {:induction false} UnattendedSetsClear(s: State, acts: seq<Action>)
    requires Unattended(acts)
    ensures AllSetClear(s, acts)
    decreases |acts|
  {
    if acts != [] {
      UnattendedSetsClear(Do(s, acts[0]), acts[1..]);
    }
  }

  /** A schedule that comes to a slot for which there is a job, `k` intervals ahead, is led there by
      calls that find no destination, and then rejected. */
  lemma {:induction false} LedToConflict(s: State, user: UserId, slot: Time, k: nat)
    requires (user, slot) in s.jobs && Awaited(s, user, slot)
    requires slot == GridPoint(s.schedules[user].nextRunAt.value, Interval(s.schedules[user].intervalHours), k)
    ensures exists acts :: Unattended(acts) && !NeverConflicts(s, acts)
    decreases k
  {
    var sched := s.schedules[user];
    var next, interval := sched.nextRunAt.value, Interval(sched.intervalHours);
    assert NextScheduleSlot(next, next, sched.intervalHours) == Ok(next + interval) by {
      NextOnTime(next, k, sched.intervalHours, slot);
    }
    if k == 0 {
      assert !NeverConflicts(s, [EnqueueDue(user, true, next)]);
    } else {
      var a := EnqueueDue(user, false, next);
      var t := Do(s, a);
      assert t.schedules[user] == sched.(nextRunAt := Some(next + interval));
      GridSum(next, interval, 1, k - 1);
      LedToConflict(t, user, slot, k - 1);
      var rest :| Unattended(rest) && !NeverConflicts(t, rest);
      assert ([a] + rest)[1..] == rest;
      assert Unattended([a] + rest) && !NeverConflicts(s, [a] + rest);
    }
  }

  lemma NextOnTime(next: Time, k: nat, hours: int, slot: Time)
    requires 1 <= hours <= 720 && slot == GridPoint(next, Interval(hours), k) && slot + Interval(hours) <= TIME_MAX
    ensures NextScheduleSlot(next, next, hours) == Ok(next + Interval(hours))
  {
    OneStep(next, hours * 3_600);
    assert next <= slot by { ProductMonotone(Interval(hours), 0, k); }
  }

  lemma OneStep(slot: Time, seconds: int)
    requires seconds > 0
    ensures Steps(slot, slot, seconds) == 1
  {
  }

  /** Exactly then no transaction is ever rejected before a schedule is updated again: when no user
      has a job for a slot that the user's schedule will come to. */
  lemma ClearExactly(s: State)
    ensures Clear(s) <==> forall acts :: Unattended(acts) ==> NeverConflicts(s, acts)
  {
    if Clear(s) {
      forall acts | Unattended(acts)
        ensures NeverConflicts(s, acts)
      {
        UnattendedSetsClear(s, acts);
        ClearRun(s, acts);
      }
    } else {
      var user, slot :| (user, slot) in s.jobs && Awaited(s, user, slot);
      var sched := s.schedules[user];
      var k :| k >= 0 && slot == GridPoint(sched.nextRunAt.value, Interval(sched.intervalHours), k);
      LedToConflict(s, user, slot, k);
    }
  }

  /** The clock matters: when it goes back between two updates of the schedule, the same slot comes
      up twice and the second job is rejected. */
  lemma BackwardClockConflicts()
    ensures var hour := 3_600 * SECOND;
      var acts := [Put(0, true, 1, 0), EnqueueDue(0, true, hour), Put(0, true, 1, 0)];
      Attempt(Run(State(map[], {}, 0), acts), EnqueueDue(0, true, hour)).failure == Some(Conflict)
  {
    var hour := 3_600 * SECOND;
    var s0 := State(map[], {}, 0);
    var a0, a1, a2 := Put(0, true, 1, 0), EnqueueDue(0, true, hour), Put(0, true, 1, 0);
    var s1 := Do(s0, a0);
    assert s1.schedules[0] == Schedule(true, 1, Some(hour));
    assert NextScheduleSlot(hour, hour, 1) == Ok(2 * hour);
    var s2 := Do(s1, a1);
    assert (0, hour) in s2.jobs;
    var s3 := Do(s2, a2);
    assert Run(s0, [a0, a1, a2]) == Run(s1, [a1, a2]) by { assert [a0, a1, a2][1..] == [a1, a2]; }
    assert Run(s1, [a1, a2]) == Run(s2, [a2]) by { assert [a1, a2][1..] == [a2]; }
    assert Run(s2, [a2]) == Run(s3, []) by { assert [a2][1..] == []; }
  }

  /** The schedule tables as the repository updates them. */
  class ScheduleTable {
    var schedules: map<UserId, Schedule>
    var jobs: set<(UserId, Time)>
    ghost var clock: Time

    constructor ()
      ensures Contents() == State(map[], {}, 0)
    {
      schedules, jobs, clock := map[], {}, 0;
    }

    ghost function Contents(): State
      reads this
    {
      State(schedules, jobs, clock)
    }

    method Put(user: UserId, enabled: bool, intervalHours: int, now: Time) returns (failure: Option<Failure>)
      modifies this
      ensures Contents() == Do(old(Contents()), Action.Put(user, enabled, intervalHours, now))
      ensures failure == Attempt(old(Contents()), Action.Put(user, enabled, intervalHours, now)).failure
    {
      if now > clock { clock := now; }
      if intervalHours < 1 || 720 < intervalHours {
        return Some(InvalidInput);
      }
      var next := None;
      if enabled {
        next := Some(now + Interval(intervalHours));
      }
      schedules := schedules[user := Schedule(enabled, intervalHours, next)];
      return None;
    }

    method EnqueueDue(user: UserId, selected: bool, now: Time) returns (made: Option<Time>, failure: Option<Failure>)
      modifies this
      ensures Contents() == Do(old(Contents()), Action.EnqueueDue(user, selected, now))
      ensures var outcome := Attempt(old(Contents()), Action.EnqueueDue(user, selected, now));
        && failure == outcome.failure
        && (made.Some? <==> outcome.made.Some?)
        && (made.Some? ==> outcome.made.value == (user, made.value))
      ensures failure == Some(Conflict) <==> Rejected(old(Contents()), user, selected, now)
      ensures Ahead(old(Contents())) ==> failure != Some(Conflict)
    {
      ghost var before := Contents();
      ConflictIffRejected(before, Action.EnqueueDue(user, selected, now));
      if now > clock { clock := now; }
      if user !in schedules || schedules[user].nextRunAt.None? {
        return None, None;
      }
      var stored := schedules[user];
      var slot := stored.nextRunAt.value;
      if !stored.enabled || slot > now || !(1 <= stored.intervalHours <= 720) {
        return None, None;
      }
      var next := NextScheduleSlot(slot, now, stored.intervalHours);
      if next.Err? {
        return None, Some(next.error);
      }
      if selected && (user, slot) in jobs {
        return None, Some(Conflict);
      }
      schedules := schedules[user := stored.(nextRunAt := Some(next.value))];
      if !selected {
        return None, None;
      }
      jobs := jobs + {(user, slot)};
      return Some(slot), None;
    }
  }
}
