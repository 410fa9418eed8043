/** Properties of the health data store that relate several operations: the
    in-memory lists always match storage, one user's writes never touch another
    user's records, the one-record-per-day rule for step counts, and what each
    mutation does to `getStats`. */
module HealthDataProps {
  import opened Base
  import opened HealthTypes
  import Repository
  import opened HealthData

  /** One call into the hook's mutating API, with the clock and the fresh id it would read. */
  datatype Op =
    | AddWorkoutOp(input: WorkoutInput, freshId: RecordId, now: Timestamp)
    | DeleteWorkoutOp(target: RecordId)
    | AddWaterOp(amount: int, today: Date, freshId: RecordId, now: Timestamp)
    | AddStepsOp(steps: int, today: Date, freshId: RecordId, now: Timestamp)
    | AddActivityOp(activity: ActivityInput, freshId: RecordId, now: Timestamp)
    | DeleteActivityOp(target: RecordId)

  /** The collection an operation writes. */
  function Target(op: Op): Collection
  {
    match op
    case AddWorkoutOp(_, _, _) => Workouts
    case DeleteWorkoutOp(_) => Workouts
    case AddWaterOp(_, _, _, _) => Water
    case AddStepsOp(_, _, _, _) => Steps
    case AddActivityOp(_, _, _) => Activities
    case DeleteActivityOp(_) => Activities
  }

  /** Every call is a no-op for a falsy user id; otherwise it changes only the
      collection it targets and save-merges that collection's new slice. */
  function Apply(s: Store, op: Op): (r: Store)
    ensures !SignedIn(s.userId) ==> r == s
    ensures OnlyChanged(s, r, Target(op))
    ensures SignedIn(s.userId) ==> SavedFrom(s, r, Target(op))
  {
    match op
    case AddWorkoutOp(input, id, now) => AddWorkout(s, input, id, now)
    case DeleteWorkoutOp(target) => DeleteWorkout(s, target)
    case AddWaterOp(amount, today, id, now) => AddWaterIntake(s, amount, today, id, now)
    case AddStepsOp(steps, today, id, now) => AddSteps(s, steps, today, id, now)
    case AddActivityOp(activity, id, now) => AddActivity(s, activity, id, now)
    case DeleteActivityOp(target) => DeleteActivity(s, target)
  }

  /** The calls of `ops`, in order. */
  function ApplyAll(s: Store, ops: seq<Op>): Store
    decreases |ops|
  {
    if |ops| == 0 then s else ApplyAll(Apply(s, ops[0]), ops[1..])
  }

  /** Everything user `v` would load from storage. */
  datatype UserData = UserData(workouts: seq<Workout>, water: seq<WaterIntake>,
                               steps: seq<StepCount>, activities: seq<Activity>)

  function View(st: Storage, v: UserId): UserData
  {
    UserData(Repository.Load(st.workouts, WorkoutOwner, v), Repository.Load(st.water, WaterOwner, v),
             Repository.Load(st.steps, StepsOwner, v), Repository.Load(st.activities, ActivityOwner, v))
  }

  /** In a synced store every in-memory list belongs to the signed-in user. */
  lemma SyncedOwned(s: Store, c: Collection)
    requires Synced(s) && SignedIn(s.userId)
    ensures SliceOwned(s, c)
  {
    var u := s.userId.value;
    match c
    case Workouts => Repository.LoadOwned(s.storage.workouts, WorkoutOwner, u);
    case Water => Repository.LoadOwned(s.storage.water, WaterOwner, u);
    case Steps => Repository.LoadOwned(s.storage.steps, StepsOwner, u);
    case Activities => Repository.LoadOwned(s.storage.activities, ActivityOwner, u);
  }

  /** Save-merging an owned slice makes the store synced again. */
  lemma SaveKeepsSynced(s: Store, r: Store, c: Collection)
    requires Synced(s) && OnlyChanged(s, r, c) && SavedFrom(s, r, c) && SliceOwned(r, c)
    ensures Synced(r)
  {
    var u := s.userId.value;
    match c
    case Workouts => Repository.LoadAfterSaveMerge(s.storage.workouts, WorkoutOwner, u, r.workouts);
    case Water => Repository.LoadAfterSaveMerge(s.storage.water, WaterOwner, u, r.waterIntakes);
    case Steps => Repository.LoadAfterSaveMerge(s.storage.steps, StepsOwner, u, r.stepCounts);
    case Activities => Repository.LoadAfterSaveMerge(s.storage.activities, ActivityOwner, u, r.activities);
  }

  /** Save-merging an owned slice leaves what every other user loads unchanged. */
  lemma SaveIsolates(s: Store, r: Store, c: Collection, v: UserId)
    requires OnlyChanged(s, r, c) && SavedFrom(s, r, c) && SliceOwned(r, c)
    requires v != s.userId.value
    ensures View(r.storage, v) == View(s.storage, v)
  {
    var u := s.userId.value;
    match c
    case Workouts => Repository.SaveMergeIsolation(s.storage.workouts, WorkoutOwner, u, r.workouts, v);
    case Water => Repository.SaveMergeIsolation(s.storage.water, WaterOwner, u, r.waterIntakes, v);
    case Steps => Repository.SaveMergeIsolation(s.storage.steps, StepsOwner, u, r.stepCounts, v);
    case Activities => Repository.SaveMergeIsolation(s.storage.activities, ActivityOwner, u, r.activities, v);
  }

  /** Every operation leaves the list it writes owned by the signed-in user. */
  lemma ApplyOwned(s: Store, op: Op)
    requires Synced(s) && SignedIn(s.userId)
    ensures SliceOwned(Apply(s, op), Target(op))
  {
    var r := Apply(s, op);
    SyncedOwned(s, Target(op));
    match op
    case AddWorkoutOp(_, _, _) =>
      assert r.workouts == s.workouts + [r.workouts[|s.workouts|]];
      Repository.AppendOwned(s.workouts, r.workouts[|s.workouts|], WorkoutOwner, s.userId.value);
    case DeleteWorkoutOp(_) =>
    case AddWaterOp(_, _, _, _) =>
      assert r.waterIntakes == s.waterIntakes + [r.waterIntakes[|s.waterIntakes|]];
      Repository.AppendOwned(s.waterIntakes, r.waterIntakes[|s.waterIntakes|], WaterOwner, s.userId.value);
    case AddStepsOp(_, _, _, _) =>
      StepsStayOwned(s, op);
    case AddActivityOp(_, _, _) =>
      assert r.activities == s.activities + [r.activities[|s.activities|]];
      Repository.AppendOwned(s.activities, r.activities[|s.activities|], ActivityOwner, s.userId.value);
    case DeleteActivityOp(_) =>
  }

  /** Every operation keeps the in-memory lists equal to what a reload would give,
      and never changes whose store it is. */
  lemma ApplyKeepsSynced(s: Store, op: Op)
    requires Synced(s)
    ensures Apply(s, op).userId == s.userId
    ensures Synced(Apply(s, op))
  {
    if SignedIn(s.userId) {
      ApplyOwned(s, op);
      SaveKeepsSynced(s, Apply(s, op), Target(op));
    }
  }

  /** After `addSteps`, the in-memory step list still belongs to the user alone. */
  lemma StepsStayOwned(s: Store, op: Op)
    requires Synced(s) && SignedIn(s.userId) && op.AddStepsOp?
    ensures Repository.OwnedBy(Apply(s, op).stepCounts, StepsOwner, s.userId.value)
  {
    var u := s.userId.value;
    var r := UpsertSteps(s.stepCounts, op.steps, op.today, u, op.freshId, op.now);
    Repository.LoadOwned(s.storage.steps, StepsOwner, u);
    forall x | x in r
      ensures x.userId == u
    {
      var i :| 0 <= i < |r| && r[i] == x;
      if i < |s.stepCounts| {
        assert s.stepCounts[i] in s.stepCounts;
      }
    }
  }

  /** One user's operation leaves every other user's persisted records as they were. */
  lemma ApplyIsolates(s: Store, op: Op, v: UserId)
    requires Synced(s)
    requires !SignedIn(s.userId) || v != s.userId.value
    ensures View(Apply(s, op).storage, v) == View(s.storage, v)
  {
    if SignedIn(s.userId) {
      ApplyOwned(s, op);
      SaveIsolates(s, Apply(s, op), Target(op), v);
    }
  }

  /** Any sequence of operations by one user keeps memory and storage in step and
      leaves every other user's persisted records exactly as they were. */
  lemma {:induction false} ApplyAllIsolates(s: Store, ops: seq<Op>, v: UserId)
    requires Synced(s)
    requires !SignedIn(s.userId) || v != s.userId.value
    ensures ApplyAll(s, ops).userId == s.userId
    ensures Synced(ApplyAll(s, ops))
    ensures View(ApplyAll(s, ops).storage, v) == View(s.storage, v)
    decreases |ops|
  {
    if |ops| > 0 {
      ApplyKeepsSynced(s, ops[0]);
      ApplyIsolates(s, ops[0], v);
      ApplyAllIsolates(Apply(s, ops[0]), ops[1..], v);
    }
  }

  /** Reloading after any sequence of operations changes nothing: the lists the
      hook holds are exactly the user's persisted records. */
  lemma ReloadAfterOps(s: Store, ops: seq<Op>)
    requires Synced(s) && SignedIn(s.userId)
    ensures Reload(ApplyAll(s, ops), s.userId) == ApplyAll(s, ops)
  {
    ApplyAllIsolates(s, ops, "");
  }

  /** Deleting is idempotent: deleting the same id twice is deleting it once. */
  lemma DeleteIdempotent(s: Store, op: Op)
    requires Synced(s)
    requires op.DeleteWorkoutOp? || op.DeleteActivityOp?
    ensures Apply(Apply(s, op), op) == Apply(s, op)
  {
    if SignedIn(s.userId) {
      var u := s.userId.value;
      var r := Apply(s, op);
      ApplyOwned(s, op);
      if op.DeleteWorkoutOp? {
        KeepMembers(r.workouts, WorkoutId, op.target, false);
        KeepIdentity(r.workouts, WorkoutId, op.target, false);
        Repository.SaveMergeIdempotent(s.storage.workouts, WorkoutOwner, u, r.workouts);
      } else {
        KeepMembers(r.activities, ActivityId, op.target, false);
        KeepIdentity(r.activities, ActivityId, op.target, false);
        Repository.SaveMergeIdempotent(s.storage.activities, ActivityOwner, u, r.activities);
      }
    }
  }

  /** Deleting an id no record carries changes neither the list nor what any user loads. */
  lemma DeleteAbsentIsNoop(s: Store, op: Op, v: UserId)
    requires Synced(s)
    requires op.DeleteWorkoutOp? ==> forall w :: w in s.workouts ==> w.id != op.target
    requires op.DeleteActivityOp? ==> forall a :: a in s.activities ==> a.id != op.target
    requires op.DeleteWorkoutOp? || op.DeleteActivityOp?
    ensures Apply(s, op).workouts == s.workouts && Apply(s, op).activities == s.activities
    ensures View(Apply(s, op).storage, v) == View(s.storage, v)
  {
    if SignedIn(s.userId) && v == s.userId.value {
      ApplyKeepsSynced(s, op);
    } else {
      ApplyIsolates(s, op, v);
    }
  }

  // ---------------------------------------------------------------------------
  // One step-count record per user and day

  /** Two step records for the same user and day. */
  predicate Clash(x: StepCount, y: StepCount)
  {
    x.userId == y.userId && x.date == y.date
  }

  /** The persisted step list holds at most one record per user and day. */
  predicate OnePerDay(ss: seq<StepCount>)
  {
    forall i, j :: 0 <= i < j < |ss| ==> !Clash(ss[i], ss[j])
  }

  /** One user's step list holds at most one record per day. */
  predicate DatesDistinct(ss: seq<StepCount>)
  {
    forall i, j :: 0 <= i < j < |ss| ==> ss[i].date != ss[j].date
  }

  /** No two records of the list share an id. */
  predicate IdsDistinct(ss: seq<StepCount>)
  {
    forall i, j :: 0 <= i < j < |ss| ==> ss[i].id != ss[j].id
  }

  lemma OnePerDayConcat(a: seq<StepCount>, b: seq<StepCount>)
    ensures OnePerDay(a + b) <==>
      OnePerDay(a) && OnePerDay(b) && forall x, y :: x in a && y in b ==> !Clash(x, y)
  {
    var c := a + b;
    if OnePerDay(a) && OnePerDay(b) && forall x, y :: x in a && y in b ==> !Clash(x, y) {
      forall i, j | 0 <= i < j < |c|
        ensures !Clash(c[i], c[j])
      {
        if j < |a| {
          assert c[i] == a[i] && c[j] == a[j];
        } else if i >= |a| {
          assert c[i] == b[i - |a|] && c[j] == b[j - |a|];
        } else {
          assert c[i] in a && c[j] in b;
        }
      }
    }
    if OnePerDay(c) {
      forall i, j | 0 <= i < j < |a|
        ensures !Clash(a[i], a[j])
      {
        assert a[i] == c[i] && a[j] == c[j];
      }
      forall i, j | 0 <= i < j < |b|
        ensures !Clash(b[i], b[j])
      {
        assert b[i] == c[i + |a|] && b[j] == c[j + |a|];
      }
      forall x, y | x in a && y in b
        ensures !Clash(x, y)
      {
        var i :| 0 <= i < |a| && a[i] == x;
        var j :| 0 <= j < |b| && b[j] == y;
        assert c[i] == x && c[|a| + j] == y;
      }
    }
  }

  /** Filtering the persisted list by owner keeps it free of clashes. */
  lemma {:induction false} OnePerDayKeep(ss: seq<StepCount>, u: UserId, matching: bool)
    requires OnePerDay(ss)
    ensures OnePerDay(Keep(ss, StepsOwner, u, matching))
  {
    if |ss| > 0 {
      assert ss == [ss[0]] + ss[1..];
      OnePerDayConcat([ss[0]], ss[1..]);
      OnePerDayKeep(ss[1..], u, matching);
      var head := if (ss[0].userId == u) == matching then [ss[0]] else [];
      KeepMembers(ss[1..], StepsOwner, u, matching);
      OnePerDayConcat(head, Keep(ss[1..], StepsOwner, u, matching));
    }
  }

  /** The user's slice of a clash-free persisted list has distinct dates. */
  lemma SyncedDatesDistinct(s: Store)
    requires Synced(s) && SignedIn(s.userId)
    requires OnePerDay(Repository.Contents(s.storage.steps))
    ensures DatesDistinct(s.stepCounts)
  {
    OnePerDayKeep(Repository.Contents(s.storage.steps), s.userId.value, true);
    Repository.LoadOwned(s.storage.steps, StepsOwner, s.userId.value);
    assert forall i :: 0 <= i < |s.stepCounts| ==> s.stepCounts[i] in s.stepCounts;
  }

  /** The upsert keeps a user's step list at one record per day. */
  lemma UpsertKeepsDatesDistinct(ss: seq<StepCount>, amount: int, today: Date, u: UserId,
                                 freshId: RecordId, now: Timestamp)
    requires DatesDistinct(ss)
    ensures DatesDistinct(UpsertSteps(ss, amount, today, u, freshId, now))
  {
  }

  /** Save-merging a day-distinct slice owned by `u` into a clash-free list keeps it clash-free. */
  lemma SaveKeepsOnePerDay(all: seq<StepCount>, u: UserId, items: seq<StepCount>)
    requires OnePerDay(all) && DatesDistinct(items) && Repository.OwnedBy(items, StepsOwner, u)
    ensures OnePerDay(Repository.SaveMerge(Some(all), StepsOwner, u, items))
  {
    var others := Keep(all, StepsOwner, u, false);
    OnePerDayKeep(all, u, false);
    KeepMembers(all, StepsOwner, u, false);
    assert OnePerDay(items) by {
      forall i, j | 0 <= i < j < |items|
        ensures !Clash(items[i], items[j])
      {
        assert items[i].date != items[j].date;
      }
    }
    OnePerDayConcat(others, items);
  }

  /** Every operation keeps the persisted step list at one record per user and day. */
  lemma ApplyKeepsOnePerDay(s: Store, op: Op)
    requires Synced(s)
    requires OnePerDay(Repository.Contents(s.storage.steps))
    ensures OnePerDay(Repository.Contents(Apply(s, op).storage.steps))
  {
    if SignedIn(s.userId) && op.AddStepsOp? {
      var u := s.userId.value;
      var r := Apply(s, op);
      SyncedDatesDistinct(s);
      UpsertKeepsDatesDistinct(s.stepCounts, op.steps, op.today, u, op.freshId, op.now);
      StepsStayOwned(s, op);
      SaveKeepsOnePerDay(Repository.Contents(s.storage.steps), u, r.stepCounts);
    }
  }

  /** With distinct ids, raising the record with the id of `ss[i]` raises `ss[i]` alone. */
  lemma IncrementOnlyOne(ss: seq<StepCount>, i: nat, n: int)
    requires IdsDistinct(ss) && i < |ss|
    ensures IncrementSteps(ss, ss[i].id, n) == ss[i := ss[i].(steps := ss[i].steps + n)]
  {
    var r := IncrementSteps(ss, ss[i].id, n);
    var expected := ss[i := ss[i].(steps := ss[i].steps + n)];
    forall j | 0 <= j < |expected|
      ensures r[j] == expected[j]
    {
      if j < i {
        assert ss[j].id != ss[i].id;
      } else if j > i {
        assert ss[i].id != ss[j].id;
      }
    }
  }

  /** With distinct ids, `addSteps` on a day already logged raises that one
      record's count and leaves every other record as it was. */
  lemma AddStepsUpdatesOneRecord(ss: seq<StepCount>, amount: int, today: Date, u: UserId,
                                 freshId: RecordId, now: Timestamp, i: nat)
    requires FirstIndex(ss, StepsDate, today) == Some(i) && IdsDistinct(ss)
    ensures UpsertSteps(ss, amount, today, u, freshId, now) == ss[i := ss[i].(steps := ss[i].steps + amount)]
  {
    IncrementOnlyOne(ss, i, amount);
  }

  /** With a fresh id, the upsert keeps the ids of the user's step list distinct. */
  lemma UpsertKeepsIdsDistinct(ss: seq<StepCount>, amount: int, today: Date, u: UserId,
                               freshId: RecordId, now: Timestamp)
    requires IdsDistinct(ss)
    requires forall x :: x in ss ==> x.id != freshId
    ensures IdsDistinct(UpsertSteps(ss, amount, today, u, freshId, now))
  {
    var r := UpsertSteps(ss, amount, today, u, freshId, now);
    if HasDay(ss, today) {
      var i := FirstIndex(ss, StepsDate, today).value;
      assert r == IncrementSteps(ss, ss[i].id, amount);
    } else {
      forall i, j | 0 <= i < j < |r|
        ensures r[i].id != r[j].id
      {
        if j == |ss| {
          assert r[i] == ss[i] && ss[i] in ss;
        } else {
          assert r[i] == ss[i] && r[j] == ss[j];
        }
      }
    }
  }

  /** No record of `xs` is dated `d`, so none is kept. */
  lemma NoneOnDay(xs: seq<StepCount>, d: Date)
    requires forall k :: 0 <= k < |xs| ==> xs[k].date != d
    ensures Keep(xs, StepsDate, d, true) == []
  {
    KeepEmpty(xs, StepsDate, d, true);
  }

  /** A day-distinct list with a record for `d` has exactly one record for `d`. */
  lemma {:induction false} ExactlyOneOnDay(ss: seq<StepCount>, d: Date)
    requires DatesDistinct(ss) && HasDay(ss, d)
    ensures |Keep(ss, StepsDate, d, true)| == 1
  {
    var rest := ss[1..];
    assert DatesDistinct(rest) by {
      forall i, j | 0 <= i < j < |rest|
        ensures rest[i].date != rest[j].date
      {
        assert rest[i] == ss[i + 1] && rest[j] == ss[j + 1];
      }
    }
    if ss[0].date == d {
      assert forall k :: 0 <= k < |rest| ==> rest[k] == ss[k + 1];
      NoneOnDay(rest, d);
    } else {
      var i :| 0 <= i < |ss| && ss[i].date == d;
      assert rest[i - 1].date == d;
      ExactlyOneOnDay(rest, d);
    }
  }

  // ---------------------------------------------------------------------------
  // Statistics

  /** One more water record adds its amount to the day's total exactly when it
      is dated that day. */
  lemma TodayWaterAppend(ws: seq<WaterIntake>, w: WaterIntake, today: Date)
    ensures TodayWater(ws + [w], today) == TodayWater(ws, today) + (if w.date == today then w.amount else 0)
  {
    KeepAppend(ws, [w], WaterDate, today, true);
    KeepIdentity([w], WaterDate, today, true);
    KeepEmpty([w], WaterDate, today, true);
    var kept := Keep(ws, WaterDate, today, true);
    if w.date == today {
      assert Keep(ws + [w], WaterDate, today, true) == kept + [w];
      assert (kept + [w])[..|kept|] == kept;
    } else {
      assert Keep(ws + [w], WaterDate, today, true) == kept;
    }
  }

  /** One more record raises the day's count exactly when it is dated that day. */
  lemma CountOnDayAppend<T(!new)>(s: seq<T>, x: T, date: T -> Date, today: Date)
    ensures CountOnDay(s + [x], date, today) == CountOnDay(s, date, today) + (if date(x) == today then 1 else 0)
  {
    KeepAppend(s, [x], date, today, true);
    KeepIdentity([x], date, today, true);
    KeepEmpty([x], date, today, true);
  }

  /** The upsert raises the day's step total by exactly the amount logged, whether
      it updated the day's record or created it, and leaves a record for the day. */
  lemma UpsertRaisesTodaySteps(ss: seq<StepCount>, amount: int, today: Date, u: UserId,
                               freshId: RecordId, now: Timestamp)
    ensures TodaySteps(UpsertSteps(ss, amount, today, u, freshId, now), today) == TodaySteps(ss, today) + amount
    ensures HasDay(UpsertSteps(ss, amount, today, u, freshId, now), today)
  {
    var r := UpsertSteps(ss, amount, today, u, freshId, now);
    if HasDay(ss, today) {
      var i := FirstIndex(ss, StepsDate, today).value;
      assert forall j :: 0 <= j < i ==> r[j].date != today;
      assert r[i].date == today;
    } else {
      assert forall j :: 0 <= j < |ss| ==> r[j].date != today;
      assert r[|ss|].date == today;
    }
  }

  /** `addWaterIntake` raises today's water total by exactly the amount logged,
      even when today already has entries, and touches no other total. */
  lemma AddWaterRaisesTotal(s: Store, amount: int, today: Date, freshId: RecordId, now: Timestamp)
    ensures var before := GetStats(s, today);
      var after := GetStats(AddWaterIntake(s, amount, today, freshId, now), today);
      && after.totalWaterIntake == before.totalWaterIntake + (if SignedIn(s.userId) then amount else 0)
      && after.totalSteps == before.totalSteps
      && after.totalWorkouts == before.totalWorkouts
      && after.totalActivities == before.totalActivities
  {
    if SignedIn(s.userId) {
      var r := AddWaterIntake(s, amount, today, freshId, now);
      var added := r.waterIntakes[|s.waterIntakes|];
      assert r.waterIntakes == s.waterIntakes + [added];
      TodayWaterAppend(s.waterIntakes, added, today);
    }
  }

  /** `addSteps` raises today's step total by exactly the amount logged. */
  lemma AddStepsRaisesTotal(s: Store, steps: int, today: Date, freshId: RecordId, now: Timestamp)
    ensures GetStats(AddSteps(s, steps, today, freshId, now), today).totalSteps ==
            GetStats(s, today).totalSteps + (if SignedIn(s.userId) then steps else 0)
  {
    if SignedIn(s.userId) {
      UpsertRaisesTodaySteps(s.stepCounts, steps, today, s.userId.value, freshId, now);
    }
  }

  /** `addWorkout` counts towards today's total exactly when the workout is dated today. */
  lemma AddWorkoutCountsToday(s: Store, input: WorkoutInput, today: Date, freshId: RecordId, now: Timestamp)
    ensures GetStats(AddWorkout(s, input, freshId, now), today).totalWorkouts ==
            GetStats(s, today).totalWorkouts + (if SignedIn(s.userId) && input.date == today then 1 else 0)
  {
    if SignedIn(s.userId) {
      var r := AddWorkout(s, input, freshId, now);
      var added := r.workouts[|s.workouts|];
      assert r.workouts == s.workouts + [added];
      CountOnDayAppend(s.workouts, added, WorkoutDate, today);
    }
  }

  /** `addActivity` counts towards today's total exactly when the activity is dated today. */
  lemma AddActivityCountsToday(s: Store, input: ActivityInput, today: Date, freshId: RecordId, now: Timestamp)
    ensures GetStats(AddActivity(s, input, freshId, now), today).totalActivities ==
            GetStats(s, today).totalActivities + (if SignedIn(s.userId) && input.date == today then 1 else 0)
  {
    if SignedIn(s.userId) {
      var r := AddActivity(s, input, freshId, now);
      var added := r.activities[|s.activities|];
      assert r.activities == s.activities + [added];
      CountOnDayAppend(s.activities, added, ActivityDate, today);
    }
  }

  /** Total steps passed by the `addSteps` calls of `ops`. */
  function StepsLogged(ops: seq<Op>): int
  {
    if |ops| == 0 then 0
    else (if ops[0].AddStepsOp? then ops[0].steps else 0) + StepsLogged(ops[1..])
  }

  /** Total millilitres passed by the `addWaterIntake` calls of `ops`. */
  function WaterLogged(ops: seq<Op>): int
  {
    if |ops| == 0 then 0
    else (if ops[0].AddWaterOp? then ops[0].amount else 0) + WaterLogged(ops[1..])
  }

  /** One `addSteps` call on `today` raises today's steps by its amount, keeps
      the dates distinct and leaves a record for today. */
  lemma StepsStep(s: Store, op: Op, today: Date)
    requires SignedIn(s.userId) && DatesDistinct(s.stepCounts)
    requires op.AddStepsOp? && op.today == today
    ensures Apply(s, op).userId == s.userId
    ensures TodaySteps(Apply(s, op).stepCounts, today) == TodaySteps(s.stepCounts, today) + op.steps
    ensures DatesDistinct(Apply(s, op).stepCounts)
    ensures HasDay(Apply(s, op).stepCounts, today)
  {
    assert Apply(s, op).stepCounts == UpsertSteps(s.stepCounts, op.steps, today, s.userId.value, op.freshId, op.now);
    UpsertRaisesTodaySteps(s.stepCounts, op.steps, today, s.userId.value, op.freshId, op.now);
    UpsertKeepsDatesDistinct(s.stepCounts, op.steps, today, s.userId.value, op.freshId, op.now);
  }

  /** Any run of `addSteps` calls on one day keeps one record per day, leaves a
      record for that day, and raises today's step total by the sum of the amounts. */
  lemma {:induction false} StepsAccumulate(s: Store, ops: seq<Op>, today: Date)
    requires SignedIn(s.userId) && DatesDistinct(s.stepCounts)
    requires forall k :: 0 <= k < |ops| ==> ops[k].AddStepsOp? && ops[k].today == today
    ensures ApplyAll(s, ops).userId == s.userId
    ensures GetStats(ApplyAll(s, ops), today).totalSteps == GetStats(s, today).totalSteps + StepsLogged(ops)
    ensures DatesDistinct(ApplyAll(s, ops).stepCounts)
    ensures |ops| > 0 ==> HasDay(ApplyAll(s, ops).stepCounts, today)
    decreases |ops|
  {
    if |ops| > 0 {
      var r := Apply(s, ops[0]);
      StepsStep(s, ops[0], today);
      StepsAccumulate(r, ops[1..], today);
      assert ApplyAll(s, ops) == ApplyAll(r, ops[1..]);
    }
  }

  /** Any non-empty run of `addSteps` calls on one day leaves exactly one record for that day. */
  lemma OneRecordAfterSteps(s: Store, ops: seq<Op>, today: Date)
    requires SignedIn(s.userId) && DatesDistinct(s.stepCounts)
    requires forall k :: 0 <= k < |ops| ==> ops[k].AddStepsOp? && ops[k].today == today
    requires |ops| > 0
    ensures |Keep(ApplyAll(s, ops).stepCounts, StepsDate, today, true)| == 1
  {
    StepsAccumulate(s, ops, today);
    ExactlyOneOnDay(ApplyAll(s, ops).stepCounts, today);
  }

  /** Any run of `addWaterIntake` calls on one day adds one record per call, and
      today's water total has grown by the sum of the amounts logged. */
  lemma {:induction false} WaterAccumulate(s: Store, ops: seq<Op>, today: Date)
    requires SignedIn(s.userId)
    requires forall k :: 0 <= k < |ops| ==> ops[k].AddWaterOp? && ops[k].today == today
    ensures ApplyAll(s, ops).userId == s.userId
    ensures GetStats(ApplyAll(s, ops), today).totalWaterIntake ==
            GetStats(s, today).totalWaterIntake + WaterLogged(ops)
    ensures CountOnDay(ApplyAll(s, ops).waterIntakes, WaterDate, today) ==
            CountOnDay(s.waterIntakes, WaterDate, today) + |ops|
    decreases |ops|
  {
    if |ops| > 0 {
      var op := ops[0];
      var r := Apply(s, op);
      var added := r.waterIntakes[|s.waterIntakes|];
      assert r.waterIntakes == s.waterIntakes + [added];
      TodayWaterAppend(s.waterIntakes, added, today);
      CountOnDayAppend(s.waterIntakes, added, WaterDate, today);
      WaterAccumulate(r, ops[1..], today);
    }
  }
}
