/** The health data store (`useHealthData` in `src/hooks/useHealthData.ts`).

    The hook keeps the signed-in user's slice of four persisted collections in
    memory. Every mutation updates that slice and then save-merges it into the
    shared persisted list, which holds the records of all users. A React state
    update plus a `localStorage` write is modelled as one pure transition
    `Store -> Store`. The clock (`new Date()`) and `crypto.randomUUID()` are
    parameters: `today`, `now` and `freshId`. */
module HealthData {
  import opened Base
  import opened HealthTypes
  import Repository

  /** Goal constants reported by `getStats`. */
  const StepsGoal: int := 10000
  const WaterGoal: int := 2000
  const WorkoutsGoal: int := 1

  /** The four persisted keys (`health_tracker_workouts`, `health_tracker_water`,
      `health_tracker_steps`, `health_tracker_activities`); `None` is an absent key. */
  datatype Storage = Storage(workouts: Option<seq<Workout>>, water: Option<seq<WaterIntake>>,
                             steps: Option<seq<StepCount>>, activities: Option<seq<Activity>>)

  /** The hook's state: the user it was called with, its four in-memory lists and
      the persisted storage it reads and writes. */
  datatype Store = Store(userId: Option<UserId>, workouts: seq<Workout>,
                         waterIntakes: seq<WaterIntake>, stepCounts: seq<StepCount>,
                         activities: seq<Activity>, storage: Storage)

  /** `Omit<Workout, 'id' | 'userId' | 'createdAt'>` */
  datatype WorkoutInput = WorkoutInput(name: string, kind: WorkoutType, duration: int, date: Date)

  /** `Omit<Activity, 'id' | 'userId' | 'createdAt'>` */
  datatype ActivityInput = ActivityInput(name: string, description: string, duration: int, date: Date)

  datatype Collection = Workouts | Water | Steps | Activities

  /** The `if (!userId) return;` guard: an absent user id and the empty string are both falsy. */
  predicate SignedIn(userId: Option<UserId>)
  {
    userId.Some? && userId.value != ""
  }

  /** The in-memory lists are exactly what loading the user's records from storage gives. */
  predicate Synced(s: Store)
  {
    SignedIn(s.userId) ==>
      var u := s.userId.value;
      && s.workouts == Repository.Load(s.storage.workouts, WorkoutOwner, u)
      && s.waterIntakes == Repository.Load(s.storage.water, WaterOwner, u)
      && s.stepCounts == Repository.Load(s.storage.steps, StepsOwner, u)
      && s.activities == Repository.Load(s.storage.activities, ActivityOwner, u)
  }

  /** The user id is kept and only collection `c`, in memory and in storage, may differ. */
  predicate OnlyChanged(s: Store, r: Store, c: Collection)
  {
    && r.userId == s.userId
    && (c != Workouts ==> r.workouts == s.workouts && r.storage.workouts == s.storage.workouts)
    && (c != Water ==> r.waterIntakes == s.waterIntakes && r.storage.water == s.storage.water)
    && (c != Steps ==> r.stepCounts == s.stepCounts && r.storage.steps == s.storage.steps)
    && (c != Activities ==> r.activities == s.activities && r.storage.activities == s.storage.activities)
  }

  /** The in-memory list of collection `c`, as far as ownership is concerned: every
      record in it belongs to the signed-in user. */
  predicate SliceOwned(s: Store, c: Collection)
  {
    SignedIn(s.userId) &&
    var u := s.userId.value;
    match c
    case Workouts => Repository.OwnedBy(s.workouts, WorkoutOwner, u)
    case Water => Repository.OwnedBy(s.waterIntakes, WaterOwner, u)
    case Steps => Repository.OwnedBy(s.stepCounts, StepsOwner, u)
    case Activities => Repository.OwnedBy(s.activities, ActivityOwner, u)
  }

  /** `saveToStorage`: collection `c` of `r`'s storage is `s`'s stored list with the
      signed-in user's records replaced by `r`'s in-memory list. */
  predicate SavedFrom(s: Store, r: Store, c: Collection)
  {
    SignedIn(s.userId) &&
    var u := s.userId.value;
    match c
    case Workouts =>
      r.storage.workouts == Some(Repository.SaveMerge(s.storage.workouts, WorkoutOwner, u, r.workouts))
    case Water =>
      r.storage.water == Some(Repository.SaveMerge(s.storage.water, WaterOwner, u, r.waterIntakes))
    case Steps =>
      r.storage.steps == Some(Repository.SaveMerge(s.storage.steps, StepsOwner, u, r.stepCounts))
    case Activities =>
      r.storage.activities == Some(Repository.SaveMerge(s.storage.activities, ActivityOwner, u, r.activities))
  }

  /** The load effect, run when the hook sees `userId`: for a signed-in user every
      list becomes that user's stored records; for a falsy id the effect returns
      early and the previous lists stay as they were. */
  function Reload(s: Store, userId: Option<UserId>): (r: Store)
    ensures r.userId == userId && r.storage == s.storage
    ensures SignedIn(userId) ==> Synced(r)
    ensures !SignedIn(userId) ==>
      r.workouts == s.workouts && r.waterIntakes == s.waterIntakes
      && r.stepCounts == s.stepCounts && r.activities == s.activities
  {
    if !SignedIn(userId) then s.(userId := userId)
    else
      var u := userId.value;
      Store(userId,
            Repository.Load(s.storage.workouts, WorkoutOwner, u),
            Repository.Load(s.storage.water, WaterOwner, u),
            Repository.Load(s.storage.steps, StepsOwner, u),
            Repository.Load(s.storage.activities, ActivityOwner, u),
            s.storage)
  }

  /** The hook on mount: empty lists, then the load effect. */
  function Open(userId: Option<UserId>, storage: Storage): (r: Store)
    ensures r.userId == userId && r.storage == storage && Synced(r)
    ensures !SignedIn(userId) ==>
      r.workouts == [] && r.waterIntakes == [] && r.stepCounts == [] && r.activities == []
  {
    Reload(Store(None, [], [], [], [], storage), userId)
  }

  /** `addWorkout`: append one record owned by the user, then save-merge. */
  function AddWorkout(s: Store, input: WorkoutInput, freshId: RecordId, now: Timestamp): (r: Store)
    ensures !SignedIn(s.userId) ==> r == s
    ensures SignedIn(s.userId) ==>
      && |r.workouts| == |s.workouts| + 1
      && r.workouts[..|s.workouts|] == s.workouts
      && r.workouts[|s.workouts|] ==
           Workout(freshId, s.userId.value, input.name, input.kind, input.duration, input.date, now)
    ensures SignedIn(s.userId) ==> SavedFrom(s, r, Workouts)
    ensures OnlyChanged(s, r, Workouts)
  {
    if !SignedIn(s.userId) then s
    else
      var u := s.userId.value;
      var updated := s.workouts + [Workout(freshId, u, input.name, input.kind, input.duration, input.date, now)];
      s.(workouts := updated,
         storage := s.storage.(workouts := Some(Repository.SaveMerge(s.storage.workouts, WorkoutOwner, u, updated))))
  }

  /** `deleteWorkout`: drop every record with the given id, then save-merge. */
  function DeleteWorkout(s: Store, target: RecordId): (r: Store)
    ensures !SignedIn(s.userId) ==> r == s
    ensures SignedIn(s.userId) ==> r.workouts == Keep(s.workouts, WorkoutId, target, false)
    ensures SignedIn(s.userId) ==> forall w :: w in r.workouts <==> w in s.workouts && w.id != target
    ensures (forall w :: w in s.workouts ==> w.id != target) ==> r.workouts == s.workouts
    ensures SignedIn(s.userId) ==> SavedFrom(s, r, Workouts)
    ensures OnlyChanged(s, r, Workouts)
  {
    if !SignedIn(s.userId) then s
    else
      var u := s.userId.value;
      var updated := Keep(s.workouts, WorkoutId, target, false);
      KeepMembers(s.workouts, WorkoutId, target, false);
      KeepIdentity(s.workouts, WorkoutId, target, false);
      s.(workouts := updated,
         storage := s.storage.(workouts := Some(Repository.SaveMerge(s.storage.workouts, WorkoutOwner, u, updated))))
  }

  /** `addWaterIntake`: always a new record dated today, never merged with earlier ones. */
  function AddWaterIntake(s: Store, amount: int, today: Date, freshId: RecordId, now: Timestamp): (r: Store)
    ensures !SignedIn(s.userId) ==> r == s
    ensures SignedIn(s.userId) ==>
      && |r.waterIntakes| == |s.waterIntakes| + 1
      && r.waterIntakes[..|s.waterIntakes|] == s.waterIntakes
      && r.waterIntakes[|s.waterIntakes|] == WaterIntake(freshId, s.userId.value, amount, today, now)
    ensures SignedIn(s.userId) ==> SavedFrom(s, r, Water)
    ensures OnlyChanged(s, r, Water)
  {
    if !SignedIn(s.userId) then s
    else
      var u := s.userId.value;
      var updated := s.waterIntakes + [WaterIntake(freshId, u, amount, today, now)];
      s.(waterIntakes := updated,
         storage := s.storage.(water := Some(Repository.SaveMerge(s.storage.water, WaterOwner, u, updated))))
  }

  /** `stepCounts.map(...)`: raise `steps` of every record carrying `id`. */
  function IncrementSteps(ss: seq<StepCount>, id: RecordId, n: int): (r: seq<StepCount>)
    ensures |r| == |ss|
    ensures forall i :: 0 <= i < |ss| ==>
      r[i] == if ss[i].id == id then ss[i].(steps := ss[i].steps + n) else ss[i]
  {
    seq(|ss|, i requires 0 <= i < |ss| => if ss[i].id == id then ss[i].(steps := ss[i].steps + n) else ss[i])
  }

  /** Some record of `ss` is dated `d`. */
  predicate HasDay(ss: seq<StepCount>, d: Date)
  {
    exists i :: 0 <= i < |ss| && ss[i].date == d
  }

  /** The list `addSteps` computes: an upsert keyed by the day. When a record
      dated `today` exists, the first one (and any record sharing its id) gains
      `amount`; otherwise a new record dated `today` is appended. */
  function UpsertSteps(ss: seq<StepCount>, amount: int, today: Date, u: UserId,
                       freshId: RecordId, now: Timestamp): (r: seq<StepCount>)
    ensures HasDay(ss, today) ==>
      var i := FirstIndex(ss, StepsDate, today).value;
      && |r| == |ss|
      && r[i] == ss[i].(steps := ss[i].steps + amount)
      && (forall j :: 0 <= j < |ss| && ss[j].id != ss[i].id ==> r[j] == ss[j])
      && (forall j :: 0 <= j < |ss| ==> r[j].date == ss[j].date && r[j].userId == ss[j].userId)
    ensures !HasDay(ss, today) ==>
      && |r| == |ss| + 1
      && r[..|ss|] == ss
      && r[|ss|] == StepCount(freshId, u, amount, today, now)
  {
    match FirstIndex(ss, StepsDate, today)
    case Some(i) => IncrementSteps(ss, ss[i].id, amount)
    case None => ss + [StepCount(freshId, u, amount, today, now)]
  }

  /** `addSteps`: upsert today's record in memory, then save-merge. */
  function AddSteps(s: Store, steps: int, today: Date, freshId: RecordId, now: Timestamp): (r: Store)
    ensures !SignedIn(s.userId) ==> r == s
    ensures SignedIn(s.userId) ==>
      && r.stepCounts == UpsertSteps(s.stepCounts, steps, today, s.userId.value, freshId, now)
      && SavedFrom(s, r, Steps)
    ensures OnlyChanged(s, r, Steps)
  {
    if !SignedIn(s.userId) then s
    else
      var u := s.userId.value;
      var updated := UpsertSteps(s.stepCounts, steps, today, u, freshId, now);
      s.(stepCounts := updated,
         storage := s.storage.(steps := Some(Repository.SaveMerge(s.storage.steps, StepsOwner, u, updated))))
  }

  /** `addActivity`: append one record owned by the user, then save-merge. */
  function AddActivity(s: Store, input: ActivityInput, freshId: RecordId, now: Timestamp): (r: Store)
    ensures !SignedIn(s.userId) ==> r == s
    ensures SignedIn(s.userId) ==>
      && |r.activities| == |s.activities| + 1
      && r.activities[..|s.activities|] == s.activities
      && r.activities[|s.activities|] ==
           Activity(freshId, s.userId.value, input.name, input.description, input.duration, input.date, now)
    ensures SignedIn(s.userId) ==> SavedFrom(s, r, Activities)
    ensures OnlyChanged(s, r, Activities)
  {
    if !SignedIn(s.userId) then s
    else
      var u := s.userId.value;
      var updated := s.activities + [Activity(freshId, u, input.name, input.description, input.duration, input.date, now)];
      s.(activities := updated,
         storage := s.storage.(activities := Some(Repository.SaveMerge(s.storage.activities, ActivityOwner, u, updated))))
  }

  /** `deleteActivity`: drop every record with the given id, then save-merge. */
  function DeleteActivity(s: Store, target: RecordId): (r: Store)
    ensures !SignedIn(s.userId) ==> r == s
    ensures SignedIn(s.userId) ==> r.activities == Keep(s.activities, ActivityId, target, false)
    ensures SignedIn(s.userId) ==> forall a :: a in r.activities <==> a in s.activities && a.id != target
    ensures (forall a :: a in s.activities ==> a.id != target) ==> r.activities == s.activities
    ensures SignedIn(s.userId) ==> SavedFrom(s, r, Activities)
    ensures OnlyChanged(s, r, Activities)
  {
    if !SignedIn(s.userId) then s
    else
      var u := s.userId.value;
      var updated := Keep(s.activities, ActivityId, target, false);
      KeepMembers(s.activities, ActivityId, target, false);
      KeepIdentity(s.activities, ActivityId, target, false);
      s.(activities := updated,
         storage := s.storage.(activities := Some(Repository.SaveMerge(s.storage.activities, ActivityOwner, u, updated))))
  }

  /** `reduce((sum, w) => sum + w.amount, 0)`, a left fold. */
  function SumAmounts(ws: seq<WaterIntake>): (n: int)
    ensures (forall i :: 0 <= i < |ws| ==> ws[i].amount >= 0) ==> n >= 0
  {
    if |ws| == 0 then 0 else SumAmounts(ws[..|ws| - 1]) + ws[|ws| - 1].amount
  }

  /** `stepCounts.find(s => s.date === today)?.steps || 0`: the steps of the first
      record dated `today`, or 0 when there is none. */
  function TodaySteps(ss: seq<StepCount>, today: Date): (n: int)
    ensures !HasDay(ss, today) ==> n == 0
    ensures forall i :: (0 <= i < |ss| && ss[i].date == today
                         && forall j :: 0 <= j < i ==> ss[j].date != today) ==> n == ss[i].steps
  {
    match FirstIndex(ss, StepsDate, today)
    case Some(i) => ss[i].steps
    case None => 0
  }

  /** The summed amounts of the water records dated `today`. */
  function TodayWater(ws: seq<WaterIntake>, today: Date): (n: int)
    ensures (forall w :: w in ws ==> w.date != today) ==> n == 0
  {
    KeepEmpty(ws, WaterDate, today, true);
    SumAmounts(Keep(ws, WaterDate, today, true))
  }

  /** `filter(x => x.date === today).length`. */
  function CountOnDay<T(==,!new)>(s: seq<T>, date: T -> Date, today: Date): (n: nat)
    ensures n <= |s|
    ensures n == 0 <==> forall x :: x in s ==> date(x) != today
  {
    KeepEmpty(s, date, today, true);
    |Keep(s, date, today, true)|
  }

  /** `getStats`: today's totals from the in-memory lists, and the three goals. */
  function GetStats(s: Store, today: Date): (r: HealthStats)
    ensures r.stepsGoal == 10000 && r.waterGoal == 2000 && r.workoutsGoal == 1
    ensures r.totalSteps == TodaySteps(s.stepCounts, today)
    ensures r.totalWaterIntake == TodayWater(s.waterIntakes, today)
    ensures r.totalWorkouts == CountOnDay(s.workouts, WorkoutDate, today)
    ensures r.totalActivities == CountOnDay(s.activities, ActivityDate, today)
  {
    HealthStats(TodaySteps(s.stepCounts, today),
                CountOnDay(s.workouts, WorkoutDate, today),
                TodayWater(s.waterIntakes, today),
                CountOnDay(s.activities, ActivityDate, today),
                StepsGoal, WaterGoal, WorkoutsGoal)
  }
}
