/** The logic of the dashboard page (`src/pages/Dashboard.tsx`): the workout
    pie's group-by-type reducer, the quick-add handlers and their guards, and
    the "last five, newest first" tables. Form fields of `type="number"` are
    kept as already-parsed optional integers: `None` is an empty field, for
    which `parseInt` gives `NaN`. */
module Dashboard {
  import opened Base
  import opened HealthTypes
  import opened HealthData
  import HealthDataProps

  // ---------------------------------------------------------------------------
  // Workout distribution pie

  /** One pie entry, `{ name: workout.type, value }`. */
  datatype TypeSlice = TypeSlice(name: WorkoutType, value: nat)

  function SliceName(e: TypeSlice): WorkoutType { e.name }

  /** The reducer step: bump the entry for the workout's type, or push a new
      entry with value 1. A step never drops or renames an entry, adds at most
      one, and leaves the workout's type with an entry. */
  function Tally(acc: seq<TypeSlice>, w: Workout): (r: seq<TypeSlice>)
    ensures |acc| <= |r| <= |acc| + 1
    ensures forall j :: 0 <= j < |acc| ==> r[j].name == acc[j].name
    ensures HasEntry(r, w.kind)
  {
    match FirstIndex(acc, SliceName, w.kind)
    case Some(i) =>
      var r := acc[i := acc[i].(value := acc[i].value + 1)];
      assert r[i].name == w.kind;
      r
    case None =>
      var r := acc + [TypeSlice(w.kind, 1)];
      assert r[|acc|].name == w.kind;
      r
  }

  /** `workoutTypeData`: `workouts.reduce(Tally, [])`, a left fold. There are
      never more entries than workouts. */
  function WorkoutTypeData(ws: seq<Workout>): (r: seq<TypeSlice>)
    ensures |r| <= |ws|
  {
    if |ws| == 0 then [] else Tally(WorkoutTypeData(ws[..|ws| - 1]), ws[|ws| - 1])
  }

  /** The number of workouts of type `t`. */
  function CountKind(ws: seq<Workout>, t: WorkoutType): nat
  {
    |Keep(ws, WorkoutKind, t, true)|
  }

  /** The index of the first workout of type `t`, or `|ws|` when there is none. */
  function Pos(ws: seq<Workout>, t: WorkoutType): nat
  {
    match FirstIndex(ws, WorkoutKind, t)
    case Some(i) => i
    case None => |ws|
  }

  /** The sum of the entries' values. */
  function Total(acc: seq<TypeSlice>): nat
  {
    if |acc| == 0 then 0 else Total(acc[..|acc| - 1]) + acc[|acc| - 1].value
  }

  predicate NamesDistinct(acc: seq<TypeSlice>)
  {
    forall i, j :: 0 <= i < j < |acc| ==> acc[i].name != acc[j].name
  }

  /** Each entry's value is the number of workouts of its type. */
  predicate Counted(acc: seq<TypeSlice>, ws: seq<Workout>)
  {
    forall i :: 0 <= i < |acc| ==> acc[i].value == CountKind(ws, acc[i].name)
  }

  /** Some entry is for type `t`. */
  predicate HasEntry(acc: seq<TypeSlice>, t: WorkoutType)
  {
    exists i :: 0 <= i < |acc| && acc[i].name == t
  }

  /** Each workout's type has an entry. */
  predicate Covers(acc: seq<TypeSlice>, ws: seq<Workout>)
  {
    forall k :: 0 <= k < |ws| ==> HasEntry(acc, ws[k].kind)
  }

  /** Each entry's type occurs among the workouts, and the entries are in the
      order in which their types first occur. */
  predicate FirstSeenOrder(acc: seq<TypeSlice>, ws: seq<Workout>)
  {
    && (forall i :: 0 <= i < |acc| ==> Pos(ws, acc[i].name) < |ws|)
    && (forall i, j :: 0 <= i < j < |acc| ==> Pos(ws, acc[i].name) < Pos(ws, acc[j].name))
  }

  /** `acc` is the pie for `ws`: one entry per type present, in order of first
      appearance, each counting its type, together counting every workout. */
  predicate TallyOf(acc: seq<TypeSlice>, ws: seq<Workout>)
  {
    && NamesDistinct(acc) && Counted(acc, ws) && Covers(acc, ws) && FirstSeenOrder(acc, ws)
    && Total(acc) == |ws|
  }

  /** One more workout adds one to its own type's count and leaves the others. */
  lemma CountKindAppend(ws: seq<Workout>, w: Workout, t: WorkoutType)
    ensures CountKind(ws + [w], t) == CountKind(ws, t) + (if w.kind == t then 1 else 0)
  {
    KeepAppend(ws, [w], WorkoutKind, t, true);
    KeepIdentity([w], WorkoutKind, t, true);
    KeepEmpty([w], WorkoutKind, t, true);
  }

  /** One more workout moves no first occurrence; it becomes the first occurrence
      of its type when the type is new. */
  lemma PosAppend(ws: seq<Workout>, w: Workout, t: WorkoutType)
    ensures Pos(ws + [w], t) ==
      if Pos(ws, t) < |ws| then Pos(ws, t) else if w.kind == t then |ws| else |ws| + 1
  {
    FirstIndexAppend(ws, w, WorkoutKind, t);
  }

  /** Raising one entry raises the total by the same amount. */
  lemma {:induction false} TotalUpdate(acc: seq<TypeSlice>, i: nat, e: TypeSlice)
    requires i < |acc|
    ensures Total(acc[i := e]) + acc[i].value == Total(acc) + e.value
    decreases |acc|
  {
    var n := |acc| - 1;
    if i < n {
      assert acc[i := e][..n] == acc[..n][i := e];
      TotalUpdate(acc[..n], i, e);
    } else {
      assert acc[i := e][..n] == acc[..n];
    }
  }

  /** Bumping entry `i`, of the workout's type, keeps every entry counting its type. */
  lemma BumpCounted(acc: seq<TypeSlice>, ws: seq<Workout>, w: Workout, i: nat)
    requires Counted(acc, ws) && NamesDistinct(acc) && i < |acc| && acc[i].name == w.kind
    ensures Counted(acc[i := acc[i].(value := acc[i].value + 1)], ws + [w])
  {
    forall j | 0 <= j < |acc|
      ensures CountKind(ws + [w], acc[j].name) == CountKind(ws, acc[j].name) + (if j == i then 1 else 0)
    {
      CountKindAppend(ws, w, acc[j].name);
    }
  }

  /** Bumping an entry keeps every type covered, the new workout's included. */
  lemma BumpCovers(acc: seq<TypeSlice>, ws: seq<Workout>, w: Workout, i: nat)
    requires Covers(acc, ws) && i < |acc| && acc[i].name == w.kind
    ensures Covers(acc[i := acc[i].(value := acc[i].value + 1)], ws + [w])
  {
    var r := acc[i := acc[i].(value := acc[i].value + 1)];
    var ws' := ws + [w];
    forall k | 0 <= k < |ws'|
      ensures HasEntry(r, ws'[k].kind)
    {
      if k < |ws| {
        assert ws'[k] == ws[k];
        var j :| 0 <= j < |acc| && acc[j].name == ws[k].kind;
        assert r[j].name == ws'[k].kind;
      } else {
        assert r[i].name == ws'[k].kind;
      }
    }
  }

  /** A workout of a type already present moves no first occurrence. */
  lemma BumpOrder(acc: seq<TypeSlice>, ws: seq<Workout>, w: Workout, i: nat)
    requires FirstSeenOrder(acc, ws) && i < |acc|
    ensures FirstSeenOrder(acc[i := acc[i].(value := acc[i].value + 1)], ws + [w])
  {
    forall j | 0 <= j < |acc|
      ensures Pos(ws + [w], acc[j].name) == Pos(ws, acc[j].name)
    {
      PosAppend(ws, w, acc[j].name);
    }
  }

  /** The reducer step when the workout's type already has entry `i`. */
  lemma TallyBump(acc: seq<TypeSlice>, ws: seq<Workout>, w: Workout, i: nat)
    requires TallyOf(acc, ws)
    requires FirstIndex(acc, SliceName, w.kind) == Some(i)
    ensures TallyOf(Tally(acc, w), ws + [w])
  {
    var r := acc[i := acc[i].(value := acc[i].value + 1)];
    assert Tally(acc, w) == r;
    TotalUpdate(acc, i, r[i]);
    BumpCounted(acc, ws, w, i);
    BumpCovers(acc, ws, w, i);
    BumpOrder(acc, ws, w, i);
  }

  /** A new entry for a type absent from `ws` counts its single workout. */
  lemma PushCounted(acc: seq<TypeSlice>, ws: seq<Workout>, w: Workout)
    requires Counted(acc, ws)
    requires forall j :: 0 <= j < |acc| ==> acc[j].name != w.kind
    requires forall k :: 0 <= k < |ws| ==> ws[k].kind != w.kind
    ensures Counted(acc + [TypeSlice(w.kind, 1)], ws + [w])
  {
    var r := acc + [TypeSlice(w.kind, 1)];
    assert forall x :: x in ws ==> x.kind != w.kind;
    forall j | 0 <= j < |r|
      ensures r[j].value == CountKind(ws + [w], r[j].name)
    {
      CountKindAppend(ws, w, r[j].name);
      if j == |acc| {
        KeepEmpty(ws, WorkoutKind, w.kind, true);
      }
    }
  }

  /** A new entry keeps every type covered, the new workout's included. */
  lemma PushCovers(acc: seq<TypeSlice>, ws: seq<Workout>, w: Workout)
    requires Covers(acc, ws)
    ensures Covers(acc + [TypeSlice(w.kind, 1)], ws + [w])
  {
    var r := acc + [TypeSlice(w.kind, 1)];
    var ws' := ws + [w];
    forall k | 0 <= k < |ws'|
      ensures HasEntry(r, ws'[k].kind)
    {
      if k < |ws| {
        assert ws'[k] == ws[k];
        var j :| 0 <= j < |acc| && acc[j].name == ws[k].kind;
        assert r[j].name == ws'[k].kind;
      } else {
        assert r[|acc|].name == ws'[k].kind;
      }
    }
  }

  /** A new type's first occurrence is the new workout, after every earlier one. */
  lemma PushOrder(acc: seq<TypeSlice>, ws: seq<Workout>, w: Workout)
    requires FirstSeenOrder(acc, ws)
    requires forall k :: 0 <= k < |ws| ==> ws[k].kind != w.kind
    ensures FirstSeenOrder(acc + [TypeSlice(w.kind, 1)], ws + [w])
  {
    var r := acc + [TypeSlice(w.kind, 1)];
    forall j | 0 <= j < |r|
      ensures Pos(ws + [w], r[j].name) == if j < |acc| then Pos(ws, r[j].name) else |ws|
    {
      PosAppend(ws, w, r[j].name);
    }
  }

  /** The reducer step when the workout's type has no entry yet. */
  lemma TallyPush(acc: seq<TypeSlice>, ws: seq<Workout>, w: Workout)
    requires TallyOf(acc, ws)
    requires FirstIndex(acc, SliceName, w.kind).None?
    ensures TallyOf(Tally(acc, w), ws + [w])
  {
    var r := acc + [TypeSlice(w.kind, 1)];
    assert r[..|acc|] == acc;
    assert forall k :: 0 <= k < |ws| ==> ws[k].kind != w.kind by {
      forall k | 0 <= k < |ws|
        ensures ws[k].kind != w.kind
      {
        var j :| 0 <= j < |acc| && acc[j].name == ws[k].kind;
        assert SliceName(acc[j]) != w.kind;
      }
    }
    PushCounted(acc, ws, w);
    PushCovers(acc, ws, w);
    PushOrder(acc, ws, w);
  }

  /** The pie has one entry per workout type present, in order of first
      appearance; each entry counts the workouts of its type; the values add up
      to the number of workouts; and the pie is empty exactly when there are no
      workouts, which is when the page shows "No workouts logged yet". */
  lemma {:induction false} WorkoutTypeDataSpec(ws: seq<Workout>)
    ensures TallyOf(WorkoutTypeData(ws), ws)
    ensures |WorkoutTypeData(ws)| == 0 <==> |ws| == 0
    decreases |ws|
  {
    if |ws| > 0 {
      var init, w := ws[..|ws| - 1], ws[|ws| - 1];
      assert ws == init + [w];
      WorkoutTypeDataSpec(init);
      var acc := WorkoutTypeData(init);
      match FirstIndex(acc, SliceName, w.kind)
      case Some(i) => TallyBump(acc, init, w, i);
      case None => TallyPush(acc, init, w);
      var r := WorkoutTypeData(ws);
      assert ws[0] == ws[0];
      var j :| 0 <= j < |r| && r[j].name == ws[0].kind;
    }
  }

  /** The pie's data as the chart receives it: each entry's type under its stored
      name (`{ name: workout.type, value }`). */
  function ChartData(ws: seq<Workout>): (r: seq<(string, nat)>)
    ensures |r| == |WorkoutTypeData(ws)|
    ensures forall i :: 0 <= i < |r| ==> ParseWorkoutType(r[i].0) == Some(WorkoutTypeData(ws)[i].name)
    ensures forall i :: 0 <= i < |r| ==> r[i].1 == WorkoutTypeData(ws)[i].value
  {
    var acc := WorkoutTypeData(ws);
    forall i | 0 <= i < |acc| {
      WorkoutTypeNameRoundTrip(acc[i].name);
    }
    seq(|acc|, i requires 0 <= i < |acc| => (WorkoutTypeName(acc[i].name), acc[i].value))
  }

  /** The chart's labels are pairwise distinct, so no two slices share a name. */
  lemma ChartNamesDistinct(ws: seq<Workout>)
    ensures var r := ChartData(ws);
      forall i, j :: 0 <= i < j < |r| ==> r[i].0 != r[j].0
  {
    WorkoutTypeDataSpec(ws);
    var acc := WorkoutTypeData(ws);
    var r := ChartData(ws);
    forall i, j | 0 <= i < j < |r|
      ensures r[i].0 != r[j].0
    {
      assert acc[i].name != acc[j].name;
      assert ParseWorkoutType(r[i].0) != ParseWorkoutType(r[j].0);
    }
  }

  // ---------------------------------------------------------------------------
  // Quick-add handlers

  /** The page's form state: the water and steps inputs, the activity name and
      the activity duration. */
  datatype DashboardForm = DashboardForm(waterAmount: Option<int>, stepsAmount: Option<int>,
                                         activityName: string, activityDuration: Option<int>)

  /** `useState('250')`, `useState('1000')`, `useState('')`, `useState('30')` */
  const InitialForm: DashboardForm := DashboardForm(Some(250), Some(1000), "", Some(30))

  const WaterPresets: seq<int> := [250, 500, 750]
  const StepsPresets: seq<int> := [1000, 2500, 5000]

  /** `parseInt(field) > 0`: an empty field parses to `NaN`, which fails. */
  predicate Positive(x: Option<int>)
  {
    x.Some? && x.value > 0
  }

  /** `handleAddWater`: log the typed amount only when it is positive. */
  function HandleAddWater(f: DashboardForm, s: Store, today: Date, freshId: RecordId, now: Timestamp): (r: Store)
    ensures !Positive(f.waterAmount) ==> r == s
    ensures Positive(f.waterAmount) ==> r == AddWaterIntake(s, f.waterAmount.value, today, freshId, now)
    ensures OnlyChanged(s, r, Water)
    ensures GetStats(r, today).totalWaterIntake ==
      GetStats(s, today).totalWaterIntake + (if Positive(f.waterAmount) && SignedIn(s.userId) then f.waterAmount.value else 0)
    ensures forall k :: |s.waterIntakes| <= k < |r.waterIntakes| ==> r.waterIntakes[k].amount > 0
  {
    if Positive(f.waterAmount) then
      HealthDataProps.AddWaterRaisesTotal(s, f.waterAmount.value, today, freshId, now);
      AddWaterIntake(s, f.waterAmount.value, today, freshId, now)
    else s
  }

  /** `handleAddSteps`: log the typed count only when it is positive. */
  function HandleAddSteps(f: DashboardForm, s: Store, today: Date, freshId: RecordId, now: Timestamp): (r: Store)
    ensures !Positive(f.stepsAmount) ==> r == s
    ensures Positive(f.stepsAmount) ==> r == AddSteps(s, f.stepsAmount.value, today, freshId, now)
    ensures OnlyChanged(s, r, Steps)
    ensures GetStats(r, today).totalSteps ==
      GetStats(s, today).totalSteps + (if Positive(f.stepsAmount) && SignedIn(s.userId) then f.stepsAmount.value else 0)
  {
    if Positive(f.stepsAmount) then
      HealthDataProps.AddStepsRaisesTotal(s, f.stepsAmount.value, today, freshId, now);
      AddSteps(s, f.stepsAmount.value, today, freshId, now)
    else s
  }

  /** A water preset button: fill the input with the preset and log it. */
  function QuickAddWater(f: DashboardForm, s: Store, preset: nat, today: Date, freshId: RecordId,
                         now: Timestamp): (r: (DashboardForm, Store))
    requires preset < |WaterPresets|
    ensures r.0.waterAmount == Some(WaterPresets[preset])
    ensures r.0 == f.(waterAmount := r.0.waterAmount)
  {
    var amount := WaterPresets[preset];
    (f.(waterAmount := Some(amount)), AddWaterIntake(s, amount, today, freshId, now))
  }

  /** A steps preset button: fill the input with the preset and log it. */
  function QuickAddSteps(f: DashboardForm, s: Store, preset: nat, today: Date, freshId: RecordId,
                         now: Timestamp): (r: (DashboardForm, Store))
    requires preset < |StepsPresets|
    ensures r.0.stepsAmount == Some(StepsPresets[preset])
    ensures r.0 == f.(stepsAmount := r.0.stepsAmount)
  {
    var steps := StepsPresets[preset];
    (f.(stepsAmount := Some(steps)), AddSteps(s, steps, today, freshId, now))
  }

  /** Every preset passes the handlers' guard, so a preset button does exactly what
      typing the preset and pressing the add button does: no caller of the store
      passes a non-positive amount. */
  lemma QuickAddPassesGuard(f: DashboardForm, s: Store, preset: nat, today: Date, freshId: RecordId, now: Timestamp)
    requires preset < 3
    ensures var (f1, s1) := QuickAddWater(f, s, preset, today, freshId, now);
      Positive(f1.waterAmount) && s1 == HandleAddWater(f1, s, today, freshId, now)
    ensures var (f2, s2) := QuickAddSteps(f, s, preset, today, freshId, now);
      Positive(f2.stepsAmount) && s2 == HandleAddSteps(f2, s, today, freshId, now)
  {
  }

  /** `handleAddActivity`: with a name and a duration, log an activity dated today
      with an empty description, then clear the name and reset the duration to 30. */
  function HandleAddActivity(f: DashboardForm, s: Store, today: Date, freshId: RecordId,
                             now: Timestamp): (r: (DashboardForm, Store))
    ensures f.activityName == "" || f.activityDuration.None? ==> r == (f, s)
    ensures f.activityName != "" && f.activityDuration.Some? ==>
      r.1 == AddActivity(s, ActivityInput(f.activityName, "", f.activityDuration.value, today), freshId, now)
    ensures f.activityName != "" && f.activityDuration.Some? ==>
      && r.0 == f.(activityName := "", activityDuration := Some(30))
      && OnlyChanged(s, r.1, Activities)
      && (SignedIn(s.userId) ==>
            && |r.1.activities| == |s.activities| + 1
            && r.1.activities[..|s.activities|] == s.activities
            && r.1.activities[|s.activities|].duration == f.activityDuration.value
            && r.1.activities[|s.activities|].description == ""
            && r.1.activities[|s.activities|].date == today
            && r.1.activities[|s.activities|].name == f.activityName
            && GetStats(r.1, today).totalActivities == GetStats(s, today).totalActivities + 1)
  {
    if f.activityName != "" && f.activityDuration.Some? then
      var input := ActivityInput(f.activityName, "", f.activityDuration.value, today);
      HealthDataProps.AddActivityCountsToday(s, input, today, freshId, now);
      (f.(activityName := "", activityDuration := Some(30)), AddActivity(s, input, freshId, now))
    else (f, s)
  }

  /** Submitting the activity form twice logs one activity: the first submission
      clears the name, so the second is refused by the guard. */
  lemma ActivitySubmitTwice(f: DashboardForm, s: Store, today: Date, freshId: RecordId, now: Timestamp,
                            freshId2: RecordId, now2: Timestamp)
    ensures var r := HandleAddActivity(f, s, today, freshId, now);
      HandleAddActivity(r.0, r.1, today, freshId2, now2) == r
  {
  }

  /** The form as first rendered: the water and steps inputs are ready to log,
      while the activity form is refused until a name is typed. */
  lemma InitialFormGuards(s: Store, today: Date, freshId: RecordId, now: Timestamp)
    ensures Positive(InitialForm.waterAmount) && Positive(InitialForm.stepsAmount)
    ensures HandleAddActivity(InitialForm, s, today, freshId, now) == (InitialForm, s)
  {
  }

  // ---------------------------------------------------------------------------
  // Recent tables

  /** `slice(-5).reverse()`: at most the last five records, newest first. */
  function Recent<T>(s: seq<T>): (r: seq<T>)
    ensures |r| == if |s| < 5 then |s| else 5
    ensures forall i :: 0 <= i < |r| ==> r[i] == s[|s| - 1 - i]
  {
    Reverse(TakeLast(s, 5))
  }
}
