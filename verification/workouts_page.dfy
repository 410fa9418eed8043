/** The logic of the workouts page (`src/pages/Workouts.tsx`): the add-workout
    guard and form reset, the type picker and its colours, and the four summary
    figures above the history table. */
module WorkoutsPage {
  import opened Base
  import opened HealthTypes
  import opened HealthData
  import HealthDataProps

  // ---------------------------------------------------------------------------
  // Type picker

  /** `workoutTypes`: the picker's options, as (value, label). */
  const TypeOptions: seq<(WorkoutType, string)> :=
    [(Cardio, "Cardio"), (Strength, "Strength"), (Flexibility, "Flexibility"),
     (Sports, "Sports"), (Other, "Other")]

  /** The picker offers the workout types in declaration order, under distinct
      labels; with `WorkoutTypeEnumeration` that is every type exactly once. */
  lemma TypeOptionsComplete()
    ensures |TypeOptions| == |AllWorkoutTypes|
    ensures forall i :: 0 <= i < |TypeOptions| ==> TypeOptions[i].0 == AllWorkoutTypes[i]
    ensures forall i, j :: 0 <= i < j < |TypeOptions| ==> TypeOptions[i].1 != TypeOptions[j].1
  {
  }

  /** `getTypeColor`: the badge classes for a type; every one sets a background. */
  function TypeColor(t: WorkoutType): (c: string)
    ensures |c| > 3 && c[..3] == "bg-"
  {
    match t
    case Cardio => "bg-chart-1/20 text-chart-1"
    case Strength => "bg-chart-2/20 text-chart-2"
    case Flexibility => "bg-chart-3/20 text-chart-3"
    case Sports => "bg-chart-4/20 text-chart-4"
    case Other => "bg-muted text-muted-foreground"
  }

  /** Every type has a colour of its own. */
  lemma TypeColorInjective(t: WorkoutType, u: WorkoutType)
    ensures TypeColor(t) == TypeColor(u) <==> t == u
  {
    if t != u {
      match t
      case Cardio => assert TypeColor(t)[9] == '1';
      case Strength => assert TypeColor(t)[9] == '2';
      case Flexibility => assert TypeColor(t)[9] == '3';
      case Sports => assert TypeColor(t)[9] == '4';
      case Other => assert TypeColor(t)[3] == 'm';
    }
  }

  // ---------------------------------------------------------------------------
  // Add-workout dialog

  /** The dialog's form: name, type, duration (an already-parsed number field,
      `None` when empty), date, and whether the dialog is open. */
  datatype WorkoutForm = WorkoutForm(name: string, kind: WorkoutType, duration: Option<int>,
                                     date: Date, dialogOpen: bool)

  /** The form after a successful add: cleared name, cardio, 30 minutes, today,
      dialog closed. */
  function ResetForm(today: Date): (f: WorkoutForm)
    ensures f.name == "" && f.kind == Cardio && f.duration == Some(30)
    ensures f.date == today && !f.dialogOpen
  {
    WorkoutForm("", Cardio, Some(30), today, false)
  }

  /** `handleAddWorkout`: with a name and a duration, log the workout and reset
      the form; otherwise change nothing (the page shows an error toast). */
  function HandleAddWorkout(f: WorkoutForm, s: Store, today: Date, freshId: RecordId,
                            now: Timestamp): (r: (WorkoutForm, Store))
    ensures f.name == "" || f.duration.None? ==> r == (f, s)
    ensures f.name != "" && f.duration.Some? ==>
      r.1 == AddWorkout(s, WorkoutInput(f.name, f.kind, f.duration.value, f.date), freshId, now)
    ensures f.name != "" && f.duration.Some? ==>
      && r.0 == ResetForm(today) && !r.0.dialogOpen
      && OnlyChanged(s, r.1, Workouts)
      && (SignedIn(s.userId) ==>
            && |r.1.workouts| == |s.workouts| + 1
            && r.1.workouts[..|s.workouts|] == s.workouts
            && var w := r.1.workouts[|s.workouts|];
               w.name == f.name && w.kind == f.kind && w.duration == f.duration.value && w.date == f.date)
  {
    if f.name == "" || f.duration.None? then (f, s)
    else
      (ResetForm(today), AddWorkout(s, WorkoutInput(f.name, f.kind, f.duration.value, f.date), freshId, now))
  }

  /** Submitting the dialog twice logs one workout: the reset clears the name, so
      the second submission is refused. */
  lemma AddWorkoutSubmitTwice(f: WorkoutForm, s: Store, today: Date, freshId: RecordId, now: Timestamp,
                              today2: Date, freshId2: RecordId, now2: Timestamp)
    ensures var r := HandleAddWorkout(f, s, today, freshId, now);
      HandleAddWorkout(r.0, r.1, today2, freshId2, now2) == r
  {
  }

  // ---------------------------------------------------------------------------
  // Summary figures

  /** No workout has a negative duration. */
  predicate NoNegativeDuration(ws: seq<Workout>)
  {
    forall i :: 0 <= i < |ws| ==> ws[i].duration >= 0
  }

  /** `workouts.reduce((sum, w) => sum + w.duration, 0)`, a left fold. */
  function TotalMinutes(ws: seq<Workout>): (m: int)
    ensures NoNegativeDuration(ws) ==> m >= 0
  {
    if |ws| == 0 then 0 else TotalMinutes(ws[..|ws| - 1]) + ws[|ws| - 1].duration
  }

  /** One more workout adds its duration to the total, whatever came before. */
  lemma {:induction false} TotalMinutesAppend(ws: seq<Workout>, w: Workout)
    ensures TotalMinutes(ws + [w]) == TotalMinutes(ws) + w.duration
  {
    assert (ws + [w])[..|ws|] == ws;
  }

  /** The total of a concatenation is the sum of the totals of its parts. */
  lemma {:induction false} TotalMinutesConcat(a: seq<Workout>, b: seq<Workout>)
    ensures TotalMinutes(a + b) == TotalMinutes(a) + TotalMinutes(b)
    decreases |b|
  {
    if |b| == 0 {
      assert a + b == a;
    } else {
      var init := b[..|b| - 1];
      assert a + b == (a + init) + [b[|b| - 1]];
      assert b == init + [b[|b| - 1]];
      TotalMinutesAppend(a + init, b[|b| - 1]);
      TotalMinutesAppend(init, b[|b| - 1]);
      TotalMinutesConcat(a, init);
    }
  }

  /** `Math.round(t / n)` for a positive `n`: the nearest integer, halves rounded
      up (towards positive infinity, also for negative `t`). */
  function RoundDiv(t: int, n: int): (r: int)
    requires n > 0
    ensures 2 * (n * r) - n <= 2 * t < 2 * (n * r) + n
  {
    var q := (2 * t + n) / (2 * n);
    assert (2 * n) * q <= 2 * t + n < (2 * n) * q + 2 * n;
    assert (2 * n) * q == 2 * (n * q);
    q
  }

  /** The four figures: total workouts, total minutes, workouts today, average duration. */
  datatype Summary = Summary(total: nat, minutes: int, today: nat, average: int)

  /** The summary cards, computed from the in-memory workout list. */
  function Summarize(ws: seq<Workout>, today: Date): (r: Summary)
    ensures r.total == |ws|
    ensures r.minutes == TotalMinutes(ws)
    ensures r.today <= |ws| && (r.today == 0 <==> forall w :: w in ws ==> w.date != today)
    ensures |ws| == 0 ==> r.minutes == 0 && r.average == 0
    ensures |ws| > 0 ==> 2 * (|ws| * r.average) - |ws| <= 2 * r.minutes < 2 * (|ws| * r.average) + |ws|
  {
    var minutes := TotalMinutes(ws);
    Summary(|ws|, minutes, CountOnDay(ws, WorkoutDate, today),
            if |ws| > 0 then RoundDiv(minutes, |ws|) else 0)
  }

  /** The "Today" card and the dashboard's workout count agree. */
  lemma TodayMatchesStats(s: Store, today: Date)
    ensures Summarize(s.workouts, today).today == GetStats(s, today).totalWorkouts
  {
  }

  /** When every duration lies in `[lo, hi]`, so does the total divided by the count. */
  lemma {:induction false} TotalMinutesBounds(ws: seq<Workout>, lo: int, hi: int)
    requires forall i :: 0 <= i < |ws| ==> lo <= ws[i].duration <= hi
    ensures |ws| * lo <= TotalMinutes(ws) <= |ws| * hi
    decreases |ws|
  {
    if |ws| > 0 {
      var n := |ws| - 1;
      TotalMinutesBounds(ws[..n], lo, hi);
      BoundsStep(n, lo, hi, TotalMinutes(ws[..n]), ws[n].duration);
    }
  }

  /** Adding one value in `[lo, hi]` to a total of `n` such values. */
  lemma BoundsStep(n: int, lo: int, hi: int, t: int, d: int)
    requires n * lo <= t <= n * hi && lo <= d <= hi
    ensures (n + 1) * lo <= t + d <= (n + 1) * hi
  {
    assert (n + 1) * lo == n * lo + lo && (n + 1) * hi == n * hi + hi;
  }

  /** Multiplying by a non-negative number keeps order. */
  lemma MulMonotonic(n: int, x: int, y: int)
    requires n >= 0 && x <= y
    ensures n * x <= n * y
  {
    assert n * y - n * x == n * (y - x);
  }

  /** A rounding of `t / n` lies in `[lo, hi]` when `t / n` does. */
  lemma RoundWithin(t: int, n: int, a: int, lo: int, hi: int)
    requires n > 0 && n * lo <= t <= n * hi
    requires 2 * (n * a) - n <= 2 * t < 2 * (n * a) + n
    ensures lo <= a <= hi
  {
    assert n * (lo - 1) == n * lo - n && n * (hi + 1) == n * hi + n;
    if a < lo {
      MulMonotonic(n, a, lo - 1);
    }
    if a > hi {
      MulMonotonic(n, hi + 1, a);
    }
  }

  /** The rounded average duration lies between the shortest and the longest workout. */
  lemma AverageWithinBounds(ws: seq<Workout>, today: Date, lo: int, hi: int)
    requires |ws| > 0
    requires forall i :: 0 <= i < |ws| ==> lo <= ws[i].duration <= hi
    ensures lo <= Summarize(ws, today).average <= hi
  {
    var r := Summarize(ws, today);
    TotalMinutesBounds(ws, lo, hi);
    RoundWithin(r.minutes, |ws|, r.average, lo, hi);
  }

  /** Adding a workout through the dialog raises the total by one and the minutes
      by the workout's duration. */
  lemma AddWorkoutUpdatesSummary(f: WorkoutForm, s: Store, today: Date, freshId: RecordId,
                                 now: Timestamp, day: Date)
    requires SignedIn(s.userId) && f.name != "" && f.duration.Some?
    ensures var before := Summarize(s.workouts, day);
      var after := Summarize(HandleAddWorkout(f, s, today, freshId, now).1.workouts, day);
      && after.total == before.total + 1
      && after.minutes == before.minutes + f.duration.value
      && after.today == before.today + (if f.date == day then 1 else 0)
  {
    var r := HandleAddWorkout(f, s, today, freshId, now).1;
    var input := WorkoutInput(f.name, f.kind, f.duration.value, f.date);
    assert r == AddWorkout(s, input, freshId, now);
    assert r.workouts[..|r.workouts| - 1] == s.workouts;
    HealthDataProps.AddWorkoutCountsToday(s, input, day, freshId, now);
  }

  /** `workouts.slice().reverse()`: every workout, newest first. */
  function History(ws: seq<Workout>): (r: seq<Workout>)
    ensures |r| == |ws|
    ensures forall i :: 0 <= i < |ws| ==> r[i] == ws[|ws| - 1 - i]
    ensures forall w :: w in r <==> w in ws
  {
    var r := Reverse(ws);
    assert forall i :: 0 <= i < |ws| ==> ws[i] == r[|ws| - 1 - i];
    r
  }
}
