/** The record shapes of the health tracker (`src/types/health.ts`). Identifiers,
    ISO calendar days and ISO timestamps are opaque strings that the application
    only ever compares for equality. */
module HealthTypes {
  import opened Base

  type UserId = string
  type RecordId = string
  /** An ISO calendar day, `YYYY-MM-DD`. */
  type Date = string
  /** An ISO date-time, as produced by `Date.prototype.toISOString`. */
  type Timestamp = string

  /** The user as the rest of the application sees it: there is no password field. */
  datatype User = User(id: RecordId, email: string, name: string, createdAt: Timestamp)

  datatype WorkoutType = Cardio | Strength | Flexibility | Sports | Other

  /** The TypeScript field `type` is called `kind` here (`type` is a keyword). */
  datatype Workout = Workout(id: RecordId, userId: UserId, name: string, kind: WorkoutType,
                             duration: int, date: Date, createdAt: Timestamp)

  datatype WaterIntake = WaterIntake(id: RecordId, userId: UserId, amount: int, date: Date,
                                     createdAt: Timestamp)

  datatype StepCount = StepCount(id: RecordId, userId: UserId, steps: int, date: Date,
                                 createdAt: Timestamp)

  datatype Activity = Activity(id: RecordId, userId: UserId, name: string, description: string,
                               duration: int, date: Date, createdAt: Timestamp)

  /** Four of today's totals and three goals. */
  datatype HealthStats = HealthStats(totalSteps: int, totalWorkouts: nat, totalWaterIntake: int,
                                     totalActivities: nat, stepsGoal: int, waterGoal: int,
                                     workoutsGoal: int)

  /** Every value of `WorkoutType`, in declaration order. */
  const AllWorkoutTypes: seq<WorkoutType> := [Cardio, Strength, Flexibility, Sports, Other]

  /** The five `WorkoutType` values are exactly the entries of `AllWorkoutTypes`, each once. */
  lemma WorkoutTypeEnumeration()
    ensures |AllWorkoutTypes| == 5
    ensures forall t: WorkoutType :: t in AllWorkoutTypes
    ensures forall i, j :: 0 <= i < j < |AllWorkoutTypes| ==> AllWorkoutTypes[i] != AllWorkoutTypes[j]
  {
    forall t: WorkoutType
      ensures t in AllWorkoutTypes
    {
      match t
      case Cardio => assert AllWorkoutTypes[0] == t;
      case Strength => assert AllWorkoutTypes[1] == t;
      case Flexibility => assert AllWorkoutTypes[2] == t;
      case Sports => assert AllWorkoutTypes[3] == t;
      case Other => assert AllWorkoutTypes[4] == t;
    }
  }

  /** The string a workout type is stored as. */
  function WorkoutTypeName(t: WorkoutType): string
  {
    match t
    case Cardio => "cardio"
    case Strength => "strength"
    case Flexibility => "flexibility"
    case Sports => "sports"
    case Other => "other"
  }

  /** Reads a stored type string back; only the five names are accepted. */
  function ParseWorkoutType(s: string): (r: Option<WorkoutType>)
    ensures r.Some? ==> WorkoutTypeName(r.value) == s
  {
    if s == "cardio" then Some(Cardio)
    else if s == "strength" then Some(Strength)
    else if s == "flexibility" then Some(Flexibility)
    else if s == "sports" then Some(Sports)
    else if s == "other" then Some(Other)
    else None
  }

  /** The stored name of a type reads back as that type, so no two types share a name. */
  lemma WorkoutTypeNameRoundTrip(t: WorkoutType)
    ensures ParseWorkoutType(WorkoutTypeName(t)) == Some(t)
  {
  }

  // Field accessors, passed to the generic list operations of `Base` and `Repository`.
  function WorkoutOwner(w: Workout): UserId { w.userId }
  function WorkoutId(w: Workout): RecordId { w.id }
  function WorkoutDate(w: Workout): Date { w.date }
  function WorkoutKind(w: Workout): WorkoutType { w.kind }
  function WaterOwner(w: WaterIntake): UserId { w.userId }
  function WaterDate(w: WaterIntake): Date { w.date }
  function StepsOwner(s: StepCount): UserId { s.userId }
  function StepsDate(s: StepCount): Date { s.date }
  function ActivityOwner(a: Activity): UserId { a.userId }
  function ActivityId(a: Activity): RecordId { a.id }
  function ActivityDate(a: Activity): Date { a.date }
}
