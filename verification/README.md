# health-companion-hub, modelled in Dafny

health-companion-hub is a browser-only personal health tracker. This project
models its core:

- **The auth store** (`useAuth`). It keeps a directory of registered users, with
  plain-text passwords, and a session of zero or one user. Both live in the
  browser key-value store.
- **The health data store** (`useHealthData`). It keeps four per-user record
  collections: workouts, water intakes, daily step counts and activities.
  - Each collection is one shared list in the key-value store.
  - The store holds the signed-in user's slice of each list in memory.
  - Every mutation writes back with a *save-merge*: keep the other users'
    records and append the user's whole slice.
  - Today's totals come from the in-memory slices.
- **The page logic** of the sign-in page, the dashboard and the workouts page.
  This covers input guards, form resets, quick-add presets, the workout-type
  tally, the summary figures and the recent-records tables.

A state update plus the store write it triggers is one pure transition on
immutable values. The key-value store is a typed record with one
`Option<seq<T>>` per key; `None` stands for an absent key. Three things the
application obtains from the browser are parameters of the operations:

- the clock, as `today` and `now`;
- `crypto.randomUUID()`, as `freshId`;
- the `mode` query parameter.

Modules:

| module | file | contents |
|---|---|---|
| `Base` | base.dfy | `Option`, the filter `Keep`, the search `FirstIndex`, `Reverse`, `TakeLast` |
| `HealthTypes` | health_types.dfy | the record types of `src/types/health.ts` |
| `Repository` | repository.dfy | load-by-owner and save-merge over one stored list |
| `HealthData` | health_data.dfy | the health data store and `getStats` |
| `HealthDataProps` | health_props.dfy | properties across operations: ownership, isolation between users, reload, one step record per day, running totals |
| `Auth` | auth.dfy | the auth store |
| `AuthProps` | auth_props.dfy | properties across auth calls |
| `Dashboard` | dashboard.dfy | `src/pages/Dashboard.tsx` |
| `WorkoutsPage` | workouts_page.dfy | `src/pages/Workouts.tsx` |
| `AuthPage` | auth_page.dfy | `src/pages/Auth.tsx` |

Three points of the code shape the model:

- **Falsy user id on load.** The load effect returns early for a falsy
  `userId` and keeps the lists it already held. `HealthData.Reload` keeps
  them; only a fresh mount (`HealthData.Open`) starts from empty lists.
- **Empty-string user id.** JavaScript's `!userId` is also true for the empty
  string. `HealthData.SignedIn` therefore requires a present, non-empty id.
- **Which step record is raised.** `addSteps` looks up the first record dated
  today in the in-memory list, then raises every record that shares that
  record's id. `HealthData.UpsertSteps` does the same.
  `HealthDataProps.AddStepsUpdatesOneRecord` shows that this is exactly one
  record when ids are distinct.

## Model

| member | source | states |
|---|---|---|
| HealthTypes.WorkoutTypeEnumeration | src/types/health.ts:18 | the workout type is a closed set of exactly five values, each listed once |
| HealthTypes.ParseWorkoutType | src/types/health.ts:18 | only the five stored type names read back as a type, and each reads back as the type with that name |
| HealthTypes.WorkoutTypeNameRoundTrip | src/types/health.ts:18 | the stored name of every type reads back as that same type, so no two types share a name |
| Base.Keep | src/hooks/useHealthData.ts:23 | a filter never returns more elements than it is given |
| Base.KeepMembers | src/hooks/useHealthData.ts:23 | a filter keeps exactly the elements whose key matches (or, for the complementary filter, differs) |
| Base.KeepAppend | src/hooks/useHealthData.ts:127 | filtering distributes over concatenation, so a filter of an appended list is the old filter plus the new element if it matches |
| Base.KeepIdentity | src/hooks/useHealthData.ts:55 | a filter returns its input unchanged if and only if every element passes it |
| Base.KeepEmpty | src/hooks/useHealthData.ts:129 | a filter returns the empty list if and only if no element passes it |
| Base.KeepOtherKey | src/hooks/useHealthData.ts:35 | dropping user u's records and then selecting user v's gives the same records as selecting v's directly |
| Base.FirstIndex | src/hooks/useHealthData.ts:80 | `find` yields the first position whose key matches, and nothing exactly when no element matches |
| Base.FirstIndexAppend | src/hooks/useHealthData.ts:80 | appending an element never changes an existing first match; without one, the new element is the match if it matches |
| Base.Reverse | src/pages/Workouts.tsx:234 | the result has the same length and holds the elements in reverse order |
| Base.TakeLast | src/pages/Dashboard.tsx:312 | `slice(-n)` keeps the last min(n, length) elements in order |
| Repository.Load | src/hooks/useHealthData.ts:19-24 | an absent key loads as the empty list, and a load never returns more records than are stored |
| Repository.LoadMembers | src/hooks/useHealthData.ts:19-24 | a load returns exactly the stored records owned by the user |
| Repository.LoadOwned | src/hooks/useHealthData.ts:23 | every loaded record belongs to the user it was loaded for |
| Repository.SaveMerge | src/hooks/useHealthData.ts:32-37 | the written list ends with the user's items, in order |
| Repository.SaveMergeMembers | src/hooks/useHealthData.ts:32-37 | the written list holds exactly the other users' stored records and the given items |
| Repository.AppendOwned | src/hooks/useHealthData.ts:48 | appending a record that carries the user's id keeps the list wholly owned by the user |
| Repository.LoadAfterSaveMerge | src/hooks/useHealthData.ts:19-37 | loading a user's records straight after a save-merge of that user's items returns exactly those items |
| Repository.SaveMergeIsolation | src/hooks/useHealthData.ts:32-37 | a save-merge for one user leaves every other user's loaded records unchanged |
| Repository.SaveMergeKeepsOthers | src/hooks/useHealthData.ts:35-36 | the other users' stored records survive a save-merge in their original order |
| Repository.SaveMergeIdempotent | src/hooks/useHealthData.ts:32-37 | repeating the same save-merge writes the same list again |
| HealthData.Reload | src/hooks/useHealthData.ts:16-30 | for a signed-in id every in-memory list becomes that user's stored slice; for a falsy id the lists are kept and only the id changes |
| HealthData.Open | src/hooks/useHealthData.ts:10-30 | a freshly mounted store is in sync with storage, and has empty lists for a falsy id |
| HealthData.SignedIn | src/hooks/useHealthData.ts:17 | the falsy-id guard, repeated at the head of every store operation: the store acts only for a present, non-empty user id; an absent id and the empty string both count as signed out |
| HealthData.AddWorkout | src/hooks/useHealthData.ts:40-51 | signed in: the list gains exactly one new workout owned by the user, carrying the input fields, the fresh id and the timestamp, and storage is save-merged; signed out: nothing changes |
| HealthData.DeleteWorkout | src/hooks/useHealthData.ts:53-58 | signed in: the list becomes its filter by id, so exactly the workouts with the target id disappear and the survivors keep their order and multiplicity, and storage is save-merged; an absent id leaves the list unchanged; signed out: nothing changes |
| HealthData.AddWaterIntake | src/hooks/useHealthData.ts:61-74 | signed in: always one new record dated today, never merged with an earlier one, then save-merge; signed out: nothing changes |
| HealthData.IncrementSteps | src/hooks/useHealthData.ts:84-86 | the records with the given id gain the amount and every other record is untouched |
| HealthData.UpsertSteps | src/hooks/useHealthData.ts:80-96 | with a record dated today, the first such record gains the amount, no record with another id changes, and no date or owner changes; without one, exactly one new record for today is appended |
| HealthData.AddSteps | src/hooks/useHealthData.ts:77-99 | signed in: the in-memory steps are the day-keyed upsert and storage is save-merged; signed out: nothing changes; other collections are untouched |
| HealthData.AddActivity | src/hooks/useHealthData.ts:102-113 | signed in: one new activity owned by the user with the input fields, then save-merge; signed out: nothing changes |
| HealthData.DeleteActivity | src/hooks/useHealthData.ts:115-120 | signed in: the list becomes its filter by id, so exactly the activities with the target id disappear and the survivors keep their order and multiplicity, then save-merge; an absent id is a no-op; signed out: nothing changes |
| HealthData.SumAmounts | src/hooks/useHealthData.ts:128 | the sum of the amounts is never negative when no amount is |
| HealthData.TodaySteps | src/hooks/useHealthData.ts:125 | today's steps are those of the first record dated today, or 0 when there is none |
| HealthData.TodayWater | src/hooks/useHealthData.ts:126-128 | with no record dated today the water total is 0 |
| HealthData.CountOnDay | src/hooks/useHealthData.ts:129 | the count of records dated today never exceeds the list length, and is zero exactly when no record is dated today |
| HealthData.GetStats | src/hooks/useHealthData.ts:123-140 | the goals are 10000 steps, 2000 ml and one workout; the four totals are today's steps, workouts, water and activities |
| HealthDataProps.Apply | src/hooks/useHealthData.ts:40-120 | every mutation is a no-op when signed out, touches only its own collection, and writes that collection back by save-merge |
| HealthDataProps.SyncedOwned | src/hooks/useHealthData.ts:23 | while in sync with storage, every in-memory record belongs to the signed-in user |
| HealthDataProps.SaveKeepsSynced | src/hooks/useHealthData.ts:32-37 | writing an owned slice back by save-merge keeps memory and storage in sync |
| HealthDataProps.SaveIsolates | src/hooks/useHealthData.ts:32-37 | writing an owned slice back leaves every other user's view of storage unchanged |
| HealthDataProps.ApplyOwned | src/hooks/useHealthData.ts:40-120 | after any mutation the changed in-memory slice is still wholly owned by the user |
| HealthDataProps.ApplyKeepsSynced | src/hooks/useHealthData.ts:40-120 | every mutation keeps the in-memory lists equal to what a reload would produce |
| HealthDataProps.StepsStayOwned | src/hooks/useHealthData.ts:77-99 | raising or adding today's step record keeps every step record owned by the user |
| HealthDataProps.ApplyIsolates | src/hooks/useHealthData.ts:32-37 | no mutation changes another user's data in storage |
| HealthDataProps.ApplyAllIsolates | src/hooks/useHealthData.ts:32-37 | no sequence of mutations changes another user's data in storage, and memory stays in sync throughout |
| HealthDataProps.ReloadAfterOps | src/hooks/useHealthData.ts:16-37 | after any sequence of mutations, reloading from storage reproduces the in-memory state |
| HealthDataProps.DeleteIdempotent | src/hooks/useHealthData.ts:53-58 | deleting the same workout or activity id twice has the effect of deleting it once |
| HealthDataProps.DeleteAbsentIsNoop | src/hooks/useHealthData.ts:115-120 | deleting an id that no record carries changes neither the lists nor any user's stored data |
| HealthDataProps.OnePerDayConcat | src/hooks/useHealthData.ts:36 | the concatenation of two lists has at most one step record per (user, day) if and only if each part has and no two records across the parts clash |
| HealthDataProps.OnePerDayKeep | src/hooks/useHealthData.ts:35 | filtering by owner keeps the one-record-per-day property |
| HealthDataProps.SyncedDatesDistinct | src/hooks/useHealthData.ts:23 | when storage has one step record per (user, day), the loaded slice has pairwise distinct dates |
| HealthDataProps.UpsertKeepsDatesDistinct | src/hooks/useHealthData.ts:80-96 | the day-keyed upsert keeps the slice's dates pairwise distinct |
| HealthDataProps.SaveKeepsOnePerDay | src/hooks/useHealthData.ts:32-37 | save-merging an owned slice with distinct dates keeps storage at one step record per (user, day) |
| HealthDataProps.ApplyKeepsOnePerDay | src/hooks/useHealthData.ts:77-99 | no mutation breaks the one-step-record-per-(user, day) invariant of storage |
| HealthDataProps.IncrementOnlyOne | src/hooks/useHealthData.ts:84-86 | with distinct ids, the id-keyed map raises exactly one record |
| HealthDataProps.AddStepsUpdatesOneRecord | src/hooks/useHealthData.ts:80-86 | with distinct ids, logging steps on a day that has a record raises that one record in place |
| HealthDataProps.UpsertKeepsIdsDistinct | src/hooks/useHealthData.ts:80-96 | with a fresh id, the upsert keeps record ids distinct |
| HealthDataProps.NoneOnDay | src/hooks/useHealthData.ts:129 | with no record on a day, the day's filter is empty |
| HealthDataProps.ExactlyOneOnDay | src/hooks/useHealthData.ts:80 | with distinct dates and some record on a day, exactly one record carries that day |
| HealthDataProps.TodayWaterAppend | src/hooks/useHealthData.ts:126-128 | appending a water record raises today's total by its amount when dated today, and leaves it alone otherwise |
| HealthDataProps.CountOnDayAppend | src/hooks/useHealthData.ts:129 | appending a record raises today's count by one exactly when it is dated today |
| HealthDataProps.UpsertRaisesTodaySteps | src/hooks/useHealthData.ts:77-99 | the upsert raises today's steps by exactly the amount logged, and leaves a record for today |
| HealthDataProps.AddWaterRaisesTotal | src/hooks/useHealthData.ts:61-74 | logging water raises today's water total by the amount when signed in, and leaves it unchanged otherwise |
| HealthDataProps.AddStepsRaisesTotal | src/hooks/useHealthData.ts:77-99 | logging steps raises today's steps total by the amount when signed in, and leaves it unchanged otherwise |
| HealthDataProps.AddWorkoutCountsToday | src/hooks/useHealthData.ts:40-51 | adding a workout dated today raises today's workout count by one; any other date leaves it unchanged |
| HealthDataProps.AddActivityCountsToday | src/hooks/useHealthData.ts:102-113 | adding an activity dated today raises today's activity count by one; any other date leaves it unchanged |
| HealthDataProps.StepsStep | src/hooks/useHealthData.ts:77-99 | one step log on a signed-in store adds its steps to today's total, keeps dates distinct and leaves today with a record |
| HealthDataProps.StepsAccumulate | src/hooks/useHealthData.ts:77-99 | any number of step logs on one day add up: today's total grows by their sum, and dates stay distinct |
| HealthDataProps.OneRecordAfterSteps | src/hooks/useHealthData.ts:77-99 | after one or more step logs on a day there is exactly one step record for that day |
| HealthDataProps.WaterAccumulate | src/hooks/useHealthData.ts:61-74 | any number of water logs on one day add up in today's total, one new record each |
| Auth.WithoutPassword | src/hooks/useAuth.ts:26 | after a login, and likewise after a signup (line 54), the session user keeps the stored user's id, email, name and creation time and drops the password |
| Auth.Mount | src/hooks/useAuth.ts:8-9 | the hook starts with no user, still loading, and storage untouched |
| Auth.Restore | src/hooks/useAuth.ts:11-17 | after the restore effect loading is over; a stored session becomes the user, and without one the user is kept |
| Auth.Login | src/hooks/useAuth.ts:19-33 | success if and only if some entry has exactly this email and password; on success the first such entry, without its password, becomes both the user and the stored session; on failure nothing changes and the error is "Invalid email or password" |
| Auth.Signup | src/hooks/useAuth.ts:35-59 | a listed email is refused with "Email already registered" and nothing changes; otherwise one entry is appended to the directory and its password-free user becomes the user and the session |
| Auth.Logout | src/hooks/useAuth.ts:61-64 | the session is cleared in memory and storage whatever the state, and the directory is kept |
| Auth.IsAuthenticated | src/hooks/useAuth.ts:66 | a user is authenticated exactly when the hook holds a user |
| AuthProps.SignupKeepsEmailsUnique | src/hooks/useAuth.ts:39-41 | the directory never holds the same email twice |
| AuthProps.LoginKeepsSessionListed | src/hooks/useAuth.ts:19-33 | after a login the session is still a directory entry without its password |
| AuthProps.SignupKeepsSessionListed | src/hooks/useAuth.ts:35-59 | after a signup the session is still a directory entry without its password |
| AuthProps.LogoutIdempotent | src/hooks/useAuth.ts:61-64 | after a logout nobody is authenticated, and a second logout changes nothing |
| AuthProps.RestoreAfterLogin | src/hooks/useAuth.ts:11-33 | reopening the app after a login restores the same signed-in user |
| AuthProps.SignupThenLogin | src/hooks/useAuth.ts:19-59 | a new signup can log in at once with the same credentials, and the login signs in the user the signup created |
| AuthProps.SignupTwiceRefused | src/hooks/useAuth.ts:39-41 | a second signup with the same email is refused |
| AuthProps.AnnSession | src/hooks/useAuth.ts:11-64 | a worked sequence: signup, logout, a wrong password refused without any change, the right password accepted |
| AuthPage.InitialForm | src/pages/Auth.tsx:18-22 | the page starts in signup mode exactly when the mode parameter is "signup", with empty fields and not loading |
| AuthPage.ToggleMode | src/pages/Auth.tsx:141 | the link flips the mode and changes nothing else |
| AuthPage.ErrorText | src/pages/Auth.tsx:59 | the error toast's text is never empty; a non-empty store error is shown as given, and an absent or empty one falls back to "An error occurred" |
| AuthPage.HandleSubmit | src/pages/Auth.tsx:32-65 | an incomplete form calls nothing and raises "Please fill in all fields"; otherwise the auth state is exactly the result of signup (in signup mode) or login (in login mode); the page goes to the dashboard exactly when the email is new (signup) or the credentials are registered (login), and only when then signed in; a success toast reads "Account created!" / "Your account has been created successfully." or "Welcome back!" / "You have been logged in successfully." by mode; on a failure the auth state is unchanged, the toast is an error, and its text is "Email already registered" (signup) or "Invalid email or password" (login); loading is off at the end |
| AuthPage.Complete | src/pages/Auth.tsx:36 | the form is complete exactly when email and password are non-empty, and, in signup mode, the name too |
| AuthPage.ErrorToastIsKnown | src/pages/Auth.tsx:56-61 | every error toast shows one of the three concrete messages, never the fallback text |
| AuthPage.LoginIgnoresName | src/pages/Auth.tsx:36-48 | in login mode the name field has no effect on the submission |
| AuthPage.SignupThenSignIn | src/pages/Auth.tsx:32-65 | signing up with a new email, logging out and signing in with the same credentials returns the same user |
| Dashboard.Tally | src/pages/Dashboard.tsx:45-50 | a reducer step never drops or renames an entry, adds at most one, and leaves the workout's type with an entry |
| Dashboard.WorkoutTypeData | src/pages/Dashboard.tsx:44-52 | the pie never has more entries than there are workouts |
| Dashboard.ChartData | src/pages/Dashboard.tsx:49 | the pie's entries carry the stored type names: one per tally entry, each name reading back as that entry's type, with the same count |
| Dashboard.ChartNamesDistinct | src/pages/Dashboard.tsx:44-52 | no two pie entries carry the same name |
| Dashboard.Positive | src/pages/Dashboard.tsx:61-75 | a quick-add input passes exactly when it parses to a number above zero; an empty field (parsed as absent) fails |
| Dashboard.CountKindAppend | src/pages/Dashboard.tsx:44-52 | appending a workout raises its own type's count by one and leaves the other counts alone |
| Dashboard.PosAppend | src/pages/Dashboard.tsx:44-52 | appending a workout never moves the first appearance of a type already present |
| Dashboard.TotalUpdate | src/pages/Dashboard.tsx:47 | replacing one tally entry changes the sum of the values by the difference |
| Dashboard.TallyBump | src/pages/Dashboard.tsx:45-47 | raising the entry of a type already present keeps the tally correct for the longer list |
| Dashboard.TallyPush | src/pages/Dashboard.tsx:48-49 | pushing a new entry for an unseen type keeps the tally correct for the longer list |
| Dashboard.WorkoutTypeDataSpec | src/pages/Dashboard.tsx:44-52 | the pie has one entry per type present, in order of first appearance, each counting its type's workouts, values summing to the number of workouts; it is empty exactly when there are no workouts |
| Dashboard.HandleAddWater | src/pages/Dashboard.tsx:61-67 | a non-positive or empty amount changes nothing; otherwise the store's `addWaterIntake` is called with the amount, and today's water total grows by the amount when signed in; only water records change, and every new record has a positive amount |
| Dashboard.HandleAddSteps | src/pages/Dashboard.tsx:69-75 | a non-positive or empty count changes nothing; otherwise the store's `addSteps` is called with the count, and today's steps grow by the count when signed in; only step records change |
| Dashboard.QuickAddWater | src/pages/Dashboard.tsx:150-155 | a water preset button fills the input with the preset and touches no other field |
| Dashboard.QuickAddSteps | src/pages/Dashboard.tsx:184-189 | a steps preset button fills the input with the preset and touches no other field |
| Dashboard.QuickAddPassesGuard | src/pages/Dashboard.tsx:150-189 | every preset is positive, so a preset button logs exactly what typing the preset and pressing Add would |
| Dashboard.HandleAddActivity | src/pages/Dashboard.tsx:77-89 | without a name or a duration nothing changes; otherwise the store's `addActivity` is called with the name, an empty description, the duration and today; signed in, the earlier activities are kept and one activity with exactly those fields is appended, today's activity count rises by one, and the name clears while the duration resets to 30 |
| Dashboard.ActivitySubmitTwice | src/pages/Dashboard.tsx:77-89 | submitting the activity form twice logs one activity |
| Dashboard.InitialFormGuards | src/pages/Dashboard.tsx:38-41 | the initial water and steps inputs pass the add guards, while the initial activity form is refused until a name is typed |
| Dashboard.Recent | src/pages/Dashboard.tsx:312 | the recent table shows at most five records, the newest first |
| WorkoutsPage.TypeOptionsComplete | src/pages/Workouts.tsx:29-35 | the picker offers every workout type in declaration order under distinct labels |
| WorkoutsPage.TypeColor | src/pages/Workouts.tsx:85-94 | every type's badge sets a background class |
| WorkoutsPage.TypeColorInjective | src/pages/Workouts.tsx:85-94 | two types share a badge colour if and only if they are the same type |
| WorkoutsPage.ResetForm | src/pages/Workouts.tsx:70-74 | the reset form has an empty name, cardio, 30 minutes, today's date and a closed dialog |
| WorkoutsPage.HandleAddWorkout | src/pages/Workouts.tsx:48-75 | without a name or a duration nothing changes; otherwise the store's `addWorkout` is called with the form's fields; signed in, one workout carrying the form's name, type, duration and date is logged, and the form resets to an empty name, cardio, 30 minutes and today, with the dialog closed |
| WorkoutsPage.AddWorkoutSubmitTwice | src/pages/Workouts.tsx:48-75 | submitting the dialog twice logs one workout |
| WorkoutsPage.TotalMinutes | src/pages/Workouts.tsx:180 | the total minutes are never negative when no duration is |
| WorkoutsPage.TotalMinutesAppend | src/pages/Workouts.tsx:180 | one more workout adds exactly its duration to the total |
| WorkoutsPage.TotalMinutesConcat | src/pages/Workouts.tsx:180 | the total of two lists joined is the sum of their totals |
| WorkoutsPage.RoundDiv | src/pages/Workouts.tsx:196 | `Math.round(t / n)` is the integer nearest to t/n, with halves rounded up |
| WorkoutsPage.Summarize | src/pages/Workouts.tsx:173-196 | the total is the number of workouts; the minutes are the sum of the durations; today's count is at most that and zero exactly when none is dated today; with no workouts minutes and average are 0, otherwise the average is the rounded minutes per workout |
| WorkoutsPage.TodayMatchesStats | src/pages/Workouts.tsx:188 | the page's "Today" figure equals the dashboard's workout count for the same day |
| WorkoutsPage.TotalMinutesBounds | src/pages/Workouts.tsx:180 | when every duration is in [lo, hi], the total lies between count·lo and count·hi |
| WorkoutsPage.RoundWithin | src/pages/Workouts.tsx:196 | rounding a quotient that lies in [lo, hi] stays in [lo, hi] |
| WorkoutsPage.AverageWithinBounds | src/pages/Workouts.tsx:196 | the average duration lies between the shortest and the longest workout |
| WorkoutsPage.AddWorkoutUpdatesSummary | src/pages/Workouts.tsx:48-75 | adding a workout raises the total by one, the minutes by its duration, and today's count by one exactly when it is dated that day |
| WorkoutsPage.History | src/pages/Workouts.tsx:234 | the history lists every workout exactly as stored, newest first |

## Left out

- React scheduling: the effects, state batching and stale callback closures. Each
  operation reads the latest state.
- The key-value store's string encoding. JSON serialisation and parsing are
  replaced by typed `Option` fields, so a corrupt stored value cannot be
  represented.
- `parseInt`: a number field is modelled as an already-parsed `Option<int>`,
  with `None` for an empty field. Partial parses such as `"12abc"` and a
  non-empty field that parses to `NaN` are not represented.
- Floating point. The goal percentages and `toFixed`/`toLocaleString`
  formatting are left out. The average duration is modelled exactly with
  integer arithmetic.
- Rendering: charts, toasts' display, the dialog's visuals, navigation, and
  the redirect of an authenticated visitor on the sign-in page
  (`src/pages/Auth.tsx:25-30`). Toasts are modelled only in `AuthPage`:
  `AuthPage.HandleSubmit` states each toast's title and text. The dashboard and
  workouts toasts are left out.
- `handleDeleteWorkout` (`src/pages/Workouts.tsx:77-83`) is `deleteWorkout`
  plus a toast. It is covered by `HealthData.DeleteWorkout`.
- Several browser tabs sharing one store. Each operation sees the store as the
  previous one left it.
- Password hashing, which the application does not do. Passwords are compared
  as plain strings, as in the code.
- The static pages (home, resources, tutorials, about), the navigation bar and
  the stat card, which hold no store logic.
- Clocks and identifiers: `new Date()` and `crypto.randomUUID()` are
  parameters. Uniqueness of a fresh id is a precondition where a property
  needs it (`HealthDataProps.UpsertKeepsIdsDistinct`).
- Base.Keep: states only that a filter never grows its input. What it keeps is
  stated by `Base.KeepMembers`.
- Repository.Load: states only the absent-key case and a length bound. The
  records it returns are stated by `Repository.LoadMembers`.
- Repository.SaveMerge: states only that the items end the written list. Its
  contents are stated by `Repository.SaveMergeMembers`, and the other users'
  part by `Repository.SaveMergeKeepsOthers`.
- HealthData.SumAmounts: states only that non-negative amounts sum to a
  non-negative total. The running sum is stated by `HealthDataProps.TodayWaterAppend`.
- WorkoutsPage.TotalMinutes: states only that non-negative durations give a
  non-negative total. The running sum is stated by `WorkoutsPage.TotalMinutesAppend`.
- Dashboard.Tally and Dashboard.WorkoutTypeData: state only how the entries grow.
  What the finished pie holds is stated by `Dashboard.WorkoutTypeDataSpec`.
- WorkoutsPage.TypeColor: states only that every badge sets a background. That
  the colours tell the types apart is stated by `WorkoutsPage.TypeColorInjective`.
- AuthPage.Complete, Dashboard.Positive and HealthData.SignedIn: predicates with no
  contract of their own. `AuthPage.HandleSubmit`, the dashboard's add handlers and
  every store operation state what follows when each holds or fails.
- Auth.IsAuthenticated: a predicate with no contract of its own; `AuthProps.LogoutIdempotent`
  and `AuthPage.HandleSubmit` state when it holds.
- HealthData.CountOnDay: states only the bound and the zero case. How appending
  changes the count is stated by `HealthDataProps.CountOnDayAppend`.
- HealthData.TodayWater: states only the no-record case. How appending changes
  the total is stated by `HealthDataProps.TodayWaterAppend`.
