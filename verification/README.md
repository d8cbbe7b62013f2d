# A verified model of the status monitor

This project models the parts of the monitor whose mistakes would be expensive: the guard that decides when real
credentials may be presented, the tables that are recomputed from a pruned log, the public rate limiter, the two login
walks, and the algebra that turns thousands of samples into one coloured row.

`dafny verify dfyconfig.toml` checks everything.

| file | what it holds |
|---|---|
| `Options.dfy`, `Arith.dfy`, `Clock.dfy` | missing values, sign rules, time |
| `States.dfy`, `Store.dfy` | states and their join, the tables and the effect of each statement |
| `BreakerLaw.dfy` | the breaker record and what it means in terms of the outcomes behind it |
| `Guard.dfy`, `GuardInvariant.dfy`, `GuardTheorems.dfy` | the lockout guard as a concurrent, restartable machine: its steps, what each keeps, and what every run obeys |
| `GuardReadings.dfy` | what the guard must find in the tables, and that no attempt was made without it |
| `Schedule.dfy` | boot sweep, tickers, restarts and their faults on top of the guard: spacing and headroom |
| `ScheduleExact.dfy` | what the cadence starts and when, and the least ceiling it leaves alone |
| `GuardRuns.dfy`, `ScheduleRuns.dfy` | stretches of a guarded run and of a check's life in the program's own cadence |
| `ScheduleFaults.dfy`, `GuardLimits.dfy` | the runs that show where the promises of the schedule and of the guard end |
| `History.dfy`, `HistoryLimits.dfy` | samples, rollups and prunes in any order: what the derived tables hold, and exactly when they are safe |
| `Ticks.dfy` | a maintenance tick: what it leaves of every row, and what the readers get from it |
| `Repository.dfy`, `Scheduler.dfy` | the store and the scheduler as the program runs them, each proved to be a run of those machines |
| `Forms.dfy`, `Login.dfy`, `Account.dfy` | forms, the two login walks against any server, and submissions per account |
| `Verdicts.dfy`, `Sessions.dfy` | what a walk's requests and its result tell about the server, and the probes as loops |
| `View.dfy`, `Page.dfy` | rows, strips and uptime, and from raw samples to bars over every run |
| `RateLimit.dfy`, `RetryHeader.dfy` | the token bucket, and what a refused client is told |
| `Lang.dfy`, `Headers.dfy` | the language choice, and headers read back as the preferences they were written from |

How to read it. A machine is a total function `Next` from a world and an event to a world; an event that is not
enabled changes nothing, so every sequence of events is a run and every theorem about `Run` is about all
interleavings, clock advances, store faults and restarts. Fields such as `all`, `cut` and `attempts` are the account
of a run, kept beside the system's own state so that theorems can speak of rows that were pruned long ago. Time is an
integer number of nanoseconds; a local day or hour is UTC plus a fixed offset. Classes carry the program's own loops
and in-place updates, and their methods are tied to the functions the machines use.

What the proofs found:

- Raw retention is not range-checked when the configuration is loaded. The sliding-window ceiling holds over all runs
  if and only if raw rows are kept for at least one day (`GuardLimits.CeilingHoldsExactlyWithADayOfRows`), also for a
  check behind a gate, as both credentialed checks are (cmd/isntustdown/main.go:193-196). The daily history is safe
  from its own recomputation if and only if they are kept for at least two
  (`HistoryLimits.DaysAreSafeExactlyWithTwoRawDays`), and the hourly one if and only if they outlast the strip by an
  hour and the zone's offset is a whole number of hours (`HistoryLimits.HoursAreSafeExactlyWhenLossless`).
- A pause can hide an outage. The guard's own record knows only of updates that were saved: when failed answers up to
  the ceiling are recorded but their updates are lost, the next run is refused as `breaker_open` and its row turns a
  failing check into missing data (`GuardLimits.AnUnsavedFailureIsHidden`). A pause neither hides nor invents an
  outage if and only if the update with the last conclusive answer was saved, or the record says the same without it.
  Unsaved failures are not paced either (`GuardLimits.UnsavedFailuresAreNotPaced`). These runs, and the one in which
  the ceiling fails, are runs of boots, attempts and restarts whose boot sweeps cannot read the live rows: for a
  ceiling that loading accepts, reaching it takes one of the three faults below, or a row written too long after its
  run was due (`Schedule.ScheduleNeverReachesTheCeiling`). Loading is exact about it: any smaller ceiling is reached
  by attempts on time, without fault or delay (`ScheduleExact.ASmallerCeilingIsReached`).
- Two attempts of a check are due at least its interval apart, and begin that far apart less what the first was late,
  unless a boot sweep could not read the live rows, a row was not written, or a restart cut a run between them. Each
  of the three alone is enough (`ScheduleFaults`).
- The comment at internal/web/ratelimit.go:33-35 says the sweep bounds memory. With a positive burst it never removes
  a bucket, because a stored bucket always holds fewer tokens than the burst, and the clients remembered are exactly
  those that ever called. Loading also accepts a rate and burst of zero or less; then, and only then, buckets are
  swept.
- The whole seconds announced after a refusal can be too few, because the wait is cut to nanoseconds before it is
  rounded up. On a nanosecond clock a client that comes back when told is always served if and only if the rate is at
  least 60 a minute or divides 60,000,000,000 (`RetryHeader.HeaderServesExactly`). The default of 60 does; at 7 a
  minute a client told to wait 8 seconds is refused again exactly 8 seconds later
  (`RetryHeader.EightSecondsAreTooShort`).
- `Form.Set` changes the first field of a name while `Values` posts the last one, so a credential arrives if and only
  if the form carries its field at most once, or already ended with that value (`Forms.ASecondFieldWins` is a form for
  which it does not).
- Two-level aggregation equals flat aggregation except where a service without checks meets a page that is otherwise
  fully retired (`States.AnEmptyServiceHidesRetirement`); every service in the registry has checks
  (internal/config/registry.go:33-87). Counting first and summarising the counts loses nothing except where retired
  and unknown samples mix with nothing conclusive: the cell then says retired, the derived state says unknown
  (`States.RetiredHidesUnknown`).
- Moodle's probe can report success without a submission, exactly when the server hands out a working token before the
  identity provider is reached (`Login.MoodleCanSucceedWithoutALogin` is such a server). Neither walk ever reports a
  rejected login, one of the three reasons that suspend a check at once.

## Model

| member | source | states |
|---|---|---|
| States.DeriveServiceState | internal/probe/probe.go:79-132 | the filtering and counting loops compute the join of the states in Retired < Unknown < Up, Down < Degraded |
| States.DeriveMeaning | internal/probe/probe.go:79-132 | each derived state is characterised, in both directions, by which states occur among the parts |
| States.DeriveIgnoresOrderAndRepetition | internal/probe/probe.go:79-132 | rows with the same set of parts derive the same state |
| States.DeriveAppend | internal/probe/probe.go:79-132 | deriving is a homomorphism from non-empty concatenation to the join |
| States.UnknownPartIsTransparent | internal/probe/probe.go:87-113 | an unknown part leaves a row as if absent if and only if the rest is not fully retired |
| States.DownPartIsNeverUp | internal/probe/probe.go:82-86 | a row with a failing part is down or degraded |
| States.TwoLevelAggregationIsFlat | internal/web/view.go:122-162 | the overall state from service rows equals the one from all checks at once, if and only if no empty service meets an otherwise retired page |
| States.AnEmptyServiceHidesRetirement | internal/web/view.go:122-162 | the page on which they differ |
| States.DayStateAgreesWithDerive | internal/store/store.go:244-259 | the state from counts equals the state from samples, except exactly where retired hides unknown |
| States.RetiredHidesUnknown | internal/store/store.go:244-259 | the cell on which they differ |
| Store.CountKept | internal/store/store.go:308-313 | pruning raw rows changes a window count only by moving the window's start up to the cutoff |
| Store.CountSinceCountsRows | internal/store/breaker.go:45-57 | the attempt count is the number of positions in the log that hold a row of the check, not `unknown`, from that instant on |
| Store.SamplesCountRows | internal/store/store.go:261-305 | a state occurs among the samples of an interval as often as the log holds such a row in it |
| History.BasicAlways | internal/store/store.go:261-318 | over every run the raw table is what the greatest cutoff left of all rows, and no derived row counts more than was recorded or exists without a sample |
| History.RollupIsExact | internal/store/store.go:261-305 | with two raw days, a rollup makes today's and yesterday's rows count every sample ever recorded that day |
| History.RollupNeverShrinksADay | internal/store/store.go:261-305 | with two raw days, no rollup replaces a daily row by a smaller one |
| History.RecomputeNeverLosesDays | internal/scheduler/maintenance.go:41-64 | over every run, a day on whose morrow maintenance ran is counted in full until daily retention drops it, and the next rollup shrinks nothing |
| HistoryLimits.DaysAreSafeExactlyWithTwoRawDays | internal/scheduler/maintenance.go:41-64 | no reachable world has a rollup about to shrink a day, if and only if raw rows are kept for two days |
| HistoryLimits.OneDayLoses | internal/store/store.go:308-313 | a run with one raw day in which yesterday's recount loses a sample |
| HistoryLimits.NoDayLoses | internal/store/store.go:308-313 | a run without raw days in which a later sample replaces earlier ones |
| History.HourlyRollupIsExact | internal/store/hourly.go:24-60 | an hourly rollup counts in full every local hour that neither its own cutoff nor the raw one cuts |
| History.HourlyAlwaysFresh | internal/store/hourly.go:24-60 | over every run, each displayed hour that had ended at the last hourly rollup is counted in full |
| History.LiveCellIsExact | internal/store/hourly.go:105-119 | with no rollup at all, and for a clock reading that may be older than the query, the newest cell is a recount of its hour if and only if no row of the check lies past that hour, while raw rows cover it |
| HistoryLimits.ALaterRowEntersTheHour | internal/store/hourly.go:136-149 | a run in which a row past the hour of the clock reading makes the newest cell wrong |
| History.HourlyStripIsARecount | internal/store/hourly.go:62-134 | if the rollup ran since the top of the hour and both retentions cover the strip, every displayed cell equals a recount of all samples of that hour, for any fixed offset |
| History.HourlyStripReadLaterIsARecount | internal/store/hourly.go:62-134 | and so it does when the tables are read any time after the clock was, with the lossless settings and while retention keeps the displayed hours, the newest cell unless a row was written past its hour |
| History.SeriesExistsExactlyForSampledChecks | internal/store/hourly.go:121-133 | a check has a series if and only if it recorded a sample in the window |
| History.HourlyRollupNeverShrinks | internal/store/hourly.go:24-60 | with raw rows outlasting the strip by an hour and a whole-hour offset, no hourly rollup shrinks a cached hour |
| History.ExactHoursLast | internal/store/hourly.go:175-180 | an ended hour counted in full stays so through any further run until hourly retention drops it |
| HistoryLimits.HoursAreSafeExactlyWhenLossless | internal/store/hourly.go:24-60 | no reachable world has an hourly rollup about to shrink an hour, if and only if those two conditions hold |
| HistoryLimits.FractionalZoneLoses | internal/store/hourly.go:30 | a run in a zone off the full hour in which the rollup's cutoff splits a local hour |
| HistoryLimits.ShortRawLoses | internal/store/hourly.go:30 | a run with raw rows no older than the strip in which the oldest hour is recounted short |
| HistoryLimits.NoRawLoses | internal/store/hourly.go:30 | a run without raw days in which a later sample of an hour replaces the earlier ones |
| History.CurrentRowIsAView | internal/store/store.go:84-132 | over every run the live row has the state, reason and time of the check's last observation, and `since` is the time of the first of the trailing run of equal states, against all rows ever recorded |
| Repo.Repository.RecordResult | internal/store/store.go:84-132 | appends the observation and refreshes the live row, moving `since` only when the state changes |
| Store.SurvivorsOfAPrune | internal/store/store.go:307-318 | exactly the raw rows from the raw cutoff on survive, as often as they were there, exactly the daily rows from the daily cutoff on with their counts, and nothing else changes |
| Repo.Repository.Collect | internal/store/store.go:188-227 | groups exactly the rows of the range by check |
| Repo.Repository.Assemble | internal/store/store.go:229-241 | one series of fixed length per check, gaps filled with empty cells |
| Repo.Repository.DailyHistory | internal/store/store.go:180-242 | exactly the checks with a daily row in range have a series, of exactly `days` cells in order, each the table's row or an empty cell |
| Repo.Repository.CurrentHourBuckets | internal/store/hourly.go:136-173 | exactly the checks with a row since the top of the hour have a bucket, counting exactly those rows |
| Repo.Repository.Overlay | internal/store/hourly.go:110-119 | the live bucket replaces the cached cell of the hour in progress and nothing else |
| Repo.Repository.HourlyHistory | internal/store/hourly.go:62-134 | exactly the checks with a cached row or a live sample have a series, of exactly `hours` cells in order, the newest live |
| BreakerLaw.BackoffDoubles | internal/scheduler/scheduler.go:299-306 | the next backoff is the next term of the capped geometric sequence, and lasts as many nanoseconds as the next configured pause |
| BreakerLaw.BackoffIsThePause | internal/scheduler/scheduler.go:278-306 | the k-th suspension lasts the initial backoff doubled k - 1 times, up to the greatest one, in the configured nanoseconds, both cut to whole seconds |
| BreakerLaw.RecordFollowsHistory | internal/scheduler/scheduler.go:255-297 | updating the record of a history gives the record of the longer one, and inconclusive runs leave it alone |
| BreakerLaw.TrailingFailsIsTheBlock | internal/scheduler/scheduler.go:263-270 | the stored count is the length of the trailing block of failures, and of no other |
| BreakerLaw.TripsCountTheBlock | internal/scheduler/scheduler.go:274-279 | the backoff's exponent counts the suspending failures of that block |
| BreakerLaw.ResumeIsLastTripPlusPause | internal/scheduler/scheduler.go:278-281 | a resume time exists if and only if a failure since the last success suspended the check, and is the last such failure's time plus the configured pause for that many suspensions |
| BreakerLaw.StreakTrips | internal/scheduler/scheduler.go:269-287 | n consecutive failures have tripped at least n - threshold + 1 times, whatever their reasons |
| BreakerLaw.StreakSpan | internal/scheduler/scheduler.go:215-217 | consecutive failures of a paced history are spread over the sum of the configured pauses they earned |
| BreakerLaw.PausesAreGeometric | internal/scheduler/scheduler.go:299-306 | below the greatest pause, the first n pauses add up to the initial one times 2^n - 1 |
| GuardInvariant.StartedLeavesRows | internal/store/breaker.go:45-57 | every attempt started in a window left a row in it or lost its row |
| GuardInvariant.PermittedStep | internal/scheduler/scheduler.go:203-243 | a run that passed the breaker and the count still satisfies both until its probe starts, whatever its own next action |
| GuardInvariant.BoundedStep | internal/scheduler/scheduler.go:219-228 | launching a permitted probe keeps every window under the ceiling |
| GuardInvariant.LawfulStep | internal/scheduler/scheduler.go:255-297 | every action keeps the stored record, and each copy of it a run holds, equal to the record of the saved outcomes |
| GuardInvariant.OwnStep | internal/scheduler/scheduler.go:178-316 | every action of a lane, with any store fault, keeps that lane's invariant |
| GuardInvariant.OtherStep | internal/scheduler/scheduler.go:84-98 | no action of another check disturbs a lane |
| GuardInvariant.CrashStep | internal/scheduler/scheduler.go:126-129 | a restart at any point keeps the invariant, counting a run cut short as a lost row |
| GuardInvariant.InvAlways | internal/scheduler/scheduler.go:178-316 | the invariant holds in every reachable world |
| GuardReadings.ReadingsDecide | internal/scheduler/scheduler.go:203-243 | each of the guard's readings lets a run go on if and only if it succeeds and finds no suspension in force, fewer rows of attempts than the ceiling, the gate's live row `up` |
| GuardReadings.EveryAttemptWasCleared | internal/scheduler/scheduler.go:203-243 | over every run, each attempt of a guarded check was preceded, after its run's clock reading, by successful readings that found all three |
| GuardTheorems.SlidingWindowCeiling | internal/scheduler/scheduler.go:180-228 | in every 24 hours a guarded check starts at most the ceiling plus the attempts whose row was lost, over every interleaving, fault and restart |
| GuardLimits.CeilingHoldsExactlyWithADayOfRows | internal/scheduler/scheduler.go:219-228 | that ceiling holds in every world that boots, ticks, restarts and maintenance lead to, if and only if raw rows are kept for at least a day |
| GuardTheorems.StoredRecordIsTheHistory | internal/scheduler/scheduler.go:255-306 | in every reachable world the stored record is the closed form of the outcomes saved so far |
| GuardTheorems.SuspensionsLastAsConfigured | internal/scheduler/scheduler.go:269-281 | at every moment of every run a check is suspended if and only if a failure saved since the last success suspended it, until the last such failure plus the configured pause |
| GuardTheorems.FailureStreaksArePaced | internal/scheduler/scheduler.go:269-306 | n consecutive saved failures, of any mix of reasons, whatever cut, inconclusive or unsaved attempts stand between them and across restarts, span at least the configured pauses they earned beyond the threshold |
| GuardLimits.UnsavedFailuresAreNotPaced | internal/scheduler/scheduler.go:294-296 | a run of boots, with no fault but unreadable sweeps and lost updates, in which as many failures as the ceiling allows start at one instant |
| GuardTheorems.PauseShowsTheRecord | internal/scheduler/scheduler.go:245-253 | the row of a run refused by the breaker or the ceiling shows a failure if and only if the last saved outcome is one |
| GuardTheorems.PauseNeitherHidesNorInvents | internal/scheduler/scheduler.go:183-253 | in every reachable world, whatever else its service holds, that row keeps the service off `up` after a failed last conclusive answer and otherwise leaves it as if the check were absent (unless the rest is retired), if and only if the update with that answer was saved or the record says the same without it |
| GuardLimits.AnUnsavedFailureIsHidden | internal/scheduler/scheduler.go:219-228 | a run of boots, with no fault but unreadable sweeps and lost updates, in which the last answer failed, the live row said so, and the refusal by the ceiling turns it into missing data |
| Schedule.TimedInvAlways | internal/scheduler/scheduler.go:108-176 | spacing's invariant, including what the live row tells a boot sweep, holds over every run of sweeps, tickers, restarts and faults |
| Schedule.AttemptsAreSpaced | internal/scheduler/scheduler.go:108-176 | unless an unreadable boot sweep, a lost row or a cut run lies between them, two attempts of a guarded check are due at least its interval apart and begin that far apart less what the first was late, whatever restarts and refused runs stand between |
| Schedule.TimedRunsAreRuns | internal/scheduler/scheduler.go:84-98 | every world the cadence leads to is one of the guard's own machine |
| ScheduleFaults.BlindSweepBreaksSpacing | internal/scheduler/scheduler.go:141-145 | a run in which an unreadable boot sweep alone breaks spacing |
| ScheduleFaults.LostRowBreaksSpacing | internal/scheduler/scheduler.go:308-312 | one in which a row that is not written does |
| ScheduleFaults.CutRunBreaksSpacing | internal/scheduler/scheduler.go:126-136 | one in which a restart between probe and row does |
| ScheduleFaults.LateTicksBringBeginsTogether | internal/scheduler/scheduler.go:165-175 | a run without any fault in which a late tick and the next one begin closer together than the interval |
| Schedule.SpacedCount | internal/config/config.go:185-196 | with no fault since, spaced attempts whose rows are written less than a lag after they were due number fewer than the window plus the lag divided by the interval |
| Schedule.ScheduleNeverReachesTheCeiling | internal/config/config.go:185-196 | with a ceiling that loading accepts, rows within the lag bound of when their runs were due and none of the three faults in the window and lag the count looks back on, the count never blocks a run, however late single ticks are |
| ScheduleExact.ASmallerCeilingIsReached | internal/config/config.go:185-196 | with any ceiling that loading would not accept for the check's own interval, a run of attempts on time, without fault or delay, is refused |
| ScheduleExact.SweepSkipsExactlyFreshChecks | internal/scheduler/scheduler.go:108-150 | the boot sweep starts a run of every check, except a guarded one whose live row it reads as conclusive and younger than its interval, and then an attempt that young wrote the row |
| ScheduleExact.TheNextTickIsNear | internal/scheduler/scheduler.go:152-176 | over every run a ticking check is due again within its interval and a stagger of at most a quarter of it and thirty seconds |
| ScheduleExact.TicksStartRuns | internal/scheduler/scheduler.go:165-175 | a due tick starts a run, and the next is the first of the ticker's instants still to come |
| Scheduler.CycleIsARun | internal/scheduler/scheduler.go:178-201 | one cycle of a job leaves exactly the tables of its events on the guard's machine |
| Scheduler.Worker.GuardBlocks | internal/scheduler/scheduler.go:203-253 | nothing blocks if and only if the readings succeed, no suspension is in force, the log holds fewer attempts of the last 24 hours than the ceiling, and the gate's live row is `up`; which of the three reasons blocks otherwise is told as exactly |
| Scheduler.Worker.UpdateBreaker | internal/scheduler/scheduler.go:255-306 | what is stored, for every record and answer: nothing on a fault or an inconclusive answer, a clean record after a success, one more failure, and from the threshold on or at once a resume time one configured pause away, doubled each time up to the greatest |
| Scheduler.Worker.RunOnce | internal/scheduler/scheduler.go:178-201 | the probe's answer is returned and recorded if and only if the check is unguarded or the three readings pass, otherwise an `unknown` row and no change of the record; the effect on the tables is the run of its events |
| Ticks.TickLeavesEveryRow | internal/scheduler/maintenance.go:41-64 | for every table and every fault: which raw, daily and hourly rows are there after a tick, and what each counts, as tallies of the raw rows |
| Ticks.OldRowsGoWhenDue | internal/scheduler/maintenance.go:54-63 | after a due tick without faults no table holds a row older than its cutoff, and a tick that is not due deletes nothing |
| Ticks.TickAccount | internal/scheduler/maintenance.go:41-53 | a tick whose rollups succeed has rolled up today and the hour in progress, and records nothing |
| Ticks.TheHourOfATickIsARecount | internal/scheduler/maintenance.go:51 | after a tick, and for the rest of its local hour whatever else happens, every displayed cell of the hour strip is a recount of all samples |
| Ticks.TheDaysOfATickAreRecounts | internal/scheduler/maintenance.go:44-50 | after a tick the rows of today and yesterday count every sample recorded so far |
| Scheduler.Worker.Maintain | internal/scheduler/maintenance.go:41-64 | leaves exactly those rows, deleting only when an hour or more has passed since it last deleted, failed or not |
| RateLimit.SweepRemovesNothingExactly | internal/web/ratelimit.go:80-86 | no sweep ever removes a bucket, if and only if the burst is positive |
| RateLimit.ClientsAreRememberedExactly | internal/web/ratelimit.go:33-35 | the clients remembered are always exactly those that ever called, if and only if the burst is positive |
| RateLimit.SweepIsUnobservable | internal/web/ratelimit.go:57-64 | where the sweep triggers, if at all, changes no bucket |
| RateLimit.AnswersIgnoreTheSweep | internal/web/ratelimit.go:57-64 | nor any answer |
| RateLimit.LevelIsLeastBudget | internal/web/ratelimit.go:66-75 | a client's level is the least of the burst and the budgets left since each of its calls |
| RateLimit.DeniedExactlyWhenOverBudget | internal/web/ratelimit.go:52-78 | a call is denied if and only if, since some earlier call of the client, one more would exceed the burst plus what the time earned |
| RateLimit.WindowAdmitsAtMostItsBudget | internal/web/ratelimit.go:52-78 | every window admits at most the burst plus what its length earns |
| RateLimit.DenialsAreUnobservable | internal/web/ratelimit.go:70-74 | leaving out every denied call changes no client's level at any later time |
| RateLimit.AdmittedAreAdmittedAgain | internal/web/ratelimit.go:70-78 | with the denied calls left out, every other call gets the same answer |
| RateLimit.WaitIsExact | internal/web/ratelimit.go:70-74 | a denied client with no calls in between is refused before the returned wait is over and admitted from then on |
| RateLimit.RemainingIsExact | internal/web/ratelimit.go:70-77 | of the calls a client repeats at once, exactly as many are allowed as its last answer announced to remain, none after a denial |
| RateLimit.ResetIsExact | internal/web/ratelimit.go:75-77 | an allowed client that stays away finds again the tokens it found exactly from the announced reset on |
| RetryHeader.RetryAfterIsEnough | internal/web/ratelimit.go:140-148 | the whole seconds announced, from a wait cut to nanoseconds, are less than a second too many, and enough exactly unless the cut wait is a whole number of seconds and the true one is not (section 10.2.3 of RFC 9110) |
| RetryHeader.HeaderServesExactly | internal/web/ratelimit.go:140-148 | over all calls on a nanosecond clock, a refused client that comes back when told is served, if and only if the rate is at least 60 a minute or divides 60,000,000,000 |
| RetryHeader.EightSecondsAreTooShort | internal/web/ratelimit.go:140-148 | calls at 7 a minute for which it is not |
| RateLimit.RateLimiter.constructor | internal/web/ratelimit.go:37-48 | no buckets; a burst that is not positive falls back to the rate |
| RateLimit.RateLimiter.SweepLocked | internal/web/ratelimit.go:80-86 | the loop deletes exactly the full buckets idle for over ten minutes |
| RateLimit.RateLimiter.Allow | internal/web/ratelimit.go:50-78 | for every rate and burst, the buckets afterwards and the three results are those of the trace semantics; a rate of zero leaves the wait undefined |
| Forms.SetThenGet | internal/probe/html.go:21-48 | a set field is present, reads back, and no other name is touched |
| Forms.SetValueIsPosted | internal/probe/html.go:39-56 | a set value is what gets posted if and only if the name occurred at most once or already ended with it |
| Forms.FirstIsEarliest | internal/probe/html.go:115-152 | a search finds the earliest form that passes its test, and finds one if any passes |
| Forms.LoginFormIsTheEarliest | internal/probe/html.go:115-128 | the credential form is the earliest with the login id in any case, or, where none has it, the earliest that asks for both credentials; there is one if and only if a form does either |
| Forms.BridgeMeaning | internal/probe/html.go:130-152 | a form is a bridge if and only if it has an action that says logout in no case, no credential field, and an assertion in one of the three shapes |
| Forms.CredentialsArrive | internal/probe/moodle.go:262-270 | after filling in, both credential fields are posted, each with its value if and only if the form had it at most once or already ended with it |
| Forms.FilledPostsExactly | internal/probe/moodle.go:262-270 | besides the credentials exactly the form's own fields are posted, unchanged, and the four captcha fields, empty where the form had none |
| Forms.ASecondFieldWins | internal/probe/html.go:39-56 | a form with two user name fields posts the second one's own value |
| Forms.FormInHand.Set | internal/probe/html.go:39-48 | the scan-and-replace loop is the functional update |
| Forms.FormInHand.Fill | internal/probe/moodle.go:262-270 | the edits and the captcha loop are the functional fill |
| Login.BridgeIsDiscreet | internal/probe/html.go:130-152 | a form taken for a bridge posts no Username and no Password |
| Login.BridgesSubmitNothing | internal/probe/session.go:120-143 | against any server, following bridges submits nothing, posts at most once a hop, leaks no credential field, and fails only as unreachable or timed out |
| Login.TokenWalkIsLawful | internal/probe/moodle.go:190-255 | against any server, the walk submits at most once, never after it already did, posts at most once a hop, and blames the redirect only after a submission |
| Login.MoodleSubmitsAtMostOnce | internal/probe/moodle.go:145-188 | Moodle's probe submits at most once, posts at most six times, and `sso_redirect_failed` means exactly one submission |
| Login.CourseSubmitsAtMostOnce | internal/probe/courseselection.go:101-162 | the course-selection probe submits at most once, posts at most thirteen times, never reports a hard failure, and `up` means one submission that ended on the service host with a status below 400 |
| Login.TokenCostsALoginExactlyAtTheWall | internal/probe/moodle.go:196-251 | a walk that gets a token submitted if and only if it met the identity provider first |
| Login.MoodleSuccessNeedsALoginExactlyAtTheWall | internal/probe/moodle.go:164-187 | so Moodle's `up` comes with exactly one submission if and only if it did |
| Login.MoodleCanSucceedWithoutALogin | internal/probe/moodle.go:199-206 | a server against which Moodle's probe is `up` with no submission |
| Verdicts.MoodleTellsWhy | internal/probe/moodle.go:145-255 | against any server, each request of Moodle's probe is called for by the page before it, and each result is reported if and only if the last reply says so |
| Verdicts.CourseTellsWhy | internal/probe/courseselection.go:101-162 | likewise for the course-selection probe |
| Sessions.Session.FollowBridges | internal/probe/session.go:120-143 | the loop ends on the page, error and requests of the recursive walk |
| Sessions.Session.WalkToToken | internal/probe/moodle.go:193-255 | the loop ends with the token or result and the requests of the recursive walk |
| Sessions.Session.SubmitLogin | internal/probe/moodle.go:257-272 | one request carrying the filled form |
| Sessions.Session.RunMoodle | internal/probe/moodle.go:145-188 | `up` if and only if the walk was handed a token and the reply to its verification names the configured user; an exception, another name, a body that is not JSON and every other stop is told as exactly by the last reply |
| Sessions.Session.RunCourseSelection | internal/probe/courseselection.go:101-162 | `up` if and only if it submitted and the last reply, with no bridge left to follow, comes from the service's own host with a status below 400; every other result is told as exactly |
| Account.CheckSubmissionsAreBounded | internal/scheduler/scheduler.go:180-228 | in every 24 hours the walks behind a check's attempts submit at most the ceiling plus the lost rows |
| Account.AccountSubmissionsAreBounded | internal/scheduler/scheduler.go:180-228 | and those of all guarded checks together at most the sum over them |
| View.BuildBar | internal/web/view.go:186-209 | the inner loop computes the bar's state and its five counts from the checks' cells |
| View.BuildStrip | internal/web/view.go:175-228 | exactly one bar per index, and the window's uptime, there exactly when a sample is conclusive, is the share of `up` among the conclusive ones |
| View.ShareOfSamples | internal/web/view.go:222-227 | an uptime shown for some samples times the conclusive ones among them is 100 times the `up` ones, it is 100 exactly when none failed and 0 exactly when none was up |
| View.BuildService | internal/web/view.go:122-160 | a row's state is derived from what its checks contribute, with both strips and their uptimes |
| View.ServiceStateMeaning | internal/web/view.go:122-162 | what each state of a row says, in both directions, about the live rows of its checks; a pause after a failure counts as a failure |
| View.BuildRows | internal/web/view.go:119-162 | one row per service, and the overall state from the rows |
| View.Build | internal/web/view.go:103-173 | both series, the rows made of them, and the overall state |
| View.OverallIsFlat | internal/web/view.go:122-162 | on a page whose services all have checks, the overall state is the one derived from all checks at once |
| View.StripsAlign | internal/web/view.go:179-251 | on a built page the i-th bar of every strip and the i-th cell of every series stand for the same day or hour, the last for the current one, and all have the configured length |
| View.JointUptime | internal/web/view.go:222-226 | joining two sets of samples gives an uptime between theirs, or the only one there is |
| View.WindowBetweenBars | internal/web/view.go:175-228 | the window's uptime is defined if and only if some bar's is, and lies between the least and the greatest of them |
| View.BarSummarisesSamples | internal/web/view.go:186-220 | a bar over cells that count their samples is the bar over all those samples, where none is retired |
| View.WindowIsARecount | internal/web/view.go:175-228 | if every bar counts its samples, the window's totals count all of them |
| Page.HourBarsSummariseRawSamples | internal/web/view.go:230-274 | over every run, each bar of the hour strip has the state and counts of all raw samples of the service in that hour |
| Page.HourBarsReadLater | internal/web/view.go:103-117 | so it has when the tables are read some time after the clock, with the lossless settings |
| Page.HourWindowIsARecount | internal/web/view.go:276-281 | over every run, the uptime shown over the hour strip is the share of `up` among the conclusive samples recorded in its window, and missing exactly when there is none |
| Page.DayBarsSummariseRawSamples | internal/web/view.go:186-220 | over every run, so is each bar of the day strip for a day on whose morrow maintenance ran |
| Page.TodayCountsUpToTheLastRollup | internal/web/view.go:186-220 | between rollups the bars of the last rollup's day and of the day before count everything recorded up to that rollup |
| Page.DayWindowIsARecount | internal/web/view.go:222-227 | right after today's rollup, with the earlier displayed days settled and kept, so is the uptime shown over the day strip |
| Lang.Match | internal/web/i18n/lang.go:71-128 | Chinese exactly when the earliest tag of greatest positive weight is not the wildcard and has primary subtag zh (section 12.5.4 of RFC 9110) |
| Lang.SortStable | internal/web/i18n/lang.go:102-108 | the result is sorted by weight, then position, and holds the same tags |
| Lang.PositionsAscend | internal/web/i18n/lang.go:78-100 | the parsed tags keep the header's order and have positive weight |
| Lang.BestIsUnique | internal/web/i18n/lang.go:102-108 | the head of the sorted list is determined by the tags alone |
| Lang.LowerRankedTagsNeverMatter | internal/web/i18n/lang.go:120-124 | putting a part that does not come before the best tag anywhere into a header leaves the language returned as it was |
| Headers.OfferReadsBack | internal/web/i18n/lang.go:78-100 | a written preference, with white space wherever it may stand, is read as its lower-cased name with its weight, and dropped if the weight is not positive |
| Headers.HeaderReadsBack | internal/web/i18n/lang.go:78-100 | a well-formed header is read as the preferences it was written from, in order |
| Headers.ChineseExactlyWhenItPrevails | internal/web/i18n/lang.go:71-128 | from such a header Chinese is chosen if and only if the preference that outranks all others is `zh` or begins with `zh-` |

## Left out

- Schedule.TimedInvAlways: the sweep may reach jobs in any order; that unguarded checks go first and concurrently, so
  that gates read fresh state, is not modelled.
- RateLimit.DeniedExactlyWhenOverBudget: it and the other timing theorems are for a rate and a burst of at least one,
  for which the limiter can allow a call.
- Headers.OfferReadsBack: the preferences written have no parameter but their weight.
- Lang.Match: number parsing is a parameter; infinite and not-a-number weights do not occur in it, and the stable sort
  is an insertion sort where the library's algorithm is its own.
- View.Build: the page is built from one snapshot of the tables, where the program issues three queries one after the
  other.
- View.BuildStrip: one method stands for the day and the hour strip, which the program writes out twice.
- Durations and counts are unbounded integers and times are exact: 64-bit overflow and the database's microsecond
  rounding are not modelled.
- Daylight-saving changes and zone databases: the zone is a fixed offset, so a local day has 24 hours.
- Uptime ratios and token levels are exact; floating-point rounding, the stored two-decimal percentage, latency and
  HTTP status columns are not modelled.
- The SQL text, transactions, the pool and migrations: each statement is its effect on maps and sequences, and
  recording a result is one effect.
- Redirects are followed by the HTTP client: a 307 or 308 reply to the credential form would make it resend the body,
  so a submission here is one posting of the form by the probe.
- HTTP, cookies, TLS, HTML and JSON parsing, base64 and regular expressions: a page is its host, status, forms, token
  and site information, and a server is any function from the requests sent so far to a response.
- The user name is taken as already trimmed and upper-cased where the forms are filled, and case folding covers ASCII
  only.
- The probes that send no credentials: site, structural, mail, query-course and TigerDuck checks.
- Client addresses behind proxies: the limiter is keyed by a given string.
- Environment and `.env` reading: only the arithmetic of the attempt-ceiling check and the positivity of durations are
  used.
- Templates, tooltips, labels, message catalogues, `since` of a service row, and the HTTP handlers.
- Several processes on one database, and the loops that call the scheduler's procedures on real timers.
