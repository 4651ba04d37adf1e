# BarberHub: a verified model

BarberHub takes bookings for barbershops. This project models the part of it that decides who gets which
time, and proves what that part promises:

* **the availability engine**, interval arithmetic that turns shifts, breaks and bookings into bookable slots;
* **the booking tables**, with every request that changes them, first run one at a time and then split into
  their reads and their commits and interleaved;
* **ratings**, kept equal to the mean of the reviews by a locking protocol and a nightly repair;
* **reminders**, sent by overlapping sweeps over windows of start times;
* four smaller stateful or textual parts: the rate limiter, refresh tokens, the weekly shift validator, and
  searching by `LIKE`.

`dafny verify dfyconfig.toml` checks everything.

## How it is laid out

Instants are integers (microseconds), intervals are half-open, and the meaning of a list of intervals is the
set of instants it covers. `Availability` holds the engine's loops, each with its exact result. `Zones` takes
a time zone as two functions, wall clock to instant and back, of which the booking theorems assume only
that they agree at local midnights; a zone whose offset changes once is then made concrete. `Booking` gives
each request as a function from the tables to the tables and an outcome, with availability stated as a
predicate on instants; `Desk` is the service code, whose methods equal those functions; `Outcomes` says
what each request answers and leaves behind in the columns of the rows, without the model's own guards and
queries; `BookingLaws` and `Lifecycle` prove what holds of serial runs. `Interleaving` splits the same requests into steps, where
a commit writes the columns that differ from an earlier read and is checked against the constraints as they stand,
an availability query reads the closures first and the rest later, and a break or closure is looked up first and
recorded later. `AloneIsSerial` ties the two levels together: steps taken without interruption are the request as specified.
`Races`, `Staleness` and `StaleSchedules` prove which guarantees survive.

| level | what is proved |
|---|---|
| one request at a time | engine exactness, offer = acceptance, `BookingLaws.RunKeeps`, `NoCommitFails`, everything in `Lifecycle`, `Auth` |
| any interleaving of steps | `NeverDoubleBooked`, `RaceOutcome`, `PriceIsFinalAlways`, `RatingsStayCorrect`, `EveryoneFinishes`, `CopiesAreCounted`, `ExactlyOnce` |
| interleaved under an exact condition, with witnesses of failure | terminal rows, breaks and closures kept clear of bookings |

## Where a promise needs a condition

* **Terminal rows.** Serially they are frozen. Interleaved, all five requests that write existing rows can lose one:
  `TerminalOverwrittenExactlyWhen` says when for cancel, confirm and close-out, `TerminalMovedExactlyWhen` for
  reschedule, and `TerminalExpiredExactlyWhen` for expiry. Three failures are shown reachable: a confirm
  revives a cancelled row (`StaleConfirmRevives`), an expiry cancels a completed one (`StaleExpiryCancels`), and a
  reschedule moves a completed one into the future, against `ClosedOnlyAfterStart` (`StaleMoveOfCompleted`).
  `StaysExactlyWhen` is the same over whole runs, and `TerminalIsFinalWhenFresh` says that nothing is lost as long as
  each commit finds the statuses it read.
* **Breaks and closures.** Serially no live booking overlaps a break or a closure. Interleaved, a booking commits
  without another look at the schedule, and a break or closure is recorded without another look at the bookings.
  A run keeps the invariant all along iff each of its commits, of either kind, would have passed the look it omits
  (`RunKeepsExactlyWhen`). `UndisturbedRunKeeps` gives a condition on what happens between a look and its commit.
  For *every* start on offer a break over that time fits between the booking's check and its commit (`BreakSlipsIn`),
  and the booking fits between the break's look-up and its record (`BookingSlipsUnderBreak`); all requests succeed.
  The same holds for a closure of the day, if the shop has no other booking then (`ClosureSlipsIn`,
  `BookingSlipsUnderClosure`).
* **Shifts and clock changes.** The comment in `app/services/availability.py` (lines 146-148) says that a shift inside
  a skipped hour becomes nothing. The code compares wall clocks there, not instants, so such a shift survives
  with its whole nominal length (`ShiftInsideGapSurvives`). `ShiftLength` gives the exact real length, and the
  exact family that reaches `Interval`'s ValueError instead: shifts across the end of a gap whose nominal
  length is at most the gap. `ShiftIsItsWallClock` says exactly when a converted shift is the set of instants
  whose wall clock reads inside it, and `OneChangeAgrees` exactly when a zone with one change agrees at midnights.
* **Reminders.** Sweeps cover their span exactly when neighbours are no further apart than the window
  (`WindowsCoverExactlyWhen`). Mail is queued before the claim commits, so a sweep that dies after queueing makes a
  later one send again (`LateAbortSendsTwice`). `CopiesAreCounted` gives the exact number in every run, and
  `AtMostOnce` and `ExactlyOnce` say exactly when it is one. A claim is for an appointment and a kind, not for a
  start: a booking moved after its reminder gets none for its new time (`ClaimedIsNotMailedAgain`). Sweeps that select
  rows in one common order never wait in a circle (`SomeSweepIsFree`); the query asks for none, and two sweeps can
  block each other (`TwoSweepsCanBlock`).
* **Rating locks.** Locking before inserting rules out deadlock with one repair, or with any number that list the
  barbers in one common order (`SomeoneCanStep`, `SomeoneCanStepInOrder`, `EveryoneFinishes`). Two that list them in opposite
  orders can deadlock (`TwoRepairsCanDeadlock`), and so can two writers that insert first (`InsertFirst.DeadlockIsReachable`).
* **Refresh tokens.** The run theorems are about whole requests. A commit that comes after the token has changed keeps
  the chain guarantees exactly when the token was not exchanged and its chain not continued meanwhile
  (`LateExchangeKeepsExactlyWhen`). It fails when two refreshes read one token as live before either commits
  (`TwoExchangesOfOneToken`).

## Model

| member | source | states |
|---|---|---|
| Availability.OverlapIsSharedInstant | app/services/availability.py:48-49 | two intervals overlap exactly when they share an instant; touching ends do not |
| Availability.Normalize | app/services/availability.py:52-71 | the loop's result covers exactly the input's instants, in order and with a real gap between neighbours, and is idempotent |
| Availability.CanonicalForm | app/services/availability.py:52-71 | two separated lists covering the same instants are the same list, so normalizing is a canonical form |
| Availability.SubtractFrom | app/services/availability.py:79-94 | the cursor loop with its `continue` and two `break`s adds exactly the span's instants outside every obstacle |
| Availability.Subtract | app/services/availability.py:74-95 | covers exactly the instants in `base` and in no block, for blocks in any order; on a separated base the result is separated |
| Availability.RunInOneSpan | app/services/availability.py:110-128 | in a separated list any unbroken run of covered instants lies in one interval, so fitting a span is being free throughout |
| Availability.AlignUp | app/services/availability.py:98-107 | the result is on the grid from `anchor`, and is the least grid point at or after the moment, on either side of the anchor |
| Availability.SlotsOfSpan | app/services/availability.py:121-127 | one span gives exactly the grid points, not too early, at which the duration fits; the loop ends |
| Availability.SlotsIn | app/services/availability.py:110-128 | exactly the starts that fit some free span, increasing, each of the asked length; raises exactly when a length is not positive |
| Availability.ComputeFreeSlots | app/services/availability.py:160-180 | emits `[t, t+d)` iff `t` is on the grid, not too early, and each of its instants is working time and not busy; strictly increasing |
| Availability.SlotListIsUnique | app/services/availability.py:160-180 | that contract determines the list completely |
| Availability.Clip | app/services/availability.py:183-191 | covers exactly the instants of the input that lie in the window |
| Zones.DayOfInstant | app/services/availability.py:131-138 | under agreement at midnights, an instant is on a local day iff it is between that day's midnight and the next |
| Zones.AgreesDayByDay | app/services/availability.py:131-138 | days in order and instants inside their own day give agreement at all midnights |
| Zones.RangeIsItsDays | app/services/closures.py:40-44 | the instant range of a closure is exactly the union of its local days |
| Zones.FirstOccurrence | app/services/availability.py:153-154 | a reading the clock shows is converted to the first instant at which it does |
| Zones.SkippedReading | app/services/availability.py:153-154 | exactly which readings the clock never shows, and that they are taken with the old offset |
| Zones.ShiftLength | app/services/availability.py:141-157 | real length of a shift across one offset change: nominal, less the gap or plus the repeat; and exactly when it is dropped or raises |
| Zones.ShiftInsideGapSurvives | app/services/availability.py:141-157 | a shift inside a skipped hour keeps its nominal length although no instant reads inside it, unlike what the docstring says |
| Zones.ShiftIsItsWallClock | app/services/availability.py:141-157 | a shift is the instants whose wall clock reads inside it, iff neither end falls strictly inside the skipped or repeated stretch |
| Zones.OneChangeAgrees | app/services/availability.py:131-138 | a zone with one change agrees at midnights iff no midnight falls strictly inside the skipped or repeated stretch |
| Shifts.ClashesAreWithinDays | app/schemas/schedule.py:46-50 | grouping by weekday loses no clash: the list is clear iff every day of it is |
| Shifts.NeighboursDecide | app/schemas/schedule.py:50-53 | after sorting by start, comparing neighbours decides all pairs |
| Shifts.GroupByDay | app/schemas/schedule.py:46-48 | the dictionary holds each weekday's shifts in input order, and nothing else |
| Shifts.DayIsClear | app/schemas/schedule.py:50-58 | one day's shifts in any order: sort, scan neighbours, and the answer is about all pairs |
| Shifts.ShiftsDoNotOverlap | app/schemas/schedule.py:45-59 | grouping and scanning each day accept iff no two shifts of one weekday overlap, whatever the input order |
| Shifts.ValidateWeek | app/schemas/schedule.py:16-59 | the whole payload is accepted iff it has at most fifty shifts, each shift ends after it starts, and none clash |
| Shifts.ValidWeekHasDistinctStarts | app/models/schedule.py:37 | an accepted week never violates the unique (weekday, start) constraint: equal starts are always rejected |
| BookingLaws.TakenMeansOverlap | app/services/slots.py:151-167 | no instant of a time is taken iff no live appointment overlaps it; the row query and the instants agree |
| BookingLaws.OfferSplits | app/services/slots.py:78-95 | a start is offered iff it would be with no appointments and no live one overlaps it: offers shrink as bookings grow |
| BookingLaws.OfferIsClear | app/services/slots.py:42-95 | an offered start lies on the day asked for, clear of appointments, of every break and of every closure's instants |
| BookingLaws.OfferedOnItsOwnDay | app/services/booking.py:353-364 | whatever the endpoint shows on any day, the booking check accepts |
| BookingLaws.OutcomeIsExact | app/services/booking.py:335-389 | accepted iff offered on its local day; SLOT_TAKEN iff it would be with no appointments and a live one is in the way; else OUTSIDE_WORKING_HOURS |
| BookingLaws.CreateAcceptsExactlyTheOffered | app/services/booking.py:67-99 | the whole create request books exactly the offered starts, inserts exactly the new row, and otherwise changes nothing |
| BookingLaws.CreateNeverViolates | app/services/booking.py:67-97 | a start that passes the check meets the CHECK and exclusion constraints |
| BookingLaws.RescheduleNeverViolates | app/services/booking.py:133-164 | the same for a move, with its own row left out of both the check and the constraint |
| BookingLaws.StatusChangeKeeps | app/services/booking.py:107-239 | a status change that revives nothing is never refused and keeps every invariant |
| BookingLaws.ExpireKeeps | app/workers/tasks.py:152-171 | expiry keeps every invariant |
| BookingLaws.AddBreakKeeps | app/services/schedule.py:92-118 | a break with no live booking in its way keeps every invariant |
| BookingLaws.AddClosureKeeps | app/services/closures.py:34-86 | a closure whose instant range meets no live booking of the shop keeps every invariant |
| BookingLaws.HandleKeeps | app/services/booking.py:67-239 | every request, run alone, keeps the invariant |
| BookingLaws.RunKeeps | app/services/booking.py:1-12 | serially, forever: no double booking, and no live booking overlaps a break of its barber or a closure of its shop |
| BookingLaws.NoCommitFails | app/services/booking.py:392-399 | in every serial run the 23P01 branch is never taken: create and reschedule answer what the check answered, the others never fail |
| Outcomes.SettingsInMicroseconds | app/core/config.py:45-47 | the 15-minute grid, the 30-minute lead, the two-hour cutoff and the 30-minute wait, in microseconds |
| Outcomes.WeekdaysFollow | app/services/slots.py:136-141 | day 1 of the ordinals is a Monday and each day takes the next weekday, 0 to 6 round |
| Outcomes.WorkingMeans | app/services/slots.py:131-148 | the working instants of a date are those of the barber's rows for its weekday, from the one wall reading to the other |
| Outcomes.OnlyTheDaysRosterMatters | app/services/slots.py:136-142 | offers and refusals on a date depend on the roster through the barber's rows for that weekday alone |
| Outcomes.TakenMeans | app/services/slots.py:158-165 | an instant is taken iff a PENDING or CONFIRMED row of the barber, other than the excluded one, covers it |
| Outcomes.OfferedMeans | app/services/slots.py:66-95 | an offer in the columns of closures, roster, breaks and bookings, the 15-minute grid and the 30-minute lead |
| Outcomes.ResolveExactlyWhen | app/services/booking.py:402-422 | barber and service must be there and active, of one shop, and the service one the barber performs; the exact refusal otherwise |
| Outcomes.RefusalExactlyWhen | app/services/slots.py:98-128 | a list can be shown iff that holds, the shop is active, the day has length, and the shop is closed or no shift raises |
| Outcomes.CreatedRow | app/services/booking.py:77-97 | every column of the inserted row: PENDING iff the shop vets its bookings, else CONFIRMED; no other row changes |
| Outcomes.CreateExactlyWhen | app/services/booking.py:67-99 | Done, SLOT_TAKEN and OUTSIDE_WORKING_HOURS by whether a PENDING or CONFIRMED row of the barber overlaps the time |
| Outcomes.RescheduleExactlyWhen | app/services/booking.py:133-166 | the same for a move: only rows other than its own can be in the way; the row takes the new time and the service's present length |
| Outcomes.ChangeGuardsExactlyWhen | app/services/booking.py:425-463 | who may cancel or move: strangers are refused, settled rows are refused, customers are refused from two hours before the start on, staff are not |
| Outcomes.ConfirmExactlyWhen | app/services/booking.py:169-190 | only staff confirm, only a PENDING row, and only its status changes |
| Outcomes.CloseOutExactlyWhen | app/services/booking.py:205-239 | only staff close out, only a PENDING or CONFIRMED row, from its start on, and only its status changes |
| Outcomes.CommitExactlyWhen | app/models/appointment.py:45-54 | a row is written iff its end is after its start, its price is not negative and no other held row of the barber overlaps it |
| Outcomes.ExpiredRows | app/workers/tasks.py:152-171 | expiry changes exactly the PENDING rows more than thirty minutes old, and adds and drops none |
| Outcomes.BreakExactlyWhen | app/services/schedule.py:92-118 | each refusal of a break, and that it is recorded iff no PENDING or CONFIRMED row of the barber overlaps it |
| Outcomes.ClosureExactlyWhen | app/services/closures.py:34-86 | each refusal of a closure, and that it is recorded iff no such row of the shop overlaps its midnights and it is not there already |
| Outcomes.RemovalExactlyWhen | app/services/closures.py:89-97 | a break or closure goes iff it is there, can be seen, and staff ask |
| Outcomes.ReplacedRoster | app/services/schedule.py:42-68 | after a replacement the barber has the week's rows, and every other barber exactly its rows, counted |
| Outcomes.ValidWeekExactlyWhen | app/schemas/schedule.py:13-59 | a valid week in its items' columns: at most fifty, seven weekdays, ends after starts, no two of a day overlapping |
| Desk.Database.ShiftsFor | app/services/slots.py:131-148 | the shifts cover exactly the instants some roster row of that weekday covers; fails iff one of them raises |
| Desk.Database.Appointments | app/services/slots.py:151-167 | inside the window the fetched spans cover exactly the taken instants, less the excluded appointment |
| Desk.Database.Breaks | app/services/slots.py:183-197 | inside the window the fetched spans cover exactly the instants on break |
| Desk.Database.AvailableSlots | app/services/slots.py:42-95 | the list shown is exactly the offered starts, in order; every error condition is exact |
| Desk.Database.FreeIsOffered | app/services/slots.py:73-95 | window query, clip, exclusion and engine together decide the offer stated on the tables |
| Desk.Database.AssertOnOffer | app/services/booking.py:335-389 | two availability queries and two scans give the outcome stated on the tables |
| Desk.Database.CommitRow | app/services/booking.py:392-399 | a row is written iff the constraints hold, and a violation is reported as SLOT_TAKEN or as a server error, leaving the tables alone |
| Desk.Database.CreateAppointment | app/services/booking.py:67-99 | the service is the create transition, tables and outcome |
| Desk.Database.CancelAppointment | app/services/booking.py:107-130 | the service is the cancel transition, tables and outcome, and keeps the serial invariant, with no constraint in its way |
| Desk.Database.RescheduleAppointment | app/services/booking.py:133-166 | the service is the reschedule transition, tables and outcome |
| Desk.Database.ConfirmAppointment | app/services/booking.py:169-190 | the service is the confirm transition, tables and outcome, and keeps the serial invariant, with no constraint in its way |
| Desk.Database.CloseOutAppointment | app/services/booking.py:205-234 | complete and no-show are the close-out transition, tables and outcome, and keeps the serial invariant, with no constraint in its way |
| Desk.Database.ExpireStalePending | app/workers/tasks.py:152-171 | the loop cancels exactly the overdue PENDING rows and counts them |
| Desk.Database.AddBreak | app/services/schedule.py:92-118 | the service is the break transition: refused iff a live booking of the barber overlaps; the invariant is kept |
| Desk.Database.RemoveBreak | app/services/schedule.py:121-130 | exactly that break goes, and the invariant is kept |
| Desk.Database.AddClosure | app/services/closures.py:34-86 | the service is the closure transition: refused iff a live booking of the shop overlaps the range, or it is recorded already; the invariant is kept |
| Desk.Database.RemoveClosure | app/services/closures.py:89-97 | exactly that closure goes, unless the shop is hidden from the caller, and the invariant is kept |
| Desk.Database.ReplaceWorkingHours | app/services/schedule.py:42-68 | delete-then-insert replaces exactly one barber's week, and only by a valid one |
| Lifecycle.HandleMoves | app/services/booking.py:107-234 | the only moves a row can make, which request makes each, from which status and under which guard |
| Lifecycle.TerminalIsFinal | app/services/booking.py:118-122 | serially, COMPLETED, CANCELLED and NO_SHOW rows are frozen in every run |
| Lifecycle.PriceIsFinal | app/services/booking.py:92-94 | serially, the price and the parties of a booking never change |
| Lifecycle.ClosedOnlyAfterStart | app/services/booking.py:215-230 | a row that became COMPLETED or NO_SHOW in a run, created in it or before, was closed out by staff at or after the start it has |
| Lifecycle.ExpiryTouchesOnlyPending | app/workers/tasks.py:152-171 | expiry changes a row iff it is PENDING and older than thirty minutes, and only to CANCELLED |
| Interleaving.CommitExcludes | app/models/appointment.py:48-54 | checking only the written rows at each commit keeps the whole table free of double bookings |
| Interleaving.NeverDoubleBooked | app/models/appointment.py:48-54 | in every interleaving of all requests, with any stale reads, no two live rows of one barber overlap |
| Interleaving.AloneIsSerial | app/services/booking.py:67-239 | the split steps of any request, schedule requests included, taken without interruption, are the request as specified: tables and outcome |
| Interleaving.EndsWithinFourTurns | app/services/booking.py:67-234 | whatever the others do, a request has ended after four turns of its own |
| Races.SameButForAppointments | app/services/booking.py:370-378 | the second, "if empty" query does not depend on the appointments |
| Races.InTheWayIsAWinner | app/services/booking.py:392-399 | a commit refused in a race was beaten by another racer, not by an older booking |
| Races.MissedMeansBeaten | app/services/booking.py:355-364 | a racer that finds its start gone was beaten by another racer's commit |
| Races.RaceKeeps | app/services/booking.py:335-399 | the race invariant over every order of the racers' steps |
| Races.RaceOutcome | app/services/booking.py:335-399 | every complete race: winners pairwise disjoint, each loser ends with SLOT_TAKEN and overlaps a winner, and only winners' rows were added |
| Races.WinnersRow | app/services/booking.py:77-97 | every column of a winner's row after a race |
| Races.RaceFinishes | app/services/booking.py:335-399 | a race is complete once each racer has had four turns |
| Races.OneWinner | tests/integration/test_booking_concurrency.py:167-200 | racers for one slot: exactly one wins |
| Staleness.PriceIsFinalAlways | app/services/booking.py:92-94 | in every interleaving no row is lost and its price and parties never change |
| Staleness.TasksHoldLiveRows | app/services/booking.py:455-463 | whatever a request is about to write over was live when it read it |
| Staleness.TerminalIsFinalWhenFresh | app/services/booking.py:107-234 | terminal rows stay frozen in every interleaving whose commits find the statuses they read |
| Staleness.StaysExactlyWhen | app/services/booking.py:107-234 | over a whole interleaving a row, and so a terminal one, stays as it is iff no commit brings a changed column that differs from what is stored |
| Staleness.StatusCommit | app/services/booking.py:107-234 | what a status request's late commit does to the row as it stands then |
| Staleness.TerminalOverwrittenExactlyWhen | app/services/booking.py:181-188 | exactly when a late cancel, confirm or close-out changes a row that has become terminal |
| Staleness.TerminalMovedExactlyWhen | app/services/booking.py:133-166 | exactly when a late reschedule moves a row that has become terminal |
| Staleness.TerminalExpiredExactlyWhen | app/workers/tasks.py:152-171 | exactly which terminal rows a late expiry cancels, over its whole batch |
| Staleness.FreshCommitIsSerial | app/services/booking.py:107-234 | a commit whose row is as it was read equals the whole request run at once |
| Staleness.StaleConfirmRevives | app/services/booking.py:181-188 | reachable from any pending row: a confirm overwrites a cancel committed in between, and both report success |
| Staleness.StaleExpiryCancels | app/workers/tasks.py:157-170 | reachable from any overdue row that has started: an expiry turns a COMPLETED row into a CANCELLED one |
| Staleness.StaleMoveOfCompleted | app/services/booking.py:148-163 | reachable whenever a started booking can be moved: a reschedule moves a row completed in between into the future, so a COMPLETED row starts after its close-out |
| StaleSchedules.CommitKeepsBreaksExactlyWhen | app/services/schedule.py:98-107 | a commit keeps bookings clear of breaks iff each live row it leaves behind is clear of the breaks recorded by then |
| StaleSchedules.CommitKeepsClosuresExactlyWhen | app/services/closures.py:40-71 | the same for closures |
| StaleSchedules.CommitKeepsExactlyWhen | app/services/booking.py:392-399 | a commit keeps the whole serial invariant iff it passes the schedule check it leaves out |
| StaleSchedules.RecordKeepsExactlyWhen | app/services/schedule.py:109-116 | a break or closure recorded after its look-up keeps the whole serial invariant iff no live booking is in its way by then |
| StaleSchedules.TurnKeepsExactlyWhen | app/services/booking.py:355-399 | every turn of an interleaving but a commit keeps the invariant; a commit, of a booking or of a break or closure, keeps it iff it passes the check it omits |
| StaleSchedules.RunKeepsExactlyWhen | app/services/booking.py:335-399 | an interleaved run keeps bookings apart and clear of breaks and closures all along iff every commit in it passes the check it omits |
| StaleSchedules.UndisturbedRunKeeps | app/services/booking.py:335-399 | it does if at each commit no task is about to record over time another is about to take or over a day another is looking at, no commit revives a row, and none mixes the start of one move with the end of another |
| StaleSchedules.BreakSlipsIn | app/services/schedule.py:98-116 | for every offered start, a break over it can be looked up and recorded between the booking's check and its commit |
| StaleSchedules.BookingSlipsUnderBreak | app/services/schedule.py:98-116 | and the booking can be checked and committed between the break's look-up and its record; until the record the invariant holds |
| StaleSchedules.ClosureSlipsIn | app/services/closures.py:46-80 | on a day without bookings, the day of any offered start can be closed between check and commit |
| StaleSchedules.BookingSlipsUnderClosure | app/services/closures.py:46-80 | and the booking made between the closure's look-up and its record |
| Ratings.HalfUpIsNearest | app/services/ratings.py:50-54 | the rounded value is `r` iff the exact mean lies in [r - 1/2, r + 1/2) hundredths: ties go up |
| Ratings.RoundingTwiceIsHarmless | app/services/ratings.py:44-54 | averaging to any number of decimals that outweighs the count and then rounding half up to two equals rounding the exact mean once |
| Ratings.TotalsByGrade | app/services/ratings.py:44-48 | the count and the sum of a barber's reviews, grade by grade |
| Ratings.SummaryInRange | app/services/ratings.py:50-55 | the rating is within 0 and 5, and at least 1 once there is a review |
| Ratings.SummaryIsTheMean | app/services/ratings.py:44-56 | the computed pair is the only one that says the review count and the half-up mean |
| RatingProtocol.CommitStep | app/services/reviews.py:47-64 | a writer's commit leaves every other transaction's work up to date and spoils no correct pair |
| RatingProtocol.StepKeeps | app/services/reviews.py:47-64 | every step of a writer or a repair keeps the protocol's invariant |
| RatingProtocol.RatingsStayCorrect | app/services/ratings.py:35-56 | in every interleaving of writers and repairs a pair that starts correct is the half-up mean and the count of the committed reviews, within 0..5 |
| RatingProtocol.RepairRepairs | app/workers/tasks.py:175-224 | once a repair has committed, every barber it listed is correct, drifted before or not, and stays so |
| RatingProtocol.SomeoneCanStep | app/services/ratings.py:17-32 | locks taken first: while someone is unfinished, someone can step |
| RatingProtocol.SomeoneCanStepInOrder | app/services/ratings.py:17-32 | the same with any number of repairs that list the barbers in one common order |
| RatingProtocol.EveryoneFinishes | app/services/reviews.py:44-64 | with one repair at most or all in one order, every run of steps is bounded, and when nobody can step everyone has committed or been rejected |
| RatingProtocol.TwoRepairsCanDeadlock | app/workers/tasks.py:183-187 | the common order is needed: two repairs that list two barbers in opposite orders can block each other |
| InsertFirst.StuckForGood | app/services/ratings.py:20-25 | over the same store: two writers of one barber that have both inserted before locking never finish, whatever anybody does next |
| InsertFirst.DeadlockIsReachable | app/services/ratings.py:20-28 | inserting before locking reaches that from any start with two writers of one barber |
| ReviewDesk.ReviewTables.RecomputeBarberRating | app/services/ratings.py:35-56 | the barber's pair becomes the half-up mean and the count; no other pair changes |
| ReviewDesk.ReviewTables.CreateReview | app/services/reviews.py:22-66 | Created iff the appointment exists, is the caller's, is COMPLETED and has no review; a review is stored once with its barber's new pair, and honest pairs stay honest |
| ReviewDesk.VerdictExactlyWhen | app/services/reviews.py:32-61 | each refusal by the appointment's columns, the first that applies |
| ReviewDesk.AddedReviewsAreEarned | app/services/reviews.py:32-55 | over every run, every added review was asked for by the customer of the appointment while it was COMPLETED, and names its barber |
| ReviewDesk.ReviewRunKeeps | app/services/reviews.py:22-66 | over every run no review is lost, none comes twice for one appointment, and honest pairs stay honest |
| ReviewDesk.ReviewTables.RecomputeBarberRatings | app/workers/tasks.py:175-224 | every barber ends correct, and the returned count is exactly the barbers that had drifted |
| ReviewDesk.WriterAlone | app/services/reviews.py:47-64 | the four protocol steps of one writer, run alone, are the service's create |
| Reminders.AtMostOnce | app/workers/tasks.py:109-148 | queued at most once iff no sweep died after queueing it, or one did and nobody claimed it again; under any number of duplicate or overlapping sweeps |
| Reminders.CopiesAreCounted | app/workers/tasks.py:109-148 | in every run the number of copies of a reminder is the number of sweeps that died after queueing it, plus one if its claim is held |
| Reminders.ClaimedIsNotMailedAgain | app/workers/tasks.py:196-205 | once its claim is committed a reminder is never queued again, so a booking moved after its reminder gets none for its new time |
| Reminders.DueExactlyWhen | app/workers/tasks.py:122-130 | which rows a sweep selects, by their columns |
| Reminders.NothingWithoutCause | app/workers/tasks.py:120-146 | in every interleaving, while no sweep has selected a row and the row is absent, settled or outside the window of every sweep going, no reminder of it goes out |
| Reminders.SeenIsMailed | app/workers/tasks.py:120-146 | from any step at which a sweep has still to select a kind, a booking in its window, live and unmoved since then, is claimed by the time the sweep commits |
| Reminders.WindowsCoverExactlyWhen | app/workers/tasks.py:38-41 | the windows cover the swept span iff no two neighbouring sweeps are further apart than the window |
| Reminders.ExactlyOnce | app/workers/tasks.py:109-148 | a booking live and unmoved since before sweeps with such gaps selected its kind, whose start less the horizon is in their span, has been sent one mail of the kind, and one more for each sweep that died after queueing it; the one mail comes after that point iff its claim was not held then |
| Reminders.LateAbortSendsTwice | app/workers/tasks.py:138-146 | a sweep that aborts after queueing makes a later one queue the mail again |
| Reminders.SomeSweepIsFree | app/workers/tasks.py:138-146 | if selections come in one common order of rows, sweeps never wait for one another in a circle |
| Reminders.TwoSweepsCanBlock | app/workers/tasks.py:122-134 | the query asks for no order: two sweeps that select two rows in opposite orders come to wait for each other |
| Reminders.ReminderDesk.RemindAll | app/workers/tasks.py:138-146 | queues exactly the selected rows not claimed before, each once, and counts them |
| Reminders.ReminderDesk.SendAppointmentReminders | app/workers/tasks.py:109-148 | one sweep alone queues exactly the unclaimed reminders of PENDING and CONFIRMED rows that start within the window after the horizon, each once |
| RateLimit.SlidingWindowLimiter.Check | app/core/rate_limit.py:24-38 | eviction loop, refusal and append give the verdict and the queue of the specification; other keys untouched |
| RateLimit.SlidingWindowLimiter.Reset | app/core/rate_limit.py:40-41 | every key is let through again, whatever it had used up |
| RateLimit.NoRoomAtAll | app/core/rate_limit.py:31-32 | with a limit below one nothing is let through, and an empty queue makes the code fail |
| RateLimit.EvictKeepsRecent | app/core/rate_limit.py:28-29 | eviction from the front leaves exactly the accepted times still in the window |
| RateLimit.QueuesHoldRecent | app/core/rate_limit.py:24-38 | over every run a key's queue is its accepted times less some that have left the window |
| RateLimit.RefusedExactlyWhenFull | app/core/rate_limit.py:31-38 | refused iff at least `limit` calls of the key were accepted in the closed window ending now |
| RateLimit.RefusedExactlyAtLimit | app/core/rate_limit.py:31-38 | and then it is exactly `limit` of them |
| RateLimit.AtMostLimitInAnyWindow | app/core/rate_limit.py:24-38 | any closed span as long as the window, wherever it lies, holds at most `limit` accepted calls of a key |
| RateLimit.RefusalsLeaveNoTrace | app/core/rate_limit.py:31-38 | dropping the refused calls from a run leaves the same accepted times for every key |
| RateLimit.RefusalsChangeNothing | app/core/rate_limit.py:31-38 | a refused call changes no later verdict and no later wait |
| RateLimit.PromiseIsKept | app/core/rate_limit.py:32-36 | with no other call of the key, a call any real time later passes iff the oldest hit has left the window, hence whenever the promised time has passed |
| RateLimit.OldestIsLimitthLast | app/core/rate_limit.py:31-32 | that oldest hit is the `limit`-th last accepted call of the key |
| RateLimit.PromisedWaitIsExact | app/core/rate_limit.py:32-36 | among waits of whole seconds, exactly those of at least the promised number pass |
| Auth.RunKeeps | app/services/auth.py:26-133 | over every serial run each chain has at most one live token, and no token is exchanged twice |
| Auth.ExchangedTokensAreSpent | app/services/auth.py:65-89 | a token once exchanged is answered as reuse in every later state |
| Auth.RevokedForGood | app/services/auth.py:128-133 | revocation is never undone nor restamped |
| Auth.RefreshIssuesExactlyWhen | app/services/auth.py:65-89 | a new pair is issued iff the token is live, unexpired and its account active, and it continues the same chain |
| Auth.ReuseEndsAllSessions | app/services/auth.py:74-77 | presenting a revoked token leaves that user without a live token and other users untouched |
| Auth.ReuseLocksOut | app/services/auth.py:74-77 | after that, every token the user had is answered as reuse |
| Auth.RegisterExactlyWhen | app/services/auth.py:26-44 | a taken email is refused and changes nothing; otherwise one active account and one live token more |
| Auth.LoginExactlyWhen | app/services/auth.py:47-62 | an unknown email, a wrong password and a deactivated account are refused; otherwise one live token more |
| Auth.RefreshExactlyWhen | app/services/auth.py:65-89 | each refusal exactly; an exchange revokes the one token and adds another of its user and chain, good for thirty days |
| Auth.LogoutExactlyWhen | app/services/auth.py:92-97 | afterwards the token is dead and presenting it counts as reuse; other tokens are as they were |
| Auth.PromptExchangeIsSerial | app/services/auth.py:65-89 | a refresh whose commit finds the token still live is the whole refresh run at once |
| Auth.LateExchangeKeepsExactlyWhen | app/services/auth.py:86-89 | the chain guarantees outlive a late commit iff the token was not exchanged, nor its chain continued, meanwhile |
| Auth.TwoExchangesOfOneToken | app/services/auth.py:65-89 | two refreshes that read one token as live and commit one after the other leave two live tokens of one chain |
| Auth.AuthService.IssueTokenPair | app/services/auth.py:100-114 | one more token, live, of that user and not yet expired; every other token as it was |
| Auth.AuthService.RegisterUser | app/services/auth.py:26-44 | the service is the register transition, state and outcome |
| Auth.AuthService.LogIn | app/services/auth.py:47-62 | the service is the login transition, state and outcome |
| Auth.AuthService.RefreshToken | app/services/auth.py:65-89 | the service is the refresh transition, state and outcome |
| Auth.AuthService.LogOut | app/services/auth.py:92-97 | the service is the logout transition, and logging out twice is not an error |
| Search.EscapeIsOnePass | app/services/barbershop.py:181-183 | the three chained replaces equal one pass over the characters, because the backslash goes first |
| Search.EscapedPrefix | app/services/barbershop.py:181-183 | an escaped text at the head of a pattern matches itself and nothing else |
| Search.SearchIsSubstring | app/services/barbershop.py:93-98 | `%` + escape(s) + `%` matches a text iff the text contains `s`, for all strings |
| Search.WildcardsFindEverything | app/services/barbershop.py:181-183 | unescaped wildcards find every text |
| Search.BackslashMustGoFirst | app/services/barbershop.py:181-183 | with the backslash replaced last the escaping comes out wrong |

## Left out

- HTTP, request parsing beyond the checks named above, error bodies, logging, settings, migrations, the web client: no hard property.
- The settings `SLOT_STEP_MINUTES`, `MIN_BOOKING_LEAD_MINUTES` and `APPOINTMENT_CHANGE_CUTOFF_MINUTES` are at their defaults of 15, 30 and 120.
- PostgreSQL itself: a table is a map, a constraint is a condition on commit, a row lock is an entry in a lock table; every read sees the latest commit. Waiting inside a constraint check, its deadlock detector and the key-share locks taken by bookings are not modelled.
- In interleavings an availability query is two reads: barber, shop, service and closures, and then working hours, bookings and breaks. The code reads these last three one after the other. The guarantees about breaks and closures rest on the breaks, which are read last, and an old list of bookings is made good by the exclusion constraint.
- In interleavings the query that only picks the error is one read, and deleting a break or closure, replacing working hours and a catalog change are one step each: none of them takes time or blocks any. The row `created_at` is the request's own clock.
- The real time zone database: zones are as described above; a transition that skips or repeats a midnight is excluded by the agreement assumption (`OneChangeAgrees` says exactly which).
- A shop that changes its time zone and a barber who changes shop are not part of the runs: either moves closures relative to bookings.
- Retirement of barbers, services and shops: `is_active` is an input that any catalog change may set; its guards are not modelled.
- Roles and ownership are reduced to an actor (staff, the customer, a stranger) or a staff flag.
- CancelAppointment: `cancelled_by_id` and `cancellation_reason` are not modelled, because nothing reads them back into a decision.
- ExpireStalePending: `cancellation_reason` is not modelled, for the same reason.
- AddBreak: the `reason` column is not modelled, for the same reason.
- AddClosure: the `reason` column is not modelled, for the same reason.
- CreateReview: the `comment` column is not modelled, for the same reason.
- Notifications other than reminders.
- Cascading deletes, and deletion of reviews, appointments or users.
- Datetime and integer overflow: instants, prices and counts are unbounded.
- RoundingTwiceIsHarmless: needs the scale of the average to exceed a hundred times the count. PostgreSQL's `numeric` division keeps at least sixteen decimals here, so fewer than 10^14 reviews of one barber are enough, far above the 32-bit `reviews_count`.
- EveryoneFinishes: assumes at most one repair, or one common order of barbers; the task's query asks for no order, and `TwoRepairsCanDeadlock` shows why that matters.
- The rating protocol starts once a writer has passed its checks on the appointment; only the uniqueness of the review is checked again under the lock. That the appointment is then still COMPLETED holds in serial runs only: a stale expiry can cancel it (`StaleExpiryCancels`).
- Delivery and retries of mail, and what the database does about two sweeps that block each other.
- `time.monotonic` returns floats; the limiter's times are reals. Client keys and the FastAPI dependency are not modelled.
- RefreshToken: hashing, random tokens, access tokens and password rehashing are not modelled; tokens are fresh opaque values. Runs are serial; of interleavings only one late commit is described, not runs of them.
- LogIn: the account an email belongs to is a parameter, constrained to be the right one.
- SearchIsSubstring: `strip` and the rest of the search query are not modelled; ILIKE's case folding is an arbitrary function on characters.
- Distances, dashboards, pagination and sorting: sums and one-line formulas in SQL.
