# Hours-of-service duty scheduler

A model of `generate_duty_blocks` in `trips/utils/duty_scheduler.py`.
Given the miles from the driver's position to the pickup, the miles from
the pickup to the dropoff, and the hours already used in the driver's
rolling 70-hour cycle, it plans a trip of four steps:

1. an empty drive, taken only when the first distance is positive;
2. the pickup;
3. a loaded drive;
4. the dropoff.

The result is the ordered list of `{day, activity, hours}` duty blocks and
the cycle hours left at the end. A driver who starts over the cycle limit
is refused.

The scheduler's nested helpers pass one state between them: the day, the
day's on-duty hours, the day's driving hours and the cycle hours.

- `ensure_cycle_compliance` takes a 34-hour restart when the next activity
  would push the cycle over 70 hours.
- `handle_cycle_reset` takes that restart in the sleeper berth, in rests of
  at most 10 hours a day.
- `split_block` spreads an activity over days. Each chunk must fit the
  room left in the 24-hour day, the 11-hour driving allowance (for driving)
  or the 14-hour on-duty allowance (for anything else). A day that is full
  or has no room left is closed with a 10-hour off-duty rest.
- `drive_segment` cuts a leg into stretches of at most 1000 miles, with a
  fuel stop between consecutive stretches.
- `add_pickup_dropoff_activity` adds the fixed pickup or dropoff time.

## Layout

- `regulations.dfy` (`Regulations`) holds the constants 70, 24, 11, 14, 10,
  34 and 1000. It also holds `Params`, which carries the average speed, the
  fuel-stop length and the pickup/dropoff length, all required positive.
- `duty_blocks.dfy` (`DutyBlocks`) holds the activity tags as a datatype,
  the block, the state, and sums over block sequences. The source's
  `"driving" in activity` test is the predicate `IsDriving`.
- `measures.dfy` (`Measures`) holds `Min`, `Max` and `Units(x, u)`, the
  ceiling of x/u. `Units` is the termination measure of the loops, whose
  counters are reals.
- `duty_schedule.dfy` (`DutySchedule`) is the specification. It has one
  function per helper and per loop, from a state to the blocks emitted and
  the state left behind.
- `duty_scheduler.dfy` (`DutyScheduler`) is the program as it runs, with
  its `while` loops.
  - The helpers that receive and return the counters are methods from a
    `State` to blocks and a `State`.
  - The enclosing function's counters, and the `duty_blocks` list it
    extends in place, are the fields of the class `Scheduler`.
  - Every method is proved to compute exactly its specification function.
  - The loop bodies of `split_block` and `drive_segment` are the methods
    `SplitPass` and `Scheduler.DrivePass`.
  - `Scheduler.CheckedSplit` is the step the source repeats three times: the
    compliance check, `split_block`, and appending both results to
    `duty_blocks`.
- `reset_properties.dfy`, `split_properties.dfy`, `drive_properties.dfy`
  and `schedule_properties.dfy` prove what each helper and the whole
  schedule promise.
- `duty_ledger.dfy` (`DutyLedger`) holds the invariant that every step
  keeps. Blocks are in day order from day 1. The day's driving counter
  equals the driving stamped on the current day, and is at most 11 hours.
  Every earlier day drove at most 11 hours. The cycle is at most 70 hours.

### Behaviour kept as written

- The 34-hour restart lowers the cycle by 34 hours, never below zero. It
  does not clear the cycle (`ResetDoesNotClearCycle`).
- Driving counts toward the day's on-duty hours, and the day's elapsed time
  adds on-duty and driving hours together. A driving hour therefore uses
  two hours of the 24-hour room.
- A driving chunk is capped by the driving allowance and the day's room,
  not by the 14-hour on-duty window (`DrivingIgnoresOnDutyWindow`).
- A negative distance drives nothing, exactly like a zero distance.

## Model

| member | source | states |
|---|---|---|
| DutySchedule.Compliance | trips/utils/duty_scheduler.py:28-40 | no blocks exactly when cycle + activity hours is at most 70; then the state is unchanged; otherwise exactly the cycle reset |
| DutySchedule.CycleReset | trips/utils/duty_scheduler.py:100-117 | a reset is four sleeper-berth rests of 10, 10, 10 and 4 hours on four consecutive days; it ends on the third day after, with both day counters cleared and the cycle at max(0, cycle - 34) |
| DutySchedule.Chunk | trips/utils/duty_scheduler.py:57-66 | a chunk is at most the remaining hours and at most the room left in the 24-hour day; a driving chunk is at most the driving allowance left; any other chunk is at most the on-duty allowance left; and it equals one of these bounds |
| DutySchedule.Account | trips/utils/duty_scheduler.py:80-88 | working h hours keeps the day; non-rest work adds h to the cycle and to the day's on-duty hours; only driving adds h to the day's driving |
| DutySchedule.IterationRolls | trips/utils/duty_scheduler.py:68-75 | unfolding lemma: when nothing fits, a pass emits the reset blocks (if any) and one 10-hour off-duty rest, moves to the next day with both counters cleared, and keeps every requested hour |
| DutySchedule.IterationCloses | trips/utils/duty_scheduler.py:77-96 | unfolding lemma: a chunk that uses up the day's driving or on-duty allowance is followed by one 10-hour rest stamped with the same day, then the next day with both counters cleared; the chunk comes off the remaining hours |
| DutySchedule.IterationContinues | trips/utils/duty_scheduler.py:77-88 | unfolding lemma: a chunk that leaves room in the day is the pass's last block; the counters are moved by the chunk and the chunk comes off the remaining hours |
| DutySchedule.SplitProgress | trips/utils/duty_scheduler.py:49-97 | every pass of split_block's loop either lowers the number of 11-hour units of work left, or leaves that number as it was and moves the day closer to a fresh one (such a pass may still place a partial chunk), so the loop ends |
| DutySchedule.DriveLoopStep | trips/utils/duty_scheduler.py:123-163 | unfolding lemma: a pass of drive_segment's loop is one segment of min(1000, remaining) miles, then, while distance is left, one fuel stop and the rest of the leg; the number of 1000-mile units left shrinks |
| ResetProperties.ResetLoopShape | trips/utils/duty_scheduler.py:105-116 | the reset loop emits ceil(remaining/10) sleeper-berth blocks; block i is on day d + i and lasts min(10, remaining - 10 i); they add up to the reset; the cycle drops by it, never below zero; a new day with cleared counters follows every block but the last |
| ResetProperties.CycleResetTotals | trips/utils/duty_scheduler.py:100-117 | a reset emits only sleeper-berth time, exactly 34 hours; the cycle never goes negative; for any starting cycle, negative ones included, it drops by min(cycle, 34) |
| ResetProperties.ResetDoesNotClearCycle | trips/utils/duty_scheduler.py:111 | a driver with more than 34 cycle hours still has cycle - 34 hours after the reset |
| ResetProperties.ComplianceResetsOnce | trips/utils/duty_scheduler.py:28-40 | the compliance check emits only sleeper-berth time: 34 hours (one reset) exactly when cycle + activity hours exceeds 70, and otherwise nothing, with the state unchanged |
| SplitProperties.SplitIterationTotals | trips/utils/duty_scheduler.py:49-97 | a pass places exactly the hours it takes off the remaining hours (never more than remain) and emits only the activity, 10-hour rests and sleeper-berth blocks; each chunk is positive and at most the request |
| SplitProperties.SplitLoopTotals | trips/utils/duty_scheduler.py:42-98 | split_block places exactly the requested hours (none for a non-positive request), in positive chunks of at most the request; all it emits besides is 10-hour off-duty rest and sleeper-berth time |
| SplitProperties.SplitWithoutReset | trips/utils/duty_scheduler.py:49-98 | when the request fits under the cycle limit, split_block takes no reset and raises the cycle by exactly the hours placed |
| SplitProperties.DrivingIgnoresOnDutyWindow | trips/utils/duty_scheduler.py:62-66 | after 10 hours of non-driving work, an 11-hour drive is placed whole on the same day, past the 14-hour on-duty window |
| DriveProperties.SegmentsShape | trips/utils/duty_scheduler.py:123-144 | the cut that `DriveLoopBySegments` shows drive_segment drives: a positive leg is cut into ceil(miles/1000) segments, each positive and at most 1000 miles, adding up to the leg, with one fuel stop fewer than segments; a non-positive leg has no segment |
| DriveProperties.DriveLoopBySegments | trips/utils/duty_scheduler.py:123-163 | drive_segment drives exactly the segments `Segments` cuts the leg into, in order, each after its own compliance check, with one fuel stop between each segment and the next and none after the last |
| DriveProperties.GuardedSplitTotals | trips/utils/duty_scheduler.py:128-143 | the compliance check followed by split_block places exactly max(0, hours) of the activity, in chunks of at most `hours`, and otherwise only rest and sleeper-berth time |
| DriveProperties.SegmentTotals | trips/utils/duty_scheduler.py:125-143 | one segment drives exactly segment/speed hours, with no fuel time and chunks of at most 1000/speed hours |
| DriveProperties.FuelStopTotals | trips/utils/duty_scheduler.py:146-162 | one fuel stop is exactly the fuel-stop length of fuelling and no driving |
| DriveProperties.DriveStepTotals | trips/utils/duty_scheduler.py:123-163 | a full 1000-mile segment, a fuel stop and the rest of the leg together drive the whole leg and stop ceil(miles/1000) - 1 times |
| DriveProperties.DriveLoopTotals | trips/utils/duty_scheduler.py:119-164 | drive_segment drives max(0, miles)/speed hours; it takes FuelStops(miles) = ceil(miles/1000) - 1 fuel stops, none for a non-positive leg (`Repeat(n, x)`, proved equal to n * x); it emits only the leg's driving, fuel, rest and sleeper-berth blocks, in chunks of at most 1000/speed hours; a non-positive distance emits nothing and leaves the state as it was |
| DriveProperties.AddActivityTotals | trips/utils/duty_scheduler.py:166-186 | a pickup or dropoff places exactly the fixed stop time of its own tag, and otherwise only rest and sleeper-berth time |
| DutyLedger.InitialConsistent | trips/utils/duty_scheduler.py:24-26 | the empty schedule on day 1 with zero counters satisfies the invariant for any starting cycle within the limit |
| DutyLedger.ConsistentDailyDriving | trips/utils/duty_scheduler.py:90-96 | under the invariant, no day of the schedule has more than 11 hours of driving |
| DutyLedger.NextDay | trips/utils/duty_scheduler.py:72-74 | moving to the next day with the driving counter cleared keeps the invariant |
| DutyLedger.ResetLoopConsistent | trips/utils/duty_scheduler.py:105-116 | the reset loop keeps the invariant |
| DutyLedger.ComplianceConsistent | trips/utils/duty_scheduler.py:28-40 | the compliance check keeps the invariant |
| DutyLedger.RolloverConsistent | trips/utils/duty_scheduler.py:68-75 | closing the day with a rest and moving on keeps the invariant |
| DutyLedger.WorkConsistent | trips/utils/duty_scheduler.py:77-88 | a chunk within the day's driving allowance and the cycle limit keeps the invariant |
| DutyLedger.SplitIterationConsistent | trips/utils/duty_scheduler.py:49-97 | every pass of split_block's loop keeps the invariant: after the compliance check, the chunk fits the cycle limit |
| DutyLedger.SplitLoopConsistent | trips/utils/duty_scheduler.py:42-98 | split_block keeps the invariant |
| DutyLedger.GuardedSplitConsistent | trips/utils/duty_scheduler.py:170-185 | a compliance check followed by split_block keeps the invariant |
| DutyLedger.DriveLoopConsistent | trips/utils/duty_scheduler.py:119-164 | drive_segment keeps the invariant |
| ScheduleProperties.GenerateRejectsOverLimit | trips/utils/duty_scheduler.py:19-22 | the call fails exactly when the starting cycle exceeds 70 hours, with those hours in the error, and no schedule |
| ScheduleProperties.TripConsistent | trips/utils/duty_scheduler.py:188-206 | the invariant holds after the four steps of the trip |
| ScheduleProperties.ScheduleRespectsLimits | trips/utils/duty_scheduler.py:24-208 | the schedule is not empty; it starts on day 1; its days never decrease; no day has more than 11 hours of driving; it leaves the cycle within 70 hours |
| ScheduleProperties.TripShaped | trips/utils/duty_scheduler.py:191-206 | each trip step emits only its own kinds of block, with the driving, fuel and stop hours that step owns |
| ScheduleProperties.ScheduleTotals | trips/utils/duty_scheduler.py:166-208 | the schedule has exactly the fixed stop time of pickup and of dropoff, both legs driven in full at the average speed, and ceil(miles/1000) - 1 fuel stops per positive leg |
| ScheduleProperties.ScheduleOrder | trips/utils/duty_scheduler.py:191-206 | no empty-drive block follows the pickup, no pickup block follows loaded driving, and no loaded-driving block follows the dropoff |
| DutyScheduler.HandleCycleReset | trips/utils/duty_scheduler.py:100-117 | the loop emits the blocks, and leaves the counters, of the cycle reset |
| DutyScheduler.EnsureCycleCompliance | trips/utils/duty_scheduler.py:28-40 | the guard emits the blocks, and leaves the counters, of the compliance check |
| DutyScheduler.SplitPass | trips/utils/duty_scheduler.py:50-96 | one pass of the loop body emits the blocks, leaves the counters and the remaining hours of one pass |
| DutyScheduler.SplitBlock | trips/utils/duty_scheduler.py:42-98 | the loop emits the blocks, and leaves the counters, of split_block |
| DutyScheduler.Scheduler.constructor | trips/utils/duty_scheduler.py:24-26 | the scheduler starts on day 1 with zero day counters, the driver's cycle hours and no blocks, and satisfies the invariant |
| DutyScheduler.Scheduler.CheckedSplit | trips/utils/duty_scheduler.py:170-185 | the compliance check and split_block are appended to `duty_blocks`, the counters move as specified, and the invariant is kept |
| DutyScheduler.Scheduler.DrivePass | trips/utils/duty_scheduler.py:124-162 | a segment of min(1000, remaining)/speed hours after its compliance check and, while distance is left, a fuel stop after its own check: exactly those blocks are appended and the state is the one the last of them leaves; what then remains to drive, appended to the blocks, is what remained to drive before; the invariant is kept |
| DutyScheduler.Scheduler.DriveSegment | trips/utils/duty_scheduler.py:119-164 | drive_segment appends the leg's blocks to `duty_blocks`, moves the counters as specified, and keeps the invariant |
| DutyScheduler.Scheduler.AddPickupDropoffActivity | trips/utils/duty_scheduler.py:166-186 | the pickup or dropoff is appended to `duty_blocks`, the counters move as specified, and the invariant is kept |
| DutyScheduler.GenerateDutyBlocks | trips/utils/duty_scheduler.py:15-208 | the result is the specified one; it is an error exactly when the starting cycle exceeds 70 hours; otherwise the schedule is not empty, starts on day 1, never goes back a day, drives at most 11 hours on any day, and leaves the cycle within 70 hours |

## Left out

- Hours are exact reals. The source's floating-point drift is not modelled.
- The display rounding `round(max_hours, 2)` (trips/utils/duty_scheduler.py:78) is taken as the identity. The source's own accounting uses the unrounded value.
- The constants module `trips.constants.scheduler_constants` is not part of this model. The regulatory values are the named constants above. Speed, fuel-stop length and pickup/dropoff length are the positive fields of `Params`.
- DutyScheduler.SplitBlock: requires a non-rest activity, which the source does not state. The source only calls split_block with driving or on-duty tags. For a rest tag the counters never move, and the termination measure used here does not apply.
- DutySchedule.SplitLoop: requires a non-rest activity, for the same reason as SplitBlock.
- DriveProperties.DriveLoopTotals: states the fuel time as `Repeat(FuelStops(miles), fuelStopHours)`, the fuel-stop length added FuelStops(miles) times. `RepeatIsProduct` proves this equals the product.
- No 14-hour on-duty limit per day is promised, because the source does not keep one: a driving chunk is not capped by the on-duty window.
- No bound on a day's total hours is promised. The source bounds only the working time it places against the 24-hour room; the rests stamped with a day are not counted against it.
- The counters `day_on_duty`, `day_driving`, `day` and `cycle_used` are passed between the source's helpers as arguments. Here they are fields of `Scheduler` for the steps that extend `duty_blocks`. They are values in and out for split_block, handle_cycle_reset and ensure_cycle_compliance.
- The rest of the repository is not part of this model:
  - log-sheet rendering and PDF output (`trips/utils/generate_eld.py`);
  - HTTP routing and geocoding (`trips/utils/route.py`, `trips/utils/route_stops.py`);
  - the Django view, the ORM model, the Celery task and the WSGI entry point (`trips/views.py`, `trips/models.py`, `trips/tasks/trip_creation.py`, `api/index.py`).
