/** The scheduler of trips/utils/duty_scheduler.py as functions over the
    simulation state: each nested helper of `generate_duty_blocks`, and each
    of its `while` loops, is a function from a state (and the loop's
    remaining quantity) to the blocks it emits and the state it leaves.
    The imperative model in DutyScheduler is proved equal to these. */
module DutySchedule {
  import opened Regulations
  import opened DutyBlocks
  import opened Measures

  /* ---------------- handle_cycle_reset ---------------- */

  /** The reset loop with `remaining` hours of restart still to take: each
      pass rests `min(OffDutyHours, remaining)` in the sleeper berth on the
      current day, lowers the cycle by as much (never below zero) and, while
      reset time remains, opens a fresh day. */
  function ResetLoop(s: State, remaining: real): Step
    decreases Units(remaining, OffDutyHours)
  {
    if remaining <= 0.0 then Step([], s)
    else
      var today := Min(OffDutyHours, remaining);
      var left := remaining - today;
      var cycle := Max(0.0, s.cycleUsed - today);
      var next := if left > 0.0 then State(s.day + 1, 0.0, 0.0, cycle) else s.(cycleUsed := cycle);
      UnitsShrink(left, remaining, OffDutyHours);
      var rest := ResetLoop(next, left);
      Step([DutyBlock(s.day, SleeperBerth, today)] + rest.blocks, rest.after)
  }

  /** One pass of the reset loop that leaves reset time for another day. */
  lemma ResetPass(s: State, remaining: real, next: State)
    requires remaining > OffDutyHours
    requires next == State(s.day + 1, 0.0, 0.0, Max(0.0, s.cycleUsed - OffDutyHours))
    ensures ResetLoop(s, remaining).blocks ==
      [DutyBlock(s.day, SleeperBerth, OffDutyHours)] + ResetLoop(next, remaining - OffDutyHours).blocks
    ensures ResetLoop(s, remaining).after == ResetLoop(next, remaining - OffDutyHours).after
  {
  }

  lemma SleeperRun(x0: seq<DutyBlock>, x1: seq<DutyBlock>, x2: seq<DutyBlock>, x3: seq<DutyBlock>,
                   b1: DutyBlock, b2: DutyBlock, b3: DutyBlock, b4: DutyBlock)
    requires x3 == [b4] && x2 == [b3] + x3 && x1 == [b2] + x2 && x0 == [b1] + x1
    ensures x0 == [b1, b2, b3, b4]
  {
  }

  /** handle_cycle_reset: a 34-hour restart taken as 10 + 10 + 10 + 4 hours in
      the sleeper berth on four consecutive days. The cycle is lowered by the
      34 hours rested, not cleared. */
  function CycleReset(s: State): (r: Step)
    ensures r.blocks == [DutyBlock(s.day, SleeperBerth, 10.0), DutyBlock(s.day + 1, SleeperBerth, 10.0),
                         DutyBlock(s.day + 2, SleeperBerth, 10.0), DutyBlock(s.day + 3, SleeperBerth, 4.0)]
    ensures r.after == State(s.day + 3, 0.0, 0.0, Max(0.0, s.cycleUsed - CycleResetHours))
  {
    ResetUnrolled(s);
    ResetLoop(s, CycleResetHours)
  }

  lemma ResetUnrolled(s: State)
    ensures ResetLoop(s, CycleResetHours).blocks ==
      [DutyBlock(s.day, SleeperBerth, 10.0), DutyBlock(s.day + 1, SleeperBerth, 10.0),
       DutyBlock(s.day + 2, SleeperBerth, 10.0), DutyBlock(s.day + 3, SleeperBerth, 4.0)]
    ensures ResetLoop(s, CycleResetHours).after == State(s.day + 3, 0.0, 0.0, Max(0.0, s.cycleUsed - CycleResetHours))
  {
    var s1 := State(s.day + 1, 0.0, 0.0, Max(0.0, s.cycleUsed - 10.0));
    var s2 := State(s.day + 2, 0.0, 0.0, Max(0.0, s1.cycleUsed - 10.0));
    var s3 := State(s.day + 3, 0.0, 0.0, Max(0.0, s2.cycleUsed - 10.0));
    var s4 := s3.(cycleUsed := Max(0.0, s3.cycleUsed - 4.0));
    var b1, b2 := DutyBlock(s.day, SleeperBerth, 10.0), DutyBlock(s.day + 1, SleeperBerth, 10.0);
    var b3, b4 := DutyBlock(s.day + 2, SleeperBerth, 10.0), DutyBlock(s.day + 3, SleeperBerth, 4.0);
    var r3 := ResetLoop(s3, 4.0);
    assert r3.blocks == [b4] && r3.after == s4 by {
      assert ResetLoop(s4, 0.0) == Step([], s4);
    }
    var r2 := ResetLoop(s2, 14.0);
    assert r2.blocks == [b3] + r3.blocks && r2.after == s4 by {
      ResetPass(s2, 14.0, s3);
    }
    var r1 := ResetLoop(s1, 24.0);
    assert r1.blocks == [b2] + r2.blocks && r1.after == s4 by {
      ResetPass(s1, 24.0, s2);
    }
    var r0 := ResetLoop(s, 34.0);
    assert r0.blocks == [b1] + r1.blocks && r0.after == s4 by {
      ResetPass(s, 34.0, s1);
    }
    SleeperRun(r0.blocks, r1.blocks, r2.blocks, r3.blocks, b1, b2, b3, b4);
    assert s4 == State(s.day + 3, 0.0, 0.0, Max(0.0, s.cycleUsed - 34.0)) by {
      FloorAtZeroTwice(s.cycleUsed, 10.0, 10.0);
      FloorAtZeroTwice(s.cycleUsed, 20.0, 10.0);
      FloorAtZeroTwice(s.cycleUsed, 30.0, 4.0);
    }
  }

  /* ---------------- ensure_cycle_compliance ---------------- */

  /** ensure_cycle_compliance: a restart exactly when the activity would take
      the cycle over its limit; otherwise nothing. */
  function Compliance(s: State, activityHours: real): (r: Step)
    ensures r.blocks == [] <==> s.cycleUsed + activityHours <= CycleLimitHours
    ensures r.blocks == [] ==> r.after == s
    ensures r.blocks != [] ==> r == CycleReset(s)
  {
    if s.cycleUsed + activityHours > CycleLimitHours then CycleReset(s) else Step([], s)
  }

  /* ---------------- split_block ---------------- */

  /** The chunk of the activity that fits in today: the largest amount not
      above what remains, the room left in the day (on-duty and driving hours
      both count against it), and the driving allowance for a driving
      activity or the on-duty allowance for any other. */
  function Chunk(s: State, remaining: real, activity: Activity): (h: real)
    ensures h <= remaining
    ensures h <= DayHours - (s.dayOnDuty + s.dayDriving)
    ensures IsDriving(activity) ==> h <= DailyMaxDriving - s.dayDriving
    ensures !IsDriving(activity) ==> h <= DailyMaxOnDuty - s.dayOnDuty
    ensures h == remaining || h == DayHours - (s.dayOnDuty + s.dayDriving) ||
            h == (if IsDriving(activity) then DailyMaxDriving - s.dayDriving else DailyMaxOnDuty - s.dayOnDuty)
  {
    var elapsedToday := s.dayOnDuty + s.dayDriving;
    var maxHours := Min(remaining, DayHours - elapsedToday);
    if IsDriving(activity) then Min(maxHours, DailyMaxDriving - s.dayDriving)
    else Min(maxHours, DailyMaxOnDuty - s.dayOnDuty)
  }

  /** The counters after working `h` hours at `activity`: driving adds to the
      day's driving and to the cycle; anything but rest adds to the day's
      on-duty hours, and to the cycle when it is not driving. */
  function Account(s: State, activity: Activity, h: real): (t: State)
    ensures t.day == s.day
    ensures IsRest(activity) ==> t == s
    ensures !IsRest(activity) ==> t.cycleUsed == s.cycleUsed + h && t.dayOnDuty == s.dayOnDuty + h
    ensures t.dayDriving == s.dayDriving + (if IsDriving(activity) then h else 0.0)
  {
    var driven := if IsDriving(activity) then s.(dayDriving := s.dayDriving + h, cycleUsed := s.cycleUsed + h) else s;
    if !IsRest(activity) then
      var onDuty := driven.(dayOnDuty := driven.dayOnDuty + h);
      if !IsDriving(activity) then onDuty.(cycleUsed := onDuty.cycleUsed + h) else onDuty
    else driven
  }

  /** The day has used up its driving or on-duty allowance. */
  predicate DayExhausted(s: State)
  {
    s.dayDriving >= DailyMaxDriving || s.dayOnDuty >= DailyMaxOnDuty
  }

  /** The off-duty rest that closes `day`. */
  function RestBlock(day: int): DutyBlock
  {
    DutyBlock(day, OffDutyRest, OffDutyHours)
  }

  /** The next day, with both day counters cleared. */
  function Rollover(s: State): State
  {
    State(s.day + 1, 0.0, 0.0, s.cycleUsed)
  }

  /** Termination tie-breaker for split_block: 0 on a fresh day, 1 once the
      day's room is used up, 2 otherwise. */
  function Phase(s: State): nat
  {
    if s.dayOnDuty == 0.0 && s.dayDriving == 0.0 then 0
    else if s.dayOnDuty + s.dayDriving >= DayHours then 1
    else 2
  }

  /** What one pass of split_block's loop leaves: blocks, state and the hours
      of the activity still to place. */
  datatype Progress = Progress(blocks: seq<DutyBlock>, after: State, remaining: real)

  /** One pass of split_block's loop: the compliance check for what remains,
      then either a rollover (nothing fits today) or one chunk of the
      activity, followed by a rollover if the chunk used up the day. */
  function SplitIteration(s: State, remaining: real, activity: Activity): Progress
  {
    var c := Compliance(s, remaining);
    var t := c.after;
    var h := Chunk(t, remaining, activity);
    if h <= 0.0 then
      Progress(c.blocks + [RestBlock(t.day)], Rollover(t), remaining)
    else
      var u := Account(t, activity, h);
      if DayExhausted(u) then
        Progress(c.blocks + [DutyBlock(t.day, activity, h), RestBlock(u.day)], Rollover(u), remaining - h)
      else
        Progress(c.blocks + [DutyBlock(t.day, activity, h)], u, remaining - h)
  }

  /** A pass of split_block's loop in which nothing fits today. */
  lemma IterationRolls(s: State, remaining: real, activity: Activity, resetBlocks: seq<DutyBlock>, t: State)
    requires resetBlocks == Compliance(s, remaining).blocks && t == Compliance(s, remaining).after
    requires Chunk(t, remaining, activity) <= 0.0
    ensures SplitIteration(s, remaining, activity) == Progress(resetBlocks + [RestBlock(t.day)], Rollover(t), remaining)
  {
  }

  /** A pass that places a chunk of `h` hours and uses up the day. */
  lemma IterationCloses(s: State, remaining: real, activity: Activity, resetBlocks: seq<DutyBlock>, t: State, h: real)
    requires resetBlocks == Compliance(s, remaining).blocks && t == Compliance(s, remaining).after
    requires h == Chunk(t, remaining, activity) && h > 0.0 && DayExhausted(Account(t, activity, h))
    ensures SplitIteration(s, remaining, activity) ==
      Progress(resetBlocks + [DutyBlock(t.day, activity, h), RestBlock(t.day)], Rollover(Account(t, activity, h)), remaining - h)
  {
  }

  /** A pass that places a chunk of `h` hours and leaves room in the day. */
  lemma IterationContinues(s: State, remaining: real, activity: Activity, resetBlocks: seq<DutyBlock>, t: State, h: real)
    requires resetBlocks == Compliance(s, remaining).blocks && t == Compliance(s, remaining).after
    requires h == Chunk(t, remaining, activity) && h > 0.0 && !DayExhausted(Account(t, activity, h))
    ensures SplitIteration(s, remaining, activity) ==
      Progress(resetBlocks + [DutyBlock(t.day, activity, h)], Account(t, activity, h), remaining - h)
  {
  }

  /** Every pass of split_block's loop either places at least one day's
      allowance of the activity (or all of it), or keeps the remaining hours
      and moves the day strictly closer to a fresh one. */
  lemma SplitProgress(s: State, remaining: real, activity: Activity)
    requires remaining > 0.0 && !IsRest(activity)
    ensures var r := SplitIteration(s, remaining, activity);
      Units(r.remaining, DailyMaxDriving) < Units(remaining, DailyMaxDriving) ||
      (Units(r.remaining, DailyMaxDriving) == Units(remaining, DailyMaxDriving) && Phase(r.after) < Phase(s))
  {
    var c := Compliance(s, remaining);
    var t := c.after;
    var h := Chunk(t, remaining, activity);
    var freshDay := t.dayOnDuty == 0.0 && t.dayDriving == 0.0;
    assert c.blocks != [] ==> freshDay;
    if h > 0.0 {
      var r := SplitIteration(s, remaining, activity);
      assert r.remaining == remaining - h;
      if h == remaining || freshDay {
        UnitsShrink(remaining - h, remaining, DailyMaxDriving);
      } else {
        UnitsMonotonic(remaining - h, remaining, DailyMaxDriving);
      }
    }
  }

  /** split_block: places `remaining` hours of `activity`, chunk by chunk,
      across as many days as the daily limits require. */
  function SplitLoop(s: State, remaining: real, activity: Activity): Step
    requires !IsRest(activity)
    decreases Units(remaining, DailyMaxDriving), Phase(s)
  {
    if remaining <= 0.0 then Step([], s)
    else
      var it := SplitIteration(s, remaining, activity);
      SplitProgress(s, remaining, activity);
      var rest := SplitLoop(it.after, it.remaining, activity);
      Step(it.blocks + rest.blocks, rest.after)
  }

  /** The compliance check for `hours`, then split_block for them: what
      add_pickup_dropoff_activity does, and what drive_segment does for each
      segment and each fuel stop. */
  function GuardedSplit(s: State, hours: real, activity: Activity): Step
    requires !IsRest(activity)
  {
    var c := Compliance(s, hours);
    var d := SplitLoop(c.after, hours, activity);
    Step(c.blocks + d.blocks, d.after)
  }

  /* ---------------- add_pickup_dropoff_activity ---------------- */

  /** add_pickup_dropoff_activity: the fixed pickup or dropoff time. */
  function AddActivity(p: Params, s: State, stop: Stop): Step
  {
    GuardedSplit(s, p.pickupDropHours, OnDutyOf(stop))
  }

  /* ---------------- drive_segment ---------------- */

  /** drive_segment with `remaining` miles still to drive: a segment of at
      most one fuel interval, then a fuel stop if any distance is left. */
  function DriveLoop(p: Params, s: State, remaining: real, leg: Leg): Step
    requires p.Valid()
    decreases Units(remaining, FuelIntervalMiles)
  {
    if remaining <= 0.0 then Step([], s)
    else
      var segment := Min(FuelIntervalMiles, remaining);
      var d := GuardedSplit(s, segment / p.avgSpeedMph, DrivingOf(leg));
      var left := remaining - segment;
      if left > 0.0 then
        var f := GuardedSplit(d.after, p.fuelStopHours, OnDutyFuel);
        UnitsShrink(left, remaining, FuelIntervalMiles);
        var rest := DriveLoop(p, f.after, left, leg);
        Step(d.blocks + f.blocks + rest.blocks, rest.after)
      else
        d
  }

  /** One pass of drive_segment's loop, with the segment's `hours` of
      driving and the distance `left` after it: the segment, then, while
      distance is left, a fuel stop and the rest of the loop. */
  lemma DriveLoopStep(p: Params, s: State, remaining: real, leg: Leg, hours: real, left: real)
    requires p.Valid() && remaining > 0.0
    requires hours == Min(FuelIntervalMiles, remaining) / p.avgSpeedMph
    requires left == remaining - Min(FuelIntervalMiles, remaining)
    ensures var d := GuardedSplit(s, hours, DrivingOf(leg));
      left <= 0.0 ==> DriveLoop(p, s, remaining, leg) == d
    ensures var d := GuardedSplit(s, hours, DrivingOf(leg));
      var f := GuardedSplit(d.after, p.fuelStopHours, OnDutyFuel);
      var rest := DriveLoop(p, f.after, left, leg);
      left > 0.0 ==> DriveLoop(p, s, remaining, leg) == Step(d.blocks + f.blocks + rest.blocks, rest.after)
    ensures left > 0.0 ==> Units(left, FuelIntervalMiles) < Units(remaining, FuelIntervalMiles)
  {
    UnitsShrink(left, remaining, FuelIntervalMiles);
  }

  /* ---------------- generate_duty_blocks ---------------- */

  /** The returned `(duty_blocks, cycle_used)`. */
  datatype Schedule = Schedule(blocks: seq<DutyBlock>, cycleUsed: real)

  /** The ValueError raised when the driver starts over the cycle limit. */
  datatype ScheduleError = StartsInViolation(cycleUsed: real)

  datatype Result<T, E> = Ok(value: T) | Err(error: E)

  /** The state every trip starts from. */
  function Initial(currentCycleUsed: real): State
  {
    State(1, 0.0, 0.0, currentCycleUsed)
  }

  /** The four steps of a trip, as generate_duty_blocks takes them. */
  datatype Trip = Trip(empty: Step, pickup: Step, loaded: Step, dropoff: Step)

  /** Drive empty to the pickup (if there is any distance), pick up, drive
      loaded to the dropoff, drop off. */
  function TripFrom(p: Params, toPickupMiles: real, toDropoffMiles: real, currentCycleUsed: real): Trip
    requires p.Valid()
  {
    var s0 := Initial(currentCycleUsed);
    var empty := if toPickupMiles > 0.0 then DriveLoop(p, s0, toPickupMiles, Empty) else Step([], s0);
    var pickup := AddActivity(p, empty.after, Pickup);
    var loaded := DriveLoop(p, pickup.after, toDropoffMiles, Loaded);
    var dropoff := AddActivity(p, loaded.after, Dropoff);
    Trip(empty, pickup, loaded, dropoff)
  }

  /** generate_duty_blocks: refuse a driver already over the cycle limit;
      otherwise drive empty to the pickup (if there is any distance), pick
      up, drive loaded to the dropoff, drop off. */
  function Generate(p: Params, toPickupMiles: real, toDropoffMiles: real, currentCycleUsed: real)
    : Result<Schedule, ScheduleError>
    requires p.Valid()
  {
    if currentCycleUsed > CycleLimitHours then Err(StartsInViolation(currentCycleUsed))
    else
      var t := TripFrom(p, toPickupMiles, toDropoffMiles, currentCycleUsed);
      Ok(Schedule(t.empty.blocks + t.pickup.blocks + t.loaded.blocks + t.dropoff.blocks, t.dropoff.after.cycleUsed))
  }
}
