/** generate_duty_blocks as the program runs it. The helpers that take the
    counters (day, day_on_duty, day_driving, cycle_used) as arguments and
    return them updated, together with the blocks they build, are methods
    from a State to blocks and a State, with the source's loops over local
    counters. The enclosing function's own counters and its `duty_blocks`
    list, which drive_segment and add_pickup_dropoff_activity extend in
    place, are the fields of a Scheduler. Every method is proved to do
    exactly what the matching function of DutySchedule describes, and the
    ones that extend the schedule keep the DutyLedger invariant. */
module DutyScheduler {
  import opened Regulations
  import opened DutyBlocks
  import opened Measures
  import opened DutySchedule
  import opened DutyLedger
  import opened ScheduleProperties

  /** handle_cycle_reset: rests CycleResetHours in the sleeper berth, at
      most OffDutyHours a day, lowering the cycle by each rest and opening a
      new day while reset time remains. */
  method HandleCycleReset(s: State) returns (blocks: seq<DutyBlock>, after: State)
    ensures blocks == CycleReset(s).blocks && after == CycleReset(s).after
  {
    var day, dayOnDuty, dayDriving, cycleUsed := s.day, s.dayOnDuty, s.dayDriving, s.cycleUsed;
    var remainingReset := CycleResetHours;
    blocks := [];
    while remainingReset > 0.0
      invariant var r := ResetLoop(State(day, dayOnDuty, dayDriving, cycleUsed), remainingReset);
        blocks + r.blocks == CycleReset(s).blocks && r.after == CycleReset(s).after
      decreases Units(remainingReset, OffDutyHours)
    {
      ghost var now, before := State(day, dayOnDuty, dayDriving, cycleUsed), remainingReset;
      var resetHoursToday := Min(OffDutyHours, remainingReset);
      var b := DutyBlock(day, SleeperBerth, resetHoursToday);
      ConcatAssoc(blocks, [b], ResetLoop(now, before).blocks[1..]);
      blocks := blocks + [b];
      remainingReset := remainingReset - resetHoursToday;
      cycleUsed := Max(0.0, cycleUsed - resetHoursToday);
      if remainingReset > 0.0 {
        day := day + 1;
        dayOnDuty := 0.0;
        dayDriving := 0.0;
      }
      UnitsShrink(remainingReset, before, OffDutyHours);
    }
    after := State(day, dayOnDuty, dayDriving, cycleUsed);
  }

  /** ensure_cycle_compliance: a restart before an activity of
      `activityHours` exactly when it would take the cycle over its limit. */
  method EnsureCycleCompliance(s: State, activityHours: real) returns (blocks: seq<DutyBlock>, after: State)
    ensures blocks == Compliance(s, activityHours).blocks && after == Compliance(s, activityHours).after
  {
    blocks, after := [], s;
    if s.cycleUsed + activityHours > CycleLimitHours {
      var resetBlocks;
      resetBlocks, after := HandleCycleReset(s);
      blocks := blocks + resetBlocks;
    }
  }

  /** One pass of split_block's loop, from the counters `s` with `remaining`
      hours still to place: the compliance check, the chunk that fits today,
      its block and its hours on the counters, and the off-duty rest that
      closes the day when nothing fits or the chunk used the day up. */
  method SplitPass(s: State, remaining: real, activity: Activity)
    returns (blocks: seq<DutyBlock>, after: State, remainingHours: real)
    ensures var it := SplitIteration(s, remaining, activity);
      blocks == it.blocks && after == it.after && remainingHours == it.remaining
  {
    var resetBlocks, t := EnsureCycleCompliance(s, remaining);
    var day, dayOnDuty, dayDriving, cycleUsed := t.day, t.dayOnDuty, t.dayDriving, t.cycleUsed;
    blocks := resetBlocks;
    remainingHours := remaining;

    var elapsedToday := dayOnDuty + dayDriving;
    var remainingDayHours := DayHours - elapsedToday;
    var allowedDrivingToday := DailyMaxDriving - dayDriving;
    var allowedOnDutyToday := DailyMaxOnDuty - dayOnDuty;
    var maxHours := Min(remainingHours, remainingDayHours);
    if IsDriving(activity) {
      maxHours := Min(maxHours, allowedDrivingToday);
    } else {
      maxHours := Min(maxHours, allowedOnDutyToday);
    }
    assert maxHours == Chunk(t, remaining, activity);

    if maxHours <= 0.0 {
      blocks := blocks + [DutyBlock(day, OffDutyRest, OffDutyHours)];
      dayOnDuty := 0.0;
      dayDriving := 0.0;
      day := day + 1;
      IterationRolls(s, remaining, activity, resetBlocks, t);
    } else {
      blocks := blocks + [DutyBlock(day, activity, maxHours)];
      remainingHours := remainingHours - maxHours;
      if IsDriving(activity) {
        dayDriving := dayDriving + maxHours;
        cycleUsed := cycleUsed + maxHours;
      }
      if !IsRest(activity) {
        dayOnDuty := dayOnDuty + maxHours;
        if !IsDriving(activity) {
          cycleUsed := cycleUsed + maxHours;
        }
      }
      assert State(day, dayOnDuty, dayDriving, cycleUsed) == Account(t, activity, maxHours);
      if dayDriving >= DailyMaxDriving || dayOnDuty >= DailyMaxOnDuty {
        ghost var b := DutyBlock(day, activity, maxHours);
        blocks := blocks + [DutyBlock(day, OffDutyRest, OffDutyHours)];
        dayOnDuty := 0.0;
        dayDriving := 0.0;
        day := day + 1;
        IterationCloses(s, remaining, activity, resetBlocks, t, maxHours);
        ConcatAssoc(resetBlocks, [b], [RestBlock(t.day)]);
      } else {
        IterationContinues(s, remaining, activity, resetBlocks, t, maxHours);
      }
    }
    after := State(day, dayOnDuty, dayDriving, cycleUsed);
  }

  /** split_block: places `hours` of `activity` chunk by chunk, checking the
      cycle before each chunk and closing the day with an off-duty rest
      whenever nothing fits or the chunk used up the day. */
  method SplitBlock(hours: real, activity: Activity, s: State) returns (blocks: seq<DutyBlock>, after: State)
    requires !IsRest(activity)
    ensures blocks == SplitLoop(s, hours, activity).blocks && after == SplitLoop(s, hours, activity).after
  {
    var current := s;
    blocks := [];
    var remainingHours := hours;
    while remainingHours > 0.0
      invariant var r := SplitLoop(current, remainingHours, activity);
        blocks + r.blocks == SplitLoop(s, hours, activity).blocks && r.after == SplitLoop(s, hours, activity).after
      decreases Units(remainingHours, DailyMaxDriving), Phase(current)
    {
      ghost var now, before, done := current, remainingHours, blocks;
      var passBlocks;
      passBlocks, current, remainingHours := SplitPass(current, remainingHours, activity);
      blocks := blocks + passBlocks;
      SplitProgress(now, before, activity);
      ConcatAssoc(done, passBlocks, SplitLoop(current, remainingHours, activity).blocks);
    }
    after := current;
  }

  /** A pass of drive_segment's loop with distance left after the segment
      of `hours` driving: the segment and the fuel stop, then the loop on
      what is left. */
  lemma DriveRefuels(p: Params, s: State, remaining: real, leg: Leg, done: seq<DutyBlock>, hours: real, left: real)
    requires p.Valid() && hours == Min(FuelIntervalMiles, remaining) / p.avgSpeedMph
    requires left == remaining - Min(FuelIntervalMiles, remaining) && left > 0.0
    ensures var d := GuardedSplit(s, hours, DrivingOf(leg));
      var f := GuardedSplit(d.after, p.fuelStopHours, OnDutyFuel);
      var rest := DriveLoop(p, f.after, left, leg);
      (done + d.blocks + f.blocks) + rest.blocks == done + DriveLoop(p, s, remaining, leg).blocks &&
      rest.after == DriveLoop(p, s, remaining, leg).after
  {
    var d := GuardedSplit(s, hours, DrivingOf(leg));
    var f := GuardedSplit(d.after, p.fuelStopHours, OnDutyFuel);
    var rest := DriveLoop(p, f.after, left, leg);
    assert DriveLoop(p, s, remaining, leg).blocks == d.blocks + f.blocks + rest.blocks;
    ConcatAssoc(done, d.blocks, f.blocks);
    ConcatAssoc(done + d.blocks, f.blocks, rest.blocks);
    ConcatAssoc(done, d.blocks + f.blocks, rest.blocks);
    ConcatAssoc(d.blocks, f.blocks, rest.blocks);
  }

  /** The last pass of drive_segment's loop: the final segment of `hours`
      driving, no fuel stop. */
  lemma DriveFinishes(p: Params, s: State, remaining: real, leg: Leg, done: seq<DutyBlock>, hours: real, left: real)
    requires p.Valid() && remaining > 0.0 && hours == Min(FuelIntervalMiles, remaining) / p.avgSpeedMph
    requires left == remaining - Min(FuelIntervalMiles, remaining) && left <= 0.0
    ensures var d := GuardedSplit(s, hours, DrivingOf(leg));
      var rest := DriveLoop(p, d.after, left, leg);
      (done + d.blocks) + rest.blocks == done + DriveLoop(p, s, remaining, leg).blocks &&
      rest.after == DriveLoop(p, s, remaining, leg).after
  {
    var d := GuardedSplit(s, hours, DrivingOf(leg));
    var rest := DriveLoop(p, d.after, left, leg);
    assert rest.blocks == [];
    assert (done + d.blocks) + [] == done + d.blocks;
  }

  class Scheduler {
    /** Average speed, fuel-stop length and pickup/drop length. */
    const params: Params
    var day: int
    var dayOnDuty: real
    var dayDriving: real
    var cycleUsed: real
    /** The shared `duty_blocks` list. */
    var dutyBlocks: seq<DutyBlock>

    /** The tuple (day, day_on_duty, day_driving, cycle_used). */
    function Current(): State
      reads this
    {
      State(day, dayOnDuty, dayDriving, cycleUsed)
    }

    ghost predicate Valid()
      reads this
    {
      params.Valid() && Consistent(dutyBlocks, Current())
    }

    /** Day 1, both day counters zero, the driver's cycle hours, no blocks. */
    constructor (p: Params, currentCycleUsed: real)
      requires p.Valid() && currentCycleUsed <= CycleLimitHours
      ensures Valid()
      ensures params == p && dutyBlocks == [] && Current() == Initial(currentCycleUsed)
    {
      params := p;
      day := 1;
      dayOnDuty := 0.0;
      dayDriving := 0.0;
      cycleUsed := currentCycleUsed;
      dutyBlocks := [];
      new;
      InitialConsistent(currentCycleUsed);
    }

    /** The compliance check for `hours` and split_block for them, both
        appended to the schedule. */
    method CheckedSplit(hours: real, activity: Activity)
      requires Valid() && !IsRest(activity)
      modifies this
      ensures Valid()
      ensures dutyBlocks == old(dutyBlocks) + GuardedSplit(old(Current()), hours, activity).blocks
      ensures Current() == GuardedSplit(old(Current()), hours, activity).after
    {
      ghost var log, s := dutyBlocks, Current();
      var resetBlocks, t := EnsureCycleCompliance(Current(), hours);
      dutyBlocks := dutyBlocks + resetBlocks;
      var blocks, u := SplitBlock(hours, activity, t);
      day, dayOnDuty, dayDriving, cycleUsed := u.day, u.dayOnDuty, u.dayDriving, u.cycleUsed;
      dutyBlocks := dutyBlocks + blocks;
      assert Current() == u;
      ghost var g := GuardedSplit(s, hours, activity);
      assert g.blocks == resetBlocks + blocks && g.after == u;
      ConcatAssoc(log, resetBlocks, blocks);
      GuardedSplitConsistent(log, s, hours, activity);
    }

    /** One pass of drive_segment's loop with `remaining` miles to go: a
        segment of at most FuelIntervalMiles and, if distance is left after
        it, a fuel stop. What is then left to drive, appended to the blocks
        so far, is what was left to drive before the pass. */
    method DrivePass(remaining: real, leg: Leg) returns (left: real)
      requires Valid() && remaining > 0.0
      modifies this
      ensures Valid()
      ensures left == remaining - Min(FuelIntervalMiles, remaining)
      ensures dutyBlocks + DriveLoop(params, Current(), left, leg).blocks ==
        old(dutyBlocks) + DriveLoop(params, old(Current()), remaining, leg).blocks
      ensures DriveLoop(params, Current(), left, leg).after == DriveLoop(params, old(Current()), remaining, leg).after
      ensures var d := GuardedSplit(old(Current()), Min(FuelIntervalMiles, remaining) / params.avgSpeedMph, DrivingOf(leg));
        left <= 0.0 ==> dutyBlocks == old(dutyBlocks) + d.blocks && Current() == d.after
      ensures var d := GuardedSplit(old(Current()), Min(FuelIntervalMiles, remaining) / params.avgSpeedMph, DrivingOf(leg));
        var f := GuardedSplit(d.after, params.fuelStopHours, OnDutyFuel);
        left > 0.0 ==> dutyBlocks == old(dutyBlocks) + d.blocks + f.blocks && Current() == f.after
    {
      ghost var s, done := Current(), dutyBlocks;
      var segmentDistance := Min(FuelIntervalMiles, remaining);
      var drivingHours := segmentDistance / params.avgSpeedMph;
      CheckedSplit(drivingHours, DrivingOf(leg));
      left := remaining - segmentDistance;
      if left > 0.0 {
        CheckedSplit(params.fuelStopHours, OnDutyFuel);
        DriveRefuels(params, s, remaining, leg, done, drivingHours, left);
      } else {
        DriveFinishes(params, s, remaining, leg, done, drivingHours, left);
      }
    }

    /** drive_segment: drives `remainingDistance` miles of the leg in
        segments of at most FuelIntervalMiles, with a fuel stop after every
        segment but the last. */
    method DriveSegment(remainingDistance: real, leg: Leg)
      requires Valid()
      modifies this
      ensures Valid()
      ensures dutyBlocks == old(dutyBlocks) + DriveLoop(params, old(Current()), remainingDistance, leg).blocks
      ensures Current() == DriveLoop(params, old(Current()), remainingDistance, leg).after
    {
      ghost var total := DriveLoop(params, Current(), remainingDistance, leg);
      ghost var log := dutyBlocks;
      var remaining := remainingDistance;
      while remaining > 0.0
        invariant Valid()
        invariant dutyBlocks + DriveLoop(params, Current(), remaining, leg).blocks == log + total.blocks
        invariant DriveLoop(params, Current(), remaining, leg).after == total.after
        decreases Units(remaining, FuelIntervalMiles)
      {
        ghost var before := remaining;
        remaining := DrivePass(remaining, leg);
        UnitsShrink(remaining, before, FuelIntervalMiles);
      }
      assert DriveLoop(params, Current(), remaining, leg).blocks == [];
      assert dutyBlocks + [] == dutyBlocks;
    }

    /** add_pickup_dropoff_activity: the fixed pickup or dropoff time. */
    method AddPickupDropoffActivity(stop: Stop)
      requires Valid()
      modifies this
      ensures Valid()
      ensures dutyBlocks == old(dutyBlocks) + AddActivity(params, old(Current()), stop).blocks
      ensures Current() == AddActivity(params, old(Current()), stop).after
    {
      CheckedSplit(params.pickupDropHours, OnDutyOf(stop));
    }
  }

  /** generate_duty_blocks: refuses a driver over the cycle limit, otherwise
      runs the trip on a fresh scheduler and returns its blocks and cycle. */
  method GenerateDutyBlocks(p: Params, toPickupMiles: real, toDropoffMiles: real, currentCycleUsed: real)
    returns (r: Result<Schedule, ScheduleError>)
    requires p.Valid()
    ensures r == Generate(p, toPickupMiles, toDropoffMiles, currentCycleUsed)
    ensures r.Err? <==> currentCycleUsed > CycleLimitHours
    ensures r.Ok? ==> r.value.blocks != [] && r.value.blocks[0].day == 1 && Chronological(r.value.blocks)
    ensures r.Ok? ==> forall d :: DrivingOn(r.value.blocks, d) <= DailyMaxDriving
    ensures r.Ok? ==> r.value.cycleUsed <= CycleLimitHours
  {
    if currentCycleUsed > CycleLimitHours {
      return Err(StartsInViolation(currentCycleUsed));
    }
    ghost var t := TripFrom(p, toPickupMiles, toDropoffMiles, currentCycleUsed);
    var scheduler := new Scheduler(p, currentCycleUsed);
    if toPickupMiles > 0.0 {
      scheduler.DriveSegment(toPickupMiles, Empty);
    }
    assert scheduler.dutyBlocks == t.empty.blocks && scheduler.Current() == t.empty.after by {
      if toPickupMiles > 0.0 {
        EmptyPrefix(t.empty.blocks);
      }
    }
    scheduler.AddPickupDropoffActivity(Pickup);
    assert scheduler.Current() == t.pickup.after;
    scheduler.DriveSegment(toDropoffMiles, Loaded);
    assert scheduler.Current() == t.loaded.after;
    scheduler.AddPickupDropoffActivity(Dropoff);
    assert scheduler.Current() == t.dropoff.after;
    assert scheduler.dutyBlocks == t.empty.blocks + t.pickup.blocks + t.loaded.blocks + t.dropoff.blocks;
    r := Ok(Schedule(scheduler.dutyBlocks, scheduler.cycleUsed));
    ScheduleRespectsLimits(p, toPickupMiles, toDropoffMiles, currentCycleUsed);
  }
}
