/** What generate_duty_blocks promises about the schedule it returns. */
module ScheduleProperties {
  import opened Regulations
  import opened DutyBlocks
  import opened Measures
  import opened DutySchedule
  import opened DutyLedger
  import opened SplitProperties
  import opened DriveProperties

  /** A driver already over the cycle limit is refused, with the hours they
      started with, before any block is produced; any other driver gets a
      schedule. */
  lemma GenerateRejectsOverLimit(p: Params, toPickupMiles: real, toDropoffMiles: real, currentCycleUsed: real)
    requires p.Valid()
    ensures var r := Generate(p, toPickupMiles, toDropoffMiles, currentCycleUsed);
      && (r.Err? <==> currentCycleUsed > CycleLimitHours)
      && (r.Err? ==> r.error == StartsInViolation(currentCycleUsed))
  {
  }

  lemma EmptyPrefix(x: seq<DutyBlock>)
    ensures [] + x == x
  {
  }

  /** The ledger invariant holds after every step of the trip. */
  lemma TripConsistent(p: Params, toPickupMiles: real, toDropoffMiles: real, currentCycleUsed: real)
    requires p.Valid() && currentCycleUsed <= CycleLimitHours
    ensures var t := TripFrom(p, toPickupMiles, toDropoffMiles, currentCycleUsed);
      Consistent(t.empty.blocks + t.pickup.blocks + t.loaded.blocks + t.dropoff.blocks, t.dropoff.after)
  {
    var t := TripFrom(p, toPickupMiles, toDropoffMiles, currentCycleUsed);
    var s0 := Initial(currentCycleUsed);
    InitialConsistent(currentCycleUsed);
    var log1 := t.empty.blocks;
    assert Consistent(log1, t.empty.after) by {
      if toPickupMiles > 0.0 {
        DriveLoopConsistent(p, [], s0, toPickupMiles, Empty);
        EmptyPrefix(log1);
      }
    }
    var log2 := log1 + t.pickup.blocks;
    assert Consistent(log2, t.pickup.after) by {
      GuardedSplitConsistent(log1, t.empty.after, p.pickupDropHours, OnDutyPickup);
    }
    var log3 := log2 + t.loaded.blocks;
    assert Consistent(log3, t.loaded.after) by {
      DriveLoopConsistent(p, log2, t.pickup.after, toDropoffMiles, Loaded);
    }
    GuardedSplitConsistent(log3, t.loaded.after, p.pickupDropHours, OnDutyDropoff);
  }

  /** The schedule starts on day 1, never goes back a day, never stamps more
      than DailyMaxDriving hours of driving on one day, and leaves the cycle
      within its limit. It is never empty, since the pickup takes time. */
  lemma ScheduleRespectsLimits(p: Params, toPickupMiles: real, toDropoffMiles: real, currentCycleUsed: real)
    requires p.Valid() && currentCycleUsed <= CycleLimitHours
    ensures var r := Generate(p, toPickupMiles, toDropoffMiles, currentCycleUsed);
      && r.Ok?
      && r.value.blocks != []
      && r.value.blocks[0].day == 1
      && Chronological(r.value.blocks)
      && (forall d :: DrivingOn(r.value.blocks, d) <= DailyMaxDriving)
      && r.value.cycleUsed <= CycleLimitHours
  {
    var t := TripFrom(p, toPickupMiles, toDropoffMiles, currentCycleUsed);
    var log := t.empty.blocks + t.pickup.blocks + t.loaded.blocks + t.dropoff.blocks;
    TripConsistent(p, toPickupMiles, toDropoffMiles, currentCycleUsed);
    forall d
      ensures DrivingOn(log, d) <= DailyMaxDriving
    {
      ConsistentDailyDriving(log, t.dropoff.after, d);
    }
    assert log != [] by {
      AddActivityTotals(p, t.empty.after, Pickup);
      assert t.pickup.blocks != [];
    }
  }

  /** Hours of `a` over the four steps of a trip. */
  lemma HoursOfFour(w: seq<DutyBlock>, x: seq<DutyBlock>, y: seq<DutyBlock>, z: seq<DutyBlock>, a: Activity)
    ensures HoursOf(w + x + y + z, a) == HoursOf(w, a) + HoursOf(x, a) + HoursOf(y, a) + HoursOf(z, a)
  {
    HoursOfConcat(w, x, a);
    HoursOfConcat(w + x, y, a);
    HoursOfConcat(w + x + y, z, a);
  }

  /** `n` stops and then `m` more. */
  lemma {:induction false} RepeatAdd(n: nat, m: nat, x: real)
    ensures Repeat(n + m, x) == Repeat(n, x) + Repeat(m, x)
  {
    if n > 0 {
      RepeatAdd(n - 1, m, x);
    }
  }

  const EmptyLegKinds: set<Activity> := {DrivingEmpty, OnDutyFuel, OffDutyRest, SleeperBerth}
  const PickupKinds: set<Activity> := {OnDutyPickup, OffDutyRest, SleeperBerth}
  const LoadedLegKinds: set<Activity> := {DrivingLoaded, OnDutyFuel, OffDutyRest, SleeperBerth}
  const DropoffKinds: set<Activity> := {OnDutyDropoff, OffDutyRest, SleeperBerth}

  /** What each of the four steps of a trip emits: the kinds of block, and
      the hours of the activities that belong to the step. */
  ghost predicate TripShape(p: Params, toPickupMiles: real, toDropoffMiles: real,
                            w: seq<DutyBlock>, x: seq<DutyBlock>, y: seq<DutyBlock>, z: seq<DutyBlock>)
    requires p.Valid()
  {
    && OnlyKinds(w, EmptyLegKinds) && OnlyKinds(x, PickupKinds)
    && OnlyKinds(y, LoadedLegKinds) && OnlyKinds(z, DropoffKinds)
    && HoursOf(w, DrivingEmpty) == Max(0.0, toPickupMiles) / p.avgSpeedMph
    && HoursOf(w, OnDutyFuel) == Repeat(FuelStops(toPickupMiles), p.fuelStopHours)
    && HoursOf(x, OnDutyPickup) == p.pickupDropHours
    && HoursOf(y, DrivingLoaded) == Max(0.0, toDropoffMiles) / p.avgSpeedMph
    && HoursOf(y, OnDutyFuel) == Repeat(FuelStops(toDropoffMiles), p.fuelStopHours)
    && HoursOf(z, OnDutyDropoff) == p.pickupDropHours
  }

  lemma TripShaped(p: Params, toPickupMiles: real, toDropoffMiles: real, currentCycleUsed: real)
    requires p.Valid()
    ensures var t := TripFrom(p, toPickupMiles, toDropoffMiles, currentCycleUsed);
      TripShape(p, toPickupMiles, toDropoffMiles, t.empty.blocks, t.pickup.blocks, t.loaded.blocks, t.dropoff.blocks)
  {
    var t := TripFrom(p, toPickupMiles, toDropoffMiles, currentCycleUsed);
    var s0 := Initial(currentCycleUsed);
    assert t.empty == DriveLoop(p, s0, toPickupMiles, Empty);
    DriveLoopTotals(p, s0, toPickupMiles, Empty);
    AddActivityTotals(p, t.empty.after, Pickup);
    DriveLoopTotals(p, t.pickup.after, toDropoffMiles, Loaded);
    AddActivityTotals(p, t.loaded.after, Dropoff);
  }

  /** Activity totals of four steps shaped like a trip. */
  lemma ShapeTotals(p: Params, toPickupMiles: real, toDropoffMiles: real,
                    w: seq<DutyBlock>, x: seq<DutyBlock>, y: seq<DutyBlock>, z: seq<DutyBlock>)
    requires p.Valid() && TripShape(p, toPickupMiles, toDropoffMiles, w, x, y, z)
    ensures var all := w + x + y + z;
      && HoursOf(all, OnDutyPickup) == p.pickupDropHours
      && HoursOf(all, OnDutyDropoff) == p.pickupDropHours
      && HoursOf(all, DrivingEmpty) == Max(0.0, toPickupMiles) / p.avgSpeedMph
      && HoursOf(all, DrivingLoaded) == Max(0.0, toDropoffMiles) / p.avgSpeedMph
      && HoursOf(all, OnDutyFuel) == Repeat(FuelStops(toPickupMiles) + FuelStops(toDropoffMiles), p.fuelStopHours)
  {
    HoursOfFour(w, x, y, z, OnDutyPickup);
    HoursOfAbsent(w, EmptyLegKinds, OnDutyPickup);
    HoursOfAbsent(y, LoadedLegKinds, OnDutyPickup);
    HoursOfAbsent(z, DropoffKinds, OnDutyPickup);
    HoursOfFour(w, x, y, z, OnDutyDropoff);
    HoursOfAbsent(w, EmptyLegKinds, OnDutyDropoff);
    HoursOfAbsent(x, PickupKinds, OnDutyDropoff);
    HoursOfAbsent(y, LoadedLegKinds, OnDutyDropoff);
    HoursOfFour(w, x, y, z, DrivingEmpty);
    HoursOfAbsent(x, PickupKinds, DrivingEmpty);
    HoursOfAbsent(y, LoadedLegKinds, DrivingEmpty);
    HoursOfAbsent(z, DropoffKinds, DrivingEmpty);
    HoursOfFour(w, x, y, z, DrivingLoaded);
    HoursOfAbsent(w, EmptyLegKinds, DrivingLoaded);
    HoursOfAbsent(x, PickupKinds, DrivingLoaded);
    HoursOfAbsent(z, DropoffKinds, DrivingLoaded);
    HoursOfFour(w, x, y, z, OnDutyFuel);
    HoursOfAbsent(x, PickupKinds, OnDutyFuel);
    HoursOfAbsent(z, DropoffKinds, OnDutyFuel);
    RepeatAdd(FuelStops(toPickupMiles), FuelStops(toDropoffMiles), p.fuelStopHours);
  }

  /** The pickup and the dropoff each take exactly the fixed stop time; each
      leg is driven in full at the average speed, and an empty leg of no
      distance not at all; the trip stops for fuel
      ceil(miles / FuelIntervalMiles) - 1 times on each leg, and nowhere
      else. */
  lemma ScheduleTotals(p: Params, toPickupMiles: real, toDropoffMiles: real, currentCycleUsed: real)
    requires p.Valid() && currentCycleUsed <= CycleLimitHours
    ensures var blocks := Generate(p, toPickupMiles, toDropoffMiles, currentCycleUsed).value.blocks;
      && HoursOf(blocks, OnDutyPickup) == p.pickupDropHours
      && HoursOf(blocks, OnDutyDropoff) == p.pickupDropHours
      && HoursOf(blocks, DrivingEmpty) == Max(0.0, toPickupMiles) / p.avgSpeedMph
      && HoursOf(blocks, DrivingLoaded) == Max(0.0, toDropoffMiles) / p.avgSpeedMph
      && HoursOf(blocks, OnDutyFuel) == Repeat(FuelStops(toPickupMiles) + FuelStops(toDropoffMiles), p.fuelStopHours)
  {
    var t := TripFrom(p, toPickupMiles, toDropoffMiles, currentCycleUsed);
    TripShaped(p, toPickupMiles, toDropoffMiles, currentCycleUsed);
    ShapeTotals(p, toPickupMiles, toDropoffMiles, t.empty.blocks, t.pickup.blocks, t.loaded.blocks, t.dropoff.blocks);
  }

  /** Where an activity falls in the trip: driving empty, pickup, driving
      loaded, dropoff; fuel stops and rest belong to no single step. */
  function Stage(a: Activity): int
  {
    match a
    case DrivingEmpty => 0
    case OnDutyPickup => 1
    case DrivingLoaded => 2
    case OnDutyDropoff => 3
    case _ => -1
  }

  /** Every block of a trip step carries that step's stage, or none. */
  ghost predicate StagesWithin(bs: seq<DutyBlock>, lo: int, hi: int)
  {
    forall i :: 0 <= i < |bs| ==> Stage(bs[i].activity) == -1 || lo <= Stage(bs[i].activity) <= hi
  }

  /** The trip's steps appear in order: no block of a later step comes before
      a block of an earlier one. */
  ghost predicate InTripOrder(bs: seq<DutyBlock>)
  {
    forall i, j :: 0 <= i < j < |bs| && Stage(bs[i].activity) >= 0 && Stage(bs[j].activity) >= 0 ==>
      Stage(bs[i].activity) <= Stage(bs[j].activity)
  }

  lemma OneStage(bs: seq<DutyBlock>, kinds: set<Activity>, k: int)
    requires OnlyKinds(bs, kinds) && forall a :: a in kinds ==> Stage(a) == -1 || Stage(a) == k
    ensures StagesWithin(bs, k, k) && InTripOrder(bs)
  {
  }

  lemma {:induction false} OrderConcat(x: seq<DutyBlock>, y: seq<DutyBlock>, lo: int, mid: int, hi: int)
    requires lo <= mid <= hi
    requires InTripOrder(x) && StagesWithin(x, lo, mid)
    requires InTripOrder(y) && StagesWithin(y, mid, hi)
    ensures InTripOrder(x + y) && StagesWithin(x + y, lo, hi)
  {
    var xy := x + y;
    forall i | |x| <= i < |xy|
      ensures xy[i] == y[i - |x|]
    {
    }
  }

  /** Four steps shaped like a trip are in trip order. */
  lemma ShapeOrder(p: Params, toPickupMiles: real, toDropoffMiles: real,
                   w: seq<DutyBlock>, x: seq<DutyBlock>, y: seq<DutyBlock>, z: seq<DutyBlock>)
    requires p.Valid() && TripShape(p, toPickupMiles, toDropoffMiles, w, x, y, z)
    ensures InTripOrder(w + x + y + z)
  {
    OneStage(w, EmptyLegKinds, 0);
    OneStage(x, PickupKinds, 1);
    OneStage(y, LoadedLegKinds, 2);
    OneStage(z, DropoffKinds, 3);
    OrderConcat(w, x, 0, 1, 1);
    OrderConcat(w + x, y, 0, 2, 2);
    OrderConcat(w + x + y, z, 0, 3, 3);
  }

  /** generate_duty_blocks emits the empty drive, then the pickup, then the
      loaded drive, then the dropoff. */
  lemma ScheduleOrder(p: Params, toPickupMiles: real, toDropoffMiles: real, currentCycleUsed: real)
    requires p.Valid() && currentCycleUsed <= CycleLimitHours
    ensures InTripOrder(Generate(p, toPickupMiles, toDropoffMiles, currentCycleUsed).value.blocks)
  {
    var t := TripFrom(p, toPickupMiles, toDropoffMiles, currentCycleUsed);
    TripShaped(p, toPickupMiles, toDropoffMiles, currentCycleUsed);
    ShapeOrder(p, toPickupMiles, toDropoffMiles, t.empty.blocks, t.pickup.blocks, t.loaded.blocks, t.dropoff.blocks);
  }
}
