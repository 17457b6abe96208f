/** What drive_segment and add_pickup_dropoff_activity promise about the
    blocks they emit. */
module DriveProperties {
  import opened Regulations
  import opened DutyBlocks
  import opened Measures
  import opened DutySchedule
  import opened ResetProperties
  import opened SplitProperties

  /** The number of fuel stops on a leg of `miles`: one between consecutive
      fuel intervals, none after the last, so ceil(miles / FuelIntervalMiles) - 1
      for a positive distance and none otherwise. */
  function FuelStops(miles: real): nat
  {
    if miles <= 0.0 then 0 else Units(miles, FuelIntervalMiles) - 1
  }

  /** The segment lengths drive_segment cuts a leg into. */
  function Segments(miles: real): seq<real>
    decreases Units(miles, FuelIntervalMiles)
  {
    if miles <= 0.0 then []
    else
      var segment := Min(FuelIntervalMiles, miles);
      UnitsShrink(miles - segment, miles, FuelIntervalMiles);
      [segment] + Segments(miles - segment)
  }

  function Sum(xs: seq<real>): real
  {
    if xs == [] then 0.0 else xs[0] + Sum(xs[1..])
  }

  /** A positive leg is cut into ceil(miles / FuelIntervalMiles) segments,
      each positive and at most one fuel interval, that add up to the leg;
      there is one fuel stop fewer than segments. A leg of no distance has no
      segment. */
  lemma {:induction false} SegmentsShape(miles: real)
    ensures var segs := Segments(miles);
      && |segs| == Units(miles, FuelIntervalMiles)
      && (forall i :: 0 <= i < |segs| ==> 0.0 < segs[i] <= FuelIntervalMiles)
      && Sum(segs) == Max(0.0, miles)
      && (miles > 0.0 ==> FuelStops(miles) == |segs| - 1)
    decreases Units(miles, FuelIntervalMiles)
  {
    if miles > 0.0 {
      var segs := Segments(miles);
      var segment := Min(FuelIntervalMiles, miles);
      var left := miles - segment;
      SegmentsShape(left);
      assert segs[1..] == Segments(left);
      if left > 0.0 {
        UnitsPeel(miles, FuelIntervalMiles);
      } else {
        UnitsOne(miles, FuelIntervalMiles);
      }
    }
  }

  /** Drives the given segments in order, with a fuel stop between each
      segment and the next, each after its own compliance check. */
  function DriveSegments(p: Params, s: State, segs: seq<real>, leg: Leg): Step
    requires p.Valid()
    decreases |segs|
  {
    if segs == [] then Step([], s)
    else
      var d := GuardedSplit(s, segs[0] / p.avgSpeedMph, DrivingOf(leg));
      if |segs| == 1 then d
      else
        var f := GuardedSplit(d.after, p.fuelStopHours, OnDutyFuel);
        var rest := DriveSegments(p, f.after, segs[1..], leg);
        Step(d.blocks + f.blocks + rest.blocks, rest.after)
  }

  /** drive_segment drives exactly the segments `Segments` cuts the leg
      into, in order, refuelling between consecutive ones. */
  lemma {:induction false} DriveLoopBySegments(p: Params, s: State, miles: real, leg: Leg)
    requires p.Valid()
    ensures DriveLoop(p, s, miles, leg) == DriveSegments(p, s, Segments(miles), leg)
    decreases Units(miles, FuelIntervalMiles)
  {
    if miles > 0.0 {
      var segment := Min(FuelIntervalMiles, miles);
      var left := miles - segment;
      var segs := Segments(miles);
      assert segs == [segment] + Segments(left);
      DriveLoopStep(p, s, miles, leg, segment / p.avgSpeedMph, left);
      if left > 0.0 {
        var d := GuardedSplit(s, segment / p.avgSpeedMph, DrivingOf(leg));
        var f := GuardedSplit(d.after, p.fuelStopHours, OnDutyFuel);
        DriveLoopBySegments(p, f.after, left, leg);
        assert segs[1..] == Segments(left) != [];
      } else {
        assert Segments(left) == [];
      }
    }
  }

  /** a / c + b / c == (a + b) / c. */
  lemma DivideSum(a: real, b: real, c: real)
    requires c > 0.0
    ensures a / c + b / c == (a + b) / c
  {
    var x, y := a / c, b / c;
    assert x * c == a && y * c == b;
    assert (x + y) * c == a + b;
    DivideExactly(a + b, c, x + y);
  }

  /** `n` stops of `x` hours each. */
  function Repeat(n: nat, x: real): real
  {
    if n == 0 then 0.0 else x + Repeat(n - 1, x)
  }

  lemma {:induction false} RepeatIsProduct(n: nat, x: real)
    ensures Repeat(n, x) == n as real * x
  {
    if n > 0 {
      RepeatIsProduct(n - 1, x);
    }
  }

  /** a <= b implies a / c <= b / c for positive c. */
  lemma DivideMonotonic(a: real, b: real, c: real)
    requires c > 0.0 && a <= b
    ensures a / c <= b / c
  {
    var x, y := a / c, b / c;
    assert x * c == a && y * c == b;
  }

  lemma ChunksWithinWeaken(bs: seq<DutyBlock>, activity: Activity, limit: real, wider: real)
    requires ChunksWithin(bs, activity, limit) && limit <= wider
    ensures ChunksWithin(bs, activity, wider)
  {
  }

  /** Blocks without `other` say nothing about its chunks. */
  lemma ChunksWithinAbsent(bs: seq<DutyBlock>, activity: Activity, limit: real,
                           kinds: set<Activity>, other: Activity, bound: real)
    requires ChunksWithin(bs, activity, limit) && OnlyKinds(bs, kinds) && other !in kinds
    ensures ChunksWithin(bs, other, bound)
  {
  }

  lemma OnlyKindsWiden(bs: seq<DutyBlock>, kinds: set<Activity>, wider: set<Activity>)
    requires OnlyKinds(bs, kinds) && kinds <= wider
    ensures OnlyKinds(bs, wider)
  {
  }

  /** Totals and bounds over three consecutive runs of blocks. */
  lemma ThreeParts(x: seq<DutyBlock>, y: seq<DutyBlock>, z: seq<DutyBlock>, a: Activity, b: Activity,
                   kinds: set<Activity>, limit: real)
    requires OnlyKinds(x, kinds) && OnlyKinds(y, kinds) && OnlyKinds(z, kinds)
    requires ChunksWithin(x, a, limit) && ChunksWithin(y, a, limit) && ChunksWithin(z, a, limit)
    ensures HoursOf(x + y + z, a) == HoursOf(x, a) + HoursOf(y, a) + HoursOf(z, a)
    ensures HoursOf(x + y + z, b) == HoursOf(x, b) + HoursOf(y, b) + HoursOf(z, b)
    ensures OnlyKinds(x + y + z, kinds)
    ensures ChunksWithin(x + y + z, a, limit)
  {
    HoursOfConcat(x, y, a);
    HoursOfConcat(x + y, z, a);
    HoursOfConcat(x, y, b);
    HoursOfConcat(x + y, z, b);
    OnlyKindsConcat(x, y, kinds, kinds);
    OnlyKindsConcat(x + y, z, kinds, kinds);
    ChunksWithinConcat(x, y, a, limit);
    ChunksWithinConcat(x + y, z, a, limit);
  }

  /** The compliance check followed by split_block: exactly `hours` of the
      activity when positive, none otherwise, in chunks of at most `hours`;
      the rest is standard off-duty rest or sleeper-berth time. */
  lemma GuardedSplitTotals(s: State, hours: real, activity: Activity)
    requires !IsRest(activity)
    ensures var r := GuardedSplit(s, hours, activity);
      && HoursOf(r.blocks, activity) == Max(0.0, hours)
      && OnlyKinds(r.blocks, {activity, OffDutyRest, SleeperBerth})
      && ChunksWithin(r.blocks, activity, hours)
  {
    var c := Compliance(s, hours);
    var d := SplitLoop(c.after, hours, activity);
    ComplianceResetsOnce(s, hours);
    HoursOfAbsent(c.blocks, {SleeperBerth}, activity);
    SplitLoopTotals(c.after, hours, activity);
    HoursOfConcat(c.blocks, d.blocks, activity);
    OnlyKindsConcat(c.blocks, d.blocks, {SleeperBerth}, {activity, OffDutyRest, SleeperBerth});
    ChunksWithinAbsent(c.blocks, activity, hours, {SleeperBerth}, activity, hours);
    ChunksWithinConcat(c.blocks, d.blocks, activity, hours);
  }

  /** add_pickup_dropoff_activity places exactly the fixed pickup or dropoff
      time, in chunks of at most that time, and nothing else but rest. */
  lemma AddActivityTotals(p: Params, s: State, stop: Stop)
    ensures var r := AddActivity(p, s, stop);
      && HoursOf(r.blocks, OnDutyOf(stop)) == Max(0.0, p.pickupDropHours)
      && OnlyKinds(r.blocks, {OnDutyOf(stop), OffDutyRest, SleeperBerth})
      && ChunksWithin(r.blocks, OnDutyOf(stop), p.pickupDropHours)
  {
    GuardedSplitTotals(s, p.pickupDropHours, OnDutyOf(stop));
  }

  /** `hours` of driving after the compliance check, within a chunk limit
      of at least `hours`: exactly those hours, no fuel, nothing else but
      rest. */
  lemma DrivingTotals(s: State, hours: real, leg: Leg, limit: real)
    requires 0.0 < hours <= limit
    ensures var d := GuardedSplit(s, hours, DrivingOf(leg));
      && HoursOf(d.blocks, DrivingOf(leg)) == hours
      && HoursOf(d.blocks, OnDutyFuel) == 0.0
      && OnlyKinds(d.blocks, {DrivingOf(leg), OffDutyRest, SleeperBerth})
      && ChunksWithin(d.blocks, DrivingOf(leg), limit)
  {
    var d := GuardedSplit(s, hours, DrivingOf(leg));
    GuardedSplitTotals(s, hours, DrivingOf(leg));
    HoursOfAbsent(d.blocks, {DrivingOf(leg), OffDutyRest, SleeperBerth}, OnDutyFuel);
    ChunksWithinWeaken(d.blocks, DrivingOf(leg), hours, limit);
  }

  /** One driven segment: `segment / speed` hours of driving, no fuel, and
      driving chunks no longer than a full fuel interval takes. */
  lemma SegmentTotals(p: Params, s: State, segment: real, leg: Leg)
    requires p.Valid() && 0.0 < segment <= FuelIntervalMiles
    ensures var d := GuardedSplit(s, segment / p.avgSpeedMph, DrivingOf(leg));
      && HoursOf(d.blocks, DrivingOf(leg)) == segment / p.avgSpeedMph
      && HoursOf(d.blocks, OnDutyFuel) == 0.0
      && OnlyKinds(d.blocks, {DrivingOf(leg), OffDutyRest, SleeperBerth})
      && ChunksWithin(d.blocks, DrivingOf(leg), FuelIntervalMiles / p.avgSpeedMph)
  {
    DivideMonotonic(0.0, segment, p.avgSpeedMph);
    DivideMonotonic(segment, FuelIntervalMiles, p.avgSpeedMph);
    DrivingTotals(s, segment / p.avgSpeedMph, leg, FuelIntervalMiles / p.avgSpeedMph);
  }

  /** One fuel stop: exactly `fuelStopHours` of fuelling and no driving. */
  lemma FuelStopTotals(p: Params, s: State, leg: Leg)
    requires p.Valid()
    ensures var f := GuardedSplit(s, p.fuelStopHours, OnDutyFuel);
      && HoursOf(f.blocks, OnDutyFuel) == p.fuelStopHours
      && HoursOf(f.blocks, DrivingOf(leg)) == 0.0
      && OnlyKinds(f.blocks, {OnDutyFuel, OffDutyRest, SleeperBerth})
      && ChunksWithin(f.blocks, DrivingOf(leg), FuelIntervalMiles / p.avgSpeedMph)
  {
    var f := GuardedSplit(s, p.fuelStopHours, OnDutyFuel);
    GuardedSplitTotals(s, p.fuelStopHours, OnDutyFuel);
    HoursOfAbsent(f.blocks, {OnDutyFuel, OffDutyRest, SleeperBerth}, DrivingOf(leg));
    ChunksWithinAbsent(f.blocks, OnDutyFuel, p.fuelStopHours, {OnDutyFuel, OffDutyRest, SleeperBerth},
                       DrivingOf(leg), FuelIntervalMiles / p.avgSpeedMph);
  }

  /** A full fuel interval, a fuel stop, then the rest of the leg. */
  lemma DriveStepTotals(p: Params, d: seq<DutyBlock>, f: seq<DutyBlock>, rest: seq<DutyBlock>, miles: real, leg: Leg)
    requires p.Valid() && miles > FuelIntervalMiles
    requires HoursOf(d, DrivingOf(leg)) == FuelIntervalMiles / p.avgSpeedMph && HoursOf(d, OnDutyFuel) == 0.0
    requires OnlyKinds(d, {DrivingOf(leg), OffDutyRest, SleeperBerth})
    requires ChunksWithin(d, DrivingOf(leg), FuelIntervalMiles / p.avgSpeedMph)
    requires HoursOf(f, OnDutyFuel) == p.fuelStopHours && HoursOf(f, DrivingOf(leg)) == 0.0
    requires OnlyKinds(f, {OnDutyFuel, OffDutyRest, SleeperBerth})
    requires ChunksWithin(f, DrivingOf(leg), FuelIntervalMiles / p.avgSpeedMph)
    requires HoursOf(rest, DrivingOf(leg)) == Max(0.0, miles - FuelIntervalMiles) / p.avgSpeedMph
    requires HoursOf(rest, OnDutyFuel) == Repeat(FuelStops(miles - FuelIntervalMiles), p.fuelStopHours)
    requires OnlyKinds(rest, {DrivingOf(leg), OnDutyFuel, OffDutyRest, SleeperBerth})
    requires ChunksWithin(rest, DrivingOf(leg), FuelIntervalMiles / p.avgSpeedMph)
    ensures HoursOf(d + f + rest, DrivingOf(leg)) == Max(0.0, miles) / p.avgSpeedMph
    ensures HoursOf(d + f + rest, OnDutyFuel) == Repeat(FuelStops(miles), p.fuelStopHours)
    ensures OnlyKinds(d + f + rest, {DrivingOf(leg), OnDutyFuel, OffDutyRest, SleeperBerth})
    ensures ChunksWithin(d + f + rest, DrivingOf(leg), FuelIntervalMiles / p.avgSpeedMph)
  {
    var drive := DrivingOf(leg);
    var kinds := {drive, OnDutyFuel, OffDutyRest, SleeperBerth};
    var left := miles - FuelIntervalMiles;
    OnlyKindsWiden(d, {drive, OffDutyRest, SleeperBerth}, kinds);
    OnlyKindsWiden(f, {OnDutyFuel, OffDutyRest, SleeperBerth}, kinds);
    ThreeParts(d, f, rest, drive, OnDutyFuel, kinds, FuelIntervalMiles / p.avgSpeedMph);
    assert HoursOf(d + f + rest, drive) == miles / p.avgSpeedMph by {
      DivideSum(FuelIntervalMiles, left, p.avgSpeedMph);
    }
    assert FuelStops(miles) == FuelStops(left) + 1 by {
      UnitsPeel(miles, FuelIntervalMiles);
    }
  }

  /** drive_segment drives the whole leg, `miles / speed` hours, in chunks no
      longer than one fuel interval takes; it stops for fuel
      ceil(miles / FuelIntervalMiles) - 1 times; it emits nothing else but
      rest; and a leg of no distance emits nothing and leaves the state as it
      was. */
  lemma {:induction false} DriveLoopTotals(p: Params, s: State, miles: real, leg: Leg)
    requires p.Valid()
    ensures var r := DriveLoop(p, s, miles, leg);
      && HoursOf(r.blocks, DrivingOf(leg)) == Max(0.0, miles) / p.avgSpeedMph
      && HoursOf(r.blocks, OnDutyFuel) == Repeat(FuelStops(miles), p.fuelStopHours)
      && OnlyKinds(r.blocks, {DrivingOf(leg), OnDutyFuel, OffDutyRest, SleeperBerth})
      && ChunksWithin(r.blocks, DrivingOf(leg), FuelIntervalMiles / p.avgSpeedMph)
      && (miles <= 0.0 ==> r == Step([], s))
    decreases Units(miles, FuelIntervalMiles)
  {
    var r := DriveLoop(p, s, miles, leg);
    if miles > FuelIntervalMiles {
      var d := GuardedSplit(s, FuelIntervalMiles / p.avgSpeedMph, DrivingOf(leg));
      var f := GuardedSplit(d.after, p.fuelStopHours, OnDutyFuel);
      var left := miles - FuelIntervalMiles;
      var rest := DriveLoop(p, f.after, left, leg);
      DriveLoopStep(p, s, miles, leg, FuelIntervalMiles / p.avgSpeedMph, left);
      SegmentTotals(p, s, FuelIntervalMiles, leg);
      FuelStopTotals(p, d.after, leg);
      DriveLoopTotals(p, f.after, left, leg);
      DriveStepTotals(p, d.blocks, f.blocks, rest.blocks, miles, leg);
    } else if miles > 0.0 {
      DriveLoopStep(p, s, miles, leg, miles / p.avgSpeedMph, 0.0);
      SegmentTotals(p, s, miles, leg);
      assert FuelStops(miles) == 0 by {
        UnitsOne(miles, FuelIntervalMiles);
      }
      OnlyKindsWiden(r.blocks, {DrivingOf(leg), OffDutyRest, SleeperBerth},
                     {DrivingOf(leg), OnDutyFuel, OffDutyRest, SleeperBerth});
    }
  }
}
