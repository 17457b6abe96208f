/** The values the scheduler works on: activity tags, duty blocks, the
    simulation state threaded through every helper, and sums over block
    sequences used to state what a schedule contains. */
module DutyBlocks {
  import opened Regulations

  /** The activity tags the scheduler stamps on a block. */
  datatype Activity =
    | DrivingEmpty    // "driving (empty)"
    | DrivingLoaded   // "driving (loaded)"
    | OnDutyFuel      // "on-duty (fuel)"
    | OnDutyPickup    // "on-duty (pickup)"
    | OnDutyDropoff   // "on-duty (dropoff)"
    | OffDutyRest     // "off-duty (rest)"
    | SleeperBerth    // "sleeper-berth"

  /** The source's test `"driving" in activity`. */
  predicate IsDriving(a: Activity)
  {
    a.DrivingEmpty? || a.DrivingLoaded?
  }

  /** The source's test `activity in ["off-duty (rest)", "sleeper-berth"]`. */
  predicate IsRest(a: Activity)
  {
    a.OffDutyRest? || a.SleeperBerth?
  }

  /** The label of a drive leg: `"empty"` or `"loaded"`. */
  datatype Leg = Empty | Loaded

  /** The tag `f"driving ({label})"`. */
  function DrivingOf(leg: Leg): Activity
  {
    match leg
    case Empty => DrivingEmpty
    case Loaded => DrivingLoaded
  }

  /** The kind of a fixed-length stop: `"pickup"` or `"dropoff"`. */
  datatype Stop = Pickup | Dropoff

  /** The tag `f"on-duty ({activity_type})"`. */
  function OnDutyOf(stop: Stop): Activity
  {
    match stop
    case Pickup => OnDutyPickup
    case Dropoff => OnDutyDropoff
  }

  /** One `{day, activity, hours}` entry of the schedule. */
  datatype DutyBlock = DutyBlock(day: int, activity: Activity, hours: real)

  /** The tuple (day, day_on_duty, day_driving, cycle_used). */
  datatype State = State(day: int, dayOnDuty: real, dayDriving: real, cycleUsed: real)

  /** What a helper emits, and the state it leaves behind. */
  datatype Step = Step(blocks: seq<DutyBlock>, after: State)

  /** Total hours of the blocks tagged `a`. */
  function HoursOf(bs: seq<DutyBlock>, a: Activity): real
  {
    if bs == [] then 0.0
    else (if bs[0].activity == a then bs[0].hours else 0.0) + HoursOf(bs[1..], a)
  }

  /** Total hours of driving blocks stamped with day `d`. */
  function DrivingOn(bs: seq<DutyBlock>, d: int): real
  {
    if bs == [] then 0.0
    else (if bs[0].day == d && IsDriving(bs[0].activity) then bs[0].hours else 0.0) + DrivingOn(bs[1..], d)
  }

  /** Every block carries one of the tags in `kinds`. */
  ghost predicate OnlyKinds(bs: seq<DutyBlock>, kinds: set<Activity>)
  {
    forall i :: 0 <= i < |bs| ==> bs[i].activity in kinds
  }

  lemma ConcatAssoc(a: seq<DutyBlock>, b: seq<DutyBlock>, c: seq<DutyBlock>)
    ensures a + (b + c) == (a + b) + c
  {
  }

  lemma {:induction false} HoursOfConcat(x: seq<DutyBlock>, y: seq<DutyBlock>, a: Activity)
    ensures HoursOf(x + y, a) == HoursOf(x, a) + HoursOf(y, a)
  {
    if x != [] {
      assert (x + y)[1..] == x[1..] + y;
      HoursOfConcat(x[1..], y, a);
    } else {
      assert x + y == y;
    }
  }

  lemma {:induction false} HoursOfAbsent(bs: seq<DutyBlock>, kinds: set<Activity>, a: Activity)
    requires OnlyKinds(bs, kinds) && a !in kinds
    ensures HoursOf(bs, a) == 0.0
  {
    if bs != [] {
      HoursOfAbsent(bs[1..], kinds, a);
    }
  }

  lemma {:induction false} DrivingOnConcat(x: seq<DutyBlock>, y: seq<DutyBlock>, d: int)
    ensures DrivingOn(x + y, d) == DrivingOn(x, d) + DrivingOn(y, d)
  {
    if x != [] {
      assert (x + y)[1..] == x[1..] + y;
      DrivingOnConcat(x[1..], y, d);
    } else {
      assert x + y == y;
    }
  }

  /** No block of `bs` is a driving block stamped with day `d`. */
  lemma {:induction false} DrivingOnNone(bs: seq<DutyBlock>, d: int)
    requires forall i :: 0 <= i < |bs| ==> bs[i].day != d || !IsDriving(bs[i].activity)
    ensures DrivingOn(bs, d) == 0.0
  {
    if bs != [] {
      DrivingOnNone(bs[1..], d);
    }
  }

  lemma OnlyKindsConcat(x: seq<DutyBlock>, y: seq<DutyBlock>, kx: set<Activity>, ky: set<Activity>)
    requires OnlyKinds(x, kx) && OnlyKinds(y, ky)
    ensures OnlyKinds(x + y, kx + ky)
  {
    forall i | 0 <= i < |x + y|
      ensures (x + y)[i].activity in kx + ky
    {
      if i >= |x| {
        assert (x + y)[i] == y[i - |x|];
      }
    }
  }
}
