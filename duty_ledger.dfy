/** The invariant every step of generate_duty_blocks keeps between the
    blocks emitted so far and the simulation state: blocks in day order,
    starting on day 1, never stamped after the current day; the day's driving
    counter equal to the driving hours stamped with the current day and
    within the daily cap, earlier days within the cap too; and the cycle at
    or below its limit. */
module DutyLedger {
  import opened Regulations
  import opened DutyBlocks
  import opened Measures
  import opened DutySchedule

  /** Blocks appear in day order. */
  ghost predicate Chronological(log: seq<DutyBlock>)
  {
    forall i, j :: 0 <= i < j < |log| ==> log[i].day <= log[j].day
  }

  ghost predicate Consistent(log: seq<DutyBlock>, s: State)
  {
    && (log == [] ==> s.day == 1)
    && (log != [] ==> log[0].day == 1)
    && Chronological(log)
    && (forall i :: 0 <= i < |log| ==> log[i].day <= s.day)
    && 0.0 <= s.dayDriving <= DailyMaxDriving
    && DrivingOn(log, s.day) == s.dayDriving
    && (forall d :: d < s.day ==> DrivingOn(log, d) <= DailyMaxDriving)
    && s.cycleUsed <= CycleLimitHours
  }

  lemma InitialConsistent(currentCycleUsed: real)
    requires currentCycleUsed <= CycleLimitHours
    ensures Consistent([], Initial(currentCycleUsed))
  {
  }

  /** Driving on any day of a consistent schedule is within the daily cap. */
  lemma ConsistentDailyDriving(log: seq<DutyBlock>, s: State, d: int)
    requires Consistent(log, s)
    ensures DrivingOn(log, d) <= DailyMaxDriving
  {
    if d > s.day {
      DrivingOnNone(log, d);
    }
  }

  /** Appending a block stamped with the current day, with the counters
      moved by it. */
  lemma AppendBlock(log: seq<DutyBlock>, s: State, b: DutyBlock, t: State)
    requires Consistent(log, s)
    requires b.day == s.day && t.day == s.day
    requires t.dayDriving == s.dayDriving + (if IsDriving(b.activity) then b.hours else 0.0)
    requires 0.0 <= t.dayDriving <= DailyMaxDriving
    requires t.cycleUsed <= CycleLimitHours
    ensures Consistent(log + [b], t)
  {
    var log' := log + [b];
    assert [b][1..] == [];
    forall d | d < t.day
      ensures DrivingOn(log', d) <= DailyMaxDriving
    {
      DrivingOnConcat(log, [b], d);
    }
    DrivingOnConcat(log, [b], s.day);
  }

  /** Moving to the next day with the driving counter cleared. */
  lemma NextDay(log: seq<DutyBlock>, s: State, t: State)
    requires Consistent(log, s) && log != []
    requires t.day == s.day + 1 && t.dayDriving == 0.0
    requires t.cycleUsed <= CycleLimitHours
    ensures Consistent(log, t)
  {
    DrivingOnNone(log, t.day);
  }

  lemma {:induction false} ResetLoopConsistent(log: seq<DutyBlock>, s: State, remaining: real)
    requires Consistent(log, s)
    ensures Consistent(log + ResetLoop(s, remaining).blocks, ResetLoop(s, remaining).after)
    decreases Units(remaining, OffDutyHours)
  {
    var r := ResetLoop(s, remaining);
    if remaining <= 0.0 {
      assert log + r.blocks == log;
    } else {
      var today := Min(OffDutyHours, remaining);
      var left := remaining - today;
      var cycle := Max(0.0, s.cycleUsed - today);
      var b := DutyBlock(s.day, SleeperBerth, today);
      var next := if left > 0.0 then State(s.day + 1, 0.0, 0.0, cycle) else s.(cycleUsed := cycle);
      AppendBlock(log, s, b, s.(cycleUsed := cycle));
      if left > 0.0 {
        NextDay(log + [b], s.(cycleUsed := cycle), next);
      }
      UnitsShrink(left, remaining, OffDutyHours);
      ResetLoopConsistent(log + [b], next, left);
      ConcatAssoc(log, [b], ResetLoop(next, left).blocks);
    }
  }

  lemma ComplianceConsistent(log: seq<DutyBlock>, s: State, hours: real)
    requires Consistent(log, s)
    ensures Consistent(log + Compliance(s, hours).blocks, Compliance(s, hours).after)
  {
    if Compliance(s, hours).blocks == [] {
      assert log + [] == log;
    } else {
      ResetLoopConsistent(log, s, CycleResetHours);
    }
  }

  /** The rest block that closes the day, then the next day. */
  lemma RolloverConsistent(log: seq<DutyBlock>, t: State)
    requires Consistent(log, t)
    ensures Consistent(log + [RestBlock(t.day)], Rollover(t))
  {
    AppendBlock(log, t, RestBlock(t.day), t);
    NextDay(log + [RestBlock(t.day)], t, Rollover(t));
  }

  /** One chunk of work that fits the day's driving allowance and the cycle. */
  lemma WorkConsistent(log: seq<DutyBlock>, t: State, activity: Activity, h: real)
    requires Consistent(log, t) && !IsRest(activity) && h > 0.0
    requires IsDriving(activity) ==> h <= DailyMaxDriving - t.dayDriving
    requires t.cycleUsed + h <= CycleLimitHours
    ensures Consistent(log + [DutyBlock(t.day, activity, h)], Account(t, activity, h))
  {
    AppendBlock(log, t, DutyBlock(t.day, activity, h), Account(t, activity, h));
  }

  lemma SplitIterationConsistent(log: seq<DutyBlock>, s: State, remaining: real, activity: Activity)
    requires Consistent(log, s) && remaining > 0.0 && !IsRest(activity)
    ensures var it := SplitIteration(s, remaining, activity); Consistent(log + it.blocks, it.after)
  {
    var c := Compliance(s, remaining);
    var t := c.after;
    var h := Chunk(t, remaining, activity);
    ComplianceConsistent(log, s, remaining);
    var log1 := log + c.blocks;
    if h <= 0.0 {
      IterationRolls(s, remaining, activity, c.blocks, t);
      RolloverConsistent(log1, t);
      ConcatAssoc(log, c.blocks, [RestBlock(t.day)]);
    } else {
      var u := Account(t, activity, h);
      var b := DutyBlock(t.day, activity, h);
      assert t.cycleUsed + h <= CycleLimitHours by {
        if c.blocks != [] {
          assert t.dayOnDuty == 0.0 && t.dayDriving == 0.0;
        }
      }
      WorkConsistent(log1, t, activity, h);
      if DayExhausted(u) {
        IterationCloses(s, remaining, activity, c.blocks, t, h);
        RolloverConsistent(log1 + [b], u);
        assert log + (c.blocks + [b, RestBlock(t.day)]) == (log1 + [b]) + [RestBlock(u.day)] by {
          assert [b] + [RestBlock(u.day)] == [b, RestBlock(t.day)];
          ConcatAssoc(log, c.blocks, [b, RestBlock(t.day)]);
          ConcatAssoc(log1, [b], [RestBlock(u.day)]);
        }
      } else {
        IterationContinues(s, remaining, activity, c.blocks, t, h);
        ConcatAssoc(log, c.blocks, [b]);
      }
    }
  }

  lemma {:induction false} SplitLoopConsistent(log: seq<DutyBlock>, s: State, remaining: real, activity: Activity)
    requires Consistent(log, s) && !IsRest(activity)
    ensures Consistent(log + SplitLoop(s, remaining, activity).blocks, SplitLoop(s, remaining, activity).after)
    decreases Units(remaining, DailyMaxDriving), Phase(s)
  {
    var r := SplitLoop(s, remaining, activity);
    if remaining <= 0.0 {
      assert log + r.blocks == log;
    } else {
      var it := SplitIteration(s, remaining, activity);
      SplitIterationConsistent(log, s, remaining, activity);
      SplitProgress(s, remaining, activity);
      SplitLoopConsistent(log + it.blocks, it.after, it.remaining, activity);
      ConcatAssoc(log, it.blocks, SplitLoop(it.after, it.remaining, activity).blocks);
    }
  }

  lemma GuardedSplitConsistent(log: seq<DutyBlock>, s: State, hours: real, activity: Activity)
    requires Consistent(log, s) && !IsRest(activity)
    ensures Consistent(log + GuardedSplit(s, hours, activity).blocks, GuardedSplit(s, hours, activity).after)
  {
    var c := Compliance(s, hours);
    var d := SplitLoop(c.after, hours, activity);
    ComplianceConsistent(log, s, hours);
    SplitLoopConsistent(log + c.blocks, c.after, hours, activity);
    ConcatAssoc(log, c.blocks, d.blocks);
  }

  lemma {:induction false} DriveLoopConsistent(p: Params, log: seq<DutyBlock>, s: State, remaining: real, leg: Leg)
    requires p.Valid() && Consistent(log, s)
    ensures Consistent(log + DriveLoop(p, s, remaining, leg).blocks, DriveLoop(p, s, remaining, leg).after)
    decreases Units(remaining, FuelIntervalMiles)
  {
    var r := DriveLoop(p, s, remaining, leg);
    if remaining <= 0.0 {
      assert log + r.blocks == log;
    } else {
      var hours := Min(FuelIntervalMiles, remaining) / p.avgSpeedMph;
      var left := remaining - Min(FuelIntervalMiles, remaining);
      DriveLoopStep(p, s, remaining, leg, hours, left);
      var d := GuardedSplit(s, hours, DrivingOf(leg));
      GuardedSplitConsistent(log, s, hours, DrivingOf(leg));
      if left > 0.0 {
        var f := GuardedSplit(d.after, p.fuelStopHours, OnDutyFuel);
        GuardedSplitConsistent(log + d.blocks, d.after, p.fuelStopHours, OnDutyFuel);
        var rest := DriveLoop(p, f.after, left, leg);
        DriveLoopConsistent(p, log + d.blocks + f.blocks, f.after, left, leg);
        assert log + r.blocks == (log + d.blocks + f.blocks) + rest.blocks by {
          ConcatAssoc(d.blocks, f.blocks, rest.blocks);
          ConcatAssoc(log, d.blocks + f.blocks, rest.blocks);
          ConcatAssoc(log, d.blocks, f.blocks);
        }
      }
    }
  }
}
