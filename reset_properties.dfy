/** What handle_cycle_reset and ensure_cycle_compliance promise. */
module ResetProperties {
  import opened Regulations
  import opened DutyBlocks
  import opened Measures
  import opened DutySchedule

  /** The reset loop for `remaining` hours: block i is a sleeper-berth block
      of `min(OffDutyHours, remaining - i * OffDutyHours)` hours stamped with
      day `s.day + i`; the blocks add up to `remaining`; the cycle drops by the
      time rested but not below zero; a new day, with both day counters
      cleared, is opened after every block but the last. */
  lemma {:induction false} ResetLoopShape(s: State, remaining: real)
    requires remaining > 0.0
    ensures var r := ResetLoop(s, remaining);
      && |r.blocks| == Units(remaining, OffDutyHours)
      && (forall i :: 0 <= i < |r.blocks| ==>
            r.blocks[i] == DutyBlock(s.day + i, SleeperBerth, Min(OffDutyHours, remaining - i as real * OffDutyHours)))
      && HoursOf(r.blocks, SleeperBerth) == remaining
      && r.after.cycleUsed == Max(0.0, s.cycleUsed - remaining)
      && r.after.day == s.day + |r.blocks| - 1
      && (|r.blocks| > 1 ==> r.after.dayOnDuty == 0.0 && r.after.dayDriving == 0.0)
      && (|r.blocks| == 1 ==> r.after.dayOnDuty == s.dayOnDuty && r.after.dayDriving == s.dayDriving)
    decreases Units(remaining, OffDutyHours)
  {
    var r := ResetLoop(s, remaining);
    var today := Min(OffDutyHours, remaining);
    var left := remaining - today;
    var cycle := Max(0.0, s.cycleUsed - today);
    var b := DutyBlock(s.day, SleeperBerth, today);
    assert [b][1..] == [];
    if left > 0.0 {
      var next := State(s.day + 1, 0.0, 0.0, cycle);
      var rest := ResetLoop(next, left);
      ResetLoopShape(next, left);
      UnitsPeel(remaining, OffDutyHours);
      FloorAtZeroTwice(s.cycleUsed, OffDutyHours, left);
      assert r.blocks == [b] + rest.blocks;
      forall i | 0 <= i < |r.blocks|
        ensures r.blocks[i] == DutyBlock(s.day + i, SleeperBerth, Min(OffDutyHours, remaining - i as real * OffDutyHours))
      {
        if i > 0 {
          assert r.blocks[i] == rest.blocks[i - 1];
          assert left - (i - 1) as real * OffDutyHours == remaining - i as real * OffDutyHours;
        }
      }
      assert HoursOf(r.blocks, SleeperBerth) == today + HoursOf(rest.blocks, SleeperBerth);
    } else {
      UnitsOne(remaining, OffDutyHours);
      var next := s.(cycleUsed := cycle);
      assert ResetLoop(next, left) == Step([], next);
      assert r.blocks == [b];
    }
  }

  /** A cycle reset rests exactly CycleResetHours in the sleeper berth, and
      leaves the cycle lowered by `min(cycle_used, CycleResetHours)`, never
      below zero. */
  lemma CycleResetTotals(s: State)
    ensures var r := CycleReset(s);
      && OnlyKinds(r.blocks, {SleeperBerth})
      && HoursOf(r.blocks, SleeperBerth) == CycleResetHours
      && r.after.cycleUsed >= 0.0
      && r.after.cycleUsed == s.cycleUsed - Min(s.cycleUsed, CycleResetHours)
  {
    ResetLoopShape(s, CycleResetHours);
  }

  /** The restart lowers the cycle rather than clearing it: a driver with
      more than CycleResetHours on the cycle still has hours on it after the
      reset. */
  lemma ResetDoesNotClearCycle(s: State)
    requires s.cycleUsed > CycleResetHours
    ensures CycleReset(s).after.cycleUsed == s.cycleUsed - CycleResetHours > 0.0
  {
  }

  /** ensure_cycle_compliance rests a full restart, and only one, exactly
      when the activity would take the cycle over its limit; otherwise it
      emits nothing and leaves the state as it was. */
  lemma ComplianceResetsOnce(s: State, activityHours: real)
    ensures var r := Compliance(s, activityHours);
      && OnlyKinds(r.blocks, {SleeperBerth})
      && HoursOf(r.blocks, SleeperBerth) == (if s.cycleUsed + activityHours > CycleLimitHours then CycleResetHours else 0.0)
      && (s.cycleUsed + activityHours <= CycleLimitHours ==> r.blocks == [] && r.after == s)
  {
    CycleResetTotals(s);
  }
}
