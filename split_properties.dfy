/** What split_block promises about the blocks it emits and the counters it
    moves. */
module SplitProperties {
  import opened Regulations
  import opened DutyBlocks
  import opened Measures
  import opened DutySchedule
  import opened ResetProperties

  /** Every chunk of `activity` is positive and at most `limit` hours, and
      every off-duty rest is the standard OffDutyHours. */
  ghost predicate ChunksWithin(bs: seq<DutyBlock>, activity: Activity, limit: real)
  {
    forall i :: 0 <= i < |bs| ==>
      (bs[i].activity == activity ==> 0.0 < bs[i].hours <= limit) &&
      (bs[i].activity == OffDutyRest ==> bs[i].hours == OffDutyHours)
  }

  lemma ChunksWithinConcat(x: seq<DutyBlock>, y: seq<DutyBlock>, activity: Activity, limit: real)
    requires ChunksWithin(x, activity, limit) && ChunksWithin(y, activity, limit)
    ensures ChunksWithin(x + y, activity, limit)
  {
    forall i | |x| <= i < |x + y|
      ensures (x + y)[i] == y[i - |x|]
    {
    }
  }

  /** A chunk of work, with or without the rest block that closes its day. */
  lemma WorkTail(day: int, activity: Activity, h: real, closesDay: bool, limit: real)
    requires 0.0 < h <= limit && activity != OffDutyRest
    ensures var tail := [DutyBlock(day, activity, h)] + (if closesDay then [RestBlock(day)] else []);
      && HoursOf(tail, activity) == h
      && OnlyKinds(tail, {activity, OffDutyRest})
      && ChunksWithin(tail, activity, limit)
  {
    var b := DutyBlock(day, activity, h);
    assert [b][1..] == [];
    if closesDay {
      var tail := [b] + [RestBlock(day)];
      assert tail[1..] == [RestBlock(day)];
      assert [RestBlock(day)][1..] == [];
      assert HoursOf([RestBlock(day)], activity) == 0.0;
    } else {
      assert [b] + [] == [b];
    }
  }

  /** A rollover alone: one standard rest block, none of the activity. */
  lemma RestTail(day: int, activity: Activity, limit: real)
    requires activity != OffDutyRest
    ensures var tail := [RestBlock(day)];
      HoursOf(tail, activity) == 0.0 && OnlyKinds(tail, {activity, OffDutyRest}) && ChunksWithin(tail, activity, limit)
  {
    assert [RestBlock(day)][1..] == [];
  }

  /** One pass of split_block's loop places exactly the hours it takes off
      `remaining`, and emits only the activity, rest and sleeper-berth blocks. */
  lemma SplitIterationTotals(s: State, remaining: real, activity: Activity)
    requires remaining > 0.0 && !IsRest(activity)
    ensures var it := SplitIteration(s, remaining, activity);
      && 0.0 <= it.remaining <= remaining
      && HoursOf(it.blocks, activity) == remaining - it.remaining
      && OnlyKinds(it.blocks, {activity, OffDutyRest, SleeperBerth})
      && ChunksWithin(it.blocks, activity, remaining)
  {
    var it := SplitIteration(s, remaining, activity);
    var c := Compliance(s, remaining);
    var t := c.after;
    var h := Chunk(t, remaining, activity);
    var tail: seq<DutyBlock>;
    if h <= 0.0 {
      tail := [RestBlock(t.day)];
      RestTail(t.day, activity, remaining);
    } else {
      var closesDay := DayExhausted(Account(t, activity, h));
      tail := [DutyBlock(t.day, activity, h)] + (if closesDay then [RestBlock(t.day)] else []);
      WorkTail(t.day, activity, h, closesDay, remaining);
    }
    assert it.blocks == c.blocks + tail;
    assert HoursOf(c.blocks, activity) == 0.0 && OnlyKinds(c.blocks, {SleeperBerth}) by {
      ComplianceResetsOnce(s, remaining);
      HoursOfAbsent(c.blocks, {SleeperBerth}, activity);
    }
    HoursOfConcat(c.blocks, tail, activity);
    OnlyKindsConcat(c.blocks, tail, {SleeperBerth}, {activity, OffDutyRest});
    ChunksWithinConcat(c.blocks, tail, activity, remaining);
  }

  /** split_block places exactly the requested hours of the activity, in
      chunks no longer than the request; all else it emits is standard
      off-duty rest or sleeper-berth time from cycle resets. */
  lemma {:induction false} SplitLoopTotals(s: State, remaining: real, activity: Activity)
    requires !IsRest(activity)
    ensures var r := SplitLoop(s, remaining, activity);
      && HoursOf(r.blocks, activity) == Max(0.0, remaining)
      && OnlyKinds(r.blocks, {activity, OffDutyRest, SleeperBerth})
      && ChunksWithin(r.blocks, activity, remaining)
    decreases Units(remaining, DailyMaxDriving), Phase(s)
  {
    if remaining > 0.0 {
      var it := SplitIteration(s, remaining, activity);
      var rest := SplitLoop(it.after, it.remaining, activity);
      SplitIterationTotals(s, remaining, activity);
      SplitProgress(s, remaining, activity);
      SplitLoopTotals(it.after, it.remaining, activity);
      HoursOfConcat(it.blocks, rest.blocks, activity);
      OnlyKindsConcat(it.blocks, rest.blocks, {activity, OffDutyRest, SleeperBerth}, {activity, OffDutyRest, SleeperBerth});
      ChunksWithinConcat(it.blocks, rest.blocks, activity, remaining);
    }
  }

  /** When the whole request fits under the cycle limit, split_block never
      resets: it emits no sleeper-berth time and adds exactly the request to
      the cycle. */
  lemma {:induction false} SplitWithoutReset(s: State, remaining: real, activity: Activity)
    requires !IsRest(activity) && s.cycleUsed + remaining <= CycleLimitHours
    ensures var r := SplitLoop(s, remaining, activity);
      && HoursOf(r.blocks, SleeperBerth) == 0.0
      && r.after.cycleUsed == s.cycleUsed + Max(0.0, remaining)
    decreases Units(remaining, DailyMaxDriving), Phase(s)
  {
    if remaining > 0.0 {
      var it := SplitIteration(s, remaining, activity);
      assert it.after.cycleUsed + it.remaining == s.cycleUsed + remaining && OnlyKinds(it.blocks, {activity, OffDutyRest}) by {
        var h := Chunk(s, remaining, activity);
        assert Compliance(s, remaining).blocks == [] && Compliance(s, remaining).after == s;
        if h <= 0.0 {
          IterationRolls(s, remaining, activity, [], s);
          assert it.blocks == [RestBlock(s.day)];
        } else if DayExhausted(Account(s, activity, h)) {
          IterationCloses(s, remaining, activity, [], s, h);
          assert it.blocks == [DutyBlock(s.day, activity, h), RestBlock(s.day)];
        } else {
          IterationContinues(s, remaining, activity, [], s, h);
          assert it.blocks == [DutyBlock(s.day, activity, h)];
        }
      }
      var rest := SplitLoop(it.after, it.remaining, activity);
      HoursOfAbsent(it.blocks, {activity, OffDutyRest}, SleeperBerth);
      SplitProgress(s, remaining, activity);
      SplitWithoutReset(it.after, it.remaining, activity);
      HoursOfConcat(it.blocks, rest.blocks, SleeperBerth);
    }
  }

  /** The rule as written caps a driving chunk by the driving allowance and
      the room left in the day, not by the on-duty window: after ten hours of
      non-driving work, a full eleven-hour drive is placed on the same day. */
  lemma DrivingIgnoresOnDutyWindow()
    ensures var s := State(1, 10.0, 0.0, 0.0);
      && SplitLoop(s, DailyMaxDriving, DrivingLoaded).blocks[0] == DutyBlock(1, DrivingLoaded, 11.0)
      && s.dayOnDuty + 11.0 > DailyMaxOnDuty
  {
    var s := State(1, 10.0, 0.0, 0.0);
    var it := SplitIteration(s, DailyMaxDriving, DrivingLoaded);
    assert it.blocks[0] == DutyBlock(1, DrivingLoaded, 11.0);
  }
}
