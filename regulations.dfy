/** The hours-of-service constants the duty scheduler is built on
    (trips.constants.scheduler_constants), and the three tunable ones
    that are not regulatory values, given as parameters. */
module Regulations {

  /** Rolling-cycle cap: 70 hours in 8 days, 49 CFR 395.3(b)(2). */
  const CycleLimitHours: real := 70.0

  /** Length of one calendar day. */
  const DayHours: real := 24.0

  /** Daily driving cap, 49 CFR 395.3(a)(3). */
  const DailyMaxDriving: real := 11.0

  /** Daily on-duty window, 49 CFR 395.3(a)(2). */
  const DailyMaxOnDuty: real := 14.0

  /** Off-duty rest that closes a day, 49 CFR 395.3(a)(1). */
  const OffDutyHours: real := 10.0

  /** Length of a cycle restart, 49 CFR 395.3(c). */
  const CycleResetHours: real := 34.0

  /** Longest distance driven between two fuel stops. */
  const FuelIntervalMiles: real := 1000.0

  /** AVG_SPEED_MPH, FUEL_STOP_HOURS and PICKUP_DROP_HOURS: fixed in the
      program, positive, and not fixed by any regulation. */
  datatype Params = Params(avgSpeedMph: real, fuelStopHours: real, pickupDropHours: real)
  {
    predicate Valid()
    {
      avgSpeedMph > 0.0 && fuelStopHours > 0.0 && pickupDropHours > 0.0
    }
  }
}
