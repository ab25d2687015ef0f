/** A device that locks at its own limit, and the agent that reads it. */
module LockingDevice {
  import opened Basics
  import opened Convergence
  import opened Daemon
  import opened HubLedger
  import opened AgentTick

  /** A device at its limit is locked: no activity is accounted. */
  function Use(d: DaemonState, seconds: nat, active: bool): DaemonState {
    Tick(d, seconds, active && d.balance < d.limit)
  }

  /** The agent has seen at least what the daemon still shows, and lost at most one flush interval. */
  predicate InStep(us: UserState, d: DaemonState) {
    && Disciplined(d)
    && d.day.live <= us.rawPrev <= d.day.saved + MaxUnflushed(d.saveInterval)
    && (us.day == None ==> us.cumLocal == 0 && us.rawPrev == 0)
  }

  /** Using the device for `seconds` lets the agent credit at most that, and nothing if it was not used. */
  lemma UseCreditsAtMost(us: UserState, d: DaemonState, day: DayNo, at: int, seconds: nat, active: bool)
    requires InStep(us, d) && d.saveInterval <= REGRESSION_TOLERANCE_S + 1
    requires us.day == None || us.day == Some(day)
    ensures var d' := Use(d, seconds, active);
            var m := Measure(us, See(d', true), day, at);
            && 0 <= d'.day.live && Disciplined(d') && d'.limit == d.limit && d'.saveInterval == d.saveInterval
            && m.burned <= seconds
            && (m.burned > 0 ==> d.balance < d.limit)
            && m.state.rawPrev == d'.day.live
  {
  }

  lemma UseKeepsSpentNonNegative(us: UserState, d: DaemonState, seconds: nat, active: bool)
    requires InStep(us, d)
    ensures 0 <= Use(d, seconds, active).day.live
  {
  }
}
