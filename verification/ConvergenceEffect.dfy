/** What one convergence step does to the daemon, and why doing it again changes nothing. */
module ConvergenceEffect {
  import opened Basics
  import opened Convergence
  import opened Daemon

  /** Observe, plan, write: `_apply_convergence` on a live device. */
  function Converge(d: DaemonState, target: HubTarget, forceAbsolute: bool): DaemonState {
    var p := MakePlan(d.Observe(), target, forceAbsolute);
    SetTimeLeft(d, p.op, p.seconds)
  }

  /** After a write, time left is exactly L_eff - G, unless the daemon's own +/-86400 bound on the
      balance forbids it; after NOOP it is within the deadband. The device's limit never matters. */
  lemma TimeLeftLandsOnTarget(d: DaemonState, target: HubTarget, forceAbsolute: bool)
    ensures var p, d' := MakePlan(d.Observe(), target, forceAbsolute), Converge(d, target, forceAbsolute);
            var want := target.limitToday - target.globalSpent;
            && d'.limit == d.limit
            && (p.op == Noop ==> d' == d && Abs(d'.TimeLeft() - want) <= DEADBAND_S)
            && (p.op != Noop ==> d'.TimeLeft() == d.limit - Clamp(d.limit - want))
            && (p.op != Noop ==>
                  (d'.TimeLeft() == want <==> -TK_LIMIT_PER_DAY <= d.limit - want <= TK_LIMIT_PER_DAY))
  {
  }

  /** Which operation is planned, by the distance from the target balance G + (L_dev - L_eff): an absolute write only
      when forced, on an expired device, or for more than 300 seconds; nothing within 5; else the relative write that
      moves the balance onto the target. */
  lemma PlanByDistance(observed: Observation, target: HubTarget, forceAbsolute: bool)
    ensures var p := MakePlan(observed, target, forceAbsolute);
            var distance := target.globalSpent + (observed.limitToday - target.limitToday) - observed.balance;
            && (p.op == Set <==> forceAbsolute || observed.balance > observed.limitToday || distance > 300 || distance < -300)
            && (p.op == Noop <==> p.op != Set && -5 <= distance <= 5)
            && (p.op == Subtract <==> p.op != Set && distance > 5) && (p.op == Subtract ==> p.seconds == distance)
            && (p.op == Add <==> p.op != Set && distance < -5) && (p.op == Add ==> p.seconds == -distance)
  {
  }

  /** A relative write is only planned where the daemon's `min(balance, limit)` leaves the balance alone,
      so it moves the balance by exactly the planned seconds and keeps the spent-day counter. */
  lemma RelativeWriteIsNeverClipped(d: DaemonState, target: HubTarget, forceAbsolute: bool)
    ensures var p := MakePlan(d.Observe(), target, forceAbsolute);
            p.op == Subtract || p.op == Add ==>
              && Min(d.balance, d.limit) == d.balance
              && p.seconds > DEADBAND_S
              && p.seconds <= HARD_RESET_THRESHOLD_S
              && SetTimeLeft(d, p.op, p.seconds).day.live == d.day.live
              && SetTimeLeft(d, p.op, p.seconds).balance ==
                 Clamp(if p.op == Subtract then d.balance + p.seconds else d.balance - p.seconds)
  {
  }

  /** The remembered offset is B - s as the write left it on the device, `s` being the spent seconds the agent saw,
      exactly when nothing was written or the daemon's bound leaves the target balance alone. */
  lemma RememberedOffsetIsWhatWasApplied(d: DaemonState, target: HubTarget, forceAbsolute: bool)
    ensures var p, d' := MakePlan(d.Observe(), target, forceAbsolute), Converge(d, target, forceAbsolute);
            p.newAppliedOffset == d'.balance - d.day.live <==>
            p.op == Noop ||
            -TK_LIMIT_PER_DAY <= d.limit - (target.limitToday - target.globalSpent) <= TK_LIMIT_PER_DAY
  {
  }

  /** Repeating the step with nothing changed leaves the daemon exactly as it is, balance bound included:
      the second observation may still plan a write, but that write is the identity. */
  lemma ConvergeIsAFixpoint(d: DaemonState, target: HubTarget, forceAbsolute: bool)
    ensures var d' := Converge(d, target, forceAbsolute);
            && Converge(d', target, false) == d'
            && (forceAbsolute ==> Converge(d', target, true) == d')
  {
  }

  /** What the daemon makes of the three operations on an expired device: a relative write starts from the limit, not
      from the balance beyond it, and keeps the spent seconds; an absolute one forgets what was not flushed. */
  lemma WritesOnExpiredDevice(d: DaemonState, seconds: int)
    requires 0 <= seconds && d.balance > d.limit && 0 <= d.limit && d.limit + seconds <= 86400
    ensures SetTimeLeft(d, Subtract, seconds).TimeLeft() == -seconds
    ensures SetTimeLeft(d, Add, seconds).TimeLeft() == seconds
    ensures SetTimeLeft(d, Set, seconds).TimeLeft() == seconds
    ensures SetTimeLeft(d, Subtract, seconds).day == SetTimeLeft(d, Add, seconds).day == Counter(d.day.live, d.day.live)
    ensures SetTimeLeft(d, Set, seconds).day == Counter(d.day.saved, d.day.saved)
  {
  }
}
