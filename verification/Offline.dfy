/**
 * An outage under the `capped` policy: the device keeps being used, every sync fails, and once the
 * grace period is over each tick converges on a target that never gives local activity back.
 */
module Offline {
  import opened Basics
  import opened Convergence
  import opened Daemon
  import opened ConvergenceEffect
  import opened HubLedger
  import opened AgentTick
  import opened LockingDevice

  /** One device with its agent. */
  datatype Device = Device(agent: UserState, daemon: DaemonState)

  /** Use for `seconds`, then a tick at `at` whose sync fails. */
  datatype Pulse = Pulse(at: int, seconds: nat, active: bool, loggedIn: bool)

  function OfflineTick(v: Device, day: DayNo, p: Pulse): Device {
    var used := Use(v.daemon, p.seconds, p.active);
    var acted := RunTick(v.agent, See(used, p.loggedIn), day, p.at, Unreachable);
    Device(acted.state, SetTimeLeft(used, acted.op, acted.seconds))
  }

  function Outage(v: Device, day: DayNo, pulses: seq<Pulse>): Device {
    if pulses == [] then v
    else OfflineTick(Outage(v, day, pulses[..|pulses| - 1]), day, pulses[|pulses| - 1])
  }

  /** What the last answer still allows on this device: min(L - G, cap). */
  function Allowance(us: UserState): int {
    Min(us.lastLimit - us.lastGlobal, us.offlineCap)
  }

  /** How far the agent's counter has moved since that answer. */
  function Used(us: UserState): int {
    Max(us.cumLocal - us.cumAtContact, 0)
  }

  /** The time that should be left. */
  function Want(us: UserState): int {
    Allowance(us) - Used(us)
  }

  predicate GraceCovers(us: UserState, at: int) {
    0 <= at - us.lastContact < us.offlineGrace
  }

  /** Contacted earlier this canonical day, in step with its daemon, under `capped`. */
  ghost predicate Ready(v: Device, day: DayNo) {
    && InStep(v.agent, v.daemon) && v.agent.day == Some(day) && v.agent.offlinePolicy == Capped
    && 0 <= v.daemon.limit <= TK_LIMIT_PER_DAY && v.daemon.saveInterval <= REGRESSION_TOLERANCE_S + 1
  }

  /** The last answer is frozen for the length of the outage. */
  predicate SameAnswer(us: UserState, us': UserState) {
    && us'.lastLimit == us.lastLimit && us'.lastGlobal == us.lastGlobal && us'.lastContact == us.lastContact
    && us'.offlinePolicy == us.offlinePolicy && us'.offlineGrace == us.offlineGrace && us'.offlineCap == us.offlineCap
    && us'.cumAtContact == us.cumAtContact
  }

  /** Within the deadband of the target, or exactly on it up to the daemon's +/-86400 bound on the balance. */
  predicate Landed(d: DaemonState, want: int) {
    Abs(d.TimeLeft() - want) <= DEADBAND_S || d.balance == Clamp(d.limit - want)
  }

  ghost predicate PastGrace(us: UserState, pulses: seq<Pulse>) {
    forall p | p in pulses :: !GraceCovers(us, p.at)
  }

  predicate Paced(pulses: seq<Pulse>, interval: int) {
    forall p | p in pulses :: p.seconds <= interval
  }

  // ---------- one tick ----------

  /** A tick credits at most the use it saw, none of it if the device was locked, and forgets nothing. */
  lemma OfflineTickCredits(v: Device, day: DayNo, p: Pulse) returns (burned: nat)
    requires Ready(v, day)
    ensures var v' := OfflineTick(v, day, p);
            && Ready(v', day) && SameAnswer(v.agent, v'.agent)
            && v'.agent.cumLocal == v.agent.cumLocal + burned && burned <= p.seconds
            && (burned > 0 ==> v.daemon.balance < v.daemon.limit)
            && v'.daemon.limit == v.daemon.limit
  {
    var used := Use(v.daemon, p.seconds, p.active);
    UseCreditsAtMost(v.agent, v.daemon, day, p.at, p.seconds, p.active);
    UseKeepsSpentNonNegative(v.agent, v.daemon, p.seconds, p.active);
    MeasureWithinDay(v.agent, See(used, p.loggedIn), day, p.at);
    var m := Measure(v.agent, See(used, p.loggedIn), day, p.at);
    burned := m.burned;
    BufferingKeepsAnswer(m, used, p);
    hide Use, Measure, BufferUnsentSpan;
  }

  lemma BufferingKeepsAnswer(m: Measurement, used: DaemonState, p: Pulse)
    ensures var us := BufferUnsentSpan(m.state, m.span);
            us == m.state.(pending := us.pending)
  {
  }

  lemma CappedTickLands(v: Device, day: DayNo, p: Pulse)
    requires Ready(v, day) && !GraceCovers(v.agent, p.at)
    ensures var us', d' := OfflineTick(v, day, p).agent, OfflineTick(v, day, p).daemon;
            var target := Min(v.agent.lastLimit - v.agent.lastGlobal, v.agent.offlineCap)
                          - Max(us'.cumLocal - v.agent.cumAtContact, 0);
            Landed(d', target) && target == Want(us')
  {
    var used := Use(v.daemon, p.seconds, p.active);
    var sight := See(used, p.loggedIn);
    var burned := OfflineTickCredits(v, day, p);
    var us := BufferUnsentSpan(Measure(v.agent, sight, day, p.at).state, Measure(v.agent, sight, day, p.at).span);
    TimeLeftLandsOnTarget(used, OfflineTarget(us), false);
  }

  /** In grace, or under `open`, the daemon is left alone: only use changes it. */
  lemma NoWriteInGrace(v: Device, day: DayNo, p: Pulse)
    requires v.agent.offlinePolicy == Open || GraceCovers(v.agent, p.at)
    ensures OfflineTick(v, day, p).daemon == Use(v.daemon, p.seconds, p.active)
  {
  }

  /** Under `closed` a past-grace tick leaves no time on the device: within the deadband of its limit. */
  lemma ClosedLeavesNothing(v: Device, day: DayNo, p: Pulse)
    requires v.agent.offlinePolicy == Closed && !GraceCovers(v.agent, p.at)
    requires 0 <= v.daemon.limit <= TK_LIMIT_PER_DAY
    ensures Abs(OfflineTick(v, day, p).daemon.TimeLeft()) <= DEADBAND_S
  {
    var used := Use(v.daemon, p.seconds, p.active);
    TimeLeftLandsOnTarget(used, HubTarget(used.limit, used.limit), false);
  }

  /** Used up the allowance and a deadband more: the tick that notices leaves the device locked. */
  lemma ExhaustedIsLocked(d: DaemonState, us: UserState)
    requires Landed(d, Want(us)) && 0 <= d.limit <= TK_LIMIT_PER_DAY
    requires Used(us) >= Allowance(us) + DEADBAND_S
    ensures d.balance >= d.limit
  {
  }

  // ---------- a whole outage ----------

  lemma {:induction false} OutageKeepsReady(v: Device, day: DayNo, pulses: seq<Pulse>)
    requires Ready(v, day)
    ensures var v' := Outage(v, day, pulses);
            && Ready(v', day) && SameAnswer(v.agent, v'.agent) && v.agent.cumLocal <= v'.agent.cumLocal
            && v'.daemon.limit == v.daemon.limit
  {
    if pulses != [] {
      OutageKeepsReady(v, day, pulses[..|pulses| - 1]);
      hide Ready, OfflineTick;
      var _ := OfflineTickCredits(Outage(v, day, pulses[..|pulses| - 1]), day, pulses[|pulses| - 1]);
    }
  }

  /** Never refunds: the target time left only falls, in grace or past it, and every past-grace tick lands on it. */
  lemma NeverRefundsAndLands(v: Device, day: DayNo, pulses: seq<Pulse>)
    requires Ready(v, day) && pulses != []
    ensures var before, after := Outage(v, day, pulses[..|pulses| - 1]), Outage(v, day, pulses);
            && Want(after.agent) <= Want(before.agent) <= Want(v.agent)
            && (v.agent.cumAtContact <= v.agent.cumLocal ==>
                  Want(v.agent) - Want(after.agent) == after.agent.cumLocal - v.agent.cumLocal)
            && (!GraceCovers(v.agent, pulses[|pulses| - 1].at) ==> Landed(after.daemon, Want(after.agent)))
  {
    var before, p := Outage(v, day, pulses[..|pulses| - 1]), pulses[|pulses| - 1];
    OutageKeepsReady(v, day, pulses[..|pulses| - 1]);
    hide Ready, OfflineTick, Landed;
    var _ := OfflineTickCredits(before, day, p);
    if !GraceCovers(v.agent, p.at) {
      CappedTickLands(before, day, p);
    }
  }

  /** What the bound carries along: once past the allowance by a deadband, the device is locked. */
  ghost predicate CapHolds(v: Device, v': Device, interval: nat, ticked: bool) {
    var bound := Max(Used(v.agent), Allowance(v.agent) + DEADBAND_S - 1);
    && Used(v'.agent) <= (if ticked then bound + interval else Used(v.agent))
    && (ticked && Used(v'.agent) >= Allowance(v.agent) + DEADBAND_S ==>
          v'.daemon.balance >= v'.daemon.limit)
  }

  lemma CapHoldsStep(v: Device, u: Device, u': Device, interval: nat, ticked: bool, burned: nat)
    requires CapHolds(v, u, interval, ticked) && burned <= interval
    requires SameAnswer(v.agent, u.agent) && SameAnswer(u.agent, u'.agent)
    requires u'.agent.cumLocal == u.agent.cumLocal + burned && (burned > 0 ==> u.daemon.balance < u.daemon.limit)
    requires u'.daemon.limit == u.daemon.limit && 0 <= u.daemon.limit <= TK_LIMIT_PER_DAY
    requires Landed(u'.daemon, Want(u'.agent))
    ensures CapHolds(v, u', interval, true)
  {
    if Used(u'.agent) >= Allowance(u'.agent) + DEADBAND_S {
      ExhaustedIsLocked(u'.daemon, u'.agent);
    }
  }

  lemma {:induction false} CapHoldsThroughout(v: Device, day: DayNo, pulses: seq<Pulse>, interval: nat)
    requires Ready(v, day) && PastGrace(v.agent, pulses) && Paced(pulses, interval)
    ensures CapHolds(v, Outage(v, day, pulses), interval, pulses != [])
  {
    if pulses != [] {
      var before, p := pulses[..|pulses| - 1], pulses[|pulses| - 1];
      assert (forall q | q in before :: q in pulses) && p in pulses;
      CapHoldsThroughout(v, day, before, interval);
      OutageKeepsReady(v, day, before);
      var u := Outage(v, day, before);
      hide OfflineTick, CapHolds, Landed, InStep;
      var burned := OfflineTickCredits(u, day, p);
      CappedTickLands(u, day, p);
      CapHoldsStep(v, u, OfflineTick(u, day, p), interval, before != [], burned);
    }
  }

  /** Still caps: whatever happened in grace, the local time credited since contact stays within one
      poll interval of the larger of what grace left and the allowance plus the deadband. */
  lemma OfflineStillCaps(v: Device, day: DayNo, grace: seq<Pulse>, past: seq<Pulse>, interval: nat)
    requires Ready(v, day) && Paced(past, interval) && PastGrace(v.agent, past)
    ensures var atGraceEnd := Outage(v, day, grace);
            Used(Outage(atGraceEnd, day, past).agent)
            < Max(Used(atGraceEnd.agent) + 1, Allowance(v.agent) + DEADBAND_S) + interval
  {
    OutageKeepsReady(v, day, grace);
    var atGraceEnd := Outage(v, day, grace);
    assert PastGrace(atGraceEnd.agent, past);
    CapHoldsThroughout(atGraceEnd, day, past, interval);
  }

  // ---------- from the last answer on ----------

  /** Any answered tick under `capped`, whatever the agent's state before it, leaves the device ready for an outage:
      in step, with nothing credited since contact and min(L - G, cap) allowed. */
  lemma AnsweredTickMakesReady(us: UserState, d: DaemonState, loggedIn: bool, day: DayNo, at: int, r: Response)
      returns (v: Device)
    requires Disciplined(d) && 0 <= d.limit <= TK_LIMIT_PER_DAY && d.saveInterval <= REGRESSION_TOLERANCE_S + 1
    requires r.offlinePolicy == Capped
    ensures var acted := RunTick(us, See(d, loggedIn), day, at, Answered(r));
            v == Device(acted.state, SetTimeLeft(d, acted.op, acted.seconds))
    ensures Ready(v, day) && v.agent.lastContact == at && v.agent.offlineGrace == r.offlineGrace
    ensures v.agent.cumAtContact == v.agent.cumLocal && Allowance(v.agent) == Min(r.limit - r.globalSpent, r.offlineCap)
  {
    var acted := RunTick(us, See(d, loggedIn), day, at, Answered(r));
    v := Device(acted.state, SetTimeLeft(d, acted.op, acted.seconds));
  }

  /** So after a last answer (L, G) at `at`, with any ticks at first and only past-grace ones after them, the local time
      credited since stays within one poll interval of the larger of what grace let through and
      min(L - G, cap) plus the deadband. */
  lemma OutageAfterAnswerIsCapped(us: UserState, d: DaemonState, loggedIn: bool, day: DayNo, at: int, r: Response,
                                  grace: seq<Pulse>, past: seq<Pulse>, interval: nat)
    requires Disciplined(d) && 0 <= d.limit <= TK_LIMIT_PER_DAY && d.saveInterval <= REGRESSION_TOLERANCE_S + 1
    requires r.offlinePolicy == Capped && Paced(past, interval)
    requires forall p | p in past :: !(0 <= p.at - at < r.offlineGrace)
    ensures var acted := RunTick(us, See(d, loggedIn), day, at, Answered(r));
            var atGraceEnd := Outage(Device(acted.state, SetTimeLeft(d, acted.op, acted.seconds)), day, grace);
            var counted := acted.state.cumLocal;
            Outage(atGraceEnd, day, past).agent.cumLocal - counted
            < Max(atGraceEnd.agent.cumLocal - counted + 1, Min(r.limit - r.globalSpent, r.offlineCap) + DEADBAND_S) + interval
  {
    hide RunTick, SetTimeLeft, Ready;
    var v := AnsweredTickMakesReady(us, d, loggedIn, day, at, r);
    OutageKeepsReady(v, day, grace);
    OutageKeepsReady(Outage(v, day, grace), day, past);
    OfflineStillCaps(v, day, grace, past, interval);
  }

  /** For the answered grace period after it nothing is written, whatever ticks came before: the daemon is only used. */
  lemma GraceLeavesTheDaemonAlone(us: UserState, d: DaemonState, loggedIn: bool, day: DayNo, at: int, r: Response,
                                  grace: seq<Pulse>, p: Pulse)
    requires Disciplined(d) && 0 <= d.limit <= TK_LIMIT_PER_DAY && d.saveInterval <= REGRESSION_TOLERANCE_S + 1
    requires r.offlinePolicy == Capped && 0 <= p.at - at < r.offlineGrace
    ensures var acted := RunTick(us, See(d, loggedIn), day, at, Answered(r));
            var v := Outage(Device(acted.state, SetTimeLeft(d, acted.op, acted.seconds)), day, grace);
            OfflineTick(v, day, p).daemon == Use(v.daemon, p.seconds, p.active)
  {
    hide RunTick, SetTimeLeft, Ready, OfflineTick;
    var v := AnsweredTickMakesReady(us, d, loggedIn, day, at, r);
    OutageKeepsReady(v, day, grace);
    NoWriteInGrace(Outage(v, day, grace), day, p);
  }
}
