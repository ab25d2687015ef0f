/**
 * One pass of the agent's tick for a managed user: measure, report, then act on
 * the hub's answer, on its silence, or on its refusal.
 */
module AgentTick {
  import opened Basics
  import opened Convergence
  import opened Daemon
  import opened IntervalUnion
  import opened HubLedger

  const MAX_PENDING_SPANS := 200
  const MAX_POLL_MS := 90000

  datatype OfflinePolicy = Open | Capped | Closed

  datatype Enforcement = NeverSet | Enforcing | Observing | Revoked

  /** The per-user part of state.json this model needs. `day` is the source's "" when None,
      and `lastTick` is its 0.0 when 0. */
  datatype UserState = UserState(
    day: Option<DayNo>,
    cumLocal: int,
    rawPrev: int,
    appliedOffset: int,
    lastEnforcement: Enforcement,
    lastLimit: int,
    lastGlobal: int,
    lastContact: int,
    offlinePolicy: OfflinePolicy,
    offlineGrace: int,
    offlineCap: int,
    cumAtContact: int,
    lastTick: int,
    pending: seq<Span>
  )

  function NewUser(): UserState {
    UserState(None, 0, 0, 0, NeverSet, 0, 0, 0, Capped, 900, 1800, 0, 0, [])
  }

  /** What `get_user_observation` returns. */
  datatype Sight = Sight(balance: int, spentDay: int, limitToday: int, loggedIn: bool) {
    function Obs(): Observation {
      Observation(balance, spentDay, limitToday)
    }
  }

  function See(d: DaemonState, loggedIn: bool): Sight {
    Sight(d.balance, d.day.live, d.limit, loggedIn)
  }

  // ---------- measuring ----------

  /** The state after the cumulative update, what this tick burned, and the span it emits. */
  datatype Measurement = Measurement(state: UserState, burned: int, span: Option<Span>, forceAbsolute: bool)

  function Measure(us: UserState, sight: Sight, today: DayNo, now: int): Measurement {
    var first := us.day == None;
    var rolled := us.day != None && us.day != Some(today);
    var cum :=
      if first then CumulativeState(sight.spentDay, sight.spentDay)
      else if rolled then ResetForNewCanonicalDay(sight.spentDay)
      else AdvanceCumulative(CumulativeState(us.cumLocal, us.rawPrev), sight.spentDay);
    var before := if first || rolled then 0 else us.cumLocal;
    var burned := Max(cum.cumLocal - before, 0);
    var start := if us.lastTick != 0 then Max(now - burned, us.lastTick) else now - burned;
    var span := if sight.loggedIn && burned > 0 then Some(Span(start, now)) else None;
    Measurement(us.(day := Some(today), cumLocal := cum.cumLocal, rawPrev := cum.rawPrev), burned, span, first || rolled)
  }

  /** Buffered spans go out first, oldest first, then this tick's. */
  function SpansToSend(m: Measurement): seq<Span> {
    m.state.pending + if m.span.Some? then [m.span.value] else []
  }

  // ---------- the hub's answer ----------

  datatype Response = Response(limit: int, globalSpent: int, observe: bool, offlinePolicy: OfflinePolicy,
                               offlineGrace: int, offlineCap: int, nextPollMs: int)

  datatype Outcome = Answered(response: Response) | Unreachable | DeviceRevoked

  /** The new state and the one daemon write, if any, that goes with it. */
  datatype Acted = Acted(state: UserState, op: Op, seconds: int)

  function ApplyConvergence(us: UserState, sight: Sight, target: HubTarget, forceAbsolute: bool, dryRun: bool): Acted {
    var p := MakePlan(sight.Obs(), target, forceAbsolute);
    if dryRun then Acted(us, Noop, 0)
    else Acted(us.(appliedOffset := p.newAppliedOffset), p.op, p.seconds)
  }

  function NoteAnswer(us: UserState, span: Option<Span>, r: Response, now: int): UserState {
    UserState(us.day, us.cumLocal, us.rawPrev, us.appliedOffset, if r.observe then Observing else Enforcing,
              r.limit, r.globalSpent, now, r.offlinePolicy, r.offlineGrace, r.offlineCap, us.cumLocal,
              if span.Some? then now else us.lastTick, [])
  }

  function ApplyAnswer(m: Measurement, sight: Sight, r: Response, now: int): Acted {
    ApplyConvergence(NoteAnswer(m.state, m.span, r, now), sight, HubTarget(r.limit, r.globalSpent),
                     m.forceAbsolute, r.observe)
  }

  // ---------- the hub's silence ----------

  function BufferUnsentSpan(us: UserState, span: Option<Span>): UserState {
    if span.None? then us
    else
      var longer := us.pending + [span.value];
      us.(pending := if |longer| > MAX_PENDING_SPANS then longer[|longer| - MAX_PENDING_SPANS..] else longer)
  }

  predicate InGrace(us: UserState, now: int) {
    0 <= now - us.lastContact < us.offlineGrace
  }

  /** Local activity credited since the last answer. */
  function LocalSinceContact(us: UserState): int {
    Max(us.cumLocal - us.cumAtContact, 0)
  }

  function OfflineTarget(us: UserState): HubTarget {
    HubTarget(Min(us.lastLimit, us.lastGlobal + us.offlineCap), us.lastGlobal + LocalSinceContact(us))
  }

  function ApplyOfflinePolicy(us: UserState, sight: Sight, now: int): Acted {
    if us.offlinePolicy == Open || InGrace(us, now) then Acted(us, Noop, 0)
    else if us.offlinePolicy == Capped then ApplyConvergence(us, sight, OfflineTarget(us), false, false)
    else ApplyConvergence(us, sight, HubTarget(sight.limitToday, sight.limitToday), false, false)
  }

  // ---------- the whole tick ----------

  function Finish(m: Measurement, sight: Sight, outcome: Outcome, now: int): Acted {
    match outcome
    case Answered(r) => ApplyAnswer(m, sight, r, now)
    case Unreachable => ApplyOfflinePolicy(BufferUnsentSpan(m.state, m.span), sight, now)
    case DeviceRevoked => Acted(BufferUnsentSpan(m.state, m.span).(lastEnforcement := Revoked), Noop, 0)
  }

  function RunTick(us: UserState, sight: Sight, today: DayNo, now: int, outcome: Outcome): Acted {
    Finish(Measure(us, sight, today, now), sight, outcome, now)
  }

  function NextPoll(previousPollMs: int, outcome: Outcome): int {
    Min(if outcome.Answered? then outcome.response.nextPollMs else Min(previousPollMs * 2, MAX_POLL_MS), MAX_POLL_MS)
  }

  /** `UserState` as the record the tick updates in place. */
  class ManagedUser {
    var day: Option<DayNo>
    var cumLocal: int
    var rawPrev: int
    var appliedOffset: int
    var lastEnforcement: Enforcement
    var lastLimit: int
    var lastGlobal: int
    var lastContact: int
    var offlinePolicy: OfflinePolicy
    var offlineGrace: int
    var offlineCap: int
    var cumAtContact: int
    var lastTick: int
    var pending: seq<Span>

    ghost function State(): UserState
      reads this
    {
      UserState(day, cumLocal, rawPrev, appliedOffset, lastEnforcement, lastLimit, lastGlobal, lastContact,
                offlinePolicy, offlineGrace, offlineCap, cumAtContact, lastTick, pending)
    }

    constructor ()
      ensures State() == NewUser()
    {
      day, cumLocal, rawPrev, appliedOffset, lastEnforcement := None, 0, 0, 0, NeverSet;
      lastLimit, lastGlobal, lastContact := 0, 0, 0;
      offlinePolicy, offlineGrace, offlineCap := Capped, 900, 1800;
      cumAtContact, lastTick, pending := 0, 0, [];
    }

    method TakeMeasurement(sight: Sight, today: DayNo, now: int)
      returns (burned: int, span: Option<Span>, forceAbsolute: bool)
      modifies this
      ensures Measurement(State(), burned, span, forceAbsolute) == Measure(old(State()), sight, today, now)
    {
      forceAbsolute := false;
      var cumLocalBefore := cumLocal;
      var cumState: CumulativeState;
      if day == None {
        cumState := CumulativeState(sight.spentDay, sight.spentDay);
        day := Some(today);
        forceAbsolute := true;
        cumLocalBefore := 0;
      } else if day != Some(today) {
        cumState := ResetForNewCanonicalDay(sight.spentDay);
        day := Some(today);
        forceAbsolute := true;
        cumLocalBefore := 0;
      } else {
        cumState := AdvanceCumulative(CumulativeState(cumLocal, rawPrev), sight.spentDay);
      }
      cumLocal, rawPrev := cumState.cumLocal, cumState.rawPrev;
      burned := Max(cumLocal - cumLocalBefore, 0);
      span := None;
      if sight.loggedIn && burned > 0 {
        var start := now - burned;
        if lastTick != 0 {
          start := Max(start, lastTick);
        }
        span := Some(Span(start, now));
      }
    }

    method BufferSpan(span: Option<Span>)
      modifies this`pending
      ensures State() == BufferUnsentSpan(old(State()), span)
    {
      if span.None? {
        return;
      }
      pending := pending + [span.value];
      if |pending| > MAX_PENDING_SPANS {
        pending := pending[|pending| - MAX_PENDING_SPANS..];
      }
    }

    method Converge(daemon: FakeTimekprDaemon, sight: Sight, target: HubTarget, forceAbsolute: bool, dryRun: bool)
      modifies this`appliedOffset, daemon
      ensures var acted := ApplyConvergence(old(State()), sight, target, forceAbsolute, dryRun);
              State() == acted.state && daemon.State() == SetTimeLeft(old(daemon.State()), acted.op, acted.seconds)
    {
      var result := MakePlan(sight.Obs(), target, forceAbsolute);
      if result.op != Noop && !dryRun {
        daemon.WriteTimeLeft(result.op, result.seconds);
      }
      if !dryRun {
        appliedOffset := result.newAppliedOffset;
      }
    }

    method EnforceOffline(daemon: FakeTimekprDaemon, sight: Sight, now: int)
      modifies this`appliedOffset, daemon
      ensures var acted := ApplyOfflinePolicy(old(State()), sight, now);
              State() == acted.state && daemon.State() == SetTimeLeft(old(daemon.State()), acted.op, acted.seconds)
    {
      var secondsSinceContact := now - lastContact;
      var inGrace := 0 <= secondsSinceContact < offlineGrace;
      if offlinePolicy == Open || inGrace {
        return;
      }
      var localSinceContact := Max(cumLocal - cumAtContact, 0);
      var estimatedGlobalSpent := lastGlobal + localSinceContact;
      if offlinePolicy == Capped {
        var cappedLimit := Min(lastLimit, lastGlobal + offlineCap);
        Converge(daemon, sight, HubTarget(cappedLimit, estimatedGlobalSpent), false, false);
      } else {
        Converge(daemon, sight, HubTarget(sight.limitToday, sight.limitToday), false, false);
      }
    }

    /** The success branch's bookkeeping: note the answer, drop the buffer, remember where the span ended. */
    method TakeNote(r: Response, span: Option<Span>, now: int)
      modifies this
      ensures State() == NoteAnswer(old(State()), span, r, now)
    {
      lastLimit, lastGlobal, lastContact, cumAtContact := r.limit, r.globalSpent, now, cumLocal;
      offlinePolicy, offlineGrace, offlineCap := r.offlinePolicy, r.offlineGrace, r.offlineCap;
      pending, lastTick := [], if span.Some? then now else lastTick;
      lastEnforcement := if r.observe then Observing else Enforcing;
    }

    /** `run_tick` for one managed user. `answer` is what `hub.sync` returned or raised;
        `sent` is the counter and the spans that were put into the request. */
    method Tick(daemon: FakeTimekprDaemon, loggedIn: bool, today: DayNo, now: int, answer: Outcome, previousPollMs: int)
      returns (sentSpent: int, sentSpans: seq<Span>, nextPollMs: int)
      modifies this, daemon
      ensures var sight := See(old(daemon.State()), loggedIn);
              var m := Measure(old(State()), sight, today, now);
              var acted := RunTick(old(State()), sight, today, now, answer);
              && State() == acted.state
              && daemon.State() == SetTimeLeft(old(daemon.State()), acted.op, acted.seconds)
              && sentSpent == m.state.cumLocal && sentSpans == SpansToSend(m)
      ensures nextPollMs == NextPoll(previousPollMs, answer) && nextPollMs <= MAX_POLL_MS
    {
      var sight := Sight(daemon.balance, daemon.spentDay, daemon.limitToday, loggedIn);
      var burned, span, forceAbsolute := TakeMeasurement(sight, today, now);
      sentSpent := cumLocal;
      sentSpans := pending + if span.Some? then [span.value] else [];
      nextPollMs := previousPollMs;
      match answer {
        case Answered(r) =>
          nextPollMs := r.nextPollMs;
          TakeNote(r, span, now);
          Converge(daemon, sight, HubTarget(r.limit, r.globalSpent), forceAbsolute, r.observe);
        case DeviceRevoked =>
          BufferSpan(span);
          lastEnforcement := Revoked;
          nextPollMs := Min(nextPollMs * 2, MAX_POLL_MS);
        case Unreachable =>
          BufferSpan(span);
          EnforceOffline(daemon, sight, now);
          nextPollMs := Min(nextPollMs * 2, MAX_POLL_MS);
      }
      nextPollMs := Min(nextPollMs, MAX_POLL_MS);
    }
  }

  // ---------- facts about measuring ----------

  /** Within one canonical day the counter only grows, by exactly what the tick burned, and an
      emitted span ends now, starts no earlier than the last acknowledged one ended, and is never
      longer than the seconds burned. */
  lemma MeasureWithinDay(us: UserState, sight: Sight, today: DayNo, now: int)
    requires 0 <= sight.spentDay
    requires us.day == Some(today) || (us.day == None && us.cumLocal == 0)
    ensures var m := Measure(us, sight, today, now);
            && m.state.cumLocal == us.cumLocal + m.burned && 0 <= m.burned
            && m.state == us.(day := Some(today), cumLocal := m.state.cumLocal, rawPrev := sight.spentDay)
            && (m.span.Some? ==>
                  && m.span.value.end == now
                  && m.span.value.end - m.span.value.start <= m.burned
                  && (us.lastTick != 0 ==> us.lastTick <= m.span.value.start))
  {
  }

  /** A first tick, or the first one of a new canonical day, is answered with an absolute write, and the counter
      restarts: at everything the device shows on the first tick ever, at zero on a new day. */
  lemma NewDayIsSetAbsolutely(us: UserState, d: DaemonState, loggedIn: bool, today: DayNo, now: int, r: Response)
    requires us.day != Some(today) && !r.observe
    ensures var acted := RunTick(us, See(d, loggedIn), today, now, Answered(r));
            var d' := SetTimeLeft(d, acted.op, acted.seconds);
            && acted.op == Set && d'.balance == Clamp(d.limit - (r.limit - r.globalSpent))
            && acted.state.day == Some(today)
            && acted.state.cumLocal == (if us.day == None then d.day.live else 0)
            && acted.state.rawPrev == d.day.live
  {
  }

  /** An answer that is enforced leaves the agent remembering B - s as the device now stands, if the bound allows it. */
  lemma EnforcedOffsetIsRemembered(us: UserState, d: DaemonState, loggedIn: bool, today: DayNo, now: int, r: Response)
    requires !r.observe && -86400 <= r.globalSpent + d.limit - r.limit <= 86400
    ensures var acted := RunTick(us, See(d, loggedIn), today, now, Answered(r));
            acted.state.appliedOffset == SetTimeLeft(d, acted.op, acted.seconds).balance - d.day.live
  {
  }

  /** In observe mode, and on a revoked device, the tick counts and reports but leaves the daemon and the remembered
      offset alone; a revoked device also keeps its buffer. */
  lemma NoWriteWithoutEnforcement(us: UserState, sight: Sight, today: DayNo, now: int, outcome: Outcome)
    requires outcome.DeviceRevoked? || (outcome.Answered? && outcome.response.observe)
    ensures var m, acted := Measure(us, sight, today, now), RunTick(us, sight, today, now, outcome);
            && acted.op == Noop && acted.state.appliedOffset == us.appliedOffset
            && acted.state.cumLocal == m.state.cumLocal
            && (outcome.Answered? ==> acted.state.pending == [] && acted.state.lastContact == now)
            && (outcome.DeviceRevoked? ==> acted.state.lastContact == us.lastContact)
            && (outcome.DeviceRevoked? && |us.pending| < MAX_PENDING_SPANS ==> acted.state.pending == SpansToSend(m))
  {
  }

  /** On the same day a span is emitted exactly when the user is logged in and the counter has grown, and it reaches
      back by that growth, or to the last acknowledged end if that is later. */
  lemma SpanIsEmitted(us: UserState, sight: Sight, today: DayNo, now: int)
    requires us.day == Some(today)
    ensures var m := Measure(us, sight, today, now);
            var grown := m.state.cumLocal - us.cumLocal;
            && (m.span.Some? <==> sight.loggedIn && grown > 0)
            && (m.span.Some? && (us.lastTick == 0 || us.lastTick <= now - grown) ==> m.span.value == Span(now - grown, now))
            && (m.span.Some? && us.lastTick != 0 && us.lastTick > now - grown ==> m.span.value == Span(us.lastTick, now))
  {
  }

  /** A logged-in user whose spent time has risen since the last look, with the last acknowledged span ended before
      that use began: the request carries the buffer and a span exactly as long as the use. */
  lemma UseIsReported(us: UserState, sight: Sight, today: DayNo, now: int)
    requires us.day == Some(today) && sight.loggedIn && sight.spentDay > us.rawPrev
    requires us.lastTick == 0 || us.lastTick <= now - (sight.spentDay - us.rawPrev)
    ensures var m := Measure(us, sight, today, now);
            && SpansToSend(m) == us.pending + [Span(now - (sight.spentDay - us.rawPrev), now)]
            && m.state.cumLocal - us.cumLocal == sight.spentDay - us.rawPrev
  {
  }

  /** Only an answer moves the acknowledged end, and only to the end of the span it acknowledged. */
  lemma AcknowledgedEndIsRemembered(us: UserState, sight: Sight, today: DayNo, now: int, outcome: Outcome)
    ensures var m, us' := Measure(us, sight, today, now), RunTick(us, sight, today, now, outcome).state;
            us'.lastTick == if outcome.Answered? && m.span.Some? then m.span.value.end else us.lastTick
  {
  }

  // ---------- the poll interval ----------

  function TwoTo(k: nat): nat {
    if k == 0 then 1 else 2 * TwoTo(k - 1)
  }

  /** The interval after a run of ticks. */
  function PollAfter(poll: int, outcomes: seq<Outcome>): int {
    if outcomes == [] then poll else NextPoll(PollAfter(poll, outcomes[..|outcomes| - 1]), outcomes[|outcomes| - 1])
  }

  /** Unanswered ticks, whatever their reason, double the interval each time up to 90 seconds. */
  lemma {:induction false} BackoffDoublesUpToTheCap(poll: int, outcomes: seq<Outcome>)
    requires 0 <= poll <= 90000 && forall o | o in outcomes :: !o.Answered?
    ensures PollAfter(poll, outcomes) == Min(poll * TwoTo(|outcomes|), 90000)
  {
    if outcomes != [] {
      var before := outcomes[..|outcomes| - 1];
      assert (forall o | o in before :: o in outcomes) && outcomes[|outcomes| - 1] in outcomes;
      BackoffDoublesUpToTheCap(poll, before);
      assert poll * TwoTo(|outcomes|) == 2 * (poll * TwoTo(|before|));
    }
  }

  /** An answer ends the back-off: the hub's own interval counts again, up to the cap. */
  lemma AnswerSetsThePoll(poll: int, r: Response)
    ensures NextPoll(poll, Answered(r)) == Min(r.nextPollMs, 90000)
  {
  }
}
