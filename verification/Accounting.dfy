/**
 * Two-sided accounting: over any interleaving of daemon activity, `+`/`-`/`=` writes,
 * observations and local midnights, the agent's cumulative counter against the
 * seconds the user was really active.
 */
module Accounting {
  import opened Basics
  import opened Convergence
  import opened Daemon

  datatype Event =
    | Pass(seconds: nat, active: bool)
    | Write(op: Op, arg: int)
    | Midnight(newLimit: Option<int>)
    | WeekEnds
    | MonthEnds
    | Look

  /** A daemon and its agent, with the true activity and the number of `=` writes so far. */
  datatype Ledger = Ledger(daemon: DaemonState, agent: CumulativeState, trueActive: int, setWrites: nat)

  function Step(l: Ledger, e: Event): Ledger {
    match e
    case Pass(n, active) =>
      l.(daemon := Tick(l.daemon, n, active), trueActive := if active then l.trueActive + n else l.trueActive)
    case Write(op, arg) =>
      l.(daemon := SetTimeLeft(l.daemon, op, arg), setWrites := if op == Set then l.setWrites + 1 else l.setWrites)
    case Midnight(newLimit) => l.(daemon := RolloverDay(l.daemon, newLimit))
    case WeekEnds => l.(daemon := RolloverWeek(l.daemon))
    case MonthEnds => l.(daemon := RolloverMonth(l.daemon))
    case Look => l.(agent := AdvanceCumulative(l.agent, l.daemon.day.live))
  }

  function Run(l: Ledger, events: seq<Event>): Ledger {
    if events == [] then l else Step(Run(l, events[..|events| - 1]), events[|events| - 1])
  }

  /** A device as first seen: everything it shows as spent is credited at once. */
  function Enrolled(d: DaemonState): Ledger {
    Ledger(d, CumulativeState(d.day.live, d.day.live), d.day.live, 0)
  }

  // ---------- the daemon's flush discipline ----------

  lemma DisciplineKept(l: Ledger, e: Event)
    requires Disciplined(l.daemon)
    ensures Disciplined(Step(l, e).daemon)
    ensures Step(l, e).daemon.saveInterval == l.daemon.saveInterval
    ensures !e.Midnight? ==> Step(l, e).daemon.day.saved >= l.daemon.day.saved
  {
  }

  // ---------- never more than was really used ----------

  /** What the next look could credit is covered by activity not credited yet.
      `rolled`: a local midnight has passed since the last look. */
  predicate Covered(l: Ledger, rolled: bool) {
    var open := l.trueActive - l.agent.cumLocal;
    && Disciplined(l.daemon)
    && 0 <= open && 0 <= l.agent.rawPrev
    && (rolled ==> l.daemon.day.live <= open)
    && (!rolled ==>
          && l.daemon.day.live - l.agent.rawPrev <= open
          && l.agent.rawPrev <= l.daemon.day.saved + MaxUnflushed(l.daemon.saveInterval))
  }

  function Rolled(events: seq<Event>): bool {
    events != [] &&
    var last := events[|events| - 1];
    last.Midnight? || (!last.Look? && Rolled(events[..|events| - 1]))
  }

  lemma {:induction false} RunIsCovered(d: DaemonState, events: seq<Event>)
    requires Disciplined(d) && MaxUnflushed(d.saveInterval) <= REGRESSION_TOLERANCE_S
    ensures Covered(Run(Enrolled(d), events), Rolled(events))
    ensures Run(Enrolled(d), events).daemon.saveInterval == d.saveInterval
  {
    if events != [] {
      var before := events[..|events| - 1];
      RunIsCovered(d, before);
      DisciplineKept(Run(Enrolled(d), before), events[|events| - 1]);
    }
  }

  /** Local midnights included, the counter never exceeds true activity, as long as the daemon
      flushes often enough for a discard to stay within the regression tolerance. */
  lemma NeverOvercounts(d: DaemonState, events: seq<Event>)
    requires Disciplined(d) && d.saveInterval <= REGRESSION_TOLERANCE_S + 1
    ensures Run(Enrolled(d), events).agent.cumLocal <= Run(Enrolled(d), events).trueActive
  {
    RunIsCovered(d, events);
  }

  /** One discard larger than the tolerance, mistaken for a midnight, credits the whole day again. */
  function DoubleCountingRun(saveInterval: nat): seq<Event>
    requires saveInterval > 0
  {
    [Pass(saveInterval, true), Pass(saveInterval - 1, true), Look, Write(Set, 0), Look]
  }

  lemma RunAppend(l: Ledger, events: seq<Event>, e: Event)
    ensures Run(l, events + [e]) == Step(Run(l, events), e)
  {
    assert (events + [e])[..|events|] == events;
  }

  lemma DoubleCountingRunOvercounts(limit: int, saveInterval: nat)
    requires saveInterval > REGRESSION_TOLERANCE_S + 1
    ensures var l := Run(Enrolled(Fresh(limit, saveInterval)), DoubleCountingRun(saveInterval));
            l.agent.cumLocal > l.trueActive
  {
    var l, s := Enrolled(Fresh(limit, saveInterval)), saveInterval;
    var e1, e2, e4 := Pass(s, true), Pass(s - 1, true), Write(Set, 0);
    RunAppend(l, [], e1);
    RunAppend(l, [e1], e2);
    RunAppend(l, [e1, e2], Look);
    RunAppend(l, [e1, e2, Look], e4);
    RunAppend(l, [e1, e2, Look, e4], Look);
    assert [] + [e1] == [e1] && [e1] + [e2] == [e1, e2] && [e1, e2] + [Look] == [e1, e2, Look];
    assert [e1, e2, Look] + [e4] == [e1, e2, Look, e4];
    assert [e1, e2, Look, e4] + [Look] == DoubleCountingRun(s);
  }

  /** The 90s tolerance is exactly what the daemon's flush interval may be, and no less. */
  lemma OvercountFreeIffIntervalWithinTolerance(limit: int, saveInterval: nat)
    ensures (forall events: seq<Event> :: var l := Run(Enrolled(Fresh(limit, saveInterval)), events);
                                          l.agent.cumLocal <= l.trueActive)
            <==> saveInterval <= REGRESSION_TOLERANCE_S + 1
  {
    var d := Fresh(limit, saveInterval);
    if saveInterval <= REGRESSION_TOLERANCE_S + 1 {
      forall events: seq<Event>
        ensures Run(Enrolled(d), events).agent.cumLocal <= Run(Enrolled(d), events).trueActive
      {
        NeverOvercounts(d, events);
      }
    } else {
      DoubleCountingRunOvercounts(limit, saveInterval);
    }
  }

  // ---------- and not much less ----------

  predicate NoMidnight(events: seq<Event>) {
    forall e | e in events :: !e.Midnight?
  }

  /** Activity the counter has lost for good: uncredited and no longer on the daemon's counter. */
  function Lost(l: Ledger): int {
    l.trueActive - l.agent.cumLocal - (l.daemon.day.live - l.agent.rawPrev)
  }

  lemma {:induction false} LossPerSetWrite(d: DaemonState, events: seq<Event>)
    requires Disciplined(d) && d.saveInterval <= REGRESSION_TOLERANCE_S + 1 && NoMidnight(events)
    ensures var l := Run(Enrolled(d), events);
            Lost(l) <= MaxUnflushed(d.saveInterval) * l.setWrites
    ensures !Rolled(events)
  {
    if events != [] {
      var before, e := events[..|events| - 1], events[|events| - 1];
      assert forall x | x in before :: x in events;
      assert e in events;
      LossPerSetWrite(d, before);
      RunIsCovered(d, before);
      var l, k := Run(Enrolled(d), before), MaxUnflushed(d.saveInterval);
      assert k * (l.setWrites + 1) == k * l.setWrites + k;
    }
  }

  /** Right after a look, the counter is short by at most `save_interval - 1` seconds for each `=`
      written, so it is exact in a run without `=`; and it is never ahead. */
  lemma ShortfallBoundedBySetWrites(d: DaemonState, events: seq<Event>)
    requires Disciplined(d) && d.saveInterval <= REGRESSION_TOLERANCE_S + 1 && NoMidnight(events)
    ensures var l := Run(Enrolled(d), events + [Look]);
            && 0 <= l.trueActive - l.agent.cumLocal <= MaxUnflushed(d.saveInterval) * l.setWrites
            && (l.setWrites == 0 ==> l.agent.cumLocal == l.trueActive)
  {
    assert NoMidnight(events + [Look]);
    LossPerSetWrite(d, events + [Look]);
    RunIsCovered(d, events + [Look]);
    RunAppend(Enrolled(d), events, Look);
    var l := Run(Enrolled(d), events + [Look]);
    assert MaxUnflushed(d.saveInterval) * 0 == 0;
  }

  // ---------- across local midnights ----------

  /** What event `e` makes impossible to credit, in seconds. An '=' discards what was not flushed. A midnight wipes what
      the next look would have credited: everything since the last look, or the whole day if that day was never looked
      at. The first look after a midnight takes the new day's counter for a continuation of the old one, unless it is
      more than 90 below it. Any other look below the last one gives the difference back. */
  function LostAt(l: Ledger, rolled: bool, e: Event): int {
    match e
    case Write(op, _) => if op == Set then l.daemon.day.live - l.daemon.day.saved else 0
    case Midnight(_) => if rolled then l.daemon.day.live else l.daemon.day.live - l.agent.rawPrev
    case Look =>
      if rolled then if l.agent.rawPrev - l.daemon.day.live > 90 then 0 else Min(l.agent.rawPrev, l.daemon.day.live)
      else Min(l.daemon.day.live - l.agent.rawPrev, 0)
    case _ => 0
  }

  function TotalLost(d: DaemonState, events: seq<Event>): int {
    if events == [] then 0
    else
      var before := events[..|events| - 1];
      TotalLost(d, before) + LostAt(Run(Enrolled(d), before), Rolled(before), events[|events| - 1])
  }

  /** True activity the counter has not credited and the next look will not. */
  function Missing(l: Ledger, rolled: bool): int {
    l.trueActive - l.agent.cumLocal - if rolled then l.daemon.day.live else l.daemon.day.live - l.agent.rawPrev
  }

  lemma StepLosesExactly(l: Ledger, rolled: bool, e: Event)
    requires Covered(l, rolled) && MaxUnflushed(l.daemon.saveInterval) <= 90
    ensures Missing(Step(l, e), e.Midnight? || (!e.Look? && rolled)) == Missing(l, rolled) + LostAt(l, rolled, e)
  {
  }

  lemma {:induction false} MissingIsTotalLost(d: DaemonState, events: seq<Event>)
    requires Disciplined(d) && d.saveInterval <= REGRESSION_TOLERANCE_S + 1
    ensures Missing(Run(Enrolled(d), events), Rolled(events)) == TotalLost(d, events)
  {
    if events != [] {
      var before := events[..|events| - 1];
      MissingIsTotalLost(d, before);
      RunIsCovered(d, before);
      StepLosesExactly(Run(Enrolled(d), before), Rolled(before), events[|events| - 1]);
    }
  }

  /** The exact shortfall, over every run: right after a look, true activity minus the counter is what its '=' writes
      discarded, plus what its midnights wiped and masked, minus what lower looks gave back. */
  lemma ShortfallIsExactlyWhatWasLost(d: DaemonState, events: seq<Event>)
    requires Disciplined(d) && d.saveInterval <= REGRESSION_TOLERANCE_S + 1
    ensures var l := Run(Enrolled(d), events + [Look]);
            l.trueActive - l.agent.cumLocal == TotalLost(d, events + [Look])
  {
    MissingIsTotalLost(d, events + [Look]);
    RunAppend(Enrolled(d), events, Look);
  }

  /** What midnights alone cost a run: at each one, and at the first look after it. */
  function MidnightCost(d: DaemonState, events: seq<Event>): int {
    if events == [] then 0
    else
      var before, e := events[..|events| - 1], events[|events| - 1];
      MidnightCost(d, before) +
      if e.Midnight? || (e.Look? && Rolled(before)) then LostAt(Run(Enrolled(d), before), Rolled(before), e) else 0
  }

  lemma {:induction false} LostByWritesAndMidnights(d: DaemonState, events: seq<Event>)
    requires Disciplined(d) && d.saveInterval <= REGRESSION_TOLERANCE_S + 1
    ensures TotalLost(d, events) <=
            MaxUnflushed(d.saveInterval) * Run(Enrolled(d), events).setWrites + MidnightCost(d, events)
  {
    if events != [] {
      var before, e := events[..|events| - 1], events[|events| - 1];
      LostByWritesAndMidnights(d, before);
      RunIsCovered(d, before);
      var l, k := Run(Enrolled(d), before), MaxUnflushed(d.saveInterval);
      assert k * (l.setWrites + 1) == k * l.setWrites + k;
    }
  }

  /** So over every run, midnights included, the counter is short by at most `save_interval - 1` seconds for each '='
      plus what its midnights cost. */
  lemma ShortfallAcrossMidnights(d: DaemonState, events: seq<Event>)
    requires Disciplined(d) && d.saveInterval <= REGRESSION_TOLERANCE_S + 1
    ensures var l := Run(Enrolled(d), events + [Look]);
            0 <= l.trueActive - l.agent.cumLocal <=
            MaxUnflushed(d.saveInterval) * l.setWrites + MidnightCost(d, events + [Look])
  {
    ShortfallIsExactlyWhatWasLost(d, events);
    LostByWritesAndMidnights(d, events + [Look]);
    NeverOvercounts(d, events + [Look]);
  }

  /** One midnight, then `n` seconds of use, then a look: exactly those seconds are credited, if and only if the old
      reading is more than 90 above the new one, or there was no old reading, or no use. */
  lemma MidnightCreditsTheNewDayIff(l: Ledger, newLimit: Option<int>, n: nat)
    requires 0 <= l.agent.rawPrev
    ensures var r := Run(l, [Midnight(newLimit), Pass(n, true), Look]);
            r.agent.cumLocal - l.agent.cumLocal == n <==> l.agent.rawPrev - n > 90 || l.agent.rawPrev == 0 || n == 0
  {
    RunAppend(l, [], Midnight(newLimit));
    RunAppend(l, [Midnight(newLimit)], Pass(n, true));
    RunAppend(l, [Midnight(newLimit), Pass(n, true)], Look);
    assert [] + [Midnight(newLimit)] == [Midnight(newLimit)];
    assert [Midnight(newLimit)] + [Pass(n, true)] == [Midnight(newLimit), Pass(n, true)];
    assert [Midnight(newLimit), Pass(n, true)] + [Look] == [Midnight(newLimit), Pass(n, true), Look];
  }
}
