/**
 * When nothing is lost on the way: runs in which a logged-in user's device syncs often enough that each tick's use
 * fits behind the last acknowledged span. Then the hub has every second the counters charge for.
 */
module PromptRuns {
  import opened Basics
  import opened IntervalUnion
  import opened Sums
  import opened HubLedger
  import opened AgentTick
  import opened Protocol
  import opened SpendQueries

  /** Delivered, logged in, and the counter grows by no more than the time since the last acknowledged span. */
  ghost predicate PromptStep(cfg: Setting, s: System, e: Event)
    requires 0 <= e.device < |s.nodes|
  {
    var us, us' := s.nodes[e.device].agent, Step(cfg, s, e).nodes[e.device].agent;
    && e.link == Delivered && e.sight.loggedIn && 0 < e.at
    && (us.lastTick != 0 ==> us'.cumLocal - us.cumLocal <= e.at - us.lastTick)
  }

  ghost predicate Prompt(cfg: Setting, n: nat, events: seq<Event>)
    requires forall e | e in events :: WellFormed(n, e)
  {
    events != [] ==>
      assert (forall e | e in events[..|events| - 1] :: e in events) && WellFormed(n, events[|events| - 1]);
      && Prompt(cfg, n, events[..|events| - 1])
      && PromptStep(cfg, Run(cfg, n, events[..|events| - 1]), events[|events| - 1])
  }

  ghost predicate AgentClear(cfg: Setting, us: UserState) {
    && us.pending == [] && 0 <= us.lastTick
    && (us.day == Some(cfg.day) || (us.day == None && us.cumLocal == 0)) && 0 <= us.cumLocal
  }

  /** As many distinct seconds as the counter charges, all of them before the last acknowledged end. */
  ghost predicate SecondsComplete(cfg: Setting, t: Tables, us: UserState, i: int) {
    && |SecondsOf(cfg, t, i)| == us.cumLocal
    && (forall x | x in SecondsOf(cfg, t, i) :: x < us.lastTick)
    && (forall k | k in t.spans && k.device == i :: us.lastTick != 0 && k.windowEnd <= us.lastTick)
  }

  ghost predicate CounterCurrent(cfg: Setting, t: Tables, us: UserState, i: int) {
    && (CounterOf(cfg, i) in t.counters <==> us.day.Some?)
    && (us.day.Some? ==> t.counters[CounterOf(cfg, i)] == us.cumLocal)
  }

  /** The hub has all of device `i`'s counted seconds. */
  ghost predicate AllRecorded(cfg: Setting, t: Tables, us: UserState, i: int) {
    AgentClear(cfg, us) && SecondsComplete(cfg, t, us, i) && CounterCurrent(cfg, t, us, i)
  }

  ghost predicate EveryoneRecorded(cfg: Setting, s: System) {
    forall i | 0 <= i < |s.nodes| :: AllRecorded(cfg, s.tables, s.nodes[i].agent, i)
  }

  /** What a prompt tick sends, and what is left on the agent. */
  lemma PromptTick(us: UserState, sight: Sight, day: DayNo, now: int, r: Response)
    requires us.day == Some(day) || (us.day == None && us.cumLocal == 0)
    requires sight.loggedIn && 0 <= sight.spentDay && us.pending == [] && 0 < now
    requires us.lastTick != 0 ==> RunTick(us, sight, day, now, Answered(r)).state.cumLocal - us.cumLocal <= now - us.lastTick
    ensures var m, us' := Measure(us, sight, day, now), RunTick(us, sight, day, now, Answered(r)).state;
            var grown := us'.cumLocal - us.cumLocal;
            && 0 <= grown && m.state.cumLocal == us'.cumLocal && us'.day == Some(day) && us'.pending == []
            && SpansToSend(m) == (if grown > 0 then [Span(now - grown, now)] else [])
            && us'.lastTick == (if grown > 0 then now else us.lastTick)
  {
  }

  /** A span under a new key adds exactly its seconds to the device's. */
  lemma NewSpanIsRecorded(cfg: Setting, t: Tables, r: Report, s: Span)
    requires r.user == cfg.user && r.day == cfg.day && r.spans == [s] && s.start < s.end
    requires SpanKey(r.device, s.end) !in t.spans
    ensures SecondsOf(cfg, Record(t, r), r.device) == SecondsOf(cfg, t, r.device) + Seconds(s)
    ensures Record(t, r).spans == t.spans[SpanKey(r.device, s.end) := SpanRow(r.user, r.day, s)]
  {
    InsertOneSpan(t.spans, r.user, r.device, r.day, s);
    assert Record(t, r).spans == t.spans[SpanKey(r.device, s.end) := SpanRow(r.user, r.day, s)];
    var t', k := Record(t, r), SpanKey(r.device, s.end);
    assert forall j | j in t.spans :: j in t'.spans && t'.spans[j] == t.spans[j];
    assert k in t'.spans && t'.spans[k].span == s;
  }

  /** How the agent's state moves, and what it reports, on a prompt tick at `now`. */
  ghost predicate PromptMove(cfg: Setting, us: UserState, us': UserState, r: Report, now: int) {
    var grown := us'.cumLocal - us.cumLocal;
    && r.user == cfg.user && r.day == cfg.day && 0 < now && 0 <= grown && r.spent == us'.cumLocal
    && us'.day == Some(cfg.day) && us'.pending == []
    && r.spans == (if grown > 0 then [Span(now - grown, now)] else [])
    && us'.lastTick == (if grown > 0 then now else us.lastTick)
    && (us.lastTick != 0 ==> grown <= now - us.lastTick)
  }

  lemma SecondsStayComplete(cfg: Setting, t: Tables, us: UserState, us': UserState, r: Report, now: int)
    requires SecondsComplete(cfg, t, us, r.device) && 0 <= us.lastTick && PromptMove(cfg, us, us', r, now)
    ensures SecondsComplete(cfg, Record(t, r), us', r.device)
  {
    var grown := us'.cumLocal - us.cumLocal;
    if grown > 0 {
      assert SpanKey(r.device, now) !in t.spans;
      if us.lastTick == 0 {
        NoKeysNoSeconds(cfg, t, r.device);
      }
      SecondsAdded(cfg, t, us, us', r, Span(now - grown, now));
    } else {
      assert Record(t, r).spans == t.spans;
    }
  }

  lemma SecondsAdded(cfg: Setting, t: Tables, us: UserState, us': UserState, r: Report, s: Span)
    requires SecondsComplete(cfg, t, us, r.device) && r.user == cfg.user && r.day == cfg.day && r.spans == [s] && s.start < s.end
    requires SpanKey(r.device, s.end) !in t.spans && us'.lastTick == s.end && 0 < s.end && us.lastTick <= s.end
    requires us'.cumLocal == us.cumLocal + Length(s)
    requires us.lastTick <= s.start || SecondsOf(cfg, t, r.device) == {}
    ensures SecondsComplete(cfg, Record(t, r), us', r.device)
  {
    NewSpanIsRecorded(cfg, t, r, s);
    hide SecondsOf, Record;
    LaterSecondsAdd(SecondsOf(cfg, t, r.device), s);
  }

  lemma LaterSecondsAdd(known: set<int>, s: Span)
    requires s.start < s.end && forall x | x in known :: x < s.start
    ensures |known + Seconds(s)| == |known| + Length(s)
    ensures forall x | x in known + Seconds(s) :: x < s.end
  {
    RangeSize(s.start, s.end);
    assert forall x | x in Seconds(s) :: s.start <= x < s.end;
    assert known !! Seconds(s);
    UnionSize(known, Seconds(s));
  }

  lemma CounterStaysCurrent(cfg: Setting, t: Tables, us: UserState, us': UserState, r: Report, now: int)
    requires AgentClear(cfg, us) && CounterCurrent(cfg, t, us, r.device) && PromptMove(cfg, us, us', r, now)
    ensures CounterCurrent(cfg, Record(t, r), us', r.device)
  {
  }

  lemma DeviceStaysRecorded(cfg: Setting, t: Tables, us: UserState, us': UserState, r: Report, now: int)
    requires AllRecorded(cfg, t, us, r.device) && PromptMove(cfg, us, us', r, now)
    ensures AllRecorded(cfg, Record(t, r), us', r.device)
  {
    SecondsStayComplete(cfg, t, us, us', r, now);
    CounterStaysCurrent(cfg, t, us, us', r, now);
    hide SecondsComplete, CounterCurrent, Record;
  }

  lemma NoKeysNoSeconds(cfg: Setting, t: Tables, i: int)
    requires forall k | k in t.spans :: k.device != i
    ensures SecondsOf(cfg, t, i) == {}
  {
  }

  lemma OthersStayRecorded(cfg: Setting, t: Tables, us: UserState, i: int, r: Report)
    requires AllRecorded(cfg, t, us, i) && r.device != i && r.user == cfg.user && r.day == cfg.day
    ensures AllRecorded(cfg, Record(t, r), us, i)
  {
    CommitEffect(cfg, t, r);
    hide SecondsOf, Record;
    RecordKeepsOthers(t, r);
  }

  lemma RecordKeepsOthers(t: Tables, r: Report)
    ensures forall k | k in Record(t, r).spans && k.device != r.device :: k in t.spans
    ensures forall k: CounterKey | k.device != r.device ::
              (k in Record(t, r).counters <==> k in t.counters) && (k in t.counters ==> Record(t, r).counters[k] == t.counters[k])
  {
    InsertSpansKeys(t.spans, r.user, r.device, r.day, r.spans);
  }

  lemma PromptStepKeepsRecords(cfg: Setting, s: System, e: Event)
    requires WellFormed(|s.nodes|, e) && PromptStep(cfg, s, e)
    requires EveryoneRecorded(cfg, s)
    ensures EveryoneRecorded(cfg, Step(cfg, s, e))
  {
    var s', us := Step(cfg, s, e), s.nodes[e.device].agent;
    var m := Measure(us, e.sight, cfg.day, e.at);
    var r := RequestOf(cfg, m, e.device);
    assert AllRecorded(cfg, s.tables, us, e.device);
    hide AllRecorded, Measure, Record, GlobalSpent, ApplyAnswer, SpansToSend, SecondsComplete;
    assert s'.tables == Record(s.tables, r);
    UnfoldRecorded(cfg, s.tables, us, e.device);
    PromptTick(us, e.sight, cfg.day, e.at, OutcomeOf(cfg, s'.tables, e).response);
    DeviceStaysRecorded(cfg, s.tables, us, s'.nodes[e.device].agent, r, e.at);
    forall i | 0 <= i < |s'.nodes|
      ensures AllRecorded(cfg, s'.tables, s'.nodes[i].agent, i)
    {
      if i != e.device {
        OthersStayRecorded(cfg, s.tables, s.nodes[i].agent, i, r);
      }
    }
  }

  lemma UnfoldRecorded(cfg: Setting, t: Tables, us: UserState, i: int)
    requires AllRecorded(cfg, t, us, i)
    ensures us.pending == [] && (us.day == Some(cfg.day) || (us.day == None && us.cumLocal == 0))
  {
  }

  lemma {:induction false} PromptRunRecordsAll(cfg: Setting, n: nat, events: seq<Event>)
    requires (forall e | e in events :: WellFormed(n, e)) && Prompt(cfg, n, events)
    ensures EveryoneRecorded(cfg, Run(cfg, n, events))
  {
    hide Step, EveryoneRecorded, PromptStep;
    if events == [] {
      NewFleetIsRecorded(cfg, n);
    } else {
      var before, e := events[..|events| - 1], events[|events| - 1];
      assert (forall x | x in before :: x in events) && e in events;
      PromptRunRecordsAll(cfg, n, before);
      PromptStepKeepsRecords(cfg, Run(cfg, n, before), e);
    }
  }

  lemma NewFleetIsRecorded(cfg: Setting, n: nat)
    ensures EveryoneRecorded(cfg, Initial(n))
  {
    forall i | 0 <= i < n
      ensures AllRecorded(cfg, Initial(n).tables, Initial(n).nodes[i].agent, i)
    {
      NoKeysNoSeconds(cfg, Initial(n).tables, i);
    }
  }

  /** In every prompt run the hub's record of each device is complete: as many distinct seconds as its counter charges. */
  lemma PromptRunIsFullyRecorded(cfg: Setting, n: nat, events: seq<Event>)
    requires (forall e | e in events :: WellFormed(n, e)) && Prompt(cfg, n, events)
    ensures var s := Run(cfg, n, events);
            && (forall i | 0 <= i < n :: |SecondsOf(cfg, s.tables, i)| == s.nodes[i].agent.cumLocal)
            && FullyRecorded(cfg, s.tables, s.tables.counters.Keys)
  {
    PromptRunRecordsAll(cfg, n, events);
    RunLedgerInv(cfg, n, events);
    RecordedMeansFull(cfg, Run(cfg, n, events));
  }

  lemma RecordedMeansFull(cfg: Setting, s: System)
    requires EveryoneRecorded(cfg, s) && LedgerInv(cfg, s)
    ensures forall i | 0 <= i < |s.nodes| :: |SecondsOf(cfg, s.tables, i)| == s.nodes[i].agent.cumLocal
    ensures FullyRecorded(cfg, s.tables, s.tables.counters.Keys)
  {
    KeysAreDevices(cfg, s);
    hide LedgerInv, SecondsOf;
    forall i | 0 <= i < |s.nodes|
      ensures |SecondsOf(cfg, s.tables, i)| == s.nodes[i].agent.cumLocal
      ensures CounterOf(cfg, i) in s.tables.counters ==> s.tables.counters[CounterOf(cfg, i)] == s.nodes[i].agent.cumLocal
    {
      assert AllRecorded(cfg, s.tables, s.nodes[i].agent, i);
    }
    forall k | k in s.tables.counters.Keys
      ensures |SecondsOf(cfg, s.tables, k.device)| == s.tables.counters[k]
    {
      assert k == CounterOf(cfg, k.device) && 0 <= k.device < |s.nodes|;
    }
  }

  lemma KeysAreDevices(cfg: Setting, s: System)
    requires LedgerInv(cfg, s)
    ensures forall k | k in s.tables.counters :: k == CounterOf(cfg, k.device) && 0 <= k.device < |s.nodes|
  {
    hide AllNodes, SecondsPaid, SpansHaveCounters;
  }

  /** So in a prompt run the wall-clock total is the sum of the counters exactly when no two devices were used in the
      same second (or only one was used at all): nothing but simultaneous use is ever saved by "burn once". */
  lemma PromptWallclockIsSumIff(cfg: Setting, n: nat, events: seq<Event>)
    requires (forall e | e in events :: WellFormed(n, e)) && Prompt(cfg, n, events)
    ensures var t := Run(cfg, n, events).tables;
            GlobalWallclock(t, cfg.user, cfg.day) == GlobalParallel(t, cfg.user, cfg.day) <==>
            AtMostOneNonZero(t.counters, t.counters.Keys) || Apart(cfg, t, t.counters.Keys)
  {
    PromptRunIsFullyRecorded(cfg, n, events);
    RunLedgerInv(cfg, n, events);
    hide LedgerInv, FullyRecorded, Apart, AtMostOneNonZero, GlobalWallclock, GlobalParallel;
    HistoryAgreesFromLedger(cfg, Run(cfg, n, events));
  }
}
