/**
 * The overshoot bound: devices polled in turn, any of them active in any round, each locking
 * once its own balance reaches the limit. The pooled total passes the limit by less than one
 * poll interval per device plus the deadband, in both accounting modes.
 */
module Overshoot {
  import opened Basics
  import opened IntervalUnion
  import opened Sums
  import opened Convergence
  import opened Daemon
  import opened HubLedger
  import opened AgentTick
  import opened LockingDevice
  import opened Protocol

  datatype Fleet = Fleet(daemons: seq<DaemonState>, sys: System)

  /** What everyone shares: hub and device limit, poll interval, daemon flush interval. */
  datatype Rules = Rules(limit: int, interval: nat, saveInterval: int) {
    predicate Sane() {
      0 <= limit <= TK_LIMIT_PER_DAY && saveInterval <= REGRESSION_TOLERANCE_S + 1
    }
  }

  /** One round: for each device when it ticks, whether it is in use before that, and for how long. */
  datatype Round = Round(at: seq<int>, active: seq<bool>, seconds: seq<nat>)

  predicate FitsRound(n: nat, rules: Rules, r: Round) {
    |r.at| == n && |r.active| == n && |r.seconds| == n && forall i | 0 <= i < n :: r.seconds[i] <= rules.interval
  }

  function StartFleet(n: nat, rules: Rules): Fleet {
    Fleet(seq(n, i => Fresh(rules.limit, rules.saveInterval)), Initial(n))
  }

  function SyncEvent(rules: Rules, i: int, at: int, d: DaemonState): Event {
    Event(i, at, See(d, true), Delivered, rules.limit, false, Capped, 900, 1800)
  }

  /** Device `i` is used, then its agent syncs and converges. */
  ghost function Turn(cfg: Setting, rules: Rules, f: Fleet, i: int, at: int, seconds: nat, active: bool): Fleet
    requires 0 <= i < |f.daemons| == |f.sys.nodes|
  {
    var d := Use(f.daemons[i], seconds, active);
    var e := SyncEvent(rules, i, at, d);
    var sys' := Step(cfg, f.sys, e);
    var acted := RunTick(f.sys.nodes[i].agent, e.sight, cfg.day, at, OutcomeOf(cfg, sys'.tables, e));
    Fleet(f.daemons[i := SetTimeLeft(d, acted.op, acted.seconds)], sys')
  }

  /** The first `k` turns of a round. */
  ghost function Turns(cfg: Setting, rules: Rules, f: Fleet, r: Round, k: nat): (f': Fleet)
    requires k <= |f.daemons| == |f.sys.nodes| && FitsRound(|f.daemons|, rules, r)
    ensures |f'.daemons| == |f'.sys.nodes| == |f.daemons|
  {
    if k == 0 then f
    else Turn(cfg, rules, Turns(cfg, rules, f, r, k - 1), k - 1, r.at[k - 1], r.seconds[k - 1], r.active[k - 1])
  }

  ghost function Rounds(cfg: Setting, rules: Rules, n: nat, rounds: seq<Round>): (f: Fleet)
    requires forall r | r in rounds :: FitsRound(n, rules, r)
    ensures |f.daemons| == |f.sys.nodes| == n
  {
    if rounds == [] then
      StartFleet(n, rules)
    else
      assert forall r | r in rounds[..|rounds| - 1] :: r in rounds;
      Turns(cfg, rules, Rounds(cfg, rules, n, rounds[..|rounds| - 1]), rounds[|rounds| - 1], n)
  }

  ghost function Total(cfg: Setting, f: Fleet): int {
    GlobalSpent(f.sys.tables, cfg.user, cfg.day, cfg.mode)
  }

  // ---------- one device ----------

  /** An unlocked device has a balance close to the total its agent was last told. */
  predicate Informed(us: UserState, d: DaemonState) {
    d.balance < d.limit ==> us.lastGlobal <= d.balance + DEADBAND_S
  }

  /** After converging, the agent is in step again and an unlocked device is informed. */
  lemma ConvergedDevice(m: Measurement, d: DaemonState, r: Response, at: int)
    requires Disciplined(d) && m.state.rawPrev == d.day.live && m.state.day.Some?
    requires 0 <= d.limit <= TK_LIMIT_PER_DAY && r.limit == d.limit && !r.observe && 0 <= r.globalSpent
    ensures var acted := ApplyAnswer(m, See(d, true), r, at);
            var d' := SetTimeLeft(d, acted.op, acted.seconds);
            && InStep(acted.state, d') && Informed(acted.state, d')
            && d'.limit == d.limit && d'.saveInterval == d.saveInterval
            && acted.state.lastGlobal == r.globalSpent && acted.state.pending == []
            && acted.state.cumLocal == m.state.cumLocal && acted.state.day == m.state.day
  {
  }

  /** Used for a while, measured, answered and written to: what one device and its agent go through in a turn. */
  lemma TurnOfDevice(us: UserState, d: DaemonState, rules: Rules, day: DayNo, at: int, seconds: nat, active: bool,
                     r: Response)
      returns (burned: nat)
    requires rules.Sane() && InStep(us, d) && d.limit == rules.limit && d.saveInterval == rules.saveInterval
    requires us.day == Some(day) || (us.day == None && us.cumLocal == 0)
    requires r.limit == rules.limit && !r.observe && 0 <= r.globalSpent
    ensures var used := Use(d, seconds, active);
            var acted := RunTick(us, See(used, true), day, at, Answered(r));
            var d' := SetTimeLeft(used, acted.op, acted.seconds);
            && acted.state.cumLocal == us.cumLocal + burned && burned <= seconds
            && (burned > 0 ==> d.balance < d.limit)
            && InStep(acted.state, d') && Informed(acted.state, d')
            && d'.limit == rules.limit && d'.saveInterval == rules.saveInterval
            && acted.state.lastGlobal == r.globalSpent && acted.state.pending == []
  {
    hide SetTimeLeft, MakePlan, Use, InStep, Informed;
    var used := Use(d, seconds, active);
    UseCreditsAtMost(us, d, day, at, seconds, active);
    MeasureWithinDay(us, See(used, true), day, at);
    var m := Measure(us, See(used, true), day, at);
    ConvergedDevice(m, used, r, at);
    burned := m.burned;
  }

  // ---------- what one report adds to the total ----------

  /** The hub's counter for a device is its agent's, once it has reported at all. */
  ghost predicate Reported(cfg: Setting, t: Tables, us: UserState, i: int) {
    var k := CounterOf(cfg, i);
    if us.day == None then k !in t.counters && us.cumLocal == 0 else k in t.counters && t.counters[k] == us.cumLocal
  }

  lemma SpanCovers(span: Option<Span>, burned: int)
    requires 0 <= burned && (span.Some? ==> span.value.end - span.value.start <= burned)
    ensures |Covered([] + Opt(span))| <= burned
  {
    EmissionCost([], span, burned);
  }

  lemma CounterAfterReport(cfg: Setting, t: Tables, us: UserState, r: Report)
    requires Reported(cfg, t, us, r.device) && r.user == cfg.user && r.day == cfg.day && us.cumLocal <= r.spent
    ensures Record(t, r).counters == t.counters[CounterOf(cfg, r.device) := r.spent]
    ensures Get(t.counters, CounterOf(cfg, r.device), 0) == us.cumLocal
  {
  }

  lemma WallclockGrows(cfg: Setting, t: Tables, us: UserState, r: Report, burned: nat)
    requires r.user == cfg.user && r.day == cfg.day && r.spent == us.cumLocal + burned && 0 <= us.cumLocal
    requires Reported(cfg, t, us, r.device) && |Covered(r.spans)| <= burned
    requires forall k | k in t.counters :: 0 <= t.counters[k]
    ensures GlobalWallclock(Record(t, r), cfg.user, cfg.day) <= GlobalWallclock(t, cfg.user, cfg.day) + burned
  {
    UnionGrows(cfg, t, r, burned);
    RecordMovesMax(t, r);
    if CounterOf(cfg, r.device) in t.counters {
      CounterBelowMax(t, cfg, CounterOf(cfg, r.device));
    }
  }

  /** In either mode the total grows by at most what the device burned. */
  lemma TotalGrowsByBurned(cfg: Setting, t: Tables, us: UserState, r: Report, burned: nat)
    requires r.user == cfg.user && r.day == cfg.day && r.spent == us.cumLocal + burned && 0 <= us.cumLocal
    requires Reported(cfg, t, us, r.device) && |Covered(r.spans)| <= burned
    requires forall k | k in t.counters :: 0 <= t.counters[k]
    ensures GlobalSpent(Record(t, r), cfg.user, cfg.day, cfg.mode) <= GlobalSpent(t, cfg.user, cfg.day, cfg.mode) + burned
  {
    if cfg.mode == Parallel {
      RecordMovesParallel(t, r);
      CounterAfterReport(cfg, t, us, r);
    } else {
      WallclockGrows(cfg, t, us, r, burned);
    }
  }

  lemma CounterBelowMax(t: Tables, cfg: Setting, k: CounterKey)
    requires k in t.counters && k.user == cfg.user && k.day == cfg.day
    ensures t.counters[k] <= MaxCounter(t, cfg.user, cfg.day)
  {
    var values := set j | j in CounterKeys(t, cfg.user, cfg.day) :: t.counters[j];
    assert k in CounterKeys(t, cfg.user, cfg.day) && t.counters[k] in values;
  }

  lemma UnionGrows(cfg: Setting, t: Tables, r: Report, burned: int)
    requires r.user == cfg.user && r.day == cfg.day && |Covered(r.spans)| <= burned
    ensures |CoveredSeconds(Record(t, r), cfg.user, cfg.day)| <= |CoveredSeconds(t, cfg.user, cfg.day)| + burned
  {
    RecordAddsReportedSeconds(t, r, cfg.user, cfg.day);
    UnionSize(CoveredSeconds(t, cfg.user, cfg.day), Covered(r.spans));
    SubsetSize(CoveredSeconds(Record(t, r), cfg.user, cfg.day), CoveredSeconds(t, cfg.user, cfg.day) + Covered(r.spans));
  }

  lemma TotalNonNegative(cfg: Setting, t: Tables)
    requires forall k | k in t.counters :: 0 <= t.counters[k]
    ensures 0 <= GlobalSpent(t, cfg.user, cfg.day, cfg.mode)
  {
    SumOverNonNegative(t.counters, CounterKeys(t, cfg.user, cfg.day));
  }

  // ---------- the fleet ----------

  ghost predicate DeviceInv(cfg: Setting, rules: Rules, f: Fleet, i: int)
    requires 0 <= i < |f.daemons| == |f.sys.nodes|
  {
    var us, d := f.sys.nodes[i].agent, f.daemons[i];
    && InStep(us, d) && Informed(us, d) && d.limit == rules.limit && d.saveInterval == rules.saveInterval
    && us.pending == [] && Reported(cfg, f.sys.tables, us, i)
  }

  /** Turns taken by anyone since device `i`'s own last turn, when device `k` is about to move. */
  function Since(n: nat, i: int, k: int): int {
    if i < k then k - 1 - i else n - 1 - i + k
  }

  /** When device `k` is about to move: everyone is informed, and the total has grown by at most one
      interval for each turn since each agent was last told it. */
  ghost predicate FleetInv(cfg: Setting, rules: Rules, f: Fleet, k: nat) {
    && |f.daemons| == |f.sys.nodes| && LedgerInv(cfg, f.sys)
    && (forall i | 0 <= i < |f.daemons| :: DeviceInv(cfg, rules, f, i))
    && (forall i | 0 <= i < |f.daemons| ::
          Total(cfg, f) <= f.sys.nodes[i].agent.lastGlobal + rules.interval * Since(|f.daemons|, i, k))
    && Total(cfg, f) < rules.limit + |f.daemons| * rules.interval + DEADBAND_S
  }

  /** What a turn of device `k` does to the fleet, without how. */
  ghost predicate TurnMoves(cfg: Setting, rules: Rules, f: Fleet, f': Fleet, k: nat, burned: nat, span: Option<Span>)
    requires k < |f.daemons| == |f.sys.nodes| == |f'.daemons| == |f'.sys.nodes|
  {
    var us, us' := f.sys.nodes[k].agent, f'.sys.nodes[k].agent;
    && LedgerInv(cfg, f'.sys)
    && f'.daemons == f.daemons[k := f'.daemons[k]] && f'.sys.nodes == f.sys.nodes[k := f'.sys.nodes[k]]
    && f'.sys.tables == Record(f.sys.tables, ReportOf(cfg, f.sys.nodes[k], k, burned, span))
    && burned <= rules.interval && (burned > 0 ==> f.daemons[k].balance < f.daemons[k].limit)
    && (span.Some? ==> span.value.end - span.value.start <= burned)
    && us'.cumLocal == us.cumLocal + burned && us'.day == Some(cfg.day) && us'.pending == []
    && us'.lastGlobal == Total(cfg, f')
    && InStep(us', f'.daemons[k]) && Informed(us', f'.daemons[k])
    && f'.daemons[k].limit == rules.limit && f'.daemons[k].saveInterval == rules.saveInterval
  }

  lemma TurnEffect(cfg: Setting, rules: Rules, f: Fleet, i: int, at: int, seconds: nat, active: bool)
      returns (burned: int, span: Option<Span>)
    requires rules.Sane() && 0 <= i < |f.daemons| == |f.sys.nodes| && LedgerInv(cfg, f.sys)
    requires DeviceInv(cfg, rules, f, i)
    requires seconds <= rules.interval
    ensures var f' := Turn(cfg, rules, f, i, at, seconds, active);
            && |f'.daemons| == |f'.sys.nodes| == |f.daemons| && 0 <= burned
            && TurnMoves(cfg, rules, f, f', i, burned, span)
  {
    hide LedgerInv, GlobalSpent, Measure, Finish, Use, SetTimeLeft, Record, InStep, Informed, Reported;
    LedgerFacts(cfg, f.sys, i);
    var d := Use(f.daemons[i], seconds, active);
    var e := SyncEvent(rules, i, at, d);
    var sys' := Step(cfg, f.sys, e);
    var outcome := OutcomeOf(cfg, sys'.tables, e);
    UseKeepsSpentNonNegative(f.sys.nodes[i].agent, f.daemons[i], seconds, active);
    var pushed;
    burned, span, pushed := StepEffect(cfg, f.sys, e);
    LedgerInvKept(cfg, f.sys, e);
    LedgerFacts(cfg, sys', i);
    TotalNonNegative(cfg, sys'.tables);
    var credited := TurnOfDevice(f.sys.nodes[i].agent, f.daemons[i], rules, cfg.day, at, seconds, active, outcome.response);
  }

  lemma LedgerFacts(cfg: Setting, s: System, i: int)
    requires LedgerInv(cfg, s) && 0 <= i < |s.nodes|
    ensures NodeInv(cfg, s.nodes[i])
    ensures forall k | k in s.tables.counters :: 0 <= s.tables.counters[k]
  {
  }

  lemma OthersUntouched(cfg: Setting, rules: Rules, f: Fleet, f': Fleet, i: int, j: int, spent: int, spans: seq<Span>)
    requires 0 <= i < |f.daemons| == |f.sys.nodes| == |f'.daemons| == |f'.sys.nodes| && 0 <= j < |f.daemons| && i != j
    requires f'.daemons[j] == f.daemons[j] && f'.sys.nodes[j] == f.sys.nodes[j]
    requires f'.sys.tables == Record(f.sys.tables, Report(cfg.user, i, cfg.day, spent, spans))
    requires DeviceInv(cfg, rules, f, j)
    ensures DeviceInv(cfg, rules, f', j)
  {
  }

  lemma SinceGrows(rules: Rules, n: nat, i: int, k: nat)
    requires 0 <= i < n && k < n
    ensures i != k ==> rules.interval * Since(n, i, k + 1) == rules.interval * Since(n, i, k) + rules.interval
    ensures i == k ==> rules.interval * Since(n, i, k + 1) == 0
    ensures rules.interval * Since(n, k, k) + rules.interval == n * rules.interval
    ensures Since(n, i, n) == Since(n, i, 0)
  {
    assert i != k ==> Since(n, i, k + 1) == Since(n, i, k) + 1;
    assert Since(n, k, k) + 1 == n;
  }

  lemma TotalAfterTurn(cfg: Setting, rules: Rules, f: Fleet, f': Fleet, k: nat, burned: nat, span: Option<Span>)
    requires k < |f.daemons| == |f.sys.nodes| == |f'.daemons| == |f'.sys.nodes|
    requires DeviceInv(cfg, rules, f, k) && LedgerInv(cfg, f.sys)
    requires TurnMoves(cfg, rules, f, f', k, burned, span)
    ensures Total(cfg, f') <= Total(cfg, f) + burned
    ensures Reported(cfg, f'.sys.tables, f'.sys.nodes[k].agent, k)
  {
    hide LedgerInv, InStep, Informed, GlobalSpent, Record;
    var us := f.sys.nodes[k].agent;
    var r := ReportOf(cfg, f.sys.nodes[k], k, burned, span);
    LedgerFacts(cfg, f.sys, k);
    assert r.spans == [] + Opt(span);
    SpanCovers(span, burned);
    TotalGrowsByBurned(cfg, f.sys.tables, us, r, burned);
    CounterAfterReport(cfg, f.sys.tables, us, r);
  }

  lemma ToldBelowLimit(cfg: Setting, rules: Rules, f: Fleet, k: nat)
    requires k < |f.daemons| == |f.sys.nodes| && DeviceInv(cfg, rules, f, k)
    requires f.daemons[k].balance < f.daemons[k].limit
    ensures f.sys.nodes[k].agent.lastGlobal < rules.limit + DEADBAND_S
  {
  }

  lemma DevicesAfterTurn(cfg: Setting, rules: Rules, f: Fleet, f': Fleet, k: nat, burned: nat, span: Option<Span>, i: nat)
    requires k < |f.daemons| == |f.sys.nodes| == |f'.daemons| == |f'.sys.nodes| && i < |f.daemons|
    requires DeviceInv(cfg, rules, f, i) && Reported(cfg, f'.sys.tables, f'.sys.nodes[k].agent, k)
    requires TurnMoves(cfg, rules, f, f', k, burned, span)
    ensures DeviceInv(cfg, rules, f', i)
  {
    if i != k {
      var r := ReportOf(cfg, f.sys.nodes[k], k, burned, span);
      OthersUntouched(cfg, rules, f, f', k, i, r.spent, r.spans);
    }
  }

  /** The counting behind the bound: agent `i` was told `told`, agent `k` moves and is told the new total. */
  lemma StalenessAfterTurn(rules: Rules, n: nat, i: nat, k: nat, total: int, total': int, told: int, told': int, burned: nat)
    requires i < n && k < n && burned <= rules.interval && total' <= total + burned
    requires total <= told + rules.interval * Since(n, i, k)
    requires told' == if i == k then total' else told
    ensures total' <= told' + rules.interval * Since(n, i, k + 1)
  {
    SinceGrows(rules, n, i, k);
  }

  lemma BoundAfterTurn(rules: Rules, n: nat, k: nat, total: int, total': int, told: int, burned: nat)
    requires k < n && burned <= rules.interval && total' <= total + burned
    requires total <= told + rules.interval * Since(n, k, k)
    requires burned > 0 ==> told < rules.limit + DEADBAND_S
    requires total < rules.limit + n * rules.interval + DEADBAND_S
    ensures total' < rules.limit + n * rules.interval + DEADBAND_S
  {
    SinceGrows(rules, n, k, k);
  }

  lemma MovedKeepsFleetInv(cfg: Setting, rules: Rules, f: Fleet, f': Fleet, k: nat, burned: nat, span: Option<Span>)
    requires k < |f.daemons| == |f.sys.nodes| == |f'.daemons| == |f'.sys.nodes|
    requires FleetInv(cfg, rules, f, k) && TurnMoves(cfg, rules, f, f', k, burned, span)
    ensures FleetInv(cfg, rules, f', k + 1)
  {
    hide Total, LedgerInv, DeviceInv;
    var n := |f.daemons|;
    assert DeviceInv(cfg, rules, f, k);
    TotalAfterTurn(cfg, rules, f, f', k, burned, span);
    forall i | 0 <= i < n
      ensures DeviceInv(cfg, rules, f', i)
      ensures Total(cfg, f') <= f'.sys.nodes[i].agent.lastGlobal + rules.interval * Since(n, i, k + 1)
    {
      assert DeviceInv(cfg, rules, f, i);
      DevicesAfterTurn(cfg, rules, f, f', k, burned, span, i);
      StalenessAfterTurn(rules, n, i, k, Total(cfg, f), Total(cfg, f'),
        f.sys.nodes[i].agent.lastGlobal, f'.sys.nodes[i].agent.lastGlobal, burned);
    }
    if burned > 0 {
      ToldBelowLimit(cfg, rules, f, k);
    }
    BoundAfterTurn(rules, n, k, Total(cfg, f), Total(cfg, f'), f.sys.nodes[k].agent.lastGlobal, burned);
  }

  lemma TurnKeepsFleetInv(cfg: Setting, rules: Rules, f: Fleet, f': Fleet, k: nat, at: int, seconds: nat, active: bool)
    requires rules.Sane() && k < |f.daemons| == |f.sys.nodes| && seconds <= rules.interval
    requires FleetInv(cfg, rules, f, k) && f' == Turn(cfg, rules, f, k, at, seconds, active)
    ensures FleetInv(cfg, rules, f', k + 1)
  {
    assert DeviceInv(cfg, rules, f, k);
    var burned, span := TurnEffect(cfg, rules, f, k, at, seconds, active);
    MovedKeepsFleetInv(cfg, rules, f, f', k, burned, span);
  }

  lemma {:induction false} TurnsKeepFleetInv(cfg: Setting, rules: Rules, f: Fleet, r: Round, k: nat)
    requires rules.Sane() && k <= |f.daemons| == |f.sys.nodes| && FitsRound(|f.daemons|, rules, r)
    requires FleetInv(cfg, rules, f, 0)
    ensures FleetInv(cfg, rules, Turns(cfg, rules, f, r, k), k)
  {
    hide FleetInv, Turn;
    if k > 0 {
      TurnsKeepFleetInv(cfg, rules, f, r, k - 1);
      NextTurn(cfg, rules, f, r, k, Turns(cfg, rules, f, r, k - 1), Turns(cfg, rules, f, r, k));
    }
  }

  lemma NextTurn(cfg: Setting, rules: Rules, f: Fleet, r: Round, k: nat, before: Fleet, after: Fleet)
    requires rules.Sane() && 0 < k <= |f.daemons| == |f.sys.nodes| && FitsRound(|f.daemons|, rules, r)
    requires before == Turns(cfg, rules, f, r, k - 1) && after == Turns(cfg, rules, f, r, k)
    requires FleetInv(cfg, rules, before, k - 1)
    ensures FleetInv(cfg, rules, after, k)
  {
    hide FleetInv, Turn;
    TurnKeepsFleetInv(cfg, rules, before, after, k - 1, r.at[k - 1], r.seconds[k - 1], r.active[k - 1]);
  }

  lemma FullRoundIsAStart(cfg: Setting, rules: Rules, f: Fleet)
    requires FleetInv(cfg, rules, f, |f.daemons|)
    ensures FleetInv(cfg, rules, f, 0)
  {
    forall i | 0 <= i < |f.daemons|
      ensures Total(cfg, f) <= f.sys.nodes[i].agent.lastGlobal + rules.interval * Since(|f.daemons|, i, 0)
    {
      SinceGrows(rules, |f.daemons|, i, 0);
    }
  }

  lemma StartFleetInv(cfg: Setting, rules: Rules, n: nat)
    requires rules.Sane()
    ensures FleetInv(cfg, rules, StartFleet(n, rules), 0)
  {
    var f := StartFleet(n, rules);
    InitialLedgerInv(cfg, n);
    assert Total(cfg, f) == 0;
    forall i | 0 <= i < n
      ensures DeviceInv(cfg, rules, f, i)
      ensures 0 <= rules.interval * Since(n, i, 0)
    {
      assert f.daemons[i] == Fresh(rules.limit, rules.saveInterval) && f.sys.nodes[i].agent == NewUser();
    }
  }

  lemma {:induction false} RoundsKeepFleetInv(cfg: Setting, rules: Rules, n: nat, rounds: seq<Round>)
    requires rules.Sane() && forall r | r in rounds :: FitsRound(n, rules, r)
    ensures FleetInv(cfg, rules, Rounds(cfg, rules, n, rounds), 0)
  {
    if rounds == [] {
      StartFleetInv(cfg, rules, n);
    } else {
      var before := rounds[..|rounds| - 1];
      assert forall r | r in before :: r in rounds;
      RoundsKeepFleetInv(cfg, rules, n, before);
      TurnsKeepFleetInv(cfg, rules, Rounds(cfg, rules, n, before), rounds[|rounds| - 1], n);
      FullRoundIsAStart(cfg, rules, Rounds(cfg, rules, n, rounds));
    }
  }

  /** The overshoot bound, at every moment of every run: after any full rounds and any turns of the
      next one, the pooled total is below limit + D * N + deadband, whoever was active when. */
  lemma OvershootBound(cfg: Setting, rules: Rules, n: nat, rounds: seq<Round>, r: Round, k: nat)
    requires rules.Sane() && (forall x | x in rounds :: FitsRound(n, rules, x)) && FitsRound(n, rules, r) && k <= n
    ensures Total(cfg, Turns(cfg, rules, Rounds(cfg, rules, n, rounds), r, k))
            < rules.limit + n * rules.interval + DEADBAND_S
  {
    RoundsKeepFleetInv(cfg, rules, n, rounds);
    TurnsKeepFleetInv(cfg, rules, Rounds(cfg, rules, n, rounds), r, k);
  }
}
