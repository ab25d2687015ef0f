/** The overshoot bound is not slack: for every fleet and poll interval a run comes within the deadband of it. */
module OvershootReached {
  import opened Basics
  import opened IntervalUnion
  import opened Sums
  import opened Convergence
  import opened Daemon
  import opened HubLedger
  import opened AgentTick
  import opened LockingDevice
  import opened Protocol
  import opened Overshoot

  /** Nothing is unflushed, and the agent has seen all of it. */
  predicate Flushed(us: UserState, d: DaemonState) {
    us.rawPrev == d.day.live == d.day.saved && 0 <= d.elapsed && d.saveInterval == 0
  }

  /** An unlocked device in use burns, and its agent credits, every second of that use; afterwards nothing is unflushed,
      and a first tick leaves the balance at the total just told. */
  lemma UseIsCreditedInFull(us: UserState, d: DaemonState, day: DayNo, at: int, seconds: nat, active: bool, r: Response)
    requires Flushed(us, d) && (us.day == Some(day) || (us.day == None && us.cumLocal == 0 && us.rawPrev == 0))
    requires active ==> d.balance < d.limit
    requires !r.observe && r.limit == d.limit
    ensures var used := Use(d, seconds, active);
            var acted := RunTick(us, See(used, true), day, at, Answered(r));
            var d' := SetTimeLeft(used, acted.op, acted.seconds);
            && acted.state.cumLocal == us.cumLocal + (if active then seconds else 0)
            && used.balance == d.balance + (if active then seconds else 0)
            && Flushed(acted.state, d')
            && (us.day == None && 0 <= r.globalSpent <= TK_LIMIT_PER_DAY ==> d'.balance == r.globalSpent)
  {
  }

  function Burned(seconds: nat, active: bool): nat {
    if active then seconds else 0
  }

  lemma SumGrowsByBurned(cfg: Setting, t: Tables, us: UserState, r: Report, burned: nat)
    requires cfg.mode == Parallel && Reported(cfg, t, us, r.device) && 0 <= us.cumLocal
    requires r.user == cfg.user && r.day == cfg.day && r.spent == us.cumLocal + burned
    ensures GlobalSpent(Record(t, r), cfg.user, cfg.day, cfg.mode) == GlobalSpent(t, cfg.user, cfg.day, cfg.mode) + burned
  {
    RecordMovesParallel(t, r);
    CounterAfterReport(cfg, t, us, r);
  }

  /** One turn, exactly: the total rises by the whole use. */
  lemma ExactTurn(cfg: Setting, rules: Rules, f: Fleet, f': Fleet, i: nat, at: int, seconds: nat, active: bool)
    requires cfg.mode == Parallel && rules.Sane() && i < |f.daemons| == |f.sys.nodes| && seconds <= rules.interval
    requires LedgerInv(cfg, f.sys) && DeviceInv(cfg, rules, f, i)
    requires Flushed(f.sys.nodes[i].agent, f.daemons[i]) && (active ==> f.daemons[i].balance < f.daemons[i].limit)
    requires f' == Turn(cfg, rules, f, i, at, seconds, active)
    ensures |f'.daemons| == |f'.sys.nodes| == |f.daemons|
    ensures forall j | 0 <= j < |f.daemons| && j != i :: f'.daemons[j] == f.daemons[j] && f'.sys.nodes[j] == f.sys.nodes[j]
    ensures Total(cfg, f') == Total(cfg, f) + Burned(seconds, active)
    ensures Flushed(f'.sys.nodes[i].agent, f'.daemons[i]) && f'.sys.nodes[i].agent.day.Some?
    ensures f.sys.nodes[i].agent.day == None && 0 <= Total(cfg, f') <= TK_LIMIT_PER_DAY ==> f'.daemons[i].balance == Total(cfg, f')
  {
    hide LedgerInv, Turn, TurnMoves, GlobalSpent, DeviceInv, Flushed;
    var burned, span := TurnEffect(cfg, rules, f, i, at, seconds, active);
    ExactDevice(cfg, rules, f, f', i, at, seconds, active);
    MovesMeans(cfg, rules, f, f', i, burned, span);
    LedgerFacts(cfg, f.sys, i);
    DeviceFacts(cfg, rules, f, i);
    SumGrowsByBurned(cfg, f.sys.tables, f.sys.nodes[i].agent, ReportOf(cfg, f.sys.nodes[i], i, burned, span), burned);
  }

  lemma DeviceFacts(cfg: Setting, rules: Rules, f: Fleet, i: nat)
    requires i < |f.daemons| == |f.sys.nodes| && DeviceInv(cfg, rules, f, i) && NodeInv(cfg, f.sys.nodes[i])
    ensures Reported(cfg, f.sys.tables, f.sys.nodes[i].agent, i) && 0 <= f.sys.nodes[i].agent.cumLocal
    ensures f.daemons[i].limit == rules.limit && InStep(f.sys.nodes[i].agent, f.daemons[i])
  {
  }

  lemma MovesMeans(cfg: Setting, rules: Rules, f: Fleet, f': Fleet, i: nat, burned: nat, span: Option<Span>)
    requires i < |f.daemons| == |f.sys.nodes| == |f'.daemons| == |f'.sys.nodes| && TurnMoves(cfg, rules, f, f', i, burned, span)
    ensures forall j | 0 <= j < |f.daemons| && j != i :: f'.daemons[j] == f.daemons[j] && f'.sys.nodes[j] == f.sys.nodes[j]
    ensures f'.sys.tables == Record(f.sys.tables, ReportOf(cfg, f.sys.nodes[i], i, burned, span))
    ensures f'.sys.nodes[i].agent.cumLocal == f.sys.nodes[i].agent.cumLocal + burned && f'.sys.nodes[i].agent.day.Some?
    ensures f'.sys.nodes[i].agent.lastGlobal == Total(cfg, f')
  {
    hide LedgerInv, GlobalSpent, InStep, Informed, Record;
  }

  lemma ExactDevice(cfg: Setting, rules: Rules, f: Fleet, f': Fleet, i: nat, at: int, seconds: nat, active: bool)
    requires i < |f.daemons| == |f.sys.nodes| && LedgerInv(cfg, f.sys) && DeviceInv(cfg, rules, f, i)
    requires Flushed(f.sys.nodes[i].agent, f.daemons[i]) && (active ==> f.daemons[i].balance < f.daemons[i].limit)
    requires f' == Turn(cfg, rules, f, i, at, seconds, active)
    ensures |f'.daemons| == |f'.sys.nodes| == |f.daemons|
    ensures f'.sys.nodes[i].agent.cumLocal == f.sys.nodes[i].agent.cumLocal + Burned(seconds, active)
    ensures Flushed(f'.sys.nodes[i].agent, f'.daemons[i])
    ensures f.sys.nodes[i].agent.day == None && 0 <= Total(cfg, f') <= TK_LIMIT_PER_DAY ==> f'.daemons[i].balance == Total(cfg, f')
  {
    hide LedgerInv, DeviceInv, Use, SetTimeLeft, Measure, Finish, Flushed, InStep, GlobalSpent, Record, NodeInv;
    LedgerFacts(cfg, f.sys, i);
    DeviceFacts(cfg, rules, f, i);
    FitsAgent(cfg, f.sys.nodes[i], f.daemons[i]);
    var e := SyncEvent(rules, i, at, Use(f.daemons[i], seconds, active));
    UseIsCreditedInFull(f.sys.nodes[i].agent, f.daemons[i], cfg.day, at, seconds, active,
      OutcomeOf(cfg, Step(cfg, f.sys, e).tables, e).response);
  }

  lemma FitsAgent(cfg: Setting, node: Node, d: DaemonState)
    requires NodeInv(cfg, node) && InStep(node.agent, d)
    ensures 0 <= node.agent.cumLocal
    ensures node.agent.day == Some(cfg.day) || (node.agent.day == None && node.agent.cumLocal == 0 && node.agent.rawPrev == 0)
  {
  }

  // ---------- the run ----------

  /** Limit N + 1, flushed at every tick. */
  function TightRules(interval: nat): Rules {
    Rules(interval + 1, interval, 0)
  }

  /** A round in which the first `users` devices are used for a whole interval each. */
  function RoundOf(n: nat, interval: nat, users: nat): Round {
    Round(seq(n, i => 1 + i), seq(n, i => i < users), seq(n, i => interval))
  }

  lemma RoundFits(n: nat, interval: nat, users: nat)
    ensures FitsRound(n, TightRules(interval), RoundOf(n, interval, users))
  {
  }

  ghost predicate AllFlushed(f: Fleet)
    requires |f.daemons| == |f.sys.nodes|
  {
    forall i | 0 <= i < |f.daemons| :: Flushed(f.sys.nodes[i].agent, f.daemons[i])
  }

  /** After `k` turns of the first round: one device has used N seconds, and each that ticked was told N. */
  ghost predicate FirstRound(cfg: Setting, f: Fleet, interval: nat, k: nat)
    requires |f.daemons| == |f.sys.nodes|
  {
    && AllFlushed(f) && Total(cfg, f) == (if k == 0 then 0 else interval)
    && (forall i | 0 <= i < |f.daemons| ::
          if i < k then f.daemons[i].balance == interval else f.sys.nodes[i].agent.day == None && f.daemons[i].balance == 0)
  }

  /** After `k` turns of the second: those k devices have used N seconds each, the others still stand at N. */
  ghost predicate SecondRound(cfg: Setting, f: Fleet, interval: nat, k: nat)
    requires |f.daemons| == |f.sys.nodes|
  {
    && AllFlushed(f) && Total(cfg, f) == interval + k * interval
    && (forall i | k <= i < |f.daemons| :: f.daemons[i].balance == interval)
  }

  lemma FleetParts(cfg: Setting, rules: Rules, f: Fleet, at: nat, i: nat)
    requires FleetInv(cfg, rules, f, at) && i < |f.daemons|
    ensures |f.daemons| == |f.sys.nodes| && LedgerInv(cfg, f.sys) && DeviceInv(cfg, rules, f, i)
    ensures f.daemons[i].limit == rules.limit
  {
  }

  /** Only device `k` moved, by `burned`, and nothing is unflushed on it. */
  ghost predicate Moved(cfg: Setting, f: Fleet, f': Fleet, k: nat, burned: nat)
    requires k < |f.daemons| == |f.sys.nodes|
  {
    && |f'.daemons| == |f'.sys.nodes| == |f.daemons|
    && (forall j | 0 <= j < |f.daemons| && j != k :: f'.daemons[j] == f.daemons[j] && f'.sys.nodes[j] == f.sys.nodes[j])
    && Total(cfg, f') == Total(cfg, f) + burned
    && Flushed(f'.sys.nodes[k].agent, f'.daemons[k])
  }

  lemma FirstRoundMoves(cfg: Setting, interval: nat, f: Fleet, f': Fleet, k: nat)
    requires k < |f.daemons| == |f.sys.nodes| && FirstRound(cfg, f, interval, k)
    requires Moved(cfg, f, f', k, Burned(interval, k < 1)) && f'.daemons[k].balance == Total(cfg, f')
    ensures FirstRound(cfg, f', interval, k + 1)
  {
    hide Total, Flushed;
  }

  lemma FirstRoundTurn(cfg: Setting, interval: nat, f: Fleet, f': Fleet, k: nat, at: int)
    requires cfg.mode == Parallel && 0 < interval < TK_LIMIT_PER_DAY && k < |f.daemons| == |f.sys.nodes|
    requires FleetInv(cfg, TightRules(interval), f, k) && FirstRound(cfg, f, interval, k)
    requires f' == Turn(cfg, TightRules(interval), f, k, at, interval, k < 1)
    ensures |f'.daemons| == |f'.sys.nodes| == |f.daemons| && FirstRound(cfg, f', interval, k + 1)
  {
    hide FleetInv, DeviceInv, LedgerInv, Total, InStep, Reported, Flushed, Turn;
    FleetParts(cfg, TightRules(interval), f, k, k);
    ExactTurn(cfg, TightRules(interval), f, f', k, at, interval, k < 1);
    FirstRoundMoves(cfg, interval, f, f', k);
  }

  lemma SecondRoundTurn(cfg: Setting, interval: nat, f: Fleet, f': Fleet, k: nat, at: int)
    requires cfg.mode == Parallel && 0 < interval < TK_LIMIT_PER_DAY && k < |f.daemons| == |f.sys.nodes|
    requires FleetInv(cfg, TightRules(interval), f, k) && SecondRound(cfg, f, interval, k)
    requires f' == Turn(cfg, TightRules(interval), f, k, at, interval, true)
    ensures |f'.daemons| == |f'.sys.nodes| == |f.daemons| && SecondRound(cfg, f', interval, k + 1)
  {
    hide FleetInv, DeviceInv, LedgerInv, Total, InStep, Reported, Flushed, Turn;
    FleetParts(cfg, TightRules(interval), f, k, k);
    ExactTurn(cfg, TightRules(interval), f, f', k, at, interval, true);
    assert interval + (k + 1) * interval == interval + k * interval + interval;
  }

  lemma {:induction false} FirstRoundTurns(cfg: Setting, n: nat, interval: nat, k: nat)
    requires cfg.mode == Parallel && 0 < interval < TK_LIMIT_PER_DAY && k <= n
    requires FitsRound(n, TightRules(interval), RoundOf(n, interval, 1))
    ensures FirstRound(cfg, Turns(cfg, TightRules(interval), StartFleet(n, TightRules(interval)), RoundOf(n, interval, 1), k), interval, k)
  {
    hide FleetInv, FirstRound, Turn, StartFleet;
    var rules, start, r := TightRules(interval), StartFleet(n, TightRules(interval)), RoundOf(n, interval, 1);
    StartFleetInv(cfg, rules, n);
    StartFleetSize(n, rules);
    if k == 0 {
      StartIsFirstRound(cfg, n, interval);
    } else {
      FirstRoundTurns(cfg, n, interval, k - 1);
      TurnsKeepFleetInv(cfg, rules, start, r, k - 1);
      FirstRoundTurn(cfg, interval, Turns(cfg, rules, start, r, k - 1), Turns(cfg, rules, start, r, k), k - 1, r.at[k - 1]);
    }
  }

  lemma StartFleetSize(n: nat, rules: Rules)
    ensures |StartFleet(n, rules).daemons| == |StartFleet(n, rules).sys.nodes| == n
  {
  }

  lemma StartIsFirstRound(cfg: Setting, n: nat, interval: nat)
    requires cfg.mode == Parallel
    ensures FirstRound(cfg, StartFleet(n, TightRules(interval)), interval, 0)
  {
    var f := StartFleet(n, TightRules(interval));
    assert CounterKeys(f.sys.tables, cfg.user, cfg.day) == {};
    assert Total(cfg, f) == 0;
  }

  lemma {:induction false} SecondRoundTurns(cfg: Setting, n: nat, interval: nat, f: Fleet, k: nat)
    requires cfg.mode == Parallel && 0 < interval < TK_LIMIT_PER_DAY && k <= n == |f.daemons| == |f.sys.nodes|
    requires FitsRound(n, TightRules(interval), RoundOf(n, interval, n))
    requires FleetInv(cfg, TightRules(interval), f, 0) && SecondRound(cfg, f, interval, 0)
    ensures SecondRound(cfg, Turns(cfg, TightRules(interval), f, RoundOf(n, interval, n), k), interval, k)
  {
    hide FleetInv, SecondRound, Turn;
    if k > 0 {
      var rules, r := TightRules(interval), RoundOf(n, interval, n);
      SecondRoundTurns(cfg, n, interval, f, k - 1);
      TurnsKeepFleetInv(cfg, rules, f, r, k - 1);
      SecondRoundTurn(cfg, interval, Turns(cfg, rules, f, r, k - 1), Turns(cfg, rules, f, r, k), k - 1, r.at[k - 1]);
    }
  }

  /** For every number of devices D and every poll interval N there is a two-round run after which the parallel total is
      limit - 1 + D * N: a device that still believed in one second left uses a whole interval. The bound is
      limit + D * N + 5, exclusive. */
  lemma OvershootIsReached(cfg: Setting, n: nat, interval: nat)
    requires cfg.mode == Parallel && 0 < n && 0 < interval < TK_LIMIT_PER_DAY
    ensures FitsRound(n, TightRules(interval), RoundOf(n, interval, 1))
            && FitsRound(n, TightRules(interval), RoundOf(n, interval, n))
    ensures Total(cfg, Rounds(cfg, TightRules(interval), n, [RoundOf(n, interval, 1), RoundOf(n, interval, n)]))
            == TightRules(interval).limit - 1 + n * interval
  {
    hide FleetInv, Turns, Rounds, RoundOf, StartFleet, FirstRound, SecondRound, Total, TightRules;
    RoundFits(n, interval, 1);
    RoundFits(n, interval, n);
    var rules, first, second := TightRules(interval), RoundOf(n, interval, 1), RoundOf(n, interval, n);
    TightRulesAreSane(interval);
    TwoRounds(cfg, rules, n, first, second);
    FirstRoundTurns(cfg, n, interval, n);
    RoundsKeepFleetInv(cfg, rules, n, [first]);
    var f := Rounds(cfg, rules, n, [first]);
    FirstRoundEnds(cfg, f, interval);
    SecondRoundTurns(cfg, n, interval, f, n);
    SecondRoundTotal(cfg, Turns(cfg, rules, f, second, n), interval, n);
  }

  lemma TightRulesAreSane(interval: nat)
    requires interval < TK_LIMIT_PER_DAY
    ensures TightRules(interval).Sane() && TightRules(interval).limit == interval + 1
  {
  }

  lemma TwoRounds(cfg: Setting, rules: Rules, n: nat, first: Round, second: Round)
    requires FitsRound(n, rules, first) && FitsRound(n, rules, second)
    ensures Rounds(cfg, rules, n, [first]) == Turns(cfg, rules, StartFleet(n, rules), first, n)
    ensures Rounds(cfg, rules, n, [first, second]) == Turns(cfg, rules, Rounds(cfg, rules, n, [first]), second, n)
  {
    hide Turns, FitsRound, StartFleet;
    assert [first][..0] == [] && [first, second][..1] == [first];
  }

  lemma FirstRoundEnds(cfg: Setting, f: Fleet, interval: nat)
    requires 0 < |f.daemons| == |f.sys.nodes| && FirstRound(cfg, f, interval, |f.daemons|)
    ensures SecondRound(cfg, f, interval, 0)
  {
    hide Total;
  }

  lemma SecondRoundTotal(cfg: Setting, f: Fleet, interval: nat, n: nat)
    requires |f.daemons| == |f.sys.nodes| && SecondRound(cfg, f, interval, n)
    ensures Total(cfg, f) == interval + n * interval
  {
    hide Total;
  }
}
