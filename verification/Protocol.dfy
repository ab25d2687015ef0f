/**
 * The pooled-budget protocol as a step system: any number of agents, one hub, arbitrary
 * observations, and syncs that succeed, are lost, are committed without being acknowledged,
 * or are refused. Everything here happens on one canonical day for one pooled user.
 */
module Protocol {
  import opened Basics
  import opened IntervalUnion
  import opened Sums
  import opened HubLedger
  import opened AgentTick

  /** What becomes of one /sync request. */
  datatype Link =
    | Delivered   // recorded, and the answer arrives
    | Lost        // never reaches the hub
    | Unacked     // recorded, but the answer is lost
    | Refused     // the device token is revoked; nothing is recorded

  /** `emitted` and `dropped` are histories: every span the agent produced, and every span its
      full buffer pushed out. `lastAt` is when it last ticked. */
  datatype Node = Node(agent: UserState, emitted: seq<Span>, dropped: seq<Span>, lastAt: int)

  datatype System = System(nodes: seq<Node>, tables: Tables)

  /** Fixed for a run: the pooled user, the canonical day and the accounting mode. */
  datatype Setting = Setting(user: UserId, day: DayNo, mode: AccountingMode)

  /** Device `device` ticks at `at`, sees `sight`; the hub would answer with these limits. */
  datatype Event = Event(device: int, at: int, sight: Sight, link: Link, limit: int, observe: bool,
                         offlinePolicy: OfflinePolicy, offlineGrace: int, offlineCap: int)

  function Initial(n: nat): System {
    System(seq(n, i => Node(NewUser(), [], [], 0)), Tables(map[], map[]))
  }

  predicate WellFormed(n: nat, e: Event) {
    0 <= e.device < n && 0 <= e.sight.spentDay
  }

  function RequestOf(cfg: Setting, m: Measurement, device: int): Report {
    Report(cfg.user, device, cfg.day, m.state.cumLocal, SpansToSend(m))
  }

  function TablesAfter(cfg: Setting, t: Tables, m: Measurement, e: Event): Tables {
    if e.link == Delivered || e.link == Unacked then Record(t, RequestOf(cfg, m, e.device)) else t
  }

  ghost function OutcomeOf(cfg: Setting, after: Tables, e: Event): Outcome {
    match e.link
    case Delivered =>
      Answered(Response(e.limit, GlobalSpent(after, cfg.user, cfg.day, cfg.mode), e.observe,
                        e.offlinePolicy, e.offlineGrace, e.offlineCap, MAX_POLL_MS))
    case Refused => DeviceRevoked
    case _ => Unreachable
  }

  /** What the buffer pushes out when this tick's span goes in. */
  function PushedOut(us: UserState, span: Option<Span>): seq<Span> {
    if span.Some? && |us.pending| >= MAX_PENDING_SPANS then us.pending[..|us.pending| + 1 - MAX_PENDING_SPANS] else []
  }

  ghost function NodeAfter(cfg: Setting, node: Node, after: Tables, e: Event): Node {
    var m := Measure(node.agent, e.sight, cfg.day, e.at);
    Node(Finish(m, e.sight, OutcomeOf(cfg, after, e), e.at).state,
         node.emitted + if m.span.Some? then [m.span.value] else [],
         node.dropped + if e.link == Delivered then [] else PushedOut(node.agent, m.span),
         e.at)
  }

  ghost function Step(cfg: Setting, s: System, e: Event): System
    requires 0 <= e.device < |s.nodes|
  {
    var node := s.nodes[e.device];
    var after := TablesAfter(cfg, s.tables, Measure(node.agent, e.sight, cfg.day, e.at), e);
    System(s.nodes[e.device := NodeAfter(cfg, node, after, e)], after)
  }

  ghost function Run(cfg: Setting, n: nat, events: seq<Event>): (s: System)
    requires forall e | e in events :: WellFormed(n, e)
    ensures |s.nodes| == n
  {
    if events == [] then
      Initial(n)
    else
      assert forall e | e in events[..|events| - 1] :: e in events;
      assert WellFormed(n, events[|events| - 1]);
      Step(cfg, Run(cfg, n, events[..|events| - 1]), events[|events| - 1])
  }

  // ---------- a step, seen from outside ----------

  function Opt(span: Option<Span>): seq<Span> {
    if span.Some? then [span.value] else []
  }

  /** How a tick moves one device: it burns, may emit a span, and either has its buffer acknowledged
      or appends to it, `pushed` falling off the front. */
  ghost predicate NodeMoves(cfg: Setting, node: Node, node': Node, at: int, burned: int, span: Option<Span>,
                            pushed: seq<Span>, acked: bool) {
    && 0 <= burned && node'.agent.cumLocal == node.agent.cumLocal + burned
    && node'.agent.day == Some(cfg.day)
    && (span.Some? ==> span.value.end == at && span.value.end - span.value.start <= burned)
    && node'.emitted == node.emitted + Opt(span)
    && node'.dropped == node.dropped + pushed
    && node'.lastAt == at
    && (acked ==> pushed == [] && node'.agent.pending == [])
    && (!acked ==> node.agent.pending + Opt(span) == pushed + node'.agent.pending)
    && (|node.agent.pending| <= MAX_PENDING_SPANS ==> |node'.agent.pending| <= MAX_PENDING_SPANS)
  }

  predicate Commits(link: Link) {
    link == Delivered || link == Unacked
  }

  ghost predicate Fits(cfg: Setting, node: Node) {
    node.agent.day == Some(cfg.day) || (node.agent.day == None && node.agent.cumLocal == 0)
  }

  lemma FinishKeepsMeasurement(m: Measurement, sight: Sight, outcome: Outcome, now: int)
    ensures var us := Finish(m, sight, outcome, now).state;
            && us.cumLocal == m.state.cumLocal && us.day == m.state.day
            && us.pending == if outcome.Answered? then [] else BufferUnsentSpan(m.state, m.span).pending
  {
  }

  lemma BufferingShifts(us: UserState, span: Option<Span>)
    ensures us.pending + Opt(span) == PushedOut(us, span) + BufferUnsentSpan(us, span).pending
    ensures |us.pending| <= MAX_PENDING_SPANS ==> |BufferUnsentSpan(us, span).pending| <= MAX_PENDING_SPANS
  {
  }

  /** What the ticking device reports. */
  function ReportOf(cfg: Setting, node: Node, device: int, burned: int, span: Option<Span>): Report {
    Report(cfg.user, device, cfg.day, node.agent.cumLocal + burned, node.agent.pending + Opt(span))
  }

  /** What a step does, without how: one device moves, and the hub records its report or nothing. */
  ghost predicate SystemMoves(cfg: Setting, s: System, s': System, e: Event, burned: int, span: Option<Span>,
                              pushed: seq<Span>) {
    && 0 <= e.device < |s.nodes| == |s'.nodes|
    && s'.nodes == s.nodes[e.device := s'.nodes[e.device]]
    && NodeMoves(cfg, s.nodes[e.device], s'.nodes[e.device], e.at, burned, span, pushed, e.link == Delivered)
    && s'.tables == if Commits(e.link) then Record(s.tables, ReportOf(cfg, s.nodes[e.device], e.device, burned, span))
                    else s.tables
  }

  lemma StepEffect(cfg: Setting, s: System, e: Event) returns (burned: int, span: Option<Span>, pushed: seq<Span>)
    requires WellFormed(|s.nodes|, e) && Fits(cfg, s.nodes[e.device])
    ensures SystemMoves(cfg, s, Step(cfg, s, e), e, burned, span, pushed)
    ensures e.link != Delivered ==> pushed == PushedOut(s.nodes[e.device].agent, span)
  {
    var node := s.nodes[e.device];
    var m := Measure(node.agent, e.sight, cfg.day, e.at);
    MeasureWithinDay(node.agent, e.sight, cfg.day, e.at);
    var after := TablesAfter(cfg, s.tables, m, e);
    FinishKeepsMeasurement(m, e.sight, OutcomeOf(cfg, after, e), e.at);
    BufferingShifts(m.state, m.span);
    burned, span := m.burned, m.span;
    pushed := if e.link == Delivered then [] else PushedOut(node.agent, m.span);
  }

  // ---------- what any step keeps on one device ----------

  /** The counter accounts for every emitted second, and the buffer is the newest part of the emissions. */
  ghost predicate NodeInv(cfg: Setting, node: Node) {
    && Fits(cfg, node)
    && |Covered(node.emitted)| <= node.agent.cumLocal
    && |node.agent.pending| <= MAX_PENDING_SPANS
    && Suffix(node.agent.pending, node.emitted)
  }

  predicate Suffix(a: seq<Span>, b: seq<Span>) {
    |a| <= |b| && a == b[|b| - |a|..]
  }

  lemma SuffixShifts(a: seq<Span>, b: seq<Span>, x: seq<Span>, pushed: seq<Span>, a': seq<Span>)
    requires Suffix(a, b) && a + x == pushed + a'
    ensures Suffix(a', b + x)
  {
    assert (b + x)[|b| - |a|..] == a + x;
    assert (b + x)[|b| - |a|..][|pushed|..] == a';
  }

  lemma EmissionCost(emitted: seq<Span>, span: Option<Span>, burned: int)
    requires 0 <= burned && (span.Some? ==> span.value.end - span.value.start <= burned)
    ensures |Covered(emitted + Opt(span))| <= |Covered(emitted)| + burned
  {
    if span.Some? {
      var s := span.value;
      CoveredAppend(emitted, s);
      UnionSize(Covered(emitted), Seconds(s));
      if s.start <= s.end {
        RangeSize(s.start, s.end);
      } else {
        assert Seconds(s) == {};
      }
    } else {
      assert emitted + [] == emitted;
    }
  }

  lemma NodeInvKept(cfg: Setting, node: Node, node': Node, at: int, burned: int, span: Option<Span>,
                    pushed: seq<Span>, acked: bool)
    requires NodeInv(cfg, node) && NodeMoves(cfg, node, node', at, burned, span, pushed, acked)
    ensures NodeInv(cfg, node')
  {
    EmissionCost(node.emitted, span, burned);
    if !acked {
      SuffixShifts(node.agent.pending, node.emitted, Opt(span), pushed, node'.agent.pending);
    }
  }

  // ---------- the wall-clock sandwich ----------

  ghost predicate AllNodes(cfg: Setting, s: System) {
    forall i | 0 <= i < |s.nodes| :: NodeInv(cfg, s.nodes[i])
  }

  /** Counters belong to this user, day and fleet, and trail the device's own. */
  ghost predicate CountersTrail(cfg: Setting, s: System) {
    forall k | k in s.tables.counters ::
      && k.user == cfg.user && k.day == cfg.day && 0 <= k.device < |s.nodes|
      && 0 <= s.tables.counters[k] <= s.nodes[k.device].agent.cumLocal
  }

  function CounterOf(cfg: Setting, device: DeviceId): CounterKey {
    CounterKey(cfg.user, device, cfg.day)
  }

  ghost predicate SpansHaveCounters(cfg: Setting, s: System) {
    forall k | k in s.tables.spans :: CounterOf(cfg, k.device) in s.tables.counters
  }

  ghost function SecondsOf(cfg: Setting, t: Tables, device: DeviceId): set<int> {
    DeviceSeconds(t, cfg.user, cfg.day, device)
  }

  /** Each device's recorded seconds were emitted by it and are paid for by its counter. */
  ghost predicate SecondsPaid(cfg: Setting, s: System) {
    && (forall i | 0 <= i < |s.nodes| :: SecondsOf(cfg, s.tables, i) <= Covered(s.nodes[i].emitted))
    && (forall k | k in s.tables.counters :: |SecondsOf(cfg, s.tables, k.device)| <= s.tables.counters[k])
  }

  ghost predicate LedgerInv(cfg: Setting, s: System) {
    AllNodes(cfg, s) && CountersTrail(cfg, s) && SpansHaveCounters(cfg, s) && SecondsPaid(cfg, s)
  }

  /** A commit's effect on the tables, for the device that reports and for all others. */
  lemma CommitEffect(cfg: Setting, t: Tables, r: Report)
    requires r.user == cfg.user && r.day == cfg.day
    ensures var t', k := Record(t, r), CounterOf(cfg, r.device);
            && t'.counters == t.counters[k := if k in t.counters then Max(t.counters[k], r.spent) else r.spent]
            && (forall j | j in t'.spans :: j in t.spans || j.device == r.device)
            && SecondsOf(cfg, t', r.device) <= SecondsOf(cfg, t, r.device) + Covered(r.spans)
            && (forall d | d != r.device :: SecondsOf(cfg, t', d) == SecondsOf(cfg, t, d))
  {
    InsertSpansKeys(t.spans, r.user, r.device, r.day, r.spans);
    RecordAddsReportedSeconds(t, r, cfg.user, cfg.day);
    forall d | d != r.device
      ensures SecondsOf(cfg, Record(t, r), d) == SecondsOf(cfg, t, d)
    {
    }
  }

  lemma SecondsPaidKept(cfg: Setting, s: System, s': System, r: Report)
    requires AllNodes(cfg, s') && SecondsPaid(cfg, s) && CountersTrail(cfg, s)
    requires 0 <= r.device < |s.nodes| == |s'.nodes| && r.user == cfg.user && r.day == cfg.day
    requires s'.tables == Record(s.tables, r)
    requires forall i | 0 <= i < |s.nodes| && i != r.device :: s'.nodes[i] == s.nodes[i]
    requires r.spent == s'.nodes[r.device].agent.cumLocal
    requires forall x | x in r.spans || x in s.nodes[r.device].emitted :: x in s'.nodes[r.device].emitted
    ensures SecondsPaid(cfg, s')
  {
    CommitEffect(cfg, s.tables, r);
    var emitted := s'.nodes[r.device].emitted;
    CoveredMembers(r.spans, emitted);
    CoveredMembers(s.nodes[r.device].emitted, emitted);
    assert SecondsOf(cfg, s'.tables, r.device) <= Covered(emitted);
    SubsetSize(SecondsOf(cfg, s'.tables, r.device), Covered(emitted));
    assert NodeInv(cfg, s'.nodes[r.device]);
  }

  lemma LedgerInvKept(cfg: Setting, s: System, e: Event)
    requires WellFormed(|s.nodes|, e) && LedgerInv(cfg, s)
    ensures LedgerInv(cfg, Step(cfg, s, e))
  {
    var node := s.nodes[e.device];
    assert NodeInv(cfg, node);
    var burned, span, pushed := StepEffect(cfg, s, e);
    LedgerInvMoves(cfg, s, Step(cfg, s, e), e, burned, span, pushed);
  }

  lemma AllNodesKept(cfg: Setting, s: System, s': System, i: int, node': Node)
    requires 0 <= i < |s.nodes| && AllNodes(cfg, s) && NodeInv(cfg, node') && s'.nodes == s.nodes[i := node']
    ensures AllNodes(cfg, s')
  {
    forall j | 0 <= j < |s'.nodes| ensures NodeInv(cfg, s'.nodes[j]) { assert NodeInv(cfg, s.nodes[j]); }
  }

  lemma LedgerInvMoves(cfg: Setting, s: System, s': System, e: Event, burned: int, span: Option<Span>,
                       pushed: seq<Span>)
    requires LedgerInv(cfg, s) && SystemMoves(cfg, s, s', e, burned, span, pushed)
    ensures LedgerInv(cfg, s')
  {
    var node, node' := s.nodes[e.device], s'.nodes[e.device];
    assert NodeInv(cfg, node);
    NodeInvKept(cfg, node, node', e.at, burned, span, pushed, e.link == Delivered);
    AllNodesKept(cfg, s, s', e.device, node');
    var r := ReportOf(cfg, node, e.device, burned, span);
    if Commits(e.link) {
      CountersTrailKept(cfg, s, s', r);
      SecondsPaidKept(cfg, s, s', r);
    } else {
      QuietStepKept(cfg, s, s', e.device);
    }
  }

  lemma CountersTrailKept(cfg: Setting, s: System, s': System, r: Report)
    requires CountersTrail(cfg, s) && SpansHaveCounters(cfg, s)
    requires 0 <= r.device < |s.nodes| == |s'.nodes| && r.user == cfg.user && r.day == cfg.day
    requires s'.tables == Record(s.tables, r)
    requires forall i | 0 <= i < |s.nodes| && i != r.device :: s'.nodes[i] == s.nodes[i]
    requires 0 <= r.spent == s'.nodes[r.device].agent.cumLocal && s.nodes[r.device].agent.cumLocal <= r.spent
    ensures CountersTrail(cfg, s') && SpansHaveCounters(cfg, s')
  {
    CommitEffect(cfg, s.tables, r);
  }

  /** Nothing recorded: the counter and the emissions of one device may only have grown. */
  lemma QuietStepKept(cfg: Setting, s: System, s': System, i: int)
    requires 0 <= i < |s.nodes| == |s'.nodes| && s'.tables == s.tables
    requires CountersTrail(cfg, s) && SpansHaveCounters(cfg, s) && SecondsPaid(cfg, s)
    requires forall j | 0 <= j < |s.nodes| && j != i :: s'.nodes[j] == s.nodes[j]
    requires s.nodes[i].agent.cumLocal <= s'.nodes[i].agent.cumLocal
    requires forall x | x in s.nodes[i].emitted :: x in s'.nodes[i].emitted
    ensures CountersTrail(cfg, s') && SpansHaveCounters(cfg, s') && SecondsPaid(cfg, s')
  {
    CoveredMembers(s.nodes[i].emitted, s'.nodes[i].emitted);
  }

  lemma InitialLedgerInv(cfg: Setting, n: nat)
    ensures LedgerInv(cfg, Initial(n))
  {
  }

  lemma {:induction false} RunLedgerInv(cfg: Setting, n: nat, events: seq<Event>)
    requires forall e | e in events :: WellFormed(n, e)
    ensures LedgerInv(cfg, Run(cfg, n, events))
  {
    if events == [] {
      InitialLedgerInv(cfg, n);
    } else {
      var before := events[..|events| - 1];
      assert forall e | e in before :: e in events;
      RunLedgerInv(cfg, n, before);
      LedgerInvKept(cfg, Run(cfg, n, before), events[|events| - 1]);
    }
  }

  /** The seconds recorded by any of the devices with a counter in `keys`. */
  ghost function SecondsOfAll(cfg: Setting, t: Tables, keys: set<CounterKey>): set<int> {
    set k, x | k in keys && x in SecondsOf(cfg, t, k.device) :: x
  }

  lemma SecondsOfAllRemove(cfg: Setting, t: Tables, keys: set<CounterKey>, k: CounterKey)
    requires k in keys
    ensures SecondsOfAll(cfg, t, keys) == SecondsOfAll(cfg, t, keys - {k}) + SecondsOf(cfg, t, k.device)
  {
  }

  /** Seconds covered by a set of devices are paid for by the sum of their counters. */
  lemma {:induction false} CountersPayForUnion(cfg: Setting, t: Tables, keys: set<CounterKey>)
    requires keys <= t.counters.Keys
    requires forall k | k in keys :: |SecondsOf(cfg, t, k.device)| <= t.counters[k]
    ensures |SecondsOfAll(cfg, t, keys)| <= SumOver(t.counters, keys)
  {
    if keys == {} {
      assert SecondsOfAll(cfg, t, keys) == {};
    } else {
      var k := Pick(keys);
      CountersPayForUnion(cfg, t, keys - {k});
      SecondsOfAllRemove(cfg, t, keys, k);
      UnionSize(SecondsOfAll(cfg, t, keys - {k}), SecondsOf(cfg, t, k.device));
      SumOverRemove(t.counters, keys, k);
    }
  }

  lemma CoveredByDevices(cfg: Setting, s: System)
    requires SpansHaveCounters(cfg, s)
    ensures CoveredSeconds(s.tables, cfg.user, cfg.day) <= SecondsOfAll(cfg, s.tables, s.tables.counters.Keys)
  {
    var t := s.tables;
    forall x | x in CoveredSeconds(t, cfg.user, cfg.day)
      ensures x in SecondsOfAll(cfg, t, t.counters.Keys)
    {
      var k :| k in t.spans && t.spans[k].user == cfg.user && t.spans[k].day == cfg.day && x in Seconds(t.spans[k].span);
      assert x in SecondsOf(cfg, t, CounterOf(cfg, k.device).device);
    }
  }

  /** In every run: each device's counter <= the wall-clock total <= the sum of the devices' counters.
      So "burn once" never charges less than any device proves, nor more than "parallel" would. */
  lemma WallclockSandwich(cfg: Setting, n: nat, events: seq<Event>)
    requires forall e | e in events :: WellFormed(n, e)
    ensures var t := Run(cfg, n, events).tables;
            && (forall k | k in t.counters :: t.counters[k] <= GlobalWallclock(t, cfg.user, cfg.day))
            && GlobalWallclock(t, cfg.user, cfg.day) <= GlobalParallel(t, cfg.user, cfg.day)
  {
    RunLedgerInv(cfg, n, events);
    SandwichFromLedger(cfg, Run(cfg, n, events));
  }

  lemma SandwichFromLedger(cfg: Setting, s: System)
    requires LedgerInv(cfg, s)
    ensures var t := s.tables;
            && (forall k | k in t.counters :: t.counters[k] <= GlobalWallclock(t, cfg.user, cfg.day))
            && GlobalWallclock(t, cfg.user, cfg.day) <= GlobalParallel(t, cfg.user, cfg.day)
  {
    hide AllNodes, SumOver, MaxOf;
    var t := s.tables;
    var keys := CounterKeys(t, cfg.user, cfg.day);
    assert keys == t.counters.Keys;
    var values := set k | k in keys :: t.counters[k];
    forall k | k in t.counters
      ensures t.counters[k] <= MaxOf(values)
    {
      assert k in keys && t.counters[k] in values;
    }
    CountersPayForUnion(cfg, t, keys);
    CoveredByDevices(cfg, s);
    SubsetSize(CoveredSeconds(t, cfg.user, cfg.day), SecondsOfAll(cfg, t, keys));
    MaxWithinSum(t.counters, keys, values);
  }

  lemma MaxWithinSum(m: map<CounterKey, int>, keys: set<CounterKey>, values: set<int>)
    requires keys <= m.Keys && (forall k | k in keys :: 0 <= m[k])
    requires values == set k | k in keys :: m[k]
    ensures MaxOf(values) <= SumOver(m, keys)
  {
    SumOverNonNegative(m, keys);
    if values != {} {
      var k :| k in keys && m[k] == MaxOf(values);
      SumOverRemove(m, keys, k);
      SumOverNonNegative(m, keys - {k});
    }
  }

  // ---------- span conservation ----------

  /** When device `i` last ticked, 0 if it has not. */
  function LastAt(events: seq<Event>, i: int): int {
    if events == [] then 0
    else if events[|events| - 1].device == i then events[|events| - 1].at
    else LastAt(events[..|events| - 1], i)
  }

  /** Each device's clock advances strictly from one of its ticks to the next, starting after 0. */
  predicate ClocksAdvance(events: seq<Event>) {
    events == [] ||
    var before, e := events[..|events| - 1], events[|events| - 1];
    ClocksAdvance(before) && LastAt(before, e.device) < e.at
  }

  ghost predicate Stored(t: Tables, device: int, s: Span) {
    SpanKey(device, s.end) in t.spans && t.spans[SpanKey(device, s.end)].span == s
  }

  ghost predicate Kept(s: System, i: int, span: Span)
    requires 0 <= i < |s.nodes|
  {
    || span.end <= span.start
    || Stored(s.tables, i, span)
    || span in s.nodes[i].agent.pending
    || span in s.nodes[i].dropped
  }

  ghost predicate DistinctEnds(spans: seq<Span>) {
    forall i, j | 0 <= i < j < |spans| :: spans[i].end < spans[j].end
  }

  /** Nothing emitted is unaccounted for; ends are distinct; the hub holds only what was emitted. */
  ghost predicate ConservationInv(cfg: Setting, s: System) {
    && AllNodes(cfg, s)
    && EndsDistinct(s)
    && (forall i, x | 0 <= i < |s.nodes| && x in s.nodes[i].emitted :: Kept(s, i, x))
    && HubHoldsEmissions(s)
  }

  ghost predicate HubHoldsEmissions(s: System) {
    forall k | k in s.tables.spans ::
      && 0 <= k.device < |s.nodes| && s.tables.spans[k].span in s.nodes[k.device].emitted
      && s.tables.spans[k].span.end == k.windowEnd
  }

  lemma SameEndSameSpan(spans: seq<Span>, a: Span, b: Span)
    requires DistinctEnds(spans) && a in spans && b in spans && a.end == b.end
    ensures a == b
  {
    var i :| 0 <= i < |spans| && spans[i] == a;
    var j :| 0 <= j < |spans| && spans[j] == b;
  }

  /** A commit stores every non-degenerate span of the request, under its own key. */
  lemma CommitStores(cfg: Setting, t: Tables, r: Report, emitted: seq<Span>)
    requires DistinctEnds(emitted) && forall x | x in r.spans :: x in emitted
    requires forall k | k in t.spans && k.device == r.device ::
               t.spans[k].span in emitted && t.spans[k].span.end == k.windowEnd
    ensures forall x | x in r.spans && x.start < x.end :: Stored(Record(t, r), r.device, x)
    ensures forall i, x :: Stored(t, i, x) ==> Stored(Record(t, r), i, x)
  {
    InsertSpansKeys(t.spans, r.user, r.device, r.day, r.spans);
    forall x | x in r.spans && x.start < x.end
      ensures Stored(Record(t, r), r.device, x)
    {
      var k := SpanKey(r.device, x.end);
      SameEndSameSpan(emitted, x, Record(t, r).spans[k].span);
    }
  }

  /** One tick's effect on the emissions: at most one new span, ending now. */
  lemma EmissionsGrow(emitted: seq<Span>, lastAt: int, span: Option<Span>, at: int)
    requires DistinctEnds(emitted) && (forall x | x in emitted :: x.end <= lastAt)
    requires lastAt < at && (span.Some? ==> span.value.end == at)
    ensures DistinctEnds(emitted + Opt(span))
    ensures forall x | x in emitted + Opt(span) :: x.end <= at
  {
  }

  lemma ConservationKept(cfg: Setting, s: System, e: Event)
    requires WellFormed(|s.nodes|, e) && ConservationInv(cfg, s) && s.nodes[e.device].lastAt < e.at
    ensures ConservationInv(cfg, Step(cfg, s, e))
  {
    assert NodeInv(cfg, s.nodes[e.device]);
    var burned, span, pushed := StepEffect(cfg, s, e);
    ConservationMoves(cfg, s, Step(cfg, s, e), e, burned, span, pushed);
  }

  lemma ConservationMoves(cfg: Setting, s: System, s': System, e: Event, burned: int, span: Option<Span>,
                          pushed: seq<Span>)
    requires ConservationInv(cfg, s) && SystemMoves(cfg, s, s', e, burned, span, pushed)
    requires s.nodes[e.device].lastAt < e.at
    ensures ConservationInv(cfg, s')
  {
    var node, node' := s.nodes[e.device], s'.nodes[e.device];
    assert NodeInv(cfg, node);
    NodeInvKept(cfg, node, node', e.at, burned, span, pushed, e.link == Delivered);
    AllNodesKept(cfg, s, s', e.device, node');
    EndsStayDistinct(cfg, s, s', e, burned, span, pushed);
    var r := ReportOf(cfg, node, e.device, burned, span);
    SuffixSent(node, r.spans, node'.emitted, span);
    StoredKept(cfg, s, s', r, Commits(e.link));
    forall i, x | 0 <= i < |s'.nodes| && x in s'.nodes[i].emitted
      ensures Kept(s', i, x)
    {
      if i != e.device {
        assert Kept(s, i, x);
      } else {
        NothingVanishes(s, s', i, r.spans, pushed, Commits(e.link), span, x);
      }
    }
  }

  lemma SuffixSent(node: Node, sent: seq<Span>, emitted': seq<Span>, span: Option<Span>)
    requires Suffix(node.agent.pending, node.emitted)
    requires sent == node.agent.pending + Opt(span) && emitted' == node.emitted + Opt(span)
    ensures forall x | x in sent || x in node.emitted :: x in emitted'
  {
  }

  ghost predicate EndsDistinct(s: System) {
    && (forall i | 0 <= i < |s.nodes| :: DistinctEnds(s.nodes[i].emitted))
    && (forall i, x | 0 <= i < |s.nodes| && x in s.nodes[i].emitted :: x.end <= s.nodes[i].lastAt)
  }

  lemma EndsStayDistinct(cfg: Setting, s: System, s': System, e: Event, burned: int, span: Option<Span>,
                         pushed: seq<Span>)
    requires EndsDistinct(s) && SystemMoves(cfg, s, s', e, burned, span, pushed)
    requires s.nodes[e.device].lastAt < e.at
    ensures EndsDistinct(s')
  {
    EmissionsGrow(s.nodes[e.device].emitted, s.nodes[e.device].lastAt, span, e.at);
  }

  lemma StoredKept(cfg: Setting, s: System, s': System, r: Report, commits: bool)
    requires 0 <= r.device < |s.nodes| == |s'.nodes|
    requires HubHoldsEmissions(s)
    requires forall i | 0 <= i < |s.nodes| && i != r.device :: s'.nodes[i] == s.nodes[i]
    requires forall x | x in r.spans || x in s.nodes[r.device].emitted :: x in s'.nodes[r.device].emitted
    requires DistinctEnds(s'.nodes[r.device].emitted)
    requires s'.tables == if commits then Record(s.tables, r) else s.tables
    ensures HubHoldsEmissions(s')
    ensures forall i, x :: Stored(s.tables, i, x) ==> Stored(s'.tables, i, x)
    ensures commits ==> forall x | x in r.spans && x.start < x.end :: Stored(s'.tables, r.device, x)
  {
    CommitStores(cfg, s.tables, r, s'.nodes[r.device].emitted);
    InsertSpansKeys(s.tables.spans, r.user, r.device, r.day, r.spans);
  }

  /** A span of the ticking device that was kept, or that it has just sent or buffered, is still kept. */
  lemma NothingVanishes(s: System, s': System, i: int, sent: seq<Span>, pushed: seq<Span>, commits: bool,
                        span: Option<Span>, x: Span)
    requires 0 <= i < |s.nodes| == |s'.nodes|
    requires x in s.nodes[i].emitted + Opt(span)
    requires x in s.nodes[i].emitted ==> Kept(s, i, x)
    requires sent == s.nodes[i].agent.pending + Opt(span)
    requires s'.nodes[i].dropped == s.nodes[i].dropped + pushed
    requires forall y :: Stored(s.tables, i, y) ==> Stored(s'.tables, i, y)
    requires commits ==> forall y | y in sent && y.start < y.end :: Stored(s'.tables, i, y)
    requires !commits ==> sent == pushed + s'.nodes[i].agent.pending
    ensures Kept(s', i, x)
  {
    if x in sent && !commits {
      assert x in pushed + s'.nodes[i].agent.pending;
    }
  }

  lemma {:induction false} RunConserves(cfg: Setting, n: nat, events: seq<Event>)
    requires (forall e | e in events :: WellFormed(n, e)) && ClocksAdvance(events)
    ensures ConservationInv(cfg, Run(cfg, n, events))
    ensures forall i | 0 <= i < n :: Run(cfg, n, events).nodes[i].lastAt == LastAt(events, i)
  {
    if events != [] {
      var before, e := events[..|events| - 1], events[|events| - 1];
      assert (forall x | x in before :: x in events) && e in events;
      RunConserves(cfg, n, before);
      ConservationKept(cfg, Run(cfg, n, before), e);
    }
  }

  /** No lost spans: in every run, each non-degenerate span a device produced is in the hub's table as
      it was produced, still buffered, or was pushed out of a full buffer. The buffer never exceeds its
      cap and always holds the newest spans, so what is pushed out is oldest. */
  lemma SpanConservation(cfg: Setting, n: nat, events: seq<Event>, i: int, x: Span)
    requires (forall e | e in events :: WellFormed(n, e)) && ClocksAdvance(events) && 0 <= i < n
    ensures var s := Run(cfg, n, events);
            && (x in s.nodes[i].emitted && x.start < x.end ==>
                  Stored(s.tables, i, x) || x in s.nodes[i].agent.pending || x in s.nodes[i].dropped)
            && |s.nodes[i].agent.pending| <= MAX_PENDING_SPANS
            && Suffix(s.nodes[i].agent.pending, s.nodes[i].emitted)
  {
    RunConserves(cfg, n, events);
    var s := Run(cfg, n, events);
    assert NodeInv(cfg, s.nodes[i]);
    if x in s.nodes[i].emitted {
      assert Kept(s, i, x);
    }
  }

  /** A tick drops a span only on failure, only with the buffer at its cap, and then exactly the oldest one. */
  lemma DropsOnlyFromAFullBuffer(cfg: Setting, s: System, e: Event)
    requires WellFormed(|s.nodes|, e) && LedgerInv(cfg, s)
    ensures var node, node' := s.nodes[e.device], Step(cfg, s, e).nodes[e.device];
            node'.dropped != node.dropped ==>
              && e.link != Delivered
              && |node.agent.pending| == MAX_PENDING_SPANS
              && node'.dropped == node.dropped + [node.agent.pending[0]]
              && node'.agent.pending[..MAX_PENDING_SPANS - 1] == node.agent.pending[1..]
  {
    assert NodeInv(cfg, s.nodes[e.device]);
    var burned, span, pushed := StepEffect(cfg, s, e);
  }
}
