/**
 * The batched, day-by-day and window forms of the hub's totals, against the single-user, single-day ones.
 */
module SpendQueries {
  import opened Basics
  import opened Grouping
  import opened IntervalUnion
  import opened Sums
  import opened HubLedger
  import opened Protocol

  // ---------- the grouped queries, as folds over the rows ----------

  ghost predicate HasSpans(t: Tables, user: UserId, day: DayNo) {
    exists k :: k in t.spans && t.spans[k].user == user && t.spans[k].day == day
  }

  predicate HasCounters(t: Tables, user: UserId, day: DayNo) {
    CounterKeys(t, user, day) != {}
  }

  /** FULL OUTER JOIN of two grouped columns, each missing side read as 0, the larger taken. */
  function JoinGreatest<K>(a: map<K, int>, b: map<K, int>): map<K, int> {
    map k | k in a.Keys + b.Keys :: Max(Get(a, k, 0), Get(b, k, 0))
  }

  /** `SUM(upper(r) - lower(r))` over the unnested ranges of each group. */
  function Lengths<K>(m: map<K, set<int>>): map<K, int> {
    map k | k in m :: |m[k]|
  }

  ghost function SpanSeconds(t: Tables): map<SpanKey, set<int>> {
    map k | k in t.spans :: Seconds(t.spans[k].span)
  }

  predicate DayWithin(start: DayNo, d: DayNo, end: DayNo) {
    start <= d <= end
  }

  /** WHERE user_id IN users AND day = day, grouped by user. */
  function CountersByUser(t: Tables, users: set<UserId>, day: DayNo): map<CounterKey, UserId> {
    map k | k in t.counters && k.user in users && k.day == day :: k.user
  }

  function SpansByUser(t: Tables, users: set<UserId>, day: DayNo): map<SpanKey, UserId> {
    map k | k in t.spans && t.spans[k].user in users && t.spans[k].day == day :: t.spans[k].user
  }

  /** WHERE user_id = user AND day BETWEEN start AND end, grouped by day. */
  function CountersByDay(t: Tables, user: UserId, start: DayNo, end: DayNo): map<CounterKey, DayNo> {
    map k | k in t.counters && k.user == user && DayWithin(start, k.day, end) :: k.day
  }

  function SpansByDay(t: Tables, user: UserId, start: DayNo, end: DayNo): map<SpanKey, DayNo> {
    map k | k in t.spans && t.spans[k].user == user && DayWithin(start, t.spans[k].day, end) :: t.spans[k].day
  }

  ghost function WallclockBatch(t: Tables, users: set<UserId>, day: DayNo): map<UserId, int> {
    var spans, counters := SpansByUser(t, users, day), CountersByUser(t, users, day);
    JoinGreatest(Lengths(GroupUnion(spans, SpanSeconds(t), spans.Keys)), GroupMax(counters, t.counters, counters.Keys))
  }

  ghost function ParallelBatch(t: Tables, users: set<UserId>, day: DayNo): map<UserId, int> {
    var counters := CountersByUser(t, users, day);
    GroupSum(counters, t.counters, counters.Keys)
  }

  ghost function WallclockHistory(t: Tables, user: UserId, start: DayNo, end: DayNo): map<DayNo, int> {
    var spans, counters := SpansByDay(t, user, start, end), CountersByDay(t, user, start, end);
    JoinGreatest(Lengths(GroupUnion(spans, SpanSeconds(t), spans.Keys)), GroupMax(counters, t.counters, counters.Keys))
  }

  ghost function WallclockWindow(t: Tables, user: UserId, start: DayNo, end: DayNo): int {
    SumOver(WallclockHistory(t, user, start, end), WallclockHistory(t, user, start, end).Keys)
  }

  function CounterKeysBetween(t: Tables, user: UserId, start: DayNo, end: DayNo): set<CounterKey> {
    set k | k in t.counters && k.user == user && DayWithin(start, k.day, end)
  }

  ghost function ParallelWindow(t: Tables, user: UserId, start: DayNo, end: DayNo): int {
    SumOver(t.counters, CounterKeysBetween(t, user, start, end))
  }

  // ---------- the simple forms ----------

  ghost function SumOfDays(t: Tables, user: UserId, start: DayNo, end: DayNo, mode: AccountingMode): int
    decreases end - start
  {
    if end < start then 0
    else SumOfDays(t, user, start, end - 1, mode) + GlobalSpent(t, user, end, mode)
  }

  /** A group whose rows are one user's spans of one day has that user's covered seconds. */
  lemma UnionColumnIs<G>(t: Tables, group: map<SpanKey, G>, g: G, user: UserId, day: DayNo)
    requires group.Keys <= t.spans.Keys
    requires forall k :: k in RowsOf(group, group.Keys, g) <==> k in t.spans && t.spans[k].user == user && t.spans[k].day == day
    ensures var column := GroupUnion(group, SpanSeconds(t), group.Keys);
            (g in column <==> HasSpans(t, user, day)) && Get(Lengths(column), g, 0) == |CoveredSeconds(t, user, day)|
  {
    GroupUnionIs(group, SpanSeconds(t), group.Keys, g);
    var column := GroupUnion(group, SpanSeconds(t), group.Keys);
    assert Get(column, g, {}) == CoveredSeconds(t, user, day);
    assert HasSpans(t, user, day) ==> RowsOf(group, group.Keys, g) != {};
  }

  /** A group whose rows are one user's counters of one day has their maximum, and their sum. */
  lemma CounterColumnIs<G>(t: Tables, group: map<CounterKey, G>, g: G, user: UserId, day: DayNo)
    requires group.Keys <= t.counters.Keys && RowsOf(group, group.Keys, g) == CounterKeys(t, user, day)
    ensures var largest, total := GroupMax(group, t.counters, group.Keys), GroupSum(group, t.counters, group.Keys);
            && (g in largest <==> HasCounters(t, user, day)) && Get(largest, g, 0) == MaxCounter(t, user, day)
            && (g in total <==> HasCounters(t, user, day)) && Get(total, g, 0) == GlobalParallel(t, user, day)
  {
    GroupMaxIs(group, t.counters, group.Keys, g);
    GroupSumIs(group, t.counters, group.Keys, g);
    var keys := CounterKeys(t, user, day);
    var values := set k | k in keys :: t.counters[k];
    if keys == {} {
      assert values == {};
    } else {
      MaxOfIs(values, GroupMax(group, t.counters, group.Keys)[g]);
    }
  }

  /** A user's entry in either batch, read as 0 when absent, is that user's own query; it is absent exactly
      when the user has no row that day. */
  lemma BatchMatchesSingle(t: Tables, users: set<UserId>, day: DayNo, user: UserId)
    requires user in users
    ensures Get(WallclockBatch(t, users, day), user, 0) == GlobalWallclock(t, user, day)
    ensures Get(ParallelBatch(t, users, day), user, 0) == GlobalParallel(t, user, day)
    ensures user in WallclockBatch(t, users, day) <==> HasSpans(t, user, day) || HasCounters(t, user, day)
    ensures user in ParallelBatch(t, users, day) <==> HasCounters(t, user, day)
  {
    hide GroupUnion, GroupMax, GroupSum, CoveredSeconds, MaxCounter, GlobalParallel, HasSpans, HasCounters, SumOver;
    UnionColumnIs(t, SpansByUser(t, users, day), user, user, day);
    CounterColumnIs(t, CountersByUser(t, users, day), user, user, day);
    NoRowsNoSpend(t, user, day);
  }

  /** Nobody else turns up in a batch. */
  lemma BatchStaysInside(t: Tables, users: set<UserId>, day: DayNo, user: UserId)
    requires user in WallclockBatch(t, users, day) || user in ParallelBatch(t, users, day)
    ensures user in users
  {
    var spans, counters := SpansByUser(t, users, day), CountersByUser(t, users, day);
    GroupUnionIs(spans, SpanSeconds(t), spans.Keys, user);
    GroupMaxIs(counters, t.counters, counters.Keys, user);
    GroupSumIs(counters, t.counters, counters.Keys, user);
    hide GroupUnion, GroupMax, GroupSum, SumOver;
    if user in GroupUnion(spans, SpanSeconds(t), spans.Keys) {
      var k := Pick(RowsOf(spans, spans.Keys, user));
      assert k in spans;
    } else {
      var k := Pick(RowsOf(counters, counters.Keys, user));
      assert k in counters;
    }
  }

  /** COALESCE: without rows the union and the maximum are 0. */
  lemma NoRowsNoSpend(t: Tables, user: UserId, day: DayNo)
    ensures GlobalWallclock(t, user, day) == Max(|CoveredSeconds(t, user, day)|, MaxCounter(t, user, day))
    ensures !HasSpans(t, user, day) ==> |CoveredSeconds(t, user, day)| == 0
    ensures !HasCounters(t, user, day) ==> MaxCounter(t, user, day) == 0
  {
    if !HasSpans(t, user, day) {
      assert CoveredSeconds(t, user, day) == {};
    }
    var values := set k | k in CounterKeys(t, user, day) :: t.counters[k];
    if !HasCounters(t, user, day) {
      assert values == {};
    }
  }

  lemma HistoryMatchesSingle(t: Tables, user: UserId, start: DayNo, end: DayNo, day: DayNo)
    requires start <= day <= end
    ensures Get(WallclockHistory(t, user, start, end), day, 0) == GlobalWallclock(t, user, day)
    ensures day in WallclockHistory(t, user, start, end) <==> HasSpans(t, user, day) || HasCounters(t, user, day)
  {
    hide GroupUnion, GroupMax, GroupSum, CoveredSeconds, MaxCounter, GlobalParallel, HasSpans, HasCounters, SumOver;
    assert DayWithin(start, day, end);
    UnionColumnIs(t, SpansByDay(t, user, start, end), day, user, day);
    CounterColumnIs(t, CountersByDay(t, user, start, end), day, user, day);
    NoRowsNoSpend(t, user, day);
  }

  lemma HistoryStaysInside(t: Tables, user: UserId, start: DayNo, end: DayNo, day: DayNo)
    requires day in WallclockHistory(t, user, start, end)
    ensures start <= day <= end
  {
    var spans, counters := SpansByDay(t, user, start, end), CountersByDay(t, user, start, end);
    GroupUnionIs(spans, SpanSeconds(t), spans.Keys, day);
    GroupMaxIs(counters, t.counters, counters.Keys, day);
    hide GroupUnion, GroupMax;
    if day in GroupUnion(spans, SpanSeconds(t), spans.Keys) {
      var k := Pick(RowsOf(spans, spans.Keys, day));
      assert DayWithin(start, t.spans[k].day, end);
    } else {
      var k := Pick(RowsOf(counters, counters.Keys, day));
      assert DayWithin(start, k.day, end);
    }
  }

  lemma HistoryGrowsByADay(t: Tables, user: UserId, start: DayNo, end: DayNo)
    requires start <= end
    ensures var shorter, longer := WallclockHistory(t, user, start, end - 1), WallclockHistory(t, user, start, end);
            && end !in shorter
            && longer.Keys == shorter.Keys + (if end in longer then {end} else {})
            && (forall d | d in shorter :: longer[d] == shorter[d])
  {
    hide WallclockHistory, GlobalWallclock, HasSpans, HasCounters;
    var shorter, longer := WallclockHistory(t, user, start, end - 1), WallclockHistory(t, user, start, end);
    if end in shorter {
      HistoryStaysInside(t, user, start, end - 1, end);
      assert false;
    }
    forall d: DayNo
      ensures d in longer.Keys <==> d in shorter.Keys || (d == end && end in longer)
      ensures d in shorter ==> longer[d] == shorter[d]
    {
      if start <= d < end {
        HistoryMatchesSingle(t, user, start, end - 1, d);
        HistoryMatchesSingle(t, user, start, end, d);
      } else {
        if d in longer {
          HistoryStaysInside(t, user, start, end, d);
        }
        if d in shorter {
          HistoryStaysInside(t, user, start, end - 1, d);
        }
      }
    }
  }

  /** The wall-clock window is the sum of its days' own totals; a day without rows counts 0. */
  lemma {:induction false} WallclockWindowIsSumOfDays(t: Tables, user: UserId, start: DayNo, end: DayNo)
    ensures WallclockWindow(t, user, start, end) == SumOfDays(t, user, start, end, Wallclock)
    decreases end - start
  {
    hide WallclockHistory, GlobalWallclock, GlobalParallel;
    if end < start {
      EmptyHistory(t, user, start, end);
    } else {
      WallclockWindowIsSumOfDays(t, user, start, end - 1);
      HistoryGrowsByADay(t, user, start, end);
      HistoryMatchesSingle(t, user, start, end, end);
      var shorter, longer := WallclockHistory(t, user, start, end - 1), WallclockHistory(t, user, start, end);
      OneMoreEntry(shorter, longer, end);
    }
  }

  lemma EmptyHistory(t: Tables, user: UserId, start: DayNo, end: DayNo)
    requires end < start
    ensures WallclockHistory(t, user, start, end) == map[]
  {
    hide WallclockHistory;
    forall d: DayNo ensures d !in WallclockHistory(t, user, start, end) {
      if d in WallclockHistory(t, user, start, end) {
        HistoryStaysInside(t, user, start, end, d);
        assert false;
      }
    }
  }

  lemma OneMoreEntry(shorter: map<DayNo, int>, longer: map<DayNo, int>, end: DayNo)
    requires end !in shorter && longer.Keys == shorter.Keys + (if end in longer then {end} else {})
    requires forall d | d in shorter :: longer[d] == shorter[d]
    ensures SumOver(longer, longer.Keys) == SumOver(shorter, shorter.Keys) + Get(longer, end, 0)
  {
    forall d | d in shorter.Keys
      ensures shorter[d] == longer[d]
    {
      assert d in shorter;
    }
    SumOverAgree(shorter, longer, shorter.Keys);
    if end in longer {
      SumOverRemove(longer, longer.Keys, end);
      assert longer.Keys - {end} == shorter.Keys;
    } else {
      assert longer.Keys == shorter.Keys;
    }
  }

  /** So is the parallel window. */
  lemma {:induction false} ParallelWindowIsSumOfDays(t: Tables, user: UserId, start: DayNo, end: DayNo)
    ensures ParallelWindow(t, user, start, end) == SumOfDays(t, user, start, end, Parallel)
    decreases end - start
  {
    if end < start {
      assert CounterKeysBetween(t, user, start, end) == {};
    } else {
      ParallelWindowIsSumOfDays(t, user, start, end - 1);
      var before, last := CounterKeysBetween(t, user, start, end - 1), CounterKeys(t, user, end);
      assert CounterKeysBetween(t, user, start, end) == before + last;
      SumOverSplit(t.counters, before, last);
    }
  }

  // ---------- history is always wall-clock ----------

  /** At most one device has counted anything. */
  predicate AtMostOneNonZero(m: map<CounterKey, int>, keys: set<CounterKey>)
    requires keys <= m.Keys
  {
    forall j, k | j in keys && k in keys && m[j] != 0 && m[k] != 0 :: j == k
  }

  lemma MaxIsSumIff(m: map<CounterKey, int>, keys: set<CounterKey>, values: set<int>)
    requires keys <= m.Keys && (forall k | k in keys :: 0 <= m[k]) && values == set k | k in keys :: m[k]
    ensures MaxOf(values) <= SumOver(m, keys)
    ensures MaxOf(values) == SumOver(m, keys) <==> AtMostOneNonZero(m, keys)
  {
    SumOverNonNegative(m, keys);
    if keys != {} {
      assert exists k :: k in keys && m[k] == MaxOf(values) by {
        var k := Pick(keys);
        assert m[k] in values;
      }
      var top :| top in keys && m[top] == MaxOf(values);
      SumOverRemove(m, keys, top);
      SumOverNonNegative(m, keys - {top});
      SumIsZeroIff(m, keys - {top});
      if AtMostOneNonZero(m, keys) && m[top] == 0 {
        forall k | k in keys ensures m[k] == 0 { assert m[k] in values; }
      }
    } else {
      assert values == {};
    }
  }

  lemma {:induction false} SumIsZeroIff(m: map<CounterKey, int>, keys: set<CounterKey>)
    requires keys <= m.Keys && forall k | k in keys :: 0 <= m[k]
    ensures SumOver(m, keys) == 0 <==> forall k | k in keys :: m[k] == 0
  {
    if keys != {} {
      var k := Pick(keys);
      SumOverRemove(m, keys, k);
      SumOverNonNegative(m, keys - {k});
      SumIsZeroIff(m, keys - {k});
    }
  }

  /** Every second a device was charged for is on record. */
  ghost predicate FullyRecorded(cfg: Setting, t: Tables, keys: set<CounterKey>)
    requires keys <= t.counters.Keys
  {
    forall k | k in keys :: |SecondsOf(cfg, t, k.device)| == t.counters[k]
  }

  /** No two devices recorded the same second. */
  ghost predicate Apart(cfg: Setting, t: Tables, keys: set<CounterKey>) {
    forall j, k | j in keys && k in keys && j != k :: SecondsOf(cfg, t, j.device) !! SecondsOf(cfg, t, k.device)
  }

  /** The recorded seconds add up to the counters exactly when nothing is unrecorded and nothing overlaps. */
  lemma {:induction false} UnionIsSumIff(cfg: Setting, t: Tables, keys: set<CounterKey>)
    requires keys <= t.counters.Keys
    requires forall k | k in keys :: |SecondsOf(cfg, t, k.device)| <= t.counters[k]
    ensures |SecondsOfAll(cfg, t, keys)| <= SumOver(t.counters, keys)
    ensures |SecondsOfAll(cfg, t, keys)| == SumOver(t.counters, keys) <==>
            FullyRecorded(cfg, t, keys) && Apart(cfg, t, keys)
  {
    hide SecondsOf;
    if keys == {} {
      assert SecondsOfAll(cfg, t, keys) == {};
    } else {
      var k := Pick(keys);
      UnionIsSumIff(cfg, t, keys - {k});
      SecondsOfAllRemove(cfg, t, keys, k);
      UnionSize(SecondsOfAll(cfg, t, keys - {k}), SecondsOf(cfg, t, k.device));
      SumOverRemove(t.counters, keys, k);
      ApartFromRest(cfg, t, keys, k);
    }
  }

  lemma ApartFromRest(cfg: Setting, t: Tables, keys: set<CounterKey>, k: CounterKey)
    requires k in keys
    ensures Apart(cfg, t, keys) <==>
            Apart(cfg, t, keys - {k}) && SecondsOfAll(cfg, t, keys - {k}) !! SecondsOf(cfg, t, k.device)
  {
    hide SecondsOf;
    if Apart(cfg, t, keys) {
      forall x | x in SecondsOfAll(cfg, t, keys - {k})
        ensures x !in SecondsOf(cfg, t, k.device)
      {
        var j :| j in keys - {k} && x in SecondsOf(cfg, t, j.device);
      }
    }
    if Apart(cfg, t, keys - {k}) && SecondsOfAll(cfg, t, keys - {k}) !! SecondsOf(cfg, t, k.device) {
      forall j | j in keys - {k}
        ensures SecondsOf(cfg, t, j.device) !! SecondsOf(cfg, t, k.device)
      {
        forall x | x in SecondsOf(cfg, t, j.device)
          ensures x in SecondsOfAll(cfg, t, keys - {k})
        {
        }
      }
    }
  }

  lemma CoveredIsAllDevices(cfg: Setting, s: System)
    requires SpansHaveCounters(cfg, s)
    ensures CoveredSeconds(s.tables, cfg.user, cfg.day) == SecondsOfAll(cfg, s.tables, s.tables.counters.Keys)
  {
    CoveredByDevices(cfg, s);
    assert forall k :: SecondsOf(cfg, s.tables, k) <= CoveredSeconds(s.tables, cfg.user, cfg.day);
  }

  lemma HistoryAgreesFromLedger(cfg: Setting, s: System)
    requires LedgerInv(cfg, s)
    ensures var t := s.tables;
            GlobalWallclock(t, cfg.user, cfg.day) == GlobalParallel(t, cfg.user, cfg.day) <==>
            || AtMostOneNonZero(t.counters, t.counters.Keys)
            || (FullyRecorded(cfg, t, t.counters.Keys) && Apart(cfg, t, t.counters.Keys))
  {
    var t := s.tables;
    var keys := CounterKeys(t, cfg.user, cfg.day);
    assert keys == t.counters.Keys;
    CoveredIsAllDevices(cfg, s);
    UnionIsSumIff(cfg, t, keys);
    MaxIsSumIff(t.counters, keys, set k | k in keys :: t.counters[k]);
  }

  /** The usage history reads the wall-clock total whatever the user's accounting mode. In every run it gives a
      parallel user the dashboard's total exactly when at most one device has counted anything, or every counted
      second is on record and no two devices recorded the same one. */
  lemma HistoryAgreesForParallelIff(cfg: Setting, n: nat, events: seq<Event>)
    requires forall e | e in events :: WellFormed(n, e)
    ensures var t := Run(cfg, n, events).tables;
            Get(WallclockHistory(t, cfg.user, cfg.day, cfg.day), cfg.day, 0) == GlobalSpent(t, cfg.user, cfg.day, Parallel) <==>
            || AtMostOneNonZero(t.counters, t.counters.Keys)
            || (FullyRecorded(cfg, t, t.counters.Keys) && Apart(cfg, t, t.counters.Keys))
  {
    RunLedgerInv(cfg, n, events);
    hide LedgerInv, WallclockHistory, GlobalWallclock, GlobalParallel, AtMostOneNonZero, FullyRecorded, Apart;
    HistoryAgreesFromLedger(cfg, Run(cfg, n, events));
    HistoryMatchesSingle(Run(cfg, n, events).tables, cfg.user, cfg.day, cfg.day, cfg.day);
  }

  /** Two devices busy in the same minute: 60 seconds in the history, 120 on the dashboard. */
  lemma ParallelUserHistoryDiffers()
    ensures exists t: Tables :: GlobalSpent(t, 1, 0, Parallel) == 120 && GlobalWallclock(t, 1, 0) == 60
  {
    var a, b := CounterKey(1, 1, 0), CounterKey(1, 2, 0);
    var s := Span(0, 60);
    var t := Tables(map[a := 60, b := 60], map[SpanKey(1, 60) := SpanRow(1, 0, s), SpanKey(2, 60) := SpanRow(1, 0, s)]);
    assert CounterKeys(t, 1, 0) == {a} + {b};
    SumOverRemove(t.counters, {a} + {b}, a);
    assert ({a} + {b}) - {a} == {b};
    SumOverRemove(t.counters, {b}, b);
    assert {b} - {b} == {};
    assert t.counters[a] in (set k | k in CounterKeys(t, 1, 0) :: t.counters[k]);
    MaxOfIs(set k | k in CounterKeys(t, 1, 0) :: t.counters[k], 60);
    assert CoveredSeconds(t, 1, 0) == Seconds(s) by {
      assert SpanKey(1, 60) in t.spans;
    }
    RangeSize(0, 60);
    assert GlobalSpent(t, 1, 0, Parallel) == 120 && GlobalWallclock(t, 1, 0) == 60;
  }
}
