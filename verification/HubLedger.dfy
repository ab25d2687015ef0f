/**
 * The hub's tables: usage counters merged by MAX, activity intervals inserted once,
 * and the global totals read from them.
 */
module HubLedger {
  import opened Basics
  import opened IntervalUnion
  import opened Sums

  type UserId = int
  type DeviceId = int
  type DayNo = int

  datatype CounterKey = CounterKey(user: UserId, device: DeviceId, day: DayNo)

  /** The unique key of an activity interval: it ignores the user. */
  datatype SpanKey = SpanKey(device: DeviceId, windowEnd: int)

  datatype SpanRow = SpanRow(user: UserId, day: DayNo, span: Span)

  datatype Tables = Tables(counters: map<CounterKey, int>, spans: map<SpanKey, SpanRow>)

  /** One user's part of a /sync request, with the day the hub stamps it with. */
  datatype Report = Report(user: UserId, device: DeviceId, day: DayNo, spent: int, spans: seq<Span>)

  // ---------- writes ----------

  function Upsert(counters: map<CounterKey, int>, key: CounterKey, spent: int): map<CounterKey, int> {
    counters[key := if key in counters then Max(counters[key], spent) else spent]
  }

  function InsertOnce(spans: map<SpanKey, SpanRow>, key: SpanKey, row: SpanRow): map<SpanKey, SpanRow> {
    if key in spans then spans else spans[key := row]
  }

  /** /sync's loop: a span whose end does not follow its start is skipped. */
  function InsertSpans(table: map<SpanKey, SpanRow>, user: UserId, device: DeviceId, day: DayNo, spans: seq<Span>)
    : map<SpanKey, SpanRow>
  {
    if spans == [] then
      table
    else
      var before := InsertSpans(table, user, device, day, spans[..|spans| - 1]);
      var s := spans[|spans| - 1];
      if s.end <= s.start then before
      else InsertOnce(before, SpanKey(device, s.end), SpanRow(user, day, s))
  }

  function Record(t: Tables, r: Report): Tables {
    Tables(Upsert(t.counters, CounterKey(r.user, r.device, r.day), r.spent),
           InsertSpans(t.spans, r.user, r.device, r.day, r.spans))
  }

  class HubStore {
    var counters: map<CounterKey, int>
    var spans: map<SpanKey, SpanRow>

    ghost function State(): Tables
      reads this
    {
      Tables(counters, spans)
    }

    constructor ()
      ensures State() == Tables(map[], map[])
    {
      counters, spans := map[], map[];
    }

    method UpsertUsageCounter(user: UserId, device: DeviceId, day: DayNo, spent: int)
      modifies this`counters
      ensures counters == Upsert(old(counters), CounterKey(user, device, day), spent)
    {
      var key := CounterKey(user, device, day);
      if key in counters {
        counters := counters[key := Max(counters[key], spent)];
      } else {
        counters := counters[key := spent];
      }
    }

    method InsertActivityInterval(user: UserId, device: DeviceId, day: DayNo, span: Span)
      modifies this`spans
      ensures spans == InsertOnce(old(spans), SpanKey(device, span.end), SpanRow(user, day, span))
    {
      var key := SpanKey(device, span.end);
      if key !in spans {
        spans := spans[key := SpanRow(user, day, span)];
      }
    }

    /** Step 1 of the per-user body of /sync: record this tick's contribution. */
    method RecordContribution(r: Report)
      modifies this
      ensures State() == Record(old(State()), r)
    {
      UpsertUsageCounter(r.user, r.device, r.day, r.spent);
      for i := 0 to |r.spans|
        invariant counters == Record(old(State()), r).counters
        invariant spans == InsertSpans(old(spans), r.user, r.device, r.day, r.spans[..i])
      {
        assert r.spans[..i + 1][..i] == r.spans[..i];
        if r.spans[i].end <= r.spans[i].start {
          continue;
        }
        InsertActivityInterval(r.user, r.device, r.day, r.spans[i]);
      }
      assert r.spans[..|r.spans|] == r.spans;
    }
  }

  // ---------- totals ----------

  function CounterKeys(t: Tables, user: UserId, day: DayNo): set<CounterKey> {
    set k | k in t.counters && k.user == user && k.day == day
  }

  ghost function CoveredSeconds(t: Tables, user: UserId, day: DayNo): set<int> {
    set k, s | k in t.spans && t.spans[k].user == user && t.spans[k].day == day && s in Seconds(t.spans[k].span) :: s
  }

  /** The share of the covered seconds reported by one device. */
  ghost function DeviceSeconds(t: Tables, user: UserId, day: DayNo, device: DeviceId): set<int> {
    set k, s | k in t.spans && k.device == device && t.spans[k].user == user && t.spans[k].day == day
               && s in Seconds(t.spans[k].span) :: s
  }

  ghost function MaxCounter(t: Tables, user: UserId, day: DayNo): int {
    MaxOf(set k | k in CounterKeys(t, user, day) :: t.counters[k])
  }

  /** `global_spent_wallclock`: the union, floored at the largest single counter. */
  ghost function GlobalWallclock(t: Tables, user: UserId, day: DayNo): int {
    Max(|CoveredSeconds(t, user, day)|, MaxCounter(t, user, day))
  }

  /** `global_spent_parallel`: the sum of the counters. */
  ghost function GlobalParallel(t: Tables, user: UserId, day: DayNo): int {
    SumOver(t.counters, CounterKeys(t, user, day))
  }

  datatype AccountingMode = Wallclock | Parallel

  ghost function GlobalSpent(t: Tables, user: UserId, day: DayNo, mode: AccountingMode): int {
    if mode == Wallclock then GlobalWallclock(t, user, day) else GlobalParallel(t, user, day)
  }

  // ---------- what one record does to the totals ----------

  lemma {:induction false} InsertSpansKeys(table: map<SpanKey, SpanRow>, user: UserId, device: DeviceId, day: DayNo,
                                           spans: seq<Span>)
    ensures var r := InsertSpans(table, user, device, day, spans);
            && table.Keys <= r.Keys
            && (forall k | k in table :: r[k] == table[k])
            && (forall s | s in spans && s.start < s.end :: SpanKey(device, s.end) in r)
            && (forall k | k in r && k !in table ::
                  k.device == device && r[k].user == user && r[k].day == day && r[k].span in spans
                  && r[k].span.start < r[k].span.end && r[k].span.end == k.windowEnd)
  {
    if spans != [] {
      InsertSpansKeys(table, user, device, day, spans[..|spans| - 1]);
      assert spans == spans[..|spans| - 1] + [spans[|spans| - 1]];
    }
  }

  lemma InsertOneSpan(table: map<SpanKey, SpanRow>, user: UserId, device: DeviceId, day: DayNo, s: Span)
    requires s.start < s.end
    ensures InsertSpans(table, user, device, day, [s]) == InsertOnce(table, SpanKey(device, s.end), SpanRow(user, day, s))
  {
    assert [s][..0] == [];
  }

  /** The spans of a user's rows of one day, in any order and with any repetition. */
  ghost predicate ListsRows(t: Tables, user: UserId, day: DayNo, spans: seq<Span>) {
    forall s :: s in spans <==> exists k :: k in t.spans && t.spans[k].user == user && t.spans[k].day == day && t.spans[k].span == s
  }

  /** The database's union is what `union_seconds` returns for those spans, floored at the largest counter. */
  lemma WallclockIsUnionSeconds(t: Tables, user: UserId, day: DayNo, spans: seq<Span>)
    requires ListsRows(t, user, day, spans)
    ensures CoveredSeconds(t, user, day) == Covered(spans)
    ensures GlobalWallclock(t, user, day) == Max(|Covered(spans)|, MaxCounter(t, user, day))
  {
    forall x
      ensures x in CoveredSeconds(t, user, day) <==> x in Covered(spans)
    {
      CoveredIff(spans, x);
      if x in Covered(spans) {
        var i :| 0 <= i < |spans| && x in Seconds(spans[i]);
        assert spans[i] in spans;
      }
      if x in CoveredSeconds(t, user, day) {
        var k :| k in t.spans && t.spans[k].user == user && t.spans[k].day == day && x in Seconds(t.spans[k].span);
        assert t.spans[k].span in spans;
      }
    }
  }

  /** Recording only adds seconds the report itself covers, and only to its own user, day and device. */
  lemma RecordAddsReportedSeconds(t: Tables, r: Report, user: UserId, day: DayNo)
    ensures var t' := Record(t, r);
            && CoveredSeconds(t, user, day) <= CoveredSeconds(t', user, day)
            && CoveredSeconds(t', user, day) <=
               CoveredSeconds(t, user, day) + (if user == r.user && day == r.day then Covered(r.spans) else {})
            && (forall d :: DeviceSeconds(t', user, day, d) <= DeviceSeconds(t, user, day, d) +
                  (if user == r.user && day == r.day && d == r.device then Covered(r.spans) else {}))
  {
    var t' := Record(t, r);
    InsertSpansKeys(t.spans, r.user, r.device, r.day, r.spans);
    forall k, s | k in t'.spans && k !in t.spans && s in Seconds(t'.spans[k].span)
      ensures s in Covered(r.spans)
    {
      CoveredIff(r.spans, s);
    }
  }

  /** The parallel total moves by the report's own counter only. */
  lemma RecordMovesParallel(t: Tables, r: Report)
    ensures var k := CounterKey(r.user, r.device, r.day);
            var t' := Record(t, r);
            GlobalParallel(t', r.user, r.day) == GlobalParallel(t, r.user, r.day) - Get(t.counters, k, 0) + t'.counters[k]
  {
    var k := CounterKey(r.user, r.device, r.day);
    var t' := Record(t, r);
    assert CounterKeys(t', r.user, r.day) == CounterKeys(t, r.user, r.day) + {k};
    SumOverUpdate(Restrict(t.counters, CounterKeys(t, r.user, r.day)), CounterKeys(t, r.user, r.day), k, t'.counters[k]);
    var m := Restrict(t.counters, CounterKeys(t, r.user, r.day));
    SumOverAgree(t.counters, m, CounterKeys(t, r.user, r.day));
    SumOverAgree(t'.counters, m[k := t'.counters[k]], CounterKeys(t', r.user, r.day));
  }

  function Restrict<K, V>(m: map<K, V>, keys: set<K>): map<K, V> {
    map k | k in m && k in keys :: m[k]
  }

  /** The largest counter never falls, and rises to the reported counter at most. */
  lemma RecordMovesMax(t: Tables, r: Report)
    requires 0 <= r.spent && forall k | k in t.counters :: 0 <= t.counters[k]
    ensures MaxCounter(Record(t, r), r.user, r.day) == Max(MaxCounter(t, r.user, r.day), r.spent)
  {
    var k0 := CounterKey(r.user, r.device, r.day);
    var t' := Record(t, r);
    var before := set k | k in CounterKeys(t, r.user, r.day) :: t.counters[k];
    var after := set k | k in CounterKeys(t', r.user, r.day) :: t'.counters[k];
    var m := Max(MaxOf(before), r.spent);
    forall v | v in after
      ensures v <= m
    {
      var k :| k in CounterKeys(t', r.user, r.day) && v == t'.counters[k];
      if k in t.counters {
        assert t.counters[k] in before;
      }
    }
    assert k0 in CounterKeys(t', r.user, r.day);
    if r.spent >= MaxOf(before) {
      assert t'.counters[k0] in after;
      if k0 in t.counters {
        assert t.counters[k0] in before;
      }
      assert t'.counters[k0] == m;
    } else {
      assert before != {};
      var k :| k in CounterKeys(t, r.user, r.day) && t.counters[k] == MaxOf(before);
      assert k in CounterKeys(t', r.user, r.day);
      assert t'.counters[k] in after;
    }
    MaxOfIs(after, m);
  }
}
