/** The hub's state depends on which reports arrived, not on how, how often or in what order. */
module Delivery {
  import opened IntervalUnion
  import opened HubLedger

  function Deliver(t: Tables, reports: seq<Report>): Tables {
    if reports == [] then t else Record(Deliver(t, reports[..|reports| - 1]), reports[|reports| - 1])
  }

  // ---------- counters: the largest value ever reported ----------

  function KeyOf(r: Report): CounterKey {
    CounterKey(r.user, r.device, r.day)
  }

  /** `v` was stored before or reported, and nothing larger was. */
  ghost predicate LargestReported(t: Tables, reports: seq<Report>, k: CounterKey, v: int) {
    && ((k in t.counters && t.counters[k] == v) || exists r :: r in reports && KeyOf(r) == k && r.spent == v)
    && (k in t.counters ==> t.counters[k] <= v)
    && (forall r | r in reports && KeyOf(r) == k :: r.spent <= v)
  }

  lemma {:induction false} CountersAfter(t: Tables, reports: seq<Report>, k: CounterKey)
    ensures var c := Deliver(t, reports).counters;
            && (k in c <==> k in t.counters || exists r :: r in reports && KeyOf(r) == k)
            && (k in c ==> LargestReported(t, reports, k, c[k]))
  {
    if reports != [] {
      var before, last := reports[..|reports| - 1], reports[|reports| - 1];
      CountersAfter(t, before, k);
      assert reports == before + [last];
      assert forall r :: r in reports <==> r in before || r == last;
      if r :| r in before && KeyOf(r) == k {
        assert r in reports;
      }
      if KeyOf(last) == k {
        assert last in reports;
      }
    }
  }

  // ---------- spans: the first row stored under each key ----------

  /** The rows report `r` leaves in an empty table: for each of its keys, its first non-degenerate span with that end. */
  function LeftBy(r: Report): map<SpanKey, SpanRow> {
    InsertSpans(map[], r.user, r.device, r.day, r.spans)
  }

  lemma {:induction false} InsertOver(table: map<SpanKey, SpanRow>, user: UserId, device: DeviceId, day: DayNo,
                                      spans: seq<Span>)
    ensures var rows, left := InsertSpans(table, user, device, day, spans), InsertSpans(map[], user, device, day, spans);
            && (forall k :: k in rows <==> k in table || k in left)
            && (forall k | k in rows :: rows[k] == if k in table then table[k] else left[k])
  {
    if spans != [] {
      InsertOver(table, user, device, day, spans[..|spans| - 1]);
    }
  }

  ghost predicate LeftBySome(reports: seq<Report>, k: SpanKey, row: SpanRow) {
    exists r :: r in reports && k in LeftBy(r) && LeftBy(r)[k] == row
  }

  /** Stored rows are never replaced; a new key is one that some report carries, with the row that report leaves. */
  lemma {:induction false} SpansAfter(t: Tables, reports: seq<Report>, k: SpanKey)
    ensures var rows := Deliver(t, reports).spans;
            && (k in t.spans ==> k in rows && rows[k] == t.spans[k])
            && (k in rows && k !in t.spans ==> LeftBySome(reports, k, rows[k]))
            && (forall r | r in reports && k in LeftBy(r) :: k in rows)
  {
    hide InsertSpans;
    if reports != [] {
      var before, last := reports[..|reports| - 1], reports[|reports| - 1];
      SpansAfter(t, before, k);
      assert reports == before + [last];
      var mid := Deliver(t, before);
      InsertOver(mid.spans, last.user, last.device, last.day, last.spans);
      var rows := Deliver(t, reports).spans;
      if k in rows && k !in t.spans {
        if k in mid.spans {
          var r :| r in before && k in LeftBy(r) && LeftBy(r)[k] == mid.spans[k];
          assert r in reports;
        } else {
          assert last in reports && LeftBy(last)[k] == rows[k];
        }
      }
      forall r | r in reports && k in LeftBy(r)
        ensures k in rows
      {
        assert r in before || r == last;
      }
    }
  }

  // ---------- when order and repetition do not matter ----------

  /** On every key not stored yet, all reports that carry it leave the same row. */
  ghost predicate FirstRowsAgree(t: Tables, reports: seq<Report>) {
    forall r1, r2, k | r1 in reports && r2 in reports && k !in t.spans && k in LeftBy(r1) && k in LeftBy(r2) ::
      LeftBy(r1)[k] == LeftBy(r2)[k]
  }

  ghost predicate SameReports(a: seq<Report>, b: seq<Report>) {
    forall r :: r in a <==> r in b
  }

  /** Every two deliveries of the same reports, whatever their order and repetitions, end in the same tables. */
  ghost predicate OrderFree(t: Tables, a: seq<Report>) {
    forall b, c | SameReports(a, b) && SameReports(a, c) :: Deliver(t, b) == Deliver(t, c)
  }

  lemma DeliveryIndependence(t: Tables, a: seq<Report>, b: seq<Report>)
    requires SameReports(a, b) && FirstRowsAgree(t, a)
    ensures Deliver(t, a) == Deliver(t, b)
  {
    hide LeftBy, Deliver;
    var x, y := Deliver(t, a), Deliver(t, b);
    forall k
      ensures k in x.counters <==> k in y.counters
      ensures k in x.counters ==> x.counters[k] == y.counters[k]
    {
      CountersAfter(t, a, k);
      CountersAfter(t, b, k);
    }
    forall k
      ensures k in x.spans <==> k in y.spans
      ensures k in x.spans ==> x.spans[k] == y.spans[k]
    {
      SpansAfter(t, a, k);
      SpansAfter(t, b, k);
    }
    assert x.counters == y.counters && x.spans == y.spans;
  }

  lemma {:induction false} DeliverFirst(t: Tables, r: Report, reports: seq<Report>)
    ensures Deliver(t, [r] + reports) == Deliver(Record(t, r), reports)
  {
    var all := [r] + reports;
    if reports == [] {
      assert all == [r] && [r][..0] == [];
      assert Deliver(t, []) == t;
    } else {
      assert all[..|all| - 1] == [r] + reports[..|reports| - 1];
      DeliverFirst(t, r, reports[..|reports| - 1]);
    }
  }

  /** The report delivered first decides every new key it carries. */
  lemma FirstReportDecides(t: Tables, r: Report, reports: seq<Report>, k: SpanKey)
    requires k !in t.spans && k in LeftBy(r)
    ensures var rows := Deliver(t, [r] + reports).spans;
            k in rows && rows[k] == LeftBy(r)[k]
  {
    DeliverFirst(t, r, reports);
    InsertOver(t.spans, r.user, r.device, r.day, r.spans);
    SpansAfter(Record(t, r), reports, k);
  }

  /** Exactly when order, duplication and replay do not matter, from any tables and for any reports: when no two
      of them leave different rows under a key not stored yet. The counters never depend on it. */
  lemma DeliveryIndependenceIff(t: Tables, a: seq<Report>)
    ensures OrderFree(t, a) <==> FirstRowsAgree(t, a)
  {
    hide LeftBy, Deliver;
    if FirstRowsAgree(t, a) {
      forall b, c | SameReports(a, b) && SameReports(a, c)
        ensures Deliver(t, b) == Deliver(t, c)
      {
        DeliveryIndependence(t, a, b);
        DeliveryIndependence(t, a, c);
      }
    }
    if OrderFree(t, a) {
      forall r1, r2, k | r1 in a && r2 in a && k !in t.spans && k in LeftBy(r1) && k in LeftBy(r2)
        ensures LeftBy(r1)[k] == LeftBy(r2)[k]
      {
        FirstReportDecides(t, r1, a, k);
        FirstReportDecides(t, r2, a, k);
        assert SameReports(a, [r1] + a) && SameReports(a, [r2] + a);
      }
    }
  }

  // ---------- where that holds: span keys used once ----------

  /** Non-degenerate span `s` of report `r` is stored under `k`. */
  ghost predicate Carries(r: Report, s: Span, k: SpanKey) {
    s in r.spans && s.start < s.end && k == SpanKey(r.device, s.end)
  }

  /** Reports that share a span key carry the same row under it: one managed user for each
      device, a strictly advancing device clock, and replays within the same hub day. */
  ghost predicate KeysConsistent(reports: seq<Report>) {
    forall r1, s1, r2, s2, k | r1 in reports && r2 in reports && Carries(r1, s1, k) && Carries(r2, s2, k) ::
      SpanRow(r1.user, r1.day, s1) == SpanRow(r2.user, r2.day, s2)
  }

  lemma KeysConsistentIsEnough(t: Tables, reports: seq<Report>)
    requires KeysConsistent(reports)
    ensures OrderFree(t, reports)
  {
    hide InsertSpans, Deliver, OrderFree;
    forall r1, r2, k | r1 in reports && r2 in reports && k !in t.spans && k in LeftBy(r1) && k in LeftBy(r2)
      ensures LeftBy(r1)[k] == LeftBy(r2)[k]
    {
      LeftIsCarried(r1, k);
      LeftIsCarried(r2, k);
    }
    DeliveryIndependenceIff(t, reports);
  }

  lemma LeftIsCarried(r: Report, k: SpanKey)
    requires k in LeftBy(r)
    ensures var row := LeftBy(r)[k];
            Carries(r, row.span, k) && row == SpanRow(r.user, r.day, row.span)
  {
    InsertSpansKeys(map[], r.user, r.device, r.day, r.spans);
  }

  /** A retried POST changes nothing, colliding keys or not. */
  lemma RetryIsFree(t: Tables, reports: seq<Report>, r: Report)
    requires r in reports
    ensures Record(Deliver(t, reports), r) == Deliver(t, reports)
  {
    var now := Deliver(t, reports);
    CountersAfter(t, reports, KeyOf(r));
    InsertOver(now.spans, r.user, r.device, r.day, r.spans);
    forall k | k in LeftBy(r)
      ensures k in now.spans
    {
      SpansAfter(t, reports, k);
    }
    assert Record(now, r).spans == now.spans;
    assert Record(now, r).counters == now.counters;
  }

  /** Two users whose spans on one device end at the same instant: whose second counts depends on the order. */
  lemma CollidingKeysDependOnOrder(t: Tables, device: DeviceId, end: int, user1: UserId, user2: UserId, day: DayNo)
    requires user1 != user2 && SpanKey(device, end) !in t.spans
    ensures !OrderFree(t, [Report(user1, device, day, 1, [Span(end - 1, end)]), Report(user2, device, day, 1, [Span(end - 1, end)])])
  {
    var s := Span(end - 1, end);
    var a, b := Report(user1, device, day, 1, [s]), Report(user2, device, day, 1, [s]);
    InsertOneSpan(map[], user1, device, day, s);
    InsertOneSpan(map[], user2, device, day, s);
    DeliveryIndependenceIff(t, [a, b]);
    assert a in [a, b] && b in [a, b];
    assert LeftBy(a)[SpanKey(device, end)] != LeftBy(b)[SpanKey(device, end)];
  }
}
