/** `intervals_to_hours` and `hours_to_intervals` are exact inverses on canonical lists. */
module AllowedHoursCodec {
  import opened Basics
  import opened Sorting
  import opened AllowedHours

  /** Sorted, one interval per clock hour, and no touching neighbours with the same flag. */
  ghost predicate CanonicalIntervals(ivs: seq<TimeInterval>) {
    && AllValid(ivs)
    && HourSeparated(ivs)
    && forall i | 0 <= i && i + 1 < |ivs| :: Maximal(ivs, i)
  }

  /** Intervals `i` and `i + 1` cannot be joined. */
  predicate Maximal(ivs: seq<TimeInterval>, i: int)
    requires 0 <= i && i + 1 < |ivs|
  {
    ivs[i].endMin == ivs[i + 1].startMin ==> ivs[i].unaccounted != ivs[i + 1].unaccounted
  }

  ghost predicate StrictHours(recs: seq<HourRecord>) {
    forall i, j | 0 <= i < j < |recs| :: recs[i].hour < recs[j].hour
  }

  /** Sorted by distinct hours, none empty. */
  ghost predicate CanonicalRecords(recs: seq<HourRecord>) {
    && (forall r | r in recs :: r.InRange() && !r.Empty())
    && StrictHours(recs)
  }

  // ---------- records -> intervals -> records ----------

  lemma {:induction false} ExtendingExpands(cur: TimeInterval, rec: HourRecord, hour: int)
    requires cur.Valid() && rec.InRange() && !rec.Empty()
    requires cur.LastHour() < rec.hour && Continues(cur, rec)
    requires cur.FirstHour() <= hour <= cur.LastHour() + 1
    ensures rec.hour == cur.LastHour() + 1
    ensures ExpandFrom(cur.(endMin := rec.AbsEnd()), hour) == ExpandFrom(cur, hour) + [rec]
    decreases cur.LastHour() + 1 - hour
  {
    var longer := cur.(endMin := rec.AbsEnd());
    assert cur.endMin == rec.hour * 60 && rec.startMin == 0 && longer.LastHour() == rec.hour;
    if hour <= cur.LastHour() {
      ExtendingExpands(cur, rec, hour + 1);
      assert RecordAt(longer, hour) == RecordAt(cur, hour);
    } else {
      assert RecordAt(longer, hour) == rec;
      assert ExpandFrom(longer, hour + 1) == [];
    }
  }

  lemma RecordAsInterval(rec: HourRecord)
    requires rec.InRange() && !rec.Empty()
    ensures rec.AsInterval().Valid()
    ensures rec.AsInterval().FirstHour() == rec.AsInterval().LastHour() == rec.hour
    ensures Expand(rec.AsInterval()) == [rec]
  {
    var iv := rec.AsInterval();
    assert RecordAt(iv, rec.hour) == rec;
    assert ExpandFrom(iv, rec.hour + 1) == [];
  }

  lemma {:induction false} MergeInverts(cur: TimeInterval, recs: seq<HourRecord>)
    requires cur.Valid() && CanonicalRecords(recs)
    requires recs != [] ==> cur.LastHour() < recs[0].hour
    ensures var r := Merge(cur, recs);
            && r != [] && r[0].startMin == cur.startMin && r[0].unaccounted == cur.unaccounted
            && CanonicalIntervals(r)
            && ExpandAll(r) == Expand(cur) + recs
    decreases |recs|
  {
    hide Expand, ExpandFrom, CanonicalIntervals, CanonicalRecords, Continues;
    if recs == [] {
      SingleCanonical(cur);
    } else {
      var rec, rest := recs[0], recs[1..];
      RestCanonical(recs);
      assert [rec] + rest == recs;
      if Continues(cur, rec) {
        ExtendingRun(cur, rec);
        MergeInverts(cur.(endMin := rec.AbsEnd()), rest);
        assert Expand(cur) + recs == Expand(cur) + [rec] + rest;
      } else {
        RecordAsInterval(rec);
        MergeInverts(rec.AsInterval(), rest);
        RunStops(cur, rec, Merge(rec.AsInterval(), rest));
      }
    }
  }

  lemma SingleCanonical(cur: TimeInterval)
    requires cur.Valid()
    ensures CanonicalIntervals([cur]) && ExpandAll([cur]) == Expand(cur)
  {
  }

  lemma RestCanonical(recs: seq<HourRecord>)
    requires CanonicalRecords(recs) && recs != []
    ensures CanonicalRecords(recs[1..]) && recs[0].InRange() && !recs[0].Empty()
    ensures |recs| > 1 ==> recs[0].hour < recs[1].hour
  {
    assert forall r | r in recs[1..] :: r in recs;
  }

  lemma ExtendingRun(cur: TimeInterval, rec: HourRecord)
    requires cur.Valid() && rec.InRange() && !rec.Empty()
    requires cur.LastHour() < rec.hour && Continues(cur, rec)
    ensures var longer := cur.(endMin := rec.AbsEnd());
            longer.Valid() && longer.LastHour() == rec.hour && Expand(longer) == Expand(cur) + [rec]
  {
    ExtendingExpands(cur, rec, cur.FirstHour());
  }

  lemma RunStops(cur: TimeInterval, rec: HourRecord, ivs: seq<TimeInterval>)
    requires cur.Valid() && rec.InRange() && !rec.Empty() && cur.LastHour() < rec.hour && !Continues(cur, rec)
    requires CanonicalIntervals(ivs) && ivs != []
    requires ivs[0].startMin == rec.AsInterval().startMin && ivs[0].unaccounted == rec.AsInterval().unaccounted
    ensures CanonicalIntervals([cur] + ivs) && ExpandAll([cur] + ivs) == Expand(cur) + ExpandAll(ivs)
  {
    PrependCanonical(cur, ivs);
    assert ([cur] + ivs)[1..] == ivs;
  }

  lemma PrependCanonical(cur: TimeInterval, ivs: seq<TimeInterval>)
    requires cur.Valid() && CanonicalIntervals(ivs) && ivs != []
    requires cur.LastHour() < ivs[0].FirstHour()
    requires cur.endMin == ivs[0].startMin ==> cur.unaccounted != ivs[0].unaccounted
    ensures CanonicalIntervals([cur] + ivs)
  {
    var all := [cur] + ivs;
    forall i, j | 0 <= i < j < |all|
      ensures all[i].LastHour() < all[j].FirstHour()
    {
      assert ivs[0].Valid();
      if i == 0 && j > 1 {
        assert ivs[0].LastHour() < ivs[j - 1].FirstHour();
      }
    }
    forall i | 0 <= i && i + 1 < |all|
      ensures Maximal(all, i)
    {
      assert i > 0 ==> Maximal(ivs, i - 1);
    }
  }

  lemma SortedHoursStay(recs: seq<HourRecord>)
    requires StrictHours(recs)
    ensures ByHour(recs) == recs
  {
    StrictlySortedUnique((r: HourRecord) => r.hour, recs, ByHour(recs));
  }

  /** Decode then encode: every canonical record list comes back, through canonical intervals. */
  lemma DecodeThenEncode(recs: seq<HourRecord>)
    requires CanonicalRecords(recs)
    ensures CanonicalIntervals(Reassemble(recs))
    ensures ExpandAll(Reassemble(recs)) == recs
  {
    SortedHoursStay(recs);
    if recs != [] {
      assert recs[0] in recs;
      assert CanonicalRecords(recs[1..]) by {
        assert forall r | r in recs[1..] :: r in recs;
      }
      RecordAsInterval(recs[0]);
      MergeInverts(recs[0].AsInterval(), recs[1..]);
      assert [recs[0]] + recs[1..] == recs;
    }
  }

  // ---------- intervals -> records -> intervals ----------

  function Cut(iv: TimeInterval, hour: int): TimeInterval {
    iv.(endMin := Min(iv.endMin, hour * 60))
  }

  lemma {:induction false} MergeGathers(iv: TimeInterval, hour: int, rest: seq<HourRecord>)
    requires iv.Valid() && iv.FirstHour() < hour <= iv.LastHour() + 1
    ensures Merge(Cut(iv, hour), ExpandFrom(iv, hour) + rest) == Merge(iv, rest)
    decreases iv.LastHour() + 1 - hour
  {
    if hour > iv.LastHour() {
      assert Cut(iv, hour) == iv && ExpandFrom(iv, hour) + rest == rest;
    } else {
      var rec := RecordAt(iv, hour);
      var recs := ExpandFrom(iv, hour) + rest;
      assert recs[0] == rec && recs[1..] == ExpandFrom(iv, hour + 1) + rest;
      MergeGathers(iv, hour + 1, rest);
    }
  }

  /** Merging an expansion rebuilds its first interval. */
  lemma MergeRebuildsFirst(ivs: seq<TimeInterval>)
    requires ivs != [] && ivs[0].Valid()
    ensures var recs := ExpandAll(ivs);
            && recs != [] && !recs[0].Empty()
            && recs[0].AbsStart() == ivs[0].startMin && recs[0].unaccounted == ivs[0].unaccounted
            && Merge(recs[0].AsInterval(), recs[1..]) == Merge(ivs[0], ExpandAll(ivs[1..]))
  {
    var a := ivs[0];
    var h := a.FirstHour();
    var recs := ExpandAll(ivs);
    assert Expand(a) == [RecordAt(a, h)] + ExpandFrom(a, h + 1);
    assert recs[0] == RecordAt(a, h) && recs[1..] == ExpandFrom(a, h + 1) + ExpandAll(ivs[1..]);
    assert recs[0].AsInterval() == Cut(a, h + 1);
    MergeGathers(a, h + 1, ExpandAll(ivs[1..]));
  }

  lemma {:induction false} MergeRestores(a: TimeInterval, ivs: seq<TimeInterval>)
    requires CanonicalIntervals([a] + ivs)
    ensures Merge(a, ExpandAll(ivs)) == [a] + ivs
    decreases |ivs|
  {
    if ivs != [] {
      assert ([a] + ivs)[1] == ivs[0] && ivs[0] in [a] + ivs;
      assert Maximal([a] + ivs, 0);
      MergeRebuildsFirst(ivs);
      TailCanonical(a, ivs);
      assert [ivs[0]] + ivs[1..] == ivs;
      MergeRestores(ivs[0], ivs[1..]);
    }
  }

  lemma TailCanonical(a: TimeInterval, ivs: seq<TimeInterval>)
    requires CanonicalIntervals([a] + ivs)
    ensures CanonicalIntervals(ivs)
  {
    var all := [a] + ivs;
    assert forall i | 0 <= i < |ivs| :: ivs[i] == all[i + 1];
    forall i | 0 <= i && i + 1 < |ivs| ensures Maximal(ivs, i) { assert Maximal(all, i + 1); }
    assert forall iv | iv in ivs :: iv in all;
  }

  lemma {:induction false} ExpandFromRecords(iv: TimeInterval, hour: int)
    requires iv.Valid() && iv.FirstHour() <= hour
    ensures CanonicalRecords(ExpandFrom(iv, hour))
    ensures forall r | r in ExpandFrom(iv, hour) :: hour <= r.hour <= iv.LastHour()
    decreases iv.LastHour() + 1 - hour
  {
    if hour <= iv.LastHour() {
      ExpandFromRecords(iv, hour + 1);
    }
  }

  lemma {:induction false} ExpandAllRecords(ivs: seq<TimeInterval>)
    requires AllValid(ivs) && HourSeparated(ivs)
    ensures CanonicalRecords(ExpandAll(ivs))
    ensures forall r | r in ExpandAll(ivs) :: ivs != [] && ivs[0].FirstHour() <= r.hour
  {
    if ivs != [] {
      var a, rest := ivs[0], ivs[1..];
      assert a in ivs && forall iv | iv in rest :: iv in ivs;
      ExpandFromRecords(a, a.FirstHour());
      ExpandAllRecords(rest);
      var x, y := Expand(a), ExpandAll(rest);
      assert forall r | r in y :: a.LastHour() < rest[0].FirstHour() <= r.hour;
      forall i, j | 0 <= i < j < |x + y|
        ensures (x + y)[i].hour < (x + y)[j].hour
      {
        assert i < |x| ==> (x + y)[i] in x;
        assert j >= |x| ==> (x + y)[j] in y;
        assert i >= |x| ==> y[i - |x|].hour < y[j - |x|].hour;
        assert j < |x| ==> x[i].hour < x[j].hour;
      }
    }
  }

  /** Encode then decode: every canonical interval list comes back, through canonical records. */
  lemma EncodeThenDecode(ivs: seq<TimeInterval>)
    requires CanonicalIntervals(ivs)
    ensures CanonicalRecords(ExpandAll(ivs))
    ensures Reassemble(ExpandAll(ivs)) == ivs
  {
    ExpandAllRecords(ivs);
    SortedHoursStay(ExpandAll(ivs));
    if ivs != [] {
      assert ivs[0] in ivs && [ivs[0]] + ivs[1..] == ivs;
      MergeRebuildsFirst(ivs);
      MergeRestores(ivs[0], ivs[1..]);
    }
  }

  // ---------- any validated list ----------

  ghost predicate InIntervals(ivs: seq<TimeInterval>, minute: int, unaccounted: bool) {
    exists i | 0 <= i < |ivs| :: ivs[i].startMin <= minute < ivs[i].endMin && ivs[i].unaccounted == unaccounted
  }

  ghost predicate InRecords(recs: seq<HourRecord>, minute: int, unaccounted: bool) {
    exists i | 0 <= i < |recs| :: recs[i].AbsStart() <= minute < recs[i].AbsEnd() && recs[i].unaccounted == unaccounted
  }

  lemma InIntervalsConcat(a: seq<TimeInterval>, b: seq<TimeInterval>, m: int, u: bool)
    ensures InIntervals(a + b, m, u) <==> InIntervals(a, m, u) || InIntervals(b, m, u)
  {
    var c := a + b;
    assert forall i | 0 <= i < |a| :: c[i] == a[i];
    assert forall i | 0 <= i < |b| :: c[|a| + i] == b[i];
    assert forall i | |a| <= i < |c| :: c[i] == b[i - |a|];
  }

  lemma InRecordsConcat(a: seq<HourRecord>, b: seq<HourRecord>, m: int, u: bool)
    ensures InRecords(a + b, m, u) <==> InRecords(a, m, u) || InRecords(b, m, u)
  {
    var c := a + b;
    assert forall i | 0 <= i < |a| :: c[i] == a[i];
    assert forall i | 0 <= i < |b| :: c[|a| + i] == b[i];
    assert forall i | |a| <= i < |c| :: c[i] == b[i - |a|];
  }

  lemma OneInterval(iv: TimeInterval, m: int, u: bool)
    ensures InIntervals([iv], m, u) <==> iv.startMin <= m < iv.endMin && iv.unaccounted == u
  {
    assert [iv][0] == iv;
  }

  lemma OneRecord(rec: HourRecord, m: int, u: bool)
    ensures InRecords([rec], m, u) <==> rec.AbsStart() <= m < rec.AbsEnd() && rec.unaccounted == u
  {
    assert [rec][0] == rec;
  }

  lemma {:induction false} ExpandFromMinutes(iv: TimeInterval, hour: int, m: int, u: bool)
    requires iv.Valid() && iv.FirstHour() <= hour
    ensures InRecords(ExpandFrom(iv, hour), m, u) <==>
            Max(iv.startMin, hour * 60) <= m < iv.endMin && iv.unaccounted == u
    decreases iv.LastHour() + 1 - hour
  {
    if hour <= iv.LastHour() {
      ExpandFromMinutes(iv, hour + 1, m, u);
      InRecordsConcat([RecordAt(iv, hour)], ExpandFrom(iv, hour + 1), m, u);
      OneRecord(RecordAt(iv, hour), m, u);
    }
  }

  /** Encoding keeps every (minute, flag) pair and adds none, even for lists the validator rejects. */
  lemma {:induction false} EncodeKeepsMinutes(ivs: seq<TimeInterval>, m: int, u: bool)
    requires AllValid(ivs)
    ensures InRecords(ExpandAll(ivs), m, u) <==> InIntervals(ivs, m, u)
  {
    if ivs != [] {
      assert ivs[0] in ivs && forall iv | iv in ivs[1..] :: iv in ivs;
      ExpandFromMinutes(ivs[0], ivs[0].FirstHour(), m, u);
      EncodeKeepsMinutes(ivs[1..], m, u);
      InRecordsConcat(Expand(ivs[0]), ExpandAll(ivs[1..]), m, u);
      assert ivs == [ivs[0]] + ivs[1..];
      InIntervalsConcat([ivs[0]], ivs[1..], m, u);
      OneInterval(ivs[0], m, u);
    }
  }

  lemma {:induction false} MergeKeepsMinutes(cur: TimeInterval, recs: seq<HourRecord>, m: int, u: bool)
    requires cur.startMin < cur.endMin
    ensures InIntervals(Merge(cur, recs), m, u) <==> InIntervals([cur], m, u) || InRecords(recs, m, u)
    decreases |recs|
  {
    if recs != [] {
      var rec, rest := recs[0], recs[1..];
      assert recs == [rec] + rest;
      InRecordsConcat([rec], rest, m, u);
      OneRecord(rec, m, u);
      OneInterval(cur, m, u);
      OneInterval(rec.AsInterval(), m, u);
      OneInterval(cur.(endMin := rec.AbsEnd()), m, u);
      if rec.Empty() {
        MergeKeepsMinutes(cur, rest, m, u);
      } else if Continues(cur, rec) {
        MergeKeepsMinutes(cur.(endMin := rec.AbsEnd()), rest, m, u);
      } else {
        MergeKeepsMinutes(rec.AsInterval(), rest, m, u);
        InIntervalsConcat([cur], Merge(rec.AsInterval(), rest), m, u);
      }
    }
  }

  lemma {:induction false} MergeAllKeepsMinutes(recs: seq<HourRecord>, m: int, u: bool)
    ensures InIntervals(MergeAll(recs), m, u) <==> InRecords(recs, m, u)
  {
    if recs != [] {
      assert recs == [recs[0]] + recs[1..];
      InRecordsConcat([recs[0]], recs[1..], m, u);
      OneRecord(recs[0], m, u);
      OneInterval(recs[0].AsInterval(), m, u);
      if recs[0].Empty() {
        MergeAllKeepsMinutes(recs[1..], m, u);
      } else {
        MergeKeepsMinutes(recs[0].AsInterval(), recs[1..], m, u);
      }
    }
  }

  /** Decoding keeps every (minute, flag) pair, whatever the order, overlaps or gaps of the records. */
  lemma DecodeKeepsMinutes(recs: seq<HourRecord>, m: int, u: bool)
    ensures InIntervals(Reassemble(recs), m, u) <==> InRecords(recs, m, u)
  {
    var sorted := ByHour(recs);
    MergeAllKeepsMinutes(sorted, m, u);
    if i :| 0 <= i < |recs| && recs[i].AbsStart() <= m < recs[i].AbsEnd() && recs[i].unaccounted == u {
      assert recs[i] in sorted;
    }
    if i :| 0 <= i < |sorted| && sorted[i].AbsStart() <= m < sorted[i].AbsEnd() && sorted[i].unaccounted == u {
      assert sorted[i] in recs;
    }
  }

  lemma WithoutPlace<T>(s: seq<T>, k: nat)
    requires k < |s|
    ensures multiset(s[..k] + s[k + 1..]) == multiset(s) - multiset{s[k]}
  {
    assert s == s[..k] + ([s[k]] + s[k + 1..]);
  }

  lemma MiddleElements<T>(x: seq<T>, y: seq<T>, z: seq<T>)
    ensures multiset(x + y + z) == multiset(y) + multiset(x + z)
  {
  }

  lemma ExpandAround(b: seq<TimeInterval>, k: nat)
    requires k < |b|
    ensures ExpandAll(b) == ExpandAll(b[..k]) + Expand(b[k]) + ExpandAll(b[k + 1..])
  {
    hide ExpandAll, Expand;
    ExpandAllNext(b, k);
    ExpandAllConcat(b[..k + 1], b[k + 1..]);
    assert b == b[..k + 1] + b[k + 1..];
  }

  lemma ExpandWithoutPlace(b: seq<TimeInterval>, k: nat, x: seq<HourRecord>, y: seq<HourRecord>, z: seq<HourRecord>)
    requires k < |b|
    requires x == ExpandAll(b[..k]) && y == Expand(b[k]) && z == ExpandAll(b[k + 1..])
    ensures multiset(ExpandAll(b)) == multiset(y) + multiset(ExpandAll(b[..k] + b[k + 1..]))
  {
    ExpandAround(b, k);
    ExpandAllConcat(b[..k], b[k + 1..]);
    MiddleElements(x, y, z);
  }

  lemma {:induction false} ExpandAllReorders(a: seq<TimeInterval>, b: seq<TimeInterval>)
    requires multiset(a) == multiset(b)
    ensures multiset(ExpandAll(a)) == multiset(ExpandAll(b))
  {
    if a == [] {
      assert |multiset(b)| == |b|;
    } else {
      assert a[0] in multiset(b);
      var k :| 0 <= k < |b| && b[k] == a[0];
      TailElements(a);
      WithoutPlace(b, k);
      ExpandAllReorders(a[1..], b[..k] + b[k + 1..]);
      ExpandWithoutPlace(b, k, ExpandAll(b[..k]), Expand(b[k]), ExpandAll(b[k + 1..]));
    }
  }

  /** Any list the validator accepts, in any order and however cut up, comes back
      with the same (minute, flag) pairs as sorted, maximally merged intervals. */
  lemma RoundTripOfValidated(ivs: seq<TimeInterval>)
    requires AllValid(ivs) && Representable(ivs)
    ensures CanonicalIntervals(Reassemble(ExpandAll(ivs)))
    ensures forall m, u :: InIntervals(Reassemble(ExpandAll(ivs)), m, u) <==> InIntervals(ivs, m, u)
    ensures ExpandAll(Reassemble(ExpandAll(ivs))) == ByHour(ExpandAll(ivs))
  {
    var sorted := ByStart(ivs);
    NeighboursDecide(ivs);
    ExpandAllRecords(sorted);
    ExpandAllReorders(ivs, sorted);
    StrictlySortedUnique((r: HourRecord) => r.hour, ExpandAll(sorted), ByHour(ExpandAll(ivs)));
    SortedHoursStay(ExpandAll(sorted));
    DecodeThenEncode(ExpandAll(sorted));
    forall m, u
      ensures InIntervals(Reassemble(ExpandAll(ivs)), m, u) <==> InIntervals(ivs, m, u)
    {
      EncodeKeepsMinutes(ivs, m, u);
      DecodeKeepsMinutes(ExpandAll(ivs), m, u);
    }
  }

  // ---------- the keyed device payload ----------

  datatype HourSlot = HourSlot(startMin: int, endMin: int, unaccounted: bool)

  /** `hours_to_dbus_payload`: a dict keyed by clock hour, a later record replacing an earlier one. */
  function HoursToDbusPayload(recs: seq<HourRecord>): map<int, HourSlot> {
    if recs == [] then
      map[]
    else
      var last := recs[|recs| - 1];
      HoursToDbusPayload(recs[..|recs| - 1])[last.hour := HourSlot(last.startMin, last.endMin, last.unaccounted)]
  }

  lemma {:induction false} PayloadKeys(recs: seq<HourRecord>)
    ensures forall h :: h in HoursToDbusPayload(recs) <==> exists i :: 0 <= i < |recs| && recs[i].hour == h
    ensures HoursToDbusPayload(recs) == map[] <==> recs == []
  {
    if recs != [] {
      var n := |recs| - 1;
      PayloadKeys(recs[..n]);
      assert recs[n].hour in HoursToDbusPayload(recs);
      forall h
        ensures h in HoursToDbusPayload(recs) <==> exists i :: 0 <= i < |recs| && recs[i].hour == h
      {
        assert forall i | 0 <= i < n :: recs[i] == recs[..n][i];
      }
    }
  }

  lemma {:induction false} DistinctHoursKeepRecords(recs: seq<HourRecord>)
    requires forall i, j | 0 <= i < j < |recs| :: recs[i].hour != recs[j].hour
    ensures |HoursToDbusPayload(recs)| == |recs|
    ensures forall i | 0 <= i < |recs| ::
              && recs[i].hour in HoursToDbusPayload(recs)
              && HoursToDbusPayload(recs)[recs[i].hour] == HourSlot(recs[i].startMin, recs[i].endMin, recs[i].unaccounted)
  {
    if recs != [] {
      var n := |recs| - 1;
      var rest := recs[..n];
      assert forall i | 0 <= i < n :: rest[i] == recs[i];
      DistinctHoursKeepRecords(rest);
      PayloadKeys(rest);
      assert recs[n].hour !in HoursToDbusPayload(rest);
    }
  }

  /** Acceptance by the validator is what makes the keyed payload lossless:
      one entry for each record, and each record readable from its own key. */
  lemma AcceptedPayloadLosesNothing(ivs: seq<TimeInterval>)
    requires AllValid(ivs) && Representable(ivs)
    ensures var recs, payload := ExpandAll(ivs), HoursToDbusPayload(ExpandAll(ivs));
            && |payload| == |recs|
            && forall i | 0 <= i < |recs| ::
                 && recs[i].hour in payload
                 && payload[recs[i].hour] == HourSlot(recs[i].startMin, recs[i].endMin, recs[i].unaccounted)
  {
    var recs, sorted := ExpandAll(ivs), ByHour(ExpandAll(ivs));
    RoundTripOfValidated(ivs);
    DecodedHoursDistinct(ivs);
    DistinctHoursKeepRecords(recs);
  }

  lemma DecodedHoursDistinct(ivs: seq<TimeInterval>)
    requires AllValid(ivs) && Representable(ivs)
    ensures forall i, j | 0 <= i < j < |ExpandAll(ivs)| :: ExpandAll(ivs)[i].hour != ExpandAll(ivs)[j].hour
  {
    var recs, sorted := ExpandAll(ivs), ByHour(ExpandAll(ivs));
    RoundTripOfValidated(ivs);
    ExpandAllRecords(Reassemble(recs));
    hide ExpandAll, Reassemble, ByHour, Representable, AllValid, CanonicalIntervals;
    ReorderedHoursDistinct(sorted, recs);
  }

  lemma ReorderedHoursDistinct(sorted: seq<HourRecord>, recs: seq<HourRecord>)
    requires StrictHours(sorted) && multiset(sorted) == multiset(recs)
    ensures forall i, j | 0 <= i < j < |recs| :: recs[i].hour != recs[j].hour
  {
    forall i, j | 0 <= i < j < |recs|
      ensures recs[i].hour != recs[j].hour
    {
      var p, q := TwoPlaces(sorted, recs, i, j);
      assert sorted[Min(p, q)].hour < sorted[Max(p, q)].hour;
    }
  }

  /** Two places of `b` come from two places of any reordering `a` of it. */
  lemma TwoPlaces(a: seq<HourRecord>, b: seq<HourRecord>, i: nat, j: nat) returns (p: nat, q: nat)
    requires i < j < |b| && multiset(a) == multiset(b)
    requires forall k, l | 0 <= k < l < |a| :: a[k].hour != a[l].hour
    ensures p < |a| && q < |a| && p != q && a[p] == b[i] && a[q] == b[j]
  {
    DistinctMultiplicity(a);
    assert b[i] in multiset(b) && b[j] in multiset(b);
    DistinctMultiplicity(b);
    p :| 0 <= p < |a| && a[p] == b[i];
    q :| 0 <= q < |a| && a[q] == b[j];
  }
}
