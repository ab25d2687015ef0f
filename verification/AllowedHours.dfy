/**
 * The allowed-hours codec: time-of-day intervals to timekpr's per-hour records
 * and back, with the validator that decides which lists are representable.
 */
module AllowedHours {
  import opened Basics
  import opened Sorting

  /** [startMin, endMin) in minutes since midnight; `unaccounted` is timekpr's `!` flag. */
  datatype TimeInterval = TimeInterval(startMin: int, endMin: int, unaccounted: bool) {
    /** What `__post_init__` demands. */
    predicate Valid() {
      0 <= startMin < endMin <= 1440
    }

    function FirstHour(): int {
      startMin / 60
    }

    function LastHour(): int {
      (endMin - 1) / 60
    }
  }

  /** One ALLOWED_HOURS element: minutes [startMin, endMin) of clock hour `hour`. */
  datatype HourRecord = HourRecord(hour: int, startMin: int, endMin: int, unaccounted: bool) {
    /** The wire model's field bounds. */
    predicate InRange() {
      0 <= hour <= 23 && 0 <= startMin <= 60 && 0 <= endMin <= 60
    }

    predicate Empty() {
      startMin >= endMin
    }

    function AbsStart(): int {
      hour * 60 + startMin
    }

    function AbsEnd(): int {
      hour * 60 + endMin
    }

    function AsInterval(): TimeInterval {
      TimeInterval(AbsStart(), AbsEnd(), unaccounted)
    }
  }

  function Unrestricted(): seq<TimeInterval> {
    [TimeInterval(0, 1440, false)]
  }

  // ---------- the validator ----------

  datatype Conflict = Overlap(a: TimeInterval, b: TimeInterval) | SharedHour(a: TimeInterval, b: TimeInterval, hour: int)

  predicate Overlaps(a: TimeInterval, b: TimeInterval) {
    a.startMin < b.endMin && b.startMin < a.endMin
  }

  /** Some clock hour holds a minute of both. */
  predicate ShareHour(a: TimeInterval, b: TimeInterval) {
    a.FirstHour() <= b.LastHour() && b.FirstHour() <= a.LastHour()
  }

  ghost predicate Representable(ivs: seq<TimeInterval>) {
    forall i, j | 0 <= i < j < |ivs| :: !Overlaps(ivs[i], ivs[j]) && !ShareHour(ivs[i], ivs[j])
  }

  ghost predicate AllValid(ivs: seq<TimeInterval>) {
    forall iv | iv in ivs :: iv.Valid()
  }

  /** Each interval ends before the next one's first clock hour. */
  ghost predicate HourSeparated(ivs: seq<TimeInterval>) {
    forall i, j | 0 <= i < j < |ivs| :: ivs[i].LastHour() < ivs[j].FirstHour()
  }

  function ByStart(ivs: seq<TimeInterval>): (r: seq<TimeInterval>)
    ensures multiset(r) == multiset(ivs)
    ensures |r| == |ivs|
    ensures forall iv :: iv in r <==> iv in ivs
    ensures forall i, j | 0 <= i < j < |r| :: r[i].startMin <= r[j].startMin
  {
    var key := (iv: TimeInterval) => iv.startMin;
    var r := Sort(key, ivs);
    assert forall iv :: iv in r <==> iv in ivs by {
      forall iv ensures iv in r <==> iv in ivs { SortMembers(key, ivs, iv); }
    }
    assert forall i, j | 0 <= i < j < |r| :: key(r[i]) <= key(r[j]);
    r
  }

  /** `validate_intervals`: scan neighbours in start order, reporting the first clash.
      The scan accepts exactly the lists in which all pairs are compatible. */
  method ValidateIntervals(ivs: seq<TimeInterval>) returns (r: Option<Conflict>)
    requires AllValid(ivs)
    ensures r.None? <==> Representable(ivs)
    ensures r.None? <==> HourSeparated(ByStart(ivs))
    ensures r.Some? ==> r.value.a in ivs && r.value.b in ivs && ShareHour(r.value.a, r.value.b)
    ensures r.Some? ==> (r.value.Overlap? <==> Overlaps(r.value.a, r.value.b))
    ensures r.Some? && r.value.SharedHour? ==> r.value.hour == r.value.a.LastHour() == r.value.b.FirstHour()
  {
    var ordered := ByStart(ivs);
    NeighboursDecide(ivs);
    hide Representable, HourSeparated, ByStart;
    var i := 0;
    while i + 1 < |ordered|
      invariant 0 <= i && NeighboursSeparated(ordered, i + 1)
    {
      var a, b := ordered[i], ordered[i + 1];
      assert a in ivs && b in ivs && a.Valid() && b.Valid() && a.startMin <= b.startMin;
      if b.startMin < a.endMin {
        assert Separated(ordered, i) ==> false;
        return Some(Overlap(a, b));
      }
      var aLastHour := (a.endMin - 1) / 60;
      var bFirstHour := b.startMin / 60;
      if aLastHour == bFirstHour {
        assert Separated(ordered, i) ==> false;
        return Some(SharedHour(a, b, aLastHour));
      }
      i := i + 1;
    }
    return None;
  }

  predicate Separated(ordered: seq<TimeInterval>, i: int)
    requires 0 <= i && i + 1 < |ordered|
  {
    ordered[i].LastHour() < ordered[i + 1].FirstHour()
  }

  ghost predicate NeighboursSeparated(ordered: seq<TimeInterval>, n: int) {
    forall i | 0 <= i && i + 1 < n && i + 1 < |ordered| :: Separated(ordered, i)
  }

  /** Looking at neighbours in start order is enough, whatever order the list came in. */
  lemma NeighboursDecide(ivs: seq<TimeInterval>)
    requires AllValid(ivs)
    ensures var ordered := ByStart(ivs);
            && (NeighboursSeparated(ordered, |ordered|) <==> HourSeparated(ordered))
            && (HourSeparated(ordered) <==> Representable(ivs))
  {
    var ordered := ByStart(ivs);
    assert AllValid(ordered);
    if NeighboursSeparated(ordered, |ordered|) {
      forall i, j | 0 <= i < j < |ordered|
        ensures ordered[i].LastHour() < ordered[j].FirstHour()
      {
        SeparationChains(ordered, i, j);
      }
    }
    if HourSeparated(ordered) {
      forall i | 0 <= i && i + 1 < |ordered| ensures Separated(ordered, i) {}
    }
    SeparatedIsRepresentable(ordered);
    RepresentableByValue(ordered);
    RepresentableByValue(ivs);
  }

  lemma {:induction false} SeparationChains(ordered: seq<TimeInterval>, i: int, j: int)
    requires AllValid(ordered) && NeighboursSeparated(ordered, |ordered|)
    requires 0 <= i < j < |ordered|
    ensures ordered[i].LastHour() < ordered[j].FirstHour()
    decreases j - i
  {
    assert Separated(ordered, j - 1);
    if i < j - 1 {
      SeparationChains(ordered, i, j - 1);
      assert ordered[j - 1].Valid();
    }
  }

  lemma SeparatedIsRepresentable(ordered: seq<TimeInterval>)
    requires AllValid(ordered)
    requires forall i, j | 0 <= i < j < |ordered| :: ordered[i].startMin <= ordered[j].startMin
    ensures HourSeparated(ordered) <==> Representable(ordered)
  {
    forall i, j | 0 <= i < j < |ordered|
      ensures ordered[i].LastHour() < ordered[j].FirstHour() <==>
              !Overlaps(ordered[i], ordered[j]) && !ShareHour(ordered[i], ordered[j])
    {
      assert ordered[i].Valid() && ordered[j].Valid();
    }
  }

  ghost predicate CompatibleValues(m: multiset<TimeInterval>) {
    && (forall x | x in m :: m[x] <= 1)
    && (forall x, y | x in m && y in m && x != y :: !Overlaps(x, y) && !ShareHour(x, y))
  }

  /** Compatibility of all pairs depends on the elements only: a valid interval clashes with its copy. */
  lemma RepresentableByValue(ivs: seq<TimeInterval>)
    requires AllValid(ivs)
    ensures Representable(ivs) <==> CompatibleValues(multiset(ivs))
  {
    DistinctMultiplicity(ivs);
    var m := multiset(ivs);
    if Representable(ivs) {
      forall i, j | 0 <= i < j < |ivs| ensures ivs[i] != ivs[j] { assert ivs[i].Valid(); }
      forall x, y | x in m && y in m && x != y
        ensures !Overlaps(x, y) && !ShareHour(x, y)
      {
        var i :| 0 <= i < |ivs| && ivs[i] == x;
        var j :| 0 <= j < |ivs| && ivs[j] == y;
        var p, q := Min(i, j), Max(i, j);
        assert !Overlaps(ivs[p], ivs[q]) && !ShareHour(ivs[p], ivs[q]);
      }
    }
  }

  lemma DistinctMultiplicity<T>(s: seq<T>)
    ensures (forall x | x in multiset(s) :: multiset(s)[x] <= 1) <==> forall i, j | 0 <= i < j < |s| :: s[i] != s[j]
  {
    if forall i, j | 0 <= i < j < |s| :: s[i] != s[j] {
      forall x | x in multiset(s) ensures multiset(s)[x] <= 1 { DistinctOccursOnce(s, x); }
    }
    forall i, j | 0 <= i < j < |s| && s[i] == s[j]
      ensures multiset(s)[s[i]] >= 2
    {
      assert s == s[..j] + s[j..];
      assert s[i] in s[..j] && s[j] in s[j..];
    }
  }

  lemma {:induction false} DistinctOccursOnce<T>(s: seq<T>, x: T)
    requires forall i, j | 0 <= i < j < |s| :: s[i] != s[j]
    ensures multiset(s)[x] <= 1
  {
    if s != [] {
      assert s == [s[0]] + s[1..];
      DistinctOccursOnce(s[1..], x);
      if x == s[0] {
        assert x !in s[1..];
      }
    }
  }

  // ---------- intervals to hours ----------

  function RecordAt(iv: TimeInterval, hour: int): HourRecord {
    HourRecord(hour, Max(iv.startMin - hour * 60, 0), Min(iv.endMin - hour * 60, 60), iv.unaccounted)
  }

  /** The records of `iv` from clock hour `hour` on. */
  function ExpandFrom(iv: TimeInterval, hour: int): seq<HourRecord>
    decreases iv.LastHour() - hour
  {
    if hour > iv.LastHour() then [] else [RecordAt(iv, hour)] + ExpandFrom(iv, hour + 1)
  }

  function Expand(iv: TimeInterval): seq<HourRecord> {
    ExpandFrom(iv, iv.FirstHour())
  }

  function ExpandAll(ivs: seq<TimeInterval>): seq<HourRecord> {
    if ivs == [] then [] else Expand(ivs[0]) + ExpandAll(ivs[1..])
  }

  /** `intervals_to_hours`. */
  method IntervalsToHours(ivs: seq<TimeInterval>) returns (records: seq<HourRecord>)
    requires AllValid(ivs)
    ensures records == ExpandAll(ivs)
  {
    assert ExpandAll(ivs[..0]) == [];
    hide ExpandAll, ExpandFrom, Expand;
    records := [];
    for i := 0 to |ivs|
      invariant records == ExpandAll(ivs[..i])
    {
      var interval := ivs[i];
      assert interval.Valid();
      var firstHour := interval.startMin / 60;
      var lastHour := (interval.endMin - 1) / 60;
      ghost var before := records;
      for hour := firstHour to lastHour + 1
        invariant records == before + ExpandUpTo(interval, hour)
      {
        var hourStart := hour * 60;
        var startMin := Max(interval.startMin - hourStart, 0);
        var endMin := Min(interval.endMin - hourStart, 60);
        records := records + [HourRecord(hour, startMin, endMin, interval.unaccounted)];
      }
      ExpandedFully(interval);
      ExpandAllNext(ivs, i);
    }
    assert ivs[..|ivs|] == ivs;
  }

  /** The records of `iv` before clock hour `hour`. */
  function ExpandUpTo(iv: TimeInterval, hour: int): seq<HourRecord>
    decreases hour - iv.FirstHour()
  {
    if hour <= iv.FirstHour() then [] else ExpandUpTo(iv, hour - 1) + [RecordAt(iv, hour - 1)]
  }

  lemma {:induction false} ExpandSplits(iv: TimeInterval, hour: int)
    requires iv.FirstHour() <= hour <= iv.LastHour() + 1
    ensures Expand(iv) == ExpandUpTo(iv, hour) + ExpandFrom(iv, hour)
    decreases hour - iv.FirstHour()
  {
    if hour > iv.FirstHour() {
      ExpandSplits(iv, hour - 1);
    }
  }

  lemma ExpandedFully(iv: TimeInterval)
    requires iv.Valid()
    ensures Expand(iv) == ExpandUpTo(iv, iv.LastHour() + 1)
  {
    ExpandSplits(iv, iv.LastHour() + 1);
  }

  lemma {:induction false} ExpandAllConcat(a: seq<TimeInterval>, b: seq<TimeInterval>)
    ensures ExpandAll(a + b) == ExpandAll(a) + ExpandAll(b)
  {
    if a == [] {
      assert a + b == b;
    } else {
      assert (a + b)[1..] == a[1..] + b;
      ExpandAllConcat(a[1..], b);
    }
  }

  lemma ExpandAllNext(ivs: seq<TimeInterval>, i: nat)
    requires i < |ivs|
    ensures ExpandAll(ivs[..i + 1]) == ExpandAll(ivs[..i]) + Expand(ivs[i])
  {
    assert ivs[..i + 1] == ivs[..i] + [ivs[i]];
    ExpandAllConcat(ivs[..i], [ivs[i]]);
  }

  // ---------- hours to intervals ----------

  /** Does `rec` continue the run `cur`? */
  predicate Continues(cur: TimeInterval, rec: HourRecord) {
    rec.AbsStart() == cur.endMin && rec.unaccounted == cur.unaccounted
  }

  /** Merge `recs`, in order, behind the open run `cur`. */
  function Merge(cur: TimeInterval, recs: seq<HourRecord>): seq<TimeInterval>
    decreases |recs|
  {
    if recs == [] then [cur]
    else if recs[0].Empty() then Merge(cur, recs[1..])
    else if Continues(cur, recs[0]) then Merge(cur.(endMin := recs[0].AbsEnd()), recs[1..])
    else [cur] + Merge(recs[0].AsInterval(), recs[1..])
  }

  function MergeAll(recs: seq<HourRecord>): seq<TimeInterval> {
    if recs == [] then []
    else if recs[0].Empty() then MergeAll(recs[1..])
    else Merge(recs[0].AsInterval(), recs[1..])
  }

  function ByHour(recs: seq<HourRecord>): (r: seq<HourRecord>)
    ensures multiset(r) == multiset(recs)
    ensures |r| == |recs|
    ensures forall rec :: rec in r <==> rec in recs
    ensures forall i, j | 0 <= i < j < |r| :: r[i].hour <= r[j].hour
  {
    var key := (r: HourRecord) => r.hour;
    var r := Sort(key, recs);
    assert forall rec :: rec in r <==> rec in recs by {
      forall rec ensures rec in r <==> rec in recs { SortMembers(key, recs, rec); }
    }
    assert forall i, j | 0 <= i < j < |r| :: key(r[i]) <= key(r[j]);
    r
  }

  function Reassemble(recs: seq<HourRecord>): seq<TimeInterval> {
    MergeAll(ByHour(recs))
  }

  function Behind(cur: Option<TimeInterval>, recs: seq<HourRecord>): seq<TimeInterval> {
    if cur.Some? then Merge(cur.value, recs) else MergeAll(recs)
  }

  /** The merging loop has finished `done`, has the run `cur` open and still reads `rest`. */
  ghost predicate Merging(done: seq<TimeInterval>, cur: Option<TimeInterval>, rest: seq<HourRecord>,
                          result: seq<TimeInterval>) {
    done + Behind(cur, rest) == result
  }

  lemma MergingStep(done: seq<TimeInterval>, cur: Option<TimeInterval>, rest: seq<HourRecord>,
                    result: seq<TimeInterval>)
    requires rest != [] && Merging(done, cur, rest, result)
    ensures var rec := rest[0];
            if rec.Empty() then Merging(done, cur, rest[1..], result)
            else if cur.Some? && Continues(cur.value, rec) then
              Merging(done, Some(cur.value.(endMin := rec.AbsEnd())), rest[1..], result)
            else
              Merging(if cur.Some? then done + [cur.value] else done, Some(rec.AsInterval()), rest[1..], result)
  {
  }

  lemma MergingEnds(recs: seq<HourRecord>, done: seq<TimeInterval>, cur: Option<TimeInterval>, result: seq<TimeInterval>)
    ensures Merging([], None, recs, MergeAll(recs))
    ensures Merging(done, cur, [], result) ==> result == done + if cur.Some? then [cur.value] else []
  {
  }

  /** `hours_to_intervals`. */
  method HoursToIntervals(recs: seq<HourRecord>) returns (intervals: seq<TimeInterval>)
    requires forall r | r in recs :: r.InRange()
    ensures intervals == Reassemble(recs)
  {
    hide Merging, Merge, MergeAll;
    var ordered := ByHour(recs);
    intervals := [];
    var cur: Option<TimeInterval> := None;
    ghost var rest := ordered;
    MergingEnds(ordered, intervals, cur, []);
    for i := 0 to |ordered|
      invariant rest == ordered[i..]
      invariant Merging(intervals, cur, rest, MergeAll(ordered))
    {
      var rec := ordered[i];
      var absStart, absEnd := rec.hour * 60 + rec.startMin, rec.hour * 60 + rec.endMin;
      MergingStep(intervals, cur, rest, MergeAll(ordered));
      rest := rest[1..];
      if absStart >= absEnd {
        continue;
      }
      if cur.Some? && absStart == cur.value.endMin && rec.unaccounted == cur.value.unaccounted {
        cur := Some(cur.value.(endMin := absEnd));
      } else {
        if cur.Some? {
          intervals := intervals + [cur.value];
        }
        cur := Some(TimeInterval(absStart, absEnd, rec.unaccounted));
      }
    }
    assert rest == [];
    MergingEnds(ordered, intervals, cur, MergeAll(ordered));
    if cur.Some? {
      intervals := intervals + [cur.value];
    }
  }
}
