/**
 * The policy editor's view of one day's hours: classify the stored records, print the form's times,
 * and parse the submitted form back into records.
 */
module HoursEditor {
  import opened Basics
  import opened Sorting
  import opened AllowedHours
  import opened AllowedHoursCodec

  const FULL_DAY_MIN := 1440
  const BETWEEN_SEED_FROM := 540
  const BETWEEN_SEED_TO := 1020

  datatype Mode = All | BetweenTimes | Custom

  datatype Classified = Classified(mode: Mode, fromMin: int, toMin: int, hours: set<int>, unaccounted: bool)

  function HoursOfDay(): set<int> {
    {0, 1, 2, 3, 4, 5, 6, 7, 8, 9, 10, 11, 12, 13, 14, 15, 16, 17, 18, 19, 20, 21, 22, 23}
  }

  function HourSet(recs: seq<HourRecord>): (r: set<int>)
    ensures forall h :: h in r <==> exists i :: 0 <= i < |recs| && recs[i].hour == h
  {
    set i | 0 <= i < |recs| :: recs[i].hour
  }

  predicate AllUnaccounted(recs: seq<HourRecord>) {
    recs != [] && forall i | 0 <= i < |recs| :: recs[i].unaccounted
  }

  /** `_classify_day_hours`; None is a day that was never set. */
  function Classify(stored: Option<seq<HourRecord>>): Classified {
    if stored.None? then Classified(All, BETWEEN_SEED_FROM, BETWEEN_SEED_TO, HoursOfDay(), false)
    else
      var recs := stored.value;
      var merged := Reassemble(recs);
      if merged == [] then
        Classified(Custom, BETWEEN_SEED_FROM, BETWEEN_SEED_TO, HourSet(recs), AllUnaccounted(recs))
      else if |merged| == 1 && merged[0].startMin == 0 && merged[0].endMin == FULL_DAY_MIN then
        Classified(All, BETWEEN_SEED_FROM, BETWEEN_SEED_TO, HoursOfDay(), false)
      else if |merged| == 1 && !merged[0].unaccounted then
        Classified(BetweenTimes, merged[0].startMin, merged[0].endMin, HourSet(recs), false)
      else
        Classified(Custom, 0, 0, HourSet(recs), AllUnaccounted(recs))
  }

  // ---------- times as text ----------

  function Digit(d: int): char
    requires 0 <= d <= 9
  {
    '0' + d as char
  }

  function TwoDigits(n: int): string
    requires 0 <= n < 100
  {
    [Digit(n / 10), Digit(n % 10)]
  }

  /** `_fmt_hm`. */
  function FmtHm(totalMin: int): string
    requires 0 <= totalMin <= FULL_DAY_MIN
  {
    TwoDigits(totalMin / 60) + ":" + TwoDigits(totalMin % 60)
  }

  /** `int(text)` on a plain digit string. */
  function ParseInt(text: string): Option<int> {
    if text == "" then None
    else
      var c := text[|text| - 1];
      var high := if |text| == 1 then Some(0) else ParseInt(text[..|text| - 1]);
      if high.None? || !('0' <= c <= '9') then None else Some(high.value * 10 + (c - '0') as int)
  }

  /** Where the first ':' is, or the length. */
  function FirstColon(text: string): (i: nat)
    ensures i <= |text| && (i < |text| ==> text[i] == ':') && forall j | 0 <= j < i :: text[j] != ':'
  {
    if text == "" || text[0] == ':' then 0 else 1 + FirstColon(text[1..])
  }

  /** `_parse_time_str`: None is the 422. */
  function ParseTime(value: string): Option<int> {
    var i := FirstColon(value);
    if i == |value| || ':' in value[i + 1..] then None
    else
      var hh, mm := ParseInt(value[..i]), ParseInt(value[i + 1..]);
      if hh.None? || mm.None? then None
      else
        var total := hh.value * 60 + mm.value;
        if 0 <= total <= FULL_DAY_MIN then Some(total) else None
  }

  lemma TwoDigitsParse(n: int)
    requires 0 <= n < 100
    ensures ParseInt(TwoDigits(n)) == Some(n)
    ensures ':' !in TwoDigits(n)
  {
    var text := TwoDigits(n);
    assert text[..1] == [Digit(n / 10)];
    assert ParseInt(text[..1]) == Some(n / 10);
  }

  /** Every time of day, midnight at either end included, survives printing and parsing. */
  lemma TimeRoundTrip(totalMin: int)
    requires 0 <= totalMin <= FULL_DAY_MIN
    ensures ParseTime(FmtHm(totalMin)) == Some(totalMin)
  {
    var hh, mm := TwoDigits(totalMin / 60), TwoDigits(totalMin % 60);
    TwoDigitsParse(totalMin / 60);
    TwoDigitsParse(totalMin % 60);
    var text := FmtHm(totalMin);
    assert text[0] == hh[0] && text[1] == hh[1] && text[2] == ':';
    assert FirstColon(text) == 2;
    assert text[..2] == hh && text[3..] == mm;
  }

  // ---------- the form ----------

  /** One day's fields as the browser submits them. */
  datatype Form = Form(mode: Mode, from: string, to: string, checked: set<int>, unaccounted: bool)

  datatype Parsed = Invalid | Saved(records: seq<HourRecord>)

  function CheckedHours(checked: set<int>, from: int): seq<int>
    decreases 24 - from
  {
    if from >= 24 then [] else (if from in checked then [from] else []) + CheckedHours(checked, from + 1)
  }

  function WholeHours(hours: seq<int>, unaccounted: bool): (r: seq<HourRecord>)
    ensures |r| == |hours| && forall i | 0 <= i < |r| :: r[i] == HourRecord(hours[i], 0, 60, unaccounted)
  {
    seq(|hours|, i requires 0 <= i < |hours| => HourRecord(hours[i], 0, 60, unaccounted))
  }

  /** `_parse_day_hours`. A single interval never conflicts with itself, so validity is all that is checked. */
  function ParseDay(form: Form): Parsed {
    match form.mode
    case All => Saved(ExpandAll(Unrestricted()))
    case BetweenTimes =>
      var from, to := ParseTime(form.from), ParseTime(form.to);
      if from.None? || to.None? then Invalid
      else
        var interval := TimeInterval(from.value, to.value, false);
        if interval.Valid() then Saved(ExpandAll([interval])) else Invalid
    case Custom =>
      var hours := CheckedHours(form.checked, 0);
      if hours == [] then Invalid else Saved(WholeHours(hours, form.unaccounted))
  }

  /** The form as the editor renders it for a classified day. */
  function Render(c: Classified): Form
    requires 0 <= c.fromMin <= FULL_DAY_MIN && 0 <= c.toMin <= FULL_DAY_MIN
  {
    Form(c.mode, FmtHm(c.fromMin), FmtHm(c.toMin), c.hours, c.unaccounted)
  }

  // ---------- facts about a canonical day ----------

  ghost predicate Storable(recs: seq<HourRecord>) {
    && (forall i | 0 <= i < |recs| :: recs[i].InRange() && !recs[i].Empty())
    && DistinctHours(recs)
  }

  lemma ByHourIsCanonical(recs: seq<HourRecord>)
    requires Storable(recs)
    ensures CanonicalRecords(ByHour(recs)) && ByHour(ByHour(recs)) == ByHour(recs)
  {
    var sorted := ByHour(recs);
    forall r | r in sorted
      ensures r.InRange() && !r.Empty()
    {
      assert r in recs;
    }
    forall i, j | 0 <= i < j < |sorted|
      ensures sorted[i].hour < sorted[j].hour
    {
      if sorted[i].hour == sorted[j].hour {
        SameHourSameRecord(recs, sorted[i], sorted[j]);
        var p, q := TwoPlaces(recs, sorted, i, j);
        assert false;
      }
    }
    SortedHoursStay(sorted);
  }

  lemma SameHourSameRecord(recs: seq<HourRecord>, a: HourRecord, b: HourRecord)
    requires Storable(recs) && a in recs && b in recs && a.hour == b.hour
    ensures a == b
  {
  }

  /** Only the records in hour order matter to what the editor shows, whatever is stored. */
  lemma ClassifyReadsInHourOrder(recs: seq<HourRecord>)
    ensures Classify(Some(recs)) == Classify(Some(ByHour(recs)))
  {
    hide ByHour, Reassemble, HourSet, AllUnaccounted;
    var sorted := ByHour(recs);
    SameMerge(recs);
    SameHours(recs, sorted);
    SameHours(sorted, recs);
    SameFlags(recs, sorted);
  }

  lemma SameMerge(recs: seq<HourRecord>)
    ensures ByHour(ByHour(recs)) == ByHour(recs)
    ensures Reassemble(ByHour(recs)) == Reassemble(recs)
  {
    var key := (r: HourRecord) => r.hour;
    SortKeepsSorted(key, ByHour(recs));
  }

  ghost predicate DistinctHours(recs: seq<HourRecord>) {
    forall i, j | 0 <= i < j < |recs| :: recs[i].hour != recs[j].hour
  }

  /** So with no hour stored twice the stored order is irrelevant. */
  lemma ClassifyIgnoresOrder(a: seq<HourRecord>, b: seq<HourRecord>)
    requires DistinctHours(a) && multiset(a) == multiset(b)
    ensures Classify(Some(a)) == Classify(Some(b))
  {
    var key := (r: HourRecord) => r.hour;
    var x, y := ByHour(a), ByHour(b);
    forall i, j | 0 <= i < j < |x|
      ensures key(x[i]) < key(x[j])
    {
      var p, q := TwoPlaces(a, x, i, j);
      assert x[i].hour <= x[j].hour;
    }
    StrictlySortedUnique(key, x, y);
    ClassifyReadsInHourOrder(a);
    ClassifyReadsInHourOrder(b);
  }

  lemma SameFlags(a: seq<HourRecord>, b: seq<HourRecord>)
    requires (forall r :: r in a <==> r in b) && |a| == |b|
    ensures AllUnaccounted(a) == AllUnaccounted(b)
  {
    assert forall i | 0 <= i < |a| :: a[i] in b;
    assert forall i | 0 <= i < |b| :: b[i] in a;
  }

  lemma SameHours(a: seq<HourRecord>, b: seq<HourRecord>)
    requires forall r :: r in a ==> r in b
    ensures HourSet(a) <= HourSet(b)
  {
    forall h | h in HourSet(a)
      ensures h in HourSet(b)
    {
      var i :| 0 <= i < |a| && a[i].hour == h;
      assert a[i] in b;
      var j :| 0 <= j < |b| && b[j] == a[i];
    }
  }

  ghost predicate IncreasingFrom(hours: seq<int>, from: int) {
    && (hours == [] || from <= hours[0] < 24)
    && (forall i | 0 <= i < |hours| :: from <= hours[i] < 24)
    && Increasing(hours)
  }

  ghost predicate Increasing(hours: seq<int>) {
    forall i, j | 0 <= i < j < |hours| :: hours[i] < hours[j]
  }

  /** Reading the checked boxes in order gives back an increasing list of hours. */
  lemma {:induction false} CheckedIncreasing(checked: set<int>, hours: seq<int>, from: int)
    requires 0 <= from <= 24 && IncreasingFrom(hours, from)
    requires forall h | from <= h < 24 :: h in checked <==> h in hours
    ensures CheckedHours(checked, from) == hours
    decreases 24 - from
  {
    hide IncreasingFrom;
    if from == 24 {
      NothingPastMidnight(hours);
    } else if from in checked {
      FirstIsFrom(hours, from);
      CheckedIncreasing(checked, hours[1..], from + 1);
    } else {
      NoneIsFrom(hours, from);
      CheckedIncreasing(checked, hours, from + 1);
    }
  }

  lemma NothingPastMidnight(hours: seq<int>)
    requires IncreasingFrom(hours, 24)
    ensures hours == []
  {
  }

  lemma FirstIsFrom(hours: seq<int>, from: int)
    requires IncreasingFrom(hours, from) && from in hours
    ensures hours == [from] + hours[1..] && IncreasingFrom(hours[1..], from + 1)
  {
    var k :| 0 <= k < |hours| && hours[k] == from;
    var first := hours[0];
    assert from <= first && k == 0;
    assert forall i | 0 <= i < |hours[1..]| :: hours[1..][i] == hours[i + 1];
  }

  lemma NoneIsFrom(hours: seq<int>, from: int)
    requires IncreasingFrom(hours, from) && from !in hours
    ensures IncreasingFrom(hours, from + 1)
  {
    assert forall i | 0 <= i < |hours| :: hours[i] in hours;
  }

  function HourList(recs: seq<HourRecord>): (r: seq<int>)
    ensures |r| == |recs| && forall i | 0 <= i < |r| :: r[i] == recs[i].hour
  {
    seq(|recs|, i requires 0 <= i < |recs| => recs[i].hour)
  }

  /** Custom mode writes back one whole hour for each stored record, in hour order. */
  lemma CustomWritesWholeHours(recs: seq<HourRecord>)
    requires CanonicalRecords(recs)
    ensures CheckedHours(HourSet(recs), 0) == HourList(recs)
  {
    var hours := HourList(recs);
    forall i | 0 <= i < |hours|
      ensures 0 <= hours[i] < 24
    {
      assert recs[i] in recs;
    }
    forall h | 0 <= h < 24
      ensures h in HourSet(recs) <==> h in hours
    {
      if h in HourSet(recs) {
        var i :| 0 <= i < |recs| && recs[i].hour == h;
        assert hours[i] == h;
      }
      if h in hours {
        var i :| 0 <= i < |hours| && hours[i] == h;
        assert recs[i].hour == h;
      }
    }
    CheckedIncreasing(HourSet(recs), hours, 0);
  }

  // ---------- the round trip ----------

  /** Stored as whole clock hours with one flag for all of them. */
  predicate WholeUniform(recs: seq<HourRecord>) {
    && (forall i | 0 <= i < |recs| :: recs[i].startMin == 0 && recs[i].endMin == 60)
    && (forall i | 0 <= i < |recs| :: recs[i].unaccounted == recs[0].unaccounted)
  }

  /** What the editor can carry: one accounted interval, or uniform whole hours; except that a full
      unaccounted day is shown as "all day" and so loses its flag. */
  predicate Editable(recs: seq<HourRecord>) {
    var merged := Reassemble(recs);
    && recs != []
    && ((|merged| == 1 && !merged[0].unaccounted) ||
        (WholeUniform(recs) && merged != [TimeInterval(0, FULL_DAY_MIN, true)]))
  }

  lemma MergedFacts(recs: seq<HourRecord>)
    requires CanonicalRecords(recs)
    ensures var merged := Reassemble(recs);
            && ExpandAll(merged) == recs
            && (merged == [] <==> recs == [])
            && (forall iv | iv in merged :: iv.Valid())
  {
    DecodeThenEncode(recs);
    SortedHoursStay(recs);
    var merged := Reassemble(recs);
    if recs == [] {
      assert merged == [];
    }
    forall iv | iv in merged
      ensures iv.Valid()
    {
      var i :| 0 <= i < |merged| && merged[i] == iv;
    }
  }

  lemma CustomRoundTripIff(recs: seq<HourRecord>)
    requires CanonicalRecords(recs) && recs != []
    ensures WholeHours(HourList(recs), AllUnaccounted(recs)) == recs <==> WholeUniform(recs)
  {
    var back := WholeHours(HourList(recs), AllUnaccounted(recs));
    assert back == recs <==> forall i | 0 <= i < |recs| :: back[i] == recs[i];
    if back == recs {
      assert forall i | 0 <= i < |recs| :: recs[i] == HourRecord(recs[i].hour, 0, 60, AllUnaccounted(recs));
    }
    if WholeUniform(recs) {
      assert AllUnaccounted(recs) == recs[0].unaccounted;
    }
  }

  lemma FullDayFirstRecord(iv: TimeInterval)
    requires iv.startMin == 0 && iv.endMin == FULL_DAY_MIN
    ensures ExpandAll([iv]) != [] && ExpandAll([iv])[0].unaccounted == iv.unaccounted
  {
    assert ExpandAll([iv]) == Expand(iv) + ExpandAll([]);
    assert Expand(iv)[0] == RecordAt(iv, 0);
  }

  lemma SingleFullDay(recs: seq<HourRecord>, iv: TimeInterval)
    requires recs == ExpandAll([iv]) && iv.startMin == 0 && iv.endMin == FULL_DAY_MIN
    ensures ExpandAll(Unrestricted()) == recs <==> !iv.unaccounted
  {
    var open := Unrestricted()[0];
    assert Unrestricted() == [open];
    FullDayFirstRecord(iv);
    FullDayFirstRecord(open);
    hide ExpandAll;
    assert !iv.unaccounted ==> iv == open;
  }

  lemma ClassifyInBounds(stored: Option<seq<HourRecord>>)
    requires stored.Some? ==> forall iv | iv in Reassemble(stored.value) :: iv.Valid()
    ensures 0 <= Classify(stored).fromMin <= FULL_DAY_MIN && 0 <= Classify(stored).toMin <= FULL_DAY_MIN
  {
    hide Reassemble, HourSet, AllUnaccounted;
    if stored.Some? && |Reassemble(stored.value)| == 1 {
      assert Reassemble(stored.value)[0] in Reassemble(stored.value);
    }
  }

  lemma BetweenTimesRoundTrip(iv: TimeInterval, hours: set<int>)
    requires iv.Valid() && !iv.unaccounted
    ensures ParseDay(Render(Classified(BetweenTimes, iv.startMin, iv.endMin, hours, false))) == Saved(ExpandAll([iv]))
  {
    hide ExpandAll, FmtHm, ParseTime, CheckedHours, WholeHours;
    TimeRoundTrip(iv.startMin);
    TimeRoundTrip(iv.endMin);
    assert iv == TimeInterval(iv.startMin, iv.endMin, false);
  }

  lemma CustomParsesTo(recs: seq<HourRecord>, from: int, to: int)
    requires CanonicalRecords(recs) && 0 <= from <= FULL_DAY_MIN && 0 <= to <= FULL_DAY_MIN
    ensures ParseDay(Render(Classified(Custom, from, to, HourSet(recs), AllUnaccounted(recs)))) == Saved(recs)
            <==> recs != [] && WholeUniform(recs)
  {
    hide ExpandAll, FmtHm, ParseTime, CheckedHours, WholeUniform, AllUnaccounted, HourSet, CanonicalRecords, WholeHours,
         HourList;
    CustomWritesWholeHours(recs);
    if recs != [] {
      CustomRoundTripIff(recs);
    }
  }

  lemma CanonicalRoundTripIff(recs: seq<HourRecord>)
    requires CanonicalRecords(recs)
    ensures var c := Classify(Some(recs));
            && 0 <= c.fromMin <= FULL_DAY_MIN && 0 <= c.toMin <= FULL_DAY_MIN
            && (ParseDay(Render(c)) == Saved(recs) <==> Editable(recs))
  {
    MergedFacts(recs);
    ClassifyInBounds(Some(recs));
    var merged := Reassemble(recs);
    hide ExpandAll, Reassemble, Render, ParseDay, WholeUniform, AllUnaccounted, HourSet;
    if merged == [] {
      CustomParsesTo(recs, BETWEEN_SEED_FROM, BETWEEN_SEED_TO);
    } else if |merged| == 1 && merged[0].startMin == 0 && merged[0].endMin == FULL_DAY_MIN {
      assert merged == [merged[0]];
      SingleFullDay(recs, merged[0]);
      AllDayParses(BETWEEN_SEED_FROM, BETWEEN_SEED_TO);
    } else if |merged| == 1 && !merged[0].unaccounted {
      assert merged == [merged[0]] && merged[0] in merged;
      BetweenTimesRoundTrip(merged[0], HourSet(recs));
    } else {
      CustomParsesTo(recs, 0, 0);
    }
  }

  lemma AllDayParses(from: int, to: int)
    requires 0 <= from <= FULL_DAY_MIN && 0 <= to <= FULL_DAY_MIN
    ensures ParseDay(Render(Classified(All, from, to, HoursOfDay(), false))) == Saved(ExpandAll(Unrestricted()))
  {
  }

  // ---------- stored lists of any kind ----------

  ghost predicate AllInRange(recs: seq<HourRecord>) {
    forall i | 0 <= i < |recs| :: recs[i].InRange()
  }

  lemma {:induction false} MergeIsValid(cur: TimeInterval, recs: seq<HourRecord>)
    requires cur.Valid() && AllInRange(recs)
    ensures forall iv | iv in Merge(cur, recs) :: iv.Valid()
    decreases |recs|
  {
    if recs != [] {
      var rec := recs[0];
      assert rec.InRange();
      if rec.Empty() {
        MergeIsValid(cur, recs[1..]);
      } else if Continues(cur, rec) {
        MergeIsValid(cur.(endMin := rec.AbsEnd()), recs[1..]);
      } else {
        MergeIsValid(rec.AsInterval(), recs[1..]);
      }
    }
  }

  lemma {:induction false} MergeAllIsValid(recs: seq<HourRecord>)
    requires AllInRange(recs)
    ensures forall iv | iv in MergeAll(recs) :: iv.Valid()
  {
    if recs != [] {
      assert recs[0].InRange();
      if recs[0].Empty() {
        MergeAllIsValid(recs[1..]);
      } else {
        MergeIsValid(recs[0].AsInterval(), recs[1..]);
      }
    }
  }

  lemma ReassembledIsValid(recs: seq<HourRecord>)
    requires AllInRange(recs)
    ensures forall iv | iv in Reassemble(recs) :: iv.Valid()
  {
    var sorted := ByHour(recs);
    forall i | 0 <= i < |sorted|
      ensures sorted[i].InRange()
    {
      assert sorted[i] in recs;
    }
    MergeAllIsValid(sorted);
  }

  lemma {:induction false} CheckedHoursIncrease(checked: set<int>, from: int)
    requires 0 <= from <= 24
    ensures IncreasingFrom(CheckedHours(checked, from), from)
    decreases 24 - from
  {
    hide IncreasingFrom;
    NothingIncreases(from);
    if from < 24 {
      CheckedHoursIncrease(checked, from + 1);
      OneMoreHour(CheckedHours(checked, from + 1), from);
    }
  }

  lemma NothingIncreases(from: int)
    ensures IncreasingFrom([], from)
  {
  }

  lemma OneMoreHour(hours: seq<int>, from: int)
    requires IncreasingFrom(hours, from + 1) && from < 24
    ensures IncreasingFrom([from] + hours, from) && IncreasingFrom([] + hours, from)
  {
    assert [] + hours == hours;
    SmallerFirst(from, hours);
    hide Increasing;
  }

  lemma SmallerFirst(x: int, hours: seq<int>)
    requires Increasing(hours) && forall i | 0 <= i < |hours| :: x < hours[i]
    ensures Increasing([x] + hours)
  {
  }

  lemma OneIntervalIsCanonical(iv: TimeInterval)
    requires iv.Valid()
    ensures CanonicalRecords(ExpandAll([iv]))
  {
    ExpandAllRecords([iv]);
  }

  /** Whatever is submitted, what the editor saves is sorted, with distinct hours and no empty record. */
  lemma EditorSavesCanonical(form: Form)
    ensures ParseDay(form).Saved? ==> CanonicalRecords(ParseDay(form).records)
  {
    OneIntervalIsCanonical(Unrestricted()[0]);
    assert Unrestricted() == [Unrestricted()[0]];
    hide ExpandAll, ParseTime, CanonicalRecords, WholeHours, CheckedHours;
    match form.mode
    case All =>
    case BetweenTimes =>
      var from, to := ParseTime(form.from), ParseTime(form.to);
      if from.Some? && to.Some? && TimeInterval(from.value, to.value, false).Valid() {
        OneIntervalIsCanonical(TimeInterval(from.value, to.value, false));
      }
    case Custom =>
      CheckedHoursIncrease(form.checked, 0);
      WholeHoursAreCanonical(CheckedHours(form.checked, 0), form.unaccounted);
  }

  lemma WholeHoursAreCanonical(hours: seq<int>, unaccounted: bool)
    requires IncreasingFrom(hours, 0)
    ensures CanonicalRecords(WholeHours(hours, unaccounted))
  {
    var recs := WholeHours(hours, unaccounted);
    forall i | 0 <= i < |recs|
      ensures recs[i].InRange() && !recs[i].Empty()
    {
      assert 0 <= hours[i] < 24;
    }
  }

  lemma CanonicalMeansStorable(recs: seq<HourRecord>)
    requires CanonicalRecords(ByHour(recs))
    ensures Storable(recs)
  {
    ReorderedHoursDistinct(ByHour(recs), recs);
    forall i | 0 <= i < |recs|
      ensures recs[i].InRange() && !recs[i].Empty()
    {
      assert recs[i] in ByHour(recs);
    }
  }

  lemma InRangeInBounds(recs: seq<HourRecord>)
    requires AllInRange(recs)
    ensures var c := Classify(Some(recs));
            0 <= c.fromMin <= FULL_DAY_MIN && 0 <= c.toMin <= FULL_DAY_MIN
  {
    ReassembledIsValid(recs);
    ClassifyInBounds(Some(recs));
  }

  /** Classify, print, re-parse: for every list of records the wire model admits, in any order, the editor gives back
      those records sorted by hour exactly when none is empty, no hour is repeated, and the day is one it can carry;
      a day never set comes back as the unrestricted records it stands for. */
  lemma EditorRoundTripIff(recs: seq<HourRecord>)
    requires AllInRange(recs)
    ensures var c := Classify(Some(recs));
            && 0 <= c.fromMin <= FULL_DAY_MIN && 0 <= c.toMin <= FULL_DAY_MIN
            && (ParseDay(Render(c)) == Saved(ByHour(recs)) <==> Storable(recs) && Editable(ByHour(recs)))
    ensures ParseDay(Render(Classify(None))) == Saved(ExpandAll(Unrestricted()))
  {
    InRangeInBounds(recs);
    AllDayParses(BETWEEN_SEED_FROM, BETWEEN_SEED_TO);
    hide ExpandAll, ByHour, ParseDay, Render, Editable, CanonicalRecords, Storable, AllInRange;
    EditorSavesCanonical(Render(Classify(Some(recs))));
    if ParseDay(Render(Classify(Some(recs)))) == Saved(ByHour(recs)) {
      CanonicalMeansStorable(recs);
    }
    if Storable(recs) {
      ByHourIsCanonical(recs);
      ClassifyReadsInHourOrder(recs);
      CanonicalRoundTripIff(ByHour(recs));
    }
  }

  /** The exception, for all stored forms of it: a full unaccounted day is saved back as accounted. */
  lemma FullUnaccountedDayLosesItsFlag(recs: seq<HourRecord>)
    requires Reassemble(recs) == [TimeInterval(0, FULL_DAY_MIN, true)]
    ensures ParseDay(Render(Classify(Some(recs)))) == Saved(ExpandAll(Unrestricted())) != Saved(ByHour(recs))
  {
    AllDayParses(BETWEEN_SEED_FROM, BETWEEN_SEED_TO);
    if ByHour(recs) == ExpandAll(Unrestricted()) {
      OneIntervalIsCanonical(Unrestricted()[0]);
      assert Unrestricted() == [Unrestricted()[0]];
      MergedFacts(ByHour(recs));
      SameMerge(recs);
      SingleFullDay(ByHour(recs), TimeInterval(0, FULL_DAY_MIN, true));
      assert false;
    }
  }

  // ---------- what the form refuses ----------

  lemma {:induction false} NoneCheckedIff(checked: set<int>, from: int)
    ensures CheckedHours(checked, from) == [] <==> forall h | from <= h < 24 :: h !in checked
    decreases 24 - from
  {
    if from < 24 {
      NoneCheckedIff(checked, from + 1);
    }
  }

  /** A form is refused exactly when its window's times do not parse or do not have the start before the end, or when
      custom mode has no hour checked. */
  lemma FormIsRefusedIff(form: Form)
    ensures ParseDay(form).Invalid? <==>
            || (form.mode == BetweenTimes &&
                  (ParseTime(form.from).None? || ParseTime(form.to).None?
                   || ParseTime(form.from).value >= ParseTime(form.to).value))
            || (form.mode == Custom && forall h | 0 <= h < 24 :: h !in form.checked)
  {
    NoneCheckedIff(form.checked, 0);
    TimesStayInDay(form.from);
    TimesStayInDay(form.to);
    hide ParseTime, ExpandAll;
  }

  lemma TimesStayInDay(value: string)
    ensures ParseTime(value).Some? ==> 0 <= ParseTime(value).value <= 1440
  {
  }

  /** What an accepted form saves, minute by minute: the whole day; the window; or the checked hours with the day's flag. */
  lemma FormSavesItsMinutes(form: Form, m: int, u: bool)
    requires ParseDay(form).Saved?
    ensures InRecords(ParseDay(form).records, m, u) <==>
            match form.mode
            case All => 0 <= m < 1440 && !u
            case BetweenTimes => ParseTime(form.from).value <= m < ParseTime(form.to).value && !u
            case Custom => 0 <= m < 1440 && m / 60 in form.checked && u == form.unaccounted
  {
    hide ParseTime, CheckedHours;
    match form.mode
    case All =>
      OneIntervalMinutes(Unrestricted()[0], m, u);
      assert Unrestricted() == [Unrestricted()[0]];
    case BetweenTimes =>
      OneIntervalMinutes(TimeInterval(ParseTime(form.from).value, ParseTime(form.to).value, false), m, u);
    case Custom =>
      CheckedHoursAre(form.checked, 0, m / 60);
      WholeHoursMinutes(CheckedHours(form.checked, 0), form.unaccounted, m, u);
  }

  lemma OneIntervalMinutes(iv: TimeInterval, m: int, u: bool)
    requires iv.Valid()
    ensures InRecords(ExpandAll([iv]), m, u) <==> iv.startMin <= m < iv.endMin && u == iv.unaccounted
  {
    EncodeKeepsMinutes([iv], m, u);
    OneInterval(iv, m, u);
  }

  lemma {:induction false} CheckedHoursAre(checked: set<int>, from: int, h: int)
    requires 0 <= from
    ensures h in CheckedHours(checked, from) <==> from <= h < 24 && h in checked
    decreases 24 - from
  {
    if from < 24 {
      CheckedHoursAre(checked, from + 1, h);
    }
  }

  lemma WholeHoursMinutes(hours: seq<int>, unaccounted: bool, m: int, u: bool)
    ensures InRecords(WholeHours(hours, unaccounted), m, u) <==> m / 60 in hours && u == unaccounted
  {
    var recs := WholeHours(hours, unaccounted);
    if m / 60 in hours && u == unaccounted {
      var i :| 0 <= i < |hours| && hours[i] == m / 60;
      assert recs[i].AbsStart() <= m < recs[i].AbsEnd();
    }
    if InRecords(recs, m, u) {
      var i :| 0 <= i < |recs| && recs[i].AbsStart() <= m < recs[i].AbsEnd() && recs[i].unaccounted == u;
      assert hours[i] == m / 60;
    }
  }
}
