/**
 * Wall-clock union of activity spans: the sort-and-sweep `union_seconds`
 * against the set of covered seconds.
 */
module IntervalUnion {
  import opened Basics
  import opened Sorting

  /** A half-open interval [start, end) of epoch seconds. */
  datatype Span = Span(start: int, end: int) {
    /** What `__post_init__` demands. */
    predicate Ordered() {
      start <= end
    }
  }

  predicate Between(a: int, t: int, b: int) {
    a <= t < b
  }

  /** Python's `set(range(a, b))`. */
  function Range(a: int, b: int): set<int> {
    set t | a <= t < b && Between(a, t, b)
  }

  ghost function Seconds(s: Span): set<int> {
    Range(s.start, s.end)
  }

  ghost function Covered(spans: seq<Span>): set<int> {
    if spans == [] then {} else Covered(spans[..|spans| - 1]) + Seconds(spans[|spans| - 1])
  }

  function SumLengths(spans: seq<Span>): int {
    if spans == [] then 0 else SumLengths(spans[..|spans| - 1]) + Length(spans[|spans| - 1])
  }

  function Length(s: Span): int {
    s.end - s.start
  }

  // ---------- sets of seconds ----------

  lemma {:induction false} RangeSize(a: int, b: int)
    requires a <= b
    ensures |Range(a, b)| == b - a
    decreases b - a
  {
    if a < b {
      RangeSize(a, b - 1);
      assert Range(a, b) == Range(a, b - 1) + {b - 1};
    } else {
      assert Range(a, b) == {};
    }
  }

  lemma SubsetSize<T>(a: set<T>, b: set<T>)
    requires a <= b
    ensures |a| <= |b|
  {
    assert b == a + (b - a);
  }

  lemma UnionSize<T>(a: set<T>, b: set<T>)
    ensures |a + b| <= |a| + |b|
    ensures |a + b| == |a| + |b| <==> a !! b
  {
    assert a + b == a + (b - a);
    assert b == (b - a) + (a * b);
  }

  lemma CoveredAppend(spans: seq<Span>, s: Span)
    ensures Covered(spans + [s]) == Covered(spans) + Seconds(s)
  {
    assert (spans + [s])[..|spans|] == spans;
  }

  lemma CoveredNext(spans: seq<Span>, i: nat)
    requires i < |spans|
    ensures Covered(spans[..i + 1]) == Covered(spans[..i]) + Seconds(spans[i])
  {
    assert spans[..i + 1] == spans[..i] + [spans[i]];
    CoveredAppend(spans[..i], spans[i]);
  }

  lemma {:induction false} CoveredIff(spans: seq<Span>, t: int)
    ensures t in Covered(spans) <==> exists i :: 0 <= i < |spans| && t in Seconds(spans[i])
  {
    if spans != [] {
      var n := |spans| - 1;
      CoveredIff(spans[..n], t);
      if i :| 0 <= i < |spans| && t in Seconds(spans[i]) {
        assert i == n || t in Seconds(spans[..n][i]);
      }
    }
  }

  lemma CoveredMembers(a: seq<Span>, b: seq<Span>)
    requires forall s | s in a :: s in b
    ensures Covered(a) <= Covered(b)
  {
    forall t | t in Covered(a)
      ensures t in Covered(b)
    {
      CoveredIff(a, t);
      CoveredIff(b, t);
      var i :| 0 <= i < |a| && t in Seconds(a[i]);
      assert a[i] in b;
    }
  }

  lemma SameMembersSameCover(a: seq<Span>, b: seq<Span>)
    requires forall s :: s in a <==> s in b
    ensures Covered(a) == Covered(b)
  {
    CoveredMembers(a, b);
    CoveredMembers(b, a);
  }

  // ---------- the sweep ----------

  function SortedByStart(spans: seq<Span>): (r: seq<Span>)
    ensures |r| == |spans|
    ensures forall s :: s in r <==> s in spans
    ensures forall i, j | 0 <= i < j < |r| :: r[i].start <= r[j].start
  {
    var key := (s: Span) => s.start;
    var r := Sort(key, spans);
    assert forall s :: s in r <==> s in spans by {
      forall s ensures s in r <==> s in spans { SortMembers(key, spans, s); }
    }
    assert forall i, j | 0 <= i < j < |r| :: key(r[i]) <= key(r[j]);
    r
  }

  /** `covered` is made of finished runs, `total` seconds in all, and the open run [a, b). */
  ghost predicate Swept(covered: set<int>, closed: set<int>, total: int, a: int, b: int) {
    && a <= b
    && |closed| == total
    && (forall t | t in closed :: t < a)
    && covered == closed + Range(a, b)
  }

  lemma SweepExtends(covered: set<int>, closed: set<int>, total: int, a: int, b: int, s: Span)
    requires Swept(covered, closed, total, a, b) && a <= s.start <= b && s.Ordered()
    ensures Swept(covered + Seconds(s), closed, total, a, Max(b, s.end))
  {
    assert Range(a, b) + Seconds(s) == Range(a, Max(b, s.end));
  }

  lemma SweepCloses(covered: set<int>, closed: set<int>, total: int, a: int, b: int)
    requires Swept(covered, closed, total, a, b)
    ensures |covered| == total + (b - a)
  {
    RangeSize(a, b);
    UnionSize(closed, Range(a, b));
  }

  lemma SweepStartsAnew(covered: set<int>, closed: set<int>, total: int, a: int, b: int, s: Span)
    requires Swept(covered, closed, total, a, b) && b < s.start && s.Ordered()
    ensures Swept(covered + Seconds(s), covered, total + (b - a), s.start, s.end)
  {
    SweepCloses(covered, closed, total, a, b);
  }

  /** `union_seconds`: sort by start, then sweep merging overlapping or touching runs. */
  method UnionSeconds(spans: seq<Span>) returns (total: int)
    requires forall s | s in spans :: s.Ordered()
    ensures total == |Covered(spans)|
  {
    if |spans| == 0 {
      return 0;
    }
    var ordered := SortedByStart(spans);
    var curStart, curEnd := ordered[0].start, ordered[0].end;
    total := 0;
    ghost var closed: set<int> := {};
    assert ordered[0] in spans;
    CoveredNext(ordered, 0);
    for i := 1 to |ordered|
      invariant curStart <= ordered[i - 1].start
      invariant Swept(Covered(ordered[..i]), closed, total, curStart, curEnd)
    {
      var span := ordered[i];
      assert span in spans;
      CoveredNext(ordered, i);
      if span.start <= curEnd {
        SweepExtends(Covered(ordered[..i]), closed, total, curStart, curEnd, span);
        curEnd := Max(curEnd, span.end);
      } else {
        SweepStartsAnew(Covered(ordered[..i]), closed, total, curStart, curEnd, span);
        closed := Covered(ordered[..i]);
        total := total + (curEnd - curStart);
        curStart, curEnd := span.start, span.end;
      }
    }
    assert ordered[..|ordered|] == ordered;
    SweepCloses(Covered(ordered), closed, total, curStart, curEnd);
    total := total + (curEnd - curStart);
    SameMembersSameCover(ordered, spans);
  }

  /** `union_seconds_bruteforce`: grow a set second by second. */
  method UnionSecondsBruteforce(spans: seq<Span>) returns (total: int)
    ensures total == |Covered(spans)|
  {
    var covered: set<int> := {};
    for i := 0 to |spans|
      invariant covered == Covered(spans[..i])
    {
      CoveredNext(spans, i);
      covered := covered + Range(spans[i].start, spans[i].end);
    }
    assert spans[..|spans|] == spans;
    total := |covered|;
  }

  // ---------- what the union is for ----------

  /** Order and duplicates are irrelevant: only the set of distinct spans counts. */
  lemma UnionDependsOnlyOnDistinctSpans(a: seq<Span>, b: seq<Span>)
    requires forall s :: s in a <==> s in b
    ensures |Covered(a)| == |Covered(b)|
  {
    SameMembersSameCover(a, b);
  }

  /** Reporting more spans never lowers the union. */
  lemma UnionIsMonotone(a: seq<Span>, b: seq<Span>)
    requires forall s | s in a :: s in b
    ensures |Covered(a)| <= |Covered(b)|
  {
    CoveredMembers(a, b);
    SubsetSize(Covered(a), Covered(b));
  }

  ghost predicate NoSharedSecond(spans: seq<Span>) {
    forall i, j | 0 <= i < j < |spans| :: Seconds(spans[i]) !! Seconds(spans[j])
  }

  lemma NoSharedSecondAppend(spans: seq<Span>, s: Span)
    ensures NoSharedSecond(spans + [s]) <==> Covered(spans) !! Seconds(s) && NoSharedSecond(spans)
  {
    var all := spans + [s];
    assert Covered(spans) !! Seconds(s) <==> forall i | 0 <= i < |spans| :: Seconds(spans[i]) !! Seconds(s) by {
      forall t ensures t in Covered(spans) <==> exists i :: 0 <= i < |spans| && t in Seconds(spans[i]) {
        CoveredIff(spans, t);
      }
    }
    assert forall i | 0 <= i < |spans| :: all[i] == spans[i];
    if NoSharedSecond(all) {
      assert forall i | 0 <= i < |spans| :: Seconds(all[i]) !! Seconds(all[|spans|]);
    }
  }

  lemma LongestBelowUnion(spans: seq<Span>, s: Span)
    requires s in spans && s.Ordered()
    ensures Length(s) <= |Covered(spans)|
  {
    forall t | t in Seconds(s) ensures t in Covered(spans) { CoveredIff(spans, t); }
    RangeSize(s.start, s.end);
    SubsetSize(Seconds(s), Covered(spans));
  }

  /** "Burn once": no less than any single span, no more than all of them added up,
      and equal to that sum exactly when no two spans share a second. */
  lemma {:induction false} UnionBetweenLongestAndSum(spans: seq<Span>)
    requires forall s | s in spans :: s.Ordered()
    ensures forall s | s in spans :: Length(s) <= |Covered(spans)|
    ensures |Covered(spans)| <= SumLengths(spans)
    ensures |Covered(spans)| == SumLengths(spans) <==> NoSharedSecond(spans)
  {
    forall s | s in spans ensures Length(s) <= |Covered(spans)| { LongestBelowUnion(spans, s); }
    if spans != [] {
      var rest, s := spans[..|spans| - 1], spans[|spans| - 1];
      assert spans == rest + [s];
      assert s in spans;
      UnionBetweenLongestAndSum(rest);
      RangeSize(s.start, s.end);
      UnionSize(Covered(rest), Seconds(s));
      NoSharedSecondAppend(rest, s);
    }
  }
}
