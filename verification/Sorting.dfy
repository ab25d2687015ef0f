/** Python's `sorted(xs, key=...)`: a stable sort by an integer key. */
module Sorting {

  ghost predicate SortedBy<T>(key: T -> int, s: seq<T>) {
    forall i, j | 0 <= i < j < |s| :: key(s[i]) <= key(s[j])
  }

  ghost predicate StrictlySortedBy<T>(key: T -> int, s: seq<T>) {
    forall i, j | 0 <= i < j < |s| :: key(s[i]) < key(s[j])
  }

  function Insert<T>(key: T -> int, x: T, s: seq<T>): (r: seq<T>)
    ensures multiset(r) == multiset{x} + multiset(s)
    ensures |r| == |s| + 1
  {
    if s == [] || key(x) <= key(s[0]) then
      [x] + s
    else
      assert s == [s[0]] + s[1..];
      [s[0]] + Insert(key, x, s[1..])
  }

  lemma {:induction false} InsertSorted<T>(key: T -> int, x: T, s: seq<T>)
    requires SortedBy(key, s)
    ensures SortedBy(key, Insert(key, x, s))
  {
    if s != [] && key(x) > key(s[0]) {
      var rest := Insert(key, x, s[1..]);
      InsertSorted(key, x, s[1..]);
      forall y | y in rest
        ensures key(s[0]) <= key(y)
      {
        assert y in multiset(rest);
        assert y == x || y in s[1..];
      }
    }
  }

  function Sort<T>(key: T -> int, s: seq<T>): (r: seq<T>)
    ensures multiset(r) == multiset(s)
    ensures |r| == |s|
    ensures SortedBy(key, r)
  {
    if s == [] then
      []
    else
      assert s == [s[0]] + s[1..];
      InsertSorted(key, s[0], Sort(key, s[1..]));
      Insert(key, s[0], Sort(key, s[1..]))
  }

  lemma {:induction false} SortKeepsSorted<T>(key: T -> int, s: seq<T>)
    requires SortedBy(key, s)
    ensures Sort(key, s) == s
  {
    if s != [] {
      SortKeepsSorted(key, s[1..]);
      assert s == [s[0]] + s[1..];
    }
  }

  lemma SameHead<T>(key: T -> int, s: seq<T>, t: seq<T>)
    requires StrictlySortedBy(key, s) && SortedBy(key, t)
    requires multiset(s) == multiset(t) && s != [] && t != []
    ensures s[0] == t[0]
  {
    assert s[0] in multiset(t) && t[0] in multiset(s);
    var i :| 0 <= i < |s| && s[i] == t[0];
    var j :| 0 <= j < |t| && t[j] == s[0];
    assert key(t[0]) <= key(t[j]);
  }

  lemma TailElements<T>(s: seq<T>)
    requires s != []
    ensures multiset(s[1..]) == multiset(s) - multiset{s[0]}
  {
    assert s == [s[0]] + s[1..];
  }

  lemma TailsStaySorted<T>(key: T -> int, s: seq<T>, t: seq<T>)
    requires StrictlySortedBy(key, s) && SortedBy(key, t) && s != [] && t != []
    ensures StrictlySortedBy(key, s[1..]) && SortedBy(key, t[1..])
  {
  }

  /** A strictly sorted list is determined by its elements. */
  lemma {:induction false} StrictlySortedUnique<T>(key: T -> int, s: seq<T>, t: seq<T>)
    requires StrictlySortedBy(key, s) && SortedBy(key, t)
    requires multiset(s) == multiset(t)
    ensures s == t
  {
    assert |multiset(t)| == |t| && |multiset(s)| == |s|;
    if s != [] {
      SameHead(key, s, t);
      TailElements(s);
      TailElements(t);
      TailsStaySorted(key, s, t);
      hide StrictlySortedBy, SortedBy;
      StrictlySortedUnique(key, s[1..], t[1..]);
      assert s == [s[0]] + s[1..] && t == [t[0]] + t[1..];
    }
  }

  lemma SortMembers<T>(key: T -> int, s: seq<T>, x: T)
    ensures x in Sort(key, s) <==> x in s
  {
    assert x in multiset(Sort(key, s)) <==> x in multiset(s);
  }

  /** The elements with one key, in order. */
  function WithKey<T>(key: T -> int, s: seq<T>, v: int): seq<T> {
    if s == [] then [] else (if key(s[0]) == v then [s[0]] else []) + WithKey(key, s[1..], v)
  }

  lemma {:induction false} InsertIsStable<T>(key: T -> int, x: T, s: seq<T>, v: int)
    requires SortedBy(key, s)
    ensures WithKey(key, Insert(key, x, s), v) == WithKey(key, [x] + s, v)
  {
    assert ([x] + s)[1..] == s;
    if s != [] && key(x) > key(s[0]) {
      InsertIsStable(key, x, s[1..], v);
      var r := Insert(key, x, s);
      assert r[1..] == Insert(key, x, s[1..]);
      assert ([x] + s[1..])[1..] == s[1..];
    }
  }

  /** Elements with equal keys keep their order. */
  lemma {:induction false} SortIsStable<T>(key: T -> int, s: seq<T>, v: int)
    ensures WithKey(key, Sort(key, s), v) == WithKey(key, s, v)
  {
    if s != [] {
      SortIsStable(key, s[1..], v);
      InsertIsStable(key, s[0], Sort(key, s[1..]), v);
      assert ([s[0]] + Sort(key, s[1..]))[1..] == Sort(key, s[1..]);
    }
  }
}
