/** SQL's GROUP BY over the rows a WHERE keeps, folded one row at a time in no particular order. */
module Grouping {
  import opened Basics
  import opened Sums

  /** The rows of one group. `group` names each row's group. */
  function RowsOf<R, G(==)>(group: map<R, G>, rows: set<R>, g: G): set<R>
    requires rows <= group.Keys
  {
    set r | r in rows && group[r] == g
  }

  /** SELECT g, MAX(value) ... GROUP BY g. */
  ghost function GroupMax<R, G>(group: map<R, G>, value: map<R, int>, rows: set<R>): map<G, int>
    requires rows <= group.Keys && rows <= value.Keys
  {
    if rows == {} then map[]
    else
      var r := Pick(rows);
      var before := GroupMax(group, value, rows - {r});
      before[group[r] := if group[r] in before then Max(before[group[r]], value[r]) else value[r]]
  }

  /** SELECT g, SUM(value) ... GROUP BY g. */
  ghost function GroupSum<R, G>(group: map<R, G>, value: map<R, int>, rows: set<R>): map<G, int>
    requires rows <= group.Keys && rows <= value.Keys
  {
    if rows == {} then map[]
    else
      var r := Pick(rows);
      var before := GroupSum(group, value, rows - {r});
      before[group[r] := Get(before, group[r], 0) + value[r]]
  }

  /** SELECT g, range_agg(value) ... GROUP BY g, a range read as the set of its seconds. */
  ghost function GroupUnion<R, G>(group: map<R, G>, value: map<R, set<int>>, rows: set<R>): map<G, set<int>>
    requires rows <= group.Keys && rows <= value.Keys
  {
    if rows == {} then map[]
    else
      var r := Pick(rows);
      var before := GroupUnion(group, value, rows - {r});
      before[group[r] := Get(before, group[r], {}) + value[r]]
  }

  lemma RowsOfRemove<R, G>(group: map<R, G>, rows: set<R>, r: R, g: G)
    requires rows <= group.Keys && r in rows
    ensures RowsOf(group, rows, g) == RowsOf(group, rows - {r}, g) + (if group[r] == g then {r} else {})
  {
  }

  lemma {:induction false} GroupMaxIs<R, G>(group: map<R, G>, value: map<R, int>, rows: set<R>, g: G)
    requires rows <= group.Keys && rows <= value.Keys
    ensures var m := GroupMax(group, value, rows);
            && (g in m <==> RowsOf(group, rows, g) != {})
            && (g in m ==> (exists r :: r in RowsOf(group, rows, g) && value[r] == m[g])
                           && forall r | r in RowsOf(group, rows, g) :: value[r] <= m[g])
  {
    if rows != {} {
      var r := Pick(rows);
      GroupMaxIs(group, value, rows - {r}, g);
      RowsOfRemove(group, rows, r, g);
      if group[r] == g {
        assert r in RowsOf(group, rows, g);
      }
      var before := GroupMax(group, value, rows - {r});
      if g in before {
        var top :| top in RowsOf(group, rows - {r}, g) && value[top] == before[g];
        assert top in RowsOf(group, rows, g);
      }
    }
  }

  lemma {:induction false} GroupSumIs<R, G>(group: map<R, G>, value: map<R, int>, rows: set<R>, g: G)
    requires rows <= group.Keys && rows <= value.Keys
    ensures g in GroupSum(group, value, rows) <==> RowsOf(group, rows, g) != {}
    ensures Get(GroupSum(group, value, rows), g, 0) == SumOver(value, RowsOf(group, rows, g))
  {
    if rows == {} {
      assert RowsOf(group, rows, g) == {};
    } else {
      var r := Pick(rows);
      GroupSumIs(group, value, rows - {r}, g);
      RowsOfRemove(group, rows, r, g);
      if group[r] == g {
        assert r in RowsOf(group, rows, g);
        SumOverRemove(value, RowsOf(group, rows, g), r);
        assert RowsOf(group, rows, g) - {r} == RowsOf(group, rows - {r}, g);
      } else {
        assert RowsOf(group, rows, g) == RowsOf(group, rows - {r}, g);
      }
    }
  }

  lemma {:induction false} GroupUnionIs<R, G>(group: map<R, G>, value: map<R, set<int>>, rows: set<R>, g: G)
    requires rows <= group.Keys && rows <= value.Keys
    ensures g in GroupUnion(group, value, rows) <==> RowsOf(group, rows, g) != {}
    ensures forall x :: x in Get(GroupUnion(group, value, rows), g, {}) <==>
                        exists r :: r in RowsOf(group, rows, g) && x in value[r]
  {
    if rows == {} {
      assert RowsOf(group, rows, g) == {};
    } else {
      var r := Pick(rows);
      GroupUnionIs(group, value, rows - {r}, g);
      RowsOfRemove(group, rows, r, g);
      var before, after := GroupUnion(group, value, rows - {r}), GroupUnion(group, value, rows);
      if group[r] == g {
        assert r in RowsOf(group, rows, g);
        forall x
          ensures x in Get(after, g, {}) <==> exists q :: q in RowsOf(group, rows, g) && x in value[q]
        {
          assert x in Get(after, g, {}) <==> x in Get(before, g, {}) || x in value[r];
        }
      } else {
        assert Get(after, g, {}) == Get(before, g, {});
        assert RowsOf(group, rows, g) == RowsOf(group, rows - {r}, g);
      }
    }
  }
}
