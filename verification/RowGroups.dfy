/** GROUP BY on bags of rows: what aggregation per worker and aggregation of partial results compute. */
module RowGroups {
  import opened Sequences
  import opened Storage
  import opened Aggregates
  import opened AggregateOperator

  // ----- the plain GROUP BY on rows -----

  function GroupOf(columns: seq<nat>, row: Row): (r: Row)
    ensures |r| == |columns| && forall k :: 0 <= k < |r| ==> r[k] == Component(row, columns[k])
  {
    seq(|columns|, k requires 0 <= k < |columns| => Component(row, columns[k]))
  }

  function ArgumentIn(a: AggregateExpression, row: Row): Cell {
    match a
    case Star(_) => Val(Int(1))
    case OfColumn(_, c) => Component(row, c)
    case OrderedStrings(c, _) => Component(row, c)
  }

  /** The rows of a group that contribute a value. */
  function Contributes(columns: seq<nat>, a: AggregateExpression, group: Row): Row -> bool {
    row => GroupOf(columns, row) == group && ArgumentIn(a, row).Val?
  }

  function ValueFrom(a: AggregateExpression): Row -> Value {
    row => match ArgumentIn(a, row) case Val(v) => v case Null => Int(0)
  }

  function RowValues(rows: seq<Row>, columns: seq<nat>, a: AggregateExpression, group: Row): seq<Value> {
    Map(ValueFrom(a), Filter(Contributes(columns, a, group), rows))
  }

  ghost predicate HasGroup(rows: seq<Row>, columns: seq<nat>, group: Row) {
    exists row :: row in rows && GroupOf(columns, row) == group
  }

  ghost predicate ListsRowGroups(rows: seq<Row>, columns: seq<nat>, out: seq<OutputRow>) {
    && (forall i, k :: 0 <= i < k < |out| ==> out[i].group != out[k].group)
    && (forall group :: Listed(out, group) <==> HasGroup(rows, columns, group))
  }

  /** The aggregates depend on the values of the rows only, not on where the rows stand. */
  predicate Positionless(aggregates: seq<AggregateExpression>) {
    forall a :: 0 <= a < |aggregates| ==> !aggregates[a].OrderedStrings?
  }

  ghost predicate RowCellsExact(rows: seq<Row>, columns: seq<nat>, aggregates: seq<AggregateExpression>, o: OutputRow) {
    |o.cells| == |aggregates| &&
    forall a :: 0 <= a < |aggregates| ==>
      IsAggregate(aggregates[a].Function(), RowValues(rows, columns, aggregates[a], o.group), o.cells[a])
  }

  ghost predicate IsRowGroupBy(rows: seq<Row>, columns: seq<nat>, aggregates: seq<AggregateExpression>,
                               out: seq<OutputRow>) {
    && ListsRowGroups(rows, columns, out)
    && forall k :: 0 <= k < |out| ==> RowCellsExact(rows, columns, aggregates, out[k])
  }

  // ----- from the operator's specification -----

  lemma ComponentAt(t: Table, p: RowId, c: nat)
    requires ValidTable(t)
    ensures Component(RowAt(t, p), c) == CellAt(t, p, c)
  {}

  lemma {:induction false} ValuesOfTable(t: Table, columns: seq<nat>, a: AggregateExpression, ps: seq<RowId>,
                                         group: Row)
    requires ValidTable(t)
    ensures RowValues(Map(RowOf(t), ps), columns, a, group) == PairValues(PairsIn(t, columns, a, ps, group))
  {
    if ps != [] {
      var front, p := ps[..|ps| - 1], ps[|ps| - 1];
      ValuesOfTable(t, columns, a, front, group);
      MapLast(RowOf(t), ps);
      RowValuesSnoc(Map(RowOf(t), front), RowAt(t, p), columns, a, group);
      GroupOfTable(t, columns, p);
      assert ArgumentIn(a, RowAt(t, p)) == Argument(t, a)(p);
      if Argument(t, a)(p).Val? {
        PairValuesSnoc(PairsIn(t, columns, a, front, group), Pair(p, Argument(t, a)(p).v));
      }
    }
  }

  lemma GroupOfTable(t: Table, columns: seq<nat>, p: RowId)
    requires ValidTable(t)
    ensures GroupOf(columns, RowAt(t, p)) == GroupRow(t, columns, p)
  {
    forall k | 0 <= k < |columns|
      ensures Component(RowAt(t, p), columns[k]) == CellAt(t, p, columns[k])
    {
      ComponentAt(t, p, columns[k]);
    }
  }

  lemma RowValuesSnoc(rows: seq<Row>, row: Row, columns: seq<nat>, a: AggregateExpression, group: Row)
    ensures RowValues(rows + [row], columns, a, group) ==
            RowValues(rows, columns, a, group) + if Contributes(columns, a, group)(row) then [ValueFrom(a)(row)] else []
  {
    FilterAppend(Contributes(columns, a, group), rows, [row]);
    assert Filter(Contributes(columns, a, group), [row]) == if Contributes(columns, a, group)(row) then [row] else [];
  }

  lemma HasGroupOfTable(t: Table, columns: seq<nat>, group: Row)
    requires ValidTable(t)
    ensures HasGroup(Rows(t), columns, group) <==> IsGroup(t, columns, group)
  {
    var ps := Positions(ChunkSizes(t));
    if HasGroup(Rows(t), columns, group) {
      var k :| 0 <= k < |ps| && GroupOf(columns, RowAt(t, ps[k])) == group;
      GroupOfTable(t, columns, ps[k]);
      assert ps[k] in ps;
    }
    if IsGroup(t, columns, group) {
      var k :| 0 <= k < |ps| && group == GroupRow(t, columns, ps[k]);
      GroupOfTable(t, columns, ps[k]);
      assert Rows(t)[k] in Rows(t);
    }
  }

  /** The operator's GROUP BY over a table is the GROUP BY over its rows. */
  lemma GroupByOfTable(t: Table, columns: seq<nat>, aggregates: seq<AggregateExpression>, out: seq<OutputRow>)
    requires ValidTable(t) && IsGroupBy(t, columns, aggregates, out) && Positionless(aggregates)
    ensures IsRowGroupBy(Rows(t), columns, aggregates, out)
  {
    forall group
      ensures Listed(out, group) <==> HasGroup(Rows(t), columns, group)
    {
      HasGroupOfTable(t, columns, group);
    }
    forall k | 0 <= k < |out|
      ensures RowCellsExact(Rows(t), columns, aggregates, out[k])
    {
      CellsOfTable(t, columns, aggregates, out[k]);
    }
  }

  lemma CellsOfTable(t: Table, columns: seq<nat>, aggregates: seq<AggregateExpression>, o: OutputRow)
    requires ValidTable(t) && CellsExact(t, columns, aggregates, o) && Positionless(aggregates)
    ensures RowCellsExact(Rows(t), columns, aggregates, o)
  {
    forall a | 0 <= a < |aggregates|
      ensures IsAggregate(aggregates[a].Function(), RowValues(Rows(t), columns, aggregates[a], o.group), o.cells[a])
    {
      var ps := Positions(ChunkSizes(t));
      assert IsAggregateOf(t, aggregates[a], PairsIn(t, columns, aggregates[a], ps, o.group), o.cells[a]);
      ValuesOfTable(t, columns, aggregates[a], ps, o.group);
    }
  }

  // ----- the result does not depend on the order of the rows -----

  lemma {:induction false} SumOfAppend(vs: seq<Value>, ws: seq<Value>)
    ensures SumOf(vs + ws) == SumOf(vs) + SumOf(ws)
  {
    if ws == [] {
      assert vs + ws == vs;
    } else {
      SumOfAppend(vs, ws[..|ws| - 1]);
      AppendSnoc(vs, ws);
    }
  }

  lemma {:induction false} SumOfPermuted(vs: seq<Value>, ws: seq<Value>)
    requires multiset(vs) == multiset(ws)
    ensures SumOf(vs) == SumOf(ws)
  {
    PermutedLength(vs, ws);
    if vs != [] {
      var k := LastIn(vs, ws);
      SumOfPermuted(vs[..|vs| - 1], ws[..k] + ws[k + 1..]);
      SumOfAppend(ws[..k], ws[k + 1..]);
      SumOfAppend(ws[..k] + [ws[k]], ws[k + 1..]);
      SumOfAppend(ws[..k], [ws[k]]);
    }
  }

  lemma IntSumIsSum(vs: seq<Value>, ws: seq<Value>)
    requires SumOf(vs) == SumOf(ws) && (AllInts(vs) <==> AllInts(ws))
    ensures SumValue(vs) == SumValue(ws)
  {
    SumValueIsSum(vs);
    SumValueIsSum(ws);
  }

  lemma AllIntsPermuted(vs: seq<Value>, ws: seq<Value>)
    requires multiset(vs) == multiset(ws) && AllInts(vs)
    ensures AllInts(ws)
  {
    forall k | 0 <= k < |ws|
      ensures ws[k].Int?
    {
      PermutedMembers(vs, ws, ws[k]);
    }
  }

  lemma SumValuePermuted(vs: seq<Value>, ws: seq<Value>)
    requires multiset(vs) == multiset(ws)
    ensures SumValue(vs) == SumValue(ws)
  {
    SumOfPermuted(vs, ws);
    if AllInts(vs) {
      AllIntsPermuted(vs, ws);
    }
    if AllInts(ws) {
      AllIntsPermuted(ws, vs);
    }
    IntSumIsSum(vs, ws);
  }

  predicate Additive(f: AggregateFunction) {
    f.Sum? || f.Count? || f.Avg?
  }

  predicate AllAdditive(aggregates: seq<AggregateExpression>) {
    forall a :: 0 <= a < |aggregates| ==> Additive(aggregates[a].Function())
  }

  lemma AggregatePermuted(f: AggregateFunction, vs: seq<Value>, ws: seq<Value>, cell: Cell)
    requires multiset(vs) == multiset(ws) && Additive(f) && IsAggregate(f, vs, cell)
    ensures IsAggregate(f, ws, cell)
  {
    PermutedLength(vs, ws);
    SumOfPermuted(vs, ws);
    SumValuePermuted(vs, ws);
  }

  lemma RowValuesPermuted(rows: seq<Row>, others: seq<Row>, columns: seq<nat>, a: AggregateExpression, group: Row)
    requires multiset(rows) == multiset(others)
    ensures multiset(RowValues(rows, columns, a, group)) == multiset(RowValues(others, columns, a, group))
  {
    var contributes := Contributes(columns, a, group);
    FilterPermuted(contributes, rows, others);
    MapPermuted(ValueFrom(a), Filter(contributes, rows), Filter(contributes, others));
  }

  lemma HasGroupPermuted(rows: seq<Row>, others: seq<Row>, columns: seq<nat>, group: Row)
    requires multiset(rows) == multiset(others)
    ensures HasGroup(rows, columns, group) <==> HasGroup(others, columns, group)
  {
    forall row: Row
      ensures row in rows <==> row in others
    {
      PermutedMembers(rows, others, row);
    }
  }

  lemma GroupByPermuted(rows: seq<Row>, others: seq<Row>, columns: seq<nat>, aggregates: seq<AggregateExpression>,
                        out: seq<OutputRow>)
    requires multiset(rows) == multiset(others) && AllAdditive(aggregates)
    requires IsRowGroupBy(rows, columns, aggregates, out)
    ensures IsRowGroupBy(others, columns, aggregates, out)
  {
    forall group
      ensures Listed(out, group) <==> HasGroup(others, columns, group)
    {
      HasGroupPermuted(rows, others, columns, group);
    }
    forall k | 0 <= k < |out|
      ensures RowCellsExact(others, columns, aggregates, out[k])
    {
      CellsPermuted(rows, others, columns, aggregates, out[k]);
    }
  }

  lemma CellsPermuted(rows: seq<Row>, others: seq<Row>, columns: seq<nat>, aggregates: seq<AggregateExpression>,
                      o: OutputRow)
    requires multiset(rows) == multiset(others) && AllAdditive(aggregates)
    requires RowCellsExact(rows, columns, aggregates, o)
    ensures RowCellsExact(others, columns, aggregates, o)
  {
    forall a | 0 <= a < |aggregates|
      ensures IsAggregate(aggregates[a].Function(), RowValues(others, columns, aggregates[a], o.group), o.cells[a])
    {
      RowValuesPermuted(rows, others, columns, aggregates[a], o.group);
      AggregatePermuted(aggregates[a].Function(), RowValues(rows, columns, aggregates[a], o.group),
                        RowValues(others, columns, aggregates[a], o.group), o.cells[a]);
    }
  }

  // ----- the result is unique up to the order of the groups -----

  lemma RowCellsUnique(rows: seq<Row>, columns: seq<nat>, aggregates: seq<AggregateExpression>, o: OutputRow,
                       q: OutputRow)
    requires RowCellsExact(rows, columns, aggregates, o) && RowCellsExact(rows, columns, aggregates, q)
    requires o.group == q.group
    ensures o == q
  {
    forall a | 0 <= a < |aggregates|
      ensures o.cells[a] == q.cells[a]
    {
      AggregateUnique(aggregates[a].Function(), RowValues(rows, columns, aggregates[a], o.group), o.cells[a],
                      q.cells[a]);
    }
    assert o.cells == q.cells;
  }

  lemma RowGroupByMember(rows: seq<Row>, columns: seq<nat>, aggregates: seq<AggregateExpression>,
                         out: seq<OutputRow>, other: seq<OutputRow>, o: OutputRow)
    requires IsRowGroupBy(rows, columns, aggregates, out) && IsRowGroupBy(rows, columns, aggregates, other)
    requires o in out
    ensures o in other
  {
    var k :| 0 <= k < |out| && out[k] == o;
    assert Listed(out, o.group) && Listed(other, o.group);
    var m :| 0 <= m < |other| && other[m].group == o.group;
    RowCellsUnique(rows, columns, aggregates, out[k], other[m]);
  }

  lemma RowGroupByUnique(rows: seq<Row>, columns: seq<nat>, aggregates: seq<AggregateExpression>,
                         out: seq<OutputRow>, other: seq<OutputRow>)
    requires IsRowGroupBy(rows, columns, aggregates, out) && IsRowGroupBy(rows, columns, aggregates, other)
    ensures multiset(out) == multiset(other)
  {
    forall o: OutputRow
      ensures o in out <==> o in other
    {
      if o in out {
        RowGroupByMember(rows, columns, aggregates, out, other, o);
      }
      if o in other {
        RowGroupByMember(rows, columns, aggregates, other, out, o);
      }
    }
    SameMembers(out, other);
  }

  // ----- workers whose groups do not meet -----

  ghost predicate GroupsApart(parts: seq<seq<Row>>, columns: seq<nat>) {
    forall i, j, group :: 0 <= i < j < |parts| ==>
        !(HasGroup(parts[i], columns, group) && HasGroup(parts[j], columns, group))
  }

  lemma NoGroupNoValues(rows: seq<Row>, columns: seq<nat>, a: AggregateExpression, group: Row)
    requires !HasGroup(rows, columns, group)
    ensures RowValues(rows, columns, a, group) == []
  {
    FilterNone(Contributes(columns, a, group), rows);
  }

  lemma RowValuesAppend(rows: seq<Row>, more: seq<Row>, columns: seq<nat>, a: AggregateExpression, group: Row)
    ensures RowValues(rows + more, columns, a, group) ==
            RowValues(rows, columns, a, group) + RowValues(more, columns, a, group)
  {
    FilterAppend(Contributes(columns, a, group), rows, more);
    MapAppend(ValueFrom(a), Filter(Contributes(columns, a, group), rows), Filter(Contributes(columns, a, group), more));
  }

  lemma HasGroupAppend(rows: seq<Row>, more: seq<Row>, columns: seq<nat>, group: Row)
    ensures HasGroup(rows + more, columns, group) <==> HasGroup(rows, columns, group) || HasGroup(more, columns, group)
  {}

  lemma {:induction false} HasGroupConcat(parts: seq<seq<Row>>, columns: seq<nat>, group: Row)
    ensures HasGroup(Concat(parts), columns, group) <==>
              exists i :: 0 <= i < |parts| && HasGroup(parts[i], columns, group)
  {
    if parts != [] {
      var n := |parts| - 1;
      HasGroupConcat(parts[..n], columns, group);
      HasGroupAppend(Concat(parts[..n]), parts[n], columns, group);
    }
  }

  lemma CellsBeside(rows: seq<Row>, more: seq<Row>, columns: seq<nat>, aggregates: seq<AggregateExpression>,
                    o: OutputRow)
    requires RowCellsExact(rows, columns, aggregates, o) && !HasGroup(more, columns, o.group)
    ensures RowCellsExact(rows + more, columns, aggregates, o) && RowCellsExact(more + rows, columns, aggregates, o)
  {
    forall a | 0 <= a < |aggregates|
      ensures RowValues(rows + more, columns, aggregates[a], o.group) ==
              RowValues(rows, columns, aggregates[a], o.group)
      ensures RowValues(more + rows, columns, aggregates[a], o.group) ==
              RowValues(rows, columns, aggregates[a], o.group)
    {
      NoGroupNoValues(more, columns, aggregates[a], o.group);
      RowValuesAppend(rows, more, columns, aggregates[a], o.group);
      RowValuesAppend(more, rows, columns, aggregates[a], o.group);
    }
  }

  lemma ListedAppend(out: seq<OutputRow>, more: seq<OutputRow>, group: Row)
    ensures Listed(out + more, group) <==> Listed(out, group) || Listed(more, group)
  {
    if Listed(out, group) {
      var k :| 0 <= k < |out| && out[k].group == group;
      assert (out + more)[k].group == group;
    }
    if Listed(more, group) {
      var k :| 0 <= k < |more| && more[k].group == group;
      assert (out + more)[|out| + k].group == group;
    }
  }

  /** Two workers without a common group. */
  lemma GroupByBeside(rows: seq<Row>, more: seq<Row>, columns: seq<nat>, aggregates: seq<AggregateExpression>,
                      out: seq<OutputRow>, other: seq<OutputRow>)
    requires forall group :: !(HasGroup(rows, columns, group) && HasGroup(more, columns, group))
    requires IsRowGroupBy(rows, columns, aggregates, out) && IsRowGroupBy(more, columns, aggregates, other)
    ensures IsRowGroupBy(rows + more, columns, aggregates, out + other)
  {
    forall group
      ensures Listed(out + other, group) <==> HasGroup(rows + more, columns, group)
    {
      ListedAppend(out, other, group);
      HasGroupAppend(rows, more, columns, group);
    }
    forall i | 0 <= i < |out|
      ensures HasGroup(rows, columns, out[i].group)
    {
      assert Listed(out, out[i].group);
    }
    forall i | 0 <= i < |other|
      ensures HasGroup(more, columns, other[i].group)
    {
      assert Listed(other, other[i].group);
    }
    forall k | 0 <= k < |out + other|
      ensures RowCellsExact(rows + more, columns, aggregates, (out + other)[k])
    {
      if k < |out| {
        CellsBeside(rows, more, columns, aggregates, out[k]);
      } else {
        CellsBeside(more, rows, columns, aggregates, other[k - |out|]);
      }
    }
  }

  ghost predicate PartGrouped(parts: seq<seq<Row>>, columns: seq<nat>, aggregates: seq<AggregateExpression>,
                              outs: seq<seq<OutputRow>>, i: nat) {
    i < |parts| && i < |outs| && IsRowGroupBy(parts[i], columns, aggregates, outs[i])
  }

  /** Every worker has grouped its part. */
  ghost predicate PartsGrouped(parts: seq<seq<Row>>, columns: seq<nat>, aggregates: seq<AggregateExpression>,
                               outs: seq<seq<OutputRow>>) {
    |parts| == |outs| && forall i :: 0 <= i < |parts| ==> PartGrouped(parts, columns, aggregates, outs, i)
  }

  lemma PartsGroupedLast(parts: seq<seq<Row>>, columns: seq<nat>, aggregates: seq<AggregateExpression>,
                         outs: seq<seq<OutputRow>>)
    requires PartsGrouped(parts, columns, aggregates, outs) && parts != []
    ensures PartsGrouped(parts[..|parts| - 1], columns, aggregates, outs[..|parts| - 1])
    ensures IsRowGroupBy(parts[|parts| - 1], columns, aggregates, outs[|parts| - 1])
  {
    var n := |parts| - 1;
    assert PartGrouped(parts, columns, aggregates, outs, n);
    forall i | 0 <= i < n
      ensures PartGrouped(parts[..n], columns, aggregates, outs[..n], i)
    {
      assert PartGrouped(parts, columns, aggregates, outs, i);
    }
  }

  /** When no group is spread over two workers, aggregating per worker is aggregating everything. */
  lemma {:induction false} GroupByApart(parts: seq<seq<Row>>, columns: seq<nat>, aggregates: seq<AggregateExpression>,
                                        outs: seq<seq<OutputRow>>)
    requires GroupsApart(parts, columns) && PartsGrouped(parts, columns, aggregates, outs)
    ensures IsRowGroupBy(Concat(parts), columns, aggregates, Concat(outs))
  {
    if parts != [] {
      var n := |parts| - 1;
      PartsGroupedLast(parts, columns, aggregates, outs);
      GroupByApart(parts[..n], columns, aggregates, outs[..n]);
      forall group
        ensures !(HasGroup(Concat(parts[..n]), columns, group) && HasGroup(parts[n], columns, group))
      {
        HasGroupConcat(parts[..n], columns, group);
      }
      GroupByBeside(Concat(parts[..n]), parts[n], columns, aggregates, Concat(outs[..n]), outs[n]);
    }
  }
}
