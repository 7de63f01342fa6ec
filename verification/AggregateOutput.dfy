/** Arguments and output columns of AggregateHashOperator: what the aggregates read, which of them fail, and the types
    and NULL flags of what is written. */
module AggregateOutput {
  import opened Sequences
  import opened Storage
  import opened Aggregates
  import opened GroupKeys
  import opened AggregateHash
  import opened AggregatePasses
  import opened AggregateOperator
  import opened OrderedStringAgg

  // ----- columns -----

  /** The segments of one column. */
  function ColumnCells(t: Table, c: nat): (r: Cells)
    requires ValidTable(t) && c < |t.definitions|
    ensures |r| == |t.chunks| && forall i :: 0 <= i < |r| ==> r[i] == t.chunks[i][c]
  {
    seq(|t.chunks|, i requires 0 <= i < |t.chunks| => t.chunks[i][c])
  }

  lemma CellSizes(t: Table, c: nat)
    requires ValidTable(t) && c < |t.definitions|
    ensures Sizes(ColumnCells(t, c)) == ChunkSizes(t)
  {}

  lemma TypedColumn(t: Table, c: nat)
    requires ValidTable(t) && TypedTable(t) && c < |t.definitions|
    ensures Typed(ColumnCells(t, c), t.definitions[c].dataType)
  {
    forall i, k | 0 <= i < |t.chunks| && 0 <= k < |t.chunks[i][c]|
      ensures CellHasType(t.chunks[i][c][k], t.definitions[c].dataType)
    {
      TypedCell(t, RowId(i, k), c);
    }
  }

  /** The cells of one aggregate's argument, chunk by chunk; COUNT(*) sees one value per row. */
  function ArgumentCells(t: Table, a: AggregateExpression): Cells
    requires ValidTable(t) && a.Fits(t)
  {
    match a
    case OfColumn(_, c) => ColumnCells(t, c)
    case OrderedStrings(c, _) => ColumnCells(t, c)
    case Star(_) => ConstantCells(t, Val(Int(1)))
  }

  function ConstantCells(t: Table, cell: Cell): (r: Cells)
    ensures Sizes(r) == ChunkSizes(t)
    ensures |r| == |t.chunks|
    ensures forall i, k :: 0 <= i < |r| && 0 <= k < |r[i]| ==> r[i][k] == cell
  {
    seq(|t.chunks|, i requires 0 <= i < |t.chunks| => seq(ChunkSize(t.chunks[i]), _ => cell))
  }

  predicate AllFit(t: Table, aggregates: seq<AggregateExpression>) {
    forall a :: 0 <= a < |aggregates| ==> aggregates[a].Fits(t)
  }

  lemma ArgumentAt(t: Table, a: AggregateExpression, i: nat, k: nat)
    requires ValidTable(t) && a.Fits(t) && i < |t.chunks| && k < ChunkSize(t.chunks[i])
    ensures i < |ArgumentCells(t, a)| && k < |ArgumentCells(t, a)[i]|
    ensures ArgumentCells(t, a)[i][k] == Argument(t, a)(RowId(i, k))
  {
    if !a.Star? {
      CellSizes(t, a.column);
    } else {
      assert Sizes(ConstantCells(t, Val(Int(1))))[i] == ChunkSizes(t)[i];
    }
  }

  lemma ArgumentSizes(t: Table, a: AggregateExpression)
    requires ValidTable(t) && a.Fits(t)
    ensures Sizes(ArgumentCells(t, a)) == ChunkSizes(t)
  {
    if !a.Star? {
      CellSizes(t, a.column);
    }
  }

  // ----- which aggregates fail -----

  /** ValidateAggregates refuses SUM, AVG and STDDEV_SAMP of a string column, and an asterisk for all but COUNT. */
  predicate RefusedByType(t: Table, a: AggregateExpression)
    requires a.Fits(t)
  {
    || (a.Star? && !a.f.Count?)
    || (a.OfColumn? && t.definitions[a.column].dataType.StringType? && (a.f.Sum? || a.f.Avg? || a.f.StdDevSample?))
  }

  ghost predicate HasValue(t: Table, c: nat) {
    exists p :: p in Positions(ChunkSizes(t)) && CellAt(t, p, c).Val?
  }

  /** The aggregator of STRING_AGG refuses the first value of a column of another type. */
  ghost predicate RefusedByValue(t: Table, a: AggregateExpression)
    requires a.Fits(t)
  {
    && !a.Star? && a.Function().StringAgg? && !t.definitions[a.column].dataType.StringType?
    && HasValue(t, a.column)
  }

  ghost predicate Computable(t: Table, aggregates: seq<AggregateExpression>)
    requires AllFit(t, aggregates)
  {
    forall a :: 0 <= a < |aggregates| ==> !RefusedByType(t, aggregates[a]) && !RefusedByValue(t, aggregates[a])
  }

  /** On a typed table a value is refused exactly when STRING_AGG meets a value of another type than string. */
  lemma TakesExact(t: Table, a: AggregateExpression)
    requires TypedTable(t) && a.Fits(t) && !RefusedByType(t, a)
    ensures Takes(t, a) <==> !RefusedByValue(t, a)
  {
    if a.Function().StringAgg? {
      forall p | p in Positions(ChunkSizes(t))
        ensures CellHasType(CellAt(t, p, a.column), t.definitions[a.column].dataType)
        ensures Argument(t, a)(p) == CellAt(t, p, a.column)
      {
        TypedCell(t, p, a.column);
      }
      if RefusedByValue(t, a) {
        var p :| p in Positions(ChunkSizes(t)) && CellAt(t, p, a.column).Val?;
        assert Refuses(a.Function(), Argument(t, a)(p));
      }
    }
  }

  method ValidateAggregates(t: Table, aggregates: seq<AggregateExpression>) returns (ok: bool)
    requires AllFit(t, aggregates)
    ensures ok <==> forall a :: 0 <= a < |aggregates| ==> !RefusedByType(t, aggregates[a])
  {
    for a := 0 to |aggregates|
      invariant forall b :: 0 <= b < a ==> !RefusedByType(t, aggregates[b])
    {
      if RefusedByType(t, aggregates[a]) {
        return false;
      }
    }
    ok := true;
  }

  // ----- no GROUP BY columns -----

  lemma UngroupedSnoc(t: Table, a: AggregateExpression, ps: seq<RowId>, p: RowId)
    ensures PairsIn(t, [], a, ps + [p], []) ==
            PairsIn(t, [], a, ps, []) + if Argument(t, a)(p).Val? then [Pair(p, Argument(t, a)(p).v)] else []
  {
    assert (ps + [p])[..|ps|] == ps;
    assert GroupRow(t, [], p) == [];
  }

  /** The single result stands for the rows so far, and none of their values was refused. */
  ghost predicate HoldsAll(t: Table, a: AggregateExpression, result: AggregateResult, ps: seq<RowId>) {
    var pairs := PairsIn(t, [], a, ps, []);
    && result.accumulator == Fold(a.Function(), pairs) && result.count == |pairs|
    && forall k :: 0 <= k < |ps| ==> !Refuses(a.Function(), Argument(t, a)(ps[k]))
  }

  lemma HoldsNext(t: Table, a: AggregateExpression, result: AggregateResult, ps: seq<RowId>, p: RowId)
    requires HoldsAll(t, a, result, ps) && !Refuses(a.Function(), Argument(t, a)(p))
    ensures HoldsAll(t, a, Update(a.Function(), result.(row := SomeRow(p)), p, Argument(t, a)(p)), ps + [p])
  {
    UngroupedSnoc(t, a, ps, p);
    if Argument(t, a)(p).Val? {
      FoldSnoc(a.Function(), PairsIn(t, [], a, ps, []), Pair(p, Argument(t, a)(p).v));
    }
  }

  /** All rows go to the single result of the empty key. */
  method AccumulateAll(t: Table, a: AggregateExpression) returns (ok: bool, result: AggregateResult)
    requires ValidTable(t) && a.Fits(t)
    ensures ok <==> Takes(t, a)
    ensures ok ==> HoldsAll(t, a, result, Positions(ChunkSizes(t)))
  {
    var cells: Cells := ArgumentCells(t, a);
    ok, result := true, Blank(a.Function());
    ghost var sizes := ChunkSizes(t);
    ghost var ps: seq<RowId> := [];
    ArgumentSizes(t, a);
    for i := 0 to |cells|
      invariant ps == Positions(sizes[..i]) && ok && HoldsAll(t, a, result, ps)
    {
      PositionsNext(sizes, i);
      assert Sizes(cells)[i] == sizes[i];
      for k := 0 to |cells[i]|
        invariant ps == Positions(sizes[..i]) + ChunkPositions(i, k) && ok && HoldsAll(t, a, result, ps)
      {
        ArgumentAt(t, a, i, k);
        var cell: Cell := cells[i][k];
        if Refuses(a.Function(), cell) {
          assert RowId(i, k) in Positions(sizes);
          return false, result;
        }
        HoldsNext(t, a, result, ps, RowId(i, k));
        PositionsSnoc(Positions(sizes[..i]), i, k);
        result := Update(a.Function(), result.(row := SomeRow(RowId(i, k))), RowId(i, k), cell);
        ps := ps + [RowId(i, k)];
      }
    }
    TakeAll(sizes);
    AllTaken(t, a, result);
  }

  lemma AllTaken(t: Table, a: AggregateExpression, result: AggregateResult)
    requires HoldsAll(t, a, result, Positions(ChunkSizes(t)))
    ensures Takes(t, a)
  {
    var ps := Positions(ChunkSizes(t));
    forall p | p in ps
      ensures !Refuses(a.Function(), Argument(t, a)(p))
    {
      var k :| 0 <= k < |ps| && ps[k] == p;
    }
  }

  lemma {:induction false} UngroupedRows(t: Table, a: AggregateExpression, ps: seq<RowId>)
    ensures PairRows(PairsIn(t, [], a, ps, [])) == Filter((p: RowId) => Argument(t, a)(p).Val?, ps)
  {
    if ps != [] {
      var keep := (p: RowId) => Argument(t, a)(p).Val?;
      var front, p := ps[..|ps| - 1], ps[|ps| - 1];
      UngroupedRows(t, a, front);
      assert ps == front + [p];
      UngroupedSnoc(t, a, front, p);
      FilterSnoc(keep, front, p);
      if keep(p) {
        PairRowsSnoc(PairsIn(t, [], a, front, []), Pair(p, Argument(t, a)(p).v));
      }
    }
  }

  lemma UngroupedInOrder(t: Table, a: AggregateExpression)
    ensures RowsOfGroup(t, PairRows(PairsIn(t, [], a, Positions(ChunkSizes(t)), [])))
  {
    var ps := Positions(ChunkSizes(t));
    UngroupedRows(t, a, ps);
    PositionsOrdered(ChunkSizes(t));
    FilterKeepsOrder((p: RowId) => Argument(t, a)(p).Val?, ps);
    var rows := Filter((p: RowId) => Argument(t, a)(p).Val?, ps);
    assert forall k :: 0 <= k < |rows| ==> rows[k] in rows;
  }

  /** One aggregate over all rows, NULL or 0 without rows. */
  method AggregateAll(t: Table, a: AggregateExpression) returns (ok: bool, r: Cell)
    requires ValidTable(t) && a.Fits(t)
    ensures ok <==> Takes(t, a)
    ensures ok ==> IsAggregateOf(t, a, PairsIn(t, [], a, Positions(ChunkSizes(t)), []), r)
  {
    var result;
    ok, result := AccumulateAll(t, a);
    if !ok {
      return false, Null;
    }
    ghost var pairs := PairsIn(t, [], a, Positions(ChunkSizes(t)), []);
    TakenPairs(t, [], a, Positions(ChunkSizes(t)), []);
    StringsFold(pairs);
    if a.OrderedStrings? {
      UngroupedInOrder(t, a);
      r := Concatenate(t, a.column, PairRows(result.accumulator.pairs), a.order);
    } else {
      FoldIsAggregate(a.Function(), pairs);
      r := Finish(a.Function(), result.accumulator, result.count);
    }
  }

  /** One cell per aggregate so far. */
  ghost predicate UngroupedCells(t: Table, aggregates: seq<AggregateExpression>, cells: Row) {
    |cells| <= |aggregates| &&
    forall a :: 0 <= a < |cells| ==>
      Takes(t, aggregates[a]) &&
      IsAggregateOf(t, aggregates[a], PairsIn(t, [], aggregates[a], Positions(ChunkSizes(t)), []), cells[a])
  }

  lemma UngroupedNext(t: Table, aggregates: seq<AggregateExpression>, cells: Row, cell: Cell)
    requires UngroupedCells(t, aggregates, cells) && |cells| < |aggregates| && Takes(t, aggregates[|cells|])
    requires var a := aggregates[|cells|]; IsAggregateOf(t, a, PairsIn(t, [], a, Positions(ChunkSizes(t)), []), cell)
    ensures UngroupedCells(t, aggregates, cells + [cell])
  {}

  method AggregateUngrouped(t: Table, aggregates: seq<AggregateExpression>) returns (ok: bool, values: seq<Segment>)
    requires ValidTable(t) && AllFit(t, aggregates)
    ensures ok <==> forall a :: 0 <= a < |aggregates| ==> Takes(t, aggregates[a])
    ensures ok ==> |values| == |aggregates| && SegmentsOf(values, 1)
    ensures ok ==> CellsExact(t, [], aggregates, OutputRow([], RowIn(values, 1, 0)))
  {
    var cells: Row := [];
    for a := 0 to |aggregates|
      invariant |cells| == a && UngroupedCells(t, aggregates, cells)
    {
      var cell;
      ok, cell := AggregateAll(t, aggregates[a]);
      if !ok {
        return false, [];
      }
      UngroupedNext(t, aggregates, cells, cell);
      cells := cells + [cell];
    }
    ok, values := true, seq(|cells|, c requires 0 <= c < |cells| => [cells[c]]);
    SingleRow(t, aggregates, cells, values);
  }

  lemma SingleRow(t: Table, aggregates: seq<AggregateExpression>, cells: Row, values: seq<Segment>)
    requires UngroupedCells(t, aggregates, cells) && |cells| == |aggregates| == |values|
    requires forall c :: 0 <= c < |values| ==> values[c] == [cells[c]]
    ensures SegmentsOf(values, 1) && CellsExact(t, [], aggregates, OutputRow([], RowIn(values, 1, 0)))
  {
    assert RowIn(values, 1, 0) == cells;
  }

  // ----- the output table -----

  function AggregateType(f: AggregateFunction, input: DataType): DataType {
    match f
    case Count | CountDistinct => LongType
    case Min | Max => input
    case Avg | StdDevSample => DoubleType
    case Sum => if input.IntType? || input.LongType? then LongType else DoubleType
    case StringAgg => StringType
  }

  function AggregateDefinition(t: Table, a: AggregateExpression): ColumnDefinition
    requires a.Fits(t)
  {
    match a
    case Star(_) => ColumnDefinition(LongType, false)
    case OrderedStrings(_, _) => ColumnDefinition(StringType, true)
    case OfColumn(f, c) => ColumnDefinition(AggregateType(f, t.definitions[c].dataType), NeedsNull(f))
  }

  function OutputDefinitions(t: Table, columns: seq<nat>,
                             aggregates: seq<AggregateExpression>): (r: seq<ColumnDefinition>)
    requires AllFit(t, aggregates) && forall k :: 0 <= k < |columns| ==> columns[k] < |t.definitions|
    ensures |r| == |columns| + |aggregates|
  {
    GroupDefinitions(t, columns) + AggregateDefinitions(t, aggregates)
  }

  function GroupDefinitions(t: Table, columns: seq<nat>): (r: seq<ColumnDefinition>)
    requires forall k :: 0 <= k < |columns| ==> columns[k] < |t.definitions|
    ensures |r| == |columns| && forall k :: 0 <= k < |columns| ==> r[k] == t.definitions[columns[k]]
  {
    seq(|columns|, k requires 0 <= k < |columns| => t.definitions[columns[k]])
  }

  function AggregateDefinitions(t: Table, aggregates: seq<AggregateExpression>): (r: seq<ColumnDefinition>)
    requires AllFit(t, aggregates)
    ensures |r| == |aggregates| && forall a :: 0 <= a < |aggregates| ==> r[a] == AggregateDefinition(t, aggregates[a])
  {
    seq(|aggregates|, a requires 0 <= a < |aggregates| => AggregateDefinition(t, aggregates[a]))
  }

  /** A cell of an output column: of the column's type, and NULL only where the column is nullable. */
  predicate CellFits(cell: Cell, definition: ColumnDefinition) {
    CellHasType(cell, definition.dataType) && (cell == Null ==> definition.nullable)
  }

  lemma GroupCellFits(t: Table, columns: seq<nat>, group: Row, c: nat)
    requires ValidTable(t) && TypedTable(t) && c < |columns| && columns[c] < |t.definitions|
    requires IsGroup(t, columns, group)
    ensures |group| == |columns| && CellFits(group[c], t.definitions[columns[c]])
  {
    var p :| p in Positions(ChunkSizes(t)) && group == GroupRow(t, columns, p);
    TypedCell(t, p, columns[c]);
    assert CellAt(t, p, columns[c]) == t.chunks[p.chunk][columns[c]][p.offset];
  }

  ghost predicate ValuesHaveType(vs: seq<Value>, dataType: DataType) {
    forall k :: 0 <= k < |vs| ==> HasType(vs[k], dataType)
  }

  lemma {:induction false} PairsTyped(t: Table, columns: seq<nat>, f: AggregateFunction, c: nat, ps: seq<RowId>,
                                      group: Row)
    requires TypedTable(t) && c < |t.definitions| && forall k :: 0 <= k < |ps| ==> InRange(ps[k], ChunkSizes(t))
    ensures ValuesHaveType(PairValues(PairsIn(t, columns, OfColumn(f, c), ps, group)), t.definitions[c].dataType)
  {
    if ps != [] {
      PairsTyped(t, columns, f, c, ps[..|ps| - 1], group);
      TypedCell(t, ps[|ps| - 1], c);
    }
  }

  /** The aggregate of typed values has the type of its output column. */
  lemma AggregateTyped(f: AggregateFunction, vs: seq<Value>, dataType: DataType, cell: Cell)
    requires IsAggregate(f, vs, cell) && ValuesHaveType(vs, dataType)
    requires dataType.StringType? ==> !f.Sum? && !f.Avg? && !f.StdDevSample?
    ensures CellFits(cell, ColumnDefinition(AggregateType(f, dataType), NeedsNull(f)))
  {
    if f.Sum? && vs != [] {
      assert HasType(vs[0], dataType);
      if dataType.IntType? || dataType.LongType? {
        assert AllInts(vs);
      }
    }
  }

  /** Every aggregate cell fits its output column. */
  lemma AggregateCellFits(t: Table, columns: seq<nat>, aggregates: seq<AggregateExpression>, row: OutputRow, a: nat)
    requires ValidTable(t) && TypedTable(t) && AllFit(t, aggregates) && Computable(t, aggregates) && a < |aggregates|
    requires CellsExact(t, columns, aggregates, row)
    ensures CellFits(row.cells[a], AggregateDefinition(t, aggregates[a]))
  {
    var ps := Positions(ChunkSizes(t));
    var pairs := PairsIn(t, columns, aggregates[a], ps, row.group);
    assert IsAggregateOf(t, aggregates[a], pairs, row.cells[a]);
    assert !RefusedByType(t, aggregates[a]);
    match aggregates[a] {
      case OfColumn(f, c) =>
        assert forall k :: 0 <= k < |ps| ==> ps[k] in ps;
        PairsTyped(t, columns, f, c, ps, row.group);
        AggregateTyped(f, PairValues(pairs), t.definitions[c].dataType, row.cells[a]);
      case OrderedStrings(_, _) =>
      case Star(_) =>
    }
  }

  ghost predicate SegmentsFit(definitions: seq<ColumnDefinition>, segments: seq<Segment>) {
    |segments| == |definitions| &&
    forall c, k :: 0 <= c < |segments| && 0 <= k < |segments[c]| ==> CellFits(segments[c][k], definitions[c])
  }

  lemma SegmentsBeside(definitions: seq<ColumnDefinition>, segments: seq<Segment>,
                       more: seq<ColumnDefinition>, others: seq<Segment>)
    requires SegmentsFit(definitions, segments) && SegmentsFit(more, others)
    ensures SegmentsFit(definitions + more, segments + others)
  {}

  lemma GroupsFit(t: Table, columns: seq<nat>, groups: seq<Segment>, values: seq<Segment>, n: nat)
    requires ValidTable(t) && TypedTable(t) && forall k :: 0 <= k < |columns| ==> columns[k] < |t.definitions|
    requires |groups| == |columns| && SegmentsOf(groups, n) && SegmentsOf(values, n)
    requires ListsGroups(t, columns, OutputRows(groups, values, n))
    ensures SegmentsFit(GroupDefinitions(t, columns), groups)
  {
    forall c, k | 0 <= c < |groups| && 0 <= k < n
      ensures CellFits(groups[c][k], t.definitions[columns[c]])
    {
      var row := OutputRows(groups, values, n)[k];
      assert IsGroup(t, columns, row.group);
      GroupCellFits(t, columns, row.group, c);
    }
  }

  lemma ValuesFit(t: Table, columns: seq<nat>, aggregates: seq<AggregateExpression>,
                  groups: seq<Segment>, values: seq<Segment>, n: nat)
    requires ValidTable(t) && TypedTable(t) && AllFit(t, aggregates) && Computable(t, aggregates)
    requires |values| == |aggregates| && SegmentsOf(groups, n) && SegmentsOf(values, n)
    requires forall k :: 0 <= k < n ==> CellsExact(t, columns, aggregates, OutputRows(groups, values, n)[k])
    ensures SegmentsFit(AggregateDefinitions(t, aggregates), values)
  {
    forall a, k | 0 <= a < |values| && 0 <= k < n
      ensures CellFits(values[a][k], AggregateDefinition(t, aggregates[a]))
    {
      AggregateCellFits(t, columns, aggregates, OutputRows(groups, values, n)[k], a);
    }
  }

  lemma OutputFits(t: Table, columns: seq<nat>, aggregates: seq<AggregateExpression>,
                   groups: seq<Segment>, values: seq<Segment>, n: nat)
    requires ValidTable(t) && TypedTable(t) && AllFit(t, aggregates) && Computable(t, aggregates)
    requires forall k :: 0 <= k < |columns| ==> columns[k] < |t.definitions|
    requires |groups| == |columns| && |values| == |aggregates| && SegmentsOf(groups, n) && SegmentsOf(values, n)
    requires forall k :: 0 <= k < n ==> CellsExact(t, columns, aggregates, OutputRows(groups, values, n)[k])
    requires columns != [] ==> ListsGroups(t, columns, OutputRows(groups, values, n))
    ensures SegmentsFit(OutputDefinitions(t, columns, aggregates), groups + values)
  {
    if columns != [] {
      GroupsFit(t, columns, groups, values, n);
    }
    ValuesFit(t, columns, aggregates, groups, values, n);
    SegmentsBeside(GroupDefinitions(t, columns), groups, AggregateDefinitions(t, aggregates), values);
  }

  lemma SegmentRows(groups: seq<Segment>, values: seq<Segment>, n: nat)
    requires SegmentsOf(groups, n) && SegmentsOf(values, n) && groups + values != []
    ensures ChunkSize(groups + values) == n && forall c :: 0 <= c < |groups + values| ==> |(groups + values)[c]| == n
    ensures ChunkRows(groups + values) == FlatRows(OutputRows(groups, values, n))
  {
    forall k | 0 <= k < n
      ensures ChunkRow(groups + values, k) == FlatRow(OutputRows(groups, values, n)[k])
    {}
  }

  lemma TypedChunk(definitions: seq<ColumnDefinition>, segments: seq<Segment>)
    requires SegmentsFit(definitions, segments) && ValidChunk(definitions, segments)
    ensures TypedTable(Table(definitions, [segments])) && TypedTable(Table(definitions, []))
  {
    var t := Table(definitions, [segments]);
    RowsSnoc(Table(definitions, []), segments);
    assert Rows(Table(definitions, [])) == [] && [] + [segments] == [segments];
    forall row | row in Rows(t)
      ensures TypedRow(definitions, row)
    {
      var k :| 0 <= k < |Rows(t)| && Rows(t)[k] == row;
      assert row == ChunkRow(segments, k);
      forall c | 0 <= c < |row|
        ensures CellHasType(row[c], definitions[c].dataType)
      {
        assert CellFits(segments[c][k], definitions[c]);
      }
    }
  }

  /** One chunk when there is a row, no chunk otherwise. */
  method AssembleOutput(definitions: seq<ColumnDefinition>, groups: seq<Segment>, values: seq<Segment>, ghost n: nat)
    returns (out: Table)
    requires SegmentsOf(groups, n) && SegmentsOf(values, n) && groups + values != []
    requires SegmentsFit(definitions, groups + values)
    ensures out.definitions == definitions && ValidTable(out) && TypedTable(out)
    ensures Rows(out) == FlatRows(OutputRows(groups, values, n))
  {
    var segments := groups + values;
    SegmentRows(groups, values, n);
    assert ValidChunk(definitions, segments);
    TypedChunk(definitions, segments);
    out := Table(definitions, []);
    assert Rows(out) == [];
    if |segments[0]| > 0 {
      RowsSnoc(out, segments);
      out := Table(definitions, out.chunks + [segments]);
    }
  }
}
