/** AggregateHashOperator's promise without its own vocabulary: which aggregates it accepts, the columns it writes, and
    each cell as arithmetic on the rows of its group. */
module PlainGroupBy {
  import opened Sequences
  import opened Storage
  import opened Aggregates
  import opened AggregateOperator
  import opened AggregateOutput
  import opened OrderedStringAgg
  import opened SortOperator
  import opened Ordering
  import opened Arithmetic

  // ----- which aggregates are accepted -----

  ghost predicate AllNull(t: Table, c: nat) {
    forall p :: InRange(p, ChunkSizes(t)) ==> CellAt(t, p, c) == Null
  }

  /** An asterisk goes with COUNT, sums and averages with numbers, STRING_AGG with strings, or with NULLs only. */
  ghost predicate Accepted(t: Table, a: AggregateExpression)
    requires a.Fits(t)
  {
    match a
    case Star(f) => f == Count
    case OrderedStrings(c, _) => t.definitions[c].dataType == StringType || AllNull(t, c)
    case OfColumn(f, c) =>
      if f == StringAgg then t.definitions[c].dataType == StringType || AllNull(t, c)
      else if t.definitions[c].dataType == StringType then f in {Min, Max, Count, CountDistinct}
      else true
  }

  ghost predicate AllAccepted(t: Table, aggregates: seq<AggregateExpression>)
    requires AllFit(t, aggregates)
  {
    forall a :: 0 <= a < |aggregates| ==> Accepted(t, aggregates[a])
  }

  lemma AllNullExact(t: Table, c: nat)
    ensures AllNull(t, c) <==> !HasValue(t, c)
  {
    if !AllNull(t, c) {
      var p :| InRange(p, ChunkSizes(t)) && CellAt(t, p, c) != Null;
      assert p in Positions(ChunkSizes(t)) && CellAt(t, p, c).Val?;
    }
  }

  lemma AcceptedExact(t: Table, a: AggregateExpression)
    requires a.Fits(t)
    ensures Accepted(t, a) <==> !RefusedByType(t, a) && !RefusedByValue(t, a)
  {
    if !a.Star? {
      AllNullExact(t, a.column);
    }
  }

  lemma AllAcceptedExact(t: Table, aggregates: seq<AggregateExpression>)
    requires AllFit(t, aggregates)
    ensures AllAccepted(t, aggregates) <==> Computable(t, aggregates)
  {
    forall a | 0 <= a < |aggregates|
      ensures Accepted(t, aggregates[a]) <==> !RefusedByType(t, aggregates[a]) && !RefusedByValue(t, aggregates[a])
    {
      AcceptedExact(t, aggregates[a]);
    }
  }

  // ----- columns -----

  /** Counts are long and never NULL, sums of integers are long, averages and deviations double, STRING_AGG is a string;
      minimum and maximum keep the type of their column. */
  predicate IsColumnOf(t: Table, a: AggregateExpression, column: ColumnDefinition)
    requires a.Fits(t)
  {
    match a
    case Star(_) => column == ColumnDefinition(LongType, false)
    case OrderedStrings(_, _) => column == ColumnDefinition(StringType, true)
    case OfColumn(f, c) =>
      var input := t.definitions[c].dataType;
      && (f in {Count, CountDistinct} ==> column == ColumnDefinition(LongType, false))
      && (f in {Min, Max} ==> column == ColumnDefinition(input, true))
      && (f in {Avg, StdDevSample} ==> column == ColumnDefinition(DoubleType, true))
      && (f == Sum ==> column == ColumnDefinition(if input in {IntType, LongType} then LongType else DoubleType, true))
      && (f == StringAgg ==> column == ColumnDefinition(StringType, true))
  }

  predicate ColumnsExact(t: Table, columns: seq<nat>, aggregates: seq<AggregateExpression>,
                         definitions: seq<ColumnDefinition>)
    requires AllFit(t, aggregates) && forall k :: 0 <= k < |columns| ==> columns[k] < |t.definitions|
  {
    && |definitions| == |columns| + |aggregates|
    && (forall k :: 0 <= k < |columns| ==> definitions[k] == t.definitions[columns[k]])
    && (forall a :: 0 <= a < |aggregates| ==> IsColumnOf(t, aggregates[a], definitions[|columns| + a]))
  }

  /** The output has the grouped columns, then one column per aggregate. */
  lemma DefinitionsExact(t: Table, columns: seq<nat>, aggregates: seq<AggregateExpression>)
    requires AllFit(t, aggregates) && forall k :: 0 <= k < |columns| ==> columns[k] < |t.definitions|
    ensures ColumnsExact(t, columns, aggregates, OutputDefinitions(t, columns, aggregates))
  {
    var definitions := OutputDefinitions(t, columns, aggregates);
    forall a | 0 <= a < |aggregates|
      ensures IsColumnOf(t, aggregates[a], definitions[|columns| + a])
    {
      assert definitions[|columns| + a] == AggregateDefinition(t, aggregates[a]);
    }
  }

  // ----- cells -----

  function InGroup(t: Table, columns: seq<nat>, group: Row): RowId -> bool {
    p => GroupRow(t, columns, p) == group
  }

  /** All rows of a group. */
  function GroupMembers(t: Table, columns: seq<nat>, group: Row): seq<RowId> {
    Filter(InGroup(t, columns, group), Positions(ChunkSizes(t)))
  }

  ghost predicate Arranges(t: Table, order: seq<SortColumn>, ps: seq<RowId>) {
    forall i, j :: 0 <= i < j < |ps| ==> RowPrecedes(StoredTable(t), order, ps[i], ps[j])
  }

  /** The group's strings in the given order, with commas from the first one that is not empty. */
  ghost predicate OrderedJoin(t: Table, c: nat, order: seq<SortColumn>, rows: seq<RowId>, ps: seq<RowId>, cell: Cell) {
    && multiset(ps) == multiset(rows) && Arranges(t, order, ps)
    && exists k: nat :: StartsAt(Map(TextAt(t, c), ps), k) && cell == Val(Text(Separated(Map(TextAt(t, c), ps)[k..])))
  }

  ghost predicate IsOrderedJoin(t: Table, c: nat, order: seq<SortColumn>, rows: seq<RowId>, cell: Cell) {
    if rows == [] then cell == Null
    else if order == [] then cell == Val(Text([]))
    else exists ps :: OrderedJoin(t, c, order, rows, ps, cell)
  }

  /** The cell of an aggregate for a group. */
  ghost predicate PlainCell(t: Table, columns: seq<nat>, a: AggregateExpression, group: Row, cell: Cell)
    requires a.Fits(t)
  {
    match a
    case Star(_) => cell == Val(Int(|GroupMembers(t, columns, group)|))
    case OrderedStrings(c, order) => IsOrderedJoin(t, c, order, Members(t, columns, c, group), cell)
    case OfColumn(f, c) =>
      var rows := Members(t, columns, c, group);
      match t.definitions[c].dataType
      case IntType | LongType => IsIntAggregate(f, Map(IntAt(t, c), rows), cell)
      case FloatType | DoubleType => IsRealAggregate(f, Map(RealAt(t, c), rows), cell)
      case StringType => IsTextAggregate(f, Map(TextAt(t, c), rows), cell)
  }

  ghost predicate PlainCells(t: Table, columns: seq<nat>, aggregates: seq<AggregateExpression>, row: OutputRow)
    requires AllFit(t, aggregates)
  {
    |row.cells| == |aggregates| &&
    forall a :: 0 <= a < |aggregates| ==> PlainCell(t, columns, aggregates[a], row.group, row.cells[a])
  }

  lemma {:induction false} StarPairs(t: Table, columns: seq<nat>, ps: seq<RowId>, group: Row)
    ensures |PairsIn(t, columns, Star(Count), ps, group)| == |Filter(InGroup(t, columns, group), ps)|
  {
    if ps != [] {
      var front, p := ps[..|ps| - 1], ps[|ps| - 1];
      StarPairs(t, columns, front, group);
      FilterSnoc(InGroup(t, columns, group), front, p);
      assert ps == front + [p];
    }
  }

  lemma MemberNext(t: Table, columns: seq<nat>, c: nat, order: seq<SortColumn>, front: seq<RowId>, p: RowId, group: Row)
    ensures PairRows(PairsIn(t, columns, OrderedStrings(c, order), front + [p], group)) ==
            PairRows(PairsIn(t, columns, OrderedStrings(c, order), front, group)) +
            if Holding(t, columns, c, group)(p) then [p] else []
  {
    assert (front + [p])[..|front|] == front;
    if Holding(t, columns, c, group)(p) {
      PairRowsSnoc(PairsIn(t, columns, OrderedStrings(c, order), front, group), Pair(p, CellAt(t, p, c).v));
    }
  }

  lemma {:induction false} MemberRows(t: Table, columns: seq<nat>, c: nat, order: seq<SortColumn>, ps: seq<RowId>,
                                      group: Row)
    ensures PairRows(PairsIn(t, columns, OrderedStrings(c, order), ps, group)) ==
            Filter(Holding(t, columns, c, group), ps)
  {
    if ps != [] {
      var front, p := ps[..|ps| - 1], ps[|ps| - 1];
      assert ps == front + [p];
      MemberRows(t, columns, c, order, front, group);
      MemberNext(t, columns, c, order, front, p, group);
      FilterSnoc(Holding(t, columns, c, group), front, p);
    }
  }

  lemma StoredComparable(t: Table, order: seq<SortColumn>, p: RowId, q: RowId)
    requires ValidTable(t) && TypedTable(t) && OrderedStringAgg.ColumnsExist(t, order)
    requires InRange(p, ChunkSizes(t)) && InRange(q, ChunkSizes(t))
    ensures ColumnsComparable(StoredTable(t), order, p, q)
  {
    forall k | 0 <= k < |order|
      ensures Comparable(CellAt(StoredTable(t), p, order[k].column), CellAt(StoredTable(t), q, order[k].column))
    {
      StoredAt(t, p, order[k].column);
      StoredAt(t, q, order[k].column);
      TypedCell(t, p, order[k].column);
      TypedCell(t, q, order[k].column);
    }
  }

  lemma OrderArranges(t: Table, order: seq<SortColumn>, ps: seq<RowId>)
    requires ValidTable(t) && TypedTable(t) && OrderedStringAgg.ColumnsExist(t, order)
    requires LexOrdered(StoredTable(t), order, ps) && forall k :: 0 <= k < |ps| ==> InRange(ps[k], ChunkSizes(t))
    ensures Arranges(t, order, ps)
  {
    forall i, j | 0 <= i < j < |ps|
      ensures RowPrecedes(StoredTable(t), order, ps[i], ps[j])
    {
      StoredComparable(t, order, ps[i], ps[j]);
      LexBeforeExact(StoredTable(t), order, ps[i], ps[j]);
    }
  }

  /** The rows hold strings. */
  ghost predicate HoldTexts(t: Table, c: nat, ps: seq<RowId>) {
    forall k :: 0 <= k < |ps| ==>
      InRange(ps[k], ChunkSizes(t)) && CellAt(t, ps[k], c).Val? && CellAt(t, ps[k], c).v.Text?
  }

  lemma MembersHoldTexts(t: Table, columns: seq<nat>, c: nat, group: Row)
    requires TypedTable(t) && c < |t.definitions|
    requires t.definitions[c].dataType == StringType || AllNull(t, c)
    ensures HoldTexts(t, c, Members(t, columns, c, group))
  {
    var rows := Members(t, columns, c, group);
    forall k | 0 <= k < |rows|
      ensures InRange(rows[k], ChunkSizes(t)) && CellAt(t, rows[k], c).Val? && CellAt(t, rows[k], c).v.Text?
    {
      assert rows[k] in rows;
      MemberTyped(t, columns, c, group, rows[k]);
    }
  }

  lemma HoldTextsPermuted(t: Table, c: nat, rows: seq<RowId>, ps: seq<RowId>)
    requires HoldTexts(t, c, rows) && multiset(ps) == multiset(rows)
    ensures HoldTexts(t, c, ps)
  {
    forall k | 0 <= k < |ps|
      ensures InRange(ps[k], ChunkSizes(t)) && CellAt(t, ps[k], c).Val? && CellAt(t, ps[k], c).v.Text?
    {
      PermutedMembers(ps, rows, ps[k]);
      var m :| 0 <= m < |rows| && rows[m] == ps[k];
    }
  }

  lemma TextsHeld(t: Table, c: nat, ps: seq<RowId>)
    requires HoldTexts(t, c, ps)
    ensures TextsOf(t, c, ps) == Texts(Map(TextAt(t, c), ps))
  {}

  lemma JoinExact(texts: seq<seq<Byte>>, cell: Cell)
    requires texts != [] && cell == Val(Text(JoinedWithComma(DropLeadingEmpty(Texts(texts)))))
    ensures exists k: nat :: StartsAt(texts, k) && cell == Val(Text(Separated(texts[k..])))
  {
    var k := DroppedTexts(texts);
    JoinedIsSeparated(texts[k..]);
  }

  lemma JoinedOrder(t: Table, c: nat, order: seq<SortColumn>, rows: seq<RowId>, ps: seq<RowId>, cell: Cell)
    requires ValidTable(t) && TypedTable(t) && OrderedStringAgg.ColumnsExist(t, order) && HoldTexts(t, c, rows)
    requires rows != [] && JoinsInOrder(t, c, order, rows, ps, cell)
    ensures OrderedJoin(t, c, order, rows, ps, cell)
  {
    PermutedLength(ps, rows);
    HoldTextsPermuted(t, c, rows, ps);
    OrderArranges(t, order, ps);
    TextsHeld(t, c, ps);
    JoinExact(Map(TextAt(t, c), ps), cell);
  }

  lemma OrderedCell(t: Table, columns: seq<nat>, c: nat, order: seq<SortColumn>, group: Row, cell: Cell)
    requires ValidTable(t) && TypedTable(t) && OrderedStrings(c, order).Fits(t) && Accepted(t, OrderedStrings(c, order))
    requires var a := OrderedStrings(c, order);
             IsAggregateOf(t, a, PairsIn(t, columns, a, Positions(ChunkSizes(t)), group), cell)
    ensures PlainCell(t, columns, OrderedStrings(c, order), group, cell)
  {
    var rows := Members(t, columns, c, group);
    MemberRows(t, columns, c, order, Positions(ChunkSizes(t)), group);
    MembersHoldTexts(t, columns, c, group);
    if rows != [] && order != [] {
      var ps :| JoinsInOrder(t, c, order, rows, ps, cell);
      JoinedOrder(t, c, order, rows, ps, cell);
    }
  }

  /** Each cell is plain arithmetic on the rows of its group. */
  lemma CellExact(t: Table, columns: seq<nat>, a: AggregateExpression, group: Row, cell: Cell)
    requires ValidTable(t) && TypedTable(t) && a.Fits(t) && Accepted(t, a)
    requires IsAggregateOf(t, a, PairsIn(t, columns, a, Positions(ChunkSizes(t)), group), cell)
    ensures PlainCell(t, columns, a, group, cell)
  {
    match a {
      case Star(_) => StarPairs(t, columns, Positions(ChunkSizes(t)), group);
      case OrderedStrings(c, order) => OrderedCell(t, columns, c, order, group, cell);
      case OfColumn(f, c) =>
        match t.definitions[c].dataType {
          case IntType | LongType => IntColumnCell(t, columns, f, c, group, cell);
          case FloatType | DoubleType => RealColumn(t, columns, f, c, group, cell);
          case StringType => TextColumn(t, columns, f, c, group, cell);
        }
    }
  }

  lemma RowExact(t: Table, columns: seq<nat>, aggregates: seq<AggregateExpression>, row: OutputRow)
    requires ValidTable(t) && TypedTable(t) && AllFit(t, aggregates) && AllAccepted(t, aggregates)
    requires CellsExact(t, columns, aggregates, row)
    ensures PlainCells(t, columns, aggregates, row)
  {
    forall a | 0 <= a < |aggregates|
      ensures PlainCell(t, columns, aggregates[a], row.group, row.cells[a])
    {
      assert Accepted(t, aggregates[a]);
      CellExact(t, columns, aggregates[a], row.group, row.cells[a]);
    }
  }

  /** The groups with their rows: those of the input, each once, with its aggregates. */
  ghost predicate PlainGroups(t: Table, columns: seq<nat>, aggregates: seq<AggregateExpression>, rows: seq<OutputRow>)
    requires AllFit(t, aggregates)
  {
    && (forall i, k :: 0 <= i < k < |rows| ==> rows[i].group != rows[k].group)
    && (forall k :: 0 <= k < |rows| ==> GroupMembers(t, columns, rows[k].group) != [])
    && (forall p :: InRange(p, ChunkSizes(t)) ==> Listed(rows, GroupRow(t, columns, p)))
    && (forall k :: 0 <= k < |rows| ==> PlainCells(t, columns, aggregates, rows[k]))
  }

  lemma GroupsExact(t: Table, columns: seq<nat>, aggregates: seq<AggregateExpression>, rows: seq<OutputRow>)
    requires ValidTable(t) && TypedTable(t) && AllFit(t, aggregates) && AllAccepted(t, aggregates)
    requires IsGroupBy(t, columns, aggregates, rows)
    ensures PlainGroups(t, columns, aggregates, rows)
  {
    forall k | 0 <= k < |rows|
      ensures GroupMembers(t, columns, rows[k].group) != [] && PlainCells(t, columns, aggregates, rows[k])
    {
      assert IsGroup(t, columns, rows[k].group);
      var p :| p in Positions(ChunkSizes(t)) && rows[k].group == GroupRow(t, columns, p);
      assert p in GroupMembers(t, columns, rows[k].group);
      RowExact(t, columns, aggregates, rows[k]);
    }
    forall p | InRange(p, ChunkSizes(t))
      ensures Listed(rows, GroupRow(t, columns, p))
    {
      assert p in Positions(ChunkSizes(t));
      assert IsGroup(t, columns, GroupRow(t, columns, p));
    }
  }
}
