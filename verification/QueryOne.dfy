/** TPC-H query 1 as generated: partial sums and counts per worker, then sums of them and quotients. */
module QueryOne {
  import opened Sequences
  import opened Storage
  import opened Aggregates
  import opened AggregateOperator
  import opened RowGroups
  import opened TwoStages
  import opened FileAssignment
  import opened SortOperator
  import opened TopRows

  // ----- filter and projection of the first pipeline -----

  function Times(a: Cell, b: Cell): Cell {
    if a.Val? && b.Val? then Val(Dec(Number(a.v) * Number(b.v))) else Null
  }

  function OneMinus(a: Cell): Cell {
    if a.Val? then Val(Dec(1.0 - Number(a.v))) else Null
  }

  function OnePlus(a: Cell): Cell {
    if a.Val? then Val(Dec(1.0 + Number(a.v))) else Null
  }

  function Quotient(a: Cell, b: Cell): Cell {
    if a.Val? && b.Val? && Number(b.v) != 0.0 then Val(Dec(Number(a.v) / Number(b.v))) else Null
  }

  /** Imported: quantity, extended price, discount, return flag, line status, ship date, tax. */
  function Projected(): Row -> Row {
    row =>
      var price := Times(Component(row, 1), OneMinus(Component(row, 2)));
      var charge := Times(Component(row, 1), Times(OneMinus(Component(row, 2)), OnePlus(Component(row, 6))));
      [price, Component(row, 0), Component(row, 1), Component(row, 2), Component(row, 3), Component(row, 4), charge]
  }

  /** "1998-09-02" */
  const CUTOFF: Value := Text([49, 57, 57, 56, 45, 48, 57, 45, 48, 50])

  /** Shipped no later than the cut-off date; a comparison with NULL is not true. */
  function Shipped(): Row -> bool {
    row => Component(row, 5).Val? && !Less(CUTOFF, Component(row, 5).v)
  }

  function LineItemRows(): seq<Row> -> seq<Row> {
    Prepared(Shipped(), Projected())
  }

  // ----- the aggregations -----

  const GROUPS: seq<nat> := [4, 5]

  function Partial(): seq<AggregateExpression> {
    [OfColumn(Sum, 0), OfColumn(Sum, 1), OfColumn(Sum, 2), OfColumn(Sum, 3), Star(Count), OfColumn(Sum, 6)]
  }

  /** Sums of the discounted price, quantity, price, count, charge and discount columns of the partial results. */
  function Picks(): seq<nat> {
    [0, 1, 2, 4, 5, 3]
  }

  /** The query over all rows at once. */
  function Single(): seq<AggregateExpression> {
    [OfColumn(Sum, 0), OfColumn(Sum, 1), OfColumn(Sum, 2), Star(Count), OfColumn(Sum, 6),
     OfColumn(Avg, 1), OfColumn(Avg, 2), OfColumn(Avg, 3)]
  }

  /** The projection of the second pipeline: averages are sum / count. */
  function WithAverages(): OutputRow -> OutputRow {
    (o: OutputRow) =>
      var c := o.cells;
      OutputRow(o.group,
                [Component(c, 0), Component(c, 1), Component(c, 2), Component(c, 3), Component(c, 4),
                 Quotient(Component(c, 1), Component(c, 3)),
                 Quotient(Component(c, 2), Component(c, 3)),
                 Quotient(Component(c, 5), Component(c, 3))])
  }

  /** The aggregated columns hold a value in every row. */
  ghost predicate Complete(rows: seq<Row>) {
    forall row, c :: row in rows && c in {0, 1, 2, 3, 6} ==> Component(row, c).Val?
  }

  /** Rows of line items without NULL, as the query's schema declares them. */
  ghost predicate LineItems(rows: seq<Row>) {
    forall row :: row in rows ==> |row| == 7 && Null !in row
  }

  lemma ProjectedComplete(row: Row, c: nat)
    requires |row| == 7 && Null !in row && c in {0, 1, 2, 3, 6}
    ensures Component(Projected()(row), c).Val?
  {
    assert row[0] in row && row[1] in row && row[2] in row && row[6] in row;
  }

  lemma PreparedComplete(rows: seq<Row>)
    requires LineItems(rows)
    ensures Complete(LineItemRows()(rows))
  {
    var kept := Filter(Shipped(), rows);
    forall row, c | row in Map(Projected(), kept) && c in {0, 1, 2, 3, 6}
      ensures Component(row, c).Val?
    {
      var source := MapSource(Projected(), kept, row);
      ProjectedComplete(source, c);
    }
  }

  // ----- counting and summing the same rows -----

  /** A column without NULL contributes one value per row of the group. */
  lemma ValuesPerRow(rows: seq<Row>, f: AggregateFunction, c: nat, group: Row)
    requires forall row :: row in rows ==> Component(row, c).Val?
    ensures |RowValues(rows, GROUPS, OfColumn(f, c), group)| == |RowValues(rows, GROUPS, Star(Count), group)|
    ensures RowValues(rows, GROUPS, OfColumn(f, c), group) == RowValues(rows, GROUPS, OfColumn(Sum, c), group)
  {
    FilterExtensional(Contributes(GROUPS, OfColumn(f, c), group), Contributes(GROUPS, Star(Count), group), rows);
    FilterExtensional(Contributes(GROUPS, OfColumn(Sum, c), group), Contributes(GROUPS, Star(Count), group), rows);
  }

  lemma GroupCounted(rows: seq<Row>, group: Row)
    requires HasGroup(rows, GROUPS, group)
    ensures RowValues(rows, GROUPS, Star(Count), group) != []
  {
    var row :| row in rows && GroupOf(GROUPS, row) == group;
    assert row in Filter(Contributes(GROUPS, Star(Count), group), rows);
  }

  ghost predicate TotalOf(rows: seq<Row>, group: Row, a: AggregateExpression, cell: Cell) {
    Resummed(a.Function(), RowValues(rows, GROUPS, a, group), cell)
  }

  /** The second stage for one group: its six cells as sums and counts over all rows. */
  ghost predicate Totals(rows: seq<Row>, o: OutputRow) {
    && |o.cells| == 6
    && TotalOf(rows, o.group, OfColumn(Sum, 0), o.cells[0])
    && TotalOf(rows, o.group, OfColumn(Sum, 1), o.cells[1])
    && TotalOf(rows, o.group, OfColumn(Sum, 2), o.cells[2])
    && TotalOf(rows, o.group, Star(Count), o.cells[3])
    && TotalOf(rows, o.group, OfColumn(Sum, 6), o.cells[4])
    && TotalOf(rows, o.group, OfColumn(Sum, 3), o.cells[5])
  }

  ghost predicate IsCell(rows: seq<Row>, group: Row, a: AggregateExpression, cell: Cell) {
    IsAggregate(a.Function(), RowValues(rows, GROUPS, a, group), cell)
  }

  lemma SumAgrees(rows: seq<Row>, group: Row, c: nat, total: Cell, cell: Cell)
    requires TotalOf(rows, group, OfColumn(Sum, c), total) && IsCell(rows, group, OfColumn(Sum, c), cell)
    ensures total == cell
  {}

  lemma CountAgrees(rows: seq<Row>, group: Row, total: Cell, cell: Cell)
    requires HasGroup(rows, GROUPS, group)
    requires TotalOf(rows, group, Star(Count), total) && IsCell(rows, group, Star(Count), cell)
    ensures total == cell
  {
    GroupCounted(rows, group);
  }

  /** A quotient of the second pipeline is the average over all rows. */
  lemma AverageAgrees(rows: seq<Row>, group: Row, c: nat, total: Cell, count: Cell, cell: Cell)
    requires HasGroup(rows, GROUPS, group) && Complete(rows) && c in {1, 2, 3}
    requires TotalOf(rows, group, OfColumn(Sum, c), total) && TotalOf(rows, group, Star(Count), count)
    requires IsCell(rows, group, OfColumn(Avg, c), cell)
    ensures Quotient(total, count) == cell
  {
    var vs := RowValues(rows, GROUPS, OfColumn(Sum, c), group);
    ValuesPerRow(rows, Avg, c, group);
    ValuesPerRow(rows, Sum, c, group);
    CountHeld(rows, group, count);
    AverageOf(vs, total, count, cell);
  }

  lemma CountHeld(rows: seq<Row>, group: Row, count: Cell)
    requires HasGroup(rows, GROUPS, group) && TotalOf(rows, group, Star(Count), count)
    ensures var n := |RowValues(rows, GROUPS, Star(Count), group)|; n > 0 && count == Val(Int(n))
  {
    GroupCounted(rows, group);
  }

  lemma AverageOf(vs: seq<Value>, total: Cell, count: Cell, cell: Cell)
    requires vs != [] && IsAggregate(Sum, vs, total) && count == Val(Int(|vs|)) && IsAggregate(Avg, vs, cell)
    ensures Quotient(total, count) == cell
  {
    SumValueIsSum(vs);
  }

  lemma SingleCells(rows: seq<Row>, s: OutputRow)
    requires RowCellsExact(rows, GROUPS, Single(), s)
    ensures |s.cells| == 8
    ensures IsCell(rows, s.group, OfColumn(Sum, 0), s.cells[0]) && IsCell(rows, s.group, OfColumn(Sum, 1), s.cells[1])
    ensures IsCell(rows, s.group, OfColumn(Sum, 2), s.cells[2]) && IsCell(rows, s.group, Star(Count), s.cells[3])
    ensures IsCell(rows, s.group, OfColumn(Sum, 6), s.cells[4])
    ensures IsCell(rows, s.group, OfColumn(Avg, 1), s.cells[5])
    ensures IsCell(rows, s.group, OfColumn(Avg, 2), s.cells[6])
    ensures IsCell(rows, s.group, OfColumn(Avg, 3), s.cells[7])
  {
    var a := Single();
    forall b | 0 <= b < 8
      ensures IsCell(rows, s.group, a[b], s.cells[b])
    {}
    assert a[0] == OfColumn(Sum, 0) && a[1] == OfColumn(Sum, 1) && a[2] == OfColumn(Sum, 2) && a[3] == Star(Count);
    assert a[4] == OfColumn(Sum, 6) && a[5] == OfColumn(Avg, 1) && a[6] == OfColumn(Avg, 2) && a[7] == OfColumn(Avg, 3);
  }

  lemma EqualEight(a: Row, b: Row)
    requires |a| == |b| == 8
    requires a[0] == b[0] && a[1] == b[1] && a[2] == b[2] && a[3] == b[3]
    requires a[4] == b[4] && a[5] == b[5] && a[6] == b[6] && a[7] == b[7]
    ensures a == b
  {}

  /** One group of both forms of the query. */
  lemma SameGroup(rows: seq<Row>, o: OutputRow, s: OutputRow)
    requires Totals(rows, o) && Complete(rows) && HasGroup(rows, GROUPS, o.group)
    requires RowCellsExact(rows, GROUPS, Single(), s) && s.group == o.group
    ensures WithAverages()(o) == s
  {
    var g, c := o.group, o.cells;
    SingleCells(rows, s);
    SumAgrees(rows, g, 0, c[0], s.cells[0]);
    SumAgrees(rows, g, 1, c[1], s.cells[1]);
    SumAgrees(rows, g, 2, c[2], s.cells[2]);
    CountAgrees(rows, g, c[3], s.cells[3]);
    SumAgrees(rows, g, 6, c[4], s.cells[4]);
    AverageAgrees(rows, g, 1, c[1], c[3], s.cells[5]);
    AverageAgrees(rows, g, 2, c[2], c[3], s.cells[6]);
    AverageAgrees(rows, g, 3, c[5], c[3], s.cells[7]);
    EqualEight(WithAverages()(o).cells, s.cells);
  }

  // ----- the query -----

  ghost predicate SecondStage(rows: seq<Row>, second: seq<OutputRow>) {
    ListsRowGroups(rows, GROUPS, second) && forall k :: 0 <= k < |second| ==> Totals(rows, second[k])
  }

  lemma PartialSums()
    ensures SumsAndCounts(Partial())
    ensures forall b :: 0 <= b < |Picks()| ==> Picks()[b] < |Partial()|
  {
    var a := Partial();
    assert a[0].f.Sum? && a[1].f.Sum? && a[2].f.Sum? && a[3].f.Sum? && a[4].Star? && a[5].f.Sum?;
  }

  lemma TotalsOf(rows: seq<Row>, o: OutputRow)
    requires |o.cells| == |Picks()|
    requires forall b :: 0 <= b < |Picks()| ==>
               Resummed(Partial()[Picks()[b]].Function(), RowValues(rows, GROUPS, Partial()[Picks()[b]], o.group),
                        o.cells[b])
    ensures Totals(rows, o)
  {
    PickedAt(0, OfColumn(Sum, 0));
    PickedAt(1, OfColumn(Sum, 1));
    PickedAt(2, OfColumn(Sum, 2));
    PickedAt(3, Star(Count));
    PickedAt(4, OfColumn(Sum, 6));
    PickedAt(5, OfColumn(Sum, 3));
  }

  lemma PickedAt(b: nat, a: AggregateExpression)
    requires b < 6
    requires a == match b
                  case 0 => OfColumn(Sum, 0)
                  case 1 => OfColumn(Sum, 1)
                  case 2 => OfColumn(Sum, 2)
                  case 3 => Star(Count)
                  case 4 => OfColumn(Sum, 6)
                  case _ => OfColumn(Sum, 3)
    ensures b < |Picks()| && Picks()[b] < |Partial()| && Partial()[Picks()[b]] == a
  {}

  lemma StagesTotal(parts: seq<seq<Row>>, partials: seq<seq<OutputRow>>, second: seq<OutputRow>)
    requires PartsGrouped(parts, GROUPS, Partial(), partials)
    requires IsRowGroupBy(Concat(Map(Flat(), partials)), [0, 1], Resums(Picks(), 2), second)
    ensures SecondStage(Concat(parts), second)
  {
    assert UpTo(2) == [0, 1];
    PartialSums();
    TwoStageAggregation(parts, GROUPS, Partial(), partials, Picks(), second);
    forall k | 0 <= k < |second|
      ensures Totals(Concat(parts), second[k])
    {
      TotalsOf(Concat(parts), second[k]);
    }
  }

  lemma DistinctGroups(f: OutputRow -> OutputRow, out: seq<OutputRow>)
    requires forall i, k :: 0 <= i < k < |out| ==> out[i].group != out[k].group
    requires forall o :: f(o).group == o.group
    ensures NoDup(Map(f, out))
  {}

  lemma DistinctRows(out: seq<OutputRow>)
    requires forall i, k :: 0 <= i < k < |out| ==> out[i].group != out[k].group
    ensures NoDup(out)
  {}

  lemma MapHas(f: OutputRow -> OutputRow, out: seq<OutputRow>, k: nat)
    requires k < |out|
    ensures f(out[k]) in Map(f, out)
  {
    assert Map(f, out)[k] == f(out[k]);
  }

  lemma InSecond(rows: seq<Row>, second: seq<OutputRow>, single: seq<OutputRow>, k: nat)
    requires SecondStage(rows, second) && IsRowGroupBy(rows, GROUPS, Single(), single) && Complete(rows)
    requires k < |second|
    ensures WithAverages()(second[k]) in single
  {
    assert Listed(second, second[k].group);
    assert Listed(single, second[k].group);
    var m :| 0 <= m < |single| && single[m].group == second[k].group;
    SameGroup(rows, second[k], single[m]);
  }

  lemma InSingle(rows: seq<Row>, second: seq<OutputRow>, single: seq<OutputRow>, m: nat)
    requires SecondStage(rows, second) && IsRowGroupBy(rows, GROUPS, Single(), single) && Complete(rows)
    requires m < |single|
    ensures single[m] in Map(WithAverages(), second)
  {
    assert Listed(single, single[m].group);
    assert Listed(second, single[m].group);
    var k :| 0 <= k < |second| && second[k].group == single[m].group;
    SameGroup(rows, second[k], single[m]);
    MapHas(WithAverages(), second, k);
  }

  /** Both forms list the same groups with the same numbers. */
  lemma StagesAgree(rows: seq<Row>, second: seq<OutputRow>, single: seq<OutputRow>)
    requires SecondStage(rows, second) && IsRowGroupBy(rows, GROUPS, Single(), single) && Complete(rows)
    ensures multiset(Map(WithAverages(), second)) == multiset(single)
  {
    DistinctGroups(WithAverages(), second);
    DistinctRows(single);
    forall o: OutputRow
      ensures o in Map(WithAverages(), second) <==> o in single
    {
      SameRow(rows, second, single, o);
    }
    SameMembers(Map(WithAverages(), second), single);
  }

  lemma SameRow(rows: seq<Row>, second: seq<OutputRow>, single: seq<OutputRow>, o: OutputRow)
    requires SecondStage(rows, second) && IsRowGroupBy(rows, GROUPS, Single(), single) && Complete(rows)
    ensures o in Map(WithAverages(), second) <==> o in single
  {
    if o in Map(WithAverages(), second) {
      var k :| 0 <= k < |second| && Map(WithAverages(), second)[k] == o;
      InSecond(rows, second, single, k);
    }
    if o in single {
      var m :| 0 <= m < |single| && single[m] == o;
      InSingle(rows, second, single, m);
    }
  }

  /** What the workers of the first pipeline aggregate. */
  function Shares(files: seq<seq<Row>>, n: nat): seq<seq<Row>>
    requires n > 0
  {
    WorkerRows(Shipped(), Projected(), files, n)
  }

  /** Each worker filters, projects and aggregates the rows of its files. */
  ghost predicate FirstPipeline(files: seq<seq<Row>>, n: nat, partials: seq<seq<OutputRow>>)
    requires n > 0
  {
    PartsGrouped(Shares(files, n), GROUPS, Partial(), partials)
  }

  ghost predicate SecondPipeline(partials: seq<seq<OutputRow>>, second: seq<OutputRow>) {
    IsRowGroupBy(Concat(Map(Flat(), partials)), [0, 1], Resums(Picks(), 2), second)
  }

  /** The groups have two columns and differ. */
  ghost predicate PairsOfGroups(rows: seq<OutputRow>) {
    && (forall i :: 0 <= i < |rows| ==> |rows[i].group| == 2)
    && (forall i, k :: 0 <= i < k < |rows| ==> rows[i].group != rows[k].group)
  }

  lemma SecondGroups(partials: seq<seq<OutputRow>>, second: seq<OutputRow>)
    requires SecondPipeline(partials, second)
    ensures PairsOfGroups(Map(WithAverages(), second))
  {
    GroupsHaveWidth(Concat(Map(Flat(), partials)), [0, 1], second);
  }

  lemma SingleAdditive()
    ensures AllAdditive(Single())
  {
    var s := Single();
    assert s[0].f.Sum? && s[1].f.Sum? && s[2].f.Sum? && s[3].Star? && s[4].f.Sum?;
    assert s[5].f.Avg? && s[6].f.Avg? && s[7].f.Avg?;
  }

  /** For all files and any number of workers, the generated plan computes the query. */
  lemma QueryOneCorrect(files: seq<seq<Row>>, n: nat, partials: seq<seq<OutputRow>>,
                        second: seq<OutputRow>, single: seq<OutputRow>)
    requires n > 0 && LineItems(Concat(files))
    requires FirstPipeline(files, n, partials) && SecondPipeline(partials, second)
    requires IsRowGroupBy(LineItemRows()(Concat(files)), GROUPS, Single(), single)
    ensures multiset(Map(WithAverages(), second)) == multiset(single)
  {
    var rows := Concat(Shares(files, n));
    SharesComplete(files, n);
    SingleAdditive();
    GroupByPermuted(LineItemRows()(Concat(files)), rows, GROUPS, Single(), single);
    StagesTotal(Shares(files, n), partials, second);
    StagesAgree(rows, second, single);
  }

  lemma SharesComplete(files: seq<seq<Row>>, n: nat)
    requires n > 0 && LineItems(Concat(files))
    ensures multiset(LineItemRows()(Concat(files))) == multiset(Concat(Shares(files, n)))
    ensures Complete(Concat(Shares(files, n)))
  {
    var read := Map(ConcatOf(), Assignment(files, n));
    WorkersReadEverything(files, n);
    WorkersPrepareEverything(Shipped(), Projected(), files, n);
    PreparedConcat(Shipped(), Projected(), read);
    CompletePermuted(Concat(files), Concat(read));
  }

  lemma SharesSmall(files: seq<seq<Row>>, n: nat)
    requires n > 0
    ensures |Concat(Shares(files, n))| <= |Concat(files)|
  {
    WorkersPrepareEverything(Shipped(), Projected(), files, n);
  }

  lemma CompletePermuted(rows: seq<Row>, others: seq<Row>)
    requires multiset(rows) == multiset(others) && LineItems(rows)
    ensures Complete(LineItemRows()(others))
  {
    forall row | row in others
      ensures |row| == 7 && Null !in row
    {
      PermutedMembers(rows, others, row);
    }
    PreparedComplete(others);
  }

  // ----- the sorted answer -----

  /** By return flag, then line status. */
  const BY_GROUP: seq<SortColumn> := [SortColumn(0, Ascending), SortColumn(1, Ascending)]

  lemma GroupIsKey(o: OutputRow)
    requires |o.group| == 2
    ensures KeyOf(BY_GROUP)(FlatRow(o)) == o.group
  {
    var key := KeyOf(BY_GROUP)(FlatRow(o));
    assert |key| == 2 && key[0] == o.group[0] && key[1] == o.group[1];
  }

  lemma GroupsTellRows(out: seq<OutputRow>)
    requires PairsOfGroups(out)
    ensures DistinctKeys(BY_GROUP, FlatRows(out))
  {
    var rows := FlatRows(out);
    forall i, k | 0 <= i < k < |rows|
      ensures KeyOf(BY_GROUP)(rows[i]) != KeyOf(BY_GROUP)(rows[k])
    {
      GroupIsKey(out[i]);
      GroupIsKey(out[k]);
    }
  }

  /** A table with the given rows, and what the sort operator makes of it. */
  ghost predicate SortedAnswer(rows: seq<OutputRow>, t: Table, ps: seq<RowId>) {
    ValidTable(t) && Rows(t) == FlatRows(rows) && IsSortOf(t, BY_GROUP, ps)
  }

  /** Sorted, the generated plan and the single-stage query give the same rows in the same order. */
  lemma QueryOneSorted(files: seq<seq<Row>>, n: nat, partials: seq<seq<OutputRow>>, second: seq<OutputRow>,
                       single: seq<OutputRow>, t: Table, u: Table, ps: seq<RowId>, qs: seq<RowId>)
    requires n > 0 && LineItems(Concat(files))
    requires FirstPipeline(files, n, partials) && SecondPipeline(partials, second)
    requires IsRowGroupBy(LineItemRows()(Concat(files)), GROUPS, Single(), single)
    requires SortedAnswer(Map(WithAverages(), second), t, ps) && SortedAnswer(single, u, qs)
    ensures Map(RowOf(t), ps) == Map(RowOf(u), qs)
  {
    QueryOneCorrect(files, n, partials, second, single);
    SecondGroups(partials, second);
    AnswersSorted(Map(WithAverages(), second), single, t, u, ps, qs);
  }

  lemma AnswersSorted(a: seq<OutputRow>, b: seq<OutputRow>, t: Table, u: Table, ps: seq<RowId>, qs: seq<RowId>)
    requires multiset(a) == multiset(b) && PairsOfGroups(a) && SortedAnswer(a, t, ps) && SortedAnswer(b, u, qs)
    ensures Map(RowOf(t), ps) == Map(RowOf(u), qs)
  {
    GroupsTellRows(a);
    MapPermuted((o: OutputRow) => FlatRow(o), a, b);
    SortedRowsUnique(t, u, BY_GROUP, ps, qs);
  }
}
