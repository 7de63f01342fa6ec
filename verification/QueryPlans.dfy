/** Queries 1 and 3 run by the operators, from the projected rows of the workers on. */
module QueryPlans {
  import opened Sequences
  import opened Storage
  import opened Aggregates
  import opened AggregateOperator
  import opened AggregateOutput
  import opened GroupKeys
  import opened RowGroups
  import opened TwoStages
  import opened Gather
  import opened Pipelines
  import opened TopRows
  import opened Shuffle
  import opened DistributedJoins
  import opened Partitioning
  import QueryOne
  import QueryThree
  import QueryOneAnswer
  import QueryThreeAnswer

  // ----- query 1 -----

  /** The projected line items: prices, quantities, discounts and charges are numbers. */
  predicate LineItemColumns(definitions: seq<ColumnDefinition>) {
    |definitions| == 7 && forall c :: 0 <= c < 7 && c != 4 && c != 5 ==> !definitions[c].dataType.StringType?
  }

  lemma PartialNumeric(definitions: seq<ColumnDefinition>)
    requires LineItemColumns(definitions)
    ensures NumericSums(definitions, QueryOne.Partial()) && Exist(definitions, QueryOne.GROUPS)
    ensures |QueryOne.Partial()| == 6
  {
    var a := QueryOne.Partial();
    assert NumericSum(definitions, a[0]) && NumericSum(definitions, a[1]) && NumericSum(definitions, a[2]);
    assert NumericSum(definitions, a[3]) && NumericSum(definitions, a[4]) && NumericSum(definitions, a[5]);
  }

  lemma ResumsNumeric(definitions: seq<ColumnDefinition>, picks: seq<nat>)
    requires |definitions| == 8 && forall k :: 2 <= k < 8 ==> !definitions[k].dataType.StringType?
    requires forall b :: 0 <= b < |picks| ==> picks[b] < 6
    ensures NumericSums(definitions, Resums(picks, 2)) && Exist(definitions, [0, 1])
  {
    forall b | 0 <= b < |picks|
      ensures NumericSum(definitions, Resums(picks, 2)[b])
    {
      assert Resums(picks, 2)[b] == OfColumn(Sum, 2 + picks[b]);
    }
  }

  lemma SharesSmall(workers: seq<Table>, parts: seq<seq<Row>>)
    requires Map(RowsIn(), workers) == parts && |Concat(parts)| <= MAX_ROWS
    ensures SmallEnough(workers)
  {
    forall k | 0 <= k < |workers|
      ensures RowCount(workers[k]) <= MAX_ROWS
    {
      assert parts[k] == Rows(workers[k]);
      PartWithin(parts, k);
    }
  }

  /** Two stages of aggregation: every worker's sums and counts, then the sums of all of them. */
  method RunStages(workers: seq<Table>, definitions: seq<ColumnDefinition>)
    returns (out: Table, ghost partials: seq<seq<OutputRow>>, ghost second: seq<OutputRow>)
    requires AllOf(workers, definitions) && LineItemColumns(definitions)
    requires |Concat(Map(RowsIn(), workers))| <= MAX_ROWS
    ensures PartsGrouped(Map(RowsIn(), workers), QueryOne.GROUPS, QueryOne.Partial(), partials)
    ensures QueryOne.SecondPipeline(partials, second)
    ensures ValidTable(out) && TypedTable(out) && Rows(out) == FlatRows(second)
  {
    SharesSmall(workers, Map(RowsIn(), workers));
    PartialNumeric(definitions);
    var outs;
    outs, partials := RunAggregates(workers, definitions, QueryOne.GROUPS, QueryOne.Partial());
    var between := SumDefinitions(definitions, QueryOne.GROUPS, QueryOne.Partial());
    ResumsNumeric(between, QueryOne.Picks());
    var all := Gathered(outs, between);
    GroupsAtMostAllRows(Map(RowsIn(), workers), QueryOne.GROUPS, QueryOne.Partial(), partials);
    out, second := RunAggregate(all, [0, 1], Resums(QueryOne.Picks(), 2));
  }

  /** Run by the operators on the workers' line items, query 1 gives the rows of the query over all files at once. */
  method RunQueryOne(workers: seq<Table>, definitions: seq<ColumnDefinition>, ghost files: seq<seq<Row>>, ghost n: nat,
                     ghost single: seq<OutputRow>)
    returns (out: Table, ghost second: seq<OutputRow>)
    requires n > 0 && QueryOne.LineItems(Concat(files)) && |Concat(files)| <= MAX_ROWS
    requires AllOf(workers, definitions) && LineItemColumns(definitions)
    requires Map(RowsIn(), workers) == QueryOne.Shares(files, n)
    requires IsRowGroupBy(QueryOne.LineItemRows()(Concat(files)), QueryOne.GROUPS, QueryOne.Single(), single)
    ensures ValidTable(out) && Rows(out) == FlatRows(second)
    ensures multiset(Map(QueryOne.WithAverages(), second)) == multiset(single)
  {
    QueryOne.SharesSmall(files, n);
    ghost var partials;
    out, partials, second := RunStages(workers, definitions);
    QueryOne.QueryOneCorrect(files, n, partials, second, single);
  }

  /** Run by the operators on line items with plain numbers, query 1 gives the answer in real arithmetic. */
  method RunQueryOneInReals(workers: seq<Table>, definitions: seq<ColumnDefinition>,
                            ghost files: seq<seq<QueryOneAnswer.LineItem>>, ghost n: nat)
    returns (out: Table, ghost second: seq<OutputRow>)
    requires n > 0 && |Concat(Map(RowsIn(), workers))| <= MAX_ROWS
    requires AllOf(workers, definitions) && LineItemColumns(definitions)
    requires Map(RowsIn(), workers) == QueryOne.Shares(QueryOneAnswer.RowFiles(files), n)
    ensures ValidTable(out) && Rows(out) == FlatRows(second)
    ensures QueryOneAnswer.AnswersOf(Filter(QueryOneAnswer.ShippedInTime(), Concat(files)),
                                     Map(QueryOne.WithAverages(), second))
  {
    ghost var partials;
    out, partials, second := RunStages(workers, definitions);
    QueryOneAnswer.QueryOneInReals(files, n, partials, second);
  }

  // ----- query 3 -----

  /** Order key, order date, ship priority, revenue. */
  predicate PricedColumns(definitions: seq<ColumnDefinition>) {
    |definitions| == 4 && !definitions[3].dataType.StringType?
  }

  lemma RevenueNumeric(definitions: seq<ColumnDefinition>)
    requires PricedColumns(definitions)
    ensures NumericSums(definitions, QueryThree.Revenue()) && Exist(definitions, QueryThree.GROUPS)
    ensures |SumDefinitions(definitions, QueryThree.GROUPS, QueryThree.Revenue())| == 4
  {
    assert NumericSum(definitions, QueryThree.Revenue()[0]);
  }

  ghost predicate Clean(ts: seq<Table>) {
    forall k :: 0 <= k < |ts| ==> NoNulls(Rows(ts[k]))
  }

  lemma CleanCell(t: Table, p: RowId, c: nat)
    requires NoNulls(Rows(t)) && InRange(p, ChunkSizes(t)) && c < |t.definitions|
    ensures CellAt(t, p, c) != Null
  {
    var ps := Positions(ChunkSizes(t));
    var m :| 0 <= m < |ps| && ps[m] == p;
    assert Rows(t)[m] == RowAt(t, p) && Rows(t)[m] in Rows(t);
    assert RowAt(t, p)[c] in RowAt(t, p);
  }

  lemma CleanTable(t: Table)
    requires ValidTable(t) && NoNulls(Rows(t))
    ensures !HasNull(t)
  {
    forall i, c | 0 <= i < |t.chunks| && 0 <= c < |t.chunks[i]|
      ensures Null !in t.chunks[i][c]
    {
      forall k | 0 <= k < |t.chunks[i][c]|
        ensures t.chunks[i][c][k] != Null
      {
        CleanCell(t, RowId(i, k), c);
      }
    }
  }

  lemma ValuesHeld(rows: seq<Row>, row: Row, a: AggregateExpression, group: Row)
    requires row in rows && Contributes(QueryThree.GROUPS, a, group)(row)
    ensures RowValues(rows, QueryThree.GROUPS, a, group) != []
  {
    assert row in Filter(Contributes(QueryThree.GROUPS, a, group), rows);
  }

  lemma SumHeld(vs: seq<Value>, cell: Cell)
    requires vs != [] && IsAggregate(Sum, vs, cell)
    ensures cell.Val?
  {}

  lemma FourCells(o: OutputRow)
    requires |o.group| == 3 && |o.cells| == 1 && o.group[0] != Null && o.group[1] != Null && o.group[2] != Null
    requires o.cells[0] != Null
    ensures Null !in FlatRow(o)
  {
    assert FlatRow(o) == [o.group[0], o.group[1], o.group[2], o.cells[0]];
  }

  lemma CleanRow(row: Row)
    requires |row| == 4 && Null !in row
    ensures GroupOf(QueryThree.GROUPS, row) == [row[0], row[1], row[2]]
    ensures row[0] != Null && row[1] != Null && row[2] != Null && Component(row, 3).Val?
  {
    assert row[0] in row && row[1] in row && row[2] in row && row[3] in row;
  }

  /** A group of rows without NULL has a revenue. */
  lemma RevenueHeld(rows: seq<Row>, o: OutputRow)
    requires NoNulls(rows) && (forall row :: row in rows ==> |row| == 4)
    requires HasGroup(rows, QueryThree.GROUPS, o.group) &&
             RowCellsExact(rows, QueryThree.GROUPS, QueryThree.Revenue(), o)
    ensures Null !in FlatRow(o)
  {
    var a := QueryThree.Revenue()[0];
    var row :| row in rows && GroupOf(QueryThree.GROUPS, row) == o.group;
    CleanRow(row);
    ValuesHeld(rows, row, a, o.group);
    SumHeld(RowValues(rows, QueryThree.GROUPS, a, o.group), o.cells[0]);
    FourCells(o);
  }

  lemma RevenuesHeld(rows: seq<Row>, out: seq<OutputRow>)
    requires NoNulls(rows) && (forall row :: row in rows ==> |row| == 4)
    requires IsRowGroupBy(rows, QueryThree.GROUPS, QueryThree.Revenue(), out)
    ensures NoNulls(FlatRows(out))
  {
    forall row | row in FlatRows(out)
      ensures Null !in row
    {
      var k :| 0 <= k < |out| && FlatRows(out)[k] == row;
      assert Listed(out, out[k].group);
      RevenueHeld(rows, out[k]);
    }
  }

  lemma TopRowsFit(t: Table, top: Table)
    requires TypedTable(t) && NoNulls(Rows(t)) && top.definitions == t.definitions
    requires multiset(Rows(top)) <= multiset(Rows(t))
    ensures TypedTable(top) && NoNulls(Rows(top))
  {
    forall row | row in Rows(top)
      ensures row in Rows(t)
    {
      assert row in multiset(Rows(top));
    }
  }

  /** Sort and limit of one worker. */
  method RunTop(t: Table) returns (top: Table)
    requires ValidTable(t) && TypedTable(t) && NoNulls(Rows(t)) && |t.definitions| == 4
    ensures ValidTable(top) && TypedTable(top) && NoNulls(Rows(top)) && top.definitions == t.definitions
    ensures IsTop(QueryThree.BY_REVENUE, QueryThree.LIMIT, Rows(t), Rows(top))
  {
    CleanTable(t);
    var r := SortLimit(t, QueryThree.BY_REVENUE, QueryThree.LIMIT);
    top := r.value;
    TopRowsFit(t, top);
  }

  ghost predicate TopOfTable(ts: seq<Table>, tops: seq<Table>, k: nat) {
    k < |ts| && k < |tops| && IsTop(QueryThree.BY_REVENUE, QueryThree.LIMIT, Rows(ts[k]), Rows(tops[k]))
  }

  ghost predicate TopsOf(ts: seq<Table>, tops: seq<Table>) {
    forall k :: 0 <= k < |tops| ==> TopOfTable(ts, tops, k)
  }

  lemma OneMoreTop(ts: seq<Table>, tops: seq<Table>, top: Table)
    requires TopsOf(ts, tops) && |tops| < |ts|
    requires IsTop(QueryThree.BY_REVENUE, QueryThree.LIMIT, Rows(ts[|tops|]), Rows(top))
    ensures TopsOf(ts, tops + [top])
  {
    forall k | 0 <= k < |tops + [top]|
      ensures TopOfTable(ts, tops + [top], k)
    {
      assert k < |tops| ==> TopOfTable(ts, tops, k);
    }
  }

  method RunTops(ts: seq<Table>, ghost definitions: seq<ColumnDefinition>) returns (tops: seq<Table>)
    requires AllOf(ts, definitions) && Clean(ts) && |definitions| == 4
    ensures AllOf(tops, definitions) && Clean(tops) && |tops| == |ts| && TopsOf(ts, tops)
  {
    tops := [];
    for k := 0 to |ts|
      invariant |tops| == k && AllOf(tops, definitions) && Clean(tops) && TopsOf(ts, tops)
    {
      var top := RunTop(ts[k]);
      OneMoreTop(ts, tops, top);
      tops := tops + [top];
    }
  }

  lemma {:induction false} ConcatClean(ts: seq<Table>)
    requires Clean(ts)
    ensures NoNulls(Concat(Map(RowsIn(), ts)))
  {
    if ts != [] {
      ConcatClean(ts[..|ts| - 1]);
      NextRows(ts, |ts| - 1);
      TakeAll(ts);
    }
  }

  lemma RevenuesClean(ts: seq<Table>, outs: seq<Table>, grouped: seq<seq<OutputRow>>)
    requires Clean(ts) && (forall k :: 0 <= k < |ts| ==> |ts[k].definitions| == 4)
    requires PartsGrouped(Map(RowsIn(), ts), QueryThree.GROUPS, QueryThree.Revenue(), grouped)
    requires Map(RowsIn(), outs) == Map(Flat(), grouped)
    ensures Clean(outs)
  {
    forall k | 0 <= k < |outs|
      ensures NoNulls(Rows(outs[k]))
    {
      assert Map(RowsIn(), outs)[k] == FlatRows(grouped[k]);
      assert PartGrouped(Map(RowsIn(), ts), QueryThree.GROUPS, QueryThree.Revenue(), grouped, k);
      RowWidths(ts[k]);
      RevenuesHeld(Rows(ts[k]), grouped[k]);
    }
  }

  lemma RowWidths(t: Table)
    ensures forall row :: row in Rows(t) ==> |row| == |t.definitions|
  {}

  lemma TopsKept(outs: seq<Table>, tops: seq<Table>, grouped: seq<seq<OutputRow>>)
    requires Map(RowsIn(), outs) == Map(Flat(), grouped) && TopsOf(outs, tops) && |tops| == |outs|
    ensures QueryThree.KeepTops(grouped, Map(RowsIn(), tops))
  {
    forall i | 0 <= i < |grouped|
      ensures IsTop(QueryThree.BY_REVENUE, QueryThree.LIMIT, Map(QueryThree.Flatten(), grouped[i]),
                    Map(RowsIn(), tops)[i])
    {
      assert TopOfTable(outs, tops, i);
      assert Map(RowsIn(), outs)[i] == FlatRows(grouped[i]) == Map(QueryThree.Flatten(), grouped[i]);
    }
  }

  /** Pipelines 5 and 6 after the projection: every worker groups, sorts and limits; then all that they kept is sorted
      and limited once more. */
  method RunLastPipelines(workers: seq<Table>, definitions: seq<ColumnDefinition>, ghost joined: seq<seq<Row>>)
    returns (out: Table, ghost grouped: seq<seq<OutputRow>>, ghost tops: seq<seq<Row>>)
    requires AllOf(workers, definitions) && PricedColumns(definitions) && SmallEnough(workers) && Clean(workers)
    requires Map(RowsIn(), workers) == Map(Mapped(QueryThree.Priced()), joined)
    ensures QueryThree.GroupShares(joined, grouped) && QueryThree.KeepTops(grouped, tops)
    ensures ValidTable(out) && IsTop(QueryThree.BY_REVENUE, QueryThree.LIMIT, Concat(tops), Rows(out))
  {
    RevenueNumeric(definitions);
    var outs;
    outs, grouped := RunAggregates(workers, definitions, QueryThree.GROUPS, QueryThree.Revenue());
    RevenuesClean(workers, outs, grouped);
    var between := SumDefinitions(definitions, QueryThree.GROUPS, QueryThree.Revenue());
    var kept := RunTops(outs, between);
    TopsKept(outs, kept, grouped);
    tops := Map(RowsIn(), kept);
    var all := Gathered(kept, between);
    ConcatClean(kept);
    out := RunTop(all);
  }

  /** Run by the operators on the priced rows of the last join, query 3 ends with ten best groups of the query over all
      files at once. */
  method RunQueryThree(workers: seq<Table>, definitions: seq<ColumnDefinition>, ghost customers: seq<seq<Row>>,
                       ghost orders: seq<seq<Row>>, ghost items: seq<seq<Row>>, ghost n: nat,
                       ghost combine: HashCombine, ghost m: nat, ghost kept: seq<seq<Row>>, ghost k: nat,
                       ghost joined: seq<seq<Row>>, ghost all: seq<OutputRow>)
    returns (out: Table)
    requires AllOf(workers, definitions) && PricedColumns(definitions) && SmallEnough(workers) && Clean(workers)
    requires Map(RowsIn(), workers) == Map(Mapped(QueryThree.Priced()), joined)
    requires n > 0 && QueryThree.BothJoined(QueryThree.ExportsOf(customers, orders, items, n), combine, m, kept, k,
                                            joined)
    requires QueryThree.IsQuery(QueryThree.Everything(customers, orders, items), all)
    ensures ValidTable(out) && IsTop(QueryThree.BY_REVENUE, QueryThree.LIMIT, Map(QueryThree.Flatten(), all), Rows(out))
  {
    ghost var grouped, tops;
    out, grouped, tops := RunLastPipelines(workers, definitions, joined);
    QueryThree.QueryThreeCorrect(customers, orders, items, n, combine, m, kept, k, joined, grouped, tops, Rows(out),
                                 all);
  }

  /** Run by the operators on the priced rows of the last join, query 3 ends with ten orders of the most revenue,
      computed in real arithmetic. */
  method RunQueryThreeInReals(workers: seq<Table>, definitions: seq<ColumnDefinition>,
                              ghost files: QueryThreeAnswer.Files, ghost n: nat, ghost combine: HashCombine,
                              ghost m: nat, ghost kept: seq<seq<Row>>, ghost k: nat, ghost joined: seq<seq<Row>>)
    returns (out: Table, ghost all: seq<OutputRow>)
    requires AllOf(workers, definitions) && PricedColumns(definitions) && SmallEnough(workers) && Clean(workers)
    requires Map(RowsIn(), workers) == Map(Mapped(QueryThree.Priced()), joined)
    requires n > 0 && QueryThree.BothJoined(QueryThreeAnswer.ExportsFrom(files, n), combine, m, kept, k, joined)
    ensures ValidTable(out) && QueryThreeAnswer.RevenuesOfOrders(QueryThreeAnswer.AllSales(files), all)
    ensures QueryThreeAnswer.TopTen(Map(QueryThree.Flatten(), all), Rows(out))
  {
    ghost var grouped, tops;
    out, grouped, tops := RunLastPipelines(workers, definitions, joined);
    all := Concat(grouped);
    QueryThreeAnswer.QueryThreeInReals(files, n, combine, m, kept, k, joined, grouped, tops, Rows(out));
  }

  // ----- the joins of query 3 -----

  lemma {:induction false} CleanRows(ts: seq<Table>)
    requires Clean(ts)
    ensures AllRows(ts) == Concat(Map(RowsIn(), ts))
  {
    if ts != [] {
      CleanRows(ts[..|ts| - 1]);
      StoredAlready(ts[|ts| - 1]);
      NextRows(ts, |ts| - 1);
      TakeAll(ts);
    }
  }

  /** A distributed join run by the operators on tables without NULL gives each worker what query 3 expects of it. */
  lemma RunIsJoin(lefts: seq<Table>, rights: seq<Table>, combine: HashCombine, cl: nat, cr: nat, n: nat,
                  outs: seq<Table>)
    requires n > 0 && |outs| == n && Clean(lefts) && Clean(rights)
    requires JoinedShares(combine, n, AllRows(lefts), AllRows(rights), cl, cr, outs)
    ensures QueryThree.JoinsShares(combine, n, Concat(Map(RowsIn(), lefts)), Concat(Map(RowsIn(), rights)), cl, cr,
                                   Map(RowsIn(), outs))
  {
    CleanRows(lefts);
    CleanRows(rights);
    forall i | 0 <= i < n
      ensures QueryThree.JoinsShare(combine, n, AllRows(lefts), AllRows(rights), cl, cr, Map(RowsIn(), outs), i)
    {
      assert JoinedShare(combine, n, AllRows(lefts), AllRows(rights), cl, cr, i, outs[i]);
    }
  }
}
