/** TPC-H query 3 with partitioned joins: customers with orders, those with line items; each worker of the last join
    groups and keeps its ten best groups. */
module QueryThree {
  import opened Sequences
  import opened Storage
  import opened Aggregates
  import opened AggregateOperator
  import opened Partitioning
  import opened SortOperator
  import opened RowGroups
  import opened Shuffle
  import opened TopRows
  import opened FileAssignment
  import QueryOne

  // ----- filters and projections -----

  /** "1995-03-15" */
  const DATE: Value := Text([49, 57, 57, 53, 45, 48, 51, 45, 49, 53])

  /** "BUILDING" */
  const SEGMENT: Value := Text([66, 85, 73, 76, 68, 73, 78, 71])

  /** Imported customers: customer key, market segment. */
  function InSegment(): Row -> bool {
    row => Component(row, 1) == Val(SEGMENT)
  }

  function CustomerKey(): Row -> Row {
    row => [Component(row, 0)]
  }

  /** Imported orders: order key, customer key, order date, ship priority. */
  function OrderedBefore(): Row -> bool {
    row => Component(row, 2).Val? && Less(Component(row, 2).v, DATE)
  }

  function Unchanged(): Row -> Row {
    row => row
  }

  /** Imported line items: order key, extended price, discount, ship date. */
  function ShippedAfter(): Row -> bool {
    row => Component(row, 3).Val? && Less(DATE, Component(row, 3).v)
  }

  function ItemColumns(): Row -> Row {
    row => [Component(row, 0), Component(row, 1), Component(row, 2)]
  }

  /** Joined row: customer key, order key, customer key, order date, ship priority. */
  function OrderColumns(): Row -> Row {
    row => [Component(row, 1), Component(row, 3), Component(row, 4)]
  }

  /** Joined row: order key, order date, ship priority, order key, extended price, discount. */
  function Priced(): Row -> Row {
    row => [Component(row, 0), Component(row, 1), Component(row, 2),
            QueryOne.Times(Component(row, 4), QueryOne.OneMinus(Component(row, 5)))]
  }

  const GROUPS: seq<nat> := [0, 1, 2]

  function Revenue(): seq<AggregateExpression> {
    [OfColumn(Sum, 3)]
  }

  /** Revenue descending, then order date. */
  const BY_REVENUE: seq<SortColumn> := [SortColumn(3, Descending), SortColumn(1, Ascending)]

  const LIMIT: nat := 10

  ghost predicate OfWidth(rows: seq<Row>, n: nat) {
    forall row :: row in rows ==> |row| == n
  }

  // ----- groups do not straddle workers -----

  lemma JoinedRow(ls: seq<Row>, rs: seq<Row>, row: Row) returns (l: Row)
    requires row in RowJoin(ls, rs, 0, 0) && OfWidth(ls, 3)
    ensures l in ls && Component(row, 0) == Component(l, 0)
  {
    ConcatMembers(Map(Matching(rs, 0, 0), ls), row);
    var s :| s in Map(Matching(rs, 0, 0), ls) && row in s;
    l := MapSource(Matching(rs, 0, 0), ls, s);
    var r := MapSource(Beside(l), Filter(KeyIs(0, Component(l, 0)), rs), row);
  }

  /** A worker only sees order keys of its partition. */
  lemma JoinedHere(combine: HashCombine, n: nat, i: nat, orders: seq<Row>, items: seq<Row>, joined: seq<Row>, row: Row)
    requires n > 0 && OfWidth(orders, 3)
    requires multiset(joined) == multiset(WorkerJoin(combine, n, orders, items, 0, 0)(i))
    requires row in Map(Priced(), joined)
    ensures CellHash(combine, Component(row, 0)) % n == i
  {
    var k :| 0 <= k < |joined| && Map(Priced(), joined)[k] == row;
    PermutedMembers(joined, WorkerJoin(combine, n, orders, items, 0, 0)(i), joined[k]);
    assert joined[k] in joined;
    var l := JoinedRow(Share(combine, 0, n, i, orders), Share(combine, 0, n, i, items), joined[k]);
    assert GoesTo(combine, 0, n, i)(l);
  }

  /** Worker i joins what the producers deliver of partition i. */
  ghost predicate JoinsShares(combine: HashCombine, n: nat, ls: seq<Row>, rs: seq<Row>, cl: nat, cr: nat,
                              joined: seq<seq<Row>>)
    requires n > 0
  {
    |joined| == n && forall i :: 0 <= i < n ==> JoinsShare(combine, n, ls, rs, cl, cr, joined, i)
  }

  ghost predicate JoinsShare(combine: HashCombine, n: nat, ls: seq<Row>, rs: seq<Row>, cl: nat, cr: nat,
                             joined: seq<seq<Row>>, i: nat)
    requires n > 0
  {
    i < |joined| && multiset(joined[i]) == multiset(WorkerJoin(combine, n, ls, rs, cl, cr)(i))
  }

  lemma GroupHere(combine: HashCombine, n: nat, i: nat, orders: seq<Row>, items: seq<Row>, joined: seq<Row>, group: Row)
    requires n > 0 && OfWidth(orders, 3)
    requires multiset(joined) == multiset(WorkerJoin(combine, n, orders, items, 0, 0)(i))
    requires HasGroup(Map(Priced(), joined), GROUPS, group)
    ensures |group| == 3 && CellHash(combine, group[0]) % n == i
  {
    var row :| row in Map(Priced(), joined) && GroupOf(GROUPS, row) == group;
    JoinedHere(combine, n, i, orders, items, joined, row);
    assert group[0] == Component(row, GROUPS[0]);
  }

  lemma WorkersApart(combine: HashCombine, n: nat, orders: seq<Row>, items: seq<Row>, joined: seq<seq<Row>>)
    requires n > 0 && OfWidth(orders, 3) && JoinsShares(combine, n, orders, items, 0, 0, joined)
    ensures GroupsApart(Map(Mapped(Priced()), joined), GROUPS)
  {
    var parts := Map(Mapped(Priced()), joined);
    forall i, j, group | 0 <= i < j < |parts|
      ensures !(HasGroup(parts[i], GROUPS, group) && HasGroup(parts[j], GROUPS, group))
    {
      assert JoinsShare(combine, n, orders, items, 0, 0, joined, i);
      assert JoinsShare(combine, n, orders, items, 0, 0, joined, j);
      if HasGroup(parts[i], GROUPS, group) {
        GroupHere(combine, n, i, orders, items, joined[i], group);
        if HasGroup(parts[j], GROUPS, group) {
          GroupHere(combine, n, j, orders, items, joined[j], group);
        }
      }
    }
  }

  // ----- the query -----

  lemma {:induction false} TogetherIsConcat(n: nat, f: nat -> seq<Row>, parts: seq<seq<Row>>)
    requires |parts| == n && forall i :: 0 <= i < n ==> multiset(parts[i]) == multiset(f(i))
    ensures Together(n, f) == multiset(Concat(parts))
  {
    if n > 0 {
      TogetherIsConcat(n - 1, f, parts[..n - 1]);
    }
  }

  /** What the workers join, projected, is the projection of the join of everything. */
  lemma WorkersProjectEverything(combine: HashCombine, n: nat, ls: seq<Row>, rs: seq<Row>, cl: nat, cr: nat,
                                 joined: seq<seq<Row>>, project: Row -> Row)
    requires n > 0 && JoinsShares(combine, n, ls, rs, cl, cr, joined)
    ensures multiset(Concat(Map(Mapped(project), joined))) == multiset(Map(project, RowJoin(ls, rs, cl, cr)))
  {
    forall i | 0 <= i < n
      ensures multiset(joined[i]) == multiset(WorkerJoin(combine, n, ls, rs, cl, cr)(i))
    {
      assert JoinsShare(combine, n, ls, rs, cl, cr, joined, i);
    }
    TogetherIsConcat(n, WorkerJoin(combine, n, ls, rs, cl, cr), joined);
    PartitionWiseJoin(combine, n, ls, rs, cl, cr);
    MapConcat(project, joined);
    MapPermuted(project, Concat(joined), RowJoin(ls, rs, cl, cr));
  }

  ghost predicate GroupShares(joined: seq<seq<Row>>, grouped: seq<seq<OutputRow>>) {
    PartsGrouped(Map(Mapped(Priced()), joined), GROUPS, Revenue(), grouped)
  }

  /** The workers' groups are groups of what they join together. */
  lemma WorkersGroup(combine: HashCombine, n: nat, orders: seq<Row>, items: seq<Row>, joined: seq<seq<Row>>,
                     grouped: seq<seq<OutputRow>>)
    requires n > 0 && OfWidth(orders, 3) && JoinsShares(combine, n, orders, items, 0, 0, joined)
    requires GroupShares(joined, grouped)
    ensures IsRowGroupBy(Concat(Map(Mapped(Priced()), joined)), GROUPS, Revenue(), Concat(grouped))
  {
    WorkersApart(combine, n, orders, items, joined);
    GroupByApart(Map(Mapped(Priced()), joined), GROUPS, Revenue(), grouped);
  }

  /** ... hence the groups of the global join, with the same revenue. */
  lemma WorkersGroupEverything(combine: HashCombine, n: nat, orders: seq<Row>, items: seq<Row>, joined: seq<seq<Row>>,
                               grouped: seq<seq<OutputRow>>, all: seq<OutputRow>)
    requires n > 0 && OfWidth(orders, 3) && JoinsShares(combine, n, orders, items, 0, 0, joined)
    requires GroupShares(joined, grouped)
    requires IsRowGroupBy(Map(Priced(), RowJoin(orders, items, 0, 0)), GROUPS, Revenue(), all)
    ensures multiset(Concat(grouped)) == multiset(all)
  {
    var parts, rows := Map(Mapped(Priced()), joined), Map(Priced(), RowJoin(orders, items, 0, 0));
    WorkersGroup(combine, n, orders, items, joined, grouped);
    WorkersProjectEverything(combine, n, orders, items, 0, 0, joined, Priced());
    GroupByPermuted(Concat(parts), rows, GROUPS, Revenue(), Concat(grouped));
    RowGroupByUnique(rows, GROUPS, Revenue(), Concat(grouped), all);
  }

  function Flatten(): OutputRow -> Row {
    (o: OutputRow) => FlatRow(o)
  }

  lemma FlattenedPermuted(grouped: seq<seq<OutputRow>>, all: seq<OutputRow>)
    requires multiset(Concat(grouped)) == multiset(all)
    ensures multiset(Concat(Map(Mapped(Flatten()), grouped))) == multiset(Map(Flatten(), all))
  {
    MapConcat(Flatten(), grouped);
    MapPermuted(Flatten(), Concat(grouped), all);
  }

  ghost predicate KeepTops(grouped: seq<seq<OutputRow>>, tops: seq<seq<Row>>) {
    |tops| == |grouped| &&
    forall i :: 0 <= i < |grouped| ==> IsTop(BY_REVENUE, LIMIT, Map(Flatten(), grouped[i]), tops[i])
  }

  lemma WorkersTop(grouped: seq<seq<OutputRow>>, tops: seq<seq<Row>>, top: seq<Row>)
    requires KeepTops(grouped, tops) && IsTop(BY_REVENUE, LIMIT, Concat(tops), top)
    ensures IsTop(BY_REVENUE, LIMIT, Concat(Map(Mapped(Flatten()), grouped)), top)
  {
    DistributedTop(BY_REVENUE, LIMIT, Map(Mapped(Flatten()), grouped), tops, top);
  }

  lemma TopOfGroups(grouped: seq<seq<OutputRow>>, all: seq<OutputRow>, tops: seq<seq<Row>>, top: seq<Row>)
    requires multiset(Concat(grouped)) == multiset(all)
    requires KeepTops(grouped, tops) && IsTop(BY_REVENUE, LIMIT, Concat(tops), top)
    ensures IsTop(BY_REVENUE, LIMIT, Map(Flatten(), all), top)
  {
    WorkersTop(grouped, tops, top);
    FlattenedPermuted(grouped, all);
    TopKeysPermuted(BY_REVENUE, LIMIT, Concat(Map(Mapped(Flatten()), grouped)), Map(Flatten(), all), top);
  }

  /** The ten best of the workers' ten best are the ten best groups of the global join. */
  lemma LastJoinCorrect(combine: HashCombine, n: nat, orders: seq<Row>, items: seq<Row>, joined: seq<seq<Row>>,
                          grouped: seq<seq<OutputRow>>, tops: seq<seq<Row>>, top: seq<Row>, all: seq<OutputRow>)
    requires n > 0 && OfWidth(orders, 3) && JoinsShares(combine, n, orders, items, 0, 0, joined)
    requires GroupShares(joined, grouped) && KeepTops(grouped, tops)
    requires IsTop(BY_REVENUE, LIMIT, Concat(tops), top)
    requires IsRowGroupBy(Map(Priced(), RowJoin(orders, items, 0, 0)), GROUPS, Revenue(), all)
    ensures IsTop(BY_REVENUE, LIMIT, Map(Flatten(), all), top)
  {
    WorkersGroupEverything(combine, n, orders, items, joined, grouped, all);
    TopOfGroups(grouped, all, tops, top);
  }

  // ----- from the files on -----

  /** What the orders that are left and the line items are joined to, priced. */
  function QueryRows(customers: seq<Row>, orders: seq<Row>, items: seq<Row>): seq<Row> {
    Map(Priced(), RowJoin(Map(OrderColumns(), RowJoin(customers, orders, 0, 1)), items, 0, 0))
  }

  /** The query's rows depend on the bags of rows only. */
  lemma QueryRowsPermuted(customers: seq<Row>, orders: seq<Row>, items: seq<Row>, left: seq<Row>,
                          customers': seq<Row>, orders': seq<Row>, items': seq<Row>)
    requires multiset(customers) == multiset(customers') && multiset(orders) == multiset(orders')
    requires multiset(items) == multiset(items')
    requires multiset(left) == multiset(Map(OrderColumns(), RowJoin(customers, orders, 0, 1)))
    ensures multiset(Map(Priced(), RowJoin(left, items, 0, 0))) == multiset(QueryRows(customers', orders', items'))
  {
    var all := RowJoin(customers', orders', 0, 1);
    RowJoinPermuted(customers, customers', orders, orders', 0, 1);
    MapPermuted(OrderColumns(), RowJoin(customers, orders, 0, 1), all);
    RowJoinPermuted(left, Map(OrderColumns(), all), items, items', 0, 0);
    MapPermuted(Priced(), RowJoin(left, items, 0, 0), RowJoin(Map(OrderColumns(), all), items', 0, 0));
  }

  /** The rows that the workers of pipelines 1 to 3 export. */
  datatype Exports = Exports(customers: seq<Row>, orders: seq<Row>, items: seq<Row>)

  /** Files of the three tables, read, filtered and projected by n workers each. */
  function ExportsOf(customers: seq<seq<Row>>, orders: seq<seq<Row>>, items: seq<seq<Row>>, n: nat): Exports
    requires n > 0
  {
    Exports(Concat(WorkerRows(InSegment(), CustomerKey(), customers, n)),
            Concat(WorkerRows(OrderedBefore(), Unchanged(), orders, n)),
            Concat(WorkerRows(ShippedAfter(), ItemColumns(), items, n)))
  }

  /** The same by one worker that reads everything. */
  function Everything(customers: seq<seq<Row>>, orders: seq<seq<Row>>, items: seq<seq<Row>>): Exports {
    Exports(Prepared(InSegment(), CustomerKey())(Concat(customers)),
            Prepared(OrderedBefore(), Unchanged())(Concat(orders)),
            Prepared(ShippedAfter(), ItemColumns())(Concat(items)))
  }

  ghost predicate SameExports(e: Exports, q: Exports) {
    && multiset(e.customers) == multiset(q.customers) && multiset(e.orders) == multiset(q.orders)
    && multiset(e.items) == multiset(q.items)
  }

  lemma WorkersExportEverything(customers: seq<seq<Row>>, orders: seq<seq<Row>>, items: seq<seq<Row>>, n: nat)
    requires n > 0
    ensures SameExports(ExportsOf(customers, orders, items, n), Everything(customers, orders, items))
  {
    WorkersPrepareEverything(InSegment(), CustomerKey(), customers, n);
    WorkersPrepareEverything(OrderedBefore(), Unchanged(), orders, n);
    WorkersPrepareEverything(ShippedAfter(), ItemColumns(), items, n);
  }

  function OrdersLeft(kept: seq<seq<Row>>): seq<Row> {
    Concat(Map(Mapped(OrderColumns()), kept))
  }

  lemma OrdersLeftWidth(kept: seq<seq<Row>>)
    ensures OfWidth(OrdersLeft(kept), 3)
  {
    forall row | row in OrdersLeft(kept)
      ensures |row| == 3
    {
      MapConcat(OrderColumns(), kept);
      var source := MapSource(OrderColumns(), Concat(kept), row);
    }
  }

  /** Pipelines 4 and 5: m workers join customers with orders, k workers what is left of the orders with line items. */
  ghost predicate BothJoined(e: Exports, combine: HashCombine, m: nat, kept: seq<seq<Row>>, k: nat,
                             joined: seq<seq<Row>>) {
    && m > 0 && k > 0
    && JoinsShares(combine, m, e.customers, e.orders, 0, 1, kept)
    && JoinsShares(combine, k, OrdersLeft(kept), e.items, 0, 0, joined)
  }

  /** What the last joins are given yields all rows of the query. */
  lemma BothJoins(e: Exports, q: Exports, combine: HashCombine, m: nat, kept: seq<seq<Row>>, k: nat,
                  joined: seq<seq<Row>>)
    requires SameExports(e, q) && BothJoined(e, combine, m, kept, k, joined)
    ensures multiset(Map(Priced(), RowJoin(OrdersLeft(kept), e.items, 0, 0))) ==
            multiset(QueryRows(q.customers, q.orders, q.items))
  {
    WorkersProjectEverything(combine, m, e.customers, e.orders, 0, 1, kept, OrderColumns());
    QueryRowsPermuted(e.customers, e.orders, e.items, OrdersLeft(kept), q.customers, q.orders, q.items);
  }

  lemma RevenueAdditive()
    ensures AllAdditive(Revenue())
  {}

  /** The groups of the query over everything. */
  ghost predicate IsQuery(q: Exports, all: seq<OutputRow>) {
    IsRowGroupBy(QueryRows(q.customers, q.orders, q.items), GROUPS, Revenue(), all)
  }

  lemma QueryOfJoined(e: Exports, q: Exports, combine: HashCombine, m: nat, kept: seq<seq<Row>>, k: nat,
                      joined: seq<seq<Row>>, all: seq<OutputRow>)
    requires SameExports(e, q) && BothJoined(e, combine, m, kept, k, joined) && IsQuery(q, all)
    ensures IsRowGroupBy(Map(Priced(), RowJoin(OrdersLeft(kept), e.items, 0, 0)), GROUPS, Revenue(), all)
  {
    BothJoins(e, q, combine, m, kept, k, joined);
    RevenueAdditive();
    GroupByPermuted(QueryRows(q.customers, q.orders, q.items), Map(Priced(), RowJoin(OrdersLeft(kept), e.items, 0, 0)),
                    GROUPS, Revenue(), all);
  }

  /** Six pipelines: for all files, any hash and any numbers of workers, the rows are ten best groups of the query. */
  lemma QueryThreeCorrect(customers: seq<seq<Row>>, orders: seq<seq<Row>>, items: seq<seq<Row>>, n: nat,
                          combine: HashCombine, m: nat, kept: seq<seq<Row>>, k: nat, joined: seq<seq<Row>>,
                          grouped: seq<seq<OutputRow>>, tops: seq<seq<Row>>, top: seq<Row>, all: seq<OutputRow>)
    requires n > 0 && BothJoined(ExportsOf(customers, orders, items, n), combine, m, kept, k, joined)
    requires GroupShares(joined, grouped) && KeepTops(grouped, tops) && IsTop(BY_REVENUE, LIMIT, Concat(tops), top)
    requires IsQuery(Everything(customers, orders, items), all)
    ensures IsTop(BY_REVENUE, LIMIT, Map(Flatten(), all), top)
  {
    var e, q := ExportsOf(customers, orders, items, n), Everything(customers, orders, items);
    WorkersExportEverything(customers, orders, items, n);
    QueryOfJoined(e, q, combine, m, kept, k, joined, all);
    OrdersLeftWidth(kept);
    LastJoinCorrect(combine, k, OrdersLeft(kept), e.items, joined, grouped, tops, top, all);
  }
}
