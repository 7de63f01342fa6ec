/** What query 3 computes, on customers, orders and line items with plain numbers. */
module QueryThreeAnswer {
  import opened Sequences
  import opened Storage
  import opened Aggregates
  import opened AggregateOperator
  import opened RowGroups
  import opened FileAssignment
  import opened SortOperator
  import opened Shuffle
  import opened TopRows
  import opened Partitioning
  import opened Ordering
  import opened Arithmetic
  import opened QueryOneAnswer
  import opened QueryThree
  import QueryOne

  datatype Customer = Customer(key: int, segment: seq<Byte>)

  datatype Order = Order(key: int, customer: int, date: seq<Byte>, priority: int)

  datatype Sold = Sold(order: int, price: real, discount: real, shipped: seq<Byte>)

  // ----- imported rows -----

  function CustomerRow(): Customer -> Row {
    (c: Customer) => [Val(Int(c.key)), Val(Text(c.segment))]
  }

  function OrderRow(): Order -> Row {
    (o: Order) => [Val(Int(o.key)), Val(Int(o.customer)), Val(Text(o.date)), Val(Int(o.priority))]
  }

  function SoldRow(): Sold -> Row {
    (s: Sold) => [Val(Int(s.order)), Val(Dec(s.price)), Val(Dec(s.discount)), Val(Text(s.shipped))]
  }

  // ----- the query -----

  function Building(): Customer -> bool {
    (c: Customer) => c.segment == Ascii("BUILDING")
  }

  ghost function Early(): Order -> bool {
    (o: Order) => TextBefore(o.date, Ascii("1995-03-15"))
  }

  ghost function Late(): Sold -> bool {
    (s: Sold) => TextBefore(Ascii("1995-03-15"), s.shipped)
  }

  function OfCustomer(c: Customer): Order -> bool {
    (o: Order) => c.key == o.customer
  }

  function OfOrder(o: Order): Sold -> bool {
    (s: Sold) => o.key == s.order
  }

  /** The orders of every customer. */
  function OrdersOf(customers: seq<Customer>, orders: seq<Order>): seq<Order> {
    if customers == [] then []
    else OrdersOf(customers[..|customers| - 1], orders) + Filter(OfCustomer(customers[|customers| - 1]), orders)
  }

  /** An order with one of its line items. */
  datatype Sale = Sale(order: Order, sold: Sold)

  function SaleOf(o: Order): Sold -> Sale {
    (s: Sold) => Sale(o, s)
  }

  function SalesOf(orders: seq<Order>, solds: seq<Sold>): seq<Sale> {
    if orders == [] then []
    else
      var o := orders[|orders| - 1];
      SalesOf(orders[..|orders| - 1], solds) + Map(SaleOf(o), Filter(OfOrder(o), solds))
  }

  /** Early orders of customers of the segment, with their late line items. */
  ghost function Sales(customers: seq<Customer>, orders: seq<Order>, solds: seq<Sold>): seq<Sale> {
    SalesOf(OrdersOf(Filter(Building(), customers), Filter(Early(), orders)), Filter(Late(), solds))
  }

  function Revenue(): Sale -> real {
    (s: Sale) => s.sold.price * (1.0 - s.sold.discount)
  }

  function InSaleGroup(key: int, date: seq<Byte>, priority: int): Sale -> bool {
    (s: Sale) => s.order.key == key && s.order.date == date && s.order.priority == priority
  }

  function GroupSales(sales: seq<Sale>, key: int, date: seq<Byte>, priority: int): seq<Sale> {
    Filter(InSaleGroup(key, date, priority), sales)
  }

  // ----- literals -----

  lemma LiteralsExact()
    ensures SEGMENT == Text(Ascii("BUILDING")) && DATE == Text(Ascii("1995-03-15"))
  {
    var s, d := Ascii("BUILDING"), Ascii("1995-03-15");
    assert s[0] == 66 && s[1] == 85 && s[2] == 73 && s[3] == 76 && s[4] == 68 && s[5] == 73 && s[6] == 78 && s[7] == 71;
    assert SEGMENT.bytes == [66, 85, 73, 76, 68, 73, 78, 71];
    assert s == SEGMENT.bytes;
    assert d[0] == 49 && d[1] == 57 && d[2] == 57 && d[3] == 53 && d[4] == 45;
    assert d[5] == 48 && d[6] == 51 && d[7] == 45 && d[8] == 49 && d[9] == 53;
    assert DATE.bytes == [49, 57, 57, 53, 45, 48, 51, 45, 49, 53];
    assert d == DATE.bytes;
  }

  // ----- filters and projections -----

  function KeyRow(): Customer -> Row {
    (c: Customer) => [Val(Int(c.key))]
  }

  function LeftRow(): Order -> Row {
    (o: Order) => [Val(Int(o.key)), Val(Text(o.date)), Val(Int(o.priority))]
  }

  function LineRow(): Sold -> Row {
    (s: Sold) => [Val(Int(s.order)), Val(Dec(s.price)), Val(Dec(s.discount))]
  }

  lemma CustomersKept(customers: seq<Customer>)
    ensures Prepared(InSegment(), CustomerKey())(Map(CustomerRow(), customers)) ==
            Map(KeyRow(), Filter(Building(), customers))
  {
    LiteralsExact();
    forall c | c in customers
      ensures Building()(c) == InSegment()(CustomerRow()(c))
    {}
    FilterMapped(CustomerRow(), Building(), InSegment(), customers);
    MapTwice(CustomerRow(), CustomerKey(), KeyRow(), Filter(Building(), customers));
  }

  lemma MapTwice<T(!new)>(f: T -> Row, g: Row -> Row, h: T -> Row, s: seq<T>)
    requires forall x :: g(f(x)) == h(x)
    ensures Map(g, Map(f, s)) == Map(h, s)
  {}

  lemma OrderKept(o: Order)
    ensures Early()(o) == OrderedBefore()(OrderRow()(o))
  {
    LiteralsExact();
    LessExact(Text(o.date), DATE);
  }

  lemma OrdersKept(orders: seq<Order>)
    ensures Prepared(OrderedBefore(), Unchanged())(Map(OrderRow(), orders)) == Map(OrderRow(), Filter(Early(), orders))
  {
    forall o | o in orders
      ensures Early()(o) == OrderedBefore()(OrderRow()(o))
    {
      OrderKept(o);
    }
    FilterMapped(OrderRow(), Early(), OrderedBefore(), orders);
    MapTwice(OrderRow(), Unchanged(), OrderRow(), Filter(Early(), orders));
  }

  lemma SoldKept(s: Sold)
    ensures Late()(s) == ShippedAfter()(SoldRow()(s))
  {
    LiteralsExact();
    LessExact(DATE, Text(s.shipped));
  }

  lemma SoldsKept(solds: seq<Sold>)
    ensures Prepared(ShippedAfter(), ItemColumns())(Map(SoldRow(), solds)) == Map(LineRow(), Filter(Late(), solds))
  {
    forall s | s in solds
      ensures Late()(s) == ShippedAfter()(SoldRow()(s))
    {
      SoldKept(s);
    }
    FilterMapped(SoldRow(), Late(), ShippedAfter(), solds);
    MapTwice(SoldRow(), ItemColumns(), LineRow(), Filter(Late(), solds));
  }

  // ----- the joins -----

  function JoinedOrder(c: Customer): Order -> Row {
    (o: Order) => KeyRow()(c) + OrderRow()(o)
  }

  lemma OrderProjected(c: Customer, o: Order)
    ensures OrderColumns()(KeyRow()(c) + OrderRow()(o)) == LeftRow()(o)
  {}

  lemma OrdersOfCustomer(c: Customer, orders: seq<Order>)
    ensures Map(OrderColumns(), JoinOne(KeyRow()(c), Map(OrderRow(), orders), 0, 1)) ==
            Map(LeftRow(), Filter(OfCustomer(c), orders))
  {
    var key := KeyIs(1, Component(KeyRow()(c), 0));
    forall o | o in orders
      ensures OfCustomer(c)(o) == key(OrderRow()(o))
    {}
    FilterMapped(OrderRow(), OfCustomer(c), key, orders);
    var mine := Filter(OfCustomer(c), orders);
    forall k | 0 <= k < |mine|
      ensures OrderColumns()(Beside(KeyRow()(c))(OrderRow()(mine[k]))) == LeftRow()(mine[k])
    {
      OrderProjected(c, mine[k]);
    }
  }

  /** Joining customers with orders and projecting leaves the orders of the customers. */
  lemma {:induction false} OrdersJoined(customers: seq<Customer>, orders: seq<Order>)
    ensures Map(OrderColumns(), RowJoin(Map(KeyRow(), customers), Map(OrderRow(), orders), 0, 1)) ==
            Map(LeftRow(), OrdersOf(customers, orders))
  {
    var rs := Map(OrderRow(), orders);
    if customers == [] {
      assert Map(KeyRow(), customers) == [];
    } else {
      var front, c := customers[..|customers| - 1], customers[|customers| - 1];
      OrdersJoined(front, orders);
      MapLast(KeyRow(), customers);
      RowJoinSnoc(Map(KeyRow(), front), KeyRow()(c), rs, 0, 1);
      MapAppend(OrderColumns(), RowJoin(Map(KeyRow(), front), rs, 0, 1), JoinOne(KeyRow()(c), rs, 0, 1));
      OrdersOfCustomer(c, orders);
      MapAppend(LeftRow(), OrdersOf(front, orders), Filter(OfCustomer(c), orders));
    }
  }

  /** Order key, order date, ship priority, revenue. */
  function SaleRow(): Sale -> Row {
    (s: Sale) => [Val(Int(s.order.key)), Val(Text(s.order.date)), Val(Int(s.order.priority)), Val(Dec(Revenue()(s)))]
  }

  /** The projection computes the revenue of a line item. */
  lemma PricedExact(o: Order, s: Sold)
    ensures Priced()(LeftRow()(o) + LineRow()(s)) == SaleRow()(Sale(o, s))
  {
    var l, r, sale := LeftRow()(o), LineRow()(s), Sale(o, s);
    var row := l + r;
    SaleRowCells(sale);
    assert row[0] == l[0] && row[1] == l[1] && row[2] == l[2] && row[4] == r[1] && row[5] == r[2];
    DiscountComputed(row[4], row[5], s.price, s.discount, Revenue()(sale));
    PricedCells(row, SaleRow()(sale));
  }

  lemma PricedCells(row: Row, priced: Row)
    requires |row| == 6 && |priced| == 4
    requires row[0] == priced[0] && row[1] == priced[1] && row[2] == priced[2]
    requires QueryOne.Times(row[4], QueryOne.OneMinus(row[5])) == priced[3]
    ensures Priced()(row) == priced
  {
    var got := Priced()(row);
    assert got[0] == row[0] && got[1] == row[1] && got[2] == row[2];
    assert Component(row, 4) == row[4] && Component(row, 5) == row[5];
    assert got[3] == priced[3];
    FourEqual(got, priced);
  }

  lemma FourEqual(a: Row, b: Row)
    requires |a| == |b| == 4 && a[0] == b[0] && a[1] == b[1] && a[2] == b[2] && a[3] == b[3]
    ensures a == b
  {}

  lemma SalesOfOrder(o: Order, solds: seq<Sold>)
    ensures Map(Priced(), JoinOne(LeftRow()(o), Map(LineRow(), solds), 0, 0)) ==
            Map(SaleRow(), Map(SaleOf(o), Filter(OfOrder(o), solds)))
  {
    var key := KeyIs(0, Component(LeftRow()(o), 0));
    forall s | s in solds
      ensures OfOrder(o)(s) == key(LineRow()(s))
    {}
    FilterMapped(LineRow(), OfOrder(o), key, solds);
    var mine := Filter(OfOrder(o), solds);
    forall k | 0 <= k < |mine|
      ensures Priced()(Beside(LeftRow()(o))(LineRow()(mine[k]))) == SaleRow()(SaleOf(o)(mine[k]))
    {
      PricedExact(o, mine[k]);
    }
  }

  lemma {:induction false} SalesJoined(orders: seq<Order>, solds: seq<Sold>)
    ensures Map(Priced(), RowJoin(Map(LeftRow(), orders), Map(LineRow(), solds), 0, 0)) ==
            Map(SaleRow(), SalesOf(orders, solds))
  {
    var rs := Map(LineRow(), solds);
    if orders == [] {
      assert Map(LeftRow(), orders) == [];
    } else {
      var front, o := orders[..|orders| - 1], orders[|orders| - 1];
      SalesJoined(front, solds);
      MapLast(LeftRow(), orders);
      RowJoinSnoc(Map(LeftRow(), front), LeftRow()(o), rs, 0, 0);
      MapAppend(Priced(), RowJoin(Map(LeftRow(), front), rs, 0, 0), JoinOne(LeftRow()(o), rs, 0, 0));
      SalesOfOrder(o, solds);
      MapAppend(SaleRow(), SalesOf(front, solds), Map(SaleOf(o), Filter(OfOrder(o), solds)));
    }
  }

  /** The rows that the query groups are the sales. */
  lemma QueryRowsExact(customers: seq<Customer>, orders: seq<Order>, solds: seq<Sold>)
    ensures QueryRows(Prepared(InSegment(), CustomerKey())(Map(CustomerRow(), customers)),
                      Prepared(OrderedBefore(), Unchanged())(Map(OrderRow(), orders)),
                      Prepared(ShippedAfter(), ItemColumns())(Map(SoldRow(), solds))) ==
            Map(SaleRow(), Sales(customers, orders, solds))
  {
    CustomersKept(customers);
    OrdersKept(orders);
    SoldsKept(solds);
    OrdersJoined(Filter(Building(), customers), Filter(Early(), orders));
    SalesJoined(OrdersOf(Filter(Building(), customers), Filter(Early(), orders)), Filter(Late(), solds));
  }

  // ----- the groups -----

  function SaleCells(key: int, date: seq<Byte>, priority: int): (r: Row)
    ensures |r| == 3 && r[0] == Val(Int(key)) && r[1] == Val(Text(date)) && r[2] == Val(Int(priority))
  {
    [Val(Int(key)), Val(Text(date)), Val(Int(priority))]
  }

  lemma SaleRowCells(s: Sale)
    ensures var row := SaleRow()(s);
            && |row| == 4 && row[0] == Val(Int(s.order.key)) && row[1] == Val(Text(s.order.date))
            && row[2] == Val(Int(s.order.priority)) && row[3] == Val(Dec(Revenue()(s)))
  {}

  lemma SaleHasGroup(s: Sale)
    ensures GroupOf(QueryThree.GROUPS, SaleRow()(s)) == SaleCells(s.order.key, s.order.date, s.order.priority)
  {
    SaleRowCells(s);
    var g, row := GroupOf(QueryThree.GROUPS, SaleRow()(s)), SaleRow()(s);
    assert g[0] == Component(row, 0) && g[1] == Component(row, 1) && g[2] == Component(row, 2);
  }

  lemma SameSaleCells(key: int, date: seq<Byte>, priority: int, k: int, d: seq<Byte>, p: int)
    ensures SaleCells(key, date, priority) == SaleCells(k, d, p) <==> key == k && date == d && priority == p
  {}

  lemma SaleValues(sales: seq<Sale>, key: int, date: seq<Byte>, priority: int)
    ensures RowValues(Map(SaleRow(), sales), QueryThree.GROUPS, OfColumn(Sum, 3), SaleCells(key, date, priority)) ==
            Decs(Map(Revenue(), GroupSales(sales, key, date, priority)))
  {
    var contributes := Contributes(QueryThree.GROUPS, OfColumn(Sum, 3), SaleCells(key, date, priority));
    forall s | s in sales
      ensures InSaleGroup(key, date, priority)(s) == contributes(SaleRow()(s))
    {
      SaleRowCells(s);
      SaleHasGroup(s);
      SameSaleCells(s.order.key, s.order.date, s.order.priority, key, date, priority);
    }
    FilterMapped(SaleRow(), InSaleGroup(key, date, priority), contributes, sales);
    RevenuesOf(GroupSales(sales, key, date, priority));
  }

  lemma RevenuesOf(sales: seq<Sale>)
    ensures Map(ValueFrom(OfColumn(Sum, 3)), Map(SaleRow(), sales)) == Decs(Map(Revenue(), sales))
  {
    forall k | 0 <= k < |sales|
      ensures ValueFrom(OfColumn(Sum, 3))(SaleRow()(sales[k])) == Dec(Revenue()(sales[k]))
    {
      SaleRowCells(sales[k]);
    }
  }

  /** A row of the grouped query: its sales and their revenue. */
  ghost predicate IsRevenueRow(sales: seq<Sale>, o: OutputRow, key: int, date: seq<Byte>, priority: int) {
    var chosen := GroupSales(sales, key, date, priority);
    chosen != [] && o == OutputRow(SaleCells(key, date, priority), [Val(Dec(RealTotal(Map(Revenue(), chosen))))])
  }

  ghost predicate IsSomeRevenue(sales: seq<Sale>, o: OutputRow) {
    exists key, date, priority :: IsRevenueRow(sales, o, key, date, priority)
  }

  ghost predicate RevenueListed(sales: seq<Sale>, all: seq<OutputRow>, key: int, date: seq<Byte>, priority: int) {
    exists o :: o in all && IsRevenueRow(sales, o, key, date, priority)
  }

  /** One row for every order, with the revenue of its sales. */
  ghost predicate RevenuesOfOrders(sales: seq<Sale>, all: seq<OutputRow>) {
    && (forall o :: o in all ==> IsSomeRevenue(sales, o))
    && (forall key, date, priority :: GroupSales(sales, key, date, priority) != [] ==>
          RevenueListed(sales, all, key, date, priority))
    && NoDup(all)
  }

  lemma RevenueCell(sales: seq<Sale>, o: OutputRow, key: int, date: seq<Byte>, priority: int)
    requires RowCellsExact(Map(SaleRow(), sales), QueryThree.GROUPS, QueryThree.Revenue(), o)
    requires o.group == SaleCells(key, date, priority) && GroupSales(sales, key, date, priority) != []
    ensures IsRevenueRow(sales, o, key, date, priority)
  {
    var a, rows := QueryThree.Revenue()[0], Map(SaleRow(), sales);
    assert a == OfColumn(Sum, 3);
    assert IsAggregate(a.Function(), RowValues(rows, QueryThree.GROUPS, a, o.group), o.cells[0]);
    SaleValues(sales, key, date, priority);
    RealAggregates(Sum, Map(Revenue(), GroupSales(sales, key, date, priority)), o.cells[0]);
    assert o.cells == [o.cells[0]];
  }

  lemma RevenueSource(sales: seq<Sale>, group: Row) returns (s: Sale)
    requires HasGroup(Map(SaleRow(), sales), QueryThree.GROUPS, group)
    ensures s in sales && group == SaleCells(s.order.key, s.order.date, s.order.priority)
  {
    var row :| row in Map(SaleRow(), sales) && GroupOf(QueryThree.GROUPS, row) == group;
    s := MapSource(SaleRow(), sales, row);
    SaleHasGroup(s);
  }

  lemma RevenueThere(sales: seq<Sale>, s: Sale)
    requires s in sales
    ensures HasGroup(Map(SaleRow(), sales), QueryThree.GROUPS, SaleCells(s.order.key, s.order.date, s.order.priority))
  {
    var k :| 0 <= k < |sales| && sales[k] == s;
    assert Map(SaleRow(), sales)[k] == SaleRow()(s) && SaleRow()(s) in Map(SaleRow(), sales);
    SaleHasGroup(s);
  }

  lemma RevenueOfRow(sales: seq<Sale>, all: seq<OutputRow>, k: nat)
    requires IsRowGroupBy(Map(SaleRow(), sales), QueryThree.GROUPS, QueryThree.Revenue(), all) && k < |all|
    ensures IsSomeRevenue(sales, all[k])
  {
    assert Listed(all, all[k].group);
    var s := RevenueSource(sales, all[k].group);
    assert s in GroupSales(sales, s.order.key, s.order.date, s.order.priority);
    RevenueCell(sales, all[k], s.order.key, s.order.date, s.order.priority);
  }

  lemma RevenueOfGroup(sales: seq<Sale>, all: seq<OutputRow>, key: int, date: seq<Byte>, priority: int)
    requires IsRowGroupBy(Map(SaleRow(), sales), QueryThree.GROUPS, QueryThree.Revenue(), all)
    requires GroupSales(sales, key, date, priority) != []
    ensures RevenueListed(sales, all, key, date, priority)
  {
    var s := GroupSales(sales, key, date, priority)[0];
    assert s in GroupSales(sales, key, date, priority);
    RevenueThere(sales, s);
    assert Listed(all, SaleCells(key, date, priority));
    var k :| 0 <= k < |all| && all[k].group == SaleCells(key, date, priority);
    RevenueCell(sales, all[k], key, date, priority);
  }

  lemma RevenuesExact(sales: seq<Sale>, all: seq<OutputRow>)
    requires IsRowGroupBy(Map(SaleRow(), sales), QueryThree.GROUPS, QueryThree.Revenue(), all)
    ensures RevenuesOfOrders(sales, all)
  {
    forall o | o in all
      ensures IsSomeRevenue(sales, o)
    {
      var k :| 0 <= k < |all| && all[k] == o;
      RevenueOfRow(sales, all, k);
    }
    forall key, date, priority | GroupSales(sales, key, date, priority) != []
      ensures RevenueListed(sales, all, key, date, priority)
    {
      RevenueOfGroup(sales, all, key, date, priority);
    }
  }

  // ----- the ten best -----

  function RevenueIn(row: Row): real {
    match Component(row, 3)
    case Val(Dec(r)) => r
    case _ => 0.0
  }

  function DateIn(row: Row): seq<Byte> {
    match Component(row, 1)
    case Val(Text(s)) => s
    case _ => []
  }

  /** More revenue, or the same revenue and an earlier date. */
  ghost predicate Better(a: Row, b: Row) {
    RevenueIn(a) > RevenueIn(b) || (RevenueIn(a) == RevenueIn(b) && TextBefore(DateIn(a), DateIn(b)))
  }

  ghost predicate BestFirst(top: seq<Row>) {
    forall i, j :: 0 <= i < j < |top| ==> !Better(top[j], top[i])
  }

  /** No row of the rest is better than a row of the top. */
  ghost predicate NoneBetter(top: seq<Row>, left: seq<Row>) {
    forall i, j :: 0 <= i < |top| && 0 <= j < |left| ==> !Better(left[j], top[i])
  }

  /** Ten of the rows, or all of them when there are fewer, the best ones first. */
  ghost predicate TopTen(rows: seq<Row>, top: seq<Row>) {
    && |top| == (if |rows| < 10 then |rows| else 10)
    && BestFirst(top)
    && multiset(top) <= multiset(rows)
    && forall left :: multiset(rows) == multiset(top + left) ==> NoneBetter(top, left)
  }

  /** A row with a revenue and a date. */
  predicate Priceable(row: Row) {
    |row| == 4 && row[3].Val? && row[3].v.Dec? && row[1].Val? && row[1].v.Text?
  }

  lemma SortKeys(row: Row)
    requires Priceable(row)
    ensures KeyOf(BY_REVENUE)(row) == [Val(Dec(RevenueIn(row))), Val(Text(DateIn(row)))]
    ensures Modes(BY_REVENUE) == [Descending, Ascending]
  {
    var key := KeyOf(BY_REVENUE)(row);
    assert key[0] == row[3] && key[1] == row[1];
  }

  lemma KeysOfTwo(a: Row, b: Row, x: real, y: real, d: seq<Byte>, e: seq<Byte>)
    requires a == [Val(Dec(x)), Val(Text(d))] && b == [Val(Dec(y)), Val(Text(e))]
    ensures KeyBefore([Descending, Ascending], a, b) <==> x > y || (x == y && TextBefore(d, e))
  {
    LessExact(Dec(y), Dec(x));
    LessExact(Text(d), Text(e));
    assert [Descending, Ascending][1..] == [Ascending];
    assert a[1..] == [Val(Text(d))] && b[1..] == [Val(Text(e))];
    assert KeyBefore([Ascending], a[1..], b[1..]) <==> Less(Text(d), Text(e));
  }

  /** The order of the last pipelines. */
  lemma BetterExact(a: Row, b: Row)
    requires Priceable(a) && Priceable(b)
    ensures KeyBefore(Modes(BY_REVENUE), KeyOf(BY_REVENUE)(a), KeyOf(BY_REVENUE)(b)) <==> Better(a, b)
  {
    SortKeys(a);
    SortKeys(b);
    KeysOfTwo(KeyOf(BY_REVENUE)(a), KeyOf(BY_REVENUE)(b), RevenueIn(a), RevenueIn(b), DateIn(a), DateIn(b));
  }

  ghost predicate AllPriceable(rows: seq<Row>) {
    forall row :: row in rows ==> Priceable(row)
  }

  lemma MembersWithin(part: seq<Row>, rows: seq<Row>)
    requires multiset(part) <= multiset(rows) && AllPriceable(rows)
    ensures forall k :: 0 <= k < |part| ==> Priceable(part[k])
  {
    forall k | 0 <= k < |part|
      ensures part[k] in rows
    {
      assert part[k] in multiset(part);
    }
  }

  lemma TopOrdered(rows: seq<Row>, top: seq<Row>, left: seq<Row>)
    requires AllPriceable(rows) && IsTop(BY_REVENUE, LIMIT, rows, top) && multiset(rows) == multiset(top + left)
    ensures |top| == (if |rows| < 10 then |rows| else 10)
    ensures BestFirst(top) && NoneBetter(top, left)
  {
    var f := KeyOf(BY_REVENUE);
    TopExact(BY_REVENUE, LIMIT, rows, top, left);
    MembersWithin(top, rows);
    MembersWithin(left, rows);
    forall i, j | 0 <= i < j < |top|
      ensures !Better(top[j], top[i])
    {
      BetterExact(top[j], top[i]);
      assert Map(f, top)[i] == f(top[i]) && Map(f, top)[j] == f(top[j]);
    }
    forall i, j | 0 <= i < |top| && 0 <= j < |left|
      ensures !Better(left[j], top[i])
    {
      BetterExact(left[j], top[i]);
    }
  }

  lemma OneLeft(front: multiset<Row>, more: multiset<Row>, last: Row)
    requires front + multiset{last} <= front + more
    ensures last in more
  {
    assert (front + multiset{last})[last] == front[last] + 1;
  }

  lemma {:induction false} TheRest(rows: seq<Row>, top: seq<Row>) returns (left: seq<Row>)
    requires multiset(top) <= multiset(rows)
    ensures multiset(rows) == multiset(top + left)
  {
    if top == [] {
      left := rows;
    } else {
      var front, last := top[..|top| - 1], top[|top| - 1];
      assert top == front + [last];
      var more := TheRest(rows, front);
      assert multiset(rows) == multiset(front) + multiset(more);
      OneLeft(multiset(front), multiset(more), last);
      var k :| 0 <= k < |more| && more[k] == last;
      RemoveAt(more, k);
      left := more[..k] + more[k + 1..];
    }
  }

  lemma TopIsTopTen(rows: seq<Row>, top: seq<Row>)
    requires AllPriceable(rows) && IsTop(BY_REVENUE, LIMIT, rows, top)
    ensures TopTen(rows, top)
  {
    var left := TheRest(rows, top);
    TopOrdered(rows, top, left);
    forall left | multiset(rows) == multiset(top + left)
      ensures NoneBetter(top, left)
    {
      TopOrdered(rows, top, left);
    }
  }

  lemma RevenueRowPriceable(sales: seq<Sale>, o: OutputRow)
    requires IsSomeRevenue(sales, o)
    ensures Priceable(FlatRow(o))
  {
    var key, date, priority :| IsRevenueRow(sales, o, key, date, priority);
    var row := FlatRow(o);
    assert row[1] == o.group[1] && row[3] == o.cells[0];
  }

  lemma RevenuesPriceable(sales: seq<Sale>, all: seq<OutputRow>)
    requires RevenuesOfOrders(sales, all)
    ensures AllPriceable(Map(Flatten(), all))
  {
    forall row | row in Map(Flatten(), all)
      ensures Priceable(row)
    {
      var o := MapSource(Flatten(), all, row);
      RevenueRowPriceable(sales, o);
    }
  }

  // ----- from the files on -----

  datatype Files = Files(customers: seq<seq<Customer>>, orders: seq<seq<Order>>, solds: seq<seq<Sold>>)

  function ExportsFrom(files: Files, n: nat): Exports
    requires n > 0
  {
    ExportsOf(Map(Mapped(CustomerRow()), files.customers), Map(Mapped(OrderRow()), files.orders),
              Map(Mapped(SoldRow()), files.solds), n)
  }

  function EverythingIn(files: Files): Exports {
    Everything(Map(Mapped(CustomerRow()), files.customers), Map(Mapped(OrderRow()), files.orders),
               Map(Mapped(SoldRow()), files.solds))
  }

  ghost function AllSales(files: Files): seq<Sale> {
    Sales(Concat(files.customers), Concat(files.orders), Concat(files.solds))
  }

  lemma ExportsMatch(files: Files, n: nat)
    requires n > 0
    ensures SameExports(ExportsFrom(files, n), EverythingIn(files))
  {
    WorkersExportEverything(Map(Mapped(CustomerRow()), files.customers), Map(Mapped(OrderRow()), files.orders),
                            Map(Mapped(SoldRow()), files.solds), n);
  }

  lemma RowsOfEverything(files: Files)
    ensures var q := EverythingIn(files);
            QueryRows(q.customers, q.orders, q.items) == Map(SaleRow(), AllSales(files))
  {
    MapConcat(CustomerRow(), files.customers);
    MapConcat(OrderRow(), files.orders);
    MapConcat(SoldRow(), files.solds);
    QueryRowsExact(Concat(files.customers), Concat(files.orders), Concat(files.solds));
  }

  /** The workers' groups are those of the query over everything. */
  lemma GroupsOfEverything(e: Exports, q: Exports, combine: HashCombine, m: nat, kept: seq<seq<Row>>, k: nat,
                           joined: seq<seq<Row>>, grouped: seq<seq<OutputRow>>)
    requires SameExports(e, q) && BothJoined(e, combine, m, kept, k, joined) && GroupShares(joined, grouped)
    ensures IsQuery(q, Concat(grouped))
  {
    OrdersLeftWidth(kept);
    WorkersGroup(combine, k, OrdersLeft(kept), e.items, joined, grouped);
    WorkersProjectEverything(combine, k, OrdersLeft(kept), e.items, 0, 0, joined, Priced());
    BothJoins(e, q, combine, m, kept, k, joined);
    RevenueAdditive();
    GroupByPermuted(Concat(Map(Mapped(Priced()), joined)), QueryRows(q.customers, q.orders, q.items), GROUPS,
                    QueryThree.Revenue(), Concat(grouped));
  }

  lemma GroupsAreRevenues(files: Files, all: seq<OutputRow>)
    requires IsQuery(EverythingIn(files), all)
    ensures RevenuesOfOrders(AllSales(files), all)
  {
    RowsOfEverything(files);
    RevenuesExact(AllSales(files), all);
  }

  lemma GroupsOfFiles(files: Files, n: nat, combine: HashCombine, m: nat, kept: seq<seq<Row>>, k: nat,
                      joined: seq<seq<Row>>, grouped: seq<seq<OutputRow>>)
    requires n > 0 && BothJoined(ExportsFrom(files, n), combine, m, kept, k, joined) && GroupShares(joined, grouped)
    ensures RevenuesOfOrders(AllSales(files), Concat(grouped))
  {
    ExportsMatch(files, n);
    GroupsOfEverything(ExportsFrom(files, n), EverythingIn(files), combine, m, kept, k, joined, grouped);
    GroupsAreRevenues(files, Concat(grouped));
  }

  lemma LastTopTen(sales: seq<Sale>, grouped: seq<seq<OutputRow>>, tops: seq<seq<Row>>, top: seq<Row>)
    requires RevenuesOfOrders(sales, Concat(grouped))
    requires KeepTops(grouped, tops) && IsTop(BY_REVENUE, LIMIT, Concat(tops), top)
    ensures TopTen(Map(Flatten(), Concat(grouped)), top)
  {
    RevenuesPriceable(sales, Concat(grouped));
    TopOfGroups(grouped, Concat(grouped), tops, top);
    TopIsTopTen(Map(Flatten(), Concat(grouped)), top);
  }

  /** For all files, any hash and any numbers of workers: the workers' groups are the orders with the revenue of their
      sales, and the last pipeline ends with ten best of them. */
  lemma QueryThreeInReals(files: Files, n: nat, combine: HashCombine, m: nat, kept: seq<seq<Row>>, k: nat,
                          joined: seq<seq<Row>>, grouped: seq<seq<OutputRow>>, tops: seq<seq<Row>>, top: seq<Row>)
    requires n > 0 && BothJoined(ExportsFrom(files, n), combine, m, kept, k, joined)
    requires GroupShares(joined, grouped) && KeepTops(grouped, tops) && IsTop(BY_REVENUE, LIMIT, Concat(tops), top)
    ensures RevenuesOfOrders(AllSales(files), Concat(grouped))
    ensures TopTen(Map(Flatten(), Concat(grouped)), top)
  {
    GroupsOfFiles(files, n, combine, m, kept, k, joined, grouped);
    LastTopTen(AllSales(files), grouped, tops, top);
  }
}
