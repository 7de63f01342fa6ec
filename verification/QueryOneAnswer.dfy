/** What query 1 computes, on line items with plain numbers: sums, averages and counts in real arithmetic. */
module QueryOneAnswer {
  import opened Sequences
  import opened Storage
  import opened Aggregates
  import opened AggregateOperator
  import opened RowGroups
  import opened TwoStages
  import opened FileAssignment
  import opened SortOperator
  import opened TopRows
  import opened Ordering
  import opened Arithmetic
  import opened QueryOne

  datatype LineItem = LineItem(quantity: real, price: real, discount: real, flag: seq<Byte>, status: seq<Byte>,
                               shipped: seq<Byte>, tax: real)

  /** The imported columns. */
  function ItemRow(): LineItem -> Row {
    (i: LineItem) => [Val(Dec(i.quantity)), Val(Dec(i.price)), Val(Dec(i.discount)), Val(Text(i.flag)),
                      Val(Text(i.status)), Val(Text(i.shipped)), Val(Dec(i.tax))]
  }

  /** The bytes of a literal. */
  function Ascii(s: string): (r: seq<Byte>)
    ensures |r| == |s| && forall k :: 0 <= k < |s| && s[k] as int < 128 ==> r[k] == s[k] as int
  {
    seq(|s|, k requires 0 <= k < |s| => if s[k] as int < 128 then s[k] as int else 0)
  }

  // ----- the answer -----

  /** Shipped on the cut-off date or before. */
  ghost predicate InTime(i: LineItem) {
    !TextBefore(Ascii("1998-09-02"), i.shipped)
  }

  ghost function ShippedInTime(): LineItem -> bool {
    (i: LineItem) => InTime(i)
  }

  function InGroup(flag: seq<Byte>, status: seq<Byte>): LineItem -> bool {
    (i: LineItem) => i.flag == flag && i.status == status
  }

  /** The line items of one group of the answer, out of those shipped in time. */
  function GroupItems(kept: seq<LineItem>, flag: seq<Byte>, status: seq<Byte>): seq<LineItem> {
    Filter(InGroup(flag, status), kept)
  }

  function DiscountedPrice(): LineItem -> real {
    (i: LineItem) => i.price * (1.0 - i.discount)
  }

  function Charge(): LineItem -> real {
    (i: LineItem) => i.price * (1.0 - i.discount) * (1.0 + i.tax)
  }

  function Quantity(): LineItem -> real {
    (i: LineItem) => i.quantity
  }

  function Price(): LineItem -> real {
    (i: LineItem) => i.price
  }

  function Discount(): LineItem -> real {
    (i: LineItem) => i.discount
  }

  ghost function Total(f: LineItem -> real, chosen: seq<LineItem>): Cell {
    Val(Dec(RealTotal(Map(f, chosen))))
  }

  ghost function Average(f: LineItem -> real, chosen: seq<LineItem>): Cell
    requires chosen != []
  {
    Val(Dec(RealTotal(Map(f, chosen)) / |chosen| as real))
  }

  /** sum_disc_price, sum_qty, sum_base_price, count_order, sum_charge, avg_qty, avg_price, avg_disc. */
  ghost function Answer(chosen: seq<LineItem>): Row
    requires chosen != []
  {
    [Total(DiscountedPrice(), chosen), Total(Quantity(), chosen), Total(Price(), chosen), Val(Int(|chosen|)),
     Total(Charge(), chosen), Average(Quantity(), chosen), Average(Price(), chosen), Average(Discount(), chosen)]
  }

  // ----- filter and projection -----

  lemma CutoffExact()
    ensures CUTOFF == Text(Ascii("1998-09-02"))
  {
    var s := "1998-09-02";
    var r := Ascii(s);
    assert r[0] == 49 && r[1] == 57 && r[2] == 57 && r[3] == 56 && r[4] == 45;
    assert r[5] == 48 && r[6] == 57 && r[7] == 45 && r[8] == 48 && r[9] == 50;
    assert CUTOFF.bytes == [49, 57, 57, 56, 45, 48, 57, 45, 48, 50];
    assert r == CUTOFF.bytes;
  }

  /** The filter keeps the line items that were shipped in time. */
  lemma ShippedExact(i: LineItem)
    ensures Shipped()(ItemRow()(i)) <==> InTime(i)
  {
    CutoffExact();
    LessExact(CUTOFF, Text(i.shipped));
  }

  function ProjectedItem(): LineItem -> Row {
    (i: LineItem) => [Val(Dec(DiscountedPrice()(i))), Val(Dec(i.quantity)), Val(Dec(i.price)), Val(Dec(i.discount)),
                      Val(Text(i.flag)), Val(Text(i.status)), Val(Dec(Charge()(i)))]
  }

  lemma ChargeExact(p: real, d: real, t: real)
    ensures p * ((1.0 - d) * (1.0 + t)) == p * (1.0 - d) * (1.0 + t)
  {}

  lemma ProductOf(a: Cell, b: Cell, x: real, y: real, product: real)
    requires a == Val(Dec(x)) && b == Val(Dec(y)) && product == x * y
    ensures Times(a, b) == Val(Dec(product))
  {
    assert Times(a, b).v.r == Number(a.v) * Number(b.v) == x * y;
  }

  lemma DiscountComputed(price: Cell, discount: Cell, p: real, d: real, discounted: real)
    requires price == Val(Dec(p)) && discount == Val(Dec(d)) && discounted == p * (1.0 - d)
    ensures Times(price, OneMinus(discount)) == Val(Dec(discounted))
  {
    var kept := OneMinus(discount);
    assert kept == Val(Dec(1.0 - d));
    ProductOf(price, kept, p, 1.0 - d, discounted);
  }

  lemma FactorComputed(discount: Cell, tax: Cell, d: real, t: real, factor: real)
    requires discount == Val(Dec(d)) && tax == Val(Dec(t)) && factor == (1.0 - d) * (1.0 + t)
    ensures Times(OneMinus(discount), OnePlus(tax)) == Val(Dec(factor))
  {
    var kept, taxed := OneMinus(discount), OnePlus(tax);
    assert kept == Val(Dec(1.0 - d)) && taxed == Val(Dec(1.0 + t));
    ProductOf(kept, taxed, 1.0 - d, 1.0 + t, factor);
  }

  lemma ChargeComputed(price: Cell, discount: Cell, tax: Cell, p: real, d: real, t: real, factor: real, charge: real)
    requires price == Val(Dec(p)) && discount == Val(Dec(d)) && tax == Val(Dec(t))
    requires factor == (1.0 - d) * (1.0 + t) && charge == p * factor
    ensures Times(price, Times(OneMinus(discount), OnePlus(tax))) == Val(Dec(charge))
  {
    FactorComputed(discount, tax, d, t, factor);
    ProductOf(price, Times(OneMinus(discount), OnePlus(tax)), p, factor, charge);
  }

  lemma SevenEqual(a: Row, b: Row)
    requires |a| == |b| == 7 && a[0] == b[0] && a[1] == b[1] && a[2] == b[2] && a[3] == b[3] && a[4] == b[4]
    requires a[5] == b[5] && a[6] == b[6]
    ensures a == b
  {}

  /** The projection computes the discounted price and the charge. */
  lemma ProjectedExact(i: LineItem)
    ensures Projected()(ItemRow()(i)) == ProjectedItem()(i)
  {
    var row, projected := ItemRow()(i), Projected()(ItemRow()(i));
    var price, discount, tax := Component(row, 1), Component(row, 2), Component(row, 6);
    DiscountComputed(price, discount, i.price, i.discount, DiscountedPrice()(i));
    ChargeExact(i.price, i.discount, i.tax);
    ChargeComputed(price, discount, tax, i.price, i.discount, i.tax, (1.0 - i.discount) * (1.0 + i.tax), Charge()(i));
    assert projected[0] == ProjectedItem()(i)[0] && projected[6] == ProjectedItem()(i)[6];
    SevenEqual(projected, ProjectedItem()(i));
  }

  lemma KeptItems(items: seq<LineItem>)
    ensures Filter(Shipped(), Map(ItemRow(), items)) == Map(ItemRow(), Filter(ShippedInTime(), items))
  {
    forall i | i in items
      ensures ShippedInTime()(i) == Shipped()(ItemRow()(i))
    {
      ShippedExact(i);
    }
    FilterMapped(ItemRow(), ShippedInTime(), Shipped(), items);
  }

  lemma ProjectedItems(kept: seq<LineItem>)
    ensures Map(Projected(), Map(ItemRow(), kept)) == Map(ProjectedItem(), kept)
  {
    forall k | 0 <= k < |kept|
      ensures Projected()(ItemRow()(kept[k])) == ProjectedItem()(kept[k])
    {
      ProjectedExact(kept[k]);
    }
  }

  lemma PreparedItems(items: seq<LineItem>)
    ensures LineItemRows()(Map(ItemRow(), items)) == Map(ProjectedItem(), Filter(ShippedInTime(), items))
  {
    KeptItems(items);
    ProjectedItems(Filter(ShippedInTime(), items));
  }

  // ----- the values of a group -----

  function GroupCells(flag: seq<Byte>, status: seq<Byte>): (r: Row)
    ensures |r| == 2 && r[0] == Val(Text(flag)) && r[1] == Val(Text(status))
  {
    [Val(Text(flag)), Val(Text(status))]
  }

  /** What column c of the projection holds. */
  function Amount(c: nat): LineItem -> real {
    match c
    case 0 => DiscountedPrice()
    case 1 => Quantity()
    case 2 => Price()
    case 3 => Discount()
    case _ => Charge()
  }

  predicate IsAmount(c: nat) {
    c < 4 || c == 6
  }

  lemma ProjectedCells(i: LineItem)
    ensures var row := ProjectedItem()(i);
            && |row| == 7 && row[4] == Val(Text(i.flag)) && row[5] == Val(Text(i.status))
            && forall c: nat :: IsAmount(c) ==> Component(row, c) == Val(Dec(Amount(c)(i)))
  {}

  lemma ItemGroup(row: Row, flag: seq<Byte>, status: seq<Byte>)
    requires |row| == 7 && row[4] == Val(Text(flag)) && row[5] == Val(Text(status))
    ensures GroupOf(QueryOne.GROUPS, row) == GroupCells(flag, status)
  {
    var g := GroupOf(QueryOne.GROUPS, row);
    assert g[0] == Component(row, 4) && g[1] == Component(row, 5);
    assert g == GroupCells(flag, status);
  }

  lemma SameGroupCells(flag: seq<Byte>, status: seq<Byte>, f: seq<Byte>, s: seq<Byte>)
    ensures GroupCells(flag, status) == GroupCells(f, s) <==> flag == f && status == s
  {}

  /** COUNT(*), or a sum of one of the amounts. */
  predicate Sums(a: AggregateExpression) {
    a == Star(Count) || (a.OfColumn? && a.f == Sum && IsAmount(a.column))
  }

  lemma ItemContributes(i: LineItem, a: AggregateExpression, flag: seq<Byte>, status: seq<Byte>)
    requires Sums(a)
    ensures Contributes(QueryOne.GROUPS, a, GroupCells(flag, status))(ProjectedItem()(i)) <==> InGroup(flag, status)(i)
  {
    ProjectedCells(i);
    ItemGroup(ProjectedItem()(i), i.flag, i.status);
    SameGroupCells(i.flag, i.status, flag, status);
  }

  /** The values that an aggregate gets for a group come from the group's line items. */
  lemma GroupValuesExact(kept: seq<LineItem>, a: AggregateExpression, flag: seq<Byte>, status: seq<Byte>)
    requires Sums(a)
    ensures RowValues(Map(ProjectedItem(), kept), QueryOne.GROUPS, a, GroupCells(flag, status)) ==
            Map(ValueFrom(a), Map(ProjectedItem(), GroupItems(kept, flag, status)))
  {
    var contributes := Contributes(QueryOne.GROUPS, a, GroupCells(flag, status));
    forall i | i in kept
      ensures InGroup(flag, status)(i) == contributes(ProjectedItem()(i))
    {
      ItemContributes(i, a, flag, status);
    }
    FilterMapped(ProjectedItem(), InGroup(flag, status), contributes, kept);
  }

  lemma AmountsOf(chosen: seq<LineItem>, c: nat)
    requires IsAmount(c)
    ensures Map(ValueFrom(OfColumn(Sum, c)), Map(ProjectedItem(), chosen)) == Decs(Map(Amount(c), chosen))
  {
    forall k | 0 <= k < |chosen|
      ensures ValueFrom(OfColumn(Sum, c))(ProjectedItem()(chosen[k])) == Dec(Amount(c)(chosen[k]))
    {
      ProjectedCells(chosen[k]);
    }
  }

  // ----- from the re-summed totals to the answer -----

  lemma SumOfReals(vs: seq<Value>, xs: seq<real>, cell: Cell)
    requires multiset(vs) == multiset(Decs(xs)) && xs != [] && Resummed(Sum, vs, cell)
    ensures cell == Val(Dec(RealTotal(xs)))
  {
    PermutedLength(vs, Decs(xs));
    SumValuePermuted(vs, Decs(xs));
    RealAggregates(Sum, xs, Val(SumValue(Decs(xs))));
  }

  lemma TotalExact(kept: seq<LineItem>, rows: seq<Row>, c: nat, flag: seq<Byte>, status: seq<Byte>, cell: Cell)
    requires multiset(rows) == multiset(Map(ProjectedItem(), kept)) && IsAmount(c)
    requires GroupItems(kept, flag, status) != []
    requires TotalOf(rows, GroupCells(flag, status), OfColumn(Sum, c), cell)
    ensures cell == Total(Amount(c), GroupItems(kept, flag, status))
  {
    var chosen := GroupItems(kept, flag, status);
    RowValuesPermuted(rows, Map(ProjectedItem(), kept), QueryOne.GROUPS, OfColumn(Sum, c), GroupCells(flag, status));
    GroupValuesExact(kept, OfColumn(Sum, c), flag, status);
    AmountsOf(chosen, c);
    SumOfReals(RowValues(rows, QueryOne.GROUPS, OfColumn(Sum, c), GroupCells(flag, status)), Map(Amount(c), chosen),
               cell);
  }

  lemma CountOf(vs: seq<Value>, ws: seq<Value>, n: nat, cell: Cell)
    requires multiset(vs) == multiset(ws) && |ws| == n > 0 && Resummed(Count, vs, cell)
    ensures cell == Val(Int(n))
  {
    PermutedLength(vs, ws);
  }

  lemma CountExact(kept: seq<LineItem>, rows: seq<Row>, flag: seq<Byte>, status: seq<Byte>, cell: Cell)
    requires multiset(rows) == multiset(Map(ProjectedItem(), kept))
    requires GroupItems(kept, flag, status) != []
    requires TotalOf(rows, GroupCells(flag, status), Star(Count), cell)
    ensures cell == Val(Int(|GroupItems(kept, flag, status)|))
  {
    var all := Map(ProjectedItem(), kept);
    RowValuesPermuted(rows, all, QueryOne.GROUPS, Star(Count), GroupCells(flag, status));
    GroupValuesExact(kept, Star(Count), flag, status);
    CountOf(RowValues(rows, QueryOne.GROUPS, Star(Count), GroupCells(flag, status)),
            RowValues(all, QueryOne.GROUPS, Star(Count), GroupCells(flag, status)),
            |GroupItems(kept, flag, status)|, cell);
  }

  lemma QuotientExact(x: real, n: nat)
    requires n > 0
    ensures QueryOne.Quotient(Val(Dec(x)), Val(Int(n))) == Val(Dec(x / n as real))
  {}

  /** The six totals of a group, and the averages made of them. */
  lemma AnswerOf(o: OutputRow, chosen: seq<LineItem>)
    requires chosen != [] && |o.cells| == 6
    requires o.cells[0] == Total(DiscountedPrice(), chosen) && o.cells[1] == Total(Quantity(), chosen)
    requires o.cells[2] == Total(Price(), chosen) && o.cells[3] == Val(Int(|chosen|))
    requires o.cells[4] == Total(Charge(), chosen) && o.cells[5] == Total(Discount(), chosen)
    ensures WithAverages()(o) == OutputRow(o.group, Answer(chosen))
  {
    QuotientExact(RealTotal(Map(Quantity(), chosen)), |chosen|);
    QuotientExact(RealTotal(Map(Price(), chosen)), |chosen|);
    QuotientExact(RealTotal(Map(Discount(), chosen)), |chosen|);
    EqualEight(WithAverages()(o).cells, Answer(chosen));
  }

  /** One row of the answer. */
  lemma RowExact(kept: seq<LineItem>, rows: seq<Row>, flag: seq<Byte>, status: seq<Byte>, o: OutputRow)
    requires multiset(rows) == multiset(Map(ProjectedItem(), kept))
    requires o.group == GroupCells(flag, status) && Totals(rows, o) && GroupItems(kept, flag, status) != []
    ensures IsAnswer(kept, flag, status, WithAverages()(o))
  {
    TotalExact(kept, rows, 0, flag, status, o.cells[0]);
    TotalExact(kept, rows, 1, flag, status, o.cells[1]);
    TotalExact(kept, rows, 2, flag, status, o.cells[2]);
    CountExact(kept, rows, flag, status, o.cells[3]);
    TotalExact(kept, rows, 6, flag, status, o.cells[4]);
    TotalExact(kept, rows, 3, flag, status, o.cells[5]);
    AnswerOf(o, GroupItems(kept, flag, status));
  }

  lemma ItemHasGroup(i: LineItem)
    ensures GroupOf(QueryOne.GROUPS, ProjectedItem()(i)) == GroupCells(i.flag, i.status)
  {
    ProjectedCells(i);
    ItemGroup(ProjectedItem()(i), i.flag, i.status);
  }

  lemma GroupSource(kept: seq<LineItem>, rows: seq<Row>, group: Row) returns (i: LineItem)
    requires multiset(rows) == multiset(Map(ProjectedItem(), kept)) && HasGroup(rows, QueryOne.GROUPS, group)
    ensures i in kept && group == GroupCells(i.flag, i.status)
  {
    var all := Map(ProjectedItem(), kept);
    var row :| row in rows && GroupOf(QueryOne.GROUPS, row) == group;
    PermutedMembers(rows, all, row);
    i := MapSource(ProjectedItem(), kept, row);
    ItemHasGroup(i);
  }

  lemma GroupThere(kept: seq<LineItem>, rows: seq<Row>, i: LineItem)
    requires multiset(rows) == multiset(Map(ProjectedItem(), kept)) && i in kept
    ensures HasGroup(rows, QueryOne.GROUPS, GroupCells(i.flag, i.status))
  {
    var all := Map(ProjectedItem(), kept);
    var k :| 0 <= k < |kept| && kept[k] == i;
    assert all[k] == ProjectedItem()(i) && all[k] in all;
    PermutedMembers(rows, all, all[k]);
    ItemHasGroup(i);
  }

  /** The row of a group, with its flag and status. */
  ghost predicate IsAnswer(kept: seq<LineItem>, flag: seq<Byte>, status: seq<Byte>, o: OutputRow) {
    var chosen := GroupItems(kept, flag, status);
    chosen != [] && o == OutputRow(GroupCells(flag, status), Answer(chosen))
  }

  ghost predicate IsSomeAnswer(kept: seq<LineItem>, o: OutputRow) {
    exists flag, status :: IsAnswer(kept, flag, status, o)
  }

  ghost predicate Answered(kept: seq<LineItem>, answers: seq<OutputRow>, flag: seq<Byte>, status: seq<Byte>) {
    exists o :: o in answers && IsAnswer(kept, flag, status, o)
  }

  /** Each row is the answer of its group, each group with a line item has its row, and no row is there twice. */
  ghost predicate AnswersOf(kept: seq<LineItem>, answers: seq<OutputRow>) {
    && (forall o :: o in answers ==> IsSomeAnswer(kept, o))
    && (forall flag, status :: GroupItems(kept, flag, status) != [] ==> Answered(kept, answers, flag, status))
    && NoDup(answers)
  }

  lemma StageAnswer(kept: seq<LineItem>, rows: seq<Row>, second: seq<OutputRow>, k: nat)
    requires multiset(rows) == multiset(Map(ProjectedItem(), kept))
    requires SecondStage(rows, second) && k < |second|
    ensures IsSomeAnswer(kept, WithAverages()(second[k]))
  {
    assert Listed(second, second[k].group);
    var i := GroupSource(kept, rows, second[k].group);
    assert i in GroupItems(kept, i.flag, i.status);
    RowExact(kept, rows, i.flag, i.status, second[k]);
  }

  lemma StageRow(rows: seq<Row>, second: seq<OutputRow>, group: Row) returns (k: nat)
    requires SecondStage(rows, second) && HasGroup(rows, QueryOne.GROUPS, group)
    ensures k < |second| && second[k].group == group && Totals(rows, second[k])
  {
    assert Listed(second, group);
    k :| 0 <= k < |second| && second[k].group == group;
  }

  lemma StageComplete(kept: seq<LineItem>, rows: seq<Row>, second: seq<OutputRow>, flag: seq<Byte>, status: seq<Byte>)
    requires multiset(rows) == multiset(Map(ProjectedItem(), kept))
    requires SecondStage(rows, second) && GroupItems(kept, flag, status) != []
    ensures Answered(kept, Map(WithAverages(), second), flag, status)
  {
    var i := GroupItems(kept, flag, status)[0];
    assert i in GroupItems(kept, flag, status);
    GroupThere(kept, rows, i);
    var k := StageRow(rows, second, GroupCells(flag, status));
    RowExact(kept, rows, flag, status, second[k]);
    MapHas(WithAverages(), second, k);
  }

  lemma StageAnswers(kept: seq<LineItem>, rows: seq<Row>, second: seq<OutputRow>)
    requires multiset(rows) == multiset(Map(ProjectedItem(), kept)) && SecondStage(rows, second)
    ensures AnswersOf(kept, Map(WithAverages(), second))
  {
    forall o | o in Map(WithAverages(), second)
      ensures IsSomeAnswer(kept, o)
    {
      var k :| 0 <= k < |second| && Map(WithAverages(), second)[k] == o;
      StageAnswer(kept, rows, second, k);
    }
    forall flag, status | GroupItems(kept, flag, status) != []
      ensures Answered(kept, Map(WithAverages(), second), flag, status)
    {
      StageComplete(kept, rows, second, flag, status);
    }
    DistinctGroups(WithAverages(), second);
  }

  // ----- the sorted answer -----

  function TextIn(row: Row, c: nat): seq<Byte> {
    match Component(row, c)
    case Val(Text(s)) => s
    case _ => []
  }

  /** A smaller return flag, or the same one and a smaller line status. */
  ghost predicate Earlier(a: Row, b: Row) {
    TextBefore(TextIn(a, 0), TextIn(b, 0)) || (TextIn(a, 0) == TextIn(b, 0) && TextBefore(TextIn(a, 1), TextIn(b, 1)))
  }

  predicate Labelled(row: Row) {
    |row| > 1 && row[0].Val? && row[0].v.Text? && row[1].Val? && row[1].v.Text?
  }

  lemma GroupKeys(row: Row)
    requires Labelled(row)
    ensures KeyOf(BY_GROUP)(row) == [Val(Text(TextIn(row, 0))), Val(Text(TextIn(row, 1)))]
    ensures Modes(BY_GROUP) == [Ascending, Ascending]
  {
    var key := KeyOf(BY_GROUP)(row);
    assert key[0] == row[0] && key[1] == row[1];
  }

  lemma KeysOfTwo(a: Row, b: Row, f: seq<Byte>, s: seq<Byte>, g: seq<Byte>, u: seq<Byte>)
    requires a == [Val(Text(f)), Val(Text(s))] && b == [Val(Text(g)), Val(Text(u))]
    ensures KeyBefore([Ascending, Ascending], a, b) <==> TextBefore(f, g) || (f == g && TextBefore(s, u))
  {
    LessExact(Text(f), Text(g));
    LessExact(Text(s), Text(u));
    assert [Ascending, Ascending][1..] == [Ascending];
    assert a[1..] == [Val(Text(s))] && b[1..] == [Val(Text(u))];
    assert KeyBefore([Ascending], a[1..], b[1..]) <==> Less(Text(s), Text(u));
  }

  lemma EarlierExact(a: Row, b: Row)
    requires Labelled(a) && Labelled(b)
    ensures KeyBefore(Modes(BY_GROUP), KeyOf(BY_GROUP)(a), KeyOf(BY_GROUP)(b)) <==> Earlier(a, b)
  {
    GroupKeys(a);
    GroupKeys(b);
    KeysOfTwo(KeyOf(BY_GROUP)(a), KeyOf(BY_GROUP)(b), TextIn(a, 0), TextIn(a, 1), TextIn(b, 0), TextIn(b, 1));
  }

  lemma AnswerLabelled(kept: seq<LineItem>, answers: seq<OutputRow>, t: Table, p: RowId)
    requires AnswersOf(kept, answers) && Rows(t) == FlatRows(answers) && InRange(p, ChunkSizes(t))
    ensures Labelled(RowAt(t, p))
  {
    var ps := Positions(ChunkSizes(t));
    var k :| 0 <= k < |ps| && ps[k] == p;
    assert Rows(t)[k] == RowAt(t, p) == FlatRow(answers[k]);
    assert answers[k] in answers;
    var flag, status :| IsAnswer(kept, flag, status, answers[k]);
    assert FlatRow(answers[k])[0] == Val(Text(flag)) && FlatRow(answers[k])[1] == Val(Text(status));
  }

  /** The sorted answer goes up by return flag and line status. */
  lemma AnswersInOrder(kept: seq<LineItem>, answers: seq<OutputRow>, t: Table, ps: seq<RowId>)
    requires AnswersOf(kept, answers) && SortedAnswer(answers, t, ps)
    ensures forall i, j :: 0 <= i < j < |ps| ==> !Earlier(RowAt(t, ps[j]), RowAt(t, ps[i]))
  {
    forall i, j | 0 <= i < j < |ps|
      ensures !Earlier(RowAt(t, ps[j]), RowAt(t, ps[i]))
    {
      PermutedMembers(ps, Positions(ChunkSizes(t)), ps[i]);
      PermutedMembers(ps, Positions(ChunkSizes(t)), ps[j]);
      AnswerLabelled(kept, answers, t, ps[i]);
      AnswerLabelled(kept, answers, t, ps[j]);
      KeysFollow(t, BY_GROUP, ps[i], ps[j]);
      EarlierExact(RowAt(t, ps[j]), RowAt(t, ps[i]));
    }
  }

  // ----- from the files on -----

  function RowFiles(files: seq<seq<LineItem>>): seq<seq<Row>> {
    Map(Mapped(ItemRow()), files)
  }

  lemma WorkersKeep(files: seq<seq<LineItem>>, n: nat)
    requires n > 0
    ensures multiset(Concat(Shares(RowFiles(files), n))) ==
            multiset(Map(ProjectedItem(), Filter(ShippedInTime(), Concat(files))))
  {
    MapConcat(ItemRow(), files);
    WorkersPrepareEverything(Shipped(), Projected(), RowFiles(files), n);
    PreparedItems(Concat(files));
  }

  /** For all files of line items and any number of workers, the generated plan answers the query over the line
      items that were shipped in time. */
  lemma QueryOneInReals(files: seq<seq<LineItem>>, n: nat, partials: seq<seq<OutputRow>>, second: seq<OutputRow>)
    requires n > 0 && FirstPipeline(RowFiles(files), n, partials) && SecondPipeline(partials, second)
    ensures AnswersOf(Filter(ShippedInTime(), Concat(files)), Map(WithAverages(), second))
  {
    WorkersKeep(files, n);
    StagesTotal(Shares(RowFiles(files), n), partials, second);
    StageAnswers(Filter(ShippedInTime(), Concat(files)), Concat(Shares(RowFiles(files), n)), second);
  }
}
