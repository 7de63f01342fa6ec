/** The aggregates as arithmetic on plain numbers and strings. */
module Arithmetic {
  import opened Sequences
  import opened Storage
  import opened Aggregates
  import opened AggregateOperator
  import opened Ordering

  // ----- plain lists -----

  function Decs(xs: seq<real>): (r: seq<Value>)
    ensures |r| == |xs| && forall k :: 0 <= k < |r| ==> r[k] == Dec(xs[k])
  {
    Map((x: real) => Dec(x), xs)
  }

  function Ints(xs: seq<int>): (r: seq<Value>)
    ensures |r| == |xs| && forall k :: 0 <= k < |r| ==> r[k] == Int(xs[k])
  {
    Map((x: int) => Int(x), xs)
  }

  function Texts(xs: seq<seq<Byte>>): (r: seq<Value>)
    ensures |r| == |xs| && forall k :: 0 <= k < |r| ==> r[k] == Text(xs[k])
  {
    Map((x: seq<Byte>) => Text(x), xs)
  }

  function RealTotal(xs: seq<real>): real {
    if xs == [] then 0.0 else RealTotal(xs[..|xs| - 1]) + xs[|xs| - 1]
  }

  function IntTotal(xs: seq<int>): int {
    if xs == [] then 0 else IntTotal(xs[..|xs| - 1]) + xs[|xs| - 1]
  }

  function SquaredErrors(xs: seq<real>, m: real): real {
    if xs == [] then 0.0
    else SquaredErrors(xs[..|xs| - 1], m) + (xs[|xs| - 1] - m) * (xs[|xs| - 1] - m)
  }

  /** The strings with the byte 44 between them. */
  function Separated(texts: seq<seq<Byte>>): seq<Byte> {
    if texts == [] then []
    else if |texts| == 1 then texts[0]
    else texts[0] + [44] + Separated(texts[1..])
  }

  /** k is the first string that is not empty, or the last one. */
  ghost predicate StartsAt(texts: seq<seq<Byte>>, k: nat) {
    && k < |texts| && (k == |texts| - 1 || texts[k] != [])
    && forall m :: 0 <= m < k ==> texts[m] == []
  }

  // ----- what each aggregate is -----

  ghost predicate IsRealAggregate(f: AggregateFunction, xs: seq<real>, cell: Cell) {
    match f
    case Sum => cell == if xs == [] then Null else Val(Dec(RealTotal(xs)))
    case Avg => cell == if xs == [] then Null else Val(Dec(RealTotal(xs) / |xs| as real))
    case Min =>
      if xs == [] then cell == Null
      else exists m :: m in xs && cell == Val(Dec(m)) && forall x :: x in xs ==> m <= x
    case Max =>
      if xs == [] then cell == Null
      else exists m :: m in xs && cell == Val(Dec(m)) && forall x :: x in xs ==> m >= x
    case Count => cell == Val(Int(|xs|))
    case CountDistinct => cell == Val(Int(|set x | x in xs|))
    case StdDevSample =>
      cell == if |xs| <= 1 then Null
              else Val(Dec(SquaredErrors(xs, RealTotal(xs) / |xs| as real) / (|xs| - 1) as real))
    case StringAgg => xs == [] && cell == Null
  }

  ghost predicate IsIntAggregate(f: AggregateFunction, xs: seq<int>, cell: Cell) {
    match f
    case Sum => cell == if xs == [] then Null else Val(Int(IntTotal(xs)))
    case Avg => cell == if xs == [] then Null else Val(Dec(IntTotal(xs) as real / |xs| as real))
    case Min =>
      if xs == [] then cell == Null
      else exists m :: m in xs && cell == Val(Int(m)) && forall x :: x in xs ==> m <= x
    case Max =>
      if xs == [] then cell == Null
      else exists m :: m in xs && cell == Val(Int(m)) && forall x :: x in xs ==> m >= x
    case Count => cell == Val(Int(|xs|))
    case CountDistinct => cell == Val(Int(|set x | x in xs|))
    case StdDevSample => IsRealAggregate(StdDevSample, Map((x: int) => x as real, xs), cell)
    case StringAgg => xs == [] && cell == Null
  }

  ghost predicate IsTextAggregate(f: AggregateFunction, xs: seq<seq<Byte>>, cell: Cell) {
    match f
    case Min =>
      if xs == [] then cell == Null
      else exists m :: m in xs && cell == Val(Text(m)) && forall x :: x in xs ==> !TextBefore(x, m)
    case Max =>
      if xs == [] then cell == Null
      else exists m :: m in xs && cell == Val(Text(m)) && forall x :: x in xs ==> !TextBefore(m, x)
    case Count => cell == Val(Int(|xs|))
    case CountDistinct => cell == Val(Int(|set x | x in xs|))
    case StringAgg =>
      if xs == [] then cell == Null
      else exists k: nat :: StartsAt(xs, k) && cell == Val(Text(Separated(xs[k..])))
    case _ => true
  }

  // ----- totals -----

  lemma {:induction false} TotalOfReals(xs: seq<real>)
    ensures SumOf(Decs(xs)) == RealTotal(xs)
  {
    if xs != [] {
      TotalOfReals(xs[..|xs| - 1]);
      assert Decs(xs)[..|xs| - 1] == Decs(xs[..|xs| - 1]);
    }
  }

  lemma {:induction false} TotalOfInts(xs: seq<int>)
    ensures IntSumOf(Ints(xs)) == IntTotal(xs) && SumOf(Ints(xs)) == IntTotal(xs) as real
  {
    if xs != [] {
      TotalOfInts(xs[..|xs| - 1]);
      assert Ints(xs)[..|xs| - 1] == Ints(xs[..|xs| - 1]);
    }
  }

  lemma {:induction false} ErrorsOfReals(xs: seq<real>, m: real)
    ensures SquaredDistances(Decs(xs), m) == SquaredErrors(xs, m)
  {
    if xs != [] {
      ErrorsOfReals(xs[..|xs| - 1], m);
      assert Decs(xs)[..|xs| - 1] == Decs(xs[..|xs| - 1]);
    }
  }

  function AsReals(xs: seq<int>): (r: seq<real>)
    ensures |r| == |xs| && forall k :: 0 <= k < |r| ==> r[k] == xs[k] as real
  {
    Map((x: int) => x as real, xs)
  }

  lemma {:induction false} ErrorsOfInts(xs: seq<int>, m: real)
    ensures SquaredDistances(Ints(xs), m) == SquaredErrors(AsReals(xs), m)
  {
    if xs != [] {
      ErrorsOfInts(xs[..|xs| - 1], m);
      assert Ints(xs)[..|xs| - 1] == Ints(xs[..|xs| - 1]);
      assert AsReals(xs)[..|xs| - 1] == AsReals(xs[..|xs| - 1]);
    }
  }

  lemma {:induction false} TotalAsReals(xs: seq<int>)
    ensures RealTotal(AsReals(xs)) == IntTotal(xs) as real
  {
    if xs != [] {
      TotalAsReals(xs[..|xs| - 1]);
      assert AsReals(xs)[..|xs| - 1] == AsReals(xs[..|xs| - 1]);
    }
  }

  // ----- distinct values -----

  lemma InImage<T(!new)>(f: T -> Value, xs: seq<T>, x: T)
    requires forall x, y :: f(x) == f(y) ==> x == y
    ensures f(x) in Map(f, xs) <==> x in xs
  {
    if f(x) in Map(f, xs) {
      var y := MapSource(f, xs, f(x));
    }
    if x in xs {
      var k :| 0 <= k < |xs| && xs[k] == x;
      assert Map(f, xs)[k] == f(x);
    }
  }

  function Distinct<T>(xs: seq<T>): set<T> {
    set x | x in xs
  }

  lemma DistinctSnoc<T(!new)>(xs: seq<T>, x: T)
    ensures |Distinct(xs + [x])| == |Distinct(xs)| + if x in xs then 0 else 1
  {
    assert Distinct(xs + [x]) == Distinct(xs) + {x};
    if x in xs {
      assert Distinct(xs) + {x} == Distinct(xs);
    }
  }

  lemma DistinctValues(vs: seq<Value>)
    ensures SetOf(vs) == Distinct(vs)
  {}

  lemma {:induction false} DistinctImage<T(!new)>(f: T -> Value, xs: seq<T>)
    requires forall x, y :: f(x) == f(y) ==> x == y
    ensures |Distinct(Map(f, xs))| == |Distinct(xs)|
  {
    if xs == [] {
      assert Distinct(Map(f, xs)) == {} && Distinct(xs) == {};
    } else {
      var front, last := xs[..|xs| - 1], xs[|xs| - 1];
      DistinctImage(f, front);
      MapLast(f, xs);
      assert xs == front + [last];
      InImage(f, front, last);
      DistinctSnoc(front, last);
      DistinctSnoc(Map(f, front), f(last));
    }
  }

  lemma DistinctCount<T(!new)>(f: T -> Value, xs: seq<T>)
    requires forall x, y :: f(x) == f(y) ==> x == y
    ensures |SetOf(Map(f, xs))| == |set x | x in xs|
  {
    DistinctImage(f, xs);
    DistinctValues(Map(f, xs));
    assert Distinct(xs) == set x | x in xs;
  }

  // ----- strings -----

  lemma {:induction false} SeparatedSnoc(texts: seq<seq<Byte>>, last: seq<Byte>)
    requires texts != []
    ensures Separated(texts + [last]) == Separated(texts) + [44] + last
  {
    var all := texts + [last];
    assert all[1..] == texts[1..] + [last];
    if |texts| == 1 {
      assert all[1..] == [last];
    } else {
      SeparatedSnoc(texts[1..], last);
      AppendAssociates(texts[0] + [44], Separated(texts[1..]), [44] + last);
      AppendAssociates(Separated(texts[1..]), [44], last);
      AppendAssociates(Separated(texts), [44], last);
    }
  }

  lemma {:induction false} JoinedIsSeparated(texts: seq<seq<Byte>>)
    ensures JoinedWithComma(Texts(texts)) == Separated(texts)
  {
    if |texts| > 1 {
      var front, last := texts[..|texts| - 1], texts[|texts| - 1];
      JoinedIsSeparated(front);
      assert Texts(texts)[..|texts| - 1] == Texts(front);
      assert texts == front + [last];
      SeparatedSnoc(front, last);
    }
  }

  lemma {:induction false} DroppedTexts(texts: seq<seq<Byte>>) returns (k: nat)
    requires texts != []
    ensures StartsAt(texts, k) && DropLeadingEmpty(Texts(texts)) == Texts(texts[k..])
  {
    if |texts| > 1 && texts[0] == [] {
      var j := DroppedTexts(texts[1..]);
      assert Texts(texts)[1..] == Texts(texts[1..]);
      k := j + 1;
      assert texts[k..] == texts[1..][j..];
      StartsLater(texts, j);
    } else {
      k := 0;
      assert texts[0..] == texts;
    }
  }

  lemma StartsLater(texts: seq<seq<Byte>>, j: nat)
    requires |texts| > 1 && texts[0] == [] && StartsAt(texts[1..], j)
    ensures StartsAt(texts, j + 1)
  {
    forall m | 0 <= m < j + 1
      ensures texts[m] == []
    {
      assert m > 0 ==> texts[1..][m - 1] == [];
    }
  }

  // ----- the aggregates -----

  lemma RealExtremum(xs: seq<real>, cell: Cell)
    requires xs != []
    ensures IsAggregate(Min, Decs(xs), cell) ==> IsRealAggregate(Min, xs, cell)
    ensures IsAggregate(Max, Decs(xs), cell) ==> IsRealAggregate(Max, xs, cell)
  {
    if cell.Val? && cell.v in Decs(xs) {
      var m := MapSource((x: real) => Dec(x), xs, cell.v);
      forall x | x in xs
        ensures Dec(x) in Decs(xs)
        ensures Less(Dec(x), cell.v) <==> x < m
        ensures Less(cell.v, Dec(x)) <==> m < x
      {
        var k :| 0 <= k < |xs| && xs[k] == x;
        assert Decs(xs)[k] == Dec(x);
        LessExact(Dec(x), cell.v);
        LessExact(cell.v, Dec(x));
      }
    }
  }

  /** Over a column of fractions. */
  lemma RealAggregates(f: AggregateFunction, xs: seq<real>, cell: Cell)
    requires IsAggregate(f, Decs(xs), cell)
    ensures IsRealAggregate(f, xs, cell)
  {
    match f
    case Min | Max => if xs != [] { RealExtremum(xs, cell); }
    case Sum | Avg => TotalOfReals(xs);
    case Count =>
    case CountDistinct => DistinctCount((x: real) => Dec(x), xs);
    case StdDevSample => RealVariance(xs);
    case StringAgg => NoTexts(xs);
  }

  lemma NoTexts(xs: seq<real>)
    ensures AllText(Decs(xs)) ==> xs == []
  {
    assert xs != [] ==> !Decs(xs)[0].Text?;
  }

  lemma RealVariance(xs: seq<real>)
    ensures |xs| > 1 ==>
              SampleVariance(Decs(xs)) == SquaredErrors(xs, RealTotal(xs) / |xs| as real) / (|xs| - 1) as real
  {
    TotalOfReals(xs);
    if |xs| > 1 {
      ErrorsOfReals(xs, RealTotal(xs) / |xs| as real);
    }
  }

  lemma IntExtremum(xs: seq<int>, cell: Cell)
    requires xs != []
    ensures IsAggregate(Min, Ints(xs), cell) ==> IsIntAggregate(Min, xs, cell)
    ensures IsAggregate(Max, Ints(xs), cell) ==> IsIntAggregate(Max, xs, cell)
  {
    if cell.Val? && cell.v in Ints(xs) {
      var m := MapSource((x: int) => Int(x), xs, cell.v);
      forall x | x in xs
        ensures Int(x) in Ints(xs)
        ensures Less(Int(x), cell.v) <==> x < m
        ensures Less(cell.v, Int(x)) <==> m < x
      {
        var k :| 0 <= k < |xs| && xs[k] == x;
        assert Ints(xs)[k] == Int(x);
        LessExact(Int(x), cell.v);
        LessExact(cell.v, Int(x));
      }
    }
  }

  lemma IntVariance(xs: seq<int>)
    requires |xs| > 1
    ensures var m := RealTotal(AsReals(xs)) / |xs| as real;
            SampleVariance(Ints(xs)) == SquaredErrors(AsReals(xs), m) / (|xs| - 1) as real
  {
    TotalOfInts(xs);
    TotalAsReals(xs);
    ErrorsOfInts(xs, RealTotal(AsReals(xs)) / |xs| as real);
  }

  /** Over a column of integers. */
  lemma IntAggregates(f: AggregateFunction, xs: seq<int>, cell: Cell)
    requires IsAggregate(f, Ints(xs), cell)
    ensures IsIntAggregate(f, xs, cell)
  {
    match f
    case Min | Max => if xs != [] { IntExtremum(xs, cell); }
    case Sum | Avg => TotalOfInts(xs);
    case Count =>
    case CountDistinct => DistinctCount((x: int) => Int(x), xs);
    case StdDevSample => IntDeviation(xs, cell);
    case StringAgg => NoIntTexts(xs);
  }

  lemma NoIntTexts(xs: seq<int>)
    ensures AllText(Ints(xs)) ==> xs == []
  {
    assert xs != [] ==> !Ints(xs)[0].Text?;
  }

  lemma IntDeviation(xs: seq<int>, cell: Cell)
    requires IsAggregate(StdDevSample, Ints(xs), cell)
    ensures IsIntAggregate(StdDevSample, xs, cell)
  {
    if |xs| > 1 {
      IntVariance(xs);
    }
    assert Map((x: int) => x as real, xs) == AsReals(xs);
  }

  lemma TextExtremum(xs: seq<seq<Byte>>, cell: Cell)
    requires xs != []
    ensures IsAggregate(Min, Texts(xs), cell) ==> IsTextAggregate(Min, xs, cell)
    ensures IsAggregate(Max, Texts(xs), cell) ==> IsTextAggregate(Max, xs, cell)
  {
    if cell.Val? && cell.v in Texts(xs) {
      var m := MapSource((x: seq<Byte>) => Text(x), xs, cell.v);
      forall x | x in xs
        ensures Text(x) in Texts(xs)
        ensures Less(Text(x), cell.v) <==> TextBefore(x, m)
        ensures Less(cell.v, Text(x)) <==> TextBefore(m, x)
      {
        var k :| 0 <= k < |xs| && xs[k] == x;
        assert Texts(xs)[k] == Text(x);
        LessExact(Text(x), cell.v);
        LessExact(cell.v, Text(x));
      }
    }
  }

  /** Over a column of strings, on which sums, averages and deviations are refused. */
  lemma TextAggregates(f: AggregateFunction, xs: seq<seq<Byte>>, cell: Cell)
    requires IsAggregate(f, Texts(xs), cell)
    ensures IsTextAggregate(f, xs, cell)
  {
    match f
    case Min | Max => if xs != [] { TextExtremum(xs, cell); }
    case CountDistinct => DistinctCount((x: seq<Byte>) => Text(x), xs);
    case StringAgg => if xs != [] { TextsSeparated(xs, cell); }
    case _ =>
  }

  lemma TextsSeparated(xs: seq<seq<Byte>>, cell: Cell)
    requires xs != [] && IsAggregate(StringAgg, Texts(xs), cell)
    ensures IsTextAggregate(StringAgg, xs, cell)
  {
    var k := DroppedTexts(xs);
    JoinedIsSeparated(xs[k..]);
  }

  /** STRING_AGG of two strings: a comma between them, unless the first one is empty. */
  lemma TwoTexts(a: seq<Byte>, b: seq<Byte>, cell: Cell)
    requires IsAggregate(StringAgg, [Text(a), Text(b)], cell)
    ensures cell == Val(Text(if a == [] then b else a + [44] + b))
  {
    var texts := [a, b];
    assert Texts(texts) == [Text(a), Text(b)];
    TextsSeparated(texts, cell);
    var k: nat :| StartsAt(texts, k) && cell == Val(Text(Separated(texts[k..])));
    assert texts[0] == a && texts[1] == b;
    if a == [] {
      assert k == 1 && texts[1..] == [b];
    } else {
      assert k == 0 && texts[0..] == [a] + [b];
      SeparatedSnoc([a], b);
    }
  }

  // ----- the groups of a table -----

  /** The rows of a group that hold a value in column c. */
  function Holding(t: Table, columns: seq<nat>, c: nat, group: Row): RowId -> bool {
    p => GroupRow(t, columns, p) == group && CellAt(t, p, c) != Null
  }

  function Members(t: Table, columns: seq<nat>, c: nat, group: Row): seq<RowId> {
    Filter(Holding(t, columns, c, group), Positions(ChunkSizes(t)))
  }

  function RealAt(t: Table, c: nat): RowId -> real {
    p => match CellAt(t, p, c) case Val(Dec(r)) => r case _ => 0.0
  }

  function IntAt(t: Table, c: nat): RowId -> int {
    p => match CellAt(t, p, c) case Val(Int(i)) => i case _ => 0
  }

  function TextAt(t: Table, c: nat): RowId -> seq<Byte> {
    p => match CellAt(t, p, c) case Val(Text(s)) => s case _ => []
  }

  function ValueAt(t: Table, c: nat): RowId -> Value {
    p => match CellAt(t, p, c) case Val(v) => v case Null => Int(0)
  }

  lemma PairsNext(t: Table, columns: seq<nat>, f: AggregateFunction, c: nat, front: seq<RowId>, p: RowId, group: Row)
    ensures PairValues(PairsIn(t, columns, OfColumn(f, c), front + [p], group)) ==
            PairValues(PairsIn(t, columns, OfColumn(f, c), front, group)) +
            if Holding(t, columns, c, group)(p) then [ValueAt(t, c)(p)] else []
  {
    assert (front + [p])[..|front|] == front;
    if Holding(t, columns, c, group)(p) {
      PairValuesSnoc(PairsIn(t, columns, OfColumn(f, c), front, group), Pair(p, CellAt(t, p, c).v));
    }
  }

  lemma {:induction false} GroupValues(t: Table, columns: seq<nat>, f: AggregateFunction, c: nat, ps: seq<RowId>,
                                       group: Row)
    ensures PairValues(PairsIn(t, columns, OfColumn(f, c), ps, group)) ==
            Map(ValueAt(t, c), Filter(Holding(t, columns, c, group), ps))
  {
    if ps != [] {
      var front, p := ps[..|ps| - 1], ps[|ps| - 1];
      GroupValues(t, columns, f, c, front, group);
      PairsNext(t, columns, f, c, front, p, group);
      KeptNext(Holding(t, columns, c, group), ValueAt(t, c), front, p);
      assert ps == front + [p];
    }
  }

  lemma KeptNext<T>(keep: RowId -> bool, f: RowId -> T, front: seq<RowId>, p: RowId)
    ensures Map(f, Filter(keep, front + [p])) == Map(f, Filter(keep, front)) + if keep(p) then [f(p)] else []
  {
    FilterSnoc(keep, front, p);
  }

  lemma MemberTyped(t: Table, columns: seq<nat>, c: nat, group: Row, p: RowId)
    requires TypedTable(t) && c < |t.definitions| && p in Members(t, columns, c, group)
    ensures CellAt(t, p, c).Val? && HasType(CellAt(t, p, c).v, t.definitions[c].dataType)
  {
    TypedCell(t, p, c);
  }

  /** The cell of an aggregate over column c for a group, as the operator leaves it. */
  ghost predicate CellOfGroup(t: Table, columns: seq<nat>, f: AggregateFunction, c: nat, group: Row, cell: Cell) {
    IsAggregateOf(t, OfColumn(f, c), PairsIn(t, columns, OfColumn(f, c), Positions(ChunkSizes(t)), group), cell)
  }

  /** The aggregates of a column of fractions. */
  lemma RealColumn(t: Table, columns: seq<nat>, f: AggregateFunction, c: nat, group: Row, cell: Cell)
    requires TypedTable(t) && c < |t.definitions| && CellOfGroup(t, columns, f, c, group, cell)
    requires t.definitions[c].dataType == FloatType || t.definitions[c].dataType == DoubleType
    ensures IsRealAggregate(f, Map(RealAt(t, c), Members(t, columns, c, group)), cell)
  {
    var ps := Members(t, columns, c, group);
    GroupValues(t, columns, f, c, Positions(ChunkSizes(t)), group);
    forall k | 0 <= k < |ps|
      ensures ValueAt(t, c)(ps[k]) == Dec(RealAt(t, c)(ps[k]))
    {
      assert ps[k] in ps;
      MemberTyped(t, columns, c, group, ps[k]);
    }
    assert Map(ValueAt(t, c), ps) == Decs(Map(RealAt(t, c), ps));
    RealAggregates(f, Map(RealAt(t, c), ps), cell);
  }

  /** The aggregates of a column of integers. */
  lemma IntColumnCell(t: Table, columns: seq<nat>, f: AggregateFunction, c: nat, group: Row, cell: Cell)
    requires TypedTable(t) && c < |t.definitions| && CellOfGroup(t, columns, f, c, group, cell)
    requires t.definitions[c].dataType == IntType || t.definitions[c].dataType == LongType
    ensures IsIntAggregate(f, Map(IntAt(t, c), Members(t, columns, c, group)), cell)
  {
    var ps := Members(t, columns, c, group);
    GroupValues(t, columns, f, c, Positions(ChunkSizes(t)), group);
    forall k | 0 <= k < |ps|
      ensures ValueAt(t, c)(ps[k]) == Int(IntAt(t, c)(ps[k]))
    {
      assert ps[k] in ps;
      MemberTyped(t, columns, c, group, ps[k]);
    }
    assert Map(ValueAt(t, c), ps) == Ints(Map(IntAt(t, c), ps));
    IntAggregates(f, Map(IntAt(t, c), ps), cell);
  }

  /** The aggregates of a column of strings. */
  lemma TextColumn(t: Table, columns: seq<nat>, f: AggregateFunction, c: nat, group: Row, cell: Cell)
    requires TypedTable(t) && c < |t.definitions| && CellOfGroup(t, columns, f, c, group, cell)
    requires t.definitions[c].dataType == StringType
    ensures IsTextAggregate(f, Map(TextAt(t, c), Members(t, columns, c, group)), cell)
  {
    var ps := Members(t, columns, c, group);
    GroupValues(t, columns, f, c, Positions(ChunkSizes(t)), group);
    forall k | 0 <= k < |ps|
      ensures ValueAt(t, c)(ps[k]) == Text(TextAt(t, c)(ps[k]))
    {
      assert ps[k] in ps;
      MemberTyped(t, columns, c, group, ps[k]);
    }
    assert Map(ValueAt(t, c), ps) == Texts(Map(TextAt(t, c), ps));
    TextAggregates(f, Map(TextAt(t, c), ps), cell);
  }
}
