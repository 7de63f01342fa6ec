/** The accumulators of AggregateFunctionBuilder, what is written for them, and what they compute. */
module Aggregates {
  import opened Sequences
  import opened Storage

  datatype AggregateFunction = Min | Max | Sum | Avg | Count | CountDistinct | StdDevSample | StringAgg

  datatype Accumulator =
    | Nothing
    | Extremum(v: Value)
    | Total(sum: Value)
    | Distinct(values: set<Value>)
    | Spread(count: nat, mean: real, squaredDistance: real, variance: real)
    | Strings(pairs: seq<Pair>)

  const COMMA: Byte := 44

  function Number(v: Value): real {
    match v
    case Int(i) => i as real
    case Dec(r) => r
    case Text(_) => 0.0
  }

  lemma NumberExact(i: int, r: real)
    ensures Number(Int(i)) == i as real && Number(Dec(r)) == r
  {}

  /** Integers are summed as integers. */
  function Plus(a: Value, b: Value): Value {
    if a.Int? && b.Int? then Int(a.i + b.i) else Dec(Number(a) + Number(b))
  }

  function Bytes(v: Value): seq<Byte> {
    if v.Text? then v.bytes else []
  }

  function Init(f: AggregateFunction): Accumulator {
    match f
    case Min | Max => Extremum(Int(0))
    case Sum => Total(Int(0))
    case Avg => Total(Dec(0.0))
    case Count => Nothing
    case CountDistinct => Distinct({})
    case StdDevSample => Spread(0, 0.0, 0.0, 0.0)
    case StringAgg => Strings([])
  }

  /** Welford's update; the source keeps the root of `variance`. */
  function WelfordStep(acc: Accumulator, x: real): Accumulator
    requires acc.Spread?
  {
    var count := acc.count + 1;
    var mean := NextMean(acc.mean, count, x);
    var squaredDistance := acc.squaredDistance + (x - acc.mean) * (x - mean);
    Spread(count, mean, squaredDistance, if count > 1 then squaredDistance / (count - 1) as real else acc.variance)
  }

  function NextMean(mean: real, count: nat, x: real): real
    requires count > 0
  {
    mean + (x - mean) / count as real
  }

  /** The aggregator refuses the value: STRING_AGG takes strings only. */
  predicate Refuses(f: AggregateFunction, cell: Cell) {
    f.StringAgg? && cell.Val? && !cell.v.Text?
  }

  /** The aggregator call for one non-NULL value of a row; `count` values came before it. */
  function Step(f: AggregateFunction, acc: Accumulator, count: nat, pair: Pair): Accumulator {
    var v := pair.value;
    match (f, acc)
    case (Min, Extremum(m)) => if count == 0 || Less(v, m) then Extremum(v) else acc
    case (Max, Extremum(m)) => if count == 0 || Less(m, v) then Extremum(v) else acc
    case (Sum, Total(s)) => Total(Plus(s, v))
    case (Avg, Total(s)) => Total(Plus(s, v))
    case (CountDistinct, Distinct(vs)) => Distinct(vs + {v})
    case (StdDevSample, Spread(_, _, _, _)) => WelfordStep(acc, Number(v))
    case (StringAgg, Strings(pairs)) => Strings(pairs + [pair])
    case _ => acc
  }

  /** The unordered STRING_AGG: a comma goes in front of a value unless the text so far is empty. */
  function Concatenated(list: seq<Value>): seq<Byte> {
    if list == [] then []
    else
      var front := Concatenated(list[..|list| - 1]);
      (if front != [] then front + [COMMA] else []) + Bytes(list[|list| - 1])
  }

  /** What WriteAggregateValues writes for one result. */
  function Finish(f: AggregateFunction, acc: Accumulator, count: nat): Cell {
    match (f, acc)
    case (Count, _) => Val(Int(count))
    case (CountDistinct, Distinct(vs)) => Val(Int(|vs|))
    case (Min, Extremum(m)) => if count > 0 then Val(m) else Null
    case (Max, Extremum(m)) => if count > 0 then Val(m) else Null
    case (Sum, Total(s)) => if count > 0 then Val(s) else Null
    case (Avg, Total(s)) => if count > 0 then Val(Dec(Number(s) / count as real)) else Null
    case (StdDevSample, Spread(_, _, _, variance)) => if count > 1 then Val(Dec(variance)) else Null
    case (StringAgg, Strings(pairs)) => if count > 0 then Val(Text(Concatenated(PairValues(pairs)))) else Null
    case _ => Null
  }

  function Fold(f: AggregateFunction, pairs: seq<Pair>): Accumulator {
    if pairs == [] then Init(f)
    else
      var n := |pairs| - 1;
      Step(f, Fold(f, pairs[..n]), n, pairs[n])
  }

  lemma FoldSnoc(f: AggregateFunction, pairs: seq<Pair>, pair: Pair)
    ensures Fold(f, pairs + [pair]) == Step(f, Fold(f, pairs), |pairs|, pair)
  {
    assert (pairs + [pair])[..|pairs|] == pairs;
  }

  // ----- what the aggregates mean -----

  function SumOf(vs: seq<Value>): real {
    if vs == [] then 0.0 else SumOf(vs[..|vs| - 1]) + Number(vs[|vs| - 1])
  }

  predicate AllInts(vs: seq<Value>) {
    forall k :: 0 <= k < |vs| ==> vs[k].Int?
  }

  function IntSumOf(vs: seq<Value>): int
    requires AllInts(vs)
  {
    if vs == [] then 0 else IntSumOf(vs[..|vs| - 1]) + vs[|vs| - 1].i
  }

  /** SQL's sum: an integer for integers. */
  function SumValue(vs: seq<Value>): Value {
    if AllInts(vs) then Int(IntSumOf(vs)) else Dec(SumOf(vs))
  }

  lemma {:induction false} SumValueIsSum(vs: seq<Value>)
    ensures Number(SumValue(vs)) == SumOf(vs)
  {
    if AllInts(vs) && vs != [] {
      SumValueIsSum(vs[..|vs| - 1]);
    }
  }

  function SetOf(vs: seq<Value>): set<Value> {
    set v | v in vs
  }

  /** The sum of the squared distances from m. */
  function SquaredDistances(vs: seq<Value>, m: real): real {
    if vs == [] then 0.0
    else
      var d := Number(vs[|vs| - 1]) - m;
      SquaredDistances(vs[..|vs| - 1], m) + d * d
  }

  /** Two-pass sample variance. */
  function SampleVariance(vs: seq<Value>): real
    requires |vs| > 1
  {
    SquaredDistances(vs, SumOf(vs) / |vs| as real) / (|vs| - 1) as real
  }

  /** SQL's text: the values with commas between them. */
  function JoinedWithComma(list: seq<Value>): seq<Byte> {
    if list == [] then []
    else if |list| == 1 then Bytes(list[0])
    else JoinedWithComma(list[..|list| - 1]) + [COMMA] + Bytes(list[|list| - 1])
  }

  /** The list after its leading empty strings; the last value stays. */
  function DropLeadingEmpty(list: seq<Value>): seq<Value> {
    if |list| > 1 && Bytes(list[0]) == [] then DropLeadingEmpty(list[1..]) else list
  }

  /** The aggregate of a group's non-NULL values. */
  ghost predicate IsAggregate(f: AggregateFunction, vs: seq<Value>, cell: Cell) {
    match f
    case Min => if vs == [] then cell == Null else cell.Val? && cell.v in vs && forall x :: x in vs ==> !Less(x, cell.v)
    case Max => if vs == [] then cell == Null else cell.Val? && cell.v in vs && forall x :: x in vs ==> !Less(cell.v, x)
    case Sum => cell == if vs == [] then Null else Val(SumValue(vs))
    case Avg => cell == if vs == [] then Null else Val(Dec(SumOf(vs) / |vs| as real))
    case Count => cell == Val(Int(|vs|))
    case CountDistinct => cell == Val(Int(|SetOf(vs)|))
    case StdDevSample => cell == if |vs| <= 1 then Null else Val(Dec(SampleVariance(vs)))
    case StringAgg => AllText(vs) && cell == if vs == [] then Null else Val(Text(JoinedWithComma(DropLeadingEmpty(vs))))
  }

  predicate AllText(vs: seq<Value>) {
    forall k :: 0 <= k < |vs| ==> vs[k].Text?
  }

  lemma ExtremumFold(pairs: seq<Pair>)
    requires pairs != []
    ensures var a, vs := Fold(Min, pairs), PairValues(pairs);
            a.Extremum? && a.v in vs && forall x :: x in vs ==> !Less(x, a.v)
    ensures var a, vs := Fold(Max, pairs), PairValues(pairs);
            a.Extremum? && a.v in vs && forall x :: x in vs ==> !Less(a.v, x)
  {
    OrderLaws();
    var n := |pairs| - 1;
    assert pairs == pairs[..n] + [pairs[n]];
    PairValuesSnoc(pairs[..n], pairs[n]);
    if n > 0 {
      ExtremumFold(pairs[..n]);
    }
  }

  lemma {:induction false} SumFold(pairs: seq<Pair>)
    ensures Fold(Sum, pairs) == Total(SumValue(PairValues(pairs)))
    ensures Fold(Avg, pairs) == Total(Dec(SumOf(PairValues(pairs))))
  {
    if pairs != [] {
      var n := |pairs| - 1;
      SumFold(pairs[..n]);
      PairValuesFront(pairs);
      SumValueNext(PairValues(pairs));
    }
  }

  lemma SumValueNext(vs: seq<Value>)
    requires vs != []
    ensures SumValue(vs) == Plus(SumValue(vs[..|vs| - 1]), vs[|vs| - 1])
  {
    SumValueIsSum(vs[..|vs| - 1]);
  }

  lemma SetSnoc(vs: seq<Value>)
    requires vs != []
    ensures SetOf(vs) == SetOf(vs[..|vs| - 1]) + {vs[|vs| - 1]}
  {
    assert vs == vs[..|vs| - 1] + [vs[|vs| - 1]];
  }

  lemma {:induction false} DistinctFold(pairs: seq<Pair>)
    ensures Fold(CountDistinct, pairs) == Distinct(SetOf(PairValues(pairs)))
  {
    if pairs != [] {
      var n := |pairs| - 1;
      DistinctFold(pairs[..n]);
      PairValuesFront(pairs);
      SetSnoc(PairValues(pairs));
    }
  }

  /** Moving the reference point of the squared distances. */
  lemma {:induction false} ShiftDistances(vs: seq<Value>, m: real, e: real)
    ensures SquaredDistances(vs, m + e) ==
            SquaredDistances(vs, m) - 2.0 * e * (SumOf(vs) - m * |vs| as real) + e * e * |vs| as real
  {
    if vs != [] {
      var n := |vs| - 1;
      var k := n as real;
      ShiftDistances(vs[..n], m, e);
      var d := Number(vs[n]) - m;
      var s := SumOf(vs[..n]);
      assert (d - e) * (d - e) == d * d - 2.0 * e * d + e * e;
      assert |vs| as real == k + 1.0;
      assert 2.0 * e * (s - m * k) + 2.0 * e * d == 2.0 * e * (s + Number(vs[n]) - m * (k + 1.0));
    }
  }

  ghost predicate Summarises(acc: Accumulator, vs: seq<Value>) {
    && acc.Spread? && acc.count == |vs|
    && acc.mean * |vs| as real == SumOf(vs)
    && acc.squaredDistance == SquaredDistances(vs, acc.mean)
    && (|vs| > 1 ==> acc.variance == acc.squaredDistance / (|vs| - 1) as real)
  }

  /** With e the change of the mean and d the distance of x from the new mean: d is n times e. */
  lemma MeanUpdate(count: nat, sum: real, mean: real, x: real) returns (e: real, d: real)
    requires count > 0 && mean * (count - 1) as real == sum
    ensures NextMean(mean, count, x) == mean + e && d == x - (mean + e) && x - mean == d + e
    ensures (mean + e) * count as real == sum + x
    ensures d == (count - 1) as real * e
  {
    var n := (count - 1) as real;
    e := (x - mean) / count as real;
    d := x - (mean + e);
    assert count as real == n + 1.0;
    assert x - mean == (n + 1.0) * e == n * e + e;
    assert (mean + e) * (n + 1.0) == mean * n + mean + (n + 1.0) * e;
  }

  lemma ShiftFromMean(vs: seq<Value>, mean: real, e: real, d: real)
    requires mean * |vs| as real == SumOf(vs) && d == |vs| as real * e
    ensures SquaredDistances(vs, mean + e) == SquaredDistances(vs, mean) + e * d
  {
    ShiftDistances(vs, mean, e);
    assert SumOf(vs) - mean * |vs| as real == 0.0;
    assert 2.0 * e * 0.0 == 0.0;
    assert e * e * |vs| as real == e * d;
  }

  lemma DistancesSnoc(vs: seq<Value>, n: nat, m: real, d: real)
    requires n + 1 == |vs| && d == Number(vs[n]) - m
    ensures SquaredDistances(vs, m) == SquaredDistances(vs[..n], m) + d * d
  {}

  lemma StepFields(acc: Accumulator, x: real, e: real, d: real)
    requires acc.Spread? && NextMean(acc.mean, acc.count + 1, x) == acc.mean + e
    requires x - acc.mean == d + e && d == x - (acc.mean + e)
    ensures var next := WelfordStep(acc, x);
            && next.count == acc.count + 1 && next.mean == acc.mean + e
            && next.squaredDistance == acc.squaredDistance + (d + e) * d
            && (next.count > 1 ==> next.variance == next.squaredDistance / acc.count as real)
  {}

  lemma Distances(acc: Accumulator, vs: seq<Value>, n: nat, e: real, d: real, next: Accumulator)
    requires n + 1 == |vs| && Summarises(acc, vs[..n])
    requires d == n as real * e && d == Number(vs[n]) - (acc.mean + e)
    requires next.Spread? && next.squaredDistance == acc.squaredDistance + (d + e) * d
    ensures next.squaredDistance == SquaredDistances(vs, acc.mean + e)
  {
    ShiftFromMean(vs[..n], acc.mean, e, d);
    DistancesSnoc(vs, n, acc.mean + e, d);
    assert (d + e) * d == d * d + e * d;
  }

  lemma WelfordStepSummarises(acc: Accumulator, vs: seq<Value>, n: nat)
    requires n + 1 == |vs| && Summarises(acc, vs[..n])
    ensures Summarises(WelfordStep(acc, Number(vs[n])), vs)
  {
    var x := Number(vs[n]);
    var e, d := MeanUpdate(|vs|, SumOf(vs[..n]), acc.mean, x);
    StepFields(acc, x, e, d);
    Distances(acc, vs, n, e, d, WelfordStep(acc, x));
  }

  /** After n values the accumulator holds n, the mean and the sum of squared distances from it. */
  lemma {:induction false} WelfordInvariant(pairs: seq<Pair>)
    ensures Summarises(Fold(StdDevSample, pairs), PairValues(pairs))
  {
    if pairs != [] {
      var n := |pairs| - 1;
      WelfordInvariant(pairs[..n]);
      PairValuesFront(pairs);
      WelfordStepSummarises(Fold(StdDevSample, pairs[..n]), PairValues(pairs), n);
    }
  }

  lemma Quotient(a: real, n: real, b: real)
    requires n > 0.0 && a * n == b
    ensures a == b / n
  {}

  lemma WelfordIsSampleVariance(pairs: seq<Pair>)
    requires |pairs| > 1
    ensures var acc := Fold(StdDevSample, pairs); acc.Spread? && acc.variance == SampleVariance(PairValues(pairs))
  {
    WelfordInvariant(pairs);
    SummarisedVariance(Fold(StdDevSample, pairs), PairValues(pairs));
  }

  lemma SummarisedVariance(acc: Accumulator, vs: seq<Value>)
    requires Summarises(acc, vs) && |vs| > 1
    ensures acc.variance == SampleVariance(vs)
  {
    Quotient(acc.mean, |vs| as real, SumOf(vs));
  }

  /** STRING_AGG keeps every value with its row, in the order of the calls. */
  lemma {:induction false} StringsFold(pairs: seq<Pair>)
    ensures Fold(StringAgg, pairs) == Strings(pairs)
  {
    if pairs != [] {
      StringsFold(pairs[..|pairs| - 1]);
      assert pairs == pairs[..|pairs| - 1] + [pairs[|pairs| - 1]];
    }
  }

  lemma {:induction false} ConcatenatedSkipsEmpty(list: seq<Value>, v: Value)
    requires Bytes(v) == []
    ensures Concatenated([v] + list) == Concatenated(list)
  {
    var all := [v] + list;
    if list == [] {
      assert all[..0] == [];
    } else {
      ConcatenatedSkipsEmpty(list[..|list| - 1], v);
      assert all[..|all| - 1] == [v] + list[..|list| - 1];
    }
  }

  lemma {:induction false} ConcatenatedJoins(list: seq<Value>)
    requires list != [] && Bytes(list[0]) != []
    ensures Concatenated(list) == JoinedWithComma(list) && Concatenated(list) != []
  {
    if |list| > 1 {
      ConcatenatedJoins(list[..|list| - 1]);
    } else {
      assert list[..0] == [];
    }
  }

  /** The written text is SQL's for the list without its leading empty strings. */
  lemma {:induction false} ConcatenatedExact(list: seq<Value>)
    requires list != []
    ensures Concatenated(list) == JoinedWithComma(DropLeadingEmpty(list))
  {
    if Bytes(list[0]) != [] {
      ConcatenatedJoins(list);
    } else if |list| > 1 {
      ConcatenatedSkipsEmpty(list[1..], list[0]);
      assert list == [list[0]] + list[1..];
      ConcatenatedExact(list[1..]);
    } else {
      assert list[..0] == [];
    }
  }

  lemma {:induction false} JoinedLength(list: seq<Value>)
    requires list != []
    ensures |JoinedWithComma(list)| >= |list| - 1
    ensures |list| > 1 ==> |JoinedWithComma(list)| == |Bytes(list[0])| + 1 + |JoinedWithComma(list[1..])|
  {
    if |list| > 1 {
      JoinedLength(list[..|list| - 1]);
      assert list[1..][..|list| - 2] == list[..|list| - 1][1..];
    }
  }

  lemma {:induction false} DroppedIsShorter(list: seq<Value>)
    requires list != []
    ensures DropLeadingEmpty(list) != []
    ensures |JoinedWithComma(DropLeadingEmpty(list))| <= |JoinedWithComma(list)|
  {
    if |list| > 1 && Bytes(list[0]) == [] {
      DroppedIsShorter(list[1..]);
      JoinedLength(list);
    }
  }

  /** STRING_AGG loses commas exactly when the first of several values is empty. */
  lemma {:induction false} StringAggExact(vs: seq<Value>)
    requires vs != []
    ensures Concatenated(vs) == JoinedWithComma(vs) <==> |vs| == 1 || Bytes(vs[0]) != []
  {
    ConcatenatedExact(vs);
    if |vs| > 1 && Bytes(vs[0]) == [] {
      DroppedIsShorter(vs[1..]);
      JoinedLength(vs);
    }
  }

  /** Every accumulator, finished, is the aggregate of the values it was fed, none of which was refused. */
  lemma FoldIsAggregate(f: AggregateFunction, pairs: seq<Pair>)
    requires f.StringAgg? ==> AllText(PairValues(pairs))
    ensures IsAggregate(f, PairValues(pairs), Finish(f, Fold(f, pairs), |pairs|))
  {
    match f
    case Min | Max => if pairs != [] { ExtremumFold(pairs); }
    case Sum | Avg => SumFold(pairs);
    case Count =>
    case CountDistinct => DistinctFold(pairs);
    case StdDevSample => SpreadIsAggregate(pairs);
    case StringAgg => StringsAreAggregate(pairs);
  }

  lemma SpreadIsAggregate(pairs: seq<Pair>)
    ensures IsAggregate(StdDevSample, PairValues(pairs), Finish(StdDevSample, Fold(StdDevSample, pairs), |pairs|))
  {
    WelfordInvariant(pairs);
    if |pairs| > 1 {
      WelfordIsSampleVariance(pairs);
    }
  }

  lemma StringsAreAggregate(pairs: seq<Pair>)
    requires AllText(PairValues(pairs))
    ensures IsAggregate(StringAgg, PairValues(pairs), Finish(StringAgg, Fold(StringAgg, pairs), |pairs|))
  {
    StringsFold(pairs);
    if pairs != [] {
      ConcatenatedExact(PairValues(pairs));
    }
  }
}
