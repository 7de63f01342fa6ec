/** The aggregation of a pipeline, run by the operator on one table and on the tables of several workers. */
module Pipelines {
  import opened Sequences
  import opened Storage
  import opened Aggregates
  import opened AggregateOperator
  import opened AggregateOutput
  import opened AggregateExecution
  import opened GroupKeys
  import opened RowGroups
  import opened TwoStages
  import opened Gather

  /** Counts, and sums of existing columns that do not hold strings. */
  predicate NumericSums(definitions: seq<ColumnDefinition>, aggregates: seq<AggregateExpression>) {
    forall a :: 0 <= a < |aggregates| ==> NumericSum(definitions, aggregates[a])
  }

  predicate NumericSum(definitions: seq<ColumnDefinition>, a: AggregateExpression) {
    || a == Star(Count)
    || (a.OfColumn? && a.f.Sum? && a.column < |definitions| && !definitions[a.column].dataType.StringType?)
  }

  predicate Exist(definitions: seq<ColumnDefinition>, columns: seq<nat>) {
    forall k :: 0 <= k < |columns| ==> columns[k] < |definitions|
  }

  lemma SumsComputable(t: Table, aggregates: seq<AggregateExpression>)
    requires NumericSums(t.definitions, aggregates)
    ensures AllFit(t, aggregates) && Computable(t, aggregates) && Positionless(aggregates) && SumsAndCounts(aggregates)
  {
    forall a | 0 <= a < |aggregates|
      ensures aggregates[a].Fits(t) && !RefusedByType(t, aggregates[a]) && !RefusedByValue(t, aggregates[a])
      ensures !aggregates[a].OrderedStrings? && (aggregates[a].Function().Sum? || aggregates[a].Function().Count?)
    {
      assert NumericSum(t.definitions, aggregates[a]);
    }
  }

  function SumDefinition(definitions: seq<ColumnDefinition>, a: AggregateExpression): ColumnDefinition
    requires NumericSum(definitions, a)
  {
    if a.Star? then ColumnDefinition(LongType, false)
    else ColumnDefinition(AggregateType(Sum, definitions[a.column].dataType), true)
  }

  /** The columns of the output: those of the groups, then numbers. */
  function SumDefinitions(definitions: seq<ColumnDefinition>, columns: seq<nat>, aggregates: seq<AggregateExpression>)
    : (r: seq<ColumnDefinition>)
    requires NumericSums(definitions, aggregates) && Exist(definitions, columns)
    ensures |r| == |columns| + |aggregates|
    ensures forall k :: 0 <= k < |columns| ==> r[k] == definitions[columns[k]]
    ensures forall k :: |columns| <= k < |r| ==> !r[k].dataType.StringType?
  {
    seq(|columns|, k requires 0 <= k < |columns| => definitions[columns[k]]) +
    seq(|aggregates|, a requires 0 <= a < |aggregates| => SumDefinition(definitions, aggregates[a]))
  }

  lemma SameDefinitions(t: Table, columns: seq<nat>, aggregates: seq<AggregateExpression>)
    requires NumericSums(t.definitions, aggregates) && Exist(t.definitions, columns) && AllFit(t, aggregates)
    ensures OutputDefinitions(t, columns, aggregates) == SumDefinitions(t.definitions, columns, aggregates)
  {
    var r, s := AggregateDefinitions(t, aggregates), SumDefinitions(t.definitions, columns, aggregates);
    forall a | 0 <= a < |aggregates|
      ensures r[a] == s[|columns| + a]
    {
      assert NumericSum(t.definitions, aggregates[a]);
    }
    assert GroupDefinitions(t, columns) + r == s;
  }

  /** One aggregation: its rows are the plain GROUP BY of the table's rows. */
  method RunAggregate(t: Table, columns: seq<nat>, aggregates: seq<AggregateExpression>)
    returns (out: Table, ghost rows: seq<OutputRow>)
    requires ValidTable(t) && TypedTable(t) && RowCount(t) <= MAX_ROWS && columns != []
    requires NumericSums(t.definitions, aggregates) && Exist(t.definitions, columns)
    ensures ValidTable(out) && TypedTable(out) && out.definitions == SumDefinitions(t.definitions, columns, aggregates)
    ensures Rows(out) == FlatRows(rows) && IsRowGroupBy(Rows(t), columns, aggregates, rows)
  {
    SumsComputable(t, aggregates);
    SameDefinitions(t, columns, aggregates);
    var operator := new AggregateHashOperator(t, columns, aggregates);
    var r;
    r, rows := operator.Execute();
    out := r.value;
    GroupByOfTable(t, columns, aggregates, rows);
  }

  // ----- several workers -----

  ghost predicate SmallEnough(ts: seq<Table>) {
    forall k :: 0 <= k < |ts| ==> RowCount(ts[k]) <= MAX_ROWS
  }

  /** Every worker aggregates its table. */
  method RunAggregates(ts: seq<Table>, definitions: seq<ColumnDefinition>, columns: seq<nat>,
                       aggregates: seq<AggregateExpression>)
    returns (outs: seq<Table>, ghost grouped: seq<seq<OutputRow>>)
    requires AllOf(ts, definitions) && SmallEnough(ts) && columns != []
    requires NumericSums(definitions, aggregates) && Exist(definitions, columns)
    ensures AllOf(outs, SumDefinitions(definitions, columns, aggregates))
    ensures Map(RowsIn(), outs) == Map(Flat(), grouped)
    ensures PartsGrouped(Map(RowsIn(), ts), columns, aggregates, grouped)
  {
    outs, grouped := [], [];
    for k := 0 to |ts|
      invariant |outs| == k && AllOf(outs, SumDefinitions(definitions, columns, aggregates))
      invariant WorkersAggregated(Map(RowsIn(), ts[..k]), columns, aggregates, outs, grouped)
    {
      var out;
      ghost var rows;
      out, rows := RunAggregate(ts[k], columns, aggregates);
      TakeNext(ts, k);
      MapSnoc(RowsIn(), ts[..k], ts[k]);
      OneMoreAggregated(Map(RowsIn(), ts[..k]), columns, aggregates, outs, grouped, Rows(ts[k]), out, rows);
      outs, grouped := outs + [out], grouped + [rows];
    }
    TakeAll(ts);
  }

  ghost predicate WorkersAggregated(parts: seq<seq<Row>>, columns: seq<nat>, aggregates: seq<AggregateExpression>,
                                    outs: seq<Table>, grouped: seq<seq<OutputRow>>) {
    PartsGrouped(parts, columns, aggregates, grouped) && Map(RowsIn(), outs) == Map(Flat(), grouped)
  }

  lemma MapSnoc<T, U>(f: T -> U, s: seq<T>, x: T)
    ensures Map(f, s + [x]) == Map(f, s) + [f(x)]
  {}

  lemma OneMoreAggregated(parts: seq<seq<Row>>, columns: seq<nat>, aggregates: seq<AggregateExpression>,
                          outs: seq<Table>, grouped: seq<seq<OutputRow>>, part: seq<Row>, out: Table,
                          rows: seq<OutputRow>)
    requires WorkersAggregated(parts, columns, aggregates, outs, grouped)
    requires IsRowGroupBy(part, columns, aggregates, rows) && Rows(out) == FlatRows(rows)
    ensures WorkersAggregated(parts + [part], columns, aggregates, outs + [out], grouped + [rows])
  {
    PartsGroupedSnoc(parts, columns, aggregates, grouped, part, rows);
    MapSnoc(RowsIn(), outs, out);
    MapSnoc(Flat(), grouped, rows);
  }

  lemma PartsGroupedSnoc(parts: seq<seq<Row>>, columns: seq<nat>, aggregates: seq<AggregateExpression>,
                         outs: seq<seq<OutputRow>>, part: seq<Row>, out: seq<OutputRow>)
    requires PartsGrouped(parts, columns, aggregates, outs) && IsRowGroupBy(part, columns, aggregates, out)
    ensures PartsGrouped(parts + [part], columns, aggregates, outs + [out])
  {
    forall i | 0 <= i < |parts + [part]|
      ensures PartGrouped(parts + [part], columns, aggregates, outs + [out], i)
    {
      assert i < |parts| ==> PartGrouped(parts, columns, aggregates, outs, i);
    }
  }

  // ----- there are not more groups than rows -----

  lemma GroupsAtMostRows(rows: seq<Row>, columns: seq<nat>, out: seq<OutputRow>)
    requires ListsRowGroups(rows, columns, out)
    ensures |out| <= |rows|
  {
    var groups, all := Map((o: OutputRow) => o.group, out), Map((row: Row) => GroupOf(columns, row), rows);
    forall group | group in groups
      ensures group in all
    {
      var k :| 0 <= k < |out| && groups[k] == group;
      assert Listed(out, group);
      var row :| row in rows && GroupOf(columns, row) == group;
      var m :| 0 <= m < |rows| && rows[m] == row;
      assert all[m] == group;
    }
    WithinIsShorter(groups, all);
  }

  lemma WithinIsShorter<T(!new)>(s: seq<T>, t: seq<T>)
    requires NoDup(s) && forall x :: x in s ==> x in t
    ensures |s| <= |t|
  {
    forall x: T
      ensures multiset(s)[x] <= multiset(t)[x]
    {
      NoDupCounts(s, x);
    }
    assert multiset(s) <= multiset(t);
    assert |multiset(t) - multiset(s)| == |multiset(t)| - |multiset(s)|;
  }

  lemma {:induction false} GroupsAtMostAllRows(parts: seq<seq<Row>>, columns: seq<nat>,
                                               aggregates: seq<AggregateExpression>, outs: seq<seq<OutputRow>>)
    requires PartsGrouped(parts, columns, aggregates, outs)
    ensures |Concat(Map(Flat(), outs))| <= |Concat(parts)|
  {
    if parts != [] {
      var n := |parts| - 1;
      PartsGroupedLast(parts, columns, aggregates, outs);
      GroupsAtMostAllRows(parts[..n], columns, aggregates, outs[..n]);
      GroupsAtMostRows(parts[n], columns, outs[n]);
      MapLast(Flat(), outs);
      ConcatSnoc(Map(Flat(), outs[..n]), FlatRows(outs[n]));
    }
  }

  lemma {:induction false} PartWithin(parts: seq<seq<Row>>, k: nat)
    requires k < |parts|
    ensures |parts[k]| <= |Concat(parts)|
  {
    if k < |parts| - 1 {
      PartWithin(parts[..|parts| - 1], k);
    }
  }
}
