/** Partial sums and counts per worker, summed up again: the two aggregation pipelines of query 1. */
module TwoStages {
  import opened Sequences
  import opened Storage
  import opened Aggregates
  import opened AggregateOperator
  import opened RowGroups

  /** What SUM or COUNT adds up to. */
  function Weight(f: AggregateFunction, vs: seq<Value>): real {
    if f.Sum? then SumOf(vs) else |vs| as real
  }

  /** Partial results stand for the values they were computed from. */
  ghost predicate Summarises(f: AggregateFunction, vs: seq<Value>, partials: seq<Value>) {
    && SumOf(partials) == Weight(f, vs)
    && (AllInts(partials) <==> f.Count? || AllInts(vs))
    && (vs != [] ==> partials != [])
    && (f.Sum? && vs == [] ==> partials == [])
  }

  lemma AllIntsAppend(vs: seq<Value>, ws: seq<Value>)
    ensures AllInts(vs + ws) <==> AllInts(vs) && AllInts(ws)
  {
    if AllInts(vs + ws) {
      assert forall k :: 0 <= k < |vs| ==> (vs + ws)[k] == vs[k];
      assert forall k :: 0 <= k < |ws| ==> (vs + ws)[|vs| + k] == ws[k];
    }
  }

  lemma SummarisesAppend(f: AggregateFunction, vs: seq<Value>, partials: seq<Value>, ws: seq<Value>, more: seq<Value>)
    requires (f.Sum? || f.Count?) && Summarises(f, vs, partials) && Summarises(f, ws, more)
    ensures Summarises(f, vs + ws, partials + more)
  {
    SumOfAppend(vs, ws);
    SumOfAppend(partials, more);
    AllIntsAppend(vs, ws);
    AllIntsAppend(partials, more);
  }

  function UpTo(n: nat): (r: seq<nat>)
    ensures |r| == n && forall k :: 0 <= k < n ==> r[k] == k
  {
    seq(n, k requires 0 <= k < n => k)
  }

  lemma FlatGroup(o: OutputRow, n: nat)
    requires |o.group| == n
    ensures GroupOf(UpTo(n), FlatRow(o)) == o.group
  {}

  lemma OnlyContributor(rows: seq<Row>, columns: seq<nat>, a: AggregateExpression, group: Row, k: nat)
    requires k < |rows| && forall i :: 0 <= i < |rows| && i != k ==> GroupOf(columns, rows[i]) != group
    ensures RowValues(rows, columns, a, group) ==
            if Contributes(columns, a, group)(rows[k]) then [ValueFrom(a)(rows[k])] else []
  {
    FilterOnly(Contributes(columns, a, group), rows, k);
  }

  /** Row k is the only one of its group, and all groups have n columns. */
  ghost predicate OnlyGroup(out: seq<OutputRow>, k: nat, n: nat) {
    && k < |out| && (forall i :: 0 <= i < |out| ==> |out[i].group| == n)
    && forall i :: 0 <= i < |out| && i != k ==> out[i].group != out[k].group
  }

  /** What a cell of a partial result contributes to the second stage. */
  ghost predicate IsPartial(cell: Cell, partials: seq<Value>) {
    partials == if cell.Val? then [cell.v] else []
  }

  /** One partial row per group: its cell is the only one the second stage finds for the group. */
  lemma OnlyRow(out: seq<OutputRow>, k: nat, n: nat, c: nat, partials: seq<Value>)
    requires OnlyGroup(out, k, n) && c < |out[k].cells| && IsPartial(out[k].cells[c], partials)
    ensures partials == RowValues(FlatRows(out), UpTo(n), OfColumn(Sum, n + c), out[k].group)
  {
    var flat := FlatRows(out);
    forall i | 0 <= i < |out|
      ensures GroupOf(UpTo(n), flat[i]) == out[i].group
    {
      FlatGroup(out[i], n);
    }
    OnlyContributor(flat, UpTo(n), OfColumn(Sum, n + c), out[k].group, k);
    assert Component(flat[k], n + c) == out[k].cells[c];
  }

  lemma NoRow(out: seq<OutputRow>, n: nat, a: AggregateExpression, group: Row)
    requires forall i :: 0 <= i < |out| ==> |out[i].group| == n
    requires !Listed(out, group)
    ensures RowValues(FlatRows(out), UpTo(n), a, group) == []
  {
    forall row | row in FlatRows(out)
      ensures GroupOf(UpTo(n), row) != group
    {
      var i :| 0 <= i < |out| && FlatRows(out)[i] == row;
      FlatGroup(out[i], n);
    }
    NoGroupNoValues(FlatRows(out), UpTo(n), a, group);
  }

  lemma GroupsHaveWidth(rows: seq<Row>, columns: seq<nat>, out: seq<OutputRow>)
    requires ListsRowGroups(rows, columns, out)
    ensures forall i :: 0 <= i < |out| ==> |out[i].group| == |columns|
  {
    forall i | 0 <= i < |out|
      ensures |out[i].group| == |columns|
    {
      assert Listed(out, out[i].group);
      assert HasGroup(rows, columns, out[i].group);
    }
  }

  ghost predicate SumsAndCounts(aggregates: seq<AggregateExpression>) {
    forall a :: 0 <= a < |aggregates| ==> aggregates[a].Function().Sum? || aggregates[a].Function().Count?
  }

  lemma OneSummarises(f: AggregateFunction, vs: seq<Value>, cell: Cell, partials: seq<Value>)
    requires (f.Sum? || f.Count?) && IsAggregate(f, vs, cell)
    requires partials == if cell.Val? then [cell.v] else []
    ensures Summarises(f, vs, partials)
  {
    if cell.Val? {
      assert partials[..0] == [];
      assert SumOf([]) == 0.0;
      SumValueIsSum(vs);
    }
  }

  lemma NoneSummarises(f: AggregateFunction, vs: seq<Value>, partials: seq<Value>)
    requires vs == [] && partials == []
    ensures Summarises(f, vs, partials)
  {}

  lemma CellSummarises(rows: seq<Row>, columns: seq<nat>, aggregates: seq<AggregateExpression>, o: OutputRow, a: nat)
    returns (vs: seq<Value>, partials: seq<Value>)
    requires RowCellsExact(rows, columns, aggregates, o) && a < |aggregates| && SumsAndCounts(aggregates)
    ensures vs == RowValues(rows, columns, aggregates[a], o.group)
    ensures IsPartial(o.cells[a], partials) && Summarises(aggregates[a].Function(), vs, partials)
  {
    vs, partials := RowValues(rows, columns, aggregates[a], o.group), if o.cells[a].Val? then [o.cells[a].v] else [];
    OneSummarises(aggregates[a].Function(), vs, o.cells[a], partials);
  }

  lemma ListedSummarises(rows: seq<Row>, columns: seq<nat>, aggregates: seq<AggregateExpression>, out: seq<OutputRow>,
                         a: nat, k: nat) returns (vs: seq<Value>, partials: seq<Value>)
    requires k < |out| && RowCellsExact(rows, columns, aggregates, out[k]) && OnlyGroup(out, k, |columns|)
    requires a < |aggregates| && SumsAndCounts(aggregates)
    ensures vs == RowValues(rows, columns, aggregates[a], out[k].group)
    ensures partials == RowValues(FlatRows(out), UpTo(|columns|), OfColumn(Sum, |columns| + a), out[k].group)
    ensures Summarises(aggregates[a].Function(), vs, partials)
  {
    vs, partials := CellSummarises(rows, columns, aggregates, out[k], a);
    OnlyRow(out, k, |columns|, a, partials);
  }

  /** The partial results of one worker. */
  lemma PartialSummarises(rows: seq<Row>, columns: seq<nat>, aggregates: seq<AggregateExpression>, out: seq<OutputRow>,
                          a: nat, group: Row)
    requires IsRowGroupBy(rows, columns, aggregates, out) && a < |aggregates| && SumsAndCounts(aggregates)
    ensures Summarises(aggregates[a].Function(), RowValues(rows, columns, aggregates[a], group),
                       RowValues(FlatRows(out), UpTo(|columns|), OfColumn(Sum, |columns| + a), group))
  {
    GroupsHaveWidth(rows, columns, out);
    if Listed(out, group) {
      var k :| 0 <= k < |out| && out[k].group == group;
      var vs, partials := ListedSummarises(rows, columns, aggregates, out, a, k);
    } else {
      NoGroupNoValues(rows, columns, aggregates[a], group);
      NoRow(out, |columns|, OfColumn(Sum, |columns| + a), group);
      NoneSummarises(aggregates[a].Function(), RowValues(rows, columns, aggregates[a], group),
                     RowValues(FlatRows(out), UpTo(|columns|), OfColumn(Sum, |columns| + a), group));
    }
  }

  function Flat(): seq<OutputRow> -> seq<Row> {
    out => FlatRows(out)
  }

  /** The partial results of all workers. */
  lemma {:induction false} PartialsSummarise(parts: seq<seq<Row>>, columns: seq<nat>,
                                             aggregates: seq<AggregateExpression>, outs: seq<seq<OutputRow>>, a: nat,
                                             group: Row)
    requires PartsGrouped(parts, columns, aggregates, outs) && a < |aggregates| && SumsAndCounts(aggregates)
    ensures Summarises(aggregates[a].Function(), RowValues(Concat(parts), columns, aggregates[a], group),
                       RowValues(Concat(Map(Flat(), outs)), UpTo(|columns|), OfColumn(Sum, |columns| + a), group))
  {
    if parts != [] {
      var n := |parts| - 1;
      var second := OfColumn(Sum, |columns| + a);
      PartsGroupedLast(parts, columns, aggregates, outs);
      PartialsSummarise(parts[..n], columns, aggregates, outs[..n], a, group);
      PartialSummarises(parts[n], columns, aggregates, outs[n], a, group);
      MapLast(Flat(), outs);
      ConcatSnoc(Map(Flat(), outs[..n]), FlatRows(outs[n]));
      RowValuesAppend(Concat(parts[..n]), parts[n], columns, aggregates[a], group);
      RowValuesAppend(Concat(Map(Flat(), outs[..n])), FlatRows(outs[n]), UpTo(|columns|), second, group);
      SummarisesAppend(aggregates[a].Function(),
                       RowValues(Concat(parts[..n]), columns, aggregates[a], group),
                       RowValues(Concat(Map(Flat(), outs[..n])), UpTo(|columns|), second, group),
                       RowValues(parts[n], columns, aggregates[a], group),
                       RowValues(FlatRows(outs[n]), UpTo(|columns|), second, group));
    }
  }

  lemma FlatHasGroup(rows: seq<Row>, columns: seq<nat>, out: seq<OutputRow>, group: Row)
    requires ListsRowGroups(rows, columns, out)
    ensures HasGroup(FlatRows(out), UpTo(|columns|), group) <==> HasGroup(rows, columns, group)
  {
    GroupsHaveWidth(rows, columns, out);
    var flat := FlatRows(out);
    forall i | 0 <= i < |out|
      ensures GroupOf(UpTo(|columns|), flat[i]) == out[i].group && flat[i] in flat
    {
      FlatGroup(out[i], |columns|);
    }
    assert HasGroup(flat, UpTo(|columns|), group) <==> Listed(out, group) by {
      if HasGroup(flat, UpTo(|columns|), group) {
        var i :| 0 <= i < |flat| && GroupOf(UpTo(|columns|), flat[i]) == group;
        assert out[i].group == group;
      }
    }
  }

  /** The second stage sees the groups of all rows. */
  lemma {:induction false} PartialsHaveGroups(parts: seq<seq<Row>>, columns: seq<nat>, outs: seq<seq<OutputRow>>,
                                              group: Row)
    requires |parts| == |outs|
    requires forall i :: 0 <= i < |parts| ==> ListsRowGroups(parts[i], columns, outs[i])
    ensures HasGroup(Concat(Map(Flat(), outs)), UpTo(|columns|), group) <==> HasGroup(Concat(parts), columns, group)
  {
    if parts != [] {
      var n := |parts| - 1;
      PartialsHaveGroups(parts[..n], columns, outs[..n], group);
      FlatHasGroup(parts[n], columns, outs[n], group);
      MapLast(Flat(), outs);
      ConcatSnoc(Map(Flat(), outs[..n]), FlatRows(outs[n]));
      HasGroupAppend(Concat(parts[..n]), parts[n], columns, group);
      HasGroupAppend(Concat(Map(Flat(), outs[..n])), FlatRows(outs[n]), UpTo(|columns|), group);
    }
  }

  /** Aggregate `b` of the second stage sums partial aggregate `picks[b]` of the first. */
  function Resums(picks: seq<nat>, n: nat): seq<AggregateExpression> {
    Map((pick: nat) => OfColumn(Sum, n + pick), picks)
  }

  /** Re-summing gives the sum, or the count, over all rows; only a count of nothing is lost. */
  ghost predicate Resummed(f: AggregateFunction, vs: seq<Value>, cell: Cell) {
    f.Sum? || vs != [] ==> IsAggregate(f, vs, cell)
  }

  lemma SummaryResummed(f: AggregateFunction, vs: seq<Value>, partials: seq<Value>, cell: Cell)
    requires (f.Sum? || f.Count?) && Summarises(f, vs, partials) && IsAggregate(Sum, partials, cell)
    ensures Resummed(f, vs, cell)
  {
    SumValueIsSum(partials);
    SumValueIsSum(vs);
  }

  lemma ResumOf(flat: seq<Row>, n: nat, f: AggregateFunction, vs: seq<Value>, picks: seq<nat>, o: OutputRow, b: nat)
    requires RowCellsExact(flat, UpTo(n), Resums(picks, n), o) && b < |picks| && (f.Sum? || f.Count?)
    requires Summarises(f, vs, RowValues(flat, UpTo(n), OfColumn(Sum, n + picks[b]), o.group))
    ensures Resummed(f, vs, o.cells[b])
  {
    var a := Resums(picks, n)[b];
    assert a == OfColumn(Sum, n + picks[b]);
    assert IsAggregate(a.Function(), RowValues(flat, UpTo(n), a, o.group), o.cells[b]);
    SummaryResummed(f, vs, RowValues(flat, UpTo(n), a, o.group), o.cells[b]);
  }

  /** One cell of the second stage. */
  lemma ResummedCell(parts: seq<seq<Row>>, columns: seq<nat>, aggregates: seq<AggregateExpression>,
                     outs: seq<seq<OutputRow>>, picks: seq<nat>, o: OutputRow, b: nat)
    requires PartsGrouped(parts, columns, aggregates, outs) && SumsAndCounts(aggregates)
    requires b < |picks| && picks[b] < |aggregates|
    requires RowCellsExact(Concat(Map(Flat(), outs)), UpTo(|columns|), Resums(picks, |columns|), o)
    ensures Resummed(aggregates[picks[b]].Function(),
                     RowValues(Concat(parts), columns, aggregates[picks[b]], o.group), o.cells[b])
  {
    PartialsSummarise(parts, columns, aggregates, outs, picks[b], o.group);
    ResumOf(Concat(Map(Flat(), outs)), |columns|, aggregates[picks[b]].Function(),
            RowValues(Concat(parts), columns, aggregates[picks[b]], o.group), picks, o, b);
  }

  lemma PartsListed(parts: seq<seq<Row>>, columns: seq<nat>, aggregates: seq<AggregateExpression>,
                    outs: seq<seq<OutputRow>>)
    requires PartsGrouped(parts, columns, aggregates, outs)
    ensures forall i :: 0 <= i < |parts| ==> ListsRowGroups(parts[i], columns, outs[i])
  {
    forall i | 0 <= i < |parts|
      ensures ListsRowGroups(parts[i], columns, outs[i])
    {
      assert PartGrouped(parts, columns, aggregates, outs, i);
    }
  }

  /** Both stages together: the groups of all rows, each with the sums and counts over all rows. */
  lemma TwoStageAggregation(parts: seq<seq<Row>>, columns: seq<nat>, aggregates: seq<AggregateExpression>,
                            outs: seq<seq<OutputRow>>, picks: seq<nat>, second: seq<OutputRow>)
    requires PartsGrouped(parts, columns, aggregates, outs) && SumsAndCounts(aggregates)
    requires forall b :: 0 <= b < |picks| ==> picks[b] < |aggregates|
    requires IsRowGroupBy(Concat(Map(Flat(), outs)), UpTo(|columns|), Resums(picks, |columns|), second)
    ensures ListsRowGroups(Concat(parts), columns, second)
    ensures forall k :: 0 <= k < |second| ==> |second[k].cells| == |picks|
    ensures forall k, b :: 0 <= k < |second| && 0 <= b < |picks| ==>
              Resummed(aggregates[picks[b]].Function(),
                       RowValues(Concat(parts), columns, aggregates[picks[b]], second[k].group), second[k].cells[b])
  {
    var flat := Concat(Map(Flat(), outs));
    forall group
      ensures Listed(second, group) <==> HasGroup(Concat(parts), columns, group)
    {
      PartsListed(parts, columns, aggregates, outs);
      PartialsHaveGroups(parts, columns, outs, group);
    }
    forall k, b | 0 <= k < |second| && 0 <= b < |picks|
      ensures |second[k].cells| == |picks|
      ensures Resummed(aggregates[picks[b]].Function(),
                       RowValues(Concat(parts), columns, aggregates[picks[b]], second[k].group), second[k].cells[b])
    {
      assert RowCellsExact(flat, UpTo(|columns|), Resums(picks, |columns|), second[k]);
      ResummedCell(parts, columns, aggregates, outs, picks, second[k], b);
    }
    forall k | 0 <= k < |second|
      ensures |second[k].cells| == |picks|
    {
      assert RowCellsExact(flat, UpTo(|columns|), Resums(picks, |columns|), second[k]);
    }
  }
}
