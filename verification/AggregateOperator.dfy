/** AggregateHashOperator as a whole, against the plain GROUP BY. */
module AggregateOperator {
  import opened Sequences
  import opened Storage
  import opened Aggregates
  import opened GroupKeys
  import opened AggregateHash
  import opened AggregatePasses
  import opened OrderedStringAgg
  import opened SortOperator

  /** An aggregate of the query; STRING_AGG comes with or without an order of its own, and only COUNT has an asterisk
      for its argument. */
  datatype AggregateExpression =
    | OfColumn(f: AggregateFunction, column: nat)
    | OrderedStrings(column: nat, order: seq<SortColumn>)
    | Star(f: AggregateFunction)
  {
    function Function(): AggregateFunction {
      match this
      case OfColumn(f, _) => f
      case OrderedStrings(_, _) => StringAgg
      case Star(f) => f
    }

    /** The columns named by the aggregate exist. */
    predicate Fits(t: Table) {
      && (!Star? ==> column < |t.definitions|)
      && (OrderedStrings? ==> forall k :: 0 <= k < |order| ==> order[k].column < |t.definitions|)
    }
  }

  // ----- the plain GROUP BY -----

  function GroupRow(t: Table, columns: seq<nat>, p: RowId): (r: Row)
    ensures |r| == |columns| && forall k :: 0 <= k < |r| ==> r[k] == CellAt(t, p, columns[k])
  {
    seq(|columns|, k requires 0 <= k < |columns| => CellAt(t, p, columns[k]))
  }

  /** The argument of an aggregate in a row; COUNT(*) counts every row. */
  function Argument(t: Table, a: AggregateExpression): RowId -> Cell {
    p => match a
         case Star(_) => Val(Int(1))
         case OfColumn(_, c) => CellAt(t, p, c)
         case OrderedStrings(c, _) => CellAt(t, p, c)
  }

  /** The non-NULL argument values of the rows of one group, in input order, with their rows. */
  function PairsIn(t: Table, columns: seq<nat>, a: AggregateExpression, ps: seq<RowId>, group: Row): seq<Pair> {
    if ps == [] then []
    else
      var front, p := PairsIn(t, columns, a, ps[..|ps| - 1], group), ps[|ps| - 1];
      if GroupRow(t, columns, p) == group && Argument(t, a)(p).Val?
      then front + [Pair(p, Argument(t, a)(p).v)]
      else front
  }

  /** The aggregate of the given rows. */
  ghost predicate IsAggregateOf(t: Table, a: AggregateExpression, pairs: seq<Pair>, cell: Cell) {
    match a
    case OrderedStrings(c, order) =>
      AllText(PairValues(pairs)) && IsOrderedText(t, c, order, PairRows(pairs), cell)
    case _ => IsAggregate(a.Function(), PairValues(pairs), cell)
  }

  /** An output row: the values of the GROUP BY columns, then one cell per aggregate. */
  datatype OutputRow = OutputRow(group: Row, cells: Row)

  function FlatRow(row: OutputRow): Row {
    row.group + row.cells
  }

  function FlatRows(rows: seq<OutputRow>): seq<Row> {
    Map((row: OutputRow) => FlatRow(row), rows)
  }

  ghost predicate IsGroup(t: Table, columns: seq<nat>, group: Row) {
    exists p :: p in Positions(ChunkSizes(t)) && group == GroupRow(t, columns, p)
  }

  ghost predicate Listed(rows: seq<OutputRow>, group: Row) {
    exists k :: 0 <= k < |rows| && rows[k].group == group
  }

  /** The groups are listed once each, and they are the groups of the input. */
  ghost predicate ListsGroups(t: Table, columns: seq<nat>, rows: seq<OutputRow>) {
    && (forall i, k :: 0 <= i < k < |rows| ==> rows[i].group != rows[k].group)
    && (forall k :: 0 <= k < |rows| ==> IsGroup(t, columns, rows[k].group))
    && (forall group: Row :: IsGroup(t, columns, group) ==> Listed(rows, group))
  }

  /** Each cell is its aggregate over the non-NULL arguments of the row's group. */
  ghost predicate CellsExact(t: Table, columns: seq<nat>, aggregates: seq<AggregateExpression>, row: OutputRow) {
    |row.cells| == |aggregates| &&
    forall a :: 0 <= a < |aggregates| ==>
      IsAggregateOf(t, aggregates[a], PairsIn(t, columns, aggregates[a], Positions(ChunkSizes(t)), row.group),
                    row.cells[a])
  }

  ghost predicate IsGroupBy(t: Table, columns: seq<nat>, aggregates: seq<AggregateExpression>, rows: seq<OutputRow>) {
    && ListsGroups(t, columns, rows)
    && forall k :: 0 <= k < |rows| ==> CellsExact(t, columns, aggregates, rows[k])
  }

  /** The aggregate of given values is unique. */
  lemma AggregateUnique(f: AggregateFunction, vs: seq<Value>, x: Cell, y: Cell)
    requires IsAggregate(f, vs, x) && IsAggregate(f, vs, y)
    ensures x == y
  {
    if (f.Min? || f.Max?) && vs != [] {
      LessTotal(x.v, y.v);
    }
  }

  lemma AggregateOfUnique(t: Table, a: AggregateExpression, pairs: seq<Pair>, x: Cell, y: Cell)
    requires IsAggregateOf(t, a, pairs, x) && IsAggregateOf(t, a, pairs, y)
    ensures x == y
  {
    if a.OrderedStrings? {
      OrderedTextUnique(t, a.column, a.order, PairRows(pairs), x, y);
    } else {
      AggregateUnique(a.Function(), PairValues(pairs), x, y);
    }
  }

  lemma CellsUnique(t: Table, columns: seq<nat>, aggregates: seq<AggregateExpression>, row: OutputRow, other: OutputRow)
    requires CellsExact(t, columns, aggregates, row) && CellsExact(t, columns, aggregates, other)
    requires row.group == other.group
    ensures row == other
  {
    forall a | 0 <= a < |aggregates|
      ensures row.cells[a] == other.cells[a]
    {
      AggregateOfUnique(t, aggregates[a], PairsIn(t, columns, aggregates[a], Positions(ChunkSizes(t)), row.group),
                        row.cells[a], other.cells[a]);
    }
    assert row.cells == other.cells;
  }

  lemma GroupByMember(t: Table, columns: seq<nat>, aggregates: seq<AggregateExpression>, rows: seq<OutputRow>,
                      others: seq<OutputRow>, row: OutputRow)
    requires IsGroupBy(t, columns, aggregates, rows) && IsGroupBy(t, columns, aggregates, others)
    requires row in rows
    ensures row in others
  {
    var k :| 0 <= k < |rows| && rows[k] == row;
    assert Listed(others, row.group);
    var m :| 0 <= m < |others| && others[m].group == row.group;
    CellsUnique(t, columns, aggregates, rows[k], others[m]);
  }

  /** The plain GROUP BY determines the output up to the order of its rows. */
  lemma GroupByUnique(t: Table, columns: seq<nat>, aggregates: seq<AggregateExpression>,
                      rows: seq<OutputRow>, others: seq<OutputRow>)
    requires IsGroupBy(t, columns, aggregates, rows) && IsGroupBy(t, columns, aggregates, others)
    ensures multiset(rows) == multiset(others)
  {
    forall row: OutputRow
      ensures row in rows <==> row in others
    {
      if row in rows {
        GroupByMember(t, columns, aggregates, rows, others, row);
      }
      if row in others {
        GroupByMember(t, columns, aggregates, others, rows, row);
      }
    }
    SameMembers(rows, others);
  }

  // ----- from keys to groups -----

  /** Keys tell the groups apart. */
  ghost predicate KeysMatchGroups(t: Table, columns: seq<nat>, keyOf: RowId -> Key) {
    forall p, q {:trigger keyOf(p), keyOf(q)} :: InRange(p, ChunkSizes(t)) && InRange(q, ChunkSizes(t)) ==>
      (keyOf(p) == keyOf(q) <==> GroupRow(t, columns, p) == GroupRow(t, columns, q))
  }

  lemma {:induction false} PairsByKey(t: Table, columns: seq<nat>, a: AggregateExpression, keyOf: RowId -> Key,
                                      ps: seq<RowId>, w: RowId)
    requires KeysMatchGroups(t, columns, keyOf) && InRange(w, ChunkSizes(t))
    requires forall k :: 0 <= k < |ps| ==> InRange(ps[k], ChunkSizes(t))
    ensures GroupPairs(keyOf, Argument(t, a), ps, keyOf(w)) == PairsIn(t, columns, a, ps, GroupRow(t, columns, w))
  {
    if ps != [] {
      var p := ps[|ps| - 1];
      PairsByKey(t, columns, a, keyOf, ps[..|ps| - 1], w);
      assert keyOf(p) == keyOf(w) <==> GroupRow(t, columns, p) == GroupRow(t, columns, w);
    }
  }

  // ----- output -----

  predicate SegmentsOf(segments: seq<Segment>, n: nat) {
    forall c :: 0 <= c < |segments| ==> |segments[c]| == n
  }

  /** Row k of some columns. */
  function RowIn(segments: seq<Segment>, n: nat, k: nat): (r: Row)
    requires SegmentsOf(segments, n) && k < n
    ensures |r| == |segments| && forall c :: 0 <= c < |r| ==> r[c] == segments[c][k]
  {
    seq(|segments|, c requires 0 <= c < |segments| => segments[c][k])
  }

  function OutputRows(groups: seq<Segment>, values: seq<Segment>, n: nat): (r: seq<OutputRow>)
    requires SegmentsOf(groups, n) && SegmentsOf(values, n)
    ensures |r| == n
    ensures forall k :: 0 <= k < n ==> r[k] == OutputRow(RowIn(groups, n, k), RowIn(values, n, k))
  {
    seq(n, k requires 0 <= k < n => OutputRow(RowIn(groups, n, k), RowIn(values, n, k)))
  }

  /** WriteGroupByOutput. */
  method WriteGroupByOutput(t: Table, columns: seq<nat>, witnesses: seq<RowId>) returns (segments: seq<Segment>)
    requires ValidTable(t) && forall c :: 0 <= c < |columns| ==> columns[c] < |t.definitions|
    requires forall k :: 0 <= k < |witnesses| ==> InRange(witnesses[k], ChunkSizes(t))
    ensures |segments| == |columns|
    ensures forall c :: 0 <= c < |segments| ==> |segments[c]| == |witnesses|
    ensures forall c, k :: 0 <= c < |segments| && 0 <= k < |witnesses| ==>
              segments[c][k] == CellAt(t, witnesses[k], columns[c])
  {
    segments := [];
    for c := 0 to |columns|
      invariant |segments| == c
      invariant forall d :: 0 <= d < c ==> |segments[d]| == |witnesses|
      invariant forall d, k :: 0 <= d < c && 0 <= k < |witnesses| ==>
                  segments[d][k] == CellAt(t, witnesses[k], columns[d])
    {
      var values: Segment := [];
      for k := 0 to |witnesses|
        invariant |values| == k
        invariant forall m :: 0 <= m < k ==> values[m] == CellAt(t, witnesses[m], columns[c])
      {
        values := values + [t.chunks[witnesses[k].chunk][columns[c]][witnesses[k].offset]];
      }
      segments := segments + [values];
    }
  }

  /** The aggregate refuses no value of the table. */
  ghost predicate Takes(t: Table, a: AggregateExpression) {
    forall p :: p in Positions(ChunkSizes(t)) ==> !Refuses(a.Function(), Argument(t, a)(p))
  }

  lemma {:induction false} TakenPairs(t: Table, columns: seq<nat>, a: AggregateExpression, ps: seq<RowId>, group: Row)
    requires forall k :: 0 <= k < |ps| ==> !Refuses(a.Function(), Argument(t, a)(ps[k]))
    ensures a.Function().StringAgg? ==> AllText(PairValues(PairsIn(t, columns, a, ps, group)))
  {
    if ps != [] {
      TakenPairs(t, columns, a, ps[..|ps| - 1], group);
    }
  }

  /** What the contexts hold at the end of the passes. */
  ghost predicate Aggregated(t: Table, columns: seq<nat>, aggregates: seq<AggregateExpression>, contexts: seq<Context>,
                             idOf: map<Key, nat>, keyOf: RowId -> Key, first: RowId -> Cell) {
    var ps := Positions(ChunkSizes(t));
    && contexts != [] && Injective(idOf) && KeysMatchGroups(t, columns, keyOf)
    && Represents(contexts[0].f, contexts[0].results, idOf, keyOf, first, ps)
    && |aggregates| <= |contexts|
    && (forall a :: 0 <= a < |aggregates| ==> contexts[a].f == aggregates[a].Function() && Takes(t, aggregates[a]))
    && (forall a :: 0 <= a < |aggregates| ==>
          Represents(contexts[a].f, contexts[a].results, idOf, keyOf, Argument(t, aggregates[a]), ps))
  }

  /** The witness rows of the live results: one row of every group, no group twice. */
  lemma WitnessesExact(f: AggregateFunction, results: seq<AggregateResult>, idOf: map<Key, nat>, keyOf: RowId -> Key,
                       cellOf: RowId -> Cell, ps: seq<RowId>, witnesses: seq<RowId>)
    requires Represents(f, results, idOf, keyOf, cellOf, ps) && Injective(idOf)
    requires witnesses == Map(WitnessIn(results), Live(results))
    ensures forall k :: 0 <= k < |witnesses| ==> witnesses[k] in ps && idOf[keyOf(witnesses[k])] == Live(results)[k]
    ensures forall i, k :: 0 <= i < k < |witnesses| ==> keyOf(witnesses[i]) != keyOf(witnesses[k])
    ensures forall p :: p in ps ==> exists k :: 0 <= k < |witnesses| && keyOf(witnesses[k]) == keyOf(p)
  {
    var live := Live(results);
    TrueOffsetsAscend(LiveBits(results));
    forall k | 0 <= k < |witnesses|
      ensures witnesses[k] in ps && idOf[keyOf(witnesses[k])] == live[k]
    {
      assert live[k] in live;
      LiveExact(f, results, idOf, keyOf, cellOf, ps, live[k]);
      var p :| p in ps && idOf[keyOf(p)] == live[k];
      assert Holds(results[live[k]], f, keyOf, cellOf, ps, keyOf(p));
    }
    forall p | p in ps
      ensures exists k :: 0 <= k < |witnesses| && keyOf(witnesses[k]) == keyOf(p)
    {
      LiveExact(f, results, idOf, keyOf, cellOf, ps, idOf[keyOf(p)]);
      var k :| 0 <= k < |live| && live[k] == idOf[keyOf(p)];
      assert keyOf(witnesses[k]) == keyOf(p);
    }
  }

  /** What a context holds for the group of row w. */
  lemma ResultOfGroup(t: Table, columns: seq<nat>, a: AggregateExpression, context: Context, idOf: map<Key, nat>,
                      keyOf: RowId -> Key, w: RowId)
    requires KeysMatchGroups(t, columns, keyOf) && w in Positions(ChunkSizes(t)) && context.f == a.Function()
    requires Represents(context.f, context.results, idOf, keyOf, Argument(t, a), Positions(ChunkSizes(t)))
    ensures idOf[keyOf(w)] < |context.results|
    ensures var r := context.results[idOf[keyOf(w)]];
            var pairs := PairsIn(t, columns, a, Positions(ChunkSizes(t)), GroupRow(t, columns, w));
            r.accumulator == Fold(context.f, pairs) && r.count == |pairs|
  {
    var ps := Positions(ChunkSizes(t));
    assert Holds(context.results[idOf[keyOf(w)]], context.f, keyOf, Argument(t, a), ps, keyOf(w));
    assert forall k :: 0 <= k < |ps| ==> ps[k] in ps;
    PairsByKey(t, columns, a, keyOf, ps, w);
  }

  lemma CellIsAggregate(t: Table, columns: seq<nat>, a: AggregateExpression, context: Context, idOf: map<Key, nat>,
                        keyOf: RowId -> Key, w: RowId)
    requires KeysMatchGroups(t, columns, keyOf) && w in Positions(ChunkSizes(t)) && context.f == a.Function()
    requires Represents(context.f, context.results, idOf, keyOf, Argument(t, a), Positions(ChunkSizes(t)))
    requires Takes(t, a)
    ensures idOf[keyOf(w)] < |context.results|
    ensures var pairs := PairsIn(t, columns, a, Positions(ChunkSizes(t)), GroupRow(t, columns, w));
            && IsAggregate(a.Function(), PairValues(pairs), FinishedIn(context.f, context.results)(idOf[keyOf(w)]))
            && (a.Function().StringAgg? ==> AllText(PairValues(pairs)))
            && (a.Function().StringAgg? ==> CollectedIn(context.results)(idOf[keyOf(w)]) == PairRows(pairs))
  {
    var ps := Positions(ChunkSizes(t));
    var pairs := PairsIn(t, columns, a, ps, GroupRow(t, columns, w));
    ResultOfGroup(t, columns, a, context, idOf, keyOf, w);
    assert forall k :: 0 <= k < |ps| ==> ps[k] in ps;
    TakenPairs(t, columns, a, ps, GroupRow(t, columns, w));
    FoldIsAggregate(context.f, pairs);
    StringsFold(pairs);
  }

  // ----- the rows that a STRING_AGG collects -----

  /** The rows that add a value to group g. */
  function AddsTo(keyOf: RowId -> Key, cellOf: RowId -> Cell, g: Key): RowId -> bool {
    p => keyOf(p) == g && cellOf(p).Val?
  }

  lemma {:induction false} GroupRowsFiltered(keyOf: RowId -> Key, cellOf: RowId -> Cell, ps: seq<RowId>, g: Key)
    ensures PairRows(GroupPairs(keyOf, cellOf, ps, g)) == Filter(AddsTo(keyOf, cellOf, g), ps)
  {
    if ps != [] {
      var front, p := ps[..|ps| - 1], ps[|ps| - 1];
      GroupRowsFiltered(keyOf, cellOf, front, g);
      assert ps == front + [p];
      FilterSnoc(AddsTo(keyOf, cellOf, g), front, p);
      if AddsTo(keyOf, cellOf, g)(p) {
        PairRowsSnoc(GroupPairs(keyOf, cellOf, front, g), Pair(p, cellOf(p).v));
      }
    }
  }

  lemma GroupRowsInOrder(t: Table, keyOf: RowId -> Key, cellOf: RowId -> Cell, g: Key)
    ensures RowsOfGroup(t, PairRows(GroupPairs(keyOf, cellOf, Positions(ChunkSizes(t)), g)))
  {
    var ps := Positions(ChunkSizes(t));
    GroupRowsFiltered(keyOf, cellOf, ps, g);
    PositionsOrdered(ChunkSizes(t));
    FilterKeepsOrder(AddsTo(keyOf, cellOf, g), ps);
    var rows := Filter(AddsTo(keyOf, cellOf, g), ps);
    assert forall k :: 0 <= k < |rows| ==> rows[k] in rows;
  }

  lemma CollectedPairs(results: seq<AggregateResult>, idOf: map<Key, nat>, keyOf: RowId -> Key, cellOf: RowId -> Cell,
                       ps: seq<RowId>, k: nat) returns (g: Key)
    requires Represents(StringAgg, results, idOf, keyOf, cellOf, ps) && k < |results| && results[k] != Blank(StringAgg)
    ensures results[k].accumulator == Fold(StringAgg, GroupPairs(keyOf, cellOf, ps, g))
  {
    var p :| p in ps && idOf[keyOf(p)] == k;
    assert Holds(results[k], StringAgg, keyOf, cellOf, ps, keyOf(p));
    g := keyOf(p);
  }

  lemma CollectedRows(t: Table, results: seq<AggregateResult>, idOf: map<Key, nat>, keyOf: RowId -> Key,
                      cellOf: RowId -> Cell, k: nat)
    requires Represents(StringAgg, results, idOf, keyOf, cellOf, Positions(ChunkSizes(t))) && k < |results|
    ensures RowsOfGroup(t, CollectedIn(results)(k))
  {
    if results[k] != Blank(StringAgg) {
      var g := CollectedPairs(results, idOf, keyOf, cellOf, Positions(ChunkSizes(t)), k);
      StringsFold(GroupPairs(keyOf, cellOf, Positions(ChunkSizes(t)), g));
      GroupRowsInOrder(t, keyOf, cellOf, g);
    }
  }

  predicate NeedsNull(f: AggregateFunction) {
    !f.Count? && !f.CountDistinct?
  }

  /** One cell per witness row: the aggregate of the row's group. */
  ghost predicate ColumnExact(t: Table, columns: seq<nat>, a: AggregateExpression, witnesses: seq<RowId>,
                              cells: Segment) {
    |cells| == |witnesses| &&
    forall k :: 0 <= k < |witnesses| ==>
      IsAggregateOf(t, a, PairsIn(t, columns, a, Positions(ChunkSizes(t)), GroupRow(t, columns, witnesses[k])),
                    cells[k])
  }

  ghost predicate ColumnsExact(t: Table, columns: seq<nat>, aggregates: seq<AggregateExpression>,
                               witnesses: seq<RowId>, values: seq<Segment>) {
    |values| <= |aggregates| &&
    forall a :: 0 <= a < |values| ==> ColumnExact(t, columns, aggregates[a], witnesses, values[a])
  }

  lemma ColumnsSnoc(t: Table, columns: seq<nat>, aggregates: seq<AggregateExpression>,
                    witnesses: seq<RowId>, values: seq<Segment>, cells: Segment)
    requires ColumnsExact(t, columns, aggregates, witnesses, values) && |values| < |aggregates|
    requires ColumnExact(t, columns, aggregates[|values|], witnesses, cells)
    ensures ColumnsExact(t, columns, aggregates, witnesses, values + [cells])
  {
    forall a | 0 <= a < |values + [cells]|
      ensures ColumnExact(t, columns, aggregates[a], witnesses, (values + [cells])[a])
    {
      if a < |values| {
        assert ColumnExact(t, columns, aggregates[a], witnesses, values[a]);
      }
    }
  }

  /** One aggregate column: a cell per witness row, in the order of the first context. */
  method WriteAggregateOutput(t: Table, columns: seq<nat>, a: AggregateExpression, context: Context,
                              ghost head: Context, ghost first: RowId -> Cell, ghost witnesses: seq<RowId>,
                              ghost idOf: map<Key, nat>, ghost keyOf: RowId -> Key)
    returns (cells: Segment)
    requires ValidTable(t) && a.Fits(t) && Takes(t, a)
    requires KeysMatchGroups(t, columns, keyOf) && Injective(idOf) && context.f == a.Function()
    requires Represents(head.f, head.results, idOf, keyOf, first, Positions(ChunkSizes(t)))
    requires Represents(context.f, context.results, idOf, keyOf, Argument(t, a), Positions(ChunkSizes(t)))
    requires |witnesses| == |Live(head.results)|
    requires forall k :: 0 <= k < |witnesses| ==>
               witnesses[k] in Positions(ChunkSizes(t)) && idOf[keyOf(witnesses[k])] == Live(head.results)[k]
    ensures ColumnExact(t, columns, a, witnesses, cells)
  {
    SameLive(head.f, head.results, context.f, context.results, idOf, keyOf, first, Argument(t, a),
             Positions(ChunkSizes(t)));
    if a.OrderedStrings? {
      forall k | 0 <= k < |context.results|
        ensures RowsOfGroup(t, CollectedIn(context.results)(k))
      {
        CollectedRows(t, context.results, idOf, keyOf, Argument(t, a), k);
      }
      cells := WriteOrderedStrings(t, a.column, a.order, context.results);
    } else {
      cells := WriteAggregateValues(context.f, context.results);
    }
    forall k | 0 <= k < |witnesses|
      ensures IsAggregateOf(t, a, PairsIn(t, columns, a, Positions(ChunkSizes(t)), GroupRow(t, columns, witnesses[k])),
                            cells[k])
    {
      CellIsAggregate(t, columns, a, context, idOf, keyOf, witnesses[k]);
    }
  }

  method WriteAggregates(t: Table, columns: seq<nat>, aggregates: seq<AggregateExpression>, contexts: seq<Context>,
                         ghost idOf: map<Key, nat>, ghost keyOf: RowId -> Key, ghost first: RowId -> Cell,
                         ghost witnesses: seq<RowId>)
    returns (values: seq<Segment>)
    requires ValidTable(t) && forall a :: 0 <= a < |aggregates| ==> aggregates[a].Fits(t)
    requires Aggregated(t, columns, aggregates, contexts, idOf, keyOf, first)
    requires |witnesses| == |Live(contexts[0].results)|
    requires forall k :: 0 <= k < |witnesses| ==>
               witnesses[k] in Positions(ChunkSizes(t)) && idOf[keyOf(witnesses[k])] == Live(contexts[0].results)[k]
    ensures |values| == |aggregates| && ColumnsExact(t, columns, aggregates, witnesses, values)
  {
    values := [];
    for a := 0 to |aggregates|
      invariant |values| == a && ColumnsExact(t, columns, aggregates, witnesses, values)
    {
      var cells := WriteAggregateOutput(t, columns, aggregates[a], contexts[a], contexts[0], first, witnesses, idOf,
                                        keyOf);
      ColumnsSnoc(t, columns, aggregates, witnesses, values, cells);
      values := values + [cells];
    }
  }

  /** Writes the GROUP BY columns from the first context, then one column per aggregate. */
  method WriteOutput(t: Table, columns: seq<nat>, aggregates: seq<AggregateExpression>, contexts: seq<Context>,
                     ghost idOf: map<Key, nat>, ghost keyOf: RowId -> Key, ghost first: RowId -> Cell)
    returns (groups: seq<Segment>, values: seq<Segment>, ghost n: nat)
    requires ValidTable(t) && forall c :: 0 <= c < |columns| ==> columns[c] < |t.definitions|
    requires forall a :: 0 <= a < |aggregates| ==> aggregates[a].Fits(t)
    requires Aggregated(t, columns, aggregates, contexts, idOf, keyOf, first)
    ensures |groups| == |columns| && |values| == |aggregates| && SegmentsOf(groups, n) && SegmentsOf(values, n)
    ensures IsGroupBy(t, columns, aggregates, OutputRows(groups, values, n))
  {
    ghost var ps := Positions(ChunkSizes(t));
    var witnesses := WitnessRows(contexts[0].results);
    WitnessesExact(contexts[0].f, contexts[0].results, idOf, keyOf, first, ps, witnesses);
    n := |witnesses|;
    groups := WriteGroupByOutput(t, columns, witnesses);
    values := WriteAggregates(t, columns, aggregates, contexts, idOf, keyOf, first, witnesses);
    assert forall a :: 0 <= a < |values| ==> ColumnExact(t, columns, aggregates[a], witnesses, values[a]);
    GroupsOfWitnesses(t, columns, witnesses, groups, values);
    GroupsListed(t, columns, keyOf, witnesses, OutputRows(groups, values, n));
    RowsExact(t, columns, aggregates, witnesses, groups, values);
  }

  lemma GroupsOfWitnesses(t: Table, columns: seq<nat>, witnesses: seq<RowId>, groups: seq<Segment>,
                          values: seq<Segment>)
    requires |groups| == |columns| && SegmentsOf(groups, |witnesses|) && SegmentsOf(values, |witnesses|)
    requires forall c, k :: 0 <= c < |groups| && 0 <= k < |witnesses| ==>
               groups[c][k] == CellAt(t, witnesses[k], columns[c])
    ensures forall k :: 0 <= k < |witnesses| ==>
              OutputRows(groups, values, |witnesses|)[k].group == GroupRow(t, columns, witnesses[k])
  {
    forall k | 0 <= k < |witnesses|
      ensures OutputRows(groups, values, |witnesses|)[k].group == GroupRow(t, columns, witnesses[k])
    {
      assert RowIn(groups, |witnesses|, k) == GroupRow(t, columns, witnesses[k]);
    }
  }

  lemma GroupsListed(t: Table, columns: seq<nat>, keyOf: RowId -> Key, witnesses: seq<RowId>, rows: seq<OutputRow>)
    requires KeysMatchGroups(t, columns, keyOf) && |rows| == |witnesses|
    requires forall k :: 0 <= k < |witnesses| ==> rows[k].group == GroupRow(t, columns, witnesses[k])
    requires forall k :: 0 <= k < |witnesses| ==> witnesses[k] in Positions(ChunkSizes(t))
    requires forall i, k :: 0 <= i < k < |witnesses| ==> keyOf(witnesses[i]) != keyOf(witnesses[k])
    requires forall p :: p in Positions(ChunkSizes(t)) ==>
               exists k :: 0 <= k < |witnesses| && keyOf(witnesses[k]) == keyOf(p)
    ensures ListsGroups(t, columns, rows)
  {
    forall i, k | 0 <= i < k < |rows|
      ensures rows[i].group != rows[k].group
    {
      assert InRange(witnesses[i], ChunkSizes(t)) && InRange(witnesses[k], ChunkSizes(t));
      assert keyOf(witnesses[i]) != keyOf(witnesses[k]);
    }
    forall group: Row | IsGroup(t, columns, group)
      ensures Listed(rows, group)
    {
      var p :| p in Positions(ChunkSizes(t)) && group == GroupRow(t, columns, p);
      var k :| 0 <= k < |witnesses| && keyOf(witnesses[k]) == keyOf(p);
      assert InRange(witnesses[k], ChunkSizes(t)) && InRange(p, ChunkSizes(t));
      assert rows[k].group == group;
    }
  }

  lemma RowsExact(t: Table, columns: seq<nat>, aggregates: seq<AggregateExpression>, witnesses: seq<RowId>,
                  groups: seq<Segment>, values: seq<Segment>)
    requires |values| == |aggregates| && SegmentsOf(groups, |witnesses|) && SegmentsOf(values, |witnesses|)
    requires forall k :: 0 <= k < |witnesses| ==>
               OutputRows(groups, values, |witnesses|)[k].group == GroupRow(t, columns, witnesses[k])
    requires ColumnsExact(t, columns, aggregates, witnesses, values)
    ensures forall k :: 0 <= k < |witnesses| ==>
              CellsExact(t, columns, aggregates, OutputRows(groups, values, |witnesses|)[k])
  {
    forall k | 0 <= k < |witnesses|
      ensures CellsExact(t, columns, aggregates, OutputRows(groups, values, |witnesses|)[k])
    {
      var row := OutputRows(groups, values, |witnesses|)[k];
      forall a | 0 <= a < |aggregates|
        ensures IsAggregateOf(t, aggregates[a],
                              PairsIn(t, columns, aggregates[a], Positions(ChunkSizes(t)), row.group), row.cells[a])
      {
        assert ColumnExact(t, columns, aggregates[a], witnesses, values[a]);
        assert row.cells[a] == values[a][k];
      }
    }
  }
}
