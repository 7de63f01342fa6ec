/** PartitionOperator: one output chunk per partition, sorted within the partition on request. */
module PartitionOperator {
  import opened Sequences
  import opened Storage
  import opened Partitioning
  import opened SortOperator
  import SortedMerge

  method MaterializePositions(t: Table, ps: seq<RowId>) returns (chunk: Chunk)
    requires ValidTable(t) && forall k :: 0 <= k < |ps| ==> InRange(ps[k], ChunkSizes(t))
    ensures chunk == Columns(t, ps)
  {
    chunk := [];
    for c := 0 to |t.definitions|
      invariant |chunk| == c
      invariant forall d :: 0 <= d < c ==> chunk[d] == Map(StoredCellOf(t, d), ps)
    {
      var values: Segment := [];
      for k := 0 to |ps|
        invariant values == Map(StoredCellOf(t, c), ps[..k])
      {
        CellSnoc(t, c, ps[..k], ps[k]);
        TakeNext(ps, k);
        values := values + [Val(Stored(t.chunks[ps[k].chunk][c][ps[k].offset], t.definitions[c].dataType))];
      }
      TakeAll(ps);
      chunk := chunk + [values];
    }
  }

  /** The last partition column becomes the most significant one. */
  function SortKeys(columns: seq<nat>): seq<SortColumn> {
    if columns == [] then []
    else [SortColumn(columns[|columns| - 1], Ascending)] + SortKeys(columns[..|columns| - 1])
  }

  /** The table that holds one partition before it is sorted. */
  function PartitionTable(t: Table, combine: HashCombine, columns: seq<nat>, n: nat, i: nat): Table
    requires n > 0 && forall k :: 0 <= k < |columns| ==> columns[k] < |t.definitions|
  {
    Table(t.definitions, [Columns(t, PartitionOf(t, combine, columns, n, i))])
  }

  /** The sort loop over the partition columns in ascending column order. */
  method SortPartition(part: Table, columns: seq<nat>) returns (previous: seq<RowId>)
    requires ValidTable(part)
    ensures columns != [] && RowCount(part) > 0 ==> IsSortOf(part, SortKeys(columns), previous)
    ensures columns == [] || RowCount(part) == 0 ==> previous == []
  {
    previous := [];
    ghost var order := Positions(ChunkSizes(part));
    PositionsOrdered(ChunkSizes(part));
    for k := 0 to |columns|
      invariant previous == (if k == 0 then [] else order)
      invariant k == 0 ==> order == Positions(ChunkSizes(part))
      invariant IsSortOf(part, SortKeys(columns[..k]), order)
    {
      PermutedLength(order, Positions(ChunkSizes(part)));
      TakeTwice(columns, k);
      var pass := new SortImplementation(part, SortColumn(columns[k], Ascending));
      assert pass.Start(previous) == order;
      NextKey(part, columns, k, order);
      previous := pass.Sort(previous);
      order := Pass(part, SortColumn(columns[k], Ascending), order);
    }
    PermutedLength(order, Positions(ChunkSizes(part)));
    TakeAll(columns);
  }

  lemma NextKey(part: Table, columns: seq<nat>, k: nat, order: seq<RowId>)
    requires k < |columns| && IsSortOf(part, SortKeys(columns[..k]), order)
    ensures IsSortOf(part, SortKeys(columns[..k + 1]), Pass(part, SortColumn(columns[k], Ascending), order))
  {
    PassPermutes(part, SortColumn(columns[k], Ascending), order);
    PassOrders(part, SortKeys(columns[..k]), SortColumn(columns[k], Ascending), order);
    TakeTwice(columns, k);
  }

  lemma SingleChunkTable(definitions: seq<ColumnDefinition>, chunk: Chunk)
    requires ValidChunk(definitions, chunk)
    ensures ValidTable(Table(definitions, [chunk]))
    ensures ChunkSizes(Table(definitions, [chunk])) == [ChunkSize(chunk)]
    ensures RowCount(Table(definitions, [chunk])) == ChunkSize(chunk)
    ensures Rows(Table(definitions, [chunk])) == ChunkRows(chunk)
  {
    var t := Table(definitions, []);
    RowsSnoc(t, chunk);
    assert Rows(t) == [];
    assert t.chunks + [chunk] == [chunk];
  }

  /** Columns read through `Values()` hold no NULL, so sorting a partition never meets one. */
  lemma NoNullInColumns(t: Table, ps: seq<RowId>, order: seq<RowId>)
    requires |t.definitions| > 0
    requires forall k :: 0 <= k < |order| ==> InRange(order[k], [|ps|])
    ensures !NullAt(Table(t.definitions, [Columns(t, ps)]), order)
  {}

  /** Sorting one partition; an empty partition divides by zero, a sort without columns fails an assertion. */
  method SortedPartition(t: Table, ps: seq<RowId>, columns: seq<nat>, chunk: Chunk)
    returns (r: Result<Chunk>, ghost order: seq<RowId>)
    requires |t.definitions| > 0 && chunk == Columns(t, ps)
    ensures r == Failed(DivisionByZero) <==> ps == []
    ensures r == Failed(AssertionFailed) <==> ps != [] && columns == []
    ensures r.Failed? ==> r.reason in {AssertionFailed, DivisionByZero}
    ensures r.Ok? ==> var part := Table(t.definitions, [chunk]);
              && IsSortOf(part, SortKeys(columns), order)
              && r.value == Slice(part, order)
  {
    var part := Table(t.definitions, [chunk]);
    ColumnsRows(t, ps);
    SingleChunkTable(t.definitions, chunk);
    var previous := SortPartition(part, columns);
    order := previous;
    if ps != [] && columns != [] {
      PermutedLength(previous, Positions(ChunkSizes(part)));
    }
    forall k | 0 <= k < |previous|
      ensures InRange(previous[k], ChunkSizes(part))
    {
      if ps != [] && columns != [] {
        PermutedMembers(previous, Positions(ChunkSizes(part)), previous[k]);
      }
    }
    NoNullInColumns(t, ps, previous);
    var sorted := MaterializeOutputTable(part, previous, true);
    match sorted {
      case Failed(reason) => r := Failed(reason);
      case Ok(out) =>
        assert SliceOf(previous, |previous|, 0) == previous;
        r := Ok(out.chunks[0]);
    }
  }

  /** What output chunk i holds. */
  ghost predicate HoldsPartition(t: Table, combine: HashCombine, columns: seq<nat>, n: nat, i: nat,
                                 sortWithin: bool, order: seq<RowId>, chunk: Chunk)
    requires n > 0 && forall k :: 0 <= k < |columns| ==> columns[k] < |t.definitions|
  {
    if sortWithin then
      && IsSortOf(PartitionTable(t, combine, columns, n, i), SortKeys(columns), order)
      && chunk == Slice(PartitionTable(t, combine, columns, n, i), order)
    else chunk == Columns(t, PartitionOf(t, combine, columns, n, i))
  }

  /** A sort within partitions without any partition column keeps no row order to materialise. */
  predicate SortsByNothing(t: Table, columns: seq<nat>, sortWithin: bool) {
    sortWithin && columns == [] && RowCount(t) > 0
  }

  /** Without partition columns all rows go to partition 0. */
  lemma AllInFirst(t: Table, combine: HashCombine, n: nat)
    requires n > 0
    ensures PartitionOf(t, combine, [], n, 0) == [] <==> RowCount(t) == 0
  {
    var ps := Positions(ChunkSizes(t));
    if ps != [] {
      assert InPartition(t, combine, [], n, 0)(ps[0]);
      assert ps[0] in PartitionOf(t, combine, [], n, 0);
    }
  }

  /** PartitionOperator::OnExecute. */
  method Execute(t: Table, combine: HashCombine, columns: seq<nat>, n: nat, sortWithin: bool)
    returns (r: Result<Table>, ghost orders: seq<seq<RowId>>)
    requires ValidTable(t) && |t.definitions| > 0 && n > 0
    requires Compact(ChunkSizes(t)) && RowCount(t) < SIZE_MAX
    ensures r == Failed(AssertionFailed) <==> !ColumnsFit(t, columns) || SortsByNothing(t, columns, sortWithin)
    ensures r == Failed(DivisionByZero) <==>
            (ColumnsFit(t, columns) && !SortsByNothing(t, columns, sortWithin) &&
             sortWithin && !NoneEmpty(t, combine, columns, n, n))
    ensures r.Failed? ==> r.reason in {AssertionFailed, DivisionByZero}
    ensures r.Ok? ==> r.value.definitions == t.definitions && |r.value.chunks| == n
    ensures r.Ok? ==> AllHold(t, combine, columns, n, sortWithin, orders, r.value.chunks)
  {
    orders := [];
    var ok, lists := Partition(t, combine, columns, n);
    if !ok {
      return Failed(AssertionFailed), [];
    }
    var chunks: seq<Chunk> := [];
    if columns == [] {
      AllInFirst(t, combine, n);
    }
    for i := 0 to n
      invariant sortWithin && columns == [] ==> i == 0
      invariant |chunks| == i && AllHold(t, combine, columns, n, sortWithin, orders, chunks)
      invariant sortWithin ==> NoneEmpty(t, combine, columns, n, i)
    {
      var chunk;
      ghost var order;
      NoneEmptyNext(t, combine, columns, n, i);
      chunk, order := MaterializePartition(t, combine, columns, n, i, sortWithin, lists[i]);
      if chunk.Failed? {
        return Failed(chunk.reason), orders;
      }
      PointwiseSnoc(Holder(t, combine, columns, n, sortWithin), orders, chunks, order, chunk.value);
      orders, chunks := orders + [order], chunks + [chunk.value];
    }
    r := Ok(Table(t.definitions, chunks));
  }

  ghost function Holder(t: Table, combine: HashCombine, columns: seq<nat>, n: nat, sortWithin: bool)
    : (nat, seq<RowId>, Chunk) -> bool
    requires n > 0 && forall k :: 0 <= k < |columns| ==> columns[k] < |t.definitions|
  {
    (i: nat, order: seq<RowId>, chunk: Chunk) => HoldsPartition(t, combine, columns, n, i, sortWithin, order, chunk)
  }

  /** Chunk i holds partition i. */
  ghost predicate AllHold(t: Table, combine: HashCombine, columns: seq<nat>, n: nat, sortWithin: bool,
                          orders: seq<seq<RowId>>, chunks: seq<Chunk>)
    requires n > 0 && forall k :: 0 <= k < |columns| ==> columns[k] < |t.definitions|
  {
    Pointwise(Holder(t, combine, columns, n, sortWithin), orders, chunks)
  }

  ghost predicate NoneEmpty(t: Table, combine: HashCombine, columns: seq<nat>, n: nat, i: nat)
    requires n > 0 && forall k :: 0 <= k < |columns| ==> columns[k] < |t.definitions|
  {
    forall m :: 0 <= m < i ==> PartitionOf(t, combine, columns, n, m) != []
  }

  lemma NoneEmptyNext(t: Table, combine: HashCombine, columns: seq<nat>, n: nat, i: nat)
    requires i < n && forall k :: 0 <= k < |columns| ==> columns[k] < |t.definitions|
    ensures NoneEmpty(t, combine, columns, n, i + 1) <==>
            NoneEmpty(t, combine, columns, n, i) && PartitionOf(t, combine, columns, n, i) != []
    ensures NoneEmpty(t, combine, columns, n, n) ==> PartitionOf(t, combine, columns, n, i) != []
  {}

  /** Output chunk i from the positions of partition i. */
  method MaterializePartition(t: Table, ghost combine: HashCombine, columns: seq<nat>, ghost n: nat, ghost i: nat,
                              sortWithin: bool, ps: seq<RowId>)
    returns (r: Result<Chunk>, ghost order: seq<RowId>)
    requires ValidTable(t) && |t.definitions| > 0 && n > 0
    requires forall k :: 0 <= k < |columns| ==> columns[k] < |t.definitions|
    requires ps == PartitionOf(t, combine, columns, n, i)
    ensures r == Failed(DivisionByZero) <==> sortWithin && ps == []
    ensures r == Failed(AssertionFailed) <==> sortWithin && ps != [] && columns == []
    ensures r.Failed? ==> r.reason in {AssertionFailed, DivisionByZero}
    ensures r.Ok? ==> HoldsPartition(t, combine, columns, n, i, sortWithin, order, r.value)
  {
    forall k | 0 <= k < |ps|
      ensures InRange(ps[k], ChunkSizes(t))
    {
      assert ps[k] in PartitionOf(t, combine, columns, n, i);
    }
    var chunk := MaterializePositions(t, ps);
    if sortWithin {
      r, order := SortedPartition(t, ps, columns, chunk);
    } else {
      r, order := Ok(chunk), [];
    }
  }

  lemma SliceOfPartition(part: Table, columns: seq<SortColumn>, order: seq<RowId>)
    requires ValidTable(part) && |part.definitions| > 0 && IsSortOf(part, columns, order)
    ensures ValidChunk(part.definitions, Slice(part, order))
    ensures multiset(ChunkRows(Slice(part, order))) == multiset(Rows(part))
  {
    forall k | 0 <= k < |order|
      ensures InRange(order[k], ChunkSizes(part))
    {
      PermutedMembers(order, Positions(ChunkSizes(part)), order[k]);
    }
    SliceRows(part, order);
    MapPermuted(RowOf(part), order, Positions(ChunkSizes(part)));
  }

  /** Sorted or not, output chunk i holds the rows of partition i. */
  lemma PartitionRows(t: Table, combine: HashCombine, columns: seq<nat>, n: nat, i: nat, sortWithin: bool,
                      order: seq<RowId>, chunk: Chunk)
    requires |t.definitions| > 0 && n > 0 && forall k :: 0 <= k < |columns| ==> columns[k] < |t.definitions|
    requires HoldsPartition(t, combine, columns, n, i, sortWithin, order, chunk)
    ensures ValidChunk(t.definitions, chunk)
    ensures multiset(ChunkRows(chunk)) == multiset(Map(StoredRowOf(t), PartitionOf(t, combine, columns, n, i)))
  {
    var ps := PartitionOf(t, combine, columns, n, i);
    ColumnsRows(t, ps);
    SingleChunkTable(t.definitions, Columns(t, ps));
    if sortWithin {
      SliceOfPartition(PartitionTable(t, combine, columns, n, i), SortKeys(columns), order);
    }
  }

  lemma PartitionTableFits(t: Table, combine: HashCombine, columns: seq<nat>, n: nat, i: nat)
    requires |t.definitions| > 0 && n > 0 && forall k :: 0 <= k < |columns| ==> columns[k] < |t.definitions|
    ensures var part := PartitionTable(t, combine, columns, n, i);
            ValidTable(part) && forall p, c: nat :: InRange(p, ChunkSizes(part)) && c < |t.definitions| ==>
                CellAt(part, p, c).Val?
  {
    var ps := PartitionOf(t, combine, columns, n, i);
    ColumnsRows(t, ps);
    SingleChunkTable(t.definitions, Columns(t, ps));
  }

  /** The values of the partition column ascend over the sorted positions. */
  lemma PartitionAscends(part: Table, c: nat, order: seq<RowId>)
    requires IsSortOf(part, SortKeys([c]), order) && c < |part.definitions|
    requires forall p :: InRange(p, ChunkSizes(part)) ==> CellAt(part, p, c).Val?
    ensures forall k :: 0 <= k < |order| ==> CellAt(part, order[k], c).Val?
    ensures forall a, b :: 0 <= a < b < |order| ==> !Less(CellAt(part, order[b], c).v, CellAt(part, order[a], c).v)
  {
    forall k | 0 <= k < |order|
      ensures CellAt(part, order[k], c).Val?
    {
      PermutedMembers(order, Positions(ChunkSizes(part)), order[k]);
    }
    forall a, b | 0 <= a < b < |order|
      ensures !Less(CellAt(part, order[b], c).v, CellAt(part, order[a], c).v)
    {
      assert LexBefore(part, SortKeys([c]), order[a], order[b]);
      OrderedOnOne(part, c, order[a], order[b]);
    }
  }

  /** With one partition column, a sorted partition is a chunk sorted the way the merge join needs it. */
  lemma SortedForMerge(t: Table, combine: HashCombine, c: nat, n: nat, i: nat, order: seq<RowId>, out: Table, j: nat)
    requires |t.definitions| > 0 && n > 0 && c < |t.definitions| && j < |out.chunks|
    requires HoldsPartition(t, combine, [c], n, i, true, order, out.chunks[j])
    requires ValidTable(out) && out.definitions == t.definitions
    ensures SortedMerge.SortedChunk(StoredColumn(out, c)[j])
  {
    var part := PartitionTable(t, combine, [c], n, i);
    PartitionTableFits(t, combine, [c], n, i);
    PartitionAscends(part, c, order);
    var cells := out.chunks[j][c];
    assert cells == Map(CellOf(part, c), order);
    forall a, b | 0 <= a < b < |cells|
      ensures !Less(StoredColumn(out, c)[j][b], StoredColumn(out, c)[j][a])
    {
      assert cells[a] == CellAt(part, order[a], c) && cells[b] == CellAt(part, order[b], c);
    }
  }

  lemma OrderedOnOne(t: Table, c: nat, p: RowId, q: RowId)
    requires LexBefore(t, SortKeys([c]), p, q) && CellAt(t, p, c).Val? && CellAt(t, q, c).Val?
    ensures !Less(CellAt(t, q, c).v, CellAt(t, p, c).v)
  {
    OrderLaws();
    assert SortKeys([c]) == [SortColumn(c, Ascending)] by {
      assert [c][..0] == [];
    }
  }
}
