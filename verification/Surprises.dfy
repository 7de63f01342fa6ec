/** The operators on concrete inputs for which they do not do what one would expect. */
module Surprises {
  import opened Sequences
  import opened Storage
  import opened JoinMatching
  import opened JoinReference
  import opened JoinOperator
  import opened Partitioning
  import opened AggregateOperator
  import opened AggregateOutput
  import opened AggregateExecution
  import Aggregates
  import PartitionOperator
  import SortOperator
  import SortedMerge

  const KEY := ColumnDefinition(IntType, false)
  const PAYLOAD := ColumnDefinition(IntType, true)
  const SEVEN := Val(Int(7))

  /** One row, a key. */
  function OneKey(): Table {
    Table([KEY], [[[SEVEN]]])
  }

  /** One row, a key and NULL. */
  function OneNull(): Table {
    Table([KEY, PAYLOAD], [[[SEVEN], [Null]]])
  }

  /** An empty chunk. */
  function NoRow(): Table {
    Table([KEY], [[[]]])
  }

  /** An empty chunk, then a chunk with a row. */
  function LateRow(): Table {
    Table([KEY], [[[]], [[SEVEN]]])
  }

  lemma OneRow(t: Table)
    requires |t.chunks| == 1 && ChunkSize(t.chunks[0]) == 1
    ensures ChunkSizes(t) == [1] && RowCount(t) == 1 && Positions(ChunkSizes(t)) == [RowId(0, 0)]
    ensures Rows(t) == [RowAt(t, RowId(0, 0))]
  {
    assert ChunkSizes(t) == [1] && [1][..0] == [];
    assert Positions([]) == [] && ChunkPositions(0, 1) == [RowId(0, 0)];
  }

  lemma OneKeyHeld(t: Table)
    requires t == OneKey() || t == OneNull()
    ensures ValidTable(t) && ChunkSizes(t) == [1] && StoredColumn(t, 0) == [[Int(7)]]
  {
    OneRow(t);
    assert StoredColumn(t, 0)[0] == [Int(7)];
  }

  lemma BagOfOne<T>(s: seq<T>, x: T)
    requires multiset(s) == multiset([x])
    ensures s == [x]
  {
    PermutedLength(s, [x]);
    PermutedMembers(s, [x], s[0]);
  }

  /** Two inputs of one row with the same key. */
  lemma OneMatch(keys: Keys, others: Keys, v: Value)
    requires keys == [[v]] && others == [[v]]
    ensures NestedLoop(keys, others) == [Joined(RowId(0, 0), RowId(0, 0))]
  {
    NestedLoopExact(keys, others);
    var p := RowId(0, 0);
    forall j: Joined
      ensures Partners(keys, others, j) <==> j == Joined(p, p)
    {
      if j == Joined(p, p) {
        assert At(keys, p, v) && At(others, p, v);
      }
    }
    SameMembers(NestedLoop(keys, others), [Joined(p, p)]);
    BagOfOne(NestedLoop(keys, others), Joined(p, p));
  }

  lemma SevenBesideSeven(left: Table, right: Table, p: RowId)
    requires left == OneNull() && right == OneKey() && p == RowId(0, 0)
    ensures MatchedRow(left, right, Joined(p, p)) == [SEVEN, Val(Int(0)), SEVEN]
  {
    assert CellAt(left, p, 0) == SEVEN && CellAt(left, p, 1) == Null && CellAt(right, p, 0) == SEVEN;
    assert RowAt(left, p) == [SEVEN, Null] && RowAt(right, p) == [SEVEN];
    assert StoredRow(RowAt(left, p), left.definitions) == [SEVEN, Val(Int(0))];
    assert StoredRow(RowAt(right, p), right.definitions) == [SEVEN];
  }

  /** Both inputs can be joined on their first columns by either algorithm. */
  ghost predicate Joinable(left: Table, right: Table) {
    && ValidTable(left) && ValidTable(right) && |left.definitions| > 0 && |right.definitions| > 0
    && !left.definitions[0].nullable && !right.definitions[0].nullable
    && left.definitions[0].dataType == right.definitions[0].dataType
    && [] !in StoredColumn(left, 0)
    && SortedMerge.SortedChunks(StoredColumn(left, 0)) && SortedMerge.SortedChunks(StoredColumn(right, 0))
  }

  method InnerJoin(left: Table, right: Table, algorithm: Algorithm, ghost row: Row) returns (r: Result<Table>)
    requires Joinable(left, right)
    requires ReferenceJoin(left, right, StoredColumn(left, 0), StoredColumn(right, 0), Inner) == [row]
    ensures r.Ok? && Rows(r.value) == [row]
  {
    var join := new JoinOperator(left, right, 0, 0, Inner, algorithm);
    r := join.Execute();
    BagOfOne(Rows(r.value), row);
  }

  lemma SevensJoinable(left: Table, right: Table)
    requires left == OneNull() && right == OneKey()
    ensures Joinable(left, right)
  {
    OneKeyHeld(left);
    OneKeyHeld(right);
    assert forall i :: 0 <= i < 1 ==> StoredColumn(left, 0)[i] == [Int(7)];
  }

  lemma SevensJoined(left: Table, right: Table)
    requires left == OneNull() && right == OneKey()
    ensures ValidTable(left) && ValidTable(right)
    ensures ReferenceJoin(left, right, StoredColumn(left, 0), StoredColumn(right, 0), Inner) ==
            [[SEVEN, Val(Int(0)), SEVEN]]
  {
    OneKeyHeld(left);
    OneKeyHeld(right);
    var p := RowId(0, 0);
    OneMatch(StoredColumn(left, 0), StoredColumn(right, 0), Int(7));
    SevenBesideSeven(left, right, p);
    assert Map(MatchedRowOf(left, right), [Joined(p, p)]) == [MatchedRow(left, right, Joined(p, p))];
  }

  /** Either join turns the NULL of a payload column into 0. */
  method NullBecomesZero(algorithm: Algorithm) returns (r: Result<Table>)
    ensures r.Ok? && Rows(r.value) == [[SEVEN, Val(Int(0)), SEVEN]]
  {
    var left, right := OneNull(), OneKey();
    SevensJoinable(left, right);
    SevensJoined(left, right);
    r := InnerJoin(left, right, algorithm, [SEVEN, Val(Int(0)), SEVEN]);
  }

  lemma NothingToRead(left: Table, right: Table)
    requires left == NoRow() && right == OneKey()
    ensures ValidTable(left) && StoredColumn(left, 0) == [[]]
    ensures SortedMerge.ReadsEmptyChunk(StoredColumn(left, 0), StoredColumn(right, 0))
  {
    assert ChunkSize(left.chunks[0]) == 0;
    OneKeyHeld(right);
    var keys := StoredColumn(left, 0);
    assert keys[0] == [] && keys[0] in keys;
    assert keys == [[]];
    assert StoredColumn(right, 0)[0] != [];
  }

  /** An empty left chunk makes the merge join throw, whatever the mode, while the hash join of the same tables ends. */
  method EmptyLeftChunk(mode: JoinMode) returns (merged: Result<Table>, hashed: Result<Table>)
    ensures merged == Failed(OutOfRange) && hashed.Ok?
  {
    var left, right := NoRow(), OneKey();
    NothingToRead(left, right);
    OneKeyHeld(right);
    var merge := new JoinOperator(left, right, 0, 0, mode, SortedMergeJoin);
    merged := merge.Execute();
    var hash := new JoinOperator(left, right, 0, 0, mode, HashJoin);
    hashed := hash.Execute();
  }

  lemma TwoSizes(sizes: seq<nat>, a: nat, b: nat)
    requires sizes == [a, b]
    ensures Sum(sizes) == a + b
  {
    assert sizes[..|sizes| - 1] == [a] && [a][..0] == [];
    assert Sum([a]) == Sum([a][..0]) + a;
  }

  lemma LateRowSizes(t: Table)
    requires t == LateRow()
    ensures ValidTable(t) && ChunkSizes(t) == [0, 1] && RowCount(t) == 1 && !Compact(ChunkSizes(t))
  {
    var sizes := ChunkSizes(t);
    assert |t.chunks| == 2 && t.chunks[0] == [[]] && t.chunks[1] == [[SEVEN]];
    assert ValidChunk(t.definitions, t.chunks[0]) && ValidChunk(t.definitions, t.chunks[1]);
    assert sizes[0] == ChunkSize(t.chunks[0]) == 0 && sizes[1] == ChunkSize(t.chunks[1]) == 1;
    assert sizes == [0, 1];
    TwoSizes(sizes, 0, 1);
  }

  /** After an empty chunk the cursor names a row that does not exist. */
  method LostCursor(combine: HashCombine) returns (ok: bool, lists: seq<seq<RowId>>)
    ensures ok && |lists| == 1 && exists p :: p in lists[0] && !InRange(p, ChunkSizes(LateRow()))
  {
    LateRowSizes(LateRow());
    ok, lists := Partition(LateRow(), combine, [0], 1);
  }

  lemma OneIsEmpty(combine: HashCombine)
    ensures ChunkSizes(OneKey()) == [1]
    ensures !PartitionOperator.NoneEmpty(OneKey(), combine, [0], 2, 2)
  {
    OneRow(OneKey());
    var p := RowId(0, 0);
    var i := if InPartition(OneKey(), combine, [0], 2, 0)(p) then 1 else 0;
    assert !InPartition(OneKey(), combine, [0], 2, i)(p);
    assert PartitionOf(OneKey(), combine, [0], 2, i) == [];
  }

  /** Two partitions of one row, sorted within: whatever the hash, one of them is empty. */
  method EmptyPartition(combine: HashCombine) returns (r: Result<Table>)
    ensures r == Failed(DivisionByZero)
  {
    OneRow(OneKey());
    OneIsEmpty(combine);
    ghost var orders;
    r, orders := PartitionOperator.Execute(OneKey(), combine, [0], 2, true);
  }

  /** A NULL in any column stops the sort, whatever column it sorts by. */
  method NullInSort(c: nat, mode: SortOperator.SortMode) returns (r: Result<Table>)
    requires c < 2
    ensures r == Failed(BadVariantAccess)
  {
    var t := OneNull();
    OneKeyHeld(t);
    assert t.chunks[0][1] == [Null] && Null in t.chunks[0][1];
    ghost var positions;
    r, positions := SortOperator.Execute(t, [SortOperator.SortColumn(c, mode)]);
  }

  /** STRING_AGG over an int column with a value in it fails, with a GROUP BY and without one. */
  method StringsOfInts(columns: seq<nat>) returns (r: Result<Table>)
    requires forall k :: 0 <= k < |columns| ==> columns[k] == 0
    ensures r == Failed(AssertionFailed)
  {
    var t := OneKey();
    OneInt(t);
    var operator := new AggregateHashOperator(t, columns, [OfColumn(Aggregates.StringAgg, 0)]);
    ghost var rows;
    r, rows := operator.Execute();
  }

  lemma OneInt(t: Table)
    requires t == OneKey()
    ensures ValidTable(t) && TypedTable(t) && RowCount(t) == 1 && AllFit(t, [OfColumn(Aggregates.StringAgg, 0)])
    ensures !Computable(t, [OfColumn(Aggregates.StringAgg, 0)])
  {
    var p := RowId(0, 0);
    OneKeyHeld(t);
    OneRow(t);
    assert CellAt(t, p, 0) == SEVEN && RowAt(t, p) == [SEVEN];
    assert p in Positions(ChunkSizes(t));
    assert HasValue(t, 0);
    assert RefusedByValue(t, [OfColumn(Aggregates.StringAgg, 0)][0]);
  }
}
