/** STRING_AGG with ORDER BY inside the group: sorting the group's rows and joining their strings. */
module OrderedStringAgg {
  import opened Sequences
  import opened Storage
  import opened SortOperator
  import Aggregates

  /** A cell as `Get` returns it: the NULL flag is not looked at. */
  function StoredCell(t: Table, p: RowId, c: nat): Value {
    Stored(CellAt(t, p, c), TypeOf(t, c))
  }

  function TypeOf(t: Table, c: nat): DataType {
    if c < |t.definitions| then t.definitions[c].dataType else IntType
  }

  /** The table the sort passes see. */
  function StoredTable(t: Table): (r: Table)
    ensures r.definitions == t.definitions && ChunkSizes(r) == ChunkSizes(t)
  {
    var r := Table(t.definitions, seq(|t.chunks|, i requires 0 <= i < |t.chunks| => StoredChunk(t, t.chunks[i])));
    assert ChunkSizes(r) == ChunkSizes(t);
    r
  }

  function StoredChunk(t: Table, chunk: Chunk): (r: Chunk)
    ensures |r| == |chunk| && ChunkSize(r) == ChunkSize(chunk)
    ensures forall c :: 0 <= c < |r| ==> |r[c]| == |chunk[c]|
    ensures forall c, k :: 0 <= c < |r| && 0 <= k < |r[c]| ==> r[c][k] == Val(Stored(chunk[c][k], TypeOf(t, c)))
  {
    seq(|chunk|, c requires 0 <= c < |chunk| =>
      seq(|chunk[c]|, k requires 0 <= k < |chunk[c]| => Val(Stored(chunk[c][k], TypeOf(t, c)))))
  }

  lemma StoredAt(t: Table, p: RowId, c: nat)
    requires ValidTable(t) && InRange(p, ChunkSizes(t)) && c < |t.definitions|
    ensures CellAt(StoredTable(t), p, c) == Val(StoredCell(t, p, c))
  {
    assert StoredTable(t).chunks[p.chunk] == StoredChunk(t, t.chunks[p.chunk]);
  }

  ghost predicate RowsOfGroup(t: Table, rows: seq<RowId>) {
    && (forall k :: 0 <= k < |rows| ==> InRange(rows[k], ChunkSizes(t)))
    && (forall i, j :: 0 <= i < j < |rows| ==> Before(rows[i], rows[j]))
  }

  ghost predicate ColumnsExist(t: Table, columns: seq<SortColumn>) {
    forall k :: 0 <= k < |columns| ==> columns[k].column < |t.definitions|
  }

  /** MaterializeSortColumn: one entry per row, whatever its NULL flag. */
  method MaterializePairs(t: Table, c: nat, rows: seq<RowId>) returns (pairs: seq<Pair>)
    requires ValidTable(t) && c < |t.definitions| && forall k :: 0 <= k < |rows| ==> InRange(rows[k], ChunkSizes(t))
    ensures pairs == ValueRows(StoredTable(t), c, rows) && NullRows(StoredTable(t), c, rows) == []
  {
    pairs := [];
    for k := 0 to |rows|
      invariant pairs == ValueRows(StoredTable(t), c, rows[..k]) && NullRows(StoredTable(t), c, rows[..k]) == []
    {
      TakeNext(rows, k);
      TakeTwice(rows, k);
      StoredAt(t, rows[k], c);
      pairs := pairs + [Pair(rows[k], StoredCell(t, rows[k], c))];
    }
    TakeAll(rows);
  }

  /** A permutation of the group's rows, ordered by the given columns. */
  ghost predicate SortedBy(t: Table, columns: seq<SortColumn>, rows: seq<RowId>, order: seq<RowId>) {
    && multiset(order) == multiset(rows) && |order| == |rows|
    && LexOrdered(StoredTable(t), columns, order)
    && forall m :: 0 <= m < |order| ==> InRange(order[m], ChunkSizes(t))
  }

  lemma GroupStep(t: Table, columns: seq<SortColumn>, k: nat, rows: seq<RowId>, order: seq<RowId>)
    requires ValidTable(t) && k < |columns| && SortedBy(t, columns[k + 1..], rows, order)
    ensures SortedBy(t, columns[k..], rows, Pass(StoredTable(t), columns[k], order))
  {
    PassStaysInRange(StoredTable(t), columns[k], order);
    PassOrders(StoredTable(t), columns[k + 1..], columns[k], order);
    assert columns[k..] == [columns[k]] + columns[k + 1..];
  }

  lemma PassStaysInRange(t: Table, column: SortColumn, rows: seq<RowId>)
    requires forall k :: 0 <= k < |rows| ==> InRange(rows[k], ChunkSizes(t))
    ensures var r := Pass(t, column, rows);
            multiset(r) == multiset(rows) && |r| == |rows| && forall k :: 0 <= k < |r| ==> InRange(r[k], ChunkSizes(t))
  {
    var r := Pass(t, column, rows);
    PassPermutes(t, column, rows);
    PermutedLength(r, rows);
    forall k | 0 <= k < |r|
      ensures InRange(r[k], ChunkSizes(t))
    {
      PermutedMembers(r, rows, r[k]);
    }
  }

  /** The passes over the sort definitions, least significant first. */
  method SortGroup(t: Table, rows: seq<RowId>, columns: seq<SortColumn>) returns (previous: seq<RowId>)
    requires ValidTable(t) && RowsOfGroup(t, rows) && ColumnsExist(t, columns)
    ensures columns == [] ==> previous == []
    ensures columns != [] ==> multiset(previous) == multiset(rows) && LexOrdered(StoredTable(t), columns, previous)
  {
    ghost var order := rows;
    previous := [];
    var k := |columns|;
    assert columns[k..] == [];
    while k > 0
      invariant 0 <= k <= |columns|
      invariant previous == if k == |columns| then [] else order
      invariant k == |columns| ==> order == rows
      invariant SortedBy(t, columns[k..], rows, order)
    {
      k := k - 1;
      GroupStep(t, columns, k, rows, order);
      var from := if previous != [] then previous else rows;
      var pairs := MaterializePairs(t, columns[k].column, from);
      previous := PairRows(StableSort(pairs, columns[k].mode));
      NoNullPass(StoredTable(t), columns[k], order, pairs);
      order := Pass(StoredTable(t), columns[k], order);
    }
    assert columns[0..] == columns;
  }

  lemma NoNullPass(t: Table, column: SortColumn, rows: seq<RowId>, pairs: seq<Pair>)
    requires pairs == ValueRows(t, column.column, rows) && NullRows(t, column.column, rows) == []
    ensures Pass(t, column, rows) == PairRows(StableSort(pairs, column.mode))
  {}

  function TextsOf(t: Table, c: nat, rows: seq<RowId>): (r: seq<Value>)
    ensures |r| == |rows| && forall k :: 0 <= k < |r| ==> r[k] == StoredCell(t, rows[k], c)
  {
    seq(|rows|, k requires 0 <= k < |rows| => StoredCell(t, rows[k], c))
  }

  /** SQL's text of the group's rows in the given order; nothing is joined without sort columns. */
  ghost predicate IsOrderedText(t: Table, c: nat, columns: seq<SortColumn>, rows: seq<RowId>, cell: Cell) {
    if rows == [] then cell == Null
    else if columns == [] then cell == Val(Text([]))
    else exists order :: JoinsInOrder(t, c, columns, rows, order, cell)
  }

  ghost predicate JoinsInOrder(t: Table, c: nat, columns: seq<SortColumn>, rows: seq<RowId>, order: seq<RowId>,
                               cell: Cell) {
    && multiset(order) == multiset(rows) && LexOrdered(StoredTable(t), columns, order)
    && cell == Val(Text(Aggregates.JoinedWithComma(Aggregates.DropLeadingEmpty(TextsOf(t, c, order)))))
  }

  lemma OrderedTextUnique(t: Table, c: nat, columns: seq<SortColumn>, rows: seq<RowId>, x: Cell, y: Cell)
    requires IsOrderedText(t, c, columns, rows, x) && IsOrderedText(t, c, columns, rows, y)
    ensures x == y
  {
    if rows != [] && columns != [] {
      var order :| JoinsInOrder(t, c, columns, rows, order, x);
      var other :| JoinsInOrder(t, c, columns, rows, other, y);
      LexOrderedUnique(StoredTable(t), columns, order, other);
    }
  }

  /** The loop that joins the sorted strings. */
  method JoinTexts(t: Table, c: nat, sorted: seq<RowId>) returns (text: seq<Byte>)
    ensures text == Aggregates.Concatenated(TextsOf(t, c, sorted))
  {
    ghost var texts := TextsOf(t, c, sorted);
    text := [];
    for k := 0 to |sorted|
      invariant text == Aggregates.Concatenated(texts[..k])
    {
      TakeTwice(texts, k);
      if text != [] {
        text := text + [Aggregates.COMMA];
      }
      text := text + Aggregates.Bytes(StoredCell(t, sorted[k], c));
    }
    TakeAll(texts);
  }

  /** The output cell of one group. */
  method Concatenate(t: Table, c: nat, rows: seq<RowId>, columns: seq<SortColumn>) returns (r: Cell)
    requires ValidTable(t) && c < |t.definitions| && RowsOfGroup(t, rows) && ColumnsExist(t, columns)
    ensures IsOrderedText(t, c, columns, rows, r)
  {
    var sorted := SortGroup(t, rows, columns);
    var text := JoinTexts(t, c, sorted);
    if rows == [] {
      return Null;
    }
    r := Val(Text(text));
    if columns != [] {
      PermutedLength(sorted, rows);
      Aggregates.ConcatenatedExact(TextsOf(t, c, sorted));
      assert JoinsInOrder(t, c, columns, rows, sorted, r);
    }
  }
}
