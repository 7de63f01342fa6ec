/** SortOperator: one stable pass per sort column, least significant first, and the slicing into chunks. */
module SortOperator {
  import opened Sequences
  import opened Storage

  datatype SortMode = Ascending | Descending

  datatype SortColumn = SortColumn(column: nat, mode: SortMode)

  const CHUNK_DEFAULT_SIZE: nat := 65535

  predicate ValueBefore(a: Value, b: Value, mode: SortMode) {
    if mode.Ascending? then Less(a, b) else Less(b, a)
  }

  /** NULL comes before every value in both modes. */
  predicate CellBefore(a: Cell, b: Cell, mode: SortMode) {
    match (a, b)
    case (Null, Val(_)) => true
    case (Val(x), Val(y)) => ValueBefore(x, y, mode)
    case (_, Null) => false
  }

  /** The order the operator promises: by the first column, then the second, ..., ties in input order. */
  predicate LexBefore(t: Table, columns: seq<SortColumn>, p: RowId, q: RowId) {
    if columns == [] then Before(p, q)
    else
      var a, b := CellAt(t, p, columns[0].column), CellAt(t, q, columns[0].column);
      CellBefore(a, b, columns[0].mode) || (a == b && LexBefore(t, columns[1..], p, q))
  }

  ghost predicate LexOrdered(t: Table, columns: seq<SortColumn>, ps: seq<RowId>) {
    forall i, j :: 0 <= i < j < |ps| ==> LexBefore(t, columns, ps[i], ps[j])
  }

  /** A permutation of all row positions in the promised order. */
  ghost predicate IsSortOf(t: Table, columns: seq<SortColumn>, ps: seq<RowId>) {
    multiset(ps) == multiset(Positions(ChunkSizes(t))) && LexOrdered(t, columns, ps)
  }

  lemma {:induction false} LexIrreflexive(t: Table, columns: seq<SortColumn>, p: RowId, q: RowId)
    ensures !(LexBefore(t, columns, p, q) && LexBefore(t, columns, q, p))
  {
    OrderLaws();
    if columns != [] {
      LexIrreflexive(t, columns[1..], p, q);
    }
  }

  lemma PermutedTails(ps: seq<RowId>, qs: seq<RowId>)
    requires ps != [] && qs != [] && ps[0] == qs[0] && multiset(ps) == multiset(qs)
    ensures multiset(ps[1..]) == multiset(qs[1..])
  {
    assert ps == [ps[0]] + ps[1..] && qs == [qs[0]] + qs[1..];
    assert multiset(ps[1..]) == multiset(ps) - multiset{ps[0]};
    assert multiset(qs[1..]) == multiset(qs) - multiset{qs[0]};
  }

  /** The promised order determines the result. */
  lemma {:induction false} LexOrderedUnique(t: Table, columns: seq<SortColumn>, ps: seq<RowId>, qs: seq<RowId>)
    requires LexOrdered(t, columns, ps) && LexOrdered(t, columns, qs) && multiset(ps) == multiset(qs)
    ensures ps == qs
  {
    PermutedLength(ps, qs);
    if ps != [] {
      PermutedMembers(ps, qs, ps[0]);
      PermutedMembers(ps, qs, qs[0]);
      if ps[0] != qs[0] {
        LexIrreflexive(t, columns, ps[0], qs[0]);
        assert false;
      }
      PermutedTails(ps, qs);
      LexOrderedUnique(t, columns, ps[1..], qs[1..]);
    }
  }

  // ----- one pass -----

  function Insert(e: Pair, s: seq<Pair>, mode: SortMode): seq<Pair> {
    if s != [] && ValueBefore(s[0].value, e.value, mode) then [s[0]] + Insert(e, s[1..], mode) else [e] + s
  }

  /** The library's std::stable_sort by value. */
  function StableSort(s: seq<Pair>, mode: SortMode): seq<Pair> {
    if s == [] then [] else Insert(s[0], StableSort(s[1..], mode), mode)
  }

  lemma InsertPermutes(e: Pair, s: seq<Pair>, mode: SortMode)
    ensures multiset(Insert(e, s, mode)) == multiset(s) + multiset{e}
  {
    if s != [] && ValueBefore(s[0].value, e.value, mode) {
      InsertPermutes(e, s[1..], mode);
      assert s == [s[0]] + s[1..];
    }
  }

  lemma StableSortPermutes(s: seq<Pair>, mode: SortMode)
    ensures multiset(StableSort(s, mode)) == multiset(s)
  {
    if s != [] {
      StableSortPermutes(s[1..], mode);
      InsertPermutes(s[0], StableSort(s[1..], mode), mode);
      assert s == [s[0]] + s[1..];
    }
  }

  ghost predicate PairBefore(t: Table, columns: seq<SortColumn>, mode: SortMode, a: Pair, b: Pair) {
    ValueBefore(a.value, b.value, mode) || (a.value == b.value && LexBefore(t, columns, a.row, b.row))
  }

  ghost predicate EntriesOrdered(t: Table, columns: seq<SortColumn>, mode: SortMode, es: seq<Pair>) {
    forall i, j :: 0 <= i < j < |es| ==> PairBefore(t, columns, mode, es[i], es[j])
  }

  lemma FirstStaysBefore(t: Table, columns: seq<SortColumn>, e: Pair, s: seq<Pair>, mode: SortMode)
    requires EntriesOrdered(t, columns, mode, s) && (s != [] ==> !ValueBefore(s[0].value, e.value, mode))
    requires forall k :: 0 <= k < |s| ==> LexBefore(t, columns, e.row, s[k].row)
    ensures forall k :: 0 <= k < |s| ==> PairBefore(t, columns, mode, e, s[k])
  {
    OrderLaws();
    forall k | 0 <= k < |s|
      ensures PairBefore(t, columns, mode, e, s[k])
    {
      assert k > 0 ==> PairBefore(t, columns, mode, s[0], s[k]);
    }
  }

  lemma {:induction false} InsertOrders(t: Table, columns: seq<SortColumn>, e: Pair, s: seq<Pair>, mode: SortMode)
    requires EntriesOrdered(t, columns, mode, s)
    requires forall k :: 0 <= k < |s| ==> LexBefore(t, columns, e.row, s[k].row)
    ensures EntriesOrdered(t, columns, mode, Insert(e, s, mode))
  {
    if s != [] && ValueBefore(s[0].value, e.value, mode) {
      InsertOrders(t, columns, e, s[1..], mode);
      var rest := Insert(e, s[1..], mode);
      InsertPermutes(e, s[1..], mode);
      forall k | 0 <= k < |rest|
        ensures PairBefore(t, columns, mode, s[0], rest[k])
      {
        assert rest[k] in multiset(rest);
        if rest[k] != e {
          assert rest[k] in s[1..];
        }
      }
    } else {
      FirstStaysBefore(t, columns, e, s, mode);
    }
  }

  /** Sorting by one more column in front keeps the order that the later columns already gave. */
  lemma {:induction false} StableSortOrders(t: Table, columns: seq<SortColumn>, s: seq<Pair>, mode: SortMode)
    requires LexOrdered(t, columns, PairRows(s))
    ensures EntriesOrdered(t, columns, mode, StableSort(s, mode))
  {
    if s != [] {
      forall i, j | 0 <= i < j < |s[1..]|
        ensures LexBefore(t, columns, s[1..][i].row, s[1..][j].row)
      {
        assert LexBefore(t, columns, PairRows(s)[i + 1], PairRows(s)[j + 1]);
      }
      StableSortOrders(t, columns, s[1..], mode);
      var rest := StableSort(s[1..], mode);
      StableSortPermutes(s[1..], mode);
      forall k | 0 <= k < |rest|
        ensures LexBefore(t, columns, s[0].row, rest[k].row)
      {
        assert rest[k] in multiset(rest);
        var m :| 0 <= m < |s[1..]| && s[1..][m] == rest[k];
        assert LexBefore(t, columns, PairRows(s)[0], PairRows(s)[m + 1]);
      }
      InsertOrders(t, columns, s[0], rest, mode);
    }
  }

  /** The rows of ps whose cell is NULL, and the entries of the others; both in the order of ps. */
  function NullRows(t: Table, c: nat, ps: seq<RowId>): seq<RowId> {
    if ps == [] then []
    else
      var front, p := NullRows(t, c, ps[..|ps| - 1]), ps[|ps| - 1];
      if CellAt(t, p, c).Null? then front + [p] else front
  }

  function ValueRows(t: Table, c: nat, ps: seq<RowId>): seq<Pair> {
    if ps == [] then []
    else
      var front, p := ValueRows(t, c, ps[..|ps| - 1]), ps[|ps| - 1];
      match CellAt(t, p, c)
      case Null => front
      case Val(v) => front + [Pair(p, v)]
  }

  /** One pass of the operator as a function of the order so far. */
  function Pass(t: Table, column: SortColumn, ps: seq<RowId>): seq<RowId> {
    NullRows(t, column.column, ps) + PairRows(StableSort(ValueRows(t, column.column, ps), column.mode))
  }

  lemma {:induction false} SplitRows(t: Table, c: nat, ps: seq<RowId>)
    ensures multiset(ps) == multiset(NullRows(t, c, ps)) + multiset(PairRows(ValueRows(t, c, ps)))
  {
    if ps != [] {
      var p := ps[|ps| - 1];
      SplitRows(t, c, ps[..|ps| - 1]);
      assert ps == ps[..|ps| - 1] + [p];
      if CellAt(t, p, c).Val? {
        PairRowsSnoc(ValueRows(t, c, ps[..|ps| - 1]), Pair(p, CellAt(t, p, c).v));
      }
    }
  }

  lemma {:induction false} SplitMembers(t: Table, c: nat, ps: seq<RowId>)
    ensures forall p :: p in NullRows(t, c, ps) ==> p in ps && CellAt(t, p, c).Null?
    ensures forall e :: e in ValueRows(t, c, ps) ==> e.row in ps && CellAt(t, e.row, c) == Val(e.value)
  {
    if ps != [] {
      SplitMembers(t, c, ps[..|ps| - 1]);
    }
  }

  lemma {:induction false} SplitKeepsOrder(t: Table, columns: seq<SortColumn>, c: nat, ps: seq<RowId>)
    requires LexOrdered(t, columns, ps)
    ensures LexOrdered(t, columns, NullRows(t, c, ps))
    ensures LexOrdered(t, columns, PairRows(ValueRows(t, c, ps)))
  {
    if ps != [] {
      var n := |ps| - 1;
      SplitKeepsOrder(t, columns, c, ps[..n]);
      SplitMembers(t, c, ps[..n]);
      var nulls, values := NullRows(t, c, ps[..n]), ValueRows(t, c, ps[..n]);
      forall k | 0 <= k < |nulls|
        ensures LexBefore(t, columns, nulls[k], ps[n])
      {
        assert nulls[k] in ps[..n];
      }
      forall k | 0 <= k < |values|
        ensures LexBefore(t, columns, values[k].row, ps[n])
      {
        assert values[k] in values && values[k].row in ps[..n];
      }
    }
  }

  lemma PassPermutes(t: Table, column: SortColumn, ps: seq<RowId>)
    ensures multiset(Pass(t, column, ps)) == multiset(ps)
  {
    var es := ValueRows(t, column.column, ps);
    SplitRows(t, column.column, ps);
    StableSortPermutes(es, column.mode);
    MapPermuted((e: Pair) => e.row, StableSort(es, column.mode), es);
  }

  /** A pass puts its column in front of the columns sorted before. */
  lemma PassOrders(t: Table, columns: seq<SortColumn>, column: SortColumn, ps: seq<RowId>)
    requires LexOrdered(t, columns, ps)
    ensures LexOrdered(t, [column] + columns, Pass(t, column, ps))
  {
    var c := column.column;
    var es := ValueRows(t, c, ps);
    var nulls, sorted := NullRows(t, c, ps), StableSort(es, column.mode);
    SplitMembers(t, c, ps);
    SplitKeepsOrder(t, columns, c, ps);
    StableSortPermutes(es, column.mode);
    StableSortOrders(t, columns, es, column.mode);
    assert ([column] + columns)[1..] == columns;
    assert forall k :: 0 <= k < |nulls| ==> nulls[k] in nulls;
    forall k | 0 <= k < |sorted|
      ensures CellAt(t, sorted[k].row, c) == Val(sorted[k].value)
    {
      assert sorted[k] in multiset(sorted);
      assert sorted[k] in es;
    }
    var out := Pass(t, column, ps);
    forall i, j | 0 <= i < j < |out|
      ensures LexBefore(t, [column] + columns, out[i], out[j])
    {
      if i >= |nulls| {
        assert PairBefore(t, columns, column.mode, sorted[i - |nulls|], sorted[j - |nulls|]);
      } else if j < |nulls| {
        assert LexBefore(t, columns, nulls[i], nulls[j]);
      }
    }
  }

  class SortImplementation {
    const table: Table
    const column: SortColumn
    var rowIdValuePairs: seq<Pair>
    var nullValueRows: seq<RowId>

    constructor (table: Table, column: SortColumn)
      ensures this.table == table && this.column == column
      ensures rowIdValuePairs == [] && nullValueRows == []
    {
      this.table, this.column := table, column;
      rowIdValuePairs, nullValueRows := [], [];
    }

    /** The order to start from: the given one, or the input order when there is none yet. */
    function Start(previous: seq<RowId>): seq<RowId> {
      if previous == [] then Positions(ChunkSizes(table)) else previous
    }

    method AddRow(p: RowId, ghost ps: seq<RowId>)
      requires rowIdValuePairs == ValueRows(table, column.column, ps)
      requires nullValueRows == NullRows(table, column.column, ps)
      modifies this
      ensures rowIdValuePairs == ValueRows(table, column.column, ps + [p])
      ensures nullValueRows == NullRows(table, column.column, ps + [p])
    {
      assert (ps + [p])[..|ps|] == ps;
      match CellAt(table, p, column.column)
      case Null => nullValueRows := nullValueRows + [p];
      case Val(v) => rowIdValuePairs := rowIdValuePairs + [Pair(p, v)];
    }

    method MaterializeColumnFromPositionList(previous: seq<RowId>)
      requires rowIdValuePairs == [] && nullValueRows == []
      modifies this
      ensures rowIdValuePairs == ValueRows(table, column.column, previous)
      ensures nullValueRows == NullRows(table, column.column, previous)
    {
      for k := 0 to |previous|
        invariant rowIdValuePairs == ValueRows(table, column.column, previous[..k])
        invariant nullValueRows == NullRows(table, column.column, previous[..k])
      {
        AddRow(previous[k], previous[..k]);
        TakeNext(previous, k);
      }
      TakeAll(previous);
    }

    method MaterializeChunkRows(i: nat, ghost before: seq<RowId>)
      requires i < |table.chunks|
      requires rowIdValuePairs == ValueRows(table, column.column, before)
      requires nullValueRows == NullRows(table, column.column, before)
      modifies this
      ensures rowIdValuePairs ==
              ValueRows(table, column.column, before + ChunkPositions(i, ChunkSize(table.chunks[i])))
      ensures nullValueRows ==
              NullRows(table, column.column, before + ChunkPositions(i, ChunkSize(table.chunks[i])))
    {
      ghost var seen := before;
      assert before + ChunkPositions(i, 0) == before;
      for k := 0 to ChunkSize(table.chunks[i])
        invariant seen == before + ChunkPositions(i, k)
        invariant rowIdValuePairs == ValueRows(table, column.column, seen)
        invariant nullValueRows == NullRows(table, column.column, seen)
      {
        AddRow(RowId(i, k), seen);
        PositionsSnoc(before, i, k);
        seen := seen + [RowId(i, k)];
      }
    }

    method MaterializeSortColumn(previous: seq<RowId>)
      requires rowIdValuePairs == [] && nullValueRows == []
      modifies this
      ensures rowIdValuePairs == ValueRows(table, column.column, Start(previous))
      ensures nullValueRows == NullRows(table, column.column, Start(previous))
    {
      if previous != [] {
        MaterializeColumnFromPositionList(previous);
      } else {
        ghost var sizes := ChunkSizes(table);
        for i := 0 to |table.chunks|
          invariant rowIdValuePairs == ValueRows(table, column.column, Positions(sizes[..i]))
          invariant nullValueRows == NullRows(table, column.column, Positions(sizes[..i]))
        {
          MaterializeChunkRows(i, Positions(sizes[..i]));
          PositionsNext(sizes, i);
        }
        TakeAll(sizes);
      }
    }

    method Sort(previous: seq<RowId>) returns (positions: seq<RowId>)
      requires rowIdValuePairs == [] && nullValueRows == []
      modifies this
      ensures positions == Pass(table, column, Start(previous))
    {
      MaterializeSortColumn(previous);
      rowIdValuePairs := StableSort(rowIdValuePairs, column.mode);
      positions := nullValueRows + PairRows(rowIdValuePairs);
    }
  }

  // ----- output chunks -----

  function CellOf(t: Table, c: nat): RowId -> Cell {
    p => CellAt(t, p, c)
  }

  function Slice(t: Table, ps: seq<RowId>): (r: Chunk)
    ensures |r| == |t.definitions|
    ensures forall c :: 0 <= c < |r| ==> r[c] == Map(CellOf(t, c), ps)
  {
    seq(|t.definitions|, c requires 0 <= c < |t.definitions| => Map(CellOf(t, c), ps))
  }

  lemma SliceRows(t: Table, ps: seq<RowId>)
    requires ValidTable(t) && |t.definitions| > 0
    requires forall k :: 0 <= k < |ps| ==> InRange(ps[k], ChunkSizes(t))
    ensures ValidChunk(t.definitions, Slice(t, ps)) && ChunkSize(Slice(t, ps)) == |ps|
    ensures ChunkRows(Slice(t, ps)) == Map(RowOf(t), ps)
  {
    forall k | 0 <= k < |ps|
      ensures ChunkRow(Slice(t, ps), k) == RowAt(t, ps[k])
    {}
  }

  ghost predicate NullAt(t: Table, ps: seq<RowId>) {
    exists k, c :: 0 <= k < |ps| && 0 <= c < |t.definitions| && CellAt(t, ps[k], c) == Null
  }

  /** The job of one output chunk; `ok` is false where std::get throws on a NULL. */
  method MaterializeChunk(t: Table, ps: seq<RowId>) returns (ok: bool, chunk: Chunk)
    ensures ok <==> !NullAt(t, ps)
    ensures ok ==> chunk == Slice(t, ps)
  {
    ok, chunk := true, [];
    for c := 0 to |t.definitions|
      invariant |chunk| == c
      invariant forall d :: 0 <= d < c ==> chunk[d] == Map(CellOf(t, d), ps)
      invariant forall d, k :: 0 <= d < c && 0 <= k < |ps| ==> CellAt(t, ps[k], d) != Null
    {
      var values: Segment := [];
      for k := 0 to |ps|
        invariant values == Map(CellOf(t, c), ps[..k])
        invariant forall m :: 0 <= m < k ==> CellAt(t, ps[m], c) != Null
      {
        var cell := CellAt(t, ps[k], c);
        if cell.Null? {
          return false, [];
        }
        values := values + [cell];
      }
      TakeAll(ps);
      chunk := chunk + [values];
    }
  }

  function Ceil(n: nat, d: nat): nat
    requires d > 0
  {
    n / d + if n % d == 0 then 0 else 1
  }

  lemma CeilStep(n: nat, d: nat, k: nat)
    requires d > 0
    ensures k * d < n <==> k < Ceil(n, d)
  {
    BelowQuotient(n, d, n / d, n % d, k);
  }

  lemma Scaled(a: nat, b: nat, d: nat)
    requires a <= b
    ensures a * d <= b * d
  {}

  lemma BelowQuotient(n: nat, d: nat, q: nat, r: nat, k: nat)
    requires n == q * d + r && r < d
    ensures k * d < n <==> k < q + if r == 0 then 0 else 1
  {
    if k <= q {
      Scaled(k, q, d);
      if k < q {
        Scaled(k + 1, q, d);
        assert (k + 1) * d == k * d + d;
      }
    } else {
      Scaled(q + 1, k, d);
      assert (q + 1) * d == q * d + d;
    }
  }

  /** The positions of output chunk k. */
  function SliceOf(ps: seq<RowId>, size: nat, k: nat): seq<RowId> {
    var start := if k * size <= |ps| then k * size else |ps|;
    var end := if start + size <= |ps| then start + size else |ps|;
    ps[start..end]
  }

  /** The first k slices of ps, as a table. */
  ghost predicate SlicesDone(t: Table, ps: seq<RowId>, size: nat, done: nat, out: Table) {
    && done <= |ps| && out.definitions == t.definitions && ValidTable(out)
    && AreSlices(t, ps, size, out.chunks)
    && Rows(out) == Map(RowOf(t), ps[..done])
  }

  ghost predicate AreSlices(t: Table, ps: seq<RowId>, size: nat, chunks: seq<Chunk>) {
    forall k :: 0 <= k < |chunks| ==> chunks[k] == Slice(t, SliceOf(ps, size, k))
  }

  lemma OneMoreSlice(t: Table, ps: seq<RowId>, size: nat, chunks: seq<Chunk>, chunk: Chunk)
    requires AreSlices(t, ps, size, chunks) && chunk == Slice(t, SliceOf(ps, size, |chunks|))
    ensures AreSlices(t, ps, size, chunks + [chunk])
  {}

  lemma OneMoreValid(out: Table, chunk: Chunk)
    requires ValidTable(out) && ValidChunk(out.definitions, chunk)
    ensures ValidTable(out.(chunks := out.chunks + [chunk]))
  {}

  lemma NextSlice(t: Table, ps: seq<RowId>, size: nat, start: nat, end: nat, out: Table, chunk: Chunk)
    requires ValidTable(t) && |t.definitions| > 0
    requires forall k :: 0 <= k < |ps| ==> InRange(ps[k], ChunkSizes(t))
    requires SlicesDone(t, ps, size, start, out) && start == |out.chunks| * size && start <= end
    requires end == if start + size <= |ps| then start + size else |ps|
    requires chunk == Slice(t, ps[start..end])
    ensures SlicesDone(t, ps, size, end, out.(chunks := out.chunks + [chunk]))
  {
    SliceRows(t, ps[start..end]);
    assert ps[start..end] == SliceOf(ps, size, |out.chunks|);
    NextSliceRows(t, ps, start, end, out, chunk);
    OneMoreValid(out, chunk);
    OneMoreSlice(t, ps, size, out.chunks, chunk);
  }

  lemma NextSliceRows(t: Table, ps: seq<RowId>, start: nat, end: nat, out: Table, chunk: Chunk)
    requires start <= end <= |ps| && ValidTable(out) && ValidChunk(out.definitions, chunk)
    requires Rows(out) == Map(RowOf(t), ps[..start]) && ChunkRows(chunk) == Map(RowOf(t), ps[start..end])
    ensures Rows(out.(chunks := out.chunks + [chunk])) == Map(RowOf(t), ps[..end])
  {
    RowsSnoc(out, chunk);
    assert ps[..end] == ps[..start] + ps[start..end];
    MapAppend(RowOf(t), ps[..start], ps[start..end]);
  }

  lemma OneMoreTimes(k: nat, size: nat)
    ensures (k + 1) * size == k * size + size
  {}

  method MaterializeSlices(t: Table, ps: seq<RowId>, size: nat) returns (ok: bool, out: Table)
    requires ValidTable(t) && |t.definitions| > 0 && size > 0
    requires forall k :: 0 <= k < |ps| ==> InRange(ps[k], ChunkSizes(t))
    ensures ok <==> !NullAt(t, ps)
    ensures ok ==> SlicesDone(t, ps, size, |ps|, out) && |out.chunks| == Ceil(|ps|, size)
  {
    ok, out := true, t.(chunks := []);
    var start, done := 0, 0;
    assert Rows(out) == [];
    CeilStep(|ps|, size, 0);
    while start < |ps|
      invariant start == |out.chunks| * size && done == if start <= |ps| then start else |ps|
      invariant |out.chunks| <= Ceil(|ps|, size)
      invariant SlicesDone(t, ps, size, done, out) && !NullAt(t, ps[..done])
      decreases |ps| - start
    {
      CeilStep(|ps|, size, |out.chunks|);
      OneMoreTimes(|out.chunks|, size);
      ok, done, out := MaterializeSlice(t, ps, size, start, out);
      if !ok {
        return;
      }
      start := start + size;
    }
    CeilStep(|ps|, size, |out.chunks|);
    NoNullLeft(t, ps, done);
  }

  lemma NoNullLeft(t: Table, ps: seq<RowId>, done: nat)
    requires done == |ps| && !NullAt(t, ps[..done])
    ensures !NullAt(t, ps)
  {
    assert ps[..done] == ps;
  }

  /** The next output chunk. */
  method MaterializeSlice(t: Table, ps: seq<RowId>, size: nat, start: nat, out: Table)
    returns (ok: bool, end: nat, more: Table)
    requires ValidTable(t) && |t.definitions| > 0
    requires forall k :: 0 <= k < |ps| ==> InRange(ps[k], ChunkSizes(t))
    requires start < |ps| && start == |out.chunks| * size
    requires SlicesDone(t, ps, size, start, out) && !NullAt(t, ps[..start])
    ensures end == if start + size <= |ps| then start + size else |ps|
    ensures !ok ==> NullAt(t, ps)
    ensures ok ==> SlicesDone(t, ps, size, end, more) && |more.chunks| == |out.chunks| + 1 && !NullAt(t, ps[..end])
  {
    end := if start + size <= |ps| then start + size else |ps|;
    var chunk;
    ok, chunk := MaterializeChunk(t, ps[start..end]);
    NullSplit(t, ps, start, end);
    more := out;
    if ok {
      NextSlice(t, ps, size, start, end, out, chunk);
      more := out.(chunks := out.chunks + [chunk]);
    }
  }

  /** Fails on an empty single chunk (division by zero), and where a value is NULL. */
  method MaterializeOutputTable(t: Table, ps: seq<RowId>, singleChunk: bool) returns (r: Result<Table>)
    requires ValidTable(t) && |t.definitions| > 0
    requires forall k :: 0 <= k < |ps| ==> InRange(ps[k], ChunkSizes(t))
    ensures r == Failed(AssertionFailed) <==> |ps| != RowCount(t)
    ensures r == Failed(DivisionByZero) <==> |ps| == RowCount(t) == 0 && singleChunk
    ensures r == Failed(BadVariantAccess) <==> |ps| == RowCount(t) && NullAt(t, ps)
    ensures r.Failed? ==> r.reason in {AssertionFailed, DivisionByZero, BadVariantAccess}
    ensures r.Ok? ==> r.value.definitions == t.definitions && ValidTable(r.value)
    ensures r.Ok? ==> Rows(r.value) == Map(RowOf(t), ps)
    ensures r.Ok? ==>
              var size := if singleChunk then |ps| else CHUNK_DEFAULT_SIZE;
              && |r.value.chunks| == Ceil(|ps|, size)
              && AreSlices(t, ps, size, r.value.chunks)
  {
    if |ps| != RowCount(t) {
      return Failed(AssertionFailed);
    }
    var size := if singleChunk then |ps| else CHUNK_DEFAULT_SIZE;
    if size == 0 {
      return Failed(DivisionByZero);
    }
    var ok, out := MaterializeSlices(t, ps, size);
    TakeAll(ps);
    r := if ok then Ok(out) else Failed(BadVariantAccess);
  }

  lemma NullSplit(t: Table, ps: seq<RowId>, start: nat, end: nat)
    requires start <= end <= |ps|
    ensures NullAt(t, ps[..end]) <==> NullAt(t, ps[..start]) || NullAt(t, ps[start..end])
    ensures NullAt(t, ps[..end]) ==> NullAt(t, ps)
  {
    if k, c :| 0 <= k < end && 0 <= c < |t.definitions| && CellAt(t, ps[..end][k], c) == Null {
      assert CellAt(t, ps[k], c) == Null;
      if k < start {
        assert ps[..start][k] == ps[k];
      } else {
        assert ps[start..end][k - start] == ps[k];
      }
    }
    if k, c :| 0 <= k < start && 0 <= c < |t.definitions| && CellAt(t, ps[..start][k], c) == Null {
      assert ps[..end][k] == ps[..start][k];
    }
    if k, c :| 0 <= k < end - start && 0 <= c < |t.definitions| && CellAt(t, ps[start..end][k], c) == Null {
      assert ps[..end][start + k] == ps[start..end][k];
    }
  }

  // ----- the operator -----

  /** SortOperator::OnExecute. */
  method Execute(t: Table, columns: seq<SortColumn>) returns (r: Result<Table>, ghost positions: seq<RowId>)
    requires ValidTable(t) && columns != []
    ensures r == Failed(AssertionFailed) <==> exists k :: 0 <= k < |columns| && columns[k].column >= |t.definitions|
    ensures r == Failed(BadVariantAccess) <==>
              HasNull(t) && forall k :: 0 <= k < |columns| ==> columns[k].column < |t.definitions|
    ensures r.Failed? ==> r.reason in {AssertionFailed, BadVariantAccess}
    ensures r.Ok? ==> IsSortOf(t, columns, positions) && Rows(r.value) == Map(RowOf(t), positions)
    ensures r.Ok? ==> r.value.definitions == t.definitions && ValidTable(r.value)
    ensures r.Ok? && RowCount(t) > 0 ==> |r.value.chunks| == (RowCount(t) + 65534) / 65535
    ensures r.Ok? && RowCount(t) > 0 ==>
              forall k :: 0 <= k < |r.value.chunks| - 1 ==> ChunkSize(r.value.chunks[k]) == 65535
  {
    for k := 0 to |columns|
      invariant forall m :: 0 <= m < k ==> columns[m].column < |t.definitions|
    {
      if columns[k].column >= |t.definitions| {
        return Failed(AssertionFailed), [];
      }
    }
    PositionsOrdered(ChunkSizes(t));
    positions := Positions(ChunkSizes(t));
    NullReached(t, positions);
    if RowCount(t) == 0 {
      assert positions == [];
      return Ok(t), positions;
    }
    var order := SortPositions(t, columns);
    positions := order;
    PermutedLength(positions, Positions(ChunkSizes(t)));
    forall m | 0 <= m < |positions|
      ensures InRange(positions[m], ChunkSizes(t))
    {
      PermutedMembers(positions, Positions(ChunkSizes(t)), positions[m]);
    }
    NullReached(t, positions);
    r := MaterializeOutputTable(t, order, false);
    if r.Ok? {
      FullChunks(t, order, r.value.chunks);
    }
  }

  /** All output chunks but the last one are full. */
  lemma FullChunks(t: Table, ps: seq<RowId>, chunks: seq<Chunk>)
    requires |t.definitions| > 0 && AreSlices(t, ps, CHUNK_DEFAULT_SIZE, chunks)
    requires |chunks| == Ceil(|ps|, CHUNK_DEFAULT_SIZE)
    ensures |chunks| == (|ps| + 65534) / 65535
    ensures forall k :: 0 <= k < |chunks| - 1 ==> ChunkSize(chunks[k]) == 65535
  {
    forall k | 0 <= k < |chunks| - 1
      ensures ChunkSize(chunks[k]) == 65535
    {
      CeilStep(|ps|, CHUNK_DEFAULT_SIZE, k + 1);
      assert |SliceOf(ps, CHUNK_DEFAULT_SIZE, k)| == 65535;
      assert chunks[k] == Slice(t, SliceOf(ps, CHUNK_DEFAULT_SIZE, k));
    }
  }

  /** The loop over the sort definitions, from the least significant to the first. */
  method SortPositions(t: Table, columns: seq<SortColumn>) returns (previous: seq<RowId>)
    requires ValidTable(t) && columns != [] && RowCount(t) > 0
    ensures IsSortOf(t, columns, previous)
  {
    ghost var positions := Positions(ChunkSizes(t));
    PositionsOrdered(ChunkSizes(t));
    previous := [];
    var k := |columns|;
    assert columns[k..] == [];
    while k > 0
      invariant 0 <= k <= |columns|
      invariant previous == if k == |columns| then [] else positions
      invariant k == |columns| ==> positions == Positions(ChunkSizes(t))
      invariant IsSortOf(t, columns[k..], positions)
    {
      k := k - 1;
      SortStep(t, columns, k, positions);
      var pass := new SortImplementation(t, columns[k]);
      assert pass.Start(previous) == positions;
      previous := pass.Sort(previous);
      positions := Pass(t, columns[k], positions);
    }
    assert columns[0..] == columns;
  }

  lemma SortStep(t: Table, columns: seq<SortColumn>, k: nat, ps: seq<RowId>)
    requires k < |columns| && RowCount(t) > 0 && IsSortOf(t, columns[k + 1..], ps)
    ensures IsSortOf(t, columns[k..], Pass(t, columns[k], ps)) && ps != []
  {
    PermutedLength(ps, Positions(ChunkSizes(t)));
    PassPermutes(t, columns[k], ps);
    PassOrders(t, columns[k + 1..], columns[k], ps);
    assert columns[k..] == [columns[k]] + columns[k + 1..];
  }

  lemma NullReached(t: Table, ps: seq<RowId>)
    requires ValidTable(t) && multiset(ps) == multiset(Positions(ChunkSizes(t)))
    ensures NullAt(t, ps) <==> HasNull(t)
  {
    if HasNull(t) {
      var i, c :| 0 <= i < |t.chunks| && 0 <= c < |t.chunks[i]| && Null in t.chunks[i][c];
      var k :| 0 <= k < |t.chunks[i][c]| && t.chunks[i][c][k] == Null;
      assert InRange(RowId(i, k), ChunkSizes(t));
      PermutedMembers(ps, Positions(ChunkSizes(t)), RowId(i, k));
      var m :| 0 <= m < |ps| && ps[m] == RowId(i, k);
      assert CellAt(t, ps[m], c) == Null;
    }
    if k, c :| 0 <= k < |ps| && 0 <= c < |t.definitions| && CellAt(t, ps[k], c) == Null {
      PermutedMembers(ps, Positions(ChunkSizes(t)), ps[k]);
      assert InRange(ps[k], ChunkSizes(t));
      assert t.chunks[ps[k].chunk][c][ps[k].offset] in t.chunks[ps[k].chunk][c];
    }
  }
}
