/** Values, cells, chunks and tables as the operators see them. */
module Storage {
  import opened Sequences

  type Byte = b: int | 0 <= b < 256

  /** A value of one of the column types; all number types share exact arithmetic here. */
  datatype Value = Int(i: int) | Dec(r: real) | Text(bytes: seq<Byte>)

  /** An entry of a segment. */
  datatype Cell = Null | Val(v: Value)

  datatype DataType = IntType | LongType | FloatType | DoubleType | StringType

  datatype ColumnDefinition = ColumnDefinition(dataType: DataType, nullable: bool)

  type Segment = seq<Cell>
  type Chunk = seq<Segment>
  type Row = seq<Cell>

  datatype Table = Table(definitions: seq<ColumnDefinition>, chunks: seq<Chunk>)

  datatype RowId = RowId(chunk: nat, offset: nat)

  datatype Result<+T> = Ok(value: T) | Failed(reason: Failure)

  /** What stops an operator: a failed assertion, or an exception or trap of the C++ library call named. */
  datatype Failure =
    | AssertionFailed
    | OutOfRange
    | BadVariantAccess
    | DivisionByZero

  // ----- order on values -----

  predicate BytesLess(a: seq<Byte>, b: seq<Byte>) {
    b != [] && (a == [] || a[0] < b[0] || (a[0] == b[0] && BytesLess(a[1..], b[1..])))
  }

  /** The `<` of one column type; the order between different types is arbitrary but total. */
  predicate Less(a: Value, b: Value) {
    match (a, b)
    case (Int(x), Int(y)) => x < y
    case (Dec(x), Dec(y)) => x < y
    case (Text(x), Text(y)) => BytesLess(x, y)
    case (Int(_), _) => !b.Int?
    case (Dec(_), _) => b.Text?
    case (Text(_), _) => false
  }

  lemma {:induction false} BytesLessOrder(a: seq<Byte>, b: seq<Byte>)
    ensures !(BytesLess(a, b) && BytesLess(b, a))
    ensures a == b <==> !BytesLess(a, b) && !BytesLess(b, a)
  {
    if a != [] && b != [] && a[0] == b[0] {
      BytesLessOrder(a[1..], b[1..]);
      assert a == [a[0]] + a[1..] && b == [b[0]] + b[1..];
    }
  }

  lemma {:induction false} BytesLessTransitive(a: seq<Byte>, b: seq<Byte>, c: seq<Byte>)
    requires BytesLess(a, b) && BytesLess(b, c)
    ensures BytesLess(a, c)
  {
    if a != [] && a[0] == b[0] == c[0] {
      BytesLessTransitive(a[1..], b[1..], c[1..]);
    }
  }

  /** `Less` is a strict total order. */
  lemma LessTotal(a: Value, b: Value)
    ensures !(Less(a, b) && Less(b, a))
    ensures a == b <==> !Less(a, b) && !Less(b, a)
  {
    if a.Text? && b.Text? {
      BytesLessOrder(a.bytes, b.bytes);
    }
  }

  lemma LessTransitive(a: Value, b: Value, c: Value)
    requires Less(a, b) && Less(b, c)
    ensures Less(a, c)
  {
    if a.Text? && b.Text? && c.Text? {
      BytesLessTransitive(a.bytes, b.bytes, c.bytes);
    }
  }

  lemma OrderLaws()
    ensures forall a, b :: !(Less(a, b) && Less(b, a))
    ensures forall a, b {:trigger Less(a, b), Less(b, a)} :: a == b <==> !Less(a, b) && !Less(b, a)
    ensures forall a, b, c :: Less(a, b) && Less(b, c) ==> Less(a, c)
  {
    forall a, b
      ensures !(Less(a, b) && Less(b, a))
      ensures a == b <==> !Less(a, b) && !Less(b, a)
    {
      LessTotal(a, b);
    }
    forall a, b, c | Less(a, b) && Less(b, c)
      ensures Less(a, c)
    {
      LessTransitive(a, b, c);
    }
  }

  // ----- types -----

  const INT32_MIN: int := -0x8000_0000
  const INT32_MAX: int := 0x7FFF_FFFF

  predicate HasType(v: Value, dataType: DataType) {
    match dataType
    case IntType => v.Int? && INT32_MIN <= v.i <= INT32_MAX
    case LongType => v.Int?
    case FloatType | DoubleType => v.Dec?
    case StringType => v.Text?
  }

  /** Only the 32-bit integers have a range here. */
  lemma TypesExact(v: Value, dataType: DataType)
    ensures HasType(v, dataType) <==>
            match v
            case Int(i) => dataType == LongType || (dataType == IntType && -2147483648 <= i <= 2147483647)
            case Dec(_) => dataType in {FloatType, DoubleType}
            case Text(_) => dataType == StringType
  {}

  predicate CellHasType(cell: Cell, dataType: DataType) {
    cell.Val? ==> HasType(cell.v, dataType)
  }

  // ----- tables -----

  /** Number of rows of a chunk: the size of its first segment. */
  function ChunkSize(chunk: Chunk): nat {
    if chunk == [] then 0 else |chunk[0]|
  }

  predicate ValidChunk(definitions: seq<ColumnDefinition>, chunk: Chunk) {
    && |chunk| == |definitions|
    && (forall c :: 0 <= c < |chunk| ==> |chunk[c]| == ChunkSize(chunk))
    && (forall c, k :: 0 <= c < |chunk| && 0 <= k < |chunk[c]| && chunk[c][k] == Null ==> definitions[c].nullable)
  }

  predicate ValidTable(t: Table) {
    forall i :: 0 <= i < |t.chunks| ==> ValidChunk(t.definitions, t.chunks[i])
  }

  function ChunkSizes(t: Table): (r: seq<nat>)
    ensures |r| == |t.chunks|
    ensures forall i :: 0 <= i < |r| ==> r[i] == ChunkSize(t.chunks[i])
  {
    seq(|t.chunks|, i requires 0 <= i < |t.chunks| => ChunkSize(t.chunks[i]))
  }

  function Sum(sizes: seq<nat>): nat {
    if sizes == [] then 0 else Sum(sizes[..|sizes| - 1]) + sizes[|sizes| - 1]
  }

  /** There is a row exactly when there is a chunk with one. */
  lemma {:induction false} SomeChunk(sizes: seq<nat>)
    ensures Sum(sizes) > 0 <==> exists j :: 0 <= j < |sizes| && sizes[j] > 0
  {
    if sizes != [] {
      var front := sizes[..|sizes| - 1];
      SomeChunk(front);
      if j :| 0 <= j < |front| && front[j] > 0 {
        assert sizes[j] > 0;
      }
      if j :| 0 <= j < |sizes| && sizes[j] > 0 && j < |front| {
        assert front[j] > 0;
      }
    }
  }

  function RowCount(t: Table): nat {
    Sum(ChunkSizes(t))
  }

  predicate InRange(p: RowId, sizes: seq<nat>) {
    p.chunk < |sizes| && p.offset < sizes[p.chunk]
  }

  function ChunkPositions(chunk: nat, size: nat): (r: seq<RowId>)
    ensures |r| == size
    ensures forall k :: 0 <= k < size ==> r[k] == RowId(chunk, k)
  {
    seq(size, k requires 0 <= k < size => RowId(chunk, k))
  }

  /** All row positions, chunk by chunk and ascending within a chunk. */
  function Positions(sizes: seq<nat>): (r: seq<RowId>)
    ensures |r| == Sum(sizes)
    ensures forall p :: p in r <==> InRange(p, sizes)
  {
    if sizes == [] then []
    else
      var n := |sizes| - 1;
      var last := ChunkPositions(n, sizes[n]);
      assert forall p: RowId :: p in last <==> p.chunk == n && p.offset < sizes[n] by {
        forall p: RowId | p.chunk == n && p.offset < sizes[n]
          ensures p in last
        {
          assert last[p.offset] == p;
        }
      }
      Positions(sizes[..n]) + last
  }

  lemma PositionsNext(sizes: seq<nat>, i: nat)
    requires i < |sizes|
    ensures Positions(sizes[..i + 1]) == Positions(sizes[..i]) + ChunkPositions(i, sizes[i])
  {
    TakeTwice(sizes, i);
  }

  lemma ChunkPositionsNext(i: nat, k: nat)
    ensures ChunkPositions(i, k + 1) == ChunkPositions(i, k) + [RowId(i, k)]
  {}

  lemma PositionsSnoc(ps: seq<RowId>, i: nat, k: nat)
    ensures ps + ChunkPositions(i, k + 1) == ps + ChunkPositions(i, k) + [RowId(i, k)]
  {
    ChunkPositionsNext(i, k);
  }

  predicate Before(p: RowId, q: RowId) {
    p.chunk < q.chunk || (p.chunk == q.chunk && p.offset < q.offset)
  }

  /** Positions come in input order, hence without repetition. */
  lemma PositionsOrdered(sizes: seq<nat>)
    ensures forall i, j :: 0 <= i < j < |Positions(sizes)| ==> Before(Positions(sizes)[i], Positions(sizes)[j])
    ensures NoDup(Positions(sizes))
  {
    if sizes != [] {
      var n := |sizes| - 1;
      PositionsOrdered(sizes[..n]);
      var front := Positions(sizes[..n]);
      assert forall k :: 0 <= k < |front| ==> front[k] in front;
    }
  }

  ghost predicate InInputOrder(ps: seq<RowId>) {
    forall i, j :: 0 <= i < j < |ps| ==> Before(ps[i], ps[j])
  }

  lemma {:induction false} FilterKeepsOrder(f: RowId -> bool, ps: seq<RowId>)
    requires InInputOrder(ps)
    ensures InInputOrder(Filter(f, ps))
  {
    if ps != [] {
      FilterKeepsOrder(f, ps[1..]);
      var rest := Filter(f, ps[1..]);
      forall j | 0 <= j < |rest|
        ensures Before(ps[0], rest[j])
      {
        assert rest[j] in rest && rest[j] in ps[1..];
      }
    }
  }

  function CellAt(t: Table, p: RowId, c: nat): Cell {
    if p.chunk < |t.chunks| && c < |t.chunks[p.chunk]| && p.offset < |t.chunks[p.chunk][c]|
    then t.chunks[p.chunk][c][p.offset]
    else Null
  }

  function RowAt(t: Table, p: RowId): (r: Row)
    ensures |r| == |t.definitions|
    ensures forall c :: 0 <= c < |r| ==> r[c] == CellAt(t, p, c)
  {
    seq(|t.definitions|, c requires 0 <= c < |t.definitions| => CellAt(t, p, c))
  }

  /** A valid table: all columns of a chunk have the same rows, and NULLs are in nullable columns only. */
  lemma ValidTableExact(t: Table)
    ensures ValidTable(t) <==>
            && (forall i :: 0 <= i < |t.chunks| ==> |t.chunks[i]| == |t.definitions|)
            && (forall i, c, d :: 0 <= i < |t.chunks| && 0 <= c < |t.chunks[i]| && 0 <= d < |t.chunks[i]| ==>
                  |t.chunks[i][c]| == |t.chunks[i][d]|)
            && (forall i, c :: 0 <= i < |t.chunks| && 0 <= c < |t.chunks[i]| && Null in t.chunks[i][c] ==>
                  c < |t.definitions| && t.definitions[c].nullable)
  {}

  function Component(row: Row, c: nat): Cell {
    if c < |row| then row[c] else Null
  }

  /** The rows of a table in input order. */
  function Rows(t: Table): (r: seq<Row>)
    ensures |r| == RowCount(t)
  {
    Map(RowOf(t), Positions(ChunkSizes(t)))
  }

  function ChunkRow(chunk: Chunk, k: nat): Row
    requires forall c :: 0 <= c < |chunk| ==> k < |chunk[c]|
  {
    seq(|chunk|, c requires 0 <= c < |chunk| => chunk[c][k])
  }

  /** `ValueSegment::Values()` skips the NULL flags: a NULL reads as the type's default value. */
  function Stored(cell: Cell, dataType: DataType): Value {
    match cell
    case Val(v) => v
    case Null => DefaultValue(dataType)
  }

  function DefaultValue(dataType: DataType): Value {
    match dataType
    case IntType | LongType => Int(0)
    case FloatType | DoubleType => Dec(0.0)
    case StringType => Text([])
  }

  /** A NULL reads as zero or as the empty string. */
  lemma NullReads(dataType: DataType)
    ensures dataType in {IntType, LongType} ==> Stored(Null, dataType) == Int(0)
    ensures dataType in {FloatType, DoubleType} ==> Stored(Null, dataType) == Dec(0.0)
    ensures dataType == StringType ==> Stored(Null, dataType) == Text([])
  {}

  /** A row read through `Values()` only. */
  function StoredRow(row: Row, definitions: seq<ColumnDefinition>): (r: Row)
    requires |row| == |definitions|
    ensures |r| == |row|
    ensures forall c :: 0 <= c < |r| ==> r[c] == Val(Stored(row[c], definitions[c].dataType))
  {
    seq(|row|, c requires 0 <= c < |row| => Val(Stored(row[c], definitions[c].dataType)))
  }

  /** Reading through `Values()` gives the row itself exactly when the row has no NULL. */
  lemma StoredRowExact(row: Row, definitions: seq<ColumnDefinition>)
    requires |row| == |definitions|
    ensures StoredRow(row, definitions) == row <==> Null !in row
  {
    if Null !in row {
      assert forall c :: 0 <= c < |row| ==> row[c] in row;
    } else {
      var c :| 0 <= c < |row| && row[c] == Null;
      assert StoredRow(row, definitions)[c] != row[c];
    }
  }

  /** One column read through `Values()`, chunk by chunk. */
  function StoredColumn(t: Table, c: nat): (r: seq<seq<Value>>)
    requires ValidTable(t) && c < |t.definitions|
    ensures |r| == |t.chunks|
    ensures forall i :: 0 <= i < |r| ==> |r[i]| == ChunkSize(t.chunks[i])
    ensures forall i, k :: 0 <= i < |r| && 0 <= k < |r[i]| ==>
              r[i][k] == Stored(t.chunks[i][c][k], t.definitions[c].dataType)
  {
    seq(|t.chunks|, i requires 0 <= i < |t.chunks| =>
      seq(|t.chunks[i][c]|, k requires 0 <= k < |t.chunks[i][c]| =>
        Stored(t.chunks[i][c][k], t.definitions[c].dataType)))
  }

  function Sizes<T>(chunks: seq<seq<T>>): (r: seq<nat>)
    ensures |r| == |chunks|
    ensures forall i :: 0 <= i < |r| ==> r[i] == |chunks[i]|
  {
    seq(|chunks|, i requires 0 <= i < |chunks| => |chunks[i]|)
  }

  /** The rows of one chunk. */
  function ChunkRows(chunk: Chunk): (r: seq<Row>)
    requires forall c :: 0 <= c < |chunk| ==> |chunk[c]| == ChunkSize(chunk)
    ensures |r| == ChunkSize(chunk)
    ensures forall k :: 0 <= k < |r| ==> r[k] == ChunkRow(chunk, k)
  {
    seq(ChunkSize(chunk), k requires 0 <= k < ChunkSize(chunk) => ChunkRow(chunk, k))
  }

  function RowOf(t: Table): RowId -> Row {
    p => RowAt(t, p)
  }

  /** Appending a chunk appends its rows. */
  lemma RowsSnoc(t: Table, chunk: Chunk)
    requires ValidChunk(t.definitions, chunk)
    ensures Rows(t.(chunks := t.chunks + [chunk])) == Rows(t) + ChunkRows(chunk)
  {
    var u := t.(chunks := t.chunks + [chunk]);
    var n := |t.chunks|;
    assert ChunkSizes(u)[..n] == ChunkSizes(t);
    var front, last := Positions(ChunkSizes(t)), ChunkPositions(n, ChunkSize(chunk));
    assert Positions(ChunkSizes(u)) == front + last;
    MapAppend(RowOf(u), front, last);
    assert Map(RowOf(u), front) == Map(RowOf(t), front) by {
      forall k | 0 <= k < |front|
        ensures RowAt(u, front[k]) == RowAt(t, front[k])
      {
        assert front[k] in front;
      }
    }
    forall k | 0 <= k < |last|
      ensures RowAt(u, last[k]) == ChunkRow(chunk, k)
    {
      assert forall c :: 0 <= c < |chunk| ==> CellAt(u, last[k], c) == chunk[c][k];
    }
    assert Map(RowOf(u), last) == ChunkRows(chunk);
  }

  // ----- materialising columns at given positions -----

  function StoredCellOf(t: Table, c: nat): RowId -> Cell
    requires c < |t.definitions|
  {
    p => Val(Stored(CellAt(t, p, c), t.definitions[c].dataType))
  }

  /** The columns of a table at the given positions, read through `Values()`. */
  function Columns(t: Table, ps: seq<RowId>): (r: seq<Segment>)
    ensures |r| == |t.definitions|
    ensures forall c :: 0 <= c < |r| ==> r[c] == Map(StoredCellOf(t, c), ps)
  {
    seq(|t.definitions|, c requires 0 <= c < |t.definitions| => Map(StoredCellOf(t, c), ps))
  }

  /** Reading one more cell of a column. */
  lemma CellSnoc(t: Table, c: nat, ps: seq<RowId>, p: RowId)
    requires ValidTable(t) && c < |t.definitions| && InRange(p, ChunkSizes(t))
    ensures Map(StoredCellOf(t, c), ps + [p]) ==
            Map(StoredCellOf(t, c), ps) + [Val(Stored(t.chunks[p.chunk][c][p.offset], t.definitions[c].dataType))]
  {}

  function StoredRowOf(t: Table): RowId -> Row {
    p => StoredRow(RowAt(t, p), t.definitions)
  }

  lemma ColumnsRows(t: Table, ps: seq<RowId>)
    requires |t.definitions| > 0
    ensures ValidChunk(t.definitions, Columns(t, ps)) && ChunkSize(Columns(t, ps)) == |ps|
    ensures ChunkRows(Columns(t, ps)) == Map(StoredRowOf(t), ps)
  {
    forall k | 0 <= k < |ps|
      ensures ChunkRow(Columns(t, ps), k) == StoredRow(RowAt(t, ps[k]), t.definitions)
    {}
  }

  /** Every cell holds NULL or a value of its column's type. */
  ghost predicate TypedRow(definitions: seq<ColumnDefinition>, row: Row) {
    |row| == |definitions| && forall c :: 0 <= c < |row| ==> CellHasType(row[c], definitions[c].dataType)
  }

  ghost predicate TypedTable(t: Table) {
    forall row :: row in Rows(t) ==> TypedRow(t.definitions, row)
  }

  lemma TypedCell(t: Table, p: RowId, c: nat)
    requires TypedTable(t) && InRange(p, ChunkSizes(t)) && c < |t.definitions|
    ensures CellHasType(CellAt(t, p, c), t.definitions[c].dataType)
  {
    var ps := Positions(ChunkSizes(t));
    var k :| 0 <= k < |ps| && ps[k] == p;
    assert Rows(t)[k] == RowAt(t, p) && Rows(t)[k] in Rows(t);
    assert CellHasType(RowAt(t, p)[c], t.definitions[c].dataType);
  }

  // ----- values with the rows they come from -----

  datatype Pair = Pair(row: RowId, value: Value)

  function PairRows(pairs: seq<Pair>): (r: seq<RowId>)
    ensures |r| == |pairs| && forall k :: 0 <= k < |r| ==> r[k] == pairs[k].row
  {
    Map((pair: Pair) => pair.row, pairs)
  }

  function PairValues(pairs: seq<Pair>): (r: seq<Value>)
    ensures |r| == |pairs| && forall k :: 0 <= k < |r| ==> r[k] == pairs[k].value
  {
    Map((pair: Pair) => pair.value, pairs)
  }

  lemma PairValuesSnoc(pairs: seq<Pair>, pair: Pair)
    ensures PairValues(pairs + [pair]) == PairValues(pairs) + [pair.value]
  {}

  lemma PairRowsSnoc(pairs: seq<Pair>, pair: Pair)
    ensures PairRows(pairs + [pair]) == PairRows(pairs) + [pair.row]
  {}

  lemma PairValuesFront(pairs: seq<Pair>)
    requires pairs != []
    ensures PairValues(pairs)[..|pairs| - 1] == PairValues(pairs[..|pairs| - 1])
  {}

  predicate HasNull(t: Table) {
    exists i, c :: 0 <= i < |t.chunks| && 0 <= c < |t.chunks[i]| && Null in t.chunks[i][c]
  }
}
