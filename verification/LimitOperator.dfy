/** LimitOperator: the first rows of a table, chunk by chunk. */
module LimitOperator {
  import opened Sequences
  import opened Storage

  /** The evaluated row count is an int32_t assigned to an unsigned int. */
  function ToUnsigned(n: int): (r: nat)
    requires -0x8000_0000 <= n < 0x8000_0000
    ensures r < 0x1_0000_0000 && (n >= 0 ==> r == n) && (n < 0 ==> r == n + 4294967296)
  {
    n % 0x1_0000_0000
  }

  /** The first k rows of a chunk. */
  function Head(chunk: Chunk, k: nat): (r: Chunk)
    requires forall c :: 0 <= c < |chunk| ==> k <= |chunk[c]|
    ensures |r| == |chunk|
    ensures forall c :: 0 <= c < |r| ==> r[c] == chunk[c][..k]
  {
    seq(|chunk|, c requires 0 <= c < |chunk| => chunk[c][..k])
  }

  lemma HeadRows(definitions: seq<ColumnDefinition>, chunk: Chunk, k: nat)
    requires ValidChunk(definitions, chunk) && k < ChunkSize(chunk)
    ensures ValidChunk(definitions, Head(chunk, k)) && ChunkSize(Head(chunk, k)) == k
    ensures ChunkRows(Head(chunk, k)) == ChunkRows(chunk)[..k]
  {
    forall i | 0 <= i < k
      ensures ChunkRow(Head(chunk, k), i) == ChunkRow(chunk, i)
    {}
  }

  /** CASE 2 of the loop: keep the first k rows, NULLs included. */
  method SliceChunk(chunk: Chunk, k: nat) returns (r: Chunk)
    requires forall c :: 0 <= c < |chunk| ==> k <= |chunk[c]|
    ensures r == Head(chunk, k)
  {
    r := [];
    for c := 0 to |chunk|
      invariant |r| == c
      invariant forall d :: 0 <= d < c ==> r[d] == chunk[d][..k]
    {
      var values: Segment := [];
      for i := 0 to k
        invariant values == chunk[c][..i]
      {
        values := values + [chunk[c][i]];
      }
      r := r + [values];
    }
  }

  lemma RowsPrefix(t: Table, i: nat)
    requires ValidTable(t) && i < |t.chunks|
    ensures Rows(t.(chunks := t.chunks[..i + 1])) ==
            Rows(t.(chunks := t.chunks[..i])) + ChunkRows(t.chunks[i])
  {
    RowsSnoc(t.(chunks := t.chunks[..i]), t.chunks[i]);
    TakeNext(t.chunks, i);
  }

  lemma {:induction false} RowsGrow(t: Table, i: nat)
    requires ValidTable(t) && i <= |t.chunks|
    ensures Rows(t.(chunks := t.chunks[..i])) <= Rows(t)
    decreases |t.chunks| - i
  {
    if i == |t.chunks| {
      assert t.chunks[..i] == t.chunks;
    } else {
      RowsPrefix(t, i);
      RowsGrow(t, i + 1);
    }
  }

  function Min(a: int, b: int): int {
    if a <= b then a else b
  }

  /** LimitOperator::OnExecute: exactly the first rows, in order; a negative count keeps almost everything. */
  method Execute(t: Table, rowCount: int) returns (out: Table)
    requires ValidTable(t) && -0x8000_0000 <= rowCount < 0x8000_0000
    ensures out.definitions == t.definitions && ValidTable(out)
    ensures Rows(out) == Rows(t)[..Min(ToUnsigned(rowCount), |Rows(t)|)]
    ensures 0 <= rowCount <= |Rows(t)| ==> Rows(out) == Rows(t)[..rowCount]
    ensures rowCount > |Rows(t)| ==> Rows(out) == Rows(t)
    ensures rowCount < 0 && |Rows(t)| <= 2147483648 ==> Rows(out) == Rows(t)
  {
    var left: nat := ToUnsigned(rowCount);
    out := t.(chunks := []);
    ghost var total: nat := left;
    assert Rows(out) == [];
    assert t.chunks[..0] == [];
    for i := 0 to |t.chunks|
      invariant out == t.(chunks := t.chunks[..i])
      invariant left == total - |Rows(out)|
    {
      RowsGrow(t, i + 1);
      if left >= ChunkSize(t.chunks[i]) {
        WholeChunk(t, i);
        out := out.(chunks := out.chunks + [t.chunks[i]]);
        left := left - ChunkSize(t.chunks[i]);
      } else {
        var head := SliceChunk(t.chunks[i], left);
        LastSlice(t, i, left);
        out := out.(chunks := out.chunks + [head]);
        return;
      }
    }
    TakeAll(t.chunks);
  }

  lemma WholeChunk(t: Table, i: nat)
    requires ValidTable(t) && i < |t.chunks|
    ensures var front := t.(chunks := t.chunks[..i]);
            var out := front.(chunks := front.chunks + [t.chunks[i]]);
            out == t.(chunks := t.chunks[..i + 1]) && |Rows(out)| == |Rows(front)| + ChunkSize(t.chunks[i])
  {
    RowsPrefix(t, i);
    TakeNext(t.chunks, i);
  }

  /** Cutting inside chunk i. */
  lemma LastSlice(t: Table, i: nat, k: nat)
    requires ValidTable(t) && i < |t.chunks| && k < ChunkSize(t.chunks[i])
    ensures var front := t.(chunks := t.chunks[..i]);
            var out := front.(chunks := front.chunks + [Head(t.chunks[i], k)]);
            ValidTable(out) && |Rows(front)| + k <= |Rows(t)| && Rows(out) == Rows(t)[..|Rows(front)| + k]
  {
    var front := t.(chunks := t.chunks[..i]);
    RowsPrefix(t, i);
    RowsGrow(t, i + 1);
    HeadRows(t.definitions, t.chunks[i], k);
    RowsSnoc(front, Head(t.chunks[i], k));
    CutInside(Rows(t), Rows(front), ChunkRows(t.chunks[i]), k);
  }

  lemma CutInside(rows: seq<Row>, front: seq<Row>, chunk: seq<Row>, k: nat)
    requires front + chunk <= rows && k < |chunk|
    ensures front + chunk[..k] == rows[..|front| + k]
  {
    assert (front + chunk)[..|front| + k] == front + chunk[..k];
  }
}
