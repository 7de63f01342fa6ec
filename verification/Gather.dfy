/** What the workers' outputs are for the next pipeline: one table with all their chunks. */
module Gather {
  import opened Sequences
  import opened Storage

  function RowsIn(): Table -> seq<Row> {
    (t: Table) => Rows(t)
  }

  function WithChunks(t: Table, chunks: seq<Chunk>): Table {
    t.(chunks := t.chunks + chunks)
  }

  lemma LastChunk(t: Table, chunks: seq<Chunk>)
    requires chunks != [] && ValidChunk(t.definitions, chunks[|chunks| - 1])
    ensures Rows(WithChunks(t, chunks)) ==
            Rows(WithChunks(t, chunks[..|chunks| - 1])) + ChunkRows(chunks[|chunks| - 1])
  {
    var front, last := chunks[..|chunks| - 1], chunks[|chunks| - 1];
    RowsSnoc(WithChunks(t, front), last);
    assert t.chunks + front + [last] == t.chunks + chunks;
  }

  lemma OnlyChunks(t: Table, chunks: seq<Chunk>)
    ensures WithChunks(Table(t.definitions, []), chunks) == Table(t.definitions, chunks)
  {}

  lemma {:induction false} RowsAppend(t: Table, chunks: seq<Chunk>)
    requires forall k :: 0 <= k < |chunks| ==> ValidChunk(t.definitions, chunks[k])
    ensures Rows(WithChunks(t, chunks)) == Rows(t) + Rows(WithChunks(Table(t.definitions, []), chunks))
  {
    var none := Table(t.definitions, []);
    if chunks == [] {
      assert WithChunks(t, []) == t && WithChunks(none, []) == none;
      NoRows(t.definitions);
    } else {
      var front, last := chunks[..|chunks| - 1], chunks[|chunks| - 1];
      RowsAppend(t, front);
      LastChunk(t, chunks);
      LastChunk(none, chunks);
      AppendAssociates(Rows(t), Rows(WithChunks(none, front)), ChunkRows(last));
    }
  }

  ghost predicate AllOf(ts: seq<Table>, definitions: seq<ColumnDefinition>) {
    forall k :: 0 <= k < |ts| ==> ValidTable(ts[k]) && TypedTable(ts[k]) && ts[k].definitions == definitions
  }

  /** A table without chunks. */
  lemma NoRows(definitions: seq<ColumnDefinition>)
    ensures ValidTable(Table(definitions, [])) && Rows(Table(definitions, [])) == []
  {}

  lemma RowsBeside(r: Table, t: Table)
    requires ValidTable(t) && r.definitions == t.definitions
    ensures Rows(WithChunks(r, t.chunks)) == Rows(r) + Rows(t)
  {
    RowsAppend(r, t.chunks);
    OnlyChunks(t, t.chunks);
  }

  lemma ValidBeside(r: Table, t: Table)
    requires ValidTable(r) && ValidTable(t) && r.definitions == t.definitions
    ensures ValidTable(WithChunks(r, t.chunks))
  {
    var more := WithChunks(r, t.chunks);
    forall i | 0 <= i < |more.chunks|
      ensures ValidChunk(more.definitions, more.chunks[i])
    {
      assert more.chunks[i] == if i < |r.chunks| then r.chunks[i] else t.chunks[i - |r.chunks|];
    }
  }

  lemma TypedBeside(rows: seq<Row>, more: seq<Row>, definitions: seq<ColumnDefinition>)
    requires forall row :: row in rows ==> TypedRow(definitions, row)
    requires forall row :: row in more ==> TypedRow(definitions, row)
    ensures forall row :: row in rows + more ==> TypedRow(definitions, row)
  {}

  lemma OneMore(r: Table, t: Table)
    requires ValidTable(r) && TypedTable(r) && ValidTable(t) && TypedTable(t) && r.definitions == t.definitions
    ensures var more := WithChunks(r, t.chunks);
            ValidTable(more) && TypedTable(more) && Rows(more) == Rows(r) + Rows(t)
  {
    RowsBeside(r, t);
    ValidBeside(r, t);
    TypedBeside(Rows(r), Rows(t), r.definitions);
  }

  /** The import reads the chunks of one output after the other. */
  method Gathered(ts: seq<Table>, definitions: seq<ColumnDefinition>) returns (r: Table)
    requires AllOf(ts, definitions)
    ensures ValidTable(r) && TypedTable(r) && r.definitions == definitions
    ensures Rows(r) == Concat(Map(RowsIn(), ts))
  {
    r := Table(definitions, []);
    NoRows(definitions);
    for k := 0 to |ts|
      invariant ValidTable(r) && TypedTable(r) && r.definitions == definitions
      invariant Rows(r) == Concat(Map(RowsIn(), ts[..k]))
    {
      OneMore(r, ts[k]);
      NextRows(ts, k);
      r := r.(chunks := r.chunks + ts[k].chunks);
    }
    TakeAll(ts);
  }

  lemma NextRows(ts: seq<Table>, k: nat)
    requires k < |ts|
    ensures Concat(Map(RowsIn(), ts[..k + 1])) == Concat(Map(RowsIn(), ts[..k])) + Rows(ts[k])
  {
    TakeNext(ts, k);
    MapAppend(RowsIn(), ts[..k], [ts[k]]);
    ConcatSnoc(Map(RowsIn(), ts[..k]), Rows(ts[k]));
  }
}
