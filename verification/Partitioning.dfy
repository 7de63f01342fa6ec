/** HashPartitioningFunction. The hash combination is an arbitrary function. */
module Partitioning {
  import opened Sequences
  import opened Storage

  type HashCombine = (nat, Value) -> nat

  /** Seed 0, then one boost::hash_combine per partition column in ascending column order. */
  function RowHash(t: Table, combine: HashCombine, columns: seq<nat>, p: RowId): nat
    requires forall k :: 0 <= k < |columns| ==> columns[k] < |t.definitions|
  {
    if columns == [] then 0
    else
      var c := columns[|columns| - 1];
      combine(RowHash(t, combine, columns[..|columns| - 1], p), Stored(CellAt(t, p, c), t.definitions[c].dataType))
  }

  /** Rows that agree on the partition columns have equal hashes. */
  lemma {:induction false} EqualValuesEqualHash(t: Table, u: Table, combine: HashCombine, columns: seq<nat>, p: RowId,
                                                q: RowId)
    requires forall k :: 0 <= k < |columns| ==> columns[k] < |t.definitions| && columns[k] < |u.definitions|
    requires forall k :: 0 <= k < |columns| ==> CellAt(t, p, columns[k]) == CellAt(u, q, columns[k])
    requires forall k :: 0 <= k < |columns| ==>
               t.definitions[columns[k]].dataType == u.definitions[columns[k]].dataType
    ensures RowHash(t, combine, columns, p) == RowHash(u, combine, columns, q)
  {
    if columns != [] {
      EqualValuesEqualHash(t, u, combine, columns[..|columns| - 1], p, q);
    }
  }

  // ----- the cursor -----

  const SIZE_MAX: nat := 0xFFFF_FFFF_FFFF_FFFF

  /** `chunk_size - 1` on size_t. */
  function LastOffset(size: nat): nat {
    if size == 0 then SIZE_MAX else size - 1
  }

  function Step(sizes: seq<nat>, cursor: RowId): RowId {
    if cursor.chunk < |sizes| && cursor.offset == LastOffset(sizes[cursor.chunk])
    then RowId(cursor.chunk + 1, 0)
    else RowId(cursor.chunk, cursor.offset + 1)
  }

  /** The cursor after k rows. */
  function Cursor(sizes: seq<nat>, k: nat): RowId {
    if k == 0 then RowId(0, 0) else Step(sizes, Cursor(sizes, k - 1))
  }

  /** No chunk with rows comes after an empty chunk. */
  predicate Compact(sizes: seq<nat>) {
    forall i, j :: 0 <= i < j < |sizes| && sizes[i] == 0 ==> sizes[j] == 0
  }

  function FirstRow(sizes: seq<nat>, i: nat): nat
    requires i <= |sizes|
  {
    Sum(sizes[..i])
  }

  lemma SumSnoc(sizes: seq<nat>, i: nat)
    requires i < |sizes|
    ensures FirstRow(sizes, i + 1) == FirstRow(sizes, i) + sizes[i]
  {
    TakeTwice(sizes, i);
  }

  lemma {:induction false} SumGrows(sizes: seq<nat>, i: nat, j: nat)
    requires i <= j <= |sizes|
    ensures FirstRow(sizes, i) <= FirstRow(sizes, j)
    ensures FirstRow(sizes, |sizes|) == Sum(sizes)
    decreases j - i
  {
    TakeAll(sizes);
    if i < j {
      SumSnoc(sizes, i);
      SumGrows(sizes, i + 1, j);
    }
  }

  /** As long as no empty chunk was met, the cursor is at the row it should be at. */
  lemma {:induction false} CursorInChunk(sizes: seq<nat>, i: nat, o: nat)
    requires i < |sizes| && o <= sizes[i] && Sum(sizes) < SIZE_MAX
    requires forall m :: 0 <= m < i ==> sizes[m] > 0
    requires o == sizes[i] ==> o == 0
    ensures Cursor(sizes, FirstRow(sizes, i) + o) == RowId(i, o)
    decreases i, o
  {
    if o > 0 {
      CursorInChunk(sizes, i, o - 1);
    } else if i > 0 {
      SumSnoc(sizes, i - 1);
      CursorInChunk(sizes, i - 1, sizes[i - 1] - 1);
    }
  }

  /** At an empty chunk the comparison never succeeds and the cursor stays in that chunk. */
  lemma {:induction false} CursorStuck(sizes: seq<nat>, i: nat, o: nat)
    requires i < |sizes| && sizes[i] == 0 && Sum(sizes) < SIZE_MAX
    requires forall m :: 0 <= m < i ==> sizes[m] > 0
    requires o < SIZE_MAX
    ensures Cursor(sizes, FirstRow(sizes, i) + o) == RowId(i, o)
    decreases o
  {
    if o == 0 {
      CursorInChunk(sizes, i, 0);
    } else {
      CursorStuck(sizes, i, o - 1);
    }
  }

  lemma FirstEmpty(sizes: seq<nat>) returns (e: nat)
    ensures e <= |sizes| && forall m :: 0 <= m < e ==> sizes[m] > 0
    ensures e < |sizes| ==> sizes[e] == 0
  {
    e := 0;
    while e < |sizes| && sizes[e] > 0
      invariant e <= |sizes| && forall m :: 0 <= m < e ==> sizes[m] > 0
    {
      e := e + 1;
    }
  }

  lemma {:induction false} PositionIndex(sizes: seq<nat>, n: nat, i: nat, o: nat)
    requires i < n <= |sizes| && o < sizes[i]
    ensures FirstRow(sizes, i) + o < |Positions(sizes[..n])|
    ensures Positions(sizes[..n])[FirstRow(sizes, i) + o] == RowId(i, o)
  {
    PositionsNext(sizes, n - 1);
    if i < n - 1 {
      PositionIndex(sizes, n - 1, i, o);
    }
  }

  lemma {:induction false} LocateRow(sizes: seq<nat>, n: nat, k: nat) returns (i: nat, o: nat)
    requires n <= |sizes| && k < FirstRow(sizes, n)
    ensures i < n && o < sizes[i] && k == FirstRow(sizes, i) + o
  {
    if k >= FirstRow(sizes, n - 1) {
      SumSnoc(sizes, n - 1);
      i, o := n - 1, k - FirstRow(sizes, n - 1);
    } else {
      i, o := LocateRow(sizes, n - 1, k);
    }
  }

  lemma {:induction false} RestEmpty(sizes: seq<nat>, e: nat, n: nat)
    requires e <= n <= |sizes| && forall m :: e <= m < n ==> sizes[m] == 0
    ensures FirstRow(sizes, n) == FirstRow(sizes, e)
  {
    if e < n {
      RestEmpty(sizes, e, n - 1);
      SumSnoc(sizes, n - 1);
    }
  }

  /** The cursor visits exactly the row positions, in order, when no chunk with rows follows an empty chunk. */
  lemma CursorExact(sizes: seq<nat>, k: nat)
    requires Compact(sizes) && Sum(sizes) < SIZE_MAX && k < Sum(sizes)
    ensures Cursor(sizes, k) == Positions(sizes)[k]
  {
    var e := FirstEmpty(sizes);
    assert forall m :: e <= m < |sizes| ==> sizes[m] == 0;
    RestEmpty(sizes, e, |sizes|);
    TakeAll(sizes);
    var i, o := LocateRow(sizes, e, k);
    CursorInChunk(sizes, i, o);
    PositionIndex(sizes, |sizes|, i, o);
  }

  /** ... and otherwise hands out a position that does not exist. */
  lemma CursorLost(sizes: seq<nat>) returns (k: nat)
    requires !Compact(sizes) && Sum(sizes) < SIZE_MAX
    ensures k < Sum(sizes) && !InRange(Cursor(sizes, k), sizes)
  {
    var e := FirstEmpty(sizes);
    assert e < |sizes|;
    var i, j :| 0 <= i < j < |sizes| && sizes[i] == 0 && sizes[j] > 0;
    k := FirstRow(sizes, e);
    CursorStuck(sizes, e, 0);
    SumGrows(sizes, e, j);
    SumSnoc(sizes, j);
    SumGrows(sizes, j + 1, |sizes|);
  }

  // ----- the partitioning function -----

  predicate ColumnsFit(t: Table, columns: seq<nat>) {
    forall k :: 0 <= k < |columns| ==> columns[k] < |t.definitions| && !t.definitions[columns[k]].nullable
  }

  /** The hash of each row in input order, for the first columns. */
  ghost function Hashes(t: Table, combine: HashCombine, columns: seq<nat>): seq<nat>
    requires forall k :: 0 <= k < |columns| ==> columns[k] < |t.definitions|
  {
    Map(HashOf(t, combine, columns), Positions(ChunkSizes(t)))
  }

  function HashOf(t: Table, combine: HashCombine, columns: seq<nat>): RowId -> nat
    requires forall k :: 0 <= k < |columns| ==> columns[k] < |t.definitions|
  {
    p => RowHash(t, combine, columns, p)
  }

  /** One pass over one column: combines its values into the hashes. */
  method CombineColumn(t: Table, combine: HashCombine, c: nat, hashesIn: seq<nat>) returns (hashes: seq<nat>)
    requires ValidTable(t) && c < |t.definitions| && |hashesIn| == RowCount(t)
    ensures |hashes| == |hashesIn|
    ensures forall k :: 0 <= k < |hashes| ==>
              hashes[k] == combine(hashesIn[k],
                                   Stored(CellAt(t, Positions(ChunkSizes(t))[k], c), t.definitions[c].dataType))
  {
    hashes := hashesIn;
    var row := 0;
    ghost var sizes := ChunkSizes(t);
    ghost var ps := Positions(sizes);
    for i := 0 to |t.chunks|
      invariant row == FirstRow(sizes, i) && CombinedUpTo(t, combine, c, ps, hashesIn, hashes, row)
    {
      SumSnoc(sizes, i);
      SumGrows(sizes, i + 1, |sizes|);
      for o := 0 to |t.chunks[i][c]|
        invariant row == FirstRow(sizes, i) + o && CombinedUpTo(t, combine, c, ps, hashesIn, hashes, row)
      {
        PositionIndex(sizes, |sizes|, i, o);
        TakeAll(sizes);
        assert CellAt(t, ps[row], c) == t.chunks[i][c][o];
        CombinedNext(t, combine, c, ps, hashesIn, hashes, row);
        hashes := hashes[row := combine(hashes[row], Stored(t.chunks[i][c][o], t.definitions[c].dataType))];
        row := row + 1;
      }
    }
    SumGrows(sizes, 0, |sizes|);
  }

  /** The rows before `row` have column c combined into their hash. */
  ghost predicate CombinedUpTo(t: Table, combine: HashCombine, c: nat, ps: seq<RowId>, before: seq<nat>,
                               hashes: seq<nat>, row: nat)
    requires c < |t.definitions|
  {
    |hashes| == |before| == |ps| && row <= |ps| &&
    forall k :: 0 <= k < |hashes| ==>
      hashes[k] == if k < row then combine(before[k], Stored(CellAt(t, ps[k], c), t.definitions[c].dataType))
                   else before[k]
  }

  lemma CombinedNext(t: Table, combine: HashCombine, c: nat, ps: seq<RowId>, before: seq<nat>,
                     hashes: seq<nat>, row: nat)
    requires c < |t.definitions| && CombinedUpTo(t, combine, c, ps, before, hashes, row) && row < |ps|
    ensures CombinedUpTo(t, combine, c, ps, before,
                         hashes[row := combine(hashes[row], Stored(CellAt(t, ps[row], c), t.definitions[c].dataType))],
                         row + 1)
  {}

  /** The hash loop; `ok` is false where a partition column is out of range or nullable. */
  method ComputeHashes(t: Table, combine: HashCombine, columns: seq<nat>) returns (ok: bool, hashes: seq<nat>)
    requires ValidTable(t)
    ensures ok <==> ColumnsFit(t, columns)
    ensures ok ==> hashes == Hashes(t, combine, columns)
  {
    ok := true;
    hashes := seq(RowCount(t), _ => 0);
    for j := 0 to |columns|
      invariant ColumnsFit(t, columns[..j])
      invariant hashes == Hashes(t, combine, columns[..j])
    {
      TakeNext(columns, j);
      if columns[j] >= |t.definitions| || t.definitions[columns[j]].nullable {
        return false, hashes;
      }
      TakeTwice(columns, j);
      hashes := CombineColumn(t, combine, columns[j], hashes);
    }
    TakeAll(columns);
  }

  /** Which rows of the input belong to partition i. */
  function InPartition(t: Table, combine: HashCombine, columns: seq<nat>, n: nat, i: nat): RowId -> bool
    requires n > 0 && forall k :: 0 <= k < |columns| ==> columns[k] < |t.definitions|
  {
    p => RowHash(t, combine, columns, p) % n == i
  }

  /** The row positions of partition i, in input order. */
  function PartitionOf(t: Table, combine: HashCombine, columns: seq<nat>, n: nat, i: nat): seq<RowId>
    requires n > 0 && forall k :: 0 <= k < |columns| ==> columns[k] < |t.definitions|
  {
    Filter(InPartition(t, combine, columns, n, i), Positions(ChunkSizes(t)))
  }

  /** Positions the cursor hands to partition i among the first k rows. */
  function Dealt(sizes: seq<nat>, hashes: seq<nat>, n: nat, i: nat): seq<RowId>
    requires n > 0
  {
    if hashes == [] then []
    else
      var k := |hashes| - 1;
      Dealt(sizes, hashes[..k], n, i) + if hashes[k] % n == i then [Cursor(sizes, k)] else []
  }

  /** Dealing the rows out by the cursor. */
  method Deal(sizes: seq<nat>, hashes: seq<nat>, n: nat) returns (lists: seq<seq<RowId>>)
    requires n > 0
    ensures |lists| == n
    ensures forall i :: 0 <= i < n ==> lists[i] == Dealt(sizes, hashes, n, i)
  {
    lists := seq(n, _ => []);
    var cursor := RowId(0, 0);
    for k := 0 to |hashes|
      invariant |lists| == n && cursor == Cursor(sizes, k)
      invariant forall i :: 0 <= i < n ==> lists[i] == Dealt(sizes, hashes[..k], n, i)
    {
      TakeTwice(hashes, k);
      var target := hashes[k] % n;
      lists := lists[target := lists[target] + [cursor]];
      cursor := Step(sizes, cursor);
    }
    TakeAll(hashes);
  }

  lemma {:induction false} DealtExact(sizes: seq<nat>, hashes: seq<nat>, n: nat, i: nat, p: RowId -> bool,
                                      ps: seq<RowId>)
    requires n > 0 && |ps| == |hashes|
    requires forall k :: 0 <= k < |ps| ==> Cursor(sizes, k) == ps[k] && p(ps[k]) == (hashes[k] % n == i)
    ensures Dealt(sizes, hashes, n, i) == Filter(p, ps)
  {
    if hashes != [] {
      var k := |hashes| - 1;
      DealtExact(sizes, hashes[..k], n, i, p, ps[..k]);
      assert ps == ps[..k] + [ps[k]];
      FilterSnoc(p, ps[..k], ps[k]);
    }
  }

  lemma {:induction false} DealtContains(sizes: seq<nat>, hashes: seq<nat>, n: nat, k: nat)
    requires n > 0 && k < |hashes|
    ensures Cursor(sizes, k) in Dealt(sizes, hashes, n, hashes[k] % n)
  {
    if k < |hashes| - 1 {
      DealtContains(sizes, hashes[..|hashes| - 1], n, k);
    }
  }

  /** HashPartitioningFunction::Partition: right exactly when no chunk with rows follows an empty chunk. */
  method Partition(t: Table, combine: HashCombine, columns: seq<nat>, n: nat) returns (ok: bool, lists: seq<seq<RowId>>)
    requires ValidTable(t) && n > 0 && RowCount(t) < SIZE_MAX
    ensures ok <==> ColumnsFit(t, columns)
    ensures ok <==> forall c :: c in columns ==> c < |t.definitions| && !t.definitions[c].nullable
    ensures ok ==> |lists| == n
    ensures ok && Compact(ChunkSizes(t)) ==>
              forall i :: 0 <= i < n ==> lists[i] == PartitionOf(t, combine, columns, n, i)
    ensures ok && !Compact(ChunkSizes(t)) ==>
              exists i, p :: 0 <= i < n && p in lists[i] && !InRange(p, ChunkSizes(t))
  {
    lists := [];
    var hashes;
    ok, hashes := ComputeHashes(t, combine, columns);
    assert forall k :: 0 <= k < |columns| ==> columns[k] in columns;
    if !ok {
      return;
    }
    lists := Deal(ChunkSizes(t), hashes, n);
    if Compact(ChunkSizes(t)) {
      forall i | 0 <= i < n
        ensures lists[i] == PartitionOf(t, combine, columns, n, i)
      {
        var sizes, ps := ChunkSizes(t), Positions(ChunkSizes(t));
        forall k | 0 <= k < |ps|
          ensures Cursor(sizes, k) == ps[k]
        {
          CursorExact(sizes, k);
        }
        DealtExact(sizes, hashes, n, i, InPartition(t, combine, columns, n, i), ps);
      }
    } else {
      var k := CursorLost(ChunkSizes(t));
      DealtContains(ChunkSizes(t), hashes, n, k);
      assert Cursor(ChunkSizes(t), k) in lists[hashes[k] % n];
    }
  }

  // ----- what partitioning achieves -----

  function PartitionIndex(t: Table, combine: HashCombine, columns: seq<nat>, n: nat): RowId -> nat
    requires n > 0 && forall k :: 0 <= k < |columns| ==> columns[k] < |t.definitions|
  {
    p => RowHash(t, combine, columns, p) % n
  }

  function Partitions(t: Table, combine: HashCombine, columns: seq<nat>, n: nat): (r: seq<seq<RowId>>)
    requires n > 0 && forall k :: 0 <= k < |columns| ==> columns[k] < |t.definitions|
    ensures |r| == n && forall i :: 0 <= i < n ==> r[i] == PartitionOf(t, combine, columns, n, i)
  {
    seq(n, i requires 0 <= i < n => PartitionOf(t, combine, columns, n, i))
  }

  /** The partitions together hold every row position exactly once. */
  lemma PartitionsComplete(t: Table, combine: HashCombine, columns: seq<nat>, n: nat)
    requires n > 0 && forall k :: 0 <= k < |columns| ==> columns[k] < |t.definitions|
    ensures multiset(Concat(Partitions(t, combine, columns, n))) == multiset(Positions(ChunkSizes(t)))
  {
    var c, ps := PartitionIndex(t, combine, columns, n), Positions(ChunkSizes(t));
    forall i: nat | i < n
      ensures PartitionOf(t, combine, columns, n, i) == Filter(InClass(c, i), ps)
    {
      FilterExtensional(InPartition(t, combine, columns, n, i), InClass(c, i), ps);
    }
    assert Partitions(t, combine, columns, n) == Classes(c, n, ps);
    ClassesComplete(c, n, ps);
  }

  /** Each partition keeps the input order, and rows that agree on the partition columns share one. */
  lemma PartitionsOrdered(t: Table, combine: HashCombine, columns: seq<nat>, n: nat, p: RowId, q: RowId)
    requires n > 0 && forall k :: 0 <= k < |columns| ==> columns[k] < |t.definitions|
    requires InRange(p, ChunkSizes(t)) && InRange(q, ChunkSizes(t))
    requires forall k :: 0 <= k < |columns| ==> CellAt(t, p, columns[k]) == CellAt(t, q, columns[k])
    ensures forall i :: 0 <= i < n ==> InInputOrder(PartitionOf(t, combine, columns, n, i))
    ensures forall i :: 0 <= i < n ==>
              (p in PartitionOf(t, combine, columns, n, i) <==> q in PartitionOf(t, combine, columns, n, i))
  {
    PositionsOrdered(ChunkSizes(t));
    forall i | 0 <= i < n
      ensures InInputOrder(PartitionOf(t, combine, columns, n, i))
    {
      FilterKeepsOrder(InPartition(t, combine, columns, n, i), Positions(ChunkSizes(t)));
    }
    EqualValuesEqualHash(t, t, combine, columns, p, q);
  }
}
