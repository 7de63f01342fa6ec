/** A distributed join run by the operators: every producer partitions its table, and worker i joins what it reads of
    partition i of all producers. */
module DistributedJoins {
  import opened Sequences
  import opened Storage
  import opened JoinReference
  import opened JoinOperator
  import opened Partitioning
  import opened PartitionOperator
  import opened Shuffle
  import SortedMerge

  // ----- the producers -----

  ghost predicate Producer(t: Table, definitions: seq<ColumnDefinition>) {
    ValidTable(t) && t.definitions == definitions && Compact(ChunkSizes(t)) && RowCount(t) < SIZE_MAX
  }

  /** The producers' tables, all with the same columns. */
  ghost predicate Producers(ts: seq<Table>, definitions: seq<ColumnDefinition>, c: nat) {
    c < |definitions| && forall k :: 0 <= k < |ts| ==> Producer(ts[k], definitions)
  }

  ghost predicate EveryPartitionHasRows(t: Table, combine: HashCombine, c: nat, n: nat)
    requires n > 0 && c < |t.definitions|
  {
    NoneEmpty(t, combine, [c], n, n)
  }

  /** The partition operator succeeds: the column is not nullable, and no partition that it has to sort is empty. */
  ghost predicate Partitionable(ts: seq<Table>, definitions: seq<ColumnDefinition>, combine: HashCombine, c: nat,
                                n: nat, sortWithin: bool)
    requires n > 0 && Producers(ts, definitions, c)
  {
    (ts != [] ==> !definitions[c].nullable) && (sortWithin ==> EveryPartitionEverywhere(ts, combine, c, n))
  }

  ghost predicate EveryPartitionEverywhere(ts: seq<Table>, combine: HashCombine, c: nat, n: nat)
    requires n > 0
  {
    forall k :: 0 <= k < |ts| ==> c < |ts[k].definitions| && EveryPartitionHasRows(ts[k], combine, c, n)
  }

  lemma OneMoreEverywhere(ts: seq<Table>, combine: HashCombine, c: nat, n: nat, k: nat)
    requires n > 0 && k < |ts| && c < |ts[k].definitions|
    ensures EveryPartitionEverywhere(ts[..k + 1], combine, c, n) <==>
            EveryPartitionEverywhere(ts[..k], combine, c, n) && EveryPartitionHasRows(ts[k], combine, c, n)
    ensures EveryPartitionEverywhere(ts, combine, c, n) ==> EveryPartitionHasRows(ts[k], combine, c, n)
  {
    var more := ts[..k + 1];
    assert more[k] == ts[k];
    forall m | 0 <= m < k
      ensures more[m] == ts[..k][m]
    {}
  }

  ghost predicate ChunkHolds(t: Table, combine: HashCombine, c: nat, n: nat, i: nat, sortWithin: bool, chunk: Chunk)
    requires n > 0 && c < |t.definitions|
  {
    exists order :: HoldsPartition(t, combine, [c], n, i, sortWithin, order, chunk)
  }

  /** One chunk per partition; sorted ones have rows. */
  ghost predicate IsPartitioned(t: Table, combine: HashCombine, c: nat, n: nat, sortWithin: bool, part: Table)
    requires n > 0 && c < |t.definitions|
  {
    && |part.chunks| == n
    && (sortWithin ==> EveryPartitionHasRows(t, combine, c, n))
    && forall i :: 0 <= i < n ==> ChunkHolds(t, combine, c, n, i, sortWithin, part.chunks[i])
  }

  ghost predicate ArePartitioned(ts: seq<Table>, combine: HashCombine, c: nat, n: nat, sortWithin: bool,
                                 parts: seq<Table>)
    requires n > 0
  {
    |parts| <= |ts| &&
    forall k :: 0 <= k < |parts| ==>
      c < |ts[k].definitions| && IsPartitioned(ts[k], combine, c, n, sortWithin, parts[k])
  }

  method PartitionOne(t: Table, combine: HashCombine, c: nat, n: nat, sortWithin: bool) returns (ok: bool, part: Table)
    requires n > 0 && Producer(t, t.definitions) && c < |t.definitions|
    ensures ok <==> !t.definitions[c].nullable && (sortWithin ==> EveryPartitionHasRows(t, combine, c, n))
    ensures ok ==> IsPartitioned(t, combine, c, n, sortWithin, part)
  {
    var r;
    ghost var orders;
    r, orders := PartitionOperator.Execute(t, combine, [c], n, sortWithin);
    assert ColumnsFit(t, [c]) <==> !t.definitions[c].nullable by {
      assert [c][0] == c;
    }
    if r.Failed? {
      return false, t;
    }
    ok, part := true, r.value;
    forall i | 0 <= i < n
      ensures ChunkHolds(t, combine, c, n, i, sortWithin, part.chunks[i])
    {
      assert Holder(t, combine, [c], n, sortWithin)(i, orders[i], part.chunks[i]);
    }
  }

  method PartitionAll(ts: seq<Table>, ghost definitions: seq<ColumnDefinition>, combine: HashCombine, c: nat, n: nat,
                      sortWithin: bool)
    returns (ok: bool, parts: seq<Table>)
    requires n > 0 && Producers(ts, definitions, c)
    ensures ok <==> Partitionable(ts, definitions, combine, c, n, sortWithin)
    ensures ok ==> |parts| == |ts| && ArePartitioned(ts, combine, c, n, sortWithin, parts)
  {
    parts := [];
    for k := 0 to |ts|
      invariant |parts| == k && ArePartitioned(ts, combine, c, n, sortWithin, parts)
      invariant k > 0 ==> !definitions[c].nullable
      invariant sortWithin ==> EveryPartitionEverywhere(ts[..k], combine, c, n)
    {
      assert Producer(ts[k], definitions);
      OneMoreEverywhere(ts, combine, c, n, k);
      var part;
      ok, part := PartitionOne(ts[k], combine, c, n, sortWithin);
      if !ok {
        return false, parts;
      }
      OneMorePartitioned(ts, combine, c, n, sortWithin, parts, part);
      parts := parts + [part];
    }
    TakeAll(ts);
    ok := true;
  }

  lemma OneMorePartitioned(ts: seq<Table>, combine: HashCombine, c: nat, n: nat, sortWithin: bool, parts: seq<Table>,
                           part: Table)
    requires n > 0 && ArePartitioned(ts, combine, c, n, sortWithin, parts) && |parts| < |ts|
    requires c < |ts[|parts|].definitions| && IsPartitioned(ts[|parts|], combine, c, n, sortWithin, part)
    ensures ArePartitioned(ts, combine, c, n, sortWithin, parts + [part])
  {}

  // ----- the workers -----

  function ChunksAt(parts: seq<Table>, i: nat): (r: seq<Chunk>)
    requires forall k :: 0 <= k < |parts| ==> i < |parts[k].chunks|
    ensures |r| == |parts| && forall k :: 0 <= k < |r| ==> r[k] == parts[k].chunks[i]
  {
    seq(|parts|, k requires 0 <= k < |parts| => parts[k].chunks[i])
  }

  /** What worker i imports: chunk i of every producer. */
  function ReadPartition(parts: seq<Table>, definitions: seq<ColumnDefinition>, i: nat): (r: Table)
    requires forall k :: 0 <= k < |parts| ==> i < |parts[k].chunks|
  {
    Table(definitions, ChunksAt(parts, i))
  }

  lemma ChunkIsPartition(t: Table, combine: HashCombine, c: nat, n: nat, i: nat, sortWithin: bool, chunk: Chunk)
    requires n > 0 && c < |t.definitions| && ChunkHolds(t, combine, c, n, i, sortWithin, chunk)
    ensures ValidChunk(t.definitions, chunk)
    ensures multiset(ChunkRows(chunk)) == multiset(Map(StoredRowOf(t), PartitionOf(t, combine, [c], n, i)))
    ensures ChunkSize(chunk) == |PartitionOf(t, combine, [c], n, i)|
  {
    var order :| HoldsPartition(t, combine, [c], n, i, sortWithin, order, chunk);
    PartitionRows(t, combine, [c], n, i, sortWithin, order, chunk);
    PermutedLength(ChunkRows(chunk), Map(StoredRowOf(t), PartitionOf(t, combine, [c], n, i)));
  }

  lemma ReadOneMore(parts: seq<Table>, definitions: seq<ColumnDefinition>, i: nat)
    requires parts != [] && forall k :: 0 <= k < |parts| ==> i < |parts[k].chunks|
    requires ValidTable(ReadPartition(parts[..|parts| - 1], definitions, i))
    requires ValidChunk(definitions, parts[|parts| - 1].chunks[i])
    ensures ValidTable(ReadPartition(parts, definitions, i))
    ensures Rows(ReadPartition(parts, definitions, i)) ==
            Rows(ReadPartition(parts[..|parts| - 1], definitions, i)) + ChunkRows(parts[|parts| - 1].chunks[i])
  {
    var front, chunk := ReadPartition(parts[..|parts| - 1], definitions, i), parts[|parts| - 1].chunks[i];
    RowsSnoc(front, chunk);
    assert ReadPartition(parts, definitions, i) == front.(chunks := front.chunks + [chunk]);
  }

  lemma PartitionedHasChunks(ts: seq<Table>, combine: HashCombine, c: nat, n: nat, sortWithin: bool, parts: seq<Table>,
                             i: nat)
    requires n > 0 && ArePartitioned(ts, combine, c, n, sortWithin, parts) && i < n
    ensures forall k :: 0 <= k < |parts| ==> i < |parts[k].chunks|
  {
    forall k | 0 <= k < |parts|
      ensures i < |parts[k].chunks|
    {
      assert IsPartitioned(ts[k], combine, c, n, sortWithin, parts[k]);
    }
  }

  /** What the last producer adds. */
  lemma LastDelivered(ts: seq<Table>, definitions: seq<ColumnDefinition>, combine: HashCombine, c: nat,
                      n: nat, sortWithin: bool, parts: seq<Table>, i: nat)
    requires n > 0 && Producers(ts, definitions, c) && i < n && ts != []
    requires |parts| == |ts| && ArePartitioned(ts, combine, c, n, sortWithin, parts)
    ensures var m := |ts| - 1;
            && c < |ts[m].definitions| && |parts[m].chunks| == n && ValidChunk(definitions, parts[m].chunks[i])
            && multiset(ChunkRows(parts[m].chunks[i])) ==
               multiset(Map(StoredRowOf(ts[m]), PartitionOf(ts[m], combine, [c], n, i)))
    ensures Producers(ts[..|ts| - 1], definitions, c)
    ensures ArePartitioned(ts[..|ts| - 1], combine, c, n, sortWithin, parts[..|ts| - 1])
  {
    var m := |ts| - 1;
    assert Producer(ts[m], definitions) && IsPartitioned(ts[m], combine, c, n, sortWithin, parts[m]);
    ChunkIsPartition(ts[m], combine, c, n, i, sortWithin, parts[m].chunks[i]);
  }

  lemma DeliveredNext(ts: seq<Table>, combine: HashCombine, c: nat, n: nat, i: nat)
    requires n > 0 && ts != [] && HaveColumn(ts[..|ts| - 1], c) && c < |ts[|ts| - 1].definitions|
    ensures HaveColumn(ts, c)
    ensures Delivered(ts, combine, c, n, i) ==
            Delivered(ts[..|ts| - 1], combine, c, n, i) +
            multiset(Map(StoredRowOf(ts[|ts| - 1]), PartitionOf(ts[|ts| - 1], combine, [c], n, i)))
  {
    forall k | 0 <= k < |ts|
      ensures c < |ts[k].definitions|
    {
      assert k < |ts| - 1 ==> ts[..|ts| - 1][k] == ts[k];
    }
  }

  /** The rows that a worker reads are those of its partition of all producers. */
  lemma {:induction false} ReadsDelivered(ts: seq<Table>, definitions: seq<ColumnDefinition>, combine: HashCombine,
                                          c: nat, n: nat, sortWithin: bool, parts: seq<Table>, i: nat)
    requires n > 0 && Producers(ts, definitions, c) && i < n
    requires |parts| == |ts| && ArePartitioned(ts, combine, c, n, sortWithin, parts)
    ensures HaveColumn(ts, c) && forall k :: 0 <= k < |parts| ==> i < |parts[k].chunks|
    ensures ValidTable(ReadPartition(parts, definitions, i))
    ensures multiset(Rows(ReadPartition(parts, definitions, i))) == Delivered(ts, combine, c, n, i)
  {
    PartitionedHasChunks(ts, combine, c, n, sortWithin, parts, i);
    if ts == [] {
      assert Rows(ReadPartition(parts, definitions, i)) == [];
    } else {
      var m := |ts| - 1;
      LastDelivered(ts, definitions, combine, c, n, sortWithin, parts, i);
      ReadsDelivered(ts[..m], definitions, combine, c, n, sortWithin, parts[..m], i);
      DeliveredNext(ts, combine, c, n, i);
      ReadOneMore(parts, definitions, i);
    }
  }

  /** Sorted within their partitions, the chunks that a worker reads are sorted, and none is empty. */
  lemma ReadsSorted(ts: seq<Table>, definitions: seq<ColumnDefinition>, combine: HashCombine, c: nat, n: nat,
                    parts: seq<Table>, i: nat)
    requires n > 0 && Producers(ts, definitions, c) && i < n
    requires |parts| == |ts| && ArePartitioned(ts, combine, c, n, true, parts)
    requires ValidTable(ReadPartition(parts, definitions, i))
    ensures var keys := StoredColumn(ReadPartition(parts, definitions, i), c);
            SortedMerge.SortedChunks(keys) && [] !in keys
  {
    var w := ReadPartition(parts, definitions, i);
    forall k | 0 <= k < |ts|
      ensures SortedMerge.SortedChunk(StoredColumn(w, c)[k]) && StoredColumn(w, c)[k] != []
    {
      var t := ts[k];
      assert Producer(t, definitions) && IsPartitioned(t, combine, c, n, true, parts[k]);
      assert ChunkHolds(t, combine, c, n, i, true, w.chunks[k]);
      ChunkIsPartition(t, combine, c, n, i, true, w.chunks[k]);
      var order :| HoldsPartition(t, combine, [c], n, i, true, order, w.chunks[k]);
      SortedForMerge(t, combine, c, n, i, order, w, k);
    }
  }

  // ----- the join -----

  /** Worker i joined its share of everything. */
  ghost predicate JoinedShare(combine: HashCombine, n: nat, ls: seq<Row>, rs: seq<Row>, cl: nat, cr: nat, i: nat,
                              out: Table)
    requires n > 0
  {
    ValidTable(out) && multiset(Rows(out)) == multiset(WorkerJoin(combine, n, ls, rs, cl, cr)(i))
  }

  ghost predicate JoinedShares(combine: HashCombine, n: nat, ls: seq<Row>, rs: seq<Row>, cl: nat, cr: nat,
                               outs: seq<Table>)
    requires n > 0
  {
    forall i :: 0 <= i < |outs| ==> JoinedShare(combine, n, ls, rs, cl, cr, i, outs[i])
  }

  lemma OneMoreShare(combine: HashCombine, n: nat, ls: seq<Row>, rs: seq<Row>, cl: nat, cr: nat, outs: seq<Table>,
                     out: Table)
    requires n > 0 && JoinedShares(combine, n, ls, rs, cl, cr, outs)
    requires JoinedShare(combine, n, ls, rs, cl, cr, |outs|, out)
    ensures JoinedShares(combine, n, ls, rs, cl, cr, outs + [out])
  {}

  predicate KeysAgree(left: seq<ColumnDefinition>, right: seq<ColumnDefinition>, cl: nat, cr: nat)
    requires cl < |left| && cr < |right|
  {
    !left[cl].nullable && !right[cr].nullable && left[cl].dataType == right[cr].dataType
  }

  method JoinPartition(lefts: seq<Table>, rights: seq<Table>, definitionsL: seq<ColumnDefinition>,
                       definitionsR: seq<ColumnDefinition>, ghost combine: HashCombine, cl: nat, cr: nat, ghost n: nat,
                       i: nat, algorithm: Algorithm, partsL: seq<Table>, partsR: seq<Table>)
    returns (ok: bool, out: Table)
    requires i < n && Producers(lefts, definitionsL, cl) && Producers(rights, definitionsR, cr)
    requires |partsL| == |lefts| && ArePartitioned(lefts, combine, cl, n, algorithm.SortedMergeJoin?, partsL)
    requires |partsR| == |rights| && ArePartitioned(rights, combine, cr, n, algorithm.SortedMergeJoin?, partsR)
    ensures ok <==> KeysAgree(definitionsL, definitionsR, cl, cr)
    ensures ok ==> JoinedShare(combine, n, AllRows(lefts), AllRows(rights), cl, cr, i, out)
  {
    var left, right := ReadPartition(partsL, definitionsL, i), ReadPartition(partsR, definitionsR, i);
    ReadsDelivered(lefts, definitionsL, combine, cl, n, algorithm.SortedMergeJoin?, partsL, i);
    ReadsDelivered(rights, definitionsR, combine, cr, n, algorithm.SortedMergeJoin?, partsR, i);
    if algorithm.SortedMergeJoin? {
      ReadsSorted(lefts, definitionsL, combine, cl, n, partsL, i);
      ReadsSorted(rights, definitionsR, combine, cr, n, partsR, i);
    }
    WorkerJoins(lefts, rights, combine, cl, cr, n, i, left, right);
    var join := new JoinOperator(left, right, cl, cr, Inner, algorithm);
    var r := join.Execute();
    if r.Failed? {
      return false, left;
    }
    ok, out := true, r.value;
  }

  /** Both sides are partitioned, sorted within for the merge join, and partition i is joined with partition i. The
      workers' tables together hold the join of everything. */
  method Run(lefts: seq<Table>, rights: seq<Table>, definitionsL: seq<ColumnDefinition>,
             definitionsR: seq<ColumnDefinition>, combine: HashCombine, cl: nat, cr: nat, n: nat, algorithm: Algorithm)
    returns (ok: bool, outs: seq<Table>)
    requires n > 0 && Producers(lefts, definitionsL, cl) && Producers(rights, definitionsR, cr)
    ensures ok ==> !definitionsL[cl].nullable && !definitionsR[cr].nullable
    ensures ok ==> definitionsL[cl].dataType == definitionsR[cr].dataType
    ensures ok <==> KeysAgree(definitionsL, definitionsR, cl, cr)
                    && Partitionable(lefts, definitionsL, combine, cl, n, algorithm.SortedMergeJoin?)
                    && Partitionable(rights, definitionsR, combine, cr, n, algorithm.SortedMergeJoin?)
    ensures ok ==> |outs| == n && JoinedShares(combine, n, AllRows(lefts), AllRows(rights), cl, cr, outs)
    ensures ok ==> Together(n, RowsOfTables(outs)) == multiset(RowJoin(AllRows(lefts), AllRows(rights), cl, cr))
  {
    outs := [];
    var partsL, partsR;
    ok, partsL := PartitionAll(lefts, definitionsL, combine, cl, n, algorithm.SortedMergeJoin?);
    if !ok {
      return;
    }
    ok, partsR := PartitionAll(rights, definitionsR, combine, cr, n, algorithm.SortedMergeJoin?);
    if !ok {
      return;
    }
    for i := 0 to n
      invariant |outs| == i && (i > 0 ==> KeysAgree(definitionsL, definitionsR, cl, cr))
      invariant JoinedShares(combine, n, AllRows(lefts), AllRows(rights), cl, cr, outs)
    {
      var out;
      ok, out := JoinPartition(lefts, rights, definitionsL, definitionsR, combine, cl, cr, n, i, algorithm, partsL,
                               partsR);
      if !ok {
        return;
      }
      OneMoreShare(combine, n, AllRows(lefts), AllRows(rights), cl, cr, outs, out);
      outs := outs + [out];
    }
    SharesTogether(combine, n, AllRows(lefts), AllRows(rights), cl, cr, outs);
  }

  lemma SharesTogether(combine: HashCombine, n: nat, ls: seq<Row>, rs: seq<Row>, cl: nat, cr: nat, outs: seq<Table>)
    requires n > 0 && |outs| == n && JoinedShares(combine, n, ls, rs, cl, cr, outs)
    ensures Together(n, RowsOfTables(outs)) == multiset(RowJoin(ls, rs, cl, cr))
  {
    forall i: nat | i < n
      ensures multiset(RowsOfTables(outs)(i)) == multiset(WorkerJoin(combine, n, ls, rs, cl, cr)(i))
    {
      assert JoinedShare(combine, n, ls, rs, cl, cr, i, outs[i]);
    }
    TogetherSame(n, RowsOfTables(outs), WorkerJoin(combine, n, ls, rs, cl, cr));
    PartitionWiseJoin(combine, n, ls, rs, cl, cr);
  }
}
