/** Shuffles: spreading rows or files over workers, and joining partition by partition. */
module Shuffle {
  import opened Sequences
  import opened Storage
  import opened JoinMatching
  import opened JoinReference
  import opened Partitioning

  // ----- what the workers hold together -----

  /** The rows of n workers, as one bag. */
  ghost function Together(n: nat, share: nat -> seq<Row>): multiset<Row> {
    if n == 0 then multiset{} else Together(n - 1, share) + multiset(share(n - 1))
  }

  lemma {:induction false} TogetherSame(n: nat, f: nat -> seq<Row>, g: nat -> seq<Row>)
    requires forall i :: 0 <= i < n ==> multiset(f(i)) == multiset(g(i))
    ensures Together(n, f) == Together(n, g)
  {
    if n > 0 {
      TogetherSame(n - 1, f, g);
    }
  }

  /** One worker gets more rows. */
  lemma {:induction false} TogetherMore(n: nat, f: nat -> seq<Row>, g: nat -> seq<Row>, w: nat, rows: seq<Row>)
    requires w < n
    requires forall i :: 0 <= i < n && i != w ==> multiset(g(i)) == multiset(f(i))
    requires multiset(g(w)) == multiset(f(w)) + multiset(rows)
    ensures Together(n, g) == Together(n, f) + multiset(rows)
  {
    if w == n - 1 {
      TogetherSame(n - 1, f, g);
    } else {
      TogetherMore(n - 1, f, g, w, rows);
    }
  }

  lemma {:induction false} TogetherNothing(n: nat, f: nat -> seq<Row>)
    requires forall i :: 0 <= i < n ==> f(i) == []
    ensures Together(n, f) == multiset{}
  {
    if n > 0 {
      TogetherNothing(n - 1, f);
    }
  }

  // ----- the equi-join on rows -----

  function KeyIs(c: nat, key: Cell): Row -> bool {
    r => Component(r, c) == key
  }

  function Beside(l: Row): Row -> Row {
    r => l + r
  }

  function JoinOne(l: Row, rs: seq<Row>, cl: nat, cr: nat): seq<Row> {
    Map(Beside(l), Filter(KeyIs(cr, Component(l, cl)), rs))
  }

  function Matching(rs: seq<Row>, cl: nat, cr: nat): Row -> seq<Row> {
    l => JoinOne(l, rs, cl, cr)
  }

  /** All pairs of rows with equal keys. */
  function RowJoin(ls: seq<Row>, rs: seq<Row>, cl: nat, cr: nat): seq<Row> {
    Concat(Map(Matching(rs, cl, cr), ls))
  }

  lemma RowJoinSnoc(ls: seq<Row>, l: Row, rs: seq<Row>, cl: nat, cr: nat)
    ensures RowJoin(ls + [l], rs, cl, cr) == RowJoin(ls, rs, cl, cr) + JoinOne(l, rs, cl, cr)
  {
    MapAppend(Matching(rs, cl, cr), ls, [l]);
    ConcatSnoc(Map(Matching(rs, cl, cr), ls), JoinOne(l, rs, cl, cr));
  }

  lemma {:induction false} RowJoinRight(ls: seq<Row>, rs: seq<Row>, rt: seq<Row>, cl: nat, cr: nat)
    requires multiset(rs) == multiset(rt)
    ensures multiset(RowJoin(ls, rs, cl, cr)) == multiset(RowJoin(ls, rt, cl, cr))
  {
    if ls != [] {
      var front, l := ls[..|ls| - 1], ls[|ls| - 1];
      assert ls == front + [l];
      RowJoinRight(front, rs, rt, cl, cr);
      RowJoinSnoc(front, l, rs, cl, cr);
      RowJoinSnoc(front, l, rt, cl, cr);
      var same := KeyIs(cr, Component(l, cl));
      FilterPermuted(same, rs, rt);
      MapPermuted(Beside(l), Filter(same, rs), Filter(same, rt));
    }
  }

  lemma RowJoinLeft(ls: seq<Row>, lt: seq<Row>, rs: seq<Row>, cl: nat, cr: nat)
    requires multiset(ls) == multiset(lt)
    ensures multiset(RowJoin(ls, rs, cl, cr)) == multiset(RowJoin(lt, rs, cl, cr))
  {
    MapPermuted(Matching(rs, cl, cr), ls, lt);
    ConcatPermuted(Map(Matching(rs, cl, cr), ls), Map(Matching(rs, cl, cr), lt));
  }

  /** The order of the inputs does not matter. */
  lemma RowJoinPermuted(ls: seq<Row>, lt: seq<Row>, rs: seq<Row>, rt: seq<Row>, cl: nat, cr: nat)
    requires multiset(ls) == multiset(lt) && multiset(rs) == multiset(rt)
    ensures multiset(RowJoin(ls, rs, cl, cr)) == multiset(RowJoin(lt, rt, cl, cr))
  {
    RowJoinLeft(ls, lt, rs, cl, cr);
    RowJoinRight(lt, rs, rt, cl, cr);
  }

  // ----- partition-wise join -----

  function CellHash(combine: HashCombine, cell: Cell): nat {
    if cell.Val? then combine(0, cell.v) else 0
  }

  function GoesTo(combine: HashCombine, c: nat, n: nat, i: nat): Row -> bool
    requires n > 0
  {
    row => CellHash(combine, Component(row, c)) % n == i
  }

  function Share(combine: HashCombine, c: nat, n: nat, i: nat, rows: seq<Row>): seq<Row>
    requires n > 0
  {
    Filter(GoesTo(combine, c, n, i), rows)
  }

  function WorkerJoin(combine: HashCombine, n: nat, ls: seq<Row>, rs: seq<Row>, cl: nat, cr: nat): nat -> seq<Row>
    requires n > 0
  {
    (i: nat) => RowJoin(Share(combine, cl, n, i, ls), Share(combine, cr, n, i, rs), cl, cr)
  }

  /** A left row finds all its partners in the partition it belongs to. */
  lemma PartnersShared(combine: HashCombine, n: nat, l: Row, rs: seq<Row>, cl: nat, cr: nat)
    requires n > 0
    ensures var i := CellHash(combine, Component(l, cl)) % n;
            JoinOne(l, Share(combine, cr, n, i, rs), cl, cr) == JoinOne(l, rs, cl, cr)
  {
    var i := CellHash(combine, Component(l, cl)) % n;
    FilterTwice(KeyIs(cr, Component(l, cl)), GoesTo(combine, cr, n, i), rs);
  }

  /** One more left row adds its matches to one worker. */
  lemma OneMoreLeft(combine: HashCombine, n: nat, i: nat, front: seq<Row>, l: Row, rs: seq<Row>, cl: nat, cr: nat)
    requires i < n
    ensures WorkerJoin(combine, n, front + [l], rs, cl, cr)(i) ==
            WorkerJoin(combine, n, front, rs, cl, cr)(i)
            + if CellHash(combine, Component(l, cl)) % n == i then JoinOne(l, rs, cl, cr) else []
  {
    var goesTo := GoesTo(combine, cl, n, i);
    FilterAppend(goesTo, front, [l]);
    if goesTo(l) {
      PartnersShared(combine, n, l, rs, cl, cr);
      assert Filter(goesTo, [l]) == [l];
      RowJoinSnoc(Share(combine, cl, n, i, front), l, Share(combine, cr, n, i, rs), cl, cr);
    } else {
      assert Filter(goesTo, [l]) == [];
      assert Share(combine, cl, n, i, front + [l]) == Share(combine, cl, n, i, front);
    }
  }

  /** Joining partition i with partition i, over all i, gives the join of the whole inputs. */
  lemma {:induction false} PartitionWiseJoin(combine: HashCombine, n: nat, ls: seq<Row>, rs: seq<Row>, cl: nat, cr: nat)
    requires n > 0
    ensures Together(n, WorkerJoin(combine, n, ls, rs, cl, cr)) == multiset(RowJoin(ls, rs, cl, cr))
  {
    if ls == [] {
      TogetherNothing(n, WorkerJoin(combine, n, ls, rs, cl, cr));
    } else {
      var front, l := ls[..|ls| - 1], ls[|ls| - 1];
      assert ls == front + [l];
      PartitionWiseJoin(combine, n, front, rs, cl, cr);
      var f, g := WorkerJoin(combine, n, front, rs, cl, cr), WorkerJoin(combine, n, front + [l], rs, cl, cr);
      forall i: nat | i < n
        ensures g(i) == f(i) + if CellHash(combine, Component(l, cl)) % n == i then JoinOne(l, rs, cl, cr) else []
      {
        OneMoreLeft(combine, n, i, front, l, rs, cl, cr);
      }
      TogetherMore(n, f, g, CellHash(combine, Component(l, cl)) % n, JoinOne(l, rs, cl, cr));
      RowJoinSnoc(front, l, rs, cl, cr);
    }
  }

  // ----- from tables to rows -----

  /** The rows of a table as the join and the partitioning read them. */
  function StoredRows(t: Table): seq<Row> {
    Map(StoredRowOf(t), Positions(ChunkSizes(t)))
  }

  /** One left row of the nested loop. */
  lemma PartnerRows(left: Table, right: Table, cl: nat, cr: nat, p: RowId)
    requires ValidTable(left) && ValidTable(right) && cl < |left.definitions| && cr < |right.definitions|
    requires InRange(p, ChunkSizes(left))
    ensures Map(MatchedRowOf(left, right), PartnersOf(p, StoredColumn(left, cl), StoredColumn(right, cr))) ==
            JoinOne(StoredRowOf(left)(p), StoredRows(right), cl, cr)
  {
    var keysL, keysR := StoredColumn(left, cl), StoredColumn(right, cr);
    var l := StoredRowOf(left)(p);
    assert Sizes(keysR) == ChunkSizes(right);
    var ps := Positions(ChunkSizes(right));
    assert At(keysL, p, keysL[p.chunk][p.offset]);
    forall q | q in ps
      ensures PartnerOf(p, keysL, keysR)(q) == KeyIs(cr, Component(l, cl))(StoredRowOf(right)(q))
    {
      assert At(keysR, q, keysR[q.chunk][q.offset]);
    }
    FilterMapped(StoredRowOf(right), PartnerOf(p, keysL, keysR), KeyIs(cr, Component(l, cl)), ps);
  }

  lemma {:induction false} NestedLoopRows(left: Table, right: Table, cl: nat, cr: nat, ps: seq<RowId>)
    requires ValidTable(left) && ValidTable(right) && cl < |left.definitions| && cr < |right.definitions|
    requires forall p :: p in ps ==> InRange(p, ChunkSizes(left))
    ensures Map(MatchedRowOf(left, right), NestedLoopOver(ps, StoredColumn(left, cl), StoredColumn(right, cr))) ==
            RowJoin(Map(StoredRowOf(left), ps), StoredRows(right), cl, cr)
  {
    if ps != [] {
      var front, p := ps[..|ps| - 1], ps[|ps| - 1];
      var keysL, keysR := StoredColumn(left, cl), StoredColumn(right, cr);
      NestedLoopRows(left, right, cl, cr, front);
      PartnerRows(left, right, cl, cr, p);
      MapAppend(MatchedRowOf(left, right), NestedLoopOver(front, keysL, keysR), PartnersOf(p, keysL, keysR));
      MapLast(StoredRowOf(left), ps);
      RowJoinSnoc(Map(StoredRowOf(left), front), StoredRowOf(left)(p), StoredRows(right), cl, cr);
    }
  }

  /** The matches of the nested loop over positions are the join of the rows. */
  lemma ReferenceIsRowJoin(left: Table, right: Table, cl: nat, cr: nat)
    requires ValidTable(left) && ValidTable(right) && cl < |left.definitions| && cr < |right.definitions|
    ensures ReferenceJoin(left, right, StoredColumn(left, cl), StoredColumn(right, cr), Inner) ==
            RowJoin(StoredRows(left), StoredRows(right), cl, cr)
  {
    assert Sizes(StoredColumn(left, cl)) == ChunkSizes(left);
    NestedLoopRows(left, right, cl, cr, Positions(ChunkSizes(left)));
  }

  /** The rows of partition i, as the partition operator materialises them. */
  lemma PartitionIsShare(t: Table, combine: HashCombine, c: nat, n: nat, i: nat)
    requires n > 0 && c < |t.definitions|
    ensures Map(StoredRowOf(t), PartitionOf(t, combine, [c], n, i)) == Share(combine, c, n, i, StoredRows(t))
  {
    var inPartition, goesTo := InPartition(t, combine, [c], n, i), GoesTo(combine, c, n, i);
    forall p: RowId
      ensures inPartition(p) == goesTo(StoredRowOf(t)(p))
    {
      assert [c][..0] == [];
      assert RowHash(t, combine, [], p) == 0;
    }
    FilterMapped(StoredRowOf(t), inPartition, goesTo, Positions(ChunkSizes(t)));
  }

  // ----- the distributed join -----

  /** The rows of all producers. */
  function AllRows(ts: seq<Table>): seq<Row> {
    if ts == [] then [] else AllRows(ts[..|ts| - 1]) + StoredRows(ts[|ts| - 1])
  }

  predicate HaveColumn(ts: seq<Table>, c: nat) {
    forall k :: 0 <= k < |ts| ==> c < |ts[k].definitions|
  }

  /** Partition i of every producer. */
  ghost function Delivered(ts: seq<Table>, combine: HashCombine, c: nat, n: nat, i: nat): multiset<Row>
    requires n > 0 && HaveColumn(ts, c)
  {
    if ts == [] then multiset{}
    else
      var t := ts[|ts| - 1];
      Delivered(ts[..|ts| - 1], combine, c, n, i) + multiset(Map(StoredRowOf(t), PartitionOf(t, combine, [c], n, i)))
  }

  lemma {:induction false} DeliveredIsShare(ts: seq<Table>, combine: HashCombine, c: nat, n: nat, i: nat)
    requires n > 0 && HaveColumn(ts, c)
    ensures Delivered(ts, combine, c, n, i) == multiset(Share(combine, c, n, i, AllRows(ts)))
  {
    if ts != [] {
      var front, t := ts[..|ts| - 1], ts[|ts| - 1];
      DeliveredIsShare(front, combine, c, n, i);
      PartitionIsShare(t, combine, c, n, i);
      FilterAppend(GoesTo(combine, c, n, i), AllRows(front), StoredRows(t));
    }
  }

  ghost predicate NoNulls(rows: seq<Row>) {
    forall row :: row in rows ==> Null !in row
  }

  lemma {:induction false} AllRowsStored(ts: seq<Table>)
    ensures NoNulls(AllRows(ts))
  {
    if ts != [] {
      AllRowsStored(ts[..|ts| - 1]);
    }
  }

  lemma StoredAlready(t: Table)
    requires NoNulls(Rows(t))
    ensures StoredRows(t) == Rows(t)
  {
    var ps := Positions(ChunkSizes(t));
    forall k | 0 <= k < |ps|
      ensures StoredRows(t)[k] == Rows(t)[k]
    {
      assert Rows(t)[k] in Rows(t);
      StoredRowExact(RowAt(t, ps[k]), t.definitions);
    }
  }

  /** What a worker reads holds the rows of its share. */
  lemma WorkerReads(w: Table, ts: seq<Table>, combine: HashCombine, c: nat, n: nat, i: nat)
    requires n > 0 && HaveColumn(ts, c)
    requires multiset(Rows(w)) == Delivered(ts, combine, c, n, i)
    ensures multiset(StoredRows(w)) == multiset(Share(combine, c, n, i, AllRows(ts)))
  {
    DeliveredIsShare(ts, combine, c, n, i);
    AllRowsStored(ts);
    forall row | row in Rows(w)
      ensures Null !in row
    {
      PermutedMembers(Rows(w), Share(combine, c, n, i, AllRows(ts)), row);
    }
    StoredAlready(w);
  }

  function RowsOfTables(ts: seq<Table>): nat -> seq<Row> {
    (i: nat) => if i < |ts| then Rows(ts[i]) else []
  }

  /** Worker i reads partition i of the left and of the right producers. */
  ghost predicate ReadsPartition(lefts: seq<Table>, rights: seq<Table>, combine: HashCombine, cl: nat, cr: nat,
                                 n: nat, i: nat, left: Table, right: Table)
    requires n > 0
    requires HaveColumn(lefts, cl) && HaveColumn(rights, cr)
  {
    && ValidTable(left) && ValidTable(right) && cl < |left.definitions| && cr < |right.definitions|
    && multiset(Rows(left)) == Delivered(lefts, combine, cl, n, i)
    && multiset(Rows(right)) == Delivered(rights, combine, cr, n, i)
  }

  /** What one worker joins is its share of the global join. */
  lemma WorkerJoins(lefts: seq<Table>, rights: seq<Table>, combine: HashCombine, cl: nat, cr: nat, n: nat, i: nat,
                    left: Table, right: Table)
    requires n > 0
    requires HaveColumn(lefts, cl) && HaveColumn(rights, cr)
    requires ReadsPartition(lefts, rights, combine, cl, cr, n, i, left, right)
    ensures multiset(ReferenceJoin(left, right, StoredColumn(left, cl), StoredColumn(right, cr), Inner)) ==
            multiset(WorkerJoin(combine, n, AllRows(lefts), AllRows(rights), cl, cr)(i))
  {
    ReferenceIsRowJoin(left, right, cl, cr);
    WorkerReads(left, lefts, combine, cl, n, i);
    WorkerReads(right, rights, combine, cr, n, i);
    RowJoinPermuted(StoredRows(left), Share(combine, cl, n, i, AllRows(lefts)),
                    StoredRows(right), Share(combine, cr, n, i, AllRows(rights)), cl, cr);
  }

  ghost predicate JoinsPartition(lefts: seq<Table>, rights: seq<Table>, combine: HashCombine, cl: nat, cr: nat,
                                 n: nat, i: nat, left: Table, right: Table, out: Table)
    requires n > 0
    requires HaveColumn(lefts, cl) && HaveColumn(rights, cr)
  {
    && ReadsPartition(lefts, rights, combine, cl, cr, n, i, left, right)
    && multiset(Rows(out)) ==
       multiset(ReferenceJoin(left, right, StoredColumn(left, cl), StoredColumn(right, cr), Inner))
  }

  /** Workers that inner-join partition i with partition i produce together the join of everything. */
  lemma DistributedJoin(lefts: seq<Table>, rights: seq<Table>, combine: HashCombine, cl: nat, cr: nat, n: nat,
                        workersL: seq<Table>, workersR: seq<Table>, outs: seq<Table>)
    requires n > 0 && |workersL| == |workersR| == |outs| == n
    requires HaveColumn(lefts, cl) && HaveColumn(rights, cr)
    requires forall i :: 0 <= i < n ==>
               JoinsPartition(lefts, rights, combine, cl, cr, n, i, workersL[i], workersR[i], outs[i])
    ensures Together(n, RowsOfTables(outs)) == multiset(RowJoin(AllRows(lefts), AllRows(rights), cl, cr))
  {
    forall i: nat | i < n
      ensures multiset(RowsOfTables(outs)(i)) ==
              multiset(WorkerJoin(combine, n, AllRows(lefts), AllRows(rights), cl, cr)(i))
    {
      WorkerJoins(lefts, rights, combine, cl, cr, n, i, workersL[i], workersR[i]);
    }
    TogetherSame(n, RowsOfTables(outs), WorkerJoin(combine, n, AllRows(lefts), AllRows(rights), cl, cr));
    PartitionWiseJoin(combine, n, AllRows(lefts), AllRows(rights), cl, cr);
  }
}
