/** The nested-loop join that every algorithm, join mode and choice of sides is measured against. */
module JoinReference {
  import opened Sequences
  import opened Storage
  import opened JoinMatching

  datatype JoinMode = Inner | LeftOuter | RightOuter | FullOuter {
    predicate KeepsLeft() { LeftOuter? || FullOuter? }
    predicate KeepsRight() { RightOuter? || FullOuter? }
  }

  /** A pair of row positions. */
  datatype Joined = Joined(l: RowId, r: RowId) {
    function Flip(): Joined { Joined(r, l) }
  }

  ghost predicate Partners(keysL: Keys, keysR: Keys, j: Joined) {
    exists v :: At(keysL, j.l, v) && At(keysR, j.r, v)
  }

  // ----- matched pairs -----

  ghost function PartnersOf(l: RowId, keysL: Keys, keysR: Keys): seq<Joined> {
    Map(With(l), Filter(PartnerOf(l, keysL, keysR), Positions(Sizes(keysR))))
  }

  function With(l: RowId): RowId -> Joined {
    r => Joined(l, r)
  }

  ghost function PartnerOf(l: RowId, keysL: Keys, keysR: Keys): RowId -> bool {
    r => Partners(keysL, keysR, Joined(l, r))
  }

  ghost function NestedLoopOver(ls: seq<RowId>, keysL: Keys, keysR: Keys): seq<Joined> {
    if ls == [] then []
    else NestedLoopOver(ls[..|ls| - 1], keysL, keysR) + PartnersOf(ls[|ls| - 1], keysL, keysR)
  }

  /** For each left row, for each right row: emit the pair when the keys are equal. */
  ghost function NestedLoop(keysL: Keys, keysR: Keys): seq<Joined> {
    NestedLoopOver(Positions(Sizes(keysL)), keysL, keysR)
  }

  lemma PartnersOfExact(l: RowId, keysL: Keys, keysR: Keys)
    ensures NoDup(PartnersOf(l, keysL, keysR))
    ensures forall j: Joined :: j in PartnersOf(l, keysL, keysR) <==> j.l == l && Partners(keysL, keysR, j)
  {
    var rs := Filter(PartnerOf(l, keysL, keysR), Positions(Sizes(keysR)));
    PositionsOrdered(Sizes(keysR));
    FilterNoDup(PartnerOf(l, keysL, keysR), Positions(Sizes(keysR)));
    var js := PartnersOf(l, keysL, keysR);
    forall j: Joined
      ensures j in js <==> j.l == l && Partners(keysL, keysR, j)
    {
      if j.l == l && Partners(keysL, keysR, j) {
        assert InRange(j.r, Sizes(keysR));
        assert j.r in rs;
        var k :| 0 <= k < |rs| && rs[k] == j.r;
        assert js[k] == j;
      }
      if j in js {
        var k :| 0 <= k < |js| && js[k] == j;
        assert rs[k] in rs;
      }
    }
  }

  lemma {:induction false} NestedLoopOverExact(ls: seq<RowId>, keysL: Keys, keysR: Keys)
    requires NoDup(ls)
    ensures NoDup(NestedLoopOver(ls, keysL, keysR))
    ensures forall j: Joined :: j in NestedLoopOver(ls, keysL, keysR) <==> j.l in ls && Partners(keysL, keysR, j)
  {
    if ls != [] {
      var front, last := ls[..|ls| - 1], ls[|ls| - 1];
      NestedLoopOverExact(front, keysL, keysR);
      PartnersOfExact(last, keysL, keysR);
      assert ls == front + [last];
      NoDupAppend(NestedLoopOver(front, keysL, keysR), PartnersOf(last, keysL, keysR));
    }
  }

  /** The nested loop emits each pair of partners exactly once. */
  lemma NestedLoopExact(keysL: Keys, keysR: Keys)
    ensures NoDup(NestedLoop(keysL, keysR))
    ensures forall j: Joined :: j in NestedLoop(keysL, keysR) <==> Partners(keysL, keysR, j)
  {
    PositionsOrdered(Sizes(keysL));
    NestedLoopOverExact(Positions(Sizes(keysL)), keysL, keysR);
  }

  /** Position lists as pairs of rows: list i belongs to chunk i of table B. */
  function PairUp(list: seq<Match>, chunk: nat): (r: seq<Joined>) {
    Map((m: Match) => Joined(m.a, RowId(chunk, m.b)), list)
  }

  function Pairs(lists: seq<seq<Match>>): seq<Joined> {
    if lists == [] then [] else Pairs(lists[..|lists| - 1]) + PairUp(lists[|lists| - 1], |lists| - 1)
  }

  lemma {:induction false} PairsExact(keysA: Keys, keysB: Keys, lists: seq<seq<Match>>)
    requires MatchLists(keysA, keysB, lists)
    ensures NoDup(Pairs(lists))
    ensures forall j: Joined :: j in Pairs(lists) <==> j.r.chunk < |lists| && Partners(keysA, keysB, j)
  {
    if lists != [] {
      var n := |lists| - 1;
      assert MatchLists(keysA, keysB, lists[..n]) by {
        assert forall j :: 0 <= j < n ==> MatchList(keysA, keysB[j], lists[j]);
      }
      PairsExact(keysA, keysB, lists[..n]);
      var list, up := lists[n], PairUp(lists[n], n);
      assert MatchList(keysA, keysB[n], list);
      forall j: Joined
        ensures j in up <==> j.r.chunk == n && Partners(keysA, keysB, j)
      {
        if j.r.chunk == n && Partners(keysA, keysB, j) {
          var m := Match(j.l, j.r.offset);
          assert IsMatch(keysA, keysB[n], m);
          var k :| 0 <= k < |list| && list[k] == m;
          assert up[k] == j;
        }
        if j in up {
          var k :| 0 <= k < |up| && up[k] == j;
          assert list[k] in list && IsMatch(keysA, keysB[n], list[k]);
        }
      }
      NoDupAppend(Pairs(lists[..n]), up);
    }
  }

  function Flips(js: seq<Joined>): seq<Joined> {
    Map((j: Joined) => j.Flip(), js)
  }

  lemma FlipsPermuted(ps: seq<Joined>, qs: seq<Joined>)
    requires NoDup(ps) && NoDup(qs)
    requires forall j: Joined :: j.Flip() in ps <==> j in qs
    ensures multiset(Flips(ps)) == multiset(qs)
  {
    var flipped := Flips(ps);
    forall j: Joined
      ensures j in flipped <==> j in qs
    {
      if j.Flip() in ps {
        var k :| 0 <= k < |ps| && ps[k] == j.Flip();
        assert flipped[k] == j;
      }
      if j in flipped {
        var k :| 0 <= k < |flipped| && flipped[k] == j;
        assert ps[k] == j.Flip();
      }
    }
    assert forall i :: 0 <= i < |ps| ==> flipped[i].Flip() == ps[i];
    SameMembers(flipped, qs);
  }

  lemma PartnersFlip(keysL: Keys, keysR: Keys, j: Joined)
    ensures Partners(keysL, keysR, j) <==> Partners(keysR, keysL, j.Flip())
  {}

  /** Any filled position lists are the nested loop up to order, whichever input is table A. */
  lemma FilledPairs(keysA: Keys, keysB: Keys, lists: seq<seq<Match>>)
    requires MatchLists(keysA, keysB, lists) && |lists| == |keysB|
    ensures multiset(Pairs(lists)) == multiset(NestedLoop(keysA, keysB))
    ensures multiset(Flips(Pairs(lists))) == multiset(NestedLoop(keysB, keysA))
  {
    PairsExact(keysA, keysB, lists);
    NestedLoopExact(keysA, keysB);
    NestedLoopExact(keysB, keysA);
    SameMembers(Pairs(lists), NestedLoop(keysA, keysB));
    forall j: Joined
      ensures j.Flip() in Pairs(lists) <==> j in NestedLoop(keysB, keysA)
    {
      PartnersFlip(keysB, keysA, j);
    }
    FlipsPermuted(Pairs(lists), NestedLoop(keysB, keysA));
  }

  /** The hash join and the merge join fill the same lists up to order. */
  lemma AlgorithmsAgree(keysA: Keys, keysB: Keys, f: Filled, g: Filled)
    requires IsFilled(f, keysA, keysB) && IsFilled(g, keysA, keysB)
    ensures forall j :: 0 <= j < |keysB| ==> multiset(f.positionLists[j]) == multiset(g.positionLists[j])
    ensures f == g.(positionLists := f.positionLists)
  {
    forall j | 0 <= j < |keysB|
      ensures multiset(f.positionLists[j]) == multiset(g.positionLists[j])
    {
      assert MatchList(keysA, keysB[j], f.positionLists[j]) && MatchList(keysA, keysB[j], g.positionLists[j]);
      SameMembers(f.positionLists[j], g.positionLists[j]);
    }
  }

  // ----- unmatched rows -----

  predicate Unpartnered(keys: Keys, other: Keys, p: RowId) {
    p.chunk < |keys| && p.offset < |keys[p.chunk]| && keys[p.chunk][p.offset] !in AllValues(other)
  }

  lemma UnpartneredExact(keysL: Keys, keysR: Keys, l: RowId)
    requires InRange(l, Sizes(keysL))
    ensures Unpartnered(keysL, keysR, l) <==> !exists r: RowId :: Partners(keysL, keysR, Joined(l, r))
  {
    var v := keysL[l.chunk][l.offset];
    AllValuesAt(keysR, v);
    assert At(keysL, l, v);
    assert forall r: RowId :: Partners(keysL, keysR, Joined(l, r)) <==> At(keysR, r, v);
  }

  function UnpartneredIn(keys: Keys, other: Keys): RowId -> bool {
    p => Unpartnered(keys, other, p)
  }

  /** The rows without a partner, in input order. */
  function UnmatchedRows(keys: Keys, other: Keys): seq<RowId> {
    Filter(UnpartneredIn(keys, other), Positions(Sizes(keys)))
  }

  function InChunk(n: nat): nat -> RowId {
    (k: nat) => RowId(n, k)
  }

  function OffsetPositions(offsets: seq<seq<nat>>): seq<RowId> {
    if offsets == [] then []
    else OffsetPositions(offsets[..|offsets| - 1]) + Map(InChunk(|offsets| - 1), offsets[|offsets| - 1])
  }

  lemma {:induction false} ChunkOffsets(p: RowId -> bool, n: nat, bits: seq<bool>)
    requires forall k: nat :: k < |bits| ==> p(RowId(n, k)) == bits[k]
    ensures Filter(p, ChunkPositions(n, |bits|)) == Map(InChunk(n), TrueOffsets(bits))
  {
    if bits != [] {
      var size := |bits| - 1;
      ChunkOffsets(p, n, bits[..size]);
      assert ChunkPositions(n, size + 1) == ChunkPositions(n, size) + [RowId(n, size)];
      FilterSnoc(p, ChunkPositions(n, size), RowId(n, size));
      MapAppend<nat, RowId>(InChunk(n), TrueOffsets(bits[..size]), if bits[size] then [size] else []);
    }
  }

  /** The dangling bookkeeping lists exactly the rows without a partner, in input order. */
  lemma {:induction false} OffsetsUpTo(keys: Keys, other: Keys, n: nat)
    requires n <= |keys|
    ensures OffsetPositions(DanglingOffsets(keys, other)[..n]) ==
            Filter(UnpartneredIn(keys, other), Positions(Sizes(keys)[..n]))
  {
    if n > 0 {
      OffsetsUpTo(keys, other, n - 1);
      var p := UnpartneredIn(keys, other);
      assert Sizes(keys)[..n][..n - 1] == Sizes(keys)[..n - 1];
      assert DanglingOffsets(keys, other)[..n][..n - 1] == DanglingOffsets(keys, other)[..n - 1];
      FilterAppend(p, Positions(Sizes(keys)[..n - 1]), ChunkPositions(n - 1, |keys[n - 1]|));
      ChunkOffsets(p, n - 1, Unseen(keys[n - 1], AllValues(other)));
    }
  }

  lemma DanglingRowsAreUnmatched(keys: Keys, other: Keys)
    ensures OffsetPositions(DanglingOffsets(keys, other)) == UnmatchedRows(keys, other)
    ensures |UnmatchedRows(keys, other)| == CountTrues(Dangling(keys, other))
  {
    OffsetsUpTo(keys, other, |keys|);
    TakeAll(Sizes(keys));
    TakeAll(DanglingOffsets(keys, other));
    OffsetCount(keys, other, |keys|);
    TakeAll(Dangling(keys, other));
  }

  lemma {:induction false} OffsetCount(keys: Keys, other: Keys, n: nat)
    requires n <= |keys|
    ensures |OffsetPositions(DanglingOffsets(keys, other)[..n])| == CountTrues(Dangling(keys, other)[..n])
  {
    if n > 0 {
      OffsetCount(keys, other, n - 1);
      assert DanglingOffsets(keys, other)[..n][..n - 1] == DanglingOffsets(keys, other)[..n - 1];
      assert Dangling(keys, other)[..n][..n - 1] == Dangling(keys, other)[..n - 1];
    }
  }

  // ----- rows -----

  /** A matched row: both sides are read through `Values()`. */
  function MatchedRow(left: Table, right: Table, j: Joined): Row {
    StoredRow(RowAt(left, j.l), left.definitions) + StoredRow(RowAt(right, j.r), right.definitions)
  }

  function Nulls(n: nat): (r: Row)
    ensures |r| == n && forall i :: 0 <= i < n ==> r[i] == Null
  {
    seq(n, i => Null)
  }

  function LeftPadded(left: Table, right: Table, p: RowId): Row {
    StoredRow(RowAt(left, p), left.definitions) + Nulls(|right.definitions|)
  }

  function RightPadded(left: Table, right: Table, p: RowId): Row {
    Nulls(|left.definitions|) + StoredRow(RowAt(right, p), right.definitions)
  }

  function MatchedRowOf(left: Table, right: Table): Joined -> Row {
    j => MatchedRow(left, right, j)
  }

  function LeftPaddedOf(left: Table, right: Table): RowId -> Row {
    p => LeftPadded(left, right, p)
  }

  function RightPaddedOf(left: Table, right: Table): RowId -> Row {
    p => RightPadded(left, right, p)
  }

  ghost function ReferenceMatches(left: Table, right: Table, keysL: Keys, keysR: Keys): seq<Row> {
    Map(MatchedRowOf(left, right), NestedLoop(keysL, keysR))
  }

  function ReferenceLeft(left: Table, right: Table, keysL: Keys, keysR: Keys): seq<Row> {
    Map(LeftPaddedOf(left, right), UnmatchedRows(keysL, keysR))
  }

  function ReferenceRight(left: Table, right: Table, keysL: Keys, keysR: Keys): seq<Row> {
    Map(RightPaddedOf(left, right), UnmatchedRows(keysR, keysL))
  }

  /** The whole join: matched pairs, then unmatched rows of each preserved side padded with NULL. */
  ghost function ReferenceJoin(left: Table, right: Table, keysL: Keys, keysR: Keys, mode: JoinMode): seq<Row> {
    var matches := ReferenceMatches(left, right, keysL, keysR);
    match mode
    case Inner => matches
    case LeftOuter => matches + ReferenceLeft(left, right, keysL, keysR)
    case RightOuter => matches + ReferenceRight(left, right, keysL, keysR)
    case FullOuter => matches + ReferenceLeft(left, right, keysL, keysR) + ReferenceRight(left, right, keysL, keysR)
  }

  // ----- the four modes in terms of the tables' cells -----

  ghost predicate SameKey(left: Table, right: Table, cl: nat, cr: nat, j: Joined) {
    && InRange(j.l, ChunkSizes(left)) && InRange(j.r, ChunkSizes(right))
    && CellAt(left, j.l, cl) == CellAt(right, j.r, cr)
  }

  /** All pairs of rows with equal keys, each once. */
  ghost predicate AllPairs(left: Table, right: Table, cl: nat, cr: nat, pairs: seq<Joined>) {
    NoDup(pairs) && forall j: Joined :: j in pairs <==> SameKey(left, right, cl, cr, j)
  }

  /** All left rows without a partner, each once. */
  ghost predicate AllLonelyLeft(left: Table, right: Table, cl: nat, cr: nat, ls: seq<RowId>) {
    NoDup(ls) &&
    forall l: RowId :: l in ls <==>
      InRange(l, ChunkSizes(left)) && forall r: RowId :: !SameKey(left, right, cl, cr, Joined(l, r))
  }

  ghost predicate AllLonelyRight(left: Table, right: Table, cl: nat, cr: nat, rs: seq<RowId>) {
    NoDup(rs) &&
    forall r: RowId :: r in rs <==>
      InRange(r, ChunkSizes(right)) && forall l: RowId :: !SameKey(left, right, cl, cr, Joined(l, r))
  }

  /** The rows of a join: the pairs in every mode, the left rows without a partner in LeftOuter and FullOuter, the right
      ones in RightOuter and FullOuter. */
  ghost predicate JoinsByMode(left: Table, right: Table, cl: nat, cr: nat, mode: JoinMode, rows: seq<Row>) {
    exists pairs, ls, rs ::
      JoinsAs(left, right, cl, cr, mode, pairs, ls, rs) && JoinedBag(left, right, pairs, ls, rs, rows)
  }

  ghost predicate JoinsAs(left: Table, right: Table, cl: nat, cr: nat, mode: JoinMode, pairs: seq<Joined>,
                          ls: seq<RowId>, rs: seq<RowId>) {
    && AllPairs(left, right, cl, cr, pairs)
    && (if mode == LeftOuter || mode == FullOuter then AllLonelyLeft(left, right, cl, cr, ls) else ls == [])
    && (if mode == RightOuter || mode == FullOuter then AllLonelyRight(left, right, cl, cr, rs) else rs == [])
  }

  ghost predicate JoinedBag(left: Table, right: Table, pairs: seq<Joined>, ls: seq<RowId>, rs: seq<RowId>,
                            rows: seq<Row>) {
    multiset(rows) == multiset(Map(MatchedRowOf(left, right), pairs)) + multiset(Map(LeftPaddedOf(left, right), ls))
                      + multiset(Map(RightPaddedOf(left, right), rs))
  }

  /** A key column without NULL. */
  ghost predicate KeyColumn(t: Table, c: nat) {
    ValidTable(t) && c < |t.definitions| && !t.definitions[c].nullable
  }

  lemma KeyAtExact(t: Table, c: nat, p: RowId, v: Value)
    requires KeyColumn(t, c)
    ensures At(StoredColumn(t, c), p, v) <==> InRange(p, ChunkSizes(t)) && CellAt(t, p, c) == Val(v)
  {}

  lemma SameKeyExact(left: Table, right: Table, cl: nat, cr: nat, j: Joined)
    requires KeyColumn(left, cl) && KeyColumn(right, cr)
    ensures Partners(StoredColumn(left, cl), StoredColumn(right, cr), j) <==> SameKey(left, right, cl, cr, j)
  {
    if Partners(StoredColumn(left, cl), StoredColumn(right, cr), j) {
      var v :| At(StoredColumn(left, cl), j.l, v) && At(StoredColumn(right, cr), j.r, v);
      KeyAtExact(left, cl, j.l, v);
      KeyAtExact(right, cr, j.r, v);
    }
    if SameKey(left, right, cl, cr, j) {
      var v := left.chunks[j.l.chunk][cl][j.l.offset].v;
      KeyAtExact(left, cl, j.l, v);
      KeyAtExact(right, cr, j.r, v);
    }
  }

  lemma LonelyExact(left: Table, right: Table, cl: nat, cr: nat, l: RowId)
    requires KeyColumn(left, cl) && KeyColumn(right, cr) && InRange(l, ChunkSizes(left))
    ensures Unpartnered(StoredColumn(left, cl), StoredColumn(right, cr), l) <==>
            forall r: RowId :: !SameKey(left, right, cl, cr, Joined(l, r))
  {
    var keysL, keysR := StoredColumn(left, cl), StoredColumn(right, cr);
    assert Sizes(keysL) == ChunkSizes(left);
    UnpartneredExact(keysL, keysR, l);
    forall r: RowId
      ensures Partners(keysL, keysR, Joined(l, r)) <==> SameKey(left, right, cl, cr, Joined(l, r))
    {
      SameKeyExact(left, right, cl, cr, Joined(l, r));
    }
  }

  lemma LonelyRightExact(left: Table, right: Table, cl: nat, cr: nat, r: RowId)
    requires KeyColumn(left, cl) && KeyColumn(right, cr) && InRange(r, ChunkSizes(right))
    ensures Unpartnered(StoredColumn(right, cr), StoredColumn(left, cl), r) <==>
            forall l: RowId :: !SameKey(left, right, cl, cr, Joined(l, r))
  {
    LonelyExact(right, left, cr, cl, r);
    forall l: RowId
      ensures SameKey(right, left, cr, cl, Joined(r, l)) <==> SameKey(left, right, cl, cr, Joined(l, r))
    {}
  }

  lemma UnmatchedMembers(t: Table, c: nat, other: Keys)
    requires KeyColumn(t, c)
    ensures var ps := UnmatchedRows(StoredColumn(t, c), other);
            NoDup(ps) && forall p :: p in ps <==> InRange(p, ChunkSizes(t)) && Unpartnered(StoredColumn(t, c), other, p)
  {
    var keys := StoredColumn(t, c);
    assert Sizes(keys) == ChunkSizes(t);
    PositionsOrdered(Sizes(keys));
    FilterNoDup(UnpartneredIn(keys, other), Positions(Sizes(keys)));
  }

  lemma ReferencePairs(left: Table, right: Table, cl: nat, cr: nat)
    requires KeyColumn(left, cl) && KeyColumn(right, cr)
    ensures AllPairs(left, right, cl, cr, NestedLoop(StoredColumn(left, cl), StoredColumn(right, cr)))
  {
    var keysL, keysR := StoredColumn(left, cl), StoredColumn(right, cr);
    NestedLoopExact(keysL, keysR);
    forall j: Joined
      ensures j in NestedLoop(keysL, keysR) <==> SameKey(left, right, cl, cr, j)
    {
      SameKeyExact(left, right, cl, cr, j);
    }
  }

  lemma ReferenceLonelyLeft(left: Table, right: Table, cl: nat, cr: nat)
    requires KeyColumn(left, cl) && KeyColumn(right, cr)
    ensures AllLonelyLeft(left, right, cl, cr, UnmatchedRows(StoredColumn(left, cl), StoredColumn(right, cr)))
  {
    var ls := UnmatchedRows(StoredColumn(left, cl), StoredColumn(right, cr));
    UnmatchedMembers(left, cl, StoredColumn(right, cr));
    forall l: RowId
      ensures l in ls <==>
              InRange(l, ChunkSizes(left)) && forall r: RowId :: !SameKey(left, right, cl, cr, Joined(l, r))
    {
      if InRange(l, ChunkSizes(left)) {
        LonelyExact(left, right, cl, cr, l);
      }
    }
  }

  lemma ReferenceLonelyRight(left: Table, right: Table, cl: nat, cr: nat)
    requires KeyColumn(left, cl) && KeyColumn(right, cr)
    ensures AllLonelyRight(left, right, cl, cr, UnmatchedRows(StoredColumn(right, cr), StoredColumn(left, cl)))
  {
    var rs := UnmatchedRows(StoredColumn(right, cr), StoredColumn(left, cl));
    UnmatchedMembers(right, cr, StoredColumn(left, cl));
    forall r: RowId
      ensures r in rs <==>
              InRange(r, ChunkSizes(right)) && forall l: RowId :: !SameKey(left, right, cl, cr, Joined(l, r))
    {
      if InRange(r, ChunkSizes(right)) {
        LonelyRightExact(left, right, cl, cr, r);
      }
    }
  }

  /** The reference join has the rows of its mode. */
  lemma ReferenceByMode(left: Table, right: Table, cl: nat, cr: nat, mode: JoinMode, rows: seq<Row>)
    requires KeyColumn(left, cl) && KeyColumn(right, cr)
    requires multiset(rows) ==
             multiset(ReferenceJoin(left, right, StoredColumn(left, cl), StoredColumn(right, cr), mode))
    ensures JoinsByMode(left, right, cl, cr, mode, rows)
  {
    var keysL, keysR := StoredColumn(left, cl), StoredColumn(right, cr);
    var pairs := NestedLoop(keysL, keysR);
    var ls := if mode == LeftOuter || mode == FullOuter then UnmatchedRows(keysL, keysR) else [];
    var rs := if mode == RightOuter || mode == FullOuter then UnmatchedRows(keysR, keysL) else [];
    ReferencePairs(left, right, cl, cr);
    ReferenceLonelyLeft(left, right, cl, cr);
    ReferenceLonelyRight(left, right, cl, cr);
    assert JoinsAs(left, right, cl, cr, mode, pairs, ls, rs);
    ReferenceBag(left, right, keysL, keysR, mode, ls, rs, rows);
  }

  lemma ReferenceBag(left: Table, right: Table, keysL: Keys, keysR: Keys, mode: JoinMode, ls: seq<RowId>,
                     rs: seq<RowId>, rows: seq<Row>)
    requires ls == if mode == LeftOuter || mode == FullOuter then UnmatchedRows(keysL, keysR) else []
    requires rs == if mode == RightOuter || mode == FullOuter then UnmatchedRows(keysR, keysL) else []
    requires multiset(rows) == multiset(ReferenceJoin(left, right, keysL, keysR, mode))
    ensures JoinedBag(left, right, NestedLoop(keysL, keysR), ls, rs, rows)
  {
    assert multiset(Map(LeftPaddedOf(left, right), [])) == multiset{};
    assert multiset(Map(RightPaddedOf(left, right), [])) == multiset{};
  }

  /** The columns of a join: those of both sides, and a side is nullable when the mode can pad it. */
  ghost predicate ColumnsByMode(left: Table, right: Table, mode: JoinMode, definitions: seq<ColumnDefinition>) {
    var n := |left.definitions|;
    && |definitions| == n + |right.definitions|
    && SideColumns(left.definitions, mode == RightOuter || mode == FullOuter, definitions[..n])
    && SideColumns(right.definitions, mode == LeftOuter || mode == FullOuter, definitions[n..])
  }

  ghost predicate SideColumns(from: seq<ColumnDefinition>, padded: bool, part: seq<ColumnDefinition>) {
    |part| == |from| &&
    forall c :: 0 <= c < |from| ==>
      part[c].dataType == from[c].dataType && (part[c].nullable <==> from[c].nullable || padded)
  }

  /** An output row is its pair of input rows exactly when neither of them holds a NULL. */
  lemma MatchedRowExact(left: Table, right: Table, j: Joined)
    ensures MatchedRow(left, right, j) == RowAt(left, j.l) + RowAt(right, j.r) <==>
            Null !in RowAt(left, j.l) && Null !in RowAt(right, j.r)
  {
    StoredRowExact(RowAt(left, j.l), left.definitions);
    StoredRowExact(RowAt(right, j.r), right.definitions);
    var x, y := StoredRow(RowAt(left, j.l), left.definitions), StoredRow(RowAt(right, j.r), right.definitions);
    if x + y == RowAt(left, j.l) + RowAt(right, j.r) {
      assert x == (x + y)[..|x|] && y == (x + y)[|x|..];
      assert RowAt(left, j.l) == (x + y)[..|x|] && RowAt(right, j.r) == (x + y)[|x|..];
    }
  }
}
