/** AbstractJoinOperator: from position lists to the chunks of the output table, for all join modes. */
module JoinOperator {
  import opened Sequences
  import opened Storage
  import opened JoinMatching
  import opened JoinReference
  import opened SortedMerge

  datatype Algorithm = HashJoin | SortedMergeJoin

  // ----- what a materialised side is -----

  function Lefts(js: seq<Joined>): (r: seq<RowId>)
    ensures |r| == |js| && forall k :: 0 <= k < |r| ==> r[k] == js[k].l
  {
    Map((j: Joined) => j.l, js)
  }

  function Rights(js: seq<Joined>): (r: seq<RowId>)
    ensures |r| == |js| && forall k :: 0 <= k < |r| ==> r[k] == js[k].r
  {
    Map((j: Joined) => j.r, js)
  }

  predicate LeftInRange(lists: seq<seq<Match>>, sizes: seq<nat>) {
    forall i, k :: 0 <= i < |lists| && 0 <= k < |lists[i]| ==> InRange(lists[i][k].a, sizes)
  }

  predicate OffsetsInRange(offsets: seq<seq<nat>>, sizes: seq<nat>) {
    |offsets| == |sizes| &&
    forall i, k :: 0 <= i < |offsets| && 0 <= k < |offsets[i]| ==> offsets[i][k] < sizes[i]
  }

  predicate RightInRange(lists: seq<seq<Match>>, sizes: seq<nat>) {
    |lists| == |sizes| &&
    forall i, k :: 0 <= i < |lists| && 0 <= k < |lists[i]| ==> lists[i][k].b < sizes[i]
  }

  lemma PairsSnoc(lists: seq<seq<Match>>, i: nat)
    requires i < |lists|
    ensures Pairs(lists[..i + 1]) == Pairs(lists[..i]) + PairUp(lists[i], i)
  {
    TakeTwice(lists, i);
  }

  lemma PairUpSnoc(list: seq<Match>, i: nat, k: nat)
    requires k < |list|
    ensures PairUp(list[..k + 1], i) == PairUp(list[..k], i) + [Joined(list[k].a, RowId(i, list[k].b))]
  {}

  lemma OffsetsSnoc(offsets: seq<seq<nat>>, i: nat)
    requires i < |offsets|
    ensures OffsetPositions(offsets[..i + 1]) == OffsetPositions(offsets[..i]) + Map(InChunk(i), offsets[i])
  {
    TakeTwice(offsets, i);
  }

  lemma BitSnoc(bits: seq<bool>, i: nat, k: nat)
    requires k < |bits|
    ensures Map(InChunk(i), TrueOffsets(bits[..k + 1])) ==
            Map(InChunk(i), TrueOffsets(bits[..k])) + if bits[k] then [RowId(i, k)] else []
  {
    NextBit(bits, k);
    MapAppend<nat, RowId>(InChunk(i), TrueOffsets(bits[..k]), if bits[k] then [k] else []);
  }

  // ----- the four materialisation loops, one output column at a time -----

  method TableAColumn(t: Table, c: nat, lists: seq<seq<Match>>) returns (values: Segment)
    requires ValidTable(t) && c < |t.definitions| && LeftInRange(lists, ChunkSizes(t))
    ensures values == Map(StoredCellOf(t, c), Lefts(Pairs(lists)))
  {
    values := [];
    ghost var js: seq<Joined> := [];
    for i := 0 to |lists|
      invariant js == Pairs(lists[..i]) && values == Map(StoredCellOf(t, c), Lefts(js))
    {
      for k := 0 to |lists[i]|
        invariant js == Pairs(lists[..i]) + PairUp(lists[i][..k], i)
        invariant values == Map(StoredCellOf(t, c), Lefts(js))
      {
        var p := lists[i][k].a;
        PairUpSnoc(lists[i], i, k);
        CellSnoc(t, c, Lefts(js), p);
        js := js + [Joined(p, RowId(i, lists[i][k].b))];
        assert Lefts(js) == Lefts(js[..|js| - 1]) + [p];
        values := values + [Val(Stored(t.chunks[p.chunk][c][p.offset], t.definitions[c].dataType))];
      }
      PairsSnoc(lists, i);
      assert lists[i][..|lists[i]|] == lists[i];
    }
    TakeAll(lists);
  }

  method TableBColumn(t: Table, c: nat, lists: seq<seq<Match>>) returns (values: Segment)
    requires ValidTable(t) && c < |t.definitions| && RightInRange(lists, ChunkSizes(t))
    ensures values == Map(StoredCellOf(t, c), Rights(Pairs(lists)))
  {
    values := [];
    ghost var js: seq<Joined> := [];
    for i := 0 to |lists|
      invariant js == Pairs(lists[..i]) && values == Map(StoredCellOf(t, c), Rights(js))
    {
      for k := 0 to |lists[i]|
        invariant js == Pairs(lists[..i]) + PairUp(lists[i][..k], i)
        invariant values == Map(StoredCellOf(t, c), Rights(js))
      {
        var offset := lists[i][k].b;
        PairUpSnoc(lists[i], i, k);
        CellSnoc(t, c, Rights(js), RowId(i, offset));
        js := js + [Joined(lists[i][k].a, RowId(i, offset))];
        assert Rights(js) == Rights(js[..|js| - 1]) + [RowId(i, offset)];
        values := values + [Val(Stored(t.chunks[i][c][offset], t.definitions[c].dataType))];
      }
      PairsSnoc(lists, i);
      assert lists[i][..|lists[i]|] == lists[i];
    }
    TakeAll(lists);
  }

  function AllTrueOffsets(bitmaps: seq<seq<bool>>): (r: seq<seq<nat>>)
    ensures |r| == |bitmaps|
    ensures forall i :: 0 <= i < |r| ==> r[i] == TrueOffsets(bitmaps[i])
  {
    seq(|bitmaps|, i requires 0 <= i < |bitmaps| => TrueOffsets(bitmaps[i]))
  }

  predicate BitmapsFit(bitmaps: seq<seq<bool>>, sizes: seq<nat>) {
    |bitmaps| == |sizes| && forall i :: 0 <= i < |bitmaps| ==> |bitmaps[i]| == sizes[i]
  }

  /** The rows of chunk i whose bit is set, after what is there already. */
  method BitmapChunk(t: Table, c: nat, i: nat, bits: seq<bool>, before: Segment, ghost psBefore: seq<RowId>)
    returns (values: Segment, ghost ps: seq<RowId>)
    requires ValidTable(t) && c < |t.definitions| && i < |t.chunks| && |bits| == ChunkSize(t.chunks[i])
    requires before == Map(StoredCellOf(t, c), psBefore)
    ensures ps == psBefore + Map(InChunk(i), TrueOffsets(bits)) && values == Map(StoredCellOf(t, c), ps)
  {
    values, ps := before, psBefore;
    assert psBefore + [] == psBefore;
    for k := 0 to |bits|
      invariant ps == psBefore + Map(InChunk(i), TrueOffsets(bits[..k])) && values == Map(StoredCellOf(t, c), ps)
    {
      BitSnoc(bits, i, k);
      if bits[k] {
        CellSnoc(t, c, ps, RowId(i, k));
        AppendAssociates(psBefore, Map(InChunk(i), TrueOffsets(bits[..k])), [RowId(i, k)]);
        ps := ps + [RowId(i, k)];
        values := values + [Val(Stored(t.chunks[i][c][k], t.definitions[c].dataType))];
      }
    }
    TakeAll(bits);
  }

  /** The rows whose bit is set. */
  method BitmapColumn(t: Table, c: nat, bitmaps: seq<seq<bool>>) returns (values: Segment)
    requires ValidTable(t) && c < |t.definitions| && BitmapsFit(bitmaps, ChunkSizes(t))
    ensures values == Map(StoredCellOf(t, c), OffsetPositions(AllTrueOffsets(bitmaps)))
  {
    ghost var offsets := AllTrueOffsets(bitmaps);
    values := [];
    ghost var ps: seq<RowId> := [];
    for i := 0 to |bitmaps|
      invariant ps == OffsetPositions(offsets[..i]) && values == Map(StoredCellOf(t, c), ps)
    {
      values, ps := BitmapChunk(t, c, i, bitmaps[i], values, ps);
      OffsetsSnoc(offsets, i);
    }
    TakeAll(offsets);
  }

  /** The rows of chunk i listed by offset, after what is there already. */
  method OffsetChunk(t: Table, c: nat, i: nat, offsets: seq<nat>, before: Segment, ghost psBefore: seq<RowId>)
    returns (values: Segment, ghost ps: seq<RowId>)
    requires ValidTable(t) && c < |t.definitions| && i < |t.chunks|
    requires forall k :: 0 <= k < |offsets| ==> offsets[k] < ChunkSize(t.chunks[i])
    requires before == Map(StoredCellOf(t, c), psBefore)
    ensures ps == psBefore + Map(InChunk(i), offsets) && values == Map(StoredCellOf(t, c), ps)
  {
    values, ps := before, psBefore;
    assert psBefore + [] == psBefore;
    for k := 0 to |offsets|
      invariant ps == psBefore + Map(InChunk(i), offsets[..k]) && values == Map(StoredCellOf(t, c), ps)
    {
      CellSnoc(t, c, ps, RowId(i, offsets[k]));
      OffsetSnoc(offsets, i, k);
      AppendAssociates(psBefore, Map(InChunk(i), offsets[..k]), [RowId(i, offsets[k])]);
      ps := ps + [RowId(i, offsets[k])];
      values := values + [Val(Stored(t.chunks[i][c][offsets[k]], t.definitions[c].dataType))];
    }
    TakeAll(offsets);
  }

  lemma OffsetSnoc(offsets: seq<nat>, i: nat, k: nat)
    requires k < |offsets|
    ensures Map(InChunk(i), offsets[..k + 1]) == Map(InChunk(i), offsets[..k]) + [RowId(i, offsets[k])]
  {}

  /** The rows listed by offset. */
  method OffsetColumn(t: Table, c: nat, offsets: seq<seq<nat>>) returns (values: Segment)
    requires ValidTable(t) && c < |t.definitions| && OffsetsInRange(offsets, ChunkSizes(t))
    ensures values == Map(StoredCellOf(t, c), OffsetPositions(offsets))
  {
    values := [];
    ghost var ps: seq<RowId> := [];
    for i := 0 to |offsets|
      invariant ps == OffsetPositions(offsets[..i]) && values == Map(StoredCellOf(t, c), ps)
    {
      values, ps := OffsetChunk(t, c, i, offsets[i], values, ps);
      OffsetsSnoc(offsets, i);
    }
    TakeAll(offsets);
  }

  method MaterializeTableASide(t: Table, lists: seq<seq<Match>>) returns (segments: seq<Segment>)
    requires ValidTable(t) && LeftInRange(lists, ChunkSizes(t))
    ensures segments == Columns(t, Lefts(Pairs(lists)))
  {
    segments := [];
    for c := 0 to |t.definitions|
      invariant |segments| == c
      invariant forall d :: 0 <= d < c ==> segments[d] == Map(StoredCellOf(t, d), Lefts(Pairs(lists)))
    {
      var values := TableAColumn(t, c, lists);
      segments := segments + [values];
    }
  }

  method MaterializeTableBSide(t: Table, lists: seq<seq<Match>>) returns (segments: seq<Segment>)
    requires ValidTable(t) && RightInRange(lists, ChunkSizes(t))
    ensures segments == Columns(t, Rights(Pairs(lists)))
  {
    segments := [];
    for c := 0 to |t.definitions|
      invariant |segments| == c
      invariant forall d :: 0 <= d < c ==> segments[d] == Map(StoredCellOf(t, d), Rights(Pairs(lists)))
    {
      var values := TableBColumn(t, c, lists);
      segments := segments + [values];
    }
  }

  method MaterializeByBitmap(t: Table, bitmaps: seq<seq<bool>>) returns (segments: seq<Segment>)
    requires ValidTable(t) && BitmapsFit(bitmaps, ChunkSizes(t))
    ensures segments == Columns(t, OffsetPositions(AllTrueOffsets(bitmaps)))
  {
    segments := [];
    for c := 0 to |t.definitions|
      invariant |segments| == c
      invariant forall d :: 0 <= d < c ==>
                  segments[d] == Map(StoredCellOf(t, d), OffsetPositions(AllTrueOffsets(bitmaps)))
    {
      var values := BitmapColumn(t, c, bitmaps);
      segments := segments + [values];
    }
  }

  method MaterializeByOffsets(t: Table, offsets: seq<seq<nat>>) returns (segments: seq<Segment>)
    requires ValidTable(t) && OffsetsInRange(offsets, ChunkSizes(t))
    ensures segments == Columns(t, OffsetPositions(offsets))
  {
    segments := [];
    for c := 0 to |t.definitions|
      invariant |segments| == c
      invariant forall d :: 0 <= d < c ==> segments[d] == Map(StoredCellOf(t, d), OffsetPositions(offsets))
    {
      var values := OffsetColumn(t, c, offsets);
      segments := segments + [values];
    }
  }

  function NullSegments(columns: nat, rows: nat): (r: seq<Segment>)
    ensures |r| == columns && forall c :: 0 <= c < columns ==> r[c] == Nulls(rows)
  {
    seq(columns, c => Nulls(rows))
  }

  // ----- the rows of the chunks so built -----

  /** Two sides at paired positions, next to each other, are the matched rows. */
  lemma SideBySide(left: Table, right: Table, js: seq<Joined>)
    requires |left.definitions| > 0
    ensures var chunk := Columns(left, Lefts(js)) + Columns(right, Rights(js));
            && ChunkSize(chunk) == |js|
            && (forall c :: 0 <= c < |chunk| ==> |chunk[c]| == |js|)
            && (forall c, k :: 0 <= c < |chunk| && 0 <= k < |js| ==> chunk[c][k] != Null)
            && ChunkRows(chunk) == Map(MatchedRowOf(left, right), js)
  {
    var chunk := Columns(left, Lefts(js)) + Columns(right, Rights(js));
    forall k | 0 <= k < |js|
      ensures ChunkRow(chunk, k) == MatchedRow(left, right, js[k])
    {
      assert |ChunkRow(chunk, k)| == |MatchedRow(left, right, js[k])|;
    }
  }

  lemma SideBySideRows(left: Table, right: Table, js: seq<Joined>)
    requires |left.definitions| > 0
    ensures ChunkRows(Columns(left, Lefts(js)) + Columns(right, Rights(js))) == Map(MatchedRowOf(left, right), js)
  {
    SideBySide(left, right, js);
  }

  lemma LeftPaddedChunk(left: Table, right: Table, ps: seq<RowId>)
    requires |left.definitions| > 0
    ensures var chunk := Columns(left, ps) + NullSegments(|right.definitions|, |ps|);
            && ChunkSize(chunk) == |ps|
            && (forall c :: 0 <= c < |chunk| ==> |chunk[c]| == |ps|)
            && (forall c, k :: 0 <= c < |left.definitions| && 0 <= k < |ps| ==> chunk[c][k] != Null)
            && ChunkRows(chunk) == Map(LeftPaddedOf(left, right), ps)
  {
    var chunk := Columns(left, ps) + NullSegments(|right.definitions|, |ps|);
    forall k | 0 <= k < |ps|
      ensures ChunkRow(chunk, k) == LeftPadded(left, right, ps[k])
    {
      assert |ChunkRow(chunk, k)| == |LeftPadded(left, right, ps[k])|;
    }
  }

  lemma RightPaddedChunk(left: Table, right: Table, ps: seq<RowId>)
    requires |left.definitions| > 0
    ensures var chunk := NullSegments(|left.definitions|, |ps|) + Columns(right, ps);
            && ChunkSize(chunk) == |ps|
            && (forall c :: 0 <= c < |chunk| ==> |chunk[c]| == |ps|)
            && (forall c, k :: |left.definitions| <= c < |chunk| && 0 <= k < |ps| ==> chunk[c][k] != Null)
            && ChunkRows(chunk) == Map(RightPaddedOf(left, right), ps)
  {
    var chunk := NullSegments(|left.definitions|, |ps|) + Columns(right, ps);
    forall k | 0 <= k < |ps|
      ensures ChunkRow(chunk, k) == RightPadded(left, right, ps[k])
    {
      assert |ChunkRow(chunk, k)| == |RightPadded(left, right, ps[k])|;
    }
  }

  // ----- the operator -----

  function AsNullable(definitions: seq<ColumnDefinition>): (r: seq<ColumnDefinition>)
    ensures |r| == |definitions|
    ensures forall c :: 0 <= c < |r| ==> r[c] == definitions[c].(nullable := true)
  {
    seq(|definitions|, c requires 0 <= c < |definitions| => definitions[c].(nullable := true))
  }

  function OutputSchema(left: Table, right: Table, mode: JoinMode): seq<ColumnDefinition> {
    (if mode.KeepsRight() then AsNullable(left.definitions) else left.definitions)
    + (if mode.KeepsLeft() then AsNullable(right.definitions) else right.definitions)
  }

  lemma SchemaByMode(left: Table, right: Table, mode: JoinMode)
    ensures ColumnsByMode(left, right, mode, OutputSchema(left, right, mode))
  {
    var a := if mode.KeepsRight() then AsNullable(left.definitions) else left.definitions;
    var b := if mode.KeepsLeft() then AsNullable(right.definitions) else right.definitions;
    assert (a + b)[..|a|] == a && (a + b)[|a|..] == b;
  }

  lemma MatchesFit(left: Table, right: Table, mode: JoinMode, js: seq<Joined>)
    requires |left.definitions| > 0
    ensures ValidChunk(OutputSchema(left, right, mode), Columns(left, Lefts(js)) + Columns(right, Rights(js)))
  {
    SideBySide(left, right, js);
  }

  lemma LeftPaddedFit(left: Table, right: Table, mode: JoinMode, ps: seq<RowId>)
    requires |left.definitions| > 0 && mode.KeepsLeft()
    ensures var chunk := Columns(left, ps) + NullSegments(|right.definitions|, |ps|);
            ValidChunk(OutputSchema(left, right, mode), chunk) && ChunkRows(chunk) == Map(LeftPaddedOf(left, right), ps)
  {
    LeftPaddedChunk(left, right, ps);
  }

  lemma RightPaddedFit(left: Table, right: Table, mode: JoinMode, ps: seq<RowId>)
    requires |left.definitions| > 0 && mode.KeepsRight()
    ensures var chunk := NullSegments(|left.definitions|, |ps|) + Columns(right, ps);
            ValidChunk(OutputSchema(left, right, mode), chunk) &&
              ChunkRows(chunk) == Map(RightPaddedOf(left, right), ps)
  {
    RightPaddedChunk(left, right, ps);
  }

  method AppendChunk(t: Table, chunk: Chunk) returns (r: Table)
    requires ValidTable(t) && ValidChunk(t.definitions, chunk)
    ensures ValidTable(r) && r.definitions == t.definitions
    ensures Rows(r) == Rows(t) + ChunkRows(chunk)
  {
    RowsSnoc(t, chunk);
    r := t.(chunks := t.chunks + [chunk]);
  }

  /** What filled lists say about positions: they are in range, and the bookkeeping fits the tables. */
  lemma FilledInRange(tableA: Table, tableB: Table, keysA: Keys, keysB: Keys, f: Filled)
    requires Sizes(keysA) == ChunkSizes(tableA) && Sizes(keysB) == ChunkSizes(tableB)
    requires IsFilled(f, keysA, keysB)
    ensures LeftInRange(f.positionLists, ChunkSizes(tableA))
    ensures RightInRange(f.positionLists, ChunkSizes(tableB))
    ensures BitmapsFit(f.danglingA, ChunkSizes(tableA))
    ensures OffsetsInRange(f.danglingBOffsets, ChunkSizes(tableB))
    ensures AllTrueOffsets(f.danglingA) == DanglingOffsets(keysA, keysB)
  {
    forall i, k | 0 <= i < |f.positionLists| && 0 <= k < |f.positionLists[i]|
      ensures IsMatch(keysA, keysB[i], f.positionLists[i][k])
    {
      assert MatchList(keysA, keysB[i], f.positionLists[i]);
      assert f.positionLists[i][k] in f.positionLists[i];
    }
    forall i, k | 0 <= i < |keysB| && 0 <= k < |f.danglingBOffsets[i]|
      ensures f.danglingBOffsets[i][k] < Sizes(keysB)[i]
    {
      assert f.danglingBOffsets[i][k] in TrueOffsets(Unseen(keysB[i], AllValues(keysA)));
    }
  }

  class JoinOperator {
    const left: Table
    const right: Table
    const leftColumn: nat
    const rightColumn: nat
    const mode: JoinMode
    const algorithm: Algorithm

    var positionLists: seq<seq<Match>>
    var danglingA: seq<seq<bool>>
    var danglingACount: int
    var danglingBOffsets: seq<seq<nat>>
    var danglingBCount: int
    var tableAMatchesLeft: bool

    constructor (left: Table, right: Table, leftColumn: nat, rightColumn: nat, mode: JoinMode, algorithm: Algorithm)
      ensures this.left == left && this.right == right && this.mode == mode && this.algorithm == algorithm
      ensures this.leftColumn == leftColumn && this.rightColumn == rightColumn
    {
      this.left, this.right, this.mode, this.algorithm := left, right, mode, algorithm;
      this.leftColumn, this.rightColumn := leftColumn, rightColumn;
      positionLists, danglingA, danglingACount := [], [], 0;
      danglingBOffsets, danglingBCount, tableAMatchesLeft := [], 0, true;
    }

    predicate WellFormed() {
      && ValidTable(left) && ValidTable(right)
      && leftColumn < |left.definitions| && rightColumn < |right.definitions|
    }

    function KeysL(): Keys
      requires WellFormed()
    {
      StoredColumn(left, leftColumn)
    }

    function KeysR(): Keys
      requires WellFormed()
    {
      StoredColumn(right, rightColumn)
    }

    /** The merge join relies on every input chunk being sorted by its join column. */
    ghost predicate InputsFit()
      requires WellFormed()
    {
      algorithm.SortedMergeJoin? ==> SortedChunks(KeysL()) && SortedChunks(KeysR())
    }

    predicate ReadsPastEnd()
      requires WellFormed()
    {
      algorithm.SortedMergeJoin? && ReadsEmptyChunk(KeysL(), KeysR())
    }

    ghost function State(): Filled
      reads this
    {
      Filled(positionLists, danglingA, danglingACount, danglingBOffsets, danglingBCount)
    }

    ghost predicate Probed()
      requires WellFormed()
      reads this
    {
      if tableAMatchesLeft then IsFilled(State(), KeysL(), KeysR())
      else mode.Inner? && IsFilled(State(), KeysR(), KeysL())
    }

    /** Fills the position lists; only an inner hash join whose left input is larger switches the sides. */
    method FillPositionLists() returns (ok: bool)
      requires WellFormed() && InputsFit()
      modifies this
      ensures ok <==> !ReadsPastEnd()
      ensures ok ==> Probed()
      ensures ok ==> (!tableAMatchesLeft <==> algorithm.HashJoin? && mode.Inner? && RowCount(left) > RowCount(right))
    {
      var f, matchesLeft;
      ok, matchesLeft, f := Probe();
      Keep(f, matchesLeft);
    }

    method Keep(f: Filled, matchesLeft: bool)
      modifies this
      ensures State() == f && tableAMatchesLeft == matchesLeft
    {
      tableAMatchesLeft := matchesLeft;
      positionLists, danglingA, danglingACount := f.positionLists, f.danglingA, f.danglingACount;
      danglingBOffsets, danglingBCount := f.danglingBOffsets, f.danglingBCount;
    }

    /** The choice of table A, and what the algorithm finds. */
    method Probe() returns (ok: bool, matchesLeft: bool, f: Filled)
      requires WellFormed() && InputsFit()
      ensures ok <==> !ReadsPastEnd()
      ensures ok ==> IsFilled(f, if matchesLeft then KeysL() else KeysR(), if matchesLeft then KeysR() else KeysL())
      ensures !matchesLeft <==> algorithm.HashJoin? && mode.Inner? && RowCount(left) > RowCount(right)
    {
      ok, matchesLeft := true, true;
      if algorithm.HashJoin? {
        if RowCount(left) > RowCount(right) && mode.Inner? {
          matchesLeft := false;
          f := HashFill(KeysR(), KeysL());
        } else {
          f := HashFill(KeysL(), KeysR());
        }
      } else {
        ok, f := MergeFill(KeysL(), KeysR());
      }
    }

    lemma SizesAgree()
      requires WellFormed()
      ensures Sizes(KeysL()) == ChunkSizes(left) && Sizes(KeysR()) == ChunkSizes(right)
    {}

    /** The chunk of matches: left columns first, whichever input is table A. */
    method MaterializeMatches() returns (chunk: Chunk)
      requires WellFormed() && Probed()
      ensures ValidChunk(OutputSchema(left, right, mode), chunk)
      ensures multiset(ChunkRows(chunk)) == multiset(ReferenceMatches(left, right, KeysL(), KeysR()))
    {
      SizesAgree();
      var leftSide, rightSide;
      ghost var js;
      if tableAMatchesLeft {
        FilledInRange(left, right, KeysL(), KeysR(), State());
        FilledPairs(KeysL(), KeysR(), positionLists);
        leftSide := MaterializeTableASide(left, positionLists);
        rightSide := MaterializeTableBSide(right, positionLists);
        js := Pairs(positionLists);
      } else {
        FilledInRange(right, left, KeysR(), KeysL(), State());
        FilledPairs(KeysR(), KeysL(), positionLists);
        leftSide := MaterializeTableBSide(left, positionLists);
        rightSide := MaterializeTableASide(right, positionLists);
        js := Flips(Pairs(positionLists));
        assert Lefts(js) == Rights(Pairs(positionLists)) && Rights(js) == Lefts(Pairs(positionLists));
      }
      chunk := leftSide + rightSide;
      MatchesFit(left, right, mode, js);
      assert chunk == Columns(left, Lefts(js)) + Columns(right, Rights(js));
      SideBySideRows(left, right, js);
      MapPermuted(MatchedRowOf(left, right), js, NestedLoop(KeysL(), KeysR()));
    }

    /** Unmatched rows of the left input, padded; only reached when the left input is table A. */
    method MaterializeDanglingTuplesOfLeftTable() returns (chunk: Chunk)
      requires WellFormed() && Probed() && tableAMatchesLeft && mode.KeepsLeft()
      ensures ValidChunk(OutputSchema(left, right, mode), chunk)
      ensures ChunkRows(chunk) == ReferenceLeft(left, right, KeysL(), KeysR())
    {
      SizesAgree();
      FilledInRange(left, right, KeysL(), KeysR(), State());
      DanglingRowsAreUnmatched(KeysL(), KeysR());
      var segments := MaterializeByBitmap(left, danglingA);
      chunk := segments + NullSegments(|right.definitions|, danglingACount);
      LeftPaddedFit(left, right, mode, UnmatchedRows(KeysL(), KeysR()));
    }

    method MaterializeDanglingTuplesOfRightTable() returns (chunk: Chunk)
      requires WellFormed() && Probed() && tableAMatchesLeft && mode.KeepsRight()
      ensures ValidChunk(OutputSchema(left, right, mode), chunk)
      ensures ChunkRows(chunk) == ReferenceRight(left, right, KeysL(), KeysR())
    {
      SizesAgree();
      FilledInRange(left, right, KeysL(), KeysR(), State());
      DanglingRowsAreUnmatched(KeysR(), KeysL());
      var segments := MaterializeByOffsets(right, danglingBOffsets);
      chunk := NullSegments(|left.definitions|, danglingBCount) + segments;
      RightPaddedFit(left, right, mode, UnmatchedRows(KeysR(), KeysL()));
    }

    lemma EmptyChunkFound()
      requires WellFormed()
      ensures [] in KeysL() <==> exists i :: 0 <= i < |left.chunks| && ChunkSize(left.chunks[i]) == 0
    {
      if [] in KeysL() {
        var i :| 0 <= i < |KeysL()| && KeysL()[i] == [];
        assert ChunkSize(left.chunks[i]) == 0;
      }
      if i :| 0 <= i < |left.chunks| && ChunkSize(left.chunks[i]) == 0 {
        assert KeysL()[i] == [];
      }
    }

    lemma RowFound()
      requires WellFormed()
      ensures HasRow(KeysR()) <==> RowCount(right) > 0
    {
      SomeChunk(ChunkSizes(right));
      if HasRow(KeysR()) {
        var j :| 0 <= j < |KeysR()| && KeysR()[j] != [];
        assert ChunkSizes(right)[j] > 0;
      }
      if j :| 0 <= j < |ChunkSizes(right)| && ChunkSizes(right)[j] > 0 {
        assert KeysR()[j] != [];
      }
    }

    /** Only an empty left chunk in front of right rows reads past the end. */
    lemma EmptyChunkExact()
      requires WellFormed()
      ensures ReadsPastEnd() <==>
              && algorithm == SortedMergeJoin && RowCount(right) > 0
              && exists i :: 0 <= i < |left.chunks| && ChunkSize(left.chunks[i]) == 0
    {
      EmptyChunkFound();
      RowFound();
    }

    predicate JoinColumnsFit()
      requires WellFormed()
    {
      && !left.definitions[leftColumn].nullable && !right.definitions[rightColumn].nullable
      && left.definitions[leftColumn].dataType == right.definitions[rightColumn].dataType
    }

    method MaterializeOutput() returns (out: Table)
      requires WellFormed() && Probed()
      ensures out.definitions == OutputSchema(left, right, mode) && ValidTable(out)
      ensures multiset(Rows(out)) == multiset(ReferenceJoin(left, right, KeysL(), KeysR(), mode))
    {
      out := Table(OutputSchema(left, right, mode), []);
      var matches := MaterializeMatches();
      out := AppendChunk(out, matches);
      ghost var rows := ReferenceMatches(left, right, KeysL(), KeysR());
      assert Rows(Table(OutputSchema(left, right, mode), [])) == [];
      assert multiset(Rows(out)) == multiset(rows);
      if mode.KeepsLeft() {
        var dangling := MaterializeDanglingTuplesOfLeftTable();
        out := AppendChunk(out, dangling);
        rows := rows + ReferenceLeft(left, right, KeysL(), KeysR());
        assert multiset(Rows(out)) == multiset(rows);
      }
      if mode.KeepsRight() {
        var dangling := MaterializeDanglingTuplesOfRightTable();
        out := AppendChunk(out, dangling);
        rows := rows + ReferenceRight(left, right, KeysL(), KeysR());
        assert multiset(Rows(out)) == multiset(rows);
      }
      assert rows == ReferenceJoin(left, right, KeysL(), KeysR(), mode);
    }

    /** The operator: a table whose rows are, up to order, those of the nested-loop join. */
    method Execute() returns (r: Result<Table>)
      requires WellFormed() && InputsFit()
      modifies this
      ensures r == Failed(AssertionFailed) <==> !JoinColumnsFit()
      ensures r == Failed(OutOfRange) <==> JoinColumnsFit() && ReadsPastEnd()
      ensures r.Failed? ==> r.reason in {AssertionFailed, OutOfRange}
      ensures r.Ok? ==> r.value.definitions == OutputSchema(left, right, mode) && ValidTable(r.value)
      ensures r.Ok? ==> multiset(Rows(r.value)) == multiset(ReferenceJoin(left, right, KeysL(), KeysR(), mode))
      ensures r.Ok? ==> JoinsByMode(left, right, leftColumn, rightColumn, mode, Rows(r.value))
      ensures r.Ok? ==> ColumnsByMode(left, right, mode, r.value.definitions)
      ensures r == Failed(AssertionFailed) <==>
              || left.definitions[leftColumn].nullable || right.definitions[rightColumn].nullable
              || left.definitions[leftColumn].dataType != right.definitions[rightColumn].dataType
      ensures r == Failed(OutOfRange) ==>
                && algorithm == SortedMergeJoin && RowCount(right) > 0
                && exists i :: 0 <= i < |left.chunks| && ChunkSize(left.chunks[i]) == 0
      ensures r.Ok? && algorithm == SortedMergeJoin && RowCount(right) > 0 ==>
                forall i :: 0 <= i < |left.chunks| ==> ChunkSize(left.chunks[i]) > 0
    {
      EmptyChunkExact();
      if !JoinColumnsFit() {
        return Failed(AssertionFailed);
      }
      var ok := FillPositionLists();
      if !ok {
        return Failed(OutOfRange);
      }
      var out := MaterializeOutput();
      ReferenceByMode(left, right, leftColumn, rightColumn, mode, Rows(out));
      SchemaByMode(left, right, mode);
      r := Ok(out);
    }
  }
}
