/** The passes over the input: one per chunk and aggregate, and what the contexts hold afterwards. */
module AggregatePasses {
  import opened Sequences
  import opened Storage
  import opened Aggregates
  import opened GroupKeys
  import opened AggregateHash
  import opened OrderedStringAgg
  import opened SortOperator

  /** The keys of a chunk and the rows they stand for. */
  ghost predicate ChunkKeys(keys: seq<Key>, chunk: nat, keyOf: RowId -> Key, idOf: map<Key, nat>, cached: bool) {
    forall j: nat :: j < |keys| ==>
      !Cached(keyOf(RowId(chunk, j))) && KeyState(keys[j], keyOf(RowId(chunk, j)), idOf) &&
        (Cached(keys[j]) <==> cached)
  }

  ghost predicate ChunkCells(cells: seq<Cell>, chunk: nat, cellOf: RowId -> Cell) {
    forall j: nat :: j < |cells| ==> cellOf(RowId(chunk, j)) == cells[j]
  }

  lemma KeyStateStays(key: Key, original: Key, idOf: map<Key, nat>, more: map<Key, nat>)
    requires KeyState(key, original, idOf) && Grows(idOf, more)
    ensures KeyState(key, original, more)
  {}

  lemma GrowsTransitive(a: map<Key, nat>, b: map<Key, nat>, c: map<Key, nat>)
    requires Grows(a, b) && Grows(b, c)
    ensures Grows(a, c)
  {}

  /** The first rows of a chunk are taken in. */
  ghost predicate SegmentDone(cache: bool, context: Context, keys: seq<Key>, chunk: nat, cached: bool,
                              keyOf: RowId -> Key, cellOf: RowId -> Cell, idOf: map<Key, nat>, ps: seq<RowId>) {
    && Represents(context.f, context.results, idOf, keyOf, cellOf, ps) && Injective(idOf)
    && ChunkKeys(keys, chunk, keyOf, idOf, cache)
    && (!cached ==> LooksUp(context, idOf, keyOf, ps))
  }

  /** Row j of the chunk. */
  method SegmentRow(cache: bool, context: Context, done: seq<Key>, key: Key, cell: Cell, chunk: nat, j: nat,
                    ghost cached: bool, ghost keyOf: RowId -> Key, ghost cellOf: RowId -> Cell,
                    ghost start: map<Key, nat>, ghost idOf: map<Key, nat>, ghost ps: seq<RowId>)
    returns (ok: bool, after: Context, keyAfter: Key, ghost ids: map<Key, nat>)
    requires j == |done| && (cached ==> cache) && Grows(start, idOf)
    requires SegmentDone(cache, context, done, chunk, cached, keyOf, cellOf, idOf, ps + ChunkPositions(chunk, j))
    requires !Cached(keyOf(RowId(chunk, j))) && cellOf(RowId(chunk, j)) == cell
    requires KeyState(key, keyOf(RowId(chunk, j)), start) && (Cached(key) <==> cached)
    ensures ok <==> !Refuses(context.f, cell)
    ensures after.f == context.f
    ensures ok ==> Grows(start, ids) && (cached ==> ids == idOf)
    ensures ok ==> SegmentDone(cache, after, done + [keyAfter], chunk, cached, keyOf, cellOf, ids,
                               ps + ChunkPositions(chunk, j + 1))
  {
    ghost var p := RowId(chunk, j);
    KeyStateStays(key, keyOf(p), start, idOf);
    ok, after, keyAfter, ids :=
      ProcessRow(cache, context, key, RowId(chunk, j), cell, keyOf, cellOf, idOf, ps + ChunkPositions(chunk, j));
    if !ok {
      return;
    }
    KeysNext(done, keyAfter, chunk, keyOf, idOf, ids, cache);
    GrowsTransitive(start, idOf, ids);
    PositionsSnoc(ps, chunk, j);
  }

  /** No value of the segment is refused. */
  predicate Accepted(f: AggregateFunction, cells: seq<Cell>) {
    forall k :: 0 <= k < |cells| ==> !Refuses(f, cells[k])
  }

  /** AggregateSegment: all rows of one chunk for one aggregate, up to the first value that is refused. The keys are
      all cached, or all looked up. */
  method AggregateSegment(cache: bool, context: Context, keys: seq<Key>, cells: seq<Cell>, chunk: nat,
                          ghost cached: bool, ghost keyOf: RowId -> Key, ghost cellOf: RowId -> Cell,
                          ghost idOf: map<Key, nat>, ghost ps: seq<RowId>)
    returns (ok: bool, after: Context, keysAfter: seq<Key>, ghost ids: map<Key, nat>)
    requires |keys| == |cells| && (cached ==> cache)
    requires Represents(context.f, context.results, idOf, keyOf, cellOf, ps) && Injective(idOf)
    requires ChunkKeys(keys, chunk, keyOf, idOf, cached) && ChunkCells(cells, chunk, cellOf)
    requires !cached ==> LooksUp(context, idOf, keyOf, ps)
    ensures ok <==> Accepted(context.f, cells)
    ensures after.f == context.f
    ensures ok ==> |keysAfter| == |keys| && Grows(idOf, ids) && (cached ==> ids == idOf)
    ensures ok ==> SegmentDone(cache, after, keysAfter, chunk, cached, keyOf, cellOf, ids,
                               ps + ChunkPositions(chunk, |keys|))
  {
    ok, after, keysAfter, ids := true, context, [], idOf;
    assert ps + ChunkPositions(chunk, 0) == ps;
    for j := 0 to |keys|
      invariant |keysAfter| == j && after.f == context.f && Grows(idOf, ids) && (cached ==> ids == idOf)
      invariant ok && Accepted(context.f, cells[..j])
      invariant SegmentDone(cache, after, keysAfter, chunk, cached, keyOf, cellOf, ids, ps + ChunkPositions(chunk, j))
    {
      var key;
      ghost var more;
      AcceptedNext(context.f, cells, j);
      ok, after, key, more := SegmentRow(cache, after, keysAfter, keys[j], cells[j], chunk, j, cached, keyOf, cellOf,
                                         idOf, ids, ps);
      if !ok {
        return;
      }
      keysAfter, ids := keysAfter + [key], more;
    }
    TakeAll(cells);
  }

  lemma AcceptedNext(f: AggregateFunction, cells: seq<Cell>, j: nat)
    requires j < |cells|
    ensures Accepted(f, cells[..j + 1]) <==> Accepted(f, cells[..j]) && !Refuses(f, cells[j])
    ensures Refuses(f, cells[j]) ==> !Accepted(f, cells)
  {
    TakeNext(cells, j);
  }

  lemma KeysNext(keys: seq<Key>, key: Key, chunk: nat, keyOf: RowId -> Key, idOf: map<Key, nat>,
                 more: map<Key, nat>, cached: bool)
    requires ChunkKeys(keys, chunk, keyOf, idOf, cached) && Grows(idOf, more)
    requires !Cached(keyOf(RowId(chunk, |keys|))) && KeyState(key, keyOf(RowId(chunk, |keys|)), more)
    requires Cached(key) <==> cached
    ensures ChunkKeys(keys + [key], chunk, keyOf, more, cached)
  {
    forall j: nat | j < |keys|
      ensures KeyState(keys[j], keyOf(RowId(chunk, j)), more)
    {
      KeyStateStays(keys[j], keyOf(RowId(chunk, j)), idOf, more);
    }
  }

  /** All contexts represent the rows ps under the same group indexes. */
  ghost predicate AllRepresent(contexts: seq<Context>, idOf: map<Key, nat>, keyOf: RowId -> Key,
                               cellsOf: seq<RowId -> Cell>, ps: seq<RowId>) {
    |contexts| == |cellsOf| &&
    forall c :: 0 <= c < |contexts| ==> Represents(contexts[c].f, contexts[c].results, idOf, keyOf, cellsOf[c], ps)
  }

  /** The aggregates before c have taken the chunk in, the others have not. */
  ghost predicate PartlyAdvanced(contexts: seq<Context>, idOf: map<Key, nat>, keyOf: RowId -> Key,
                                 cellsOf: seq<RowId -> Cell>, c: nat, before: seq<RowId>, ps: seq<RowId>) {
    |contexts| == |cellsOf| &&
    forall d :: 0 <= d < |contexts| ==>
      Represents(contexts[d].f, contexts[d].results, idOf, keyOf, cellsOf[d], if d < c then ps else before)
  }

  lemma Advance(contexts: seq<Context>, idOf: map<Key, nat>, more: map<Key, nat>, keyOf: RowId -> Key,
                cellsOf: seq<RowId -> Cell>, c: nat, before: seq<RowId>, ps: seq<RowId>, next: Context)
    requires PartlyAdvanced(contexts, idOf, keyOf, cellsOf, c, before, ps) && c < |contexts|
    requires Grows(idOf, more) && Represents(next.f, next.results, more, keyOf, cellsOf[c], ps)
    ensures PartlyAdvanced(contexts[c := next], more, keyOf, cellsOf, c + 1, before, ps)
  {
    forall d | 0 <= d < |contexts|
      ensures Represents(contexts[c := next][d].f, contexts[c := next][d].results, more, keyOf, cellsOf[d],
                         if d < c + 1 then ps else before)
    {
      if d != c {
        RepresentsMoreIds(contexts[d].f, contexts[d].results, idOf, more, keyOf, cellsOf[d],
                          if d < c then ps else before);
      }
    }
  }

  lemma Unadvanced(contexts: seq<Context>, idOf: map<Key, nat>, keyOf: RowId -> Key,
                   cellsOf: seq<RowId -> Cell>, before: seq<RowId>, ps: seq<RowId>)
    requires AllRepresent(contexts, idOf, keyOf, cellsOf, before)
    ensures PartlyAdvanced(contexts, idOf, keyOf, cellsOf, 0, before, ps)
  {
    forall d | 0 <= d < |contexts|
      ensures Represents(contexts[d].f, contexts[d].results, idOf, keyOf, cellsOf[d], before)
    {}
  }

  lemma FullyAdvanced(contexts: seq<Context>, idOf: map<Key, nat>, keyOf: RowId -> Key,
                      cellsOf: seq<RowId -> Cell>, before: seq<RowId>, ps: seq<RowId>)
    requires PartlyAdvanced(contexts, idOf, keyOf, cellsOf, |contexts|, before, ps)
    ensures AllRepresent(contexts, idOf, keyOf, cellsOf, ps)
  {
    forall d | 0 <= d < |contexts|
      ensures Represents(contexts[d].f, contexts[d].results, idOf, keyOf, cellsOf[d], ps)
    {
      assert Represents(contexts[d].f, contexts[d].results, idOf, keyOf, cellsOf[d],
                        if d < |contexts| then ps else before);
    }
  }

  ghost predicate SameFunctions(contexts: seq<Context>, others: seq<Context>) {
    |contexts| == |others| && forall c :: 0 <= c < |contexts| ==> contexts[c].f == others[c].f
  }

  predicate ChunkAccepted(contexts: seq<Context>, columns: seq<seq<Cell>>)
    requires |columns| == |contexts|
  {
    forall c :: 0 <= c < |contexts| ==> Accepted(contexts[c].f, columns[c])
  }

  /** No value of any chunk is refused by its aggregate. */
  ghost predicate AllAccepted(contexts: seq<Context>, columns: seq<Cells>)
    requires |columns| == |contexts|
  {
    forall c, i :: 0 <= c < |contexts| && 0 <= i < |columns[c]| ==> Accepted(contexts[c].f, columns[c][i])
  }

  /** One chunk: the first aggregate finds the groups, the later ones follow the indexes in the keys. */
  method AggregateChunk(cache: bool, contexts: seq<Context>, keys: seq<Key>, columns: seq<seq<Cell>>, chunk: nat,
                        ghost immediate: bool, ghost keyOf: RowId -> Key, ghost cellsOf: seq<RowId -> Cell>,
                        ghost idOf: map<Key, nat>, ghost ps: seq<RowId>)
    returns (ok: bool, after: seq<Context>, ghost ids: map<Key, nat>)
    requires contexts != [] && |columns| == |contexts| && cache == (|contexts| > 1 || immediate)
    requires AllRepresent(contexts, idOf, keyOf, cellsOf, ps) && Injective(idOf)
    requires forall c :: 0 <= c < |columns| ==> |columns[c]| == |keys| && ChunkCells(columns[c], chunk, cellsOf[c])
    requires ChunkKeys(keys, chunk, keyOf, idOf, immediate)
    requires !immediate ==> LooksUp(contexts[0], idOf, keyOf, ps)
    ensures ok <==> ChunkAccepted(contexts, columns)
    ensures SameFunctions(after, contexts)
    ensures ok ==> AllRepresent(after, ids, keyOf, cellsOf, ps + ChunkPositions(chunk, |keys|))
    ensures ok ==> Injective(ids) && Grows(idOf, ids) && (immediate ==> ids == idOf)
    ensures ok && !immediate ==> LooksUp(after[0], ids, keyOf, ps + ChunkPositions(chunk, |keys|))
  {
    ok, after, ids := true, contexts, idOf;
    var current := keys;
    ghost var next := ps + ChunkPositions(chunk, |keys|);
    ChunkStarts(contexts, keys, chunk, immediate, cache, keyOf, cellsOf, idOf, ps, next);
    for c := 0 to |contexts|
      invariant ok && AcceptedBefore(contexts, columns, c)
      invariant |current| == |keys|
      invariant ChunkState(contexts, after, current, chunk, c, immediate, cache, keyOf, cellsOf, idOf, ids, ps, next)
    {
      AcceptedBeforeNext(contexts, columns, c);
      ok, after, current, ids := AggregateContext(cache, contexts, after, current, columns[c], chunk, c, immediate,
                                                  keyOf, cellsOf, idOf, ids, ps);
      if !ok {
        return;
      }
    }
    ChunkEnds(contexts, after, current, chunk, immediate, cache, keyOf, cellsOf, idOf, ids, ps, next);
  }

  predicate AcceptedBefore(contexts: seq<Context>, columns: seq<seq<Cell>>, n: nat)
    requires |columns| == |contexts| && n <= |contexts|
  {
    forall c :: 0 <= c < n ==> Accepted(contexts[c].f, columns[c])
  }

  lemma AcceptedBeforeNext(contexts: seq<Context>, columns: seq<seq<Cell>>, c: nat)
    requires |columns| == |contexts| && c < |contexts|
    ensures AcceptedBefore(contexts, columns, c + 1) <==>
            AcceptedBefore(contexts, columns, c) && Accepted(contexts[c].f, columns[c])
    ensures !Accepted(contexts[c].f, columns[c]) ==> !ChunkAccepted(contexts, columns)
    ensures c + 1 == |contexts| ==> (AcceptedBefore(contexts, columns, c + 1) <==> ChunkAccepted(contexts, columns))
  {}

  lemma ChunkStarts(contexts: seq<Context>, keys: seq<Key>, chunk: nat, immediate: bool, cache: bool,
                    keyOf: RowId -> Key, cellsOf: seq<RowId -> Cell>, idOf: map<Key, nat>, ps: seq<RowId>,
                    next: seq<RowId>)
    requires contexts != [] && AllRepresent(contexts, idOf, keyOf, cellsOf, ps) && Injective(idOf)
    requires ChunkKeys(keys, chunk, keyOf, idOf, immediate)
    requires !immediate ==> LooksUp(contexts[0], idOf, keyOf, ps)
    ensures ChunkState(contexts, contexts, keys, chunk, 0, immediate, cache, keyOf, cellsOf, idOf, idOf, ps, next)
  {
    Unadvanced(contexts, idOf, keyOf, cellsOf, ps, next);
  }

  lemma ChunkEnds(contexts: seq<Context>, after: seq<Context>, current: seq<Key>, chunk: nat, immediate: bool,
                  cache: bool, keyOf: RowId -> Key, cellsOf: seq<RowId -> Cell>, idOf: map<Key, nat>,
                  ids: map<Key, nat>, ps: seq<RowId>, next: seq<RowId>)
    requires contexts != []
    requires ChunkState(contexts, after, current, chunk, |contexts|, immediate, cache, keyOf, cellsOf, idOf, ids, ps,
                        next)
    ensures AllRepresent(after, ids, keyOf, cellsOf, next)
    ensures Injective(ids) && Grows(idOf, ids) && (immediate ==> ids == idOf)
    ensures !immediate ==> LooksUp(after[0], ids, keyOf, next)
  {
    FullyAdvanced(after, ids, keyOf, cellsOf, ps, next);
  }

  /** Between two aggregates of a chunk: those before c have taken it in. */
  ghost predicate ChunkState(contexts: seq<Context>, after: seq<Context>, current: seq<Key>, chunk: nat, c: nat,
                             immediate: bool, cache: bool, keyOf: RowId -> Key, cellsOf: seq<RowId -> Cell>,
                             idOf: map<Key, nat>, ids: map<Key, nat>, ps: seq<RowId>, next: seq<RowId>) {
    && SameFunctions(after, contexts)
    && PartlyAdvanced(after, ids, keyOf, cellsOf, c, ps, next)
    && Injective(ids) && Grows(idOf, ids) && (immediate ==> ids == idOf)
    && ChunkKeys(current, chunk, keyOf, ids, if c == 0 then immediate else cache)
    && (!immediate ==> after != [] && LooksUp(after[0], ids, keyOf, if c == 0 then ps else next))
  }

  /** Aggregate c of a chunk. */
  method AggregateContext(cache: bool, ghost contexts: seq<Context>, before: seq<Context>, keys: seq<Key>,
                          cells: seq<Cell>, chunk: nat, c: nat, ghost immediate: bool, ghost keyOf: RowId -> Key,
                          ghost cellsOf: seq<RowId -> Cell>, ghost idOf: map<Key, nat>, ghost idsIn: map<Key, nat>,
                          ghost ps: seq<RowId>)
    returns (ok: bool, after: seq<Context>, current: seq<Key>, ghost ids: map<Key, nat>)
    requires c < |contexts| && cache == (|contexts| > 1 || immediate)
    requires ChunkState(contexts, before, keys, chunk, c, immediate, cache, keyOf, cellsOf, idOf, idsIn, ps,
                        ps + ChunkPositions(chunk, |keys|))
    requires |cells| == |keys| && ChunkCells(cells, chunk, cellsOf[c])
    ensures ok <==> Accepted(contexts[c].f, cells)
    ensures SameFunctions(after, contexts)
    ensures ok ==> |current| == |keys|
    ensures ok ==> ChunkState(contexts, after, current, chunk, c + 1, immediate, cache, keyOf, cellsOf, idOf, ids, ps,
                              ps + ChunkPositions(chunk, |keys|))
  {
    ghost var next := ps + ChunkPositions(chunk, |keys|);
    ghost var cached := if c == 0 then immediate else cache;
    NotAdvanced(before, idsIn, keyOf, cellsOf, c, ps, next);
    var context;
    ok, context, current, ids :=
      AggregateSegment(cache, before[c], keys, cells, chunk, cached, keyOf, cellsOf[c], idsIn, ps);
    after := before;
    if ok {
      Advance(before, idsIn, ids, keyOf, cellsOf, c, ps, next, context);
      GrowsTransitive(idOf, idsIn, ids);
      after := before[c := context];
    }
  }

  lemma NotAdvanced(contexts: seq<Context>, idOf: map<Key, nat>, keyOf: RowId -> Key, cellsOf: seq<RowId -> Cell>,
                    c: nat, before: seq<RowId>, ps: seq<RowId>)
    requires PartlyAdvanced(contexts, idOf, keyOf, cellsOf, c, before, ps) && c < |contexts|
    ensures Represents(contexts[c].f, contexts[c].results, idOf, keyOf, cellsOf[c], before)
  {
    assert Represents(contexts[c].f, contexts[c].results, idOf, keyOf, cellsOf[c], if c < c then ps else before);
  }

  /** Where the group indexes come from at the start. */
  ghost predicate Ready(contexts: seq<Context>, immediate: bool, idOf: map<Key, nat>) {
    && Injective(idOf)
    && (!immediate ==> idOf == map[])
    && forall c :: 0 <= c < |contexts| ==>
         contexts[c].ids == map[] && contexts[c].results == Blanks(contexts[c].f, |contexts[c].results|)
  }

  /** The keys of every chunk stand for its rows' groups. */
  ghost predicate KeysFit(keys: seq<seq<Key>>, keyOf: RowId -> Key, idOf: map<Key, nat>, cached: bool) {
    forall i :: 0 <= i < |keys| ==> ChunkKeys(keys[i], i, keyOf, idOf, cached)
  }

  /** The arguments of every aggregate, chunk by chunk as the keys are. */
  ghost predicate ColumnsFit(columns: seq<Cells>, keys: seq<seq<Key>>, cellsOf: seq<RowId -> Cell>) {
    && |columns| == |cellsOf|
    && (forall c :: 0 <= c < |columns| ==> |columns[c]| == |keys|)
    && forall c, i :: 0 <= c < |columns| && 0 <= i < |keys| ==>
         |columns[c][i]| == |keys[i]| && ChunkCells(columns[c][i], i, cellsOf[c])
  }

  /** The loop over the chunks. */
  method AggregateTable(cache: bool, contexts: seq<Context>, keys: seq<seq<Key>>, columns: seq<Cells>,
                        ghost immediate: bool, ghost keyOf: RowId -> Key, ghost cellsOf: seq<RowId -> Cell>,
                        ghost idOf: map<Key, nat>)
    returns (ok: bool, after: seq<Context>, ghost ids: map<Key, nat>)
    requires contexts != [] && |columns| == |contexts| == |cellsOf| && cache == (|contexts| > 1 || immediate)
    requires Ready(contexts, immediate, idOf)
    requires KeysFit(keys, keyOf, idOf, immediate) && ColumnsFit(columns, keys, cellsOf)
    ensures ok <==> AllAccepted(contexts, columns)
    ensures SameFunctions(after, contexts)
    ensures ok ==> AllRepresent(after, ids, keyOf, cellsOf, Positions(Sizes(keys))) && Injective(ids)
  {
    ok, after, ids := true, contexts, idOf;
    ghost var sizes := Sizes(keys);
    StartsEmpty(contexts, immediate, idOf, keyOf, cellsOf);
    for i := 0 to |keys|
      invariant SameFunctions(after, contexts)
      invariant ok && AcceptedUpTo(contexts, columns, i)
      invariant AllRepresent(after, ids, keyOf, cellsOf, Positions(sizes[..i]))
      invariant Injective(ids) && Grows(idOf, ids) && (immediate ==> ids == idOf)
      invariant !immediate ==> LooksUp(after[0], ids, keyOf, Positions(sizes[..i]))
    {
      KeysStay(keys[i], i, keyOf, idOf, ids, immediate);
      var chunkColumns := ChunkColumns(columns, i);
      AcceptedChunkNext(contexts, after, columns, |keys|, i);
      ghost var more;
      PositionsNext(sizes, i);
      ok, after, more :=
        AggregateChunk(cache, after, keys[i], chunkColumns, i, immediate, keyOf, cellsOf, ids, Positions(sizes[..i]));
      if !ok {
        return;
      }
      GrowsTransitive(idOf, ids, more);
      ids := more;
    }
    TakeAll(sizes);
  }

  ghost predicate AcceptedUpTo(contexts: seq<Context>, columns: seq<Cells>, n: nat)
    requires |columns| == |contexts|
  {
    forall c, i :: 0 <= c < |contexts| && 0 <= i < n && i < |columns[c]| ==> Accepted(contexts[c].f, columns[c][i])
  }

  lemma AcceptedChunkNext(contexts: seq<Context>, now: seq<Context>, columns: seq<Cells>, n: nat, i: nat)
    requires |columns| == |contexts| && SameFunctions(now, contexts) && i < n
    requires forall c :: 0 <= c < |columns| ==> |columns[c]| == n
    ensures AcceptedUpTo(contexts, columns, i + 1) <==>
            AcceptedUpTo(contexts, columns, i) && ChunkAccepted(now, ChunkColumns(columns, i))
    ensures !ChunkAccepted(now, ChunkColumns(columns, i)) ==> !AllAccepted(contexts, columns)
  {
    if ChunkAccepted(now, ChunkColumns(columns, i)) {
      assert forall c :: 0 <= c < |contexts| ==> Accepted(now[c].f, ChunkColumns(columns, i)[c]);
    } else {
      var c :| 0 <= c < |now| && !Accepted(now[c].f, ChunkColumns(columns, i)[c]);
      assert !Accepted(contexts[c].f, columns[c][i]);
    }
    if AcceptedUpTo(contexts, columns, i + 1) {
      forall c | 0 <= c < |now|
        ensures Accepted(now[c].f, ChunkColumns(columns, i)[c])
      {
        assert Accepted(contexts[c].f, columns[c][i]);
      }
    }
  }

  /** The segments of chunk i, one per aggregate. */
  function ChunkColumns(columns: seq<Cells>, i: nat): (r: seq<seq<Cell>>)
    requires forall c :: 0 <= c < |columns| ==> i < |columns[c]|
    ensures |r| == |columns| && forall c :: 0 <= c < |r| ==> r[c] == columns[c][i]
  {
    seq(|columns|, c requires 0 <= c < |columns| => columns[c][i])
  }

  lemma KeysStay(keys: seq<Key>, chunk: nat, keyOf: RowId -> Key, idOf: map<Key, nat>, more: map<Key, nat>,
                 cached: bool)
    requires ChunkKeys(keys, chunk, keyOf, idOf, cached) && Grows(idOf, more)
    ensures ChunkKeys(keys, chunk, keyOf, more, cached)
  {
    forall j: nat | j < |keys|
      ensures KeyState(keys[j], keyOf(RowId(chunk, j)), more)
    {
      KeyStateStays(keys[j], keyOf(RowId(chunk, j)), idOf, more);
    }
  }

  lemma StartsEmpty(contexts: seq<Context>, immediate: bool, idOf: map<Key, nat>, keyOf: RowId -> Key,
                    cellsOf: seq<RowId -> Cell>)
    requires contexts != [] && |contexts| == |cellsOf| && Ready(contexts, immediate, idOf)
    ensures AllRepresent(contexts, idOf, keyOf, cellsOf, [])
    ensures !immediate ==> LooksUp(contexts[0], idOf, keyOf, [])
  {
    forall c | 0 <= c < |contexts|
      ensures Represents(contexts[c].f, contexts[c].results, idOf, keyOf, cellsOf[c], [])
    {
      RepresentsNothing(contexts[c].f, idOf, keyOf, cellsOf[c], |contexts[c].results|);
    }
  }

  // ----- reading the results -----

  function LiveBits(results: seq<AggregateResult>): (r: seq<bool>)
    ensures |r| == |results| && forall k :: 0 <= k < |r| ==> r[k] == results[k].row.SomeRow?
  {
    seq(|results|, k requires 0 <= k < |results| => results[k].row.SomeRow?)
  }

  /** The indexes of the results that are not gaps, ascending. */
  function Live(results: seq<AggregateResult>): (r: seq<nat>)
    ensures forall k: nat :: k in r <==> k < |results| && results[k].row.SomeRow?
  {
    TrueOffsets(LiveBits(results))
  }

  lemma LiveExact(f: AggregateFunction, results: seq<AggregateResult>, idOf: map<Key, nat>, keyOf: RowId -> Key,
                  cellOf: RowId -> Cell, ps: seq<RowId>, r: nat)
    requires Represents(f, results, idOf, keyOf, cellOf, ps)
    ensures r in Live(results) <==> exists p :: p in ps && idOf[keyOf(p)] == r
  {
    if r in Live(results) {
      assert results[r] != Blank(f);
    }
    if p :| p in ps && idOf[keyOf(p)] == r {
      assert Holds(results[r], f, keyOf, cellOf, ps, keyOf(p));
    }
  }

  /** All aggregate columns list the same groups in the same order. */
  lemma SameLive(f: AggregateFunction, results: seq<AggregateResult>, g: AggregateFunction,
                 others: seq<AggregateResult>, idOf: map<Key, nat>, keyOf: RowId -> Key, cellOf: RowId -> Cell,
                 otherOf: RowId -> Cell, ps: seq<RowId>)
    requires Represents(f, results, idOf, keyOf, cellOf, ps) && Represents(g, others, idOf, keyOf, otherOf, ps)
    ensures Live(results) == Live(others)
  {
    forall r: nat
      ensures r in Live(results) <==> r in Live(others)
    {
      LiveExact(f, results, idOf, keyOf, cellOf, ps, r);
      LiveExact(g, others, idOf, keyOf, otherOf, ps, r);
    }
    TrueOffsetsAscend(LiveBits(results));
    TrueOffsetsAscend(LiveBits(others));
    AscendingUnique(Live(results), Live(others));
  }

  function WitnessIn(results: seq<AggregateResult>): nat -> RowId {
    (k: nat) => if k < |results| && results[k].row.SomeRow? then results[k].row.id else RowId(0, 0)
  }

  lemma LiveNext<T>(results: seq<AggregateResult>, f: nat -> T, i: nat)
    requires i < |results|
    ensures var bits := LiveBits(results);
            Map(f, TrueOffsets(bits[..i + 1])) ==
            Map(f, TrueOffsets(bits[..i])) + if results[i].row.SomeRow? then [f(i)] else []
  {
    var bits := LiveBits(results);
    TakeTwice(bits, i);
    MapAppend(f, TrueOffsets(bits[..i]), if bits[i] then [i] else []);
  }

  /** The position list for the GROUP BY columns: one row per live result. */
  method WitnessRows(results: seq<AggregateResult>) returns (rows: seq<RowId>)
    ensures rows == Map(WitnessIn(results), Live(results))
  {
    rows := [];
    ghost var bits := LiveBits(results);
    for i := 0 to |results|
      invariant rows == Map(WitnessIn(results), TrueOffsets(bits[..i]))
    {
      LiveNext(results, WitnessIn(results), i);
      if results[i].row.SomeRow? {
        rows := rows + [results[i].row.id];
      }
    }
    TakeAll(bits);
  }

  function FinishedIn(f: AggregateFunction, results: seq<AggregateResult>): nat -> Cell {
    (k: nat) => if k < |results| then Finish(f, results[k].accumulator, results[k].count) else Null
  }

  /** WriteAggregateValues. */
  method WriteAggregateValues(f: AggregateFunction, results: seq<AggregateResult>) returns (values: Segment)
    ensures values == Map(FinishedIn(f, results), Live(results))
  {
    values := [];
    ghost var bits := LiveBits(results);
    for i := 0 to |results|
      invariant values == Map(FinishedIn(f, results), TrueOffsets(bits[..i]))
    {
      LiveNext(results, FinishedIn(f, results), i);
      if results[i].row.SomeRow? {
        values := values + [Finish(f, results[i].accumulator, results[i].count)];
      }
    }
    TakeAll(bits);
  }

  /** The rows whose strings a STRING_AGG result has collected. */
  function CollectedIn(results: seq<AggregateResult>): nat -> seq<RowId> {
    (k: nat) => if k < |results| && results[k].accumulator.Strings? then PairRows(results[k].accumulator.pairs) else []
  }

  /** One ordered text per list of rows. */
  ghost predicate OrderedTexts(t: Table, c: nat, order: seq<SortColumn>, rowLists: seq<seq<RowId>>, values: Segment) {
    |values| == |rowLists| &&
    forall k :: 0 <= k < |values| ==> IsOrderedText(t, c, order, rowLists[k], values[k])
  }

  /** WriteAggregateValues for an ordered STRING_AGG. */
  method WriteOrderedStrings(t: Table, c: nat, order: seq<SortColumn>, results: seq<AggregateResult>)
    returns (values: Segment)
    requires ValidTable(t) && c < |t.definitions| && ColumnsExist(t, order)
    requires forall k :: 0 <= k < |results| ==> RowsOfGroup(t, CollectedIn(results)(k))
    ensures OrderedTexts(t, c, order, Map(CollectedIn(results), Live(results)), values)
  {
    values := [];
    ghost var bits := LiveBits(results);
    for i := 0 to |results|
      invariant OrderedTexts(t, c, order, Map(CollectedIn(results), TrueOffsets(bits[..i])), values)
    {
      LiveNext(results, CollectedIn(results), i);
      if results[i].row.SomeRow? {
        var pairs := if results[i].accumulator.Strings? then results[i].accumulator.pairs else [];
        var cell := Concatenate(t, c, PairRows(pairs), order);
        values := values + [cell];
      }
    }
    TakeAll(bits);
  }
}
