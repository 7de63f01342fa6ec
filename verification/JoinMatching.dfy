/** What filling the position lists of an equi-join means, and the two algorithms that do it. Table A is the
    build side (or left side), table B the probe side (or right side); a join column is given as one list of
    stored values per chunk. */
module JoinMatching {
  import opened Sequences
  import opened Storage

  type Keys = seq<seq<Value>>

  /** An entry of a position list: a row of table A and an offset in the B chunk that owns the list. */
  datatype Match = Match(a: RowId, b: nat)

  ghost predicate At(keys: Keys, p: RowId, v: Value) {
    p.chunk < |keys| && p.offset < |keys[p.chunk]| && keys[p.chunk][p.offset] == v
  }

  ghost predicate IsMatch(keysA: Keys, b: seq<Value>, m: Match) {
    m.b < |b| && At(keysA, m.a, b[m.b])
  }

  /** The list holds every pair with equal keys exactly once, and nothing else. */
  ghost predicate MatchList(keysA: Keys, b: seq<Value>, list: seq<Match>) {
    NoDup(list) && forall m: Match :: m in list <==> IsMatch(keysA, b, m)
  }

  ghost predicate MatchLists(keysA: Keys, keysB: Keys, lists: seq<seq<Match>>) {
    |lists| <= |keysB| && forall j :: 0 <= j < |lists| ==> MatchList(keysA, keysB[j], lists[j])
  }

  lemma ListsSnoc(keysA: Keys, keysB: Keys, lists: seq<seq<Match>>, list: seq<Match>)
    requires MatchLists(keysA, keysB, lists) && |lists| < |keysB|
    requires MatchList(keysA, keysB[|lists|], list)
    ensures MatchLists(keysA, keysB, lists + [list])
  {
    forall j | 0 <= j < |lists + [list]|
      ensures MatchList(keysA, keysB[j], (lists + [list])[j])
    {
      if j < |lists| {
        assert MatchList(keysA, keysB[j], lists[j]);
      }
    }
  }

  function ValuesOf(b: seq<Value>): set<Value> {
    set v | v in b
  }

  function AllValues(keys: Keys): set<Value> {
    if keys == [] then {} else AllValues(keys[..|keys| - 1]) + ValuesOf(keys[|keys| - 1])
  }

  lemma AllValuesAt(keys: Keys, v: Value)
    ensures v in AllValues(keys) <==> exists p: RowId :: At(keys, p, v)
  {
    if keys != [] {
      var n := |keys| - 1;
      AllValuesAt(keys[..n], v);
      if v in AllValues(keys[..n]) {
        var p: RowId :| At(keys[..n], p, v);
        assert At(keys, p, v);
      } else if v in ValuesOf(keys[n]) {
        var k :| 0 <= k < |keys[n]| && keys[n][k] == v;
        assert At(keys, RowId(n, k), v);
      }
      if p: RowId :| At(keys, p, v) {
        if p.chunk < n {
          assert At(keys[..n], p, v);
        }
      }
    }
  }

  /** Marks the rows whose key is not among the values seen on the other side. */
  function Unseen(a: seq<Value>, seen: set<Value>): (r: seq<bool>)
    ensures |r| == |a|
    ensures forall k :: 0 <= k < |r| ==> r[k] == (a[k] !in seen)
  {
    seq(|a|, k requires 0 <= k < |a| => a[k] !in seen)
  }

  function UnseenChunks(keys: Keys, seen: set<Value>): (r: seq<seq<bool>>)
    ensures |r| == |keys|
    ensures forall i :: 0 <= i < |r| ==> r[i] == Unseen(keys[i], seen)
  {
    seq(|keys|, i requires 0 <= i < |keys| => Unseen(keys[i], seen))
  }

  /** Row by row: no row on the other side has this key. */
  function Dangling(keys: Keys, other: Keys): seq<seq<bool>> {
    UnseenChunks(keys, AllValues(other))
  }

  function DanglingOffsets(keys: Keys, other: Keys): (r: seq<seq<nat>>)
    ensures |r| == |keys|
    ensures forall i :: 0 <= i < |r| ==> r[i] == TrueOffsets(Unseen(keys[i], AllValues(other)))
  {
    seq(|keys|, i requires 0 <= i < |keys| => TrueOffsets(Unseen(keys[i], AllValues(other))))
  }

  /** The bookkeeping that FillPositionLists leaves behind. */
  datatype Filled = Filled(
    positionLists: seq<seq<Match>>,
    danglingA: seq<seq<bool>>,
    danglingACount: int,
    danglingBOffsets: seq<seq<nat>>,
    danglingBCount: int
  )

  ghost predicate IsFilled(f: Filled, keysA: Keys, keysB: Keys) {
    && |f.positionLists| == |keysB|
    && MatchLists(keysA, keysB, f.positionLists)
    && f.danglingA == Dangling(keysA, keysB)
    && f.danglingACount == CountTrues(Dangling(keysA, keysB))
    && f.danglingBOffsets == DanglingOffsets(keysB, keysA)
    && f.danglingBCount == CountTrues(Dangling(keysB, keysA))
  }

  // ----- hash join -----

  type BuildTable = map<Value, seq<RowId>>

  function EqualRange(build: BuildTable, v: Value): seq<RowId> {
    if v in build then build[v] else []
  }

  /** The build table associates each value with the rows before `end` that hold it, each once. */
  ghost predicate Indexes(build: BuildTable, keys: Keys, end: RowId) {
    forall v: Value :: NoDup(EqualRange(build, v)) &&
      forall p: RowId :: p in EqualRange(build, v) <==> At(keys, p, v) && Before(p, end)
  }

  method BuildHashTable(keys: Keys) returns (build: BuildTable)
    ensures IsBuildTable(build, keys)
  {
    build := map[];
    for i := 0 to |keys|
      invariant Indexes(build, keys, RowId(i, 0))
    {
      for j := 0 to |keys[i]|
        invariant Indexes(build, keys, RowId(i, j))
      {
        ghost var before := build;
        var v := keys[i][j];
        build := build[v := EqualRange(build, v) + [RowId(i, j)]];
        forall w: Value
          ensures NoDup(EqualRange(build, w))
          ensures forall p: RowId :: p in EqualRange(build, w) <==> At(keys, p, w) && Before(p, RowId(i, j + 1))
        {
          assert w != v ==> EqualRange(build, w) == EqualRange(before, w);
          assert NoDup(EqualRange(before, w));
          if w == v {
            NoDupAppend(EqualRange(before, v), [RowId(i, j)]);
          }
        }
      }
    }
  }

  ghost predicate IsBuildTable(build: BuildTable, keys: Keys) {
    forall v :: NoDup(EqualRange(build, v)) && forall p: RowId :: p in EqualRange(build, v) <==> At(keys, p, v)
  }

  /** The matches of the first j rows of a chunk. */
  ghost predicate MatchPrefix(keysA: Keys, b: seq<Value>, j: nat, list: seq<Match>) {
    NoDup(list) && forall m: Match :: m in list <==> m.b < j && IsMatch(keysA, b, m)
  }

  lemma NoMatch(keysA: Keys, b: seq<Value>, j: nat, list: seq<Match>, seen: set<Value>)
    requires j < |b| && MatchPrefix(keysA, b, j, list)
    requires forall p: RowId :: !At(keysA, p, b[j])
    ensures MatchPrefix(keysA, b, j + 1, list)
    ensures b[j] !in AllValues(keysA)
    ensures UnseenChunks(keysA, seen + {b[j]}) == UnseenChunks(keysA, seen)
  {
    AllValuesAt(keysA, b[j]);
    forall i | 0 <= i < |keysA|
      ensures Unseen(keysA[i], seen + {b[j]}) == Unseen(keysA[i], seen)
    {
      assert forall k :: 0 <= k < |keysA[i]| ==> At(keysA, RowId(i, k), keysA[i][k]);
    }
  }

  lemma NextBit(bits: seq<bool>, j: nat)
    requires j < |bits|
    ensures TrueOffsets(bits[..j + 1]) == TrueOffsets(bits[..j]) + if bits[j] then [j] else []
  {
    TakeTwice(bits, j);
  }

  /** One chunk of the probe side. */
  method ProbeChunk(build: BuildTable, keysA: Keys, b: seq<Value>, danglingIn: seq<seq<bool>>, countIn: int,
                    ghost seen: set<Value>)
    returns (list: seq<Match>, unmatched: seq<nat>, dangling: seq<seq<bool>>, count: int)
    requires IsBuildTable(build, keysA)
    requires danglingIn == UnseenChunks(keysA, seen) && countIn == CountTrues(danglingIn)
    ensures MatchList(keysA, b, list)
    ensures unmatched == TrueOffsets(Unseen(b, AllValues(keysA)))
    ensures dangling == UnseenChunks(keysA, seen + ValuesOf(b)) && count == CountTrues(dangling)
  {
    list, unmatched, dangling, count := [], [], danglingIn, countIn;
    ghost var noMatch := Unseen(b, AllValues(keysA));
    assert seen + ValuesOf(b[..0]) == seen;
    for j := 0 to |b|
      invariant MatchPrefix(keysA, b, j, list)
      invariant unmatched == TrueOffsets(noMatch[..j])
      invariant dangling == UnseenChunks(keysA, seen + ValuesOf(b[..j])) && count == CountTrues(dangling)
    {
      NextBit(noMatch, j);
      SeenNext(seen, b, j);
      var found;
      list, found, dangling, count := ProbeRow(build, keysA, b, j, list, dangling, count, seen + ValuesOf(b[..j]));
      if !found {
        unmatched := unmatched + [j];
      }
    }
    TakeAll(b);
    TakeAll(noMatch);
  }

  lemma SeenNext(seen: set<Value>, b: seq<Value>, j: nat)
    requires j < |b|
    ensures seen + ValuesOf(b[..j + 1]) == seen + ValuesOf(b[..j]) + {b[j]}
  {
    TakeNext(b, j);
  }

  /** Row j of the probe side. */
  method ProbeRow(build: BuildTable, keysA: Keys, b: seq<Value>, j: nat, listIn: seq<Match>,
                  danglingIn: seq<seq<bool>>, countIn: int, ghost seen: set<Value>)
    returns (list: seq<Match>, found: bool, dangling: seq<seq<bool>>, count: int)
    requires j < |b| && IsBuildTable(build, keysA) && MatchPrefix(keysA, b, j, listIn)
    requires danglingIn == UnseenChunks(keysA, seen) && countIn == CountTrues(danglingIn)
    ensures MatchPrefix(keysA, b, j + 1, list) && found == (b[j] in AllValues(keysA))
    ensures dangling == UnseenChunks(keysA, seen + {b[j]}) && count == CountTrues(dangling)
  {
    list, dangling, count := listIn, danglingIn, countIn;
    var matches := EqualRange(build, b[j]);
    found := matches != [];
    if found {
      assert matches[0] in matches && At(keysA, matches[0], b[j]);
      AllValuesAt(keysA, b[j]);
      list, dangling, count := TakeMatches(keysA, b, j, matches, list, dangling, count, seen);
    } else {
      assert forall p: RowId :: At(keysA, p, b[j]) ==> p in matches;
      NoMatch(keysA, b, j, list, seen);
    }
  }

  /** The innermost loop of the probe: all rows of table A that share the key of row j. */
  method TakeMatches(keysA: Keys, b: seq<Value>, j: nat, matches: seq<RowId>, listIn: seq<Match>,
                     danglingIn: seq<seq<bool>>, countIn: int, ghost seen: set<Value>)
    returns (list: seq<Match>, dangling: seq<seq<bool>>, count: int)
    requires j < |b|
    requires NoDup(matches) && forall p: RowId :: p in matches <==> At(keysA, p, b[j])
    requires MatchPrefix(keysA, b, j, listIn)
    requires danglingIn == UnseenChunks(keysA, seen) && countIn == CountTrues(danglingIn)
    ensures MatchPrefix(keysA, b, j + 1, list)
    ensures dangling == UnseenChunks(keysA, seen + {b[j]}) && count == CountTrues(dangling)
  {
    list, dangling, count := listIn, danglingIn, countIn;
    for t := 0 to |matches|
      invariant Taken(listIn, j, matches[..t], list) && Cleared(danglingIn, matches[..t], dangling)
      invariant count == CountTrues(dangling)
    {
      var p := matches[t];
      assert p in matches;
      TakeNext(matches, t);
      TakenNext(listIn, j, matches, t, list);
      ClearedNext(danglingIn, matches, t, dangling);
      dangling, count := ClearDangling(dangling, count, p);
      list := list + [Match(p, j)];
    }
    TakeAll(matches);
    TakenAll(keysA, b, j, matches, listIn, list);
    ClearedAll(keysA, b[j], matches, seen, danglingIn, dangling);
  }

  /** The list after the matches of row j with the given rows. */
  ghost predicate Taken(listIn: seq<Match>, j: nat, done: seq<RowId>, list: seq<Match>) {
    NoDup(list) && forall m: Match :: m in list <==> m in listIn || (m.b == j && m.a in done)
  }

  lemma TakenNext(listIn: seq<Match>, j: nat, matches: seq<RowId>, t: nat, list: seq<Match>)
    requires NoDup(matches) && t < |matches| && Taken(listIn, j, matches[..t], list)
    requires forall m :: m in listIn ==> m.b < j
    ensures Taken(listIn, j, matches[..t + 1], list + [Match(matches[t], j)])
  {
    TakeNext(matches, t);
    assert matches[t] !in matches[..t];
    NoDupAppend(list, [Match(matches[t], j)]);
  }

  lemma TakenAll(keysA: Keys, b: seq<Value>, j: nat, matches: seq<RowId>, listIn: seq<Match>, list: seq<Match>)
    requires j < |b| && MatchPrefix(keysA, b, j, listIn) && Taken(listIn, j, matches, list)
    requires forall p: RowId :: p in matches <==> At(keysA, p, b[j])
    ensures MatchPrefix(keysA, b, j + 1, list)
  {}

  /** The bits of the given rows are cleared. */
  ghost predicate Cleared(danglingIn: seq<seq<bool>>, done: seq<RowId>, dangling: seq<seq<bool>>) {
    |dangling| == |danglingIn| && forall i :: 0 <= i < |dangling| ==> ClearedChunk(danglingIn[i], i, done, dangling[i])
  }

  ghost predicate ClearedChunk(before: seq<bool>, i: nat, done: seq<RowId>, bits: seq<bool>) {
    |bits| == |before| && forall k :: 0 <= k < |bits| ==> bits[k] == (before[k] && RowId(i, k) !in done)
  }

  lemma ClearedNext(danglingIn: seq<seq<bool>>, matches: seq<RowId>, t: nat, dangling: seq<seq<bool>>)
    requires t < |matches| && Cleared(danglingIn, matches[..t], dangling)
    requires InRange(matches[t], Sizes(danglingIn))
    ensures var p := matches[t];
            && p.chunk < |dangling| && p.offset < |dangling[p.chunk]|
            && Cleared(danglingIn, matches[..t + 1], dangling[p.chunk := dangling[p.chunk][p.offset := false]])
  {
    TakeNext(matches, t);
    var p := matches[t];
    var next := dangling[p.chunk := dangling[p.chunk][p.offset := false]];
    forall i | 0 <= i < |next|
      ensures ClearedChunk(danglingIn[i], i, matches[..t + 1], next[i])
    {
      assert ClearedChunk(danglingIn[i], i, matches[..t], dangling[i]);
    }
  }

  lemma ClearedAll(keysA: Keys, v: Value, matches: seq<RowId>, seen: set<Value>, danglingIn: seq<seq<bool>>,
                   dangling: seq<seq<bool>>)
    requires danglingIn == UnseenChunks(keysA, seen) && Cleared(danglingIn, matches, dangling)
    requires forall p: RowId :: p in matches <==> At(keysA, p, v)
    ensures dangling == UnseenChunks(keysA, seen + {v})
  {
    forall i | 0 <= i < |keysA|
      ensures dangling[i] == Unseen(keysA[i], seen + {v})
    {
      assert ClearedChunk(danglingIn[i], i, matches, dangling[i]);
      forall k | 0 <= k < |keysA[i]|
        ensures dangling[i][k] == (keysA[i][k] !in seen + {v})
      {
        assert RowId(i, k) in matches <==> At(keysA, RowId(i, k), v);
      }
    }
  }

  /** A matched row of table A is no longer dangling; the counter follows. */
  method ClearDangling(danglingIn: seq<seq<bool>>, countIn: int, p: RowId)
    returns (dangling: seq<seq<bool>>, count: int)
    requires p.chunk < |danglingIn| && p.offset < |danglingIn[p.chunk]| && countIn == CountTrues(danglingIn)
    ensures dangling == danglingIn[p.chunk := danglingIn[p.chunk][p.offset := false]] && count == CountTrues(dangling)
  {
    dangling, count := danglingIn, countIn;
    if dangling[p.chunk][p.offset] {
      count := count - 1;
      CountTrueClear(dangling[p.chunk], p.offset);
      CountTruesUpdate(dangling, p.chunk, dangling[p.chunk][p.offset := false]);
      dangling := dangling[p.chunk := dangling[p.chunk][p.offset := false]];
    } else {
      assert danglingIn[p.chunk][p.offset := false] == danglingIn[p.chunk];
    }
  }

  /** HashJoinOperator::FillPositionLists after the choice of sides. */
  method HashFill(keysA: Keys, keysB: Keys) returns (f: Filled)
    ensures IsFilled(f, keysA, keysB)
  {
    var build := BuildHashTable(keysA);
    f := Filled([], UnseenChunks(keysA, {}), RowsOf(keysA), [], 0);
    AllDangling(keysA);
    assert Dangling(keysB[..0], keysA) == [];
    for i := 0 to |keysB|
      invariant FilledPrefix(f, keysA, keysB, i)
    {
      var list, unmatched, dangling, count :=
        ProbeChunk(build, keysA, keysB[i], f.danglingA, f.danglingACount, AllValues(keysB[..i]));
      FilledNext(f, keysA, keysB, i, list, unmatched, dangling, count);
      f := Filled(f.positionLists + [list], dangling, count, f.danglingBOffsets + [unmatched],
                  f.danglingBCount + |unmatched|);
    }
    TakeAll(keysB);
    TakeAll(DanglingOffsets(keysB, keysA));
  }

  /** The state after the first i chunks of the probe side. */
  ghost predicate FilledPrefix(f: Filled, keysA: Keys, keysB: Keys, i: nat) {
    && i <= |keysB| && |f.positionLists| == |f.danglingBOffsets| == i
    && MatchLists(keysA, keysB, f.positionLists)
    && f.danglingBOffsets == DanglingOffsets(keysB, keysA)[..i]
    && f.danglingA == UnseenChunks(keysA, AllValues(keysB[..i])) && f.danglingACount == CountTrues(f.danglingA)
    && f.danglingBCount == CountTrues(Dangling(keysB[..i], keysA))
  }

  lemma FilledNext(f: Filled, keysA: Keys, keysB: Keys, i: nat, list: seq<Match>, unmatched: seq<nat>,
                   dangling: seq<seq<bool>>, count: int)
    requires i < |keysB| && FilledPrefix(f, keysA, keysB, i)
    requires MatchList(keysA, keysB[i], list)
    requires unmatched == TrueOffsets(Unseen(keysB[i], AllValues(keysA)))
    requires dangling == UnseenChunks(keysA, AllValues(keysB[..i]) + ValuesOf(keysB[i])) &&
             count == CountTrues(dangling)
    ensures FilledPrefix(Filled(f.positionLists + [list], dangling, count, f.danglingBOffsets + [unmatched],
                                f.danglingBCount + |unmatched|),
                         keysA, keysB, i + 1)
  {
    DanglingSnoc(keysB, i, keysA);
    ListsSnoc(keysA, keysB, f.positionLists, list);
    var offsets := DanglingOffsets(keysB, keysA);
    TakeNext(offsets, i);
  }

  function RowsOf(keys: Keys): nat {
    Sum(Sizes(keys))
  }

  lemma AllDangling(keys: Keys)
    ensures CountTrues(UnseenChunks(keys, {})) == RowsOf(keys)
  {
    if keys != [] {
      var n := |keys| - 1;
      AllDangling(keys[..n]);
      assert UnseenChunks(keys, {})[..n] == UnseenChunks(keys[..n], {});
      assert Sizes(keys)[..n] == Sizes(keys[..n]);
      CountTrueAll(Unseen(keys[n], {}));
    }
  }

  lemma DanglingSnoc(keys: Keys, i: nat, other: Keys)
    requires i < |keys|
    ensures CountTrues(Dangling(keys[..i + 1], other)) ==
            CountTrues(Dangling(keys[..i], other)) + CountTrue(Unseen(keys[i], AllValues(other)))
    ensures AllValues(keys[..i + 1]) == AllValues(keys[..i]) + ValuesOf(keys[i])
  {
    TakeTwice(keys, i);
    CountTruesSnoc(Dangling(keys[..i], other), Unseen(keys[i], AllValues(other)));
    assert Dangling(keys[..i + 1], other) == Dangling(keys[..i], other) + [Unseen(keys[i], AllValues(other))];
  }
}
