/** SortedMergeJoinOperator::FillPositionLists: one merge for every pair of a left and a right chunk. */
module SortedMerge {
  import opened Sequences
  import opened Storage
  import opened JoinMatching

  ghost predicate SortedChunk(s: seq<Value>) {
    forall i, j :: 0 <= i < j < |s| ==> !Less(s[j], s[i])
  }

  ghost predicate SortedChunks(keys: Keys) {
    forall i :: 0 <= i < |keys| ==> SortedChunk(keys[i])
  }

  /** The merge reads element 0 of the left chunk as soon as the right chunk has a row. */
  predicate ReadsEmptyChunk(keysA: Keys, keysB: Keys) {
    [] in keysA && HasRow(keysB)
  }

  predicate HasRow(keys: Keys) {
    exists j :: 0 <= j < |keys| && keys[j] != []
  }

  /** first..last is the run of equal left values under the cursor; what lies before it is below the key. */
  ghost predicate AtRun(left: seq<Value>, first: nat, last: nat, key: Value) {
    && first <= last < |left|
    && (forall k :: first <= k <= last ==> left[k] == left[last])
    && (forall k :: 0 <= k < first ==> Less(left[k], key))
  }

  /** Moves the left cursor to the last element of the first run that is not below the key. */
  method SeekRun(left: seq<Value>, key: Value, firstIn: nat, lastIn: nat)
    returns (first: nat, last: nat, exhausted: bool)
    requires SortedChunk(left) && AtRun(left, firstIn, lastIn, key)
    ensures AtRun(left, first, last, key)
    ensures exhausted ==> forall k :: 0 <= k < |left| ==> Less(left[k], key)
    ensures !exhausted ==> forall k :: 0 <= k < |left| ==>
              (left[k] == key <==> left[last] == key && first <= k <= last)
  {
    first, last, exhausted := firstIn, lastIn, false;
    while last + 1 < |left| && Less(left[last], key)
      invariant AtRun(left, first, last, key)
    {
      RunBelow(left, first, last, key);
      if left[last] != left[last + 1] {
        first := last + 1;
      }
      last := last + 1;
    }
    if last + 1 == |left| && Less(left[last], key) {
      return first, last, true;
    }
    while last + 1 < |left| && left[last + 1] == left[last]
      invariant AtRun(left, first, last, key)
      invariant !Less(left[last], key)
    {
      RunWidens(left, first, last, key);
      last := last + 1;
    }
    RunFound(left, first, last, key);
  }

  lemma RunBelow(left: seq<Value>, first: nat, last: nat, key: Value)
    requires AtRun(left, first, last, key) && last + 1 < |left| && Less(left[last], key)
    ensures AtRun(left, if left[last] != left[last + 1] then last + 1 else first, last + 1, key)
  {}

  lemma RunWidens(left: seq<Value>, first: nat, last: nat, key: Value)
    requires AtRun(left, first, last, key) && last + 1 < |left| && left[last + 1] == left[last]
    ensures AtRun(left, first, last + 1, key)
  {}

  /** The run under the cursor holds all left values equal to the key, if there are any. */
  lemma RunFound(left: seq<Value>, first: nat, last: nat, key: Value)
    requires SortedChunk(left) && AtRun(left, first, last, key) && !Less(left[last], key)
    requires last + 1 == |left| || left[last + 1] != left[last]
    ensures forall k :: 0 <= k < |left| ==> (left[k] == key <==> left[last] == key && first <= k <= last)
  {
    forall k | 0 <= k < |left|
      ensures left[k] == key <==> left[last] == key && first <= k <= last
    {
      LessTotal(left[k], key);
      if k > last {
        NotAfterRun(left, last, k, key);
      }
    }
  }

  lemma NotAfterRun(left: seq<Value>, last: nat, k: nat, key: Value)
    requires SortedChunk(left) && last < k < |left| && left[last + 1] != left[last] && !Less(left[last], key)
    ensures left[k] != key
  {
    LessTotal(left[last], left[last + 1]);
    LessTotal(left[last], key);
    LessTotal(left[k], left[last + 1]);
  }

  ghost predicate PairMatch(left: seq<Value>, right: seq<Value>, chunk: nat, m: Match) {
    m.a.chunk == chunk && m.a.offset < |left| && m.b < |right| && left[m.a.offset] == right[m.b]
  }

  ghost predicate MergedUpTo(left: seq<Value>, right: seq<Value>, chunk: nat, r: nat,
                             listIn: seq<Match>, list: seq<Match>) {
    NoDup(list) && forall m: Match :: m in list <==> m in listIn || (m.b < r && PairMatch(left, right, chunk, m))
  }

  ghost predicate LeftMarks(left: seq<Value>, seen: set<Value>, danglingIn: seq<bool>, dangling: seq<bool>) {
    && |danglingIn| == |dangling| == |left|
    && forall k :: 0 <= k < |left| ==> dangling[k] == (danglingIn[k] && left[k] !in seen)
  }

  ghost predicate RightMarks(left: seq<Value>, right: seq<Value>, r: nat,
                             danglingIn: seq<bool>, dangling: seq<bool>) {
    && |danglingIn| == |dangling| == |right|
    && forall k :: 0 <= k < |right| ==> dangling[k] == (danglingIn[k] && (k < r ==> right[k] !in left))
  }

  /** The loop that emits the run for right row r and clears the left marks. */
  method EmitRun(left: seq<Value>, right: seq<Value>, chunk: nat, r: nat, first: nat, last: nat,
                 ghost listStart: seq<Match>, listIn: seq<Match>,
                 ghost danglingStart: seq<bool>, danglingIn: seq<bool>, countIn: int)
    returns (list: seq<Match>, dangling: seq<bool>, count: int)
    requires r < |right| && first <= last < |left|
    requires forall k :: 0 <= k < |left| ==> (left[k] == right[r] <==> first <= k <= last)
    requires MergedUpTo(left, right, chunk, r, listStart, listIn)
    requires forall m :: m in listStart ==> m.a.chunk != chunk
    requires LeftMarks(left, ValuesOf(right[..r]), danglingStart, danglingIn)
    ensures MergedUpTo(left, right, chunk, r + 1, listStart, list)
    ensures LeftMarks(left, ValuesOf(right[..r + 1]), danglingStart, dangling)
    ensures count - CountTrue(dangling) == countIn - CountTrue(danglingIn)
  {
    list, dangling, count := listIn, danglingIn, countIn;
    for k := first to last + 1
      invariant NoDup(list)
      invariant forall m: Match :: m in list <==>
                  m in listIn || (m.b == r && m.a.chunk == chunk && first <= m.a.offset < k)
      invariant |dangling| == |left|
      invariant forall i :: 0 <= i < |left| ==> dangling[i] == (danglingIn[i] && !(first <= i < k))
      invariant count - CountTrue(dangling) == countIn - CountTrue(danglingIn)
    {
      list := list + [Match(RowId(chunk, k), r)];
      if dangling[k] {
        CountTrueClear(dangling, k);
        dangling, count := dangling[k := false], count - 1;
      }
    }
    TakeNext(right, r);
  }

  /** A right row without a partner leaves the list and the left marks as they are. */
  lemma SkipRow(left: seq<Value>, right: seq<Value>, chunk: nat, r: nat, listIn: seq<Match>, list: seq<Match>,
                danglingIn: seq<bool>, dangling: seq<bool>)
    requires r < |right| && right[r] !in left
    requires MergedUpTo(left, right, chunk, r, listIn, list)
    requires LeftMarks(left, ValuesOf(right[..r]), danglingIn, dangling)
    ensures MergedUpTo(left, right, chunk, r + 1, listIn, list)
    ensures LeftMarks(left, ValuesOf(right[..r + 1]), danglingIn, dangling)
  {
    TakeNext(right, r);
  }

  /** The remaining right rows are above every left value. */
  lemma {:induction false} SkipRest(left: seq<Value>, right: seq<Value>, chunk: nat, r: nat, listIn: seq<Match>,
                                    list: seq<Match>, leftIn: seq<bool>, danglingLeft: seq<bool>,
                                    rightIn: seq<bool>, danglingRight: seq<bool>)
    requires r <= |right| && forall k, j :: 0 <= k < |left| && r <= j < |right| ==> left[k] != right[j]
    requires MergedUpTo(left, right, chunk, r, listIn, list)
    requires LeftMarks(left, ValuesOf(right[..r]), leftIn, danglingLeft)
    requires RightMarks(left, right, r, rightIn, danglingRight)
    ensures MergedUpTo(left, right, chunk, |right|, listIn, list)
    ensures LeftMarks(left, ValuesOf(right), leftIn, danglingLeft)
    ensures RightMarks(left, right, |right|, rightIn, danglingRight)
    decreases |right| - r
  {
    if r == |right| {
      assert right[..r] == right;
    } else {
      SkipRow(left, right, chunk, r, listIn, list, leftIn, danglingLeft);
      SkipRest(left, right, chunk, r + 1, listIn, list, leftIn, danglingLeft, rightIn, danglingRight);
    }
  }

  /** The merge of one left chunk with one right chunk. */
  method MergeChunkPair(left: seq<Value>, right: seq<Value>, chunk: nat, listIn: seq<Match>,
                        leftIn: seq<bool>, rightIn: seq<bool>, countAIn: int, countBIn: int)
    returns (ok: bool, list: seq<Match>, danglingLeft: seq<bool>, danglingRight: seq<bool>,
             countA: int, countB: int)
    requires SortedChunk(left) && SortedChunk(right)
    requires |leftIn| == |left| && |rightIn| == |right|
    requires NoDup(listIn) && forall m :: m in listIn ==> m.a.chunk != chunk
    ensures ok <==> !(left == [] && right != [])
    ensures ok ==> MergedUpTo(left, right, chunk, |right|, listIn, list)
    ensures ok ==> LeftMarks(left, ValuesOf(right), leftIn, danglingLeft)
    ensures ok ==> RightMarks(left, right, |right|, rightIn, danglingRight)
    ensures ok ==> countA - CountTrue(danglingLeft) == countAIn - CountTrue(leftIn)
    ensures ok ==> countB - CountTrue(danglingRight) == countBIn - CountTrue(rightIn)
  {
    ok, list, danglingLeft, danglingRight, countA, countB := true, listIn, leftIn, rightIn, countAIn, countBIn;
    var first, last, r, exhausted := 0, 0, 0, false;
    while r < |right|
      invariant r <= |right| && (r > 0 ==> left != [])
      invariant left != [] && r < |right| ==> AtRun(left, first, last, right[r])
      invariant MergedUpTo(left, right, chunk, r, listIn, list)
      invariant LeftMarks(left, ValuesOf(right[..r]), leftIn, danglingLeft)
      invariant RightMarks(left, right, r, rightIn, danglingRight)
      invariant countA - CountTrue(danglingLeft) == countAIn - CountTrue(leftIn)
      invariant countB - CountTrue(danglingRight) == countBIn - CountTrue(rightIn)
    {
      if left == [] {
        ok := false;
        return;
      }
      first, last, exhausted := SeekRun(left, right[r], first, last);
      if exhausted {
        AboveAll(left, right, r);
        SkipRest(left, right, chunk, r, listIn, list, leftIn, danglingLeft, rightIn, danglingRight);
        return;
      }
      if left[last] == right[r] {
        list, danglingLeft, countA :=
          EmitRun(left, right, chunk, r, first, last, listIn, list, leftIn, danglingLeft, countA);
        if danglingRight[r] {
          CountTrueClear(danglingRight, r);
          danglingRight, countB := danglingRight[r := false], countB - 1;
        }
      } else {
        SkipRow(left, right, chunk, r, listIn, list, leftIn, danglingLeft);
      }
      if r + 1 < |right| {
        NextKey(left, right, r, first, last);
      }
      r := r + 1;
    }
    assert right[..r] == right;
  }

  lemma AboveAll(left: seq<Value>, right: seq<Value>, r: nat)
    requires SortedChunk(right) && r < |right|
    requires forall k :: 0 <= k < |left| ==> Less(left[k], right[r])
    ensures forall k, j :: 0 <= k < |left| && r <= j < |right| ==> left[k] != right[j]
  {
    OrderLaws();
  }

  lemma NextKey(left: seq<Value>, right: seq<Value>, r: nat, first: nat, last: nat)
    requires SortedChunk(right) && r + 1 < |right|
    requires AtRun(left, first, last, right[r])
    ensures AtRun(left, first, last, right[r + 1])
  {
    OrderLaws();
  }

  // ----- all chunk pairs -----

  /** The matches with left rows of the first i chunks. */
  ghost predicate ListBefore(keysA: Keys, b: seq<Value>, i: nat, list: seq<Match>) {
    NoDup(list) && forall m: Match :: m in list <==> IsMatch(keysA, b, m) && m.a.chunk < i
  }

  function Reached(i: nat, j: nat, t: nat): nat {
    if t < j then i + 1 else i
  }

  /** Left chunk i is merged with the first j right chunks; earlier left chunks with all of them. */
  ghost predicate ListsAt(keysA: Keys, keysB: Keys, i: nat, j: nat, lists: seq<seq<Match>>) {
    |lists| == |keysB| &&
    forall t :: 0 <= t < |keysB| ==> ListBefore(keysA, keysB[t], Reached(i, j, t), lists[t])
  }

  lemma ListsAdvance(keysA: Keys, keysB: Keys, i: nat, j: nat, lists: seq<seq<Match>>, list: seq<Match>)
    requires ListsAt(keysA, keysB, i, j, lists) && j < |keysB|
    requires ListBefore(keysA, keysB[j], i + 1, list)
    ensures ListsAt(keysA, keysB, i, j + 1, lists[j := list])
  {
    forall t | 0 <= t < |keysB|
      ensures ListBefore(keysA, keysB[t], Reached(i, j + 1, t), lists[j := list][t])
    {
      if t != j {
        assert ListBefore(keysA, keysB[t], Reached(i, j, t), lists[t]);
      }
    }
  }

  lemma ListsNextChunk(keysA: Keys, keysB: Keys, i: nat, lists: seq<seq<Match>>)
    requires ListsAt(keysA, keysB, i, |keysB|, lists)
    ensures ListsAt(keysA, keysB, i + 1, 0, lists)
  {
    forall t | 0 <= t < |keysB|
      ensures ListBefore(keysA, keysB[t], i + 1, lists[t])
    {
      assert ListBefore(keysA, keysB[t], Reached(i, |keysB|, t), lists[t]);
    }
  }

  lemma NoLists(keysA: Keys, keysB: Keys, lists: seq<seq<Match>>)
    requires |lists| == |keysB| && forall t :: 0 <= t < |keysB| ==> lists[t] == []
    ensures ListsAt(keysA, keysB, 0, 0, lists)
  {}

  lemma PairExtends(keysA: Keys, i: nat, right: seq<Value>, listIn: seq<Match>, list: seq<Match>)
    requires i < |keysA| && ListBefore(keysA, right, i, listIn)
    requires MergedUpTo(keysA[i], right, i, |right|, listIn, list)
    ensures ListBefore(keysA, right, i + 1, list)
  {
    forall m: Match
      ensures m in list <==> IsMatch(keysA, right, m) && m.a.chunk < i + 1
    {
      assert m.a.chunk == i ==> (PairMatch(keysA[i], right, i, m) <==> IsMatch(keysA, right, m));
    }
  }

  lemma MarksExtend(left: seq<Value>, right: seq<Value>, seenLeft: set<Value>, seenRight: set<Value>,
                    leftIn: seq<bool>, danglingLeft: seq<bool>, rightIn: seq<bool>, danglingRight: seq<bool>)
    requires LeftMarks(left, ValuesOf(right), leftIn, danglingLeft)
    requires RightMarks(left, right, |right|, rightIn, danglingRight)
    requires leftIn == Unseen(left, seenRight) && rightIn == Unseen(right, seenLeft)
    ensures danglingLeft == Unseen(left, seenRight + ValuesOf(right))
    ensures danglingRight == Unseen(right, seenLeft + ValuesOf(left))
  {}

  lemma AllValuesSnoc(keys: Keys, i: nat)
    requires i < |keys|
    ensures AllValues(keys[..i + 1]) == AllValues(keys[..i]) + ValuesOf(keys[i])
  {
    TakeTwice(keys, i);
  }

  /** The first j chunks of the right side know the current left chunk, the others do not yet. */
  ghost predicate MarkedUpTo(keysB: Keys, before: set<Value>, after: set<Value>, dangling: seq<seq<bool>>, j: nat) {
    |dangling| == |keysB| &&
    forall k :: 0 <= k < |keysB| ==> dangling[k] == Unseen(keysB[k], if k < j then after else before)
  }

  lemma MarkedNext(keysB: Keys, before: set<Value>, after: set<Value>, dangling: seq<seq<bool>>, j: nat, dr: seq<bool>)
    requires j < |keysB| && MarkedUpTo(keysB, before, after, dangling, j) && dr == Unseen(keysB[j], after)
    ensures MarkedUpTo(keysB, before, after, dangling[j := dr], j + 1)
  {}

  /** What is left of the marks of left chunk i, and of the right chunks, after j right chunks. */
  ghost predicate LeftMerged(keysA: Keys, i: nat, keysB: Keys, j: nat, lists: seq<seq<Match>>, danglingLeft: seq<bool>,
                             danglingRight: seq<seq<bool>>) {
    && i < |keysA| && j <= |keysB| && ListsAt(keysA, keysB, i, j, lists)
    && danglingLeft == Unseen(keysA[i], AllValues(keysB[..j]))
    && MarkedUpTo(keysB, AllValues(keysA[..i]), AllValues(keysA[..i + 1]), danglingRight, j)
  }

  lemma LeftMergedStarts(keysA: Keys, i: nat, keysB: Keys, lists: seq<seq<Match>>, danglingRight: seq<seq<bool>>)
    requires i < |keysA| && ListsAt(keysA, keysB, i, 0, lists)
    requires danglingRight == UnseenChunks(keysB, AllValues(keysA[..i]))
    ensures LeftMerged(keysA, i, keysB, 0, lists, Unseen(keysA[i], {}), danglingRight)
  {
    assert AllValues(keysB[..0]) == {};
  }

  /** One chunk pair more. */
  lemma LeftMergedNext(keysA: Keys, i: nat, keysB: Keys, j: nat, lists: seq<seq<Match>>, danglingLeft: seq<bool>,
                       danglingRight: seq<seq<bool>>, list: seq<Match>, dl: seq<bool>, dr: seq<bool>)
    requires LeftMerged(keysA, i, keysB, j, lists, danglingLeft, danglingRight) && j < |keysB|
    requires MergedUpTo(keysA[i], keysB[j], i, |keysB[j]|, lists[j], list)
    requires LeftMarks(keysA[i], ValuesOf(keysB[j]), danglingLeft, dl)
    requires RightMarks(keysA[i], keysB[j], |keysB[j]|, danglingRight[j], dr)
    ensures LeftMerged(keysA, i, keysB, j + 1, lists[j := list], dl, danglingRight[j := dr])
  {
    assert ListBefore(keysA, keysB[j], Reached(i, j, j), lists[j]);
    AllValuesSnoc(keysA, i);
    AllValuesSnoc(keysB, j);
    PairExtends(keysA, i, keysB[j], lists[j], list);
    MarksExtend(keysA[i], keysB[j], AllValues(keysA[..i]), AllValues(keysB[..j]), danglingLeft, dl, danglingRight[j],
                dr);
    ListsAdvance(keysA, keysB, i, j, lists, list);
    MarkedNext(keysB, AllValues(keysA[..i]), AllValues(keysA[..i + 1]), danglingRight, j, dr);
  }

  lemma LeftMergedEnds(keysA: Keys, i: nat, keysB: Keys, lists: seq<seq<Match>>, danglingLeft: seq<bool>,
                       danglingRight: seq<seq<bool>>)
    requires LeftMerged(keysA, i, keysB, |keysB|, lists, danglingLeft, danglingRight)
    ensures ListsAt(keysA, keysB, i + 1, 0, lists) && danglingLeft == Unseen(keysA[i], AllValues(keysB))
    ensures danglingRight == UnseenChunks(keysB, AllValues(keysA[..i + 1]))
  {
    TakeAll(keysB);
    ListsNextChunk(keysA, keysB, i, lists);
  }

  lemma PairReady(keysA: Keys, i: nat, keysB: Keys, j: nat, lists: seq<seq<Match>>, danglingLeft: seq<bool>,
                  danglingRight: seq<seq<bool>>)
    requires LeftMerged(keysA, i, keysB, j, lists, danglingLeft, danglingRight) && j < |keysB|
    ensures |danglingLeft| == |keysA[i]| && |danglingRight| == |keysB| == |lists| && |danglingRight[j]| == |keysB[j]|
    ensures NoDup(lists[j]) && forall m :: m in lists[j] ==> m.a.chunk != i
  {
    assert ListBefore(keysA, keysB[j], Reached(i, j, j), lists[j]);
  }

  /** The loop over the right chunks for one left chunk. */
  method MergeLeftChunk(keysA: Keys, i: nat, keysB: Keys, listsIn: seq<seq<Match>>, rightIn: seq<seq<bool>>,
                        countAIn: int, countBIn: int)
    returns (ok: bool, lists: seq<seq<Match>>, danglingLeft: seq<bool>, danglingRight: seq<seq<bool>>,
             countA: int, countB: int)
    requires i < |keysA| && SortedChunk(keysA[i]) && SortedChunks(keysB)
    requires ListsAt(keysA, keysB, i, 0, listsIn)
    requires rightIn == UnseenChunks(keysB, AllValues(keysA[..i])) && countBIn == CountTrues(rightIn)
    ensures ok <==> !(keysA[i] == [] && HasRow(keysB))
    ensures ok ==> ListsAt(keysA, keysB, i + 1, 0, lists)
    ensures ok ==> danglingLeft == Unseen(keysA[i], AllValues(keysB))
    ensures ok ==> danglingRight == UnseenChunks(keysB, AllValues(keysA[..i + 1]))
    ensures ok ==> countB == CountTrues(danglingRight)
    ensures ok ==> countA - CountTrue(danglingLeft) == countAIn - |keysA[i]|
  {
    ok, lists, danglingRight, countA, countB := true, listsIn, rightIn, countAIn, countBIn;
    danglingLeft := Unseen(keysA[i], {});
    CountTrueAll(danglingLeft);
    LeftMergedStarts(keysA, i, keysB, lists, danglingRight);
    for j := 0 to |keysB|
      invariant keysA[i] == [] ==> forall m :: 0 <= m < j ==> keysB[m] == []
      invariant LeftMerged(keysA, i, keysB, j, lists, danglingLeft, danglingRight)
      invariant countB == CountTrues(danglingRight)
      invariant countA - CountTrue(danglingLeft) == countAIn - |keysA[i]|
    {
      var list, dl, dr, a, b;
      PairReady(keysA, i, keysB, j, lists, danglingLeft, danglingRight);
      ok, list, dl, dr, a, b := MergeChunkPair(keysA[i], keysB[j], i, lists[j], danglingLeft, danglingRight[j],
                                               countA, countB);
      if !ok {
        return;
      }
      LeftMergedNext(keysA, i, keysB, j, lists, danglingLeft, danglingRight, list, dl, dr);
      CountTruesUpdate(danglingRight, j, dr);
      lists := lists[j := list];
      danglingLeft, danglingRight, countA, countB := dl, danglingRight[j := dr], a, b;
    }
    LeftMergedEnds(keysA, i, keysB, lists, danglingLeft, danglingRight);
  }

  method CollectOffsets(bits: seq<bool>) returns (offsets: seq<nat>)
    ensures offsets == TrueOffsets(bits)
  {
    offsets := [];
    for k := 0 to |bits|
      invariant offsets == TrueOffsets(bits[..k])
    {
      NextBit(bits, k);
      if bits[k] {
        offsets := offsets + [k];
      }
    }
    TakeAll(bits);
  }

  method CollectAllOffsets(bitmaps: seq<seq<bool>>) returns (offsets: seq<seq<nat>>)
    ensures |offsets| == |bitmaps|
    ensures forall j :: 0 <= j < |bitmaps| ==> offsets[j] == TrueOffsets(bitmaps[j])
  {
    offsets := [];
    for j := 0 to |bitmaps|
      invariant |offsets| == j
      invariant forall t :: 0 <= t < j ==> offsets[t] == TrueOffsets(bitmaps[t])
    {
      var o := CollectOffsets(bitmaps[j]);
      offsets := offsets + [o];
    }
  }

  /** The loop over the left chunks. */
  method MergeChunks(keysA: Keys, keysB: Keys)
    returns (ok: bool, lists: seq<seq<Match>>, danglingA: seq<seq<bool>>, danglingRight: seq<seq<bool>>,
             countA: int, countB: int)
    requires SortedChunks(keysA) && SortedChunks(keysB)
    ensures ok <==> !ReadsEmptyChunk(keysA, keysB)
    ensures ok ==> ListsAt(keysA, keysB, |keysA|, 0, lists)
    ensures ok ==> danglingA == Dangling(keysA, keysB) && countA == CountTrues(danglingA)
    ensures ok ==> danglingRight == Dangling(keysB, keysA) && countB == CountTrues(danglingRight)
  {
    ok, lists, danglingA, danglingRight := true, seq(|keysB|, _ => []), [], UnseenChunks(keysB, {});
    countA, countB := RowsOf(keysA), RowsOf(keysB);
    AllDangling(keysB);
    NoLists(keysA, keysB, lists);
    for i := 0 to |keysA|
      invariant !ReadsEmptyChunk(keysA[..i], keysB)
      invariant ListsAt(keysA, keysB, i, 0, lists)
      invariant danglingA == UnseenChunks(keysA[..i], AllValues(keysB))
      invariant danglingRight == UnseenChunks(keysB, AllValues(keysA[..i]))
      invariant countB == CountTrues(danglingRight)
      invariant countA - CountTrues(danglingA) == RowsOf(keysA) - RowsOf(keysA[..i])
    {
      var danglingLeft;
      ok, lists, danglingLeft, danglingRight, countA, countB :=
        MergeLeftChunk(keysA, i, keysB, lists, danglingRight, countA, countB);
      ReadsEmptySnoc(keysA, i, keysB);
      if !ok {
        return;
      }
      DanglingASnoc(keysA, i, AllValues(keysB), danglingA, danglingLeft);
      danglingA := danglingA + [danglingLeft];
    }
    TakeAll(keysA);
  }

  /** SortedMergeJoinOperator::FillPositionLists; `ok` is false where the code throws std::out_of_range. */
  method MergeFill(keysA: Keys, keysB: Keys) returns (ok: bool, f: Filled)
    requires SortedChunks(keysA) && SortedChunks(keysB)
    ensures ok <==> !ReadsEmptyChunk(keysA, keysB)
    ensures ok ==> IsFilled(f, keysA, keysB)
  {
    var lists, danglingA, danglingRight, countA, countB;
    ok, lists, danglingA, danglingRight, countA, countB := MergeChunks(keysA, keysB);
    if !ok {
      return false, Filled([], [], 0, [], 0);
    }
    var offsets := CollectAllOffsets(danglingRight);
    assert offsets == DanglingOffsets(keysB, keysA);
    AllChunksDone(keysA, keysB, lists);
    f := Filled(lists, danglingA, countA, offsets, countB);
  }

  lemma ReadsEmptySnoc(keysA: Keys, i: nat, keysB: Keys)
    requires i < |keysA|
    ensures ReadsEmptyChunk(keysA[..i + 1], keysB) <==>
            ReadsEmptyChunk(keysA[..i], keysB) || (keysA[i] == [] && HasRow(keysB))
    ensures ReadsEmptyChunk(keysA[..i + 1], keysB) ==> ReadsEmptyChunk(keysA, keysB)
  {
    TakeNext(keysA, i);
    assert keysA == keysA[..i + 1] + keysA[i + 1..];
  }

  lemma DanglingASnoc(keysA: Keys, i: nat, seen: set<Value>, danglingA: seq<seq<bool>>, danglingLeft: seq<bool>)
    requires i < |keysA|
    requires danglingA == UnseenChunks(keysA[..i], seen) && danglingLeft == Unseen(keysA[i], seen)
    ensures danglingA + [danglingLeft] == UnseenChunks(keysA[..i + 1], seen)
    ensures CountTrues(danglingA + [danglingLeft]) == CountTrues(danglingA) + CountTrue(danglingLeft)
    ensures RowsOf(keysA[..i + 1]) == RowsOf(keysA[..i]) + |keysA[i]|
  {
    CountTruesSnoc(danglingA, danglingLeft);
    RowsOfSnoc(keysA, i);
  }

  lemma RowsOfSnoc(keys: Keys, i: nat)
    requires i < |keys|
    ensures RowsOf(keys[..i + 1]) == RowsOf(keys[..i]) + |keys[i]|
  {
    assert Sizes(keys[..i + 1])[..i] == Sizes(keys[..i]);
  }

  lemma AllChunksDone(keysA: Keys, keysB: Keys, lists: seq<seq<Match>>)
    requires ListsAt(keysA, keysB, |keysA|, 0, lists)
    ensures MatchLists(keysA, keysB, lists)
  {
    forall j | 0 <= j < |keysB|
      ensures MatchList(keysA, keysB[j], lists[j])
    {
      assert ListBefore(keysA, keysB[j], Reached(|keysA|, 0, j), lists[j]);
    }
  }
}
