/** AggregateHashOperator: lookup of a row's result with the cached or immediate index in the key, one pass per
    aggregate and chunk, and the output of the results. */
module AggregateHash {
  import opened Sequences
  import opened Storage
  import opened Aggregates
  import opened GroupKeys

  /** An AggregateKey: one entry per GROUP BY column; the first one can hold a cached index. */
  type Key = k: seq<Entry> | k != [] witness [0]

  datatype Witness = NoRow | SomeRow(id: RowId)

  datatype AggregateResult = AggregateResult(accumulator: Accumulator, count: nat, row: Witness)

  datatype Context = Context(f: AggregateFunction, results: seq<AggregateResult>, ids: map<Key, nat>)

  function Blank(f: AggregateFunction): AggregateResult {
    AggregateResult(Init(f), 0, NoRow)
  }

  function Blanks(f: AggregateFunction, n: nat): (r: seq<AggregateResult>)
    ensures |r| == n && forall k :: 0 <= k < n ==> r[k] == Blank(f)
  {
    seq(n, _ => Blank(f))
  }

  // ----- keys with a cached index -----

  predicate Cached(key: Key) {
    key[0] >= CACHE_MASK
  }

  function CachedId(key: Key): nat
    requires Cached(key)
  {
    key[0] - CACHE_MASK
  }

  function WithCachedId(key: Key, id: nat): Key {
    key[0 := CACHE_MASK + id]
  }

  // ----- what a context represents -----

  /** The non-NULL values of group g among the rows ps, in order, with their rows. */
  ghost function GroupPairs(keyOf: RowId -> Key, cellOf: RowId -> Cell, ps: seq<RowId>, g: Key): seq<Pair> {
    if ps == [] then []
    else
      var front, p := GroupPairs(keyOf, cellOf, ps[..|ps| - 1], g), ps[|ps| - 1];
      if keyOf(p) == g && cellOf(p).Val? then front + [Pair(p, cellOf(p).v)] else front
  }

  ghost predicate Holds(r: AggregateResult, f: AggregateFunction, keyOf: RowId -> Key, cellOf: RowId -> Cell,
                        ps: seq<RowId>, g: Key) {
    var pairs := GroupPairs(keyOf, cellOf, ps, g);
    r.accumulator == Fold(f, pairs) && r.count == |pairs| && r.row.SomeRow? && r.row.id in ps && keyOf(r.row.id) == g
  }

  ghost predicate Injective(idOf: map<Key, nat>) {
    forall g, h :: g in idOf && h in idOf && idOf[g] == idOf[h] ==> g == h
  }

  /** Each group of the rows ps has its result at its index; every other result is blank. */
  ghost predicate Represents(f: AggregateFunction, results: seq<AggregateResult>, idOf: map<Key, nat>,
                             keyOf: RowId -> Key, cellOf: RowId -> Cell, ps: seq<RowId>) {
    && (forall p :: p in ps ==>
          (keyOf(p) in idOf && idOf[keyOf(p)] < |results| &&
           Holds(results[idOf[keyOf(p)]], f, keyOf, cellOf, ps, keyOf(p))))
    && (forall r :: 0 <= r < |results| && results[r] != Blank(f) ==> exists p :: p in ps && idOf[keyOf(p)] == r)
  }

  lemma RepresentsNothing(f: AggregateFunction, idOf: map<Key, nat>, keyOf: RowId -> Key, cellOf: RowId -> Cell, n: nat)
    ensures Represents(f, Blanks(f, n), idOf, keyOf, cellOf, [])
  {}

  /** Over-allocating results changes nothing. */
  lemma RepresentsPadded(f: AggregateFunction, results: seq<AggregateResult>, idOf: map<Key, nat>,
                         keyOf: RowId -> Key, cellOf: RowId -> Cell, ps: seq<RowId>, n: nat)
    requires Represents(f, results, idOf, keyOf, cellOf, ps)
    ensures Represents(f, results + Blanks(f, n), idOf, keyOf, cellOf, ps)
  {
    var padded := results + Blanks(f, n);
    forall r | 0 <= r < |padded| && padded[r] != Blank(f)
      ensures exists p :: p in ps && idOf[keyOf(p)] == r
    {
      assert padded[r] == results[r];
    }
  }

  ghost predicate Grows(idOf: map<Key, nat>, more: map<Key, nat>) {
    forall g :: g in idOf ==> g in more && more[g] == idOf[g]
  }

  lemma RepresentsMoreIds(f: AggregateFunction, results: seq<AggregateResult>, idOf: map<Key, nat>, more: map<Key, nat>,
                          keyOf: RowId -> Key, cellOf: RowId -> Cell, ps: seq<RowId>)
    requires Represents(f, results, idOf, keyOf, cellOf, ps) && Grows(idOf, more)
    ensures Represents(f, results, more, keyOf, cellOf, ps)
  {
    forall r | 0 <= r < |results| && results[r] != Blank(f)
      ensures exists p :: p in ps && more[keyOf(p)] == r
    {
      var p :| p in ps && idOf[keyOf(p)] == r;
      assert more[keyOf(p)] == r;
    }
  }

  /** The effect of one row on its result. */
  function Update(f: AggregateFunction, r: AggregateResult, p: RowId, cell: Cell): AggregateResult {
    match cell
    case Null => r
    case Val(v) => r.(accumulator := Step(f, r.accumulator, r.count, Pair(p, v)), count := r.count + 1)
  }

  lemma GroupPairsSnoc(keyOf: RowId -> Key, cellOf: RowId -> Cell, ps: seq<RowId>, p: RowId, g: Key)
    ensures GroupPairs(keyOf, cellOf, ps + [p], g) ==
            GroupPairs(keyOf, cellOf, ps, g) + if keyOf(p) == g && cellOf(p).Val? then [Pair(p, cellOf(p).v)] else []
  {
    assert (ps + [p])[..|ps|] == ps;
  }

  lemma {:induction false} NoGroupPairs(keyOf: RowId -> Key, cellOf: RowId -> Cell, ps: seq<RowId>, g: Key)
    requires forall p :: p in ps ==> keyOf(p) != g
    ensures GroupPairs(keyOf, cellOf, ps, g) == []
  {
    if ps != [] {
      assert ps[|ps| - 1] in ps;
      NoGroupPairs(keyOf, cellOf, ps[..|ps| - 1], g);
    }
  }

  lemma UpdateHolds(f: AggregateFunction, r: AggregateResult, keyOf: RowId -> Key, cellOf: RowId -> Cell,
                    ps: seq<RowId>, p: RowId, w: RowId)
    requires var pairs := GroupPairs(keyOf, cellOf, ps, keyOf(p)); r.accumulator == Fold(f, pairs) && r.count == |pairs|
    requires w in ps + [p] && keyOf(w) == keyOf(p)
    ensures Holds(Update(f, r.(row := SomeRow(w)), p, cellOf(p)), f, keyOf, cellOf, ps + [p], keyOf(p))
  {
    GroupPairsSnoc(keyOf, cellOf, ps, p, keyOf(p));
    if cellOf(p).Val? {
      FoldSnoc(f, GroupPairs(keyOf, cellOf, ps, keyOf(p)), Pair(p, cellOf(p).v));
    }
  }

  lemma OtherHolds(f: AggregateFunction, r: AggregateResult, keyOf: RowId -> Key, cellOf: RowId -> Cell,
                   ps: seq<RowId>, p: RowId, g: Key)
    requires Holds(r, f, keyOf, cellOf, ps, g) && keyOf(p) != g
    ensures Holds(r, f, keyOf, cellOf, ps + [p], g)
  {
    GroupPairsSnoc(keyOf, cellOf, ps, p, g);
  }

  /** One row: its group's result is updated, the others stay. */
  lemma RepresentsNext(f: AggregateFunction, results: seq<AggregateResult>, idOf: map<Key, nat>,
                       keyOf: RowId -> Key, cellOf: RowId -> Cell, ps: seq<RowId>, p: RowId, r: AggregateResult)
    requires Represents(f, results, idOf, keyOf, cellOf, ps) && Injective(idOf)
    requires keyOf(p) in idOf && idOf[keyOf(p)] < |results|
    requires Holds(r, f, keyOf, cellOf, ps + [p], keyOf(p))
    ensures Represents(f, results[idOf[keyOf(p)] := r], idOf, keyOf, cellOf, ps + [p])
  {
    var id := idOf[keyOf(p)];
    var after := results[id := r];
    forall q | q in ps + [p]
      ensures keyOf(q) in idOf && idOf[keyOf(q)] < |after|
      ensures Holds(after[idOf[keyOf(q)]], f, keyOf, cellOf, ps + [p], keyOf(q))
    {
      if keyOf(q) != keyOf(p) {
        assert q in ps;
        OtherHolds(f, results[idOf[keyOf(q)]], keyOf, cellOf, ps, p, keyOf(q));
      }
    }
    NonBlankStay(f, results, idOf, keyOf, ps, p, r);
  }

  lemma NonBlankStay(f: AggregateFunction, results: seq<AggregateResult>, idOf: map<Key, nat>,
                     keyOf: RowId -> Key, ps: seq<RowId>, p: RowId, r: AggregateResult)
    requires forall q :: q in ps + [p] ==> keyOf(q) in idOf
    requires keyOf(p) in idOf && idOf[keyOf(p)] < |results|
    requires forall k :: 0 <= k < |results| && results[k] != Blank(f) ==> exists q :: q in ps && idOf[keyOf(q)] == k
    ensures var after := results[idOf[keyOf(p)] := r];
            forall k :: 0 <= k < |after| && after[k] != Blank(f) ==> exists q :: q in ps + [p] && idOf[keyOf(q)] == k
  {
    var after := results[idOf[keyOf(p)] := r];
    forall k | 0 <= k < |after| && after[k] != Blank(f)
      ensures exists q :: q in ps + [p] && idOf[keyOf(q)] == k
    {
      if k == idOf[keyOf(p)] {
        assert p in ps + [p];
      } else {
        var q :| q in ps && idOf[keyOf(q)] == k;
        assert q in ps + [p];
      }
    }
  }

  // ----- one row -----

  function WithRow(results: seq<AggregateResult>, id: nat, row: RowId): seq<AggregateResult>
    requires id < |results|
  {
    results[id := results[id].(row := SomeRow(row))]
  }

  /** GetOrAddResult: the index of the row's result; `ok` is false where the assertion on uncached keys fails. */
  method GetOrAddResult(cache: bool, context: Context, key: Key, row: RowId)
    returns (ok: bool, after: Context, keyAfter: Key, id: nat, ghost grown: nat)
    requires !Cached(key) && key in context.ids ==> context.ids[key] < |context.results|
    ensures ok <==> cache || !Cached(key)
    ensures ok ==> after.f == context.f && id < |after.results|
    ensures ok && Cached(key) ==>
              id == CachedId(key) < |context.results| + grown && keyAfter == key && after.ids == context.ids
    ensures ok && Cached(key) ==> after.results == WithRow(context.results + Blanks(context.f, grown), id, row)
    ensures ok && !Cached(key) ==> key in after.ids && id == after.ids[key]
    ensures ok && !Cached(key) ==> keyAfter == if cache then WithCachedId(key, id) else key
    ensures ok && !Cached(key) && key in context.ids ==> after == context
    ensures ok && !Cached(key) && key !in context.ids ==>
              id == |context.results| && after.ids == context.ids[key := id] &&
              after.results == WithRow(context.results + Blanks(context.f, 1), id, row)
  {
    ok, after, keyAfter, id, grown := true, context, key, 0, 0;
    if cache {
      if Cached(key) {
        id := CachedId(key);
        var results := context.results;
        if id >= |results| {
          grown := (id + 1) * 3 / 2 - |results|;
          results := results + Blanks(context.f, (id + 1) * 3 / 2 - |results|);
        }
        assert results == context.results + Blanks(context.f, grown);
        after := context.(results := results[id := results[id].(row := SomeRow(row))]);
        return;
      }
    } else if Cached(key) {
      return false, context, key, 0, 0;
    }
    if key in context.ids {
      id := context.ids[key];
    } else {
      id := |context.results|;
      after := context.(ids := context.ids[key := id],
                        results := context.results + [Blank(context.f).(row := SomeRow(row))]);
    }
    if cache {
      keyAfter := WithCachedId(key, id);
    }
  }

  /** A row's key is still the original one, or already holds the index of its group. */
  ghost predicate KeyState(key: Key, original: Key, idOf: map<Key, nat>) {
    if Cached(key) then original in idOf && CachedId(key) == idOf[original] else key == original
  }

  /** Lookups go through the id map of this context, which is where the group indexes come from. */
  ghost predicate LooksUp(context: Context, idOf: map<Key, nat>, keyOf: RowId -> Key, ps: seq<RowId>) {
    context.ids == idOf &&
    forall g :: g in idOf ==> idOf[g] < |context.results| && exists q :: q in ps && keyOf(q) == g
  }

  /** After a lookup that found the group: one more row of a known group. */
  lemma FoundRow(context: Context, idOf: map<Key, nat>, keyOf: RowId -> Key, cellOf: RowId -> Cell, ps: seq<RowId>,
                 p: RowId)
    requires Represents(context.f, context.results, idOf, keyOf, cellOf, ps) && Injective(idOf)
    requires LooksUp(context, idOf, keyOf, ps) && keyOf(p) in idOf
    ensures var id := idOf[keyOf(p)];
            var result := Update(context.f, context.results[id], p, cellOf(p));
            var after := context.(results := context.results[id := result]);
            && Represents(after.f, after.results, idOf, keyOf, cellOf, ps + [p])
            && LooksUp(after, idOf, keyOf, ps + [p])
  {
    var id := idOf[keyOf(p)];
    var q :| q in ps && keyOf(q) == keyOf(p);
    assert Holds(context.results[id], context.f, keyOf, cellOf, ps, keyOf(q));
    FinishRow(context.f, context.results, idOf, keyOf, cellOf, ps, p, context.results[id].row.id);
    forall g | g in idOf
      ensures exists q :: q in ps + [p] && keyOf(q) == g
    {
      var q :| q in ps && keyOf(q) == g;
      assert q in ps + [p];
    }
  }

  lemma AddedRepresents(f: AggregateFunction, results: seq<AggregateResult>, idOf: map<Key, nat>, ids: map<Key, nat>,
                        keyOf: RowId -> Key, cellOf: RowId -> Cell, ps: seq<RowId>, p: RowId)
    requires Represents(f, results, idOf, keyOf, cellOf, ps)
    requires Grows(idOf, ids) && Injective(ids) && keyOf(p) in ids && ids[keyOf(p)] == |results|
    ensures var added := WithRow(results + Blanks(f, 1), |results|, p);
            Represents(f, added[|results| := Update(f, added[|results|], p, cellOf(p))], ids, keyOf, cellOf, ps + [p])
  {
    RepresentsMoreIds(f, results, idOf, ids, keyOf, cellOf, ps);
    RepresentsPadded(f, results, ids, keyOf, cellOf, ps, 1);
    FinishRow(f, results + Blanks(f, 1), ids, keyOf, cellOf, ps, p, p);
  }

  /** After a lookup that added the group. */
  lemma NewRow(context: Context, idOf: map<Key, nat>, keyOf: RowId -> Key, cellOf: RowId -> Cell, ps: seq<RowId>,
               p: RowId)
    requires Represents(context.f, context.results, idOf, keyOf, cellOf, ps) && Injective(idOf)
    requires LooksUp(context, idOf, keyOf, ps) && keyOf(p) !in idOf
    ensures var id := |context.results|;
            var ids := idOf[keyOf(p) := id];
            var added := WithRow(context.results + Blanks(context.f, 1), id, p);
            var after := context.(ids := ids, results := added[id := Update(context.f, added[id], p, cellOf(p))]);
            && Represents(after.f, after.results, ids, keyOf, cellOf, ps + [p])
            && LooksUp(after, ids, keyOf, ps + [p]) && Injective(ids) && Grows(idOf, ids)
  {
    NewId(context, idOf, keyOf, ps, p);
    AddedRepresents(context.f, context.results, idOf, idOf[keyOf(p) := |context.results|], keyOf, cellOf, ps, p);
  }

  lemma NewId(context: Context, idOf: map<Key, nat>, keyOf: RowId -> Key, ps: seq<RowId>, p: RowId)
    requires LooksUp(context, idOf, keyOf, ps) && keyOf(p) !in idOf && Injective(idOf)
    ensures var ids := idOf[keyOf(p) := |context.results|];
            && Injective(ids) && Grows(idOf, ids)
            && forall g :: g in ids ==> ids[g] < |context.results| + 1 && exists q :: q in ps + [p] && keyOf(q) == g
  {
    var ids := idOf[keyOf(p) := |context.results|];
    forall g | g in ids
      ensures exists q :: q in ps + [p] && keyOf(q) == g
    {
      if g == keyOf(p) {
        assert p in ps + [p];
      } else {
        var q :| q in ps && keyOf(q) == g;
        assert q in ps + [p];
      }
    }
  }

  /** A row whose key holds its index; the results may have been grown first. */
  lemma CachedRow(f: AggregateFunction, results: seq<AggregateResult>, grown: nat, idOf: map<Key, nat>,
                  keyOf: RowId -> Key, cellOf: RowId -> Cell, ps: seq<RowId>, p: RowId)
    requires Represents(f, results, idOf, keyOf, cellOf, ps) && Injective(idOf)
    requires keyOf(p) in idOf && idOf[keyOf(p)] < |results| + grown
    ensures var id := idOf[keyOf(p)];
            var found := WithRow(results + Blanks(f, grown), id, p);
            Represents(f, found[id := Update(f, found[id], p, cellOf(p))], idOf, keyOf, cellOf, ps + [p])
  {
    RepresentsPadded(f, results, idOf, keyOf, cellOf, ps, grown);
    FinishRow(f, results + Blanks(f, grown), idOf, keyOf, cellOf, ps, p, p);
  }

  /** The lookup and the aggregator call for one row, which fails on a value that the aggregator refuses. */
  method ProcessRow(cache: bool, context: Context, key: Key, p: RowId, cell: Cell,
                    ghost keyOf: RowId -> Key, ghost cellOf: RowId -> Cell, ghost idOf: map<Key, nat>,
                    ghost ps: seq<RowId>)
    returns (ok: bool, after: Context, keyAfter: Key, ghost ids: map<Key, nat>)
    requires Represents(context.f, context.results, idOf, keyOf, cellOf, ps) && Injective(idOf)
    requires !Cached(keyOf(p)) && cellOf(p) == cell && KeyState(key, keyOf(p), idOf)
    requires Cached(key) ==> cache
    requires !Cached(key) ==> LooksUp(context, idOf, keyOf, ps)
    ensures ok <==> !Refuses(context.f, cell)
    ensures after.f == context.f
    ensures ok ==> Represents(after.f, after.results, ids, keyOf, cellOf, ps + [p])
    ensures ok ==> Injective(ids) && Grows(idOf, ids) && keyOf(p) in ids
    ensures ok ==> KeyState(keyAfter, keyOf(p), ids) && (Cached(keyAfter) <==> cache)
    ensures ok && Cached(key) ==> ids == idOf
    ensures ok && !Cached(key) ==> LooksUp(after, ids, keyOf, ps + [p])
  {
    if Cached(key) {
      ids := idOf;
    } else if key in context.ids {
      ids := idOf;
      FoundRow(context, idOf, keyOf, cellOf, ps, p);
    } else {
      ids := idOf[key := |context.results|];
      NewRow(context, idOf, keyOf, cellOf, ps, p);
    }
    var found, id;
    ghost var grown;
    ok, found, keyAfter, id, grown := GetOrAddResult(cache, context, key, p);
    if Refuses(context.f, cell) {
      ok, after := false, found;
      return;
    }
    after := found.(results := found.results[id := Update(found.f, found.results[id], p, cell)]);
    if Cached(key) {
      CachedRow(context.f, context.results, grown, idOf, keyOf, cellOf, ps, p);
    }
  }

  /** Updating the result of p's group, with w as its witness row. */
  lemma FinishRow(f: AggregateFunction, results: seq<AggregateResult>, ids: map<Key, nat>, keyOf: RowId -> Key,
                  cellOf: RowId -> Cell, ps: seq<RowId>, p: RowId, w: RowId)
    requires Represents(f, results, ids, keyOf, cellOf, ps) && Injective(ids)
    requires keyOf(p) in ids && ids[keyOf(p)] < |results|
    requires w in ps + [p] && keyOf(w) == keyOf(p)
    ensures var id := ids[keyOf(p)];
            Represents(f, results[id := Update(f, results[id].(row := SomeRow(w)), p, cellOf(p))], ids, keyOf, cellOf,
                       ps + [p])
  {
    var id := ids[keyOf(p)];
    if q :| q in ps && keyOf(q) == keyOf(p) {
      assert Holds(results[id], f, keyOf, cellOf, ps, keyOf(q));
    } else {
      assert forall q :: q in ps ==> keyOf(q) in ids && ids[keyOf(q)] != id;
      assert results[id] == Blank(f);
      NoGroupPairs(keyOf, cellOf, ps, keyOf(p));
    }
    UpdateHolds(f, results[id], keyOf, cellOf, ps, p, w);
    RepresentsNext(f, results, ids, keyOf, cellOf, ps, p, Update(f, results[id].(row := SomeRow(w)), p, cellOf(p)));
  }
}
