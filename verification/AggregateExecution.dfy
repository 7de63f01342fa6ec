/** AggregateHashOperator::OnExecute: key construction, passes and output put together. */
module AggregateExecution {
  import opened Sequences
  import opened Storage
  import opened Aggregates
  import opened GroupKeys
  import opened AggregateHash
  import opened AggregatePasses
  import opened AggregateOperator
  import opened AggregateOutput
  import PlainGroupBy

  // ----- keys of all rows -----

  predicate SameShape(keys: seq<seq<Key>>, sizes: seq<nat>, width: nat) {
    && Sizes(keys) == sizes
    && forall i, k :: 0 <= i < |keys| && 0 <= k < |keys[i]| ==> |keys[i][k]| == width
  }

  function KeyAt(keys: seq<seq<Key>>, p: RowId): Key
    requires InRange(p, Sizes(keys))
  {
    keys[p.chunk][p.offset]
  }

  /** Entry g of every key is that of the given column. */
  ghost predicate Stored(keys: seq<seq<Key>>, column: Entries, g: nat) {
    |column| == |keys| &&
    forall i, k :: 0 <= i < |keys| && 0 <= k < |keys[i]| ==>
      g < |keys[i][k]| && k < |column[i]| && keys[i][k][g] == column[i][k]
  }

  /** The first entries of every key are those of the given columns. */
  ghost predicate Filled(keys: seq<seq<Key>>, entries: seq<Entries>) {
    forall g :: 0 <= g < |entries| ==> Stored(keys, entries[g], g)
  }

  method ZeroKeys(sizes: seq<nat>, width: nat) returns (keys: seq<seq<Key>>)
    requires width > 0
    ensures SameShape(keys, sizes, width) && Filled(keys, [])
  {
    var zero: Key := seq(width, _ => 0);
    keys := seq(|sizes|, i requires 0 <= i < |sizes| => seq(sizes[i], _ => zero));
  }

  /** Writes component g of every key of a chunk. */
  method StoreChunk(keys: seq<Key>, entries: seq<Entry>, g: nat) returns (r: seq<Key>)
    requires |keys| == |entries| && forall k :: 0 <= k < |keys| ==> g < |keys[k]|
    ensures |r| == |keys| && forall k :: 0 <= k < |keys| ==> r[k] == keys[k][g := entries[k]]
  {
    r := keys;
    for k := 0 to |keys|
      invariant |r| == |keys|
      invariant forall m :: 0 <= m < k ==> r[m] == keys[m][g := entries[m]]
      invariant forall m :: k <= m < |keys| ==> r[m] == keys[m]
    {
      r := r[k := r[k][g := entries[k]]];
    }
  }

  /** The keys of the first chunks with entry g written. */
  ghost predicate StoredUpTo(keys: seq<seq<Key>>, column: Entries, g: nat, r: seq<seq<Key>>) {
    |r| <= |keys| == |column| && forall i :: 0 <= i < |r| ==> StoredChunk(keys[i], column[i], g, r[i])
  }

  ghost predicate StoredChunk(keys: seq<Key>, entries: seq<Entry>, g: nat, r: seq<Key>) {
    |r| == |keys| == |entries| && forall k :: 0 <= k < |keys| ==> g < |keys[k]| && r[k] == keys[k][g := entries[k]]
  }

  method StoreColumn(keys: seq<seq<Key>>, column: Entries, g: nat, ghost sizes: seq<nat>, ghost width: nat,
                     ghost entries: seq<Entries>)
    returns (r: seq<seq<Key>>)
    requires SameShape(keys, sizes, width) && Sizes(column) == sizes && g == |entries| < width
    requires Filled(keys, entries)
    ensures SameShape(r, sizes, width) && Filled(r, entries + [column])
  {
    r := [];
    assert |Sizes(keys)| == |keys| && |Sizes(column)| == |column|;
    for i := 0 to |keys|
      invariant |r| == i && StoredUpTo(keys, column, g, r)
    {
      assert Sizes(keys)[i] == Sizes(column)[i];
      var chunk := StoreChunk(keys[i], column[i], g);
      assert StoredChunk(keys[i], column[i], g, chunk);
      r := r + [chunk];
    }
    StoredShape(keys, column, g, r, sizes, width);
    StoredFilled(keys, column, entries, r);
  }

  lemma StoredShape(keys: seq<seq<Key>>, column: Entries, g: nat, r: seq<seq<Key>>, sizes: seq<nat>, width: nat)
    requires SameShape(keys, sizes, width) && StoredUpTo(keys, column, g, r) && |r| == |keys|
    ensures SameShape(r, sizes, width)
  {
    forall i | 0 <= i < |keys|
      ensures |r[i]| == |keys[i]| && forall k :: 0 <= k < |r[i]| ==> |r[i][k]| == width
    {
      assert StoredChunk(keys[i], column[i], g, r[i]);
    }
    assert Sizes(r) == Sizes(keys);
  }

  lemma StoredFilled(keys: seq<seq<Key>>, column: Entries, entries: seq<Entries>, r: seq<seq<Key>>)
    requires Filled(keys, entries) && StoredUpTo(keys, column, |entries|, r) && |r| == |keys|
    ensures Filled(r, entries + [column])
  {
    forall g | 0 <= g < |entries + [column]|
      ensures Stored(r, (entries + [column])[g], g)
    {
      if g < |entries| {
        StoredElsewhere(keys, column, |entries|, r, entries[g], g);
      } else {
        StoredHere(keys, column, |entries|, r);
      }
    }
  }

  lemma StoredHere(keys: seq<seq<Key>>, column: Entries, g: nat, r: seq<seq<Key>>)
    requires StoredUpTo(keys, column, g, r) && |r| == |keys|
    ensures Stored(r, column, g)
  {
    forall i, k | 0 <= i < |r| && 0 <= k < |r[i]|
      ensures g < |r[i][k]| && k < |column[i]| && r[i][k][g] == column[i][k]
    {
      assert StoredChunk(keys[i], column[i], g, r[i]);
    }
  }

  lemma StoredElsewhere(keys: seq<seq<Key>>, column: Entries, g: nat, r: seq<seq<Key>>, other: Entries, h: nat)
    requires StoredUpTo(keys, column, g, r) && |r| == |keys| && Stored(keys, other, h) && h != g
    ensures Stored(r, other, h)
  {
    forall i, k | 0 <= i < |r| && 0 <= k < |r[i]|
      ensures h < |r[i][k]| && k < |other[i]| && r[i][k][h] == other[i][k]
    {
      assert StoredChunk(keys[i], column[i], g, r[i]);
    }
  }

  lemma StoredAt(keys: seq<seq<Key>>, entries: seq<Entries>, g: nat, p: RowId)
    requires Filled(keys, entries) && g < |entries| && InRange(p, Sizes(keys)) && InRange(p, Sizes(entries[g]))
    ensures g < |KeyAt(keys, p)| && KeyAt(keys, p)[g] == EntryIn(entries[g], p)
  {
    assert Stored(keys, entries[g], g);
  }

  /** The key of a row position, total for use as a grouping function. */
  function KeyFunction(keys: seq<seq<Key>>): RowId -> Key {
    p => if InRange(p, Sizes(keys)) then KeyAt(keys, p) else [0]
  }

  ghost predicate ColumnsDistinguished(t: Table, columns: seq<nat>, entries: seq<Entries>)
    requires ValidTable(t)
  {
    |entries| <= |columns| &&
    forall g :: 0 <= g < |entries| ==>
      columns[g] < |t.definitions| && Distinguishes(ColumnCells(t, columns[g]), entries[g])
  }

  /** Component-wise distinguishing keys tell the groups apart. */
  lemma KeysTellGroups(t: Table, columns: seq<nat>, entries: seq<Entries>, keys: seq<seq<Key>>)
    requires ValidTable(t) && |entries| == |columns| && ColumnsDistinguished(t, columns, entries)
    requires SameShape(keys, ChunkSizes(t), |columns|) && Filled(keys, entries)
    ensures KeysMatchGroups(t, columns, KeyFunction(keys))
  {
    forall p, q | InRange(p, ChunkSizes(t)) && InRange(q, ChunkSizes(t))
      ensures KeyFunction(keys)(p) == KeyFunction(keys)(q) <==> GroupRow(t, columns, p) == GroupRow(t, columns, q)
    {
      forall g | 0 <= g < |columns|
        ensures KeyAt(keys, p)[g] == KeyAt(keys, q)[g] <==> GroupRow(t, columns, p)[g] == GroupRow(t, columns, q)[g]
      {
        CellSizes(t, columns[g]);
        var cells := ColumnCells(t, columns[g]);
        assert CellIn(cells, p) == CellAt(t, p, columns[g]) && CellIn(cells, q) == CellAt(t, q, columns[g]);
        assert EntryIn(entries[g], p) == EntryIn(entries[g], q) <==> CellIn(cells, p) == CellIn(cells, q);
        StoredAt(keys, entries, g, p);
        StoredAt(keys, entries, g, q);
      }
      if KeyAt(keys, p) != KeyAt(keys, q) {
        var g :| 0 <= g < |columns| && KeyAt(keys, p)[g] != KeyAt(keys, q)[g];
        assert GroupRow(t, columns, p)[g] != GroupRow(t, columns, q)[g];
      }
    }
  }

  lemma KeysUncached(t: Table, columns: seq<nat>, entries: seq<Entries>, keys: seq<seq<Key>>)
    requires ValidTable(t) && columns != [] && |entries| == |columns| && ColumnsDistinguished(t, columns, entries)
    requires SameShape(keys, ChunkSizes(t), |columns|) && Filled(keys, entries)
    ensures forall p :: !Cached(KeyFunction(keys)(p))
    ensures KeysFit(keys, KeyFunction(keys), map[], false)
  {
    forall p: RowId
      ensures !Cached(KeyFunction(keys)(p))
    {
      if InRange(p, ChunkSizes(t)) {
        CellSizes(t, columns[0]);
        assert EntryIn(entries[0], p) < CACHE_MASK;
        StoredAt(keys, entries, 0, p);
      }
    }
    forall i, j: nat | 0 <= i < |keys| && j < |keys[i]|
      ensures keys[i][j] == KeyFunction(keys)(RowId(i, j))
    {
      assert InRange(RowId(i, j), Sizes(keys));
    }
  }

  // ----- the immediate shortcut -----

  ghost function ImmediateIds(keys: seq<seq<Key>>, minKey: Entry): (r: map<Key, nat>)
  {
    map g | g in set p | p in Positions(Sizes(keys)) :: KeyFunction(keys)(p) ::
      if g[0] == 0 || minKey <= g[0] then ImmediateIndex(g[0], minKey) else 0
  }

  /** Single-entry keys and their immediate indexes correspond one to one. */
  lemma ImmediateInjective(keys: seq<seq<Key>>, entries: Entries, minKey: Entry, maxKey: Entry)
    requires SameShape(keys, Sizes(entries), 1) && Filled(keys, [entries])
    requires Bounds(entries, minKey, maxKey) && minKey <= maxKey
    ensures Injective(ImmediateIds(keys, minKey))
    ensures forall p :: InRange(p, Sizes(keys)) ==>
              var g := KeyFunction(keys)(p);
              g in ImmediateIds(keys, minKey) && g == [EntryIn(entries, p)] &&
              (g[0] == 0 || minKey <= g[0] <= maxKey) && ImmediateIds(keys, minKey)[g] == ImmediateIndex(g[0], minKey)
  {
    var ids := ImmediateIds(keys, minKey);
    forall p: RowId | InRange(p, Sizes(keys))
      ensures var g := KeyFunction(keys)(p);
              g in ids && g == [EntryIn(entries, p)] && (g[0] == 0 || minKey <= g[0] <= maxKey)
    {
      assert p in Positions(Sizes(keys));
      StoredAt(keys, [entries], 0, p);
    }
    forall g, h | g in ids && h in ids && ids[g] == ids[h]
      ensures g == h
    {
      var p :| p in Positions(Sizes(keys)) && KeyFunction(keys)(p) == g;
      var q :| q in Positions(Sizes(keys)) && KeyFunction(keys)(q) == h;
      assert InRange(p, Sizes(keys)) && InRange(q, Sizes(keys));
      ImmediateExact(g[0], h[0], minKey, maxKey);
    }
  }

  method SingleKeys(entries: Entries) returns (keys: seq<seq<Key>>)
    ensures SameShape(keys, Sizes(entries), 1)
    ensures forall i, k :: 0 <= i < |keys| && 0 <= k < |keys[i]| ==> keys[i][k] == [entries[i][k]]
  {
    keys := seq(|entries|, i requires 0 <= i < |entries| =>
      seq(|entries[i]|, k requires 0 <= k < |entries[i]| => [entries[i][k]]));
  }

  lemma RewrittenKeys(keys: seq<seq<Key>>, entries: Entries, minKey: Entry, maxKey: Entry, r: seq<seq<Key>>)
    requires SameShape(keys, Sizes(entries), 1) && Filled(keys, [entries])
    requires Bounds(entries, minKey, maxKey) && minKey <= maxKey
    requires forall p :: !Cached(KeyFunction(keys)(p))
    requires Sizes(r) == Sizes(entries)
    requires forall i, k :: 0 <= i < |entries| && 0 <= k < |entries[i]| ==>
               (entries[i][k] == 0 || minKey <= entries[i][k]) && r[i][k] == [Rewritten(entries[i][k], minKey)]
    ensures KeysFit(r, KeyFunction(keys), ImmediateIds(keys, minKey), true)
  {
    ImmediateInjective(keys, entries, minKey, maxKey);
    forall i, j: nat | 0 <= i < |r| && j < |r[i]|
      ensures KeyState(r[i][j], KeyFunction(keys)(RowId(i, j)), ImmediateIds(keys, minKey)) && Cached(r[i][j])
    {
      var p := RowId(i, j);
      assert Sizes(r)[i] == Sizes(entries)[i] == Sizes(keys)[i];
      assert InRange(p, Sizes(keys));
      assert KeyFunction(keys)(p) == [EntryIn(entries, p)];
    }
  }

  // ----- the passes -----

  method RunPasses(t: Table, columns: seq<nat>, aggregates: seq<AggregateExpression>, started: seq<Context>,
                   keys: seq<seq<Key>>, ghost size: nat, immediate: bool, ghost keyOf: RowId -> Key,
                   ghost ids: map<Key, nat>)
    returns (ok: bool, contexts: seq<Context>, ghost idOf: map<Key, nat>)
    requires ValidTable(t) && AllFit(t, aggregates) && started == FreshContexts(aggregates, size)
    requires Sizes(keys) == ChunkSizes(t) && KeysMatchGroups(t, columns, keyOf) && KeysFit(keys, keyOf, ids, immediate)
    requires Injective(ids) && (!immediate ==> ids == map[])
    ensures ok <==> forall a :: 0 <= a < |aggregates| ==> Takes(t, aggregates[a])
    ensures ok ==> Aggregated(t, columns, aggregates, contexts, idOf, keyOf, FirstArgument(t, aggregates))
  {
    var cells := ArgumentColumns(t, aggregates);
    ArgumentsFit(t, aggregates, keys);
    AcceptedArguments(t, aggregates, started);
    ok, contexts, idOf := AggregateTable(|started| > 1 || immediate, started, keys, cells, immediate, keyOf,
                                         ArgumentFunctions(t, aggregates), ids);
    if ok {
      ContextsAggregated(t, columns, aggregates, contexts, idOf, keyOf);
    }
  }

  // ----- the operator -----

  class AggregateHashOperator {
    const table: Table
    const columns: seq<nat>
    const aggregates: seq<AggregateExpression>

    var expectedResultSize: nat
    var useImmediateKeyShortcut: bool
    var contexts: seq<Context>

    constructor (table: Table, columns: seq<nat>, aggregates: seq<AggregateExpression>)
      ensures this.table == table && this.columns == columns && this.aggregates == aggregates
      ensures expectedResultSize == 0 && !useImmediateKeyShortcut && contexts == []
    {
      this.table, this.columns, this.aggregates := table, columns, aggregates;
      expectedResultSize, useImmediateKeyShortcut, contexts := 0, false, [];
    }

    ghost predicate WellFormed() {
      && ValidTable(table) && TypedTable(table) && RowCount(table) <= MAX_ROWS
      && (forall k :: 0 <= k < |columns| ==> columns[k] < |table.definitions|)
      && AllFit(table, aggregates)
    }

    /** All GROUP BY columns, one after the other; the expected result size grows to the largest id map. */
    method EncodeColumns() returns (keys: seq<seq<Key>>, ghost entries: seq<Entries>, first: Entries)
      requires WellFormed() && columns != []
      modifies this`expectedResultSize
      ensures SameShape(keys, ChunkSizes(table), |columns|) && Filled(keys, entries)
      ensures |entries| == |columns| && ColumnsDistinguished(table, columns, entries) && first == entries[0]
      ensures IntKeys(table, columns[0], first)
      ensures expectedResultSize >= old(expectedResultSize)
    {
      keys := ZeroKeys(ChunkSizes(table), |columns|);
      entries, first := [], [];
      for g := 0 to |columns|
        invariant |entries| == g && (g > 0 ==> first == entries[0] && IntKeys(table, columns[0], first))
        invariant SameShape(keys, ChunkSizes(table), |columns|) && Filled(keys, entries)
        invariant ColumnsDistinguished(table, columns, entries)
        invariant expectedResultSize >= old(expectedResultSize)
      {
        var column, idCount;
        keys, column, idCount := EncodeNextColumn(table, columns, g, keys, entries);
        if expectedResultSize < idCount {
          expectedResultSize := idCount;
        }
        if g == 0 {
          first := column;
        }
        entries := entries + [column];
      }
    }

    /** PartitionByGroupByKeys; the immediate shortcut is for a single int column whose values are dense. */
    method PartitionByGroupByKeys()
      returns (keys: seq<seq<Key>>, ghost keyOf: RowId -> Key, ghost idOf: map<Key, nat>)
      requires WellFormed() && columns != [] && !useImmediateKeyShortcut
      modifies this`expectedResultSize, this`useImmediateKeyShortcut
      ensures Sizes(keys) == ChunkSizes(table) && KeysMatchGroups(table, columns, keyOf)
      ensures KeysFit(keys, keyOf, idOf, useImmediateKeyShortcut)
      ensures Injective(idOf) && (!useImmediateKeyShortcut ==> idOf == map[])
      ensures useImmediateKeyShortcut <==>
                |columns| == 1 && table.definitions[columns[0]].dataType == IntType &&
                Dense(ColumnCells(table, columns[0]), RowCount(table))
      ensures useImmediateKeyShortcut ==> forall g :: g in idOf ==> idOf[g] < expectedResultSize
    {
      ghost var entries;
      var first;
      keys, entries, first := EncodeColumns();
      KeysTellGroups(table, columns, entries, keys);
      KeysUncached(table, columns, entries, keys);
      keyOf, idOf := KeyFunction(keys), map[];
      if |columns| == 1 && table.definitions[columns[0]].dataType.IntType? {
        assert entries == [first];
        var dense, rewritten, size;
        ghost var ids;
        dense, rewritten, size, ids := ImmediateKeys(table, columns[0], keys, first);
        if dense {
          keys, idOf := rewritten, ids;
          expectedResultSize, useImmediateKeyShortcut := size, true;
        }
      }
    }

    /** Aggregate: keys, fresh contexts of the expected size, and the passes. */
    method Aggregate() returns (ok: bool, ghost idOf: map<Key, nat>, ghost keyOf: RowId -> Key)
      requires WellFormed() && columns != [] && !useImmediateKeyShortcut
      modifies this
      ensures ok <==> forall a :: 0 <= a < |aggregates| ==> Takes(table, aggregates[a])
      ensures ok ==> Aggregated(table, columns, aggregates, contexts, idOf, keyOf, FirstArgument(table, aggregates))
    {
      var keys;
      ghost var ids;
      keys, keyOf, ids := PartitionByGroupByKeys();
      contexts := FreshContexts(aggregates, expectedResultSize);
      ok, contexts, idOf :=
        RunPasses(table, columns, aggregates, contexts, keys, expectedResultSize, useImmediateKeyShortcut, keyOf, ids);
    }

    /** The output columns: those of the groups, or one row over the whole input when nothing is grouped. */
    method ComputeColumns() returns (ok: bool, groups: seq<Segment>, values: seq<Segment>, ghost n: nat)
      requires WellFormed() && !useImmediateKeyShortcut
      modifies this
      ensures ok <==> forall a :: 0 <= a < |aggregates| ==> Takes(table, aggregates[a])
      ensures ok ==> |groups| == |columns| && |values| == |aggregates| && SegmentsOf(groups, n) && SegmentsOf(values, n)
      ensures ok && columns != [] ==> IsGroupBy(table, columns, aggregates, OutputRows(groups, values, n))
      ensures ok && columns == [] ==>
                n == 1 && CellsExact(table, [], aggregates, OutputRow([], RowIn(values, 1, 0)))
    {
      groups, values, n := [], [], 1;
      if columns == [] {
        ok, values := AggregateUngrouped(table, aggregates);
      } else {
        ghost var idOf, keyOf;
        ok, idOf, keyOf := Aggregate();
        if ok {
          groups, values, n := WriteOutput(table, columns, aggregates, contexts, idOf, keyOf,
                                           FirstArgument(table, aggregates));
        }
      }
    }

    /** OnExecute: the plain GROUP BY, or one row over the whole input when nothing is grouped. */
    method Execute() returns (r: Result<Table>, ghost rows: seq<OutputRow>)
      requires WellFormed() && !useImmediateKeyShortcut && (columns != [] || aggregates != [])
      modifies this
      ensures r == Failed(AssertionFailed) <==> !Computable(table, aggregates)
      ensures r.Failed? ==> r.reason == AssertionFailed
      ensures r.Ok? ==> r.value.definitions == OutputDefinitions(table, columns, aggregates)
      ensures r.Ok? ==> ValidTable(r.value) && TypedTable(r.value)
      ensures r.Ok? ==> Rows(r.value) == FlatRows(rows)
      ensures r.Ok? && columns != [] ==> IsGroupBy(table, columns, aggregates, rows)
      ensures r.Ok? && columns == [] ==>
                |rows| == 1 && rows[0].group == [] && CellsExact(table, [], aggregates, rows[0])
      ensures r.Ok? <==> PlainGroupBy.AllAccepted(table, aggregates)
      ensures r.Ok? ==> PlainGroupBy.ColumnsExact(table, columns, aggregates, r.value.definitions)
      ensures r.Ok? && columns != [] ==> PlainGroupBy.PlainGroups(table, columns, aggregates, rows)
      ensures r.Ok? && columns == [] ==> PlainGroupBy.PlainCells(table, [], aggregates, rows[0])
    {
      PlainGroupBy.AllAcceptedExact(table, aggregates);
      ComputableExact(table, aggregates);
      var valid := ValidateAggregates(table, aggregates);
      if !valid {
        return Failed(AssertionFailed), [];
      }
      var computed, groups, values;
      ghost var n;
      computed, groups, values, n := ComputeColumns();
      if !computed {
        return Failed(AssertionFailed), [];
      }
      rows := OutputRows(groups, values, n);
      OutputFits(table, columns, aggregates, groups, values, n);
      var out := AssembleOutput(OutputDefinitions(table, columns, aggregates), groups, values, n);
      r := Ok(out);
      PlainGroupBy.DefinitionsExact(table, columns, aggregates);
      if columns == [] {
        PlainGroupBy.RowExact(table, [], aggregates, rows[0]);
      } else {
        PlainGroupBy.GroupsExact(table, columns, aggregates, rows);
      }
    }
  }

  lemma ComputableExact(t: Table, aggregates: seq<AggregateExpression>)
    requires ValidTable(t) && TypedTable(t) && AllFit(t, aggregates)
    ensures Computable(t, aggregates) <==>
            (forall a :: 0 <= a < |aggregates| ==> !RefusedByType(t, aggregates[a])) &&
            (forall a :: 0 <= a < |aggregates| ==> Takes(t, aggregates[a]))
  {
    forall a | 0 <= a < |aggregates| && !RefusedByType(t, aggregates[a])
      ensures Takes(t, aggregates[a]) <==> !RefusedByValue(t, aggregates[a])
    {
      TakesExact(t, aggregates[a]);
    }
  }

  // ----- arguments of the aggregates -----

  function NoArgument(): RowId -> Cell {
    _ => Null
  }

  function FirstArgument(t: Table, aggregates: seq<AggregateExpression>): RowId -> Cell {
    if aggregates == [] then NoArgument() else Argument(t, aggregates[0])
  }

  /** Without aggregates (DISTINCT) there is one context that never takes a value. */
  function ArgumentFunctions(t: Table, aggregates: seq<AggregateExpression>): (r: seq<RowId -> Cell>)
    ensures |r| == if aggregates == [] then 1 else |aggregates|
    ensures forall a :: 0 <= a < |aggregates| ==> r[a] == Argument(t, aggregates[a])
    ensures r[0] == FirstArgument(t, aggregates)
  {
    if aggregates == [] then [NoArgument()]
    else seq(|aggregates|, a requires 0 <= a < |aggregates| => Argument(t, aggregates[a]))
  }

  function FreshContext(f: AggregateFunction, size: nat): Context {
    Context(f, Blanks(f, size), map[])
  }

  function FreshContexts(aggregates: seq<AggregateExpression>, size: nat): (r: seq<Context>)
    ensures |r| == if aggregates == [] then 1 else |aggregates|
    ensures forall a :: 0 <= a < |aggregates| ==> r[a].f == aggregates[a].Function()
    ensures forall c :: 0 <= c < |r| ==> r[c].ids == map[] && r[c].results == Blanks(r[c].f, size)
    ensures aggregates == [] ==> r[0].f == Min
  {
    if aggregates == [] then [FreshContext(Min, size)]
    else seq(|aggregates|, a requires 0 <= a < |aggregates| => FreshContext(aggregates[a].Function(), size))
  }

  function ArgumentColumns(t: Table, aggregates: seq<AggregateExpression>): (r: seq<Cells>)
    requires ValidTable(t) && AllFit(t, aggregates)
    ensures |r| == if aggregates == [] then 1 else |aggregates|
    ensures aggregates == [] ==> r[0] == ConstantCells(t, Null)
    ensures forall a :: 0 <= a < |aggregates| ==> r[a] == ArgumentCells(t, aggregates[a])
  {
    if aggregates == [] then [ConstantCells(t, Null)]
    else seq(|aggregates|, a requires 0 <= a < |aggregates| => ArgumentCells(t, aggregates[a]))
  }

  lemma CellsFit(t: Table, cells: Cells, cellOf: RowId -> Cell, i: nat)
    requires i < |cells| && Sizes(cells) == ChunkSizes(t)
    requires forall k: nat :: k < |cells[i]| ==> cellOf(RowId(i, k)) == cells[i][k]
    ensures |cells[i]| == ChunkSizes(t)[i] && ChunkCells(cells[i], i, cellOf)
  {}

  lemma ArgumentFits(t: Table, aggregates: seq<AggregateExpression>, c: nat, i: nat)
    requires ValidTable(t) && AllFit(t, aggregates) && c < |ArgumentColumns(t, aggregates)| && i < |t.chunks|
    ensures var cells := ArgumentColumns(t, aggregates)[c];
            |cells| == |t.chunks| && |cells[i]| == ChunkSizes(t)[i] &&
            ChunkCells(cells[i], i, ArgumentFunctions(t, aggregates)[c])
  {
    var cells := ArgumentColumns(t, aggregates)[c];
    if aggregates != [] {
      ArgumentSizes(t, aggregates[c]);
      assert |Sizes(cells)| == |ChunkSizes(t)| && Sizes(cells)[i] == ChunkSizes(t)[i];
      forall k: nat | k < |cells[i]|
        ensures Argument(t, aggregates[c])(RowId(i, k)) == cells[i][k]
      {
        ArgumentAt(t, aggregates[c], i, k);
      }
    } else {
      assert Sizes(cells)[i] == ChunkSizes(t)[i];
    }
  }

  lemma ArgumentsFit(t: Table, aggregates: seq<AggregateExpression>, keys: seq<seq<Key>>)
    requires ValidTable(t) && AllFit(t, aggregates) && Sizes(keys) == ChunkSizes(t)
    ensures ColumnsFit(ArgumentColumns(t, aggregates), keys, ArgumentFunctions(t, aggregates))
  {
    var cells := ArgumentColumns(t, aggregates);
    assert |Sizes(keys)| == |ChunkSizes(t)|;
    forall c | 0 <= c < |cells|
      ensures |cells[c]| == |keys|
    {
      if aggregates != [] {
        ArgumentSizes(t, aggregates[c]);
        assert |Sizes(cells[c])| == |ChunkSizes(t)|;
      }
    }
    forall c, i | 0 <= c < |cells| && 0 <= i < |keys|
      ensures |cells[c][i]| == |keys[i]| && ChunkCells(cells[c][i], i, ArgumentFunctions(t, aggregates)[c])
    {
      assert Sizes(keys)[i] == ChunkSizes(t)[i];
      ArgumentFits(t, aggregates, c, i);
    }
  }

  lemma AcceptedExact(t: Table, a: AggregateExpression)
    requires ValidTable(t) && a.Fits(t)
    ensures (forall i :: 0 <= i < |ArgumentCells(t, a)| ==> Accepted(a.Function(), ArgumentCells(t, a)[i])) <==>
              Takes(t, a)
  {
    var cells, f := ArgumentCells(t, a), a.Function();
    ArgumentSizes(t, a);
    assert |Sizes(cells)| == |ChunkSizes(t)|;
    if Takes(t, a) {
      forall i, k | 0 <= i < |cells| && 0 <= k < |cells[i]|
        ensures !Refuses(f, cells[i][k])
      {
        assert Sizes(cells)[i] == ChunkSizes(t)[i];
        ArgumentAt(t, a, i, k);
        assert RowId(i, k) in Positions(ChunkSizes(t));
      }
    } else {
      var p :| p in Positions(ChunkSizes(t)) && Refuses(f, Argument(t, a)(p));
      ArgumentAt(t, a, p.chunk, p.offset);
      assert !Accepted(f, cells[p.chunk]);
    }
  }

  /** The passes accept all cells exactly when the aggregates take the table. */
  lemma AcceptedArguments(t: Table, aggregates: seq<AggregateExpression>, contexts: seq<Context>)
    requires ValidTable(t) && AllFit(t, aggregates) && |contexts| == |ArgumentColumns(t, aggregates)|
    requires forall a :: 0 <= a < |aggregates| ==> contexts[a].f == aggregates[a].Function()
    requires aggregates == [] ==> contexts[0].f == Min
    ensures AllAccepted(contexts, ArgumentColumns(t, aggregates)) <==>
            forall a :: 0 <= a < |aggregates| ==> Takes(t, aggregates[a])
  {
    var columns := ArgumentColumns(t, aggregates);
    forall a | 0 <= a < |aggregates|
      ensures (forall i :: 0 <= i < |columns[a]| ==> Accepted(contexts[a].f, columns[a][i])) <==>
                Takes(t, aggregates[a])
    {
      AcceptedExact(t, aggregates[a]);
    }
    if forall a :: 0 <= a < |aggregates| ==> Takes(t, aggregates[a]) {
      forall c, i | 0 <= c < |contexts| && 0 <= i < |columns[c]|
        ensures Accepted(contexts[c].f, columns[c][i])
      {
        assert aggregates != [] ==> Takes(t, aggregates[c]);
      }
    }
  }

  lemma ContextsAggregated(t: Table, columns: seq<nat>, aggregates: seq<AggregateExpression>, contexts: seq<Context>,
                           idOf: map<Key, nat>, keyOf: RowId -> Key)
    requires KeysMatchGroups(t, columns, keyOf) && Injective(idOf)
    requires AllRepresent(contexts, idOf, keyOf, ArgumentFunctions(t, aggregates), Positions(ChunkSizes(t)))
    requires forall a :: 0 <= a < |aggregates| ==> contexts[a].f == aggregates[a].Function() && Takes(t, aggregates[a])
    ensures Aggregated(t, columns, aggregates, contexts, idOf, keyOf, FirstArgument(t, aggregates))
  {
    var functions, ps := ArgumentFunctions(t, aggregates), Positions(ChunkSizes(t));
    assert Represents(contexts[0].f, contexts[0].results, idOf, keyOf, functions[0], ps);
    forall a | 0 <= a < |aggregates|
      ensures Represents(contexts[a].f, contexts[a].results, idOf, keyOf, Argument(t, aggregates[a]), ps)
    {
      assert Represents(contexts[a].f, contexts[a].results, idOf, keyOf, functions[a], ps);
    }
  }

  /** The entries of an int column are its shifted values. */
  ghost predicate IntKeys(t: Table, c: nat, entries: Entries)
    requires ValidTable(t) && c < |t.definitions|
  {
    t.definitions[c].dataType.IntType? ==> IntCoded(ColumnCells(t, c), entries)
  }

  /** Encodes one GROUP BY column and writes it into the keys. */
  method EncodeNextColumn(t: Table, columns: seq<nat>, g: nat, keysIn: seq<seq<Key>>, ghost entries: seq<Entries>)
    returns (keys: seq<seq<Key>>, column: Entries, idCount: nat)
    requires ValidTable(t) && TypedTable(t) && RowCount(t) <= MAX_ROWS
    requires g == |entries| < |columns| && columns[g] < |t.definitions|
    requires SameShape(keysIn, ChunkSizes(t), |columns|) && Filled(keysIn, entries)
    requires ColumnsDistinguished(t, columns, entries)
    ensures SameShape(keys, ChunkSizes(t), |columns|) && Filled(keys, entries + [column])
    ensures ColumnsDistinguished(t, columns, entries + [column]) && IntKeys(t, columns[g], column)
  {
    var dataType := t.definitions[columns[g]].dataType;
    var cells := ColumnCells(t, columns[g]);
    CellSizes(t, columns[g]);
    TypedColumn(t, columns[g]);
    var ids;
    column, ids := EncodeColumn(cells, dataType);
    EncodedDistinguishes(cells, column, dataType, ids);
    if dataType.IntType? {
      EncodedInts(cells, column, ids);
    }
    keys := StoreColumn(keysIn, column, g, ChunkSizes(t), |columns|, entries);
    idCount := |ids|;
  }

  /** The shortcut: when the keys are dense enough, they become result indexes with the cache bit set. */
  method ImmediateKeys(t: Table, c: nat, keys: seq<seq<Key>>, entries: Entries)
    returns (dense: bool, rewritten: seq<seq<Key>>, size: nat, ghost idOf: map<Key, nat>)
    requires ValidTable(t) && c < |t.definitions| && Distinguishes(ColumnCells(t, c), entries)
    requires SameShape(keys, ChunkSizes(t), 1) && Filled(keys, [entries])
    requires forall p :: !Cached(KeyFunction(keys)(p))
    requires IntCoded(ColumnCells(t, c), entries)
    ensures dense <==> Dense(ColumnCells(t, c), RowCount(t))
    ensures dense ==> Sizes(rewritten) == ChunkSizes(t) && Injective(idOf)
    ensures dense ==> KeysFit(rewritten, KeyFunction(keys), idOf, true)
    ensures dense ==> forall g :: g in idOf ==> idOf[g] < size
  {
    CellSizes(t, c);
    EntriesBounded(t, c, entries);
    var minKey, maxKey := KeyBounds(entries);
    DenseExact(ColumnCells(t, c), entries, minKey, maxKey, RowCount(t));
    dense, rewritten, size, idOf := DenseEnough(minKey, maxKey, RowCount(t)), [], 0, map[];
    if dense {
      var r := RewriteKeys(entries, minKey);
      rewritten := SingleKeys(r);
      size, idOf := maxKey - minKey + 2, ImmediateIds(keys, minKey);
      RewrittenKeys(keys, entries, minKey, maxKey, rewritten);
      ImmediateInjective(keys, entries, minKey, maxKey);
      ImmediateBelow(keys, entries, minKey, maxKey);
    }
  }

  lemma ImmediateBelow(keys: seq<seq<Key>>, entries: Entries, minKey: Entry, maxKey: Entry)
    requires SameShape(keys, Sizes(entries), 1) && Filled(keys, [entries])
    requires Bounds(entries, minKey, maxKey) && minKey <= maxKey
    ensures forall g :: g in ImmediateIds(keys, minKey) ==> ImmediateIds(keys, minKey)[g] < maxKey - minKey + 2
  {
    ImmediateInjective(keys, entries, minKey, maxKey);
    forall g | g in ImmediateIds(keys, minKey)
      ensures ImmediateIds(keys, minKey)[g] < maxKey - minKey + 2
    {
      var p :| p in Positions(Sizes(keys)) && KeyFunction(keys)(p) == g;
      assert InRange(p, Sizes(keys));
      ImmediateExact(g[0], g[0], minKey, maxKey);
    }
  }

  lemma EntriesBounded(t: Table, c: nat, entries: Entries)
    requires ValidTable(t) && c < |t.definitions| && Distinguishes(ColumnCells(t, c), entries)
    ensures forall i, k :: 0 <= i < |entries| && 0 <= k < |entries[i]| ==> entries[i][k] <= 0xFFFF_FFFF_FFFF_FFFF
  {
    forall i, k | 0 <= i < |entries| && 0 <= k < |entries[i]|
      ensures entries[i][k] < CACHE_MASK
    {
      assert InRange(RowId(i, k), Sizes(ColumnCells(t, c)));
      assert EntryIn(entries, RowId(i, k)) < CACHE_MASK;
    }
  }
}
