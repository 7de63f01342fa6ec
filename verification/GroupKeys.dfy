/** PartitionByGroupByKeys: one 64-bit entry per row and GROUP BY column, under three schemes, and the
    rewrite into immediate result indexes. */
module GroupKeys {
  import opened Sequences
  import opened Storage

  /** An AggregateKeyEntry (uint64_t). */
  type Entry = nat

  const CACHE_MASK: nat := 0x8000_0000_0000_0000
  const SHORT_STRING_ID_COUNTER: nat := 5_000_000_000
  const STRING_LENGTH_THRESHOLD: nat := 5
  const MAX_ROWS: nat := 0x4000_0000_0000_0000

  // ----- the code of one value -----

  /** char_to_uint: the byte at k, shifted. */
  function Shifted(s: seq<Byte>, k: nat): nat
    requires k < |s| && k < 4
  {
    var byte: nat := s[k];
    if k == 0 then byte
    else if k == 1 then byte * 0x100
    else if k == 2 then byte * 0x1_0000
    else byte * 0x100_0000
  }

  /** The switch over the lengths 0 to 4. */
  function PackShort(s: seq<Byte>): (r: Entry)
    requires |s| < STRING_LENGTH_THRESHOLD
  {
    match |s|
    case 0 => 1
    case 1 => 2 + Shifted(s, 0)
    case 2 => 258 + Shifted(s, 1) + Shifted(s, 0)
    case 3 => 65_794 + Shifted(s, 2) + Shifted(s, 1) + Shifted(s, 0)
    case _ => 16_843_010 + Shifted(s, 3) + Shifted(s, 2) + Shifted(s, 1) + Shifted(s, 0)
  }

  /** The first code of each length; the ranges follow each other without overlap. */
  function PackBase(length: nat): nat {
    match length
    case 0 => 1
    case 1 => 2
    case 2 => 258
    case 3 => 65_794
    case 4 => 16_843_010
    case _ => 4_311_810_306
  }

  lemma PackRange(s: seq<Byte>)
    requires |s| < STRING_LENGTH_THRESHOLD
    ensures PackBase(|s|) <= PackShort(s) < PackBase(|s| + 1) <= SHORT_STRING_ID_COUNTER
  {}

  lemma LastDigitUnique(a: nat, x: nat, b: nat, y: nat)
    requires a < 0x100 && b < 0x100 && x * 0x100 + a == y * 0x100 + b
    ensures a == b && x == y
  {}

  lemma DigitsUnique(a0: nat, a1: nat, a2: nat, a3: nat, b0: nat, b1: nat, b2: nat, b3: nat)
    requires a0 < 0x100 && a1 < 0x100 && a2 < 0x100 && a3 < 0x100
    requires b0 < 0x100 && b1 < 0x100 && b2 < 0x100 && b3 < 0x100
    requires a3 * 0x100_0000 + a2 * 0x1_0000 + a1 * 0x100 + a0 == b3 * 0x100_0000 + b2 * 0x1_0000 + b1 * 0x100 + b0
    ensures a0 == b0 && a1 == b1 && a2 == b2 && a3 == b3
  {
    LastDigitUnique(a0, a3 * 0x1_0000 + a2 * 0x100 + a1, b0, b3 * 0x1_0000 + b2 * 0x100 + b1);
    LastDigitUnique(a1, a3 * 0x100 + a2, b1, b3 * 0x100 + b2);
    LastDigitUnique(a2, a3, b2, b3);
  }

  function Digit(s: seq<Byte>, k: nat): nat {
    if k < |s| then s[k] else 0
  }

  /** Short strings have equal codes exactly when they are equal. */
  lemma PackInjective(s: seq<Byte>, t: seq<Byte>)
    requires |s| < STRING_LENGTH_THRESHOLD && |t| < STRING_LENGTH_THRESHOLD
    ensures PackShort(s) == PackShort(t) <==> s == t
  {
    PackRange(s);
    PackRange(t);
    if PackShort(s) == PackShort(t) {
      assert |s| == |t|;
      DigitsUnique(Digit(s, 0), Digit(s, 1), Digit(s, 2), Digit(s, 3), Digit(t, 0), Digit(t, 1), Digit(t, 2),
                   Digit(t, 3));
      assert forall k :: 0 <= k < |s| ==> s[k] == Digit(s, k) && t[k] == Digit(t, k);
    }
  }

  type IdMap = map<Value, Entry>

  predicate UsesIdMap(v: Value, dataType: DataType) {
    match dataType
    case IntType => false
    case StringType => v.Text? && |v.bytes| >= STRING_LENGTH_THRESHOLD
    case _ => true
  }

  function FirstId(dataType: DataType): Entry {
    if dataType.StringType? then SHORT_STRING_ID_COUNTER else 1
  }

  /** The ids given out so far: distinct, consecutive from the first one, for id-map values only. */
  ghost predicate GoodIds(ids: IdMap, dataType: DataType) {
    && (forall v :: v in ids ==> UsesIdMap(v, dataType) && FirstId(dataType) <= ids[v] < FirstId(dataType) + |ids|)
    && (forall v, w :: v in ids && w in ids && ids[v] == ids[w] ==> v == w)
  }

  function Code(v: Value, dataType: DataType, ids: IdMap): Entry
    requires HasType(v, dataType) && (UsesIdMap(v, dataType) ==> v in ids)
  {
    if UsesIdMap(v, dataType) then ids[v]
    else if v.Int? then v.i - INT32_MIN + 1
    else PackShort(v.bytes)
  }

  /** Under every scheme: equal codes are equal values, 0 stays free for NULL, and bit 63 stays clear. */
  lemma CodeExact(v: Value, w: Value, dataType: DataType, ids: IdMap)
    requires HasType(v, dataType) && HasType(w, dataType) && GoodIds(ids, dataType) && |ids| <= MAX_ROWS
    requires UsesIdMap(v, dataType) ==> v in ids
    requires UsesIdMap(w, dataType) ==> w in ids
    ensures Code(v, dataType, ids) == Code(w, dataType, ids) <==> v == w
    ensures 0 < Code(v, dataType, ids) < CACHE_MASK
  {
    if dataType.StringType? {
      if !UsesIdMap(v, dataType) {
        PackRange(v.bytes);
      }
      if !UsesIdMap(w, dataType) {
        PackRange(w.bytes);
      }
      if !UsesIdMap(v, dataType) && !UsesIdMap(w, dataType) {
        PackInjective(v.bytes, w.bytes);
      }
    }
  }

  /** NULL has entry 0. */
  function EntryOf(cell: Cell, dataType: DataType, ids: IdMap): Entry
    requires cell.Val? ==> HasType(cell.v, dataType) && (UsesIdMap(cell.v, dataType) ==> cell.v in ids)
  {
    match cell
    case Null => 0
    case Val(v) => Code(v, dataType, ids)
  }

  // ----- one GROUP BY column -----

  type Cells = seq<seq<Cell>>
  type Entries = seq<seq<Entry>>

  ghost predicate Typed(cells: Cells, dataType: DataType) {
    forall i, k :: 0 <= i < |cells| && 0 <= k < |cells[i]| && cells[i][k].Val? ==> HasType(cells[i][k].v, dataType)
  }

  ghost predicate Known(cell: Cell, dataType: DataType, ids: IdMap) {
    cell.Val? ==> HasType(cell.v, dataType) && (UsesIdMap(cell.v, dataType) ==> cell.v in ids)
  }

  /** The entries of a chunk under the given ids. */
  ghost predicate Encoded(cells: seq<Cell>, entries: seq<Entry>, dataType: DataType, ids: IdMap) {
    |entries| == |cells| &&
    forall k :: 0 <= k < |cells| ==> Known(cells[k], dataType, ids) && entries[k] == EntryOf(cells[k], dataType, ids)
  }

  ghost predicate Extends(ids: IdMap, more: IdMap) {
    forall v :: v in ids ==> v in more && more[v] == ids[v]
  }

  lemma EncodedStays(cells: seq<Cell>, entries: seq<Entry>, dataType: DataType, ids: IdMap, more: IdMap)
    requires Encoded(cells, entries, dataType, ids) && Extends(ids, more)
    ensures Encoded(cells, entries, dataType, more)
  {
    forall k | 0 <= k < |cells|
      ensures Known(cells[k], dataType, more) && entries[k] == EntryOf(cells[k], dataType, more)
    {
      assert Known(cells[k], dataType, ids);
    }
  }

  /** id_map.try_emplace(value, id_counter), with id_counter the first id plus the map size. */
  method LookupId(ids: IdMap, v: Value, dataType: DataType) returns (more: IdMap, id: Entry)
    requires GoodIds(ids, dataType) && UsesIdMap(v, dataType)
    ensures GoodIds(more, dataType) && Extends(ids, more) && |ids| <= |more| <= |ids| + 1
    ensures v in more && id == more[v]
  {
    if v in ids {
      more, id := ids, ids[v];
    } else {
      id := FirstId(dataType) + |ids|;
      more := ids[v := id];
      assert more.Keys == ids.Keys + {v};
      assert |more| == |ids| + 1 by {
        assert |more.Keys| == |ids.Keys| + 1;
      }
    }
  }

  /** The key entry of one cell under the scheme of its column. */
  method EncodeCell(cell: Cell, dataType: DataType, ids: IdMap) returns (entry: Entry, more: IdMap)
    requires CellHasType(cell, dataType) && GoodIds(ids, dataType)
    ensures GoodIds(more, dataType) && Extends(ids, more) && |ids| <= |more| <= |ids| + 1
    ensures Known(cell, dataType, more) && entry == EntryOf(cell, dataType, more)
  {
    more := ids;
    match cell {
      case Null => entry := 0;
      case Val(v) =>
        if UsesIdMap(v, dataType) {
          more, entry := LookupId(ids, v, dataType);
        } else {
          entry := Code(v, dataType, ids);
        }
    }
  }

  lemma EncodedNext(cells: seq<Cell>, k: nat, entries: seq<Entry>, dataType: DataType, ids: IdMap, more: IdMap,
                    entry: Entry)
    requires k < |cells| && Encoded(cells[..k], entries, dataType, ids) && Extends(ids, more)
    requires Known(cells[k], dataType, more) && entry == EntryOf(cells[k], dataType, more)
    ensures Encoded(cells[..k + 1], entries + [entry], dataType, more)
  {
    EncodedStays(cells[..k], entries, dataType, ids, more);
    TakeNext(cells, k);
    EncodedSnoc(cells[..k], entries, dataType, more, cells[k], entry);
  }

  lemma EncodedSnoc(cells: seq<Cell>, entries: seq<Entry>, dataType: DataType, ids: IdMap, cell: Cell, entry: Entry)
    requires Encoded(cells, entries, dataType, ids)
    requires Known(cell, dataType, ids) && entry == EntryOf(cell, dataType, ids)
    ensures Encoded(cells + [cell], entries + [entry], dataType, ids)
  {}

  method EncodeChunk(cells: seq<Cell>, dataType: DataType, idsIn: IdMap) returns (entries: seq<Entry>, ids: IdMap)
    requires forall k :: 0 <= k < |cells| ==> CellHasType(cells[k], dataType)
    requires GoodIds(idsIn, dataType)
    ensures GoodIds(ids, dataType) && Extends(idsIn, ids) && |ids| <= |idsIn| + |cells|
    ensures Encoded(cells, entries, dataType, ids)
  {
    entries, ids := [], idsIn;
    for k := 0 to |cells|
      invariant GoodIds(ids, dataType) && Extends(idsIn, ids) && |ids| <= |idsIn| + k
      invariant Encoded(cells[..k], entries, dataType, ids)
    {
      var entry, more := EncodeCell(cells[k], dataType, ids);
      EncodedNext(cells, k, entries, dataType, ids, more, entry);
      entries, ids := entries + [entry], more;
    }
    TakeAll(cells);
  }

  function CellCount(cells: Cells): nat {
    Sum(Sizes(cells))
  }

  ghost predicate AllEncoded(cells: Cells, entries: Entries, dataType: DataType, ids: IdMap) {
    |entries| <= |cells| && forall i :: 0 <= i < |entries| ==> Encoded(cells[i], entries[i], dataType, ids)
  }

  lemma AllEncodedSnoc(cells: Cells, entries: Entries, dataType: DataType, ids: IdMap, more: IdMap, last: seq<Entry>)
    requires AllEncoded(cells, entries, dataType, ids) && Extends(ids, more) && |entries| < |cells|
    requires Encoded(cells[|entries|], last, dataType, more)
    ensures AllEncoded(cells, entries + [last], dataType, more)
  {
    forall i | 0 <= i < |entries|
      ensures Encoded(cells[i], entries[i], dataType, more)
    {
      EncodedStays(cells[i], entries[i], dataType, ids, more);
    }
  }

  lemma SumNext(sizes: seq<nat>, i: nat)
    requires i < |sizes|
    ensures Sum(sizes[..i + 1]) == Sum(sizes[..i]) + sizes[i]
  {
    assert sizes[..i + 1][..i] == sizes[..i];
  }

  /** All chunks of one GROUP BY column. */
  method EncodeColumn(cells: Cells, dataType: DataType) returns (entries: Entries, ids: IdMap)
    requires Typed(cells, dataType)
    ensures GoodIds(ids, dataType) && |ids| <= CellCount(cells)
    ensures |entries| == |cells| && AllEncoded(cells, entries, dataType, ids)
  {
    entries, ids := [], map[];
    ghost var sizes := Sizes(cells);
    for i := 0 to |cells|
      invariant |entries| == i && GoodIds(ids, dataType) && AllEncoded(cells, entries, dataType, ids)
      invariant |ids| <= Sum(sizes[..i])
    {
      ghost var before := ids;
      SumNext(sizes, i);
      var chunk;
      chunk, ids := EncodeChunk(cells[i], dataType, ids);
      AllEncodedSnoc(cells, entries, dataType, before, ids, chunk);
      entries := entries + [chunk];
    }
    TakeAll(sizes);
  }

  function CellIn(cells: Cells, p: RowId): Cell
    requires InRange(p, Sizes(cells))
  {
    cells[p.chunk][p.offset]
  }

  function EntryIn(entries: Entries, p: RowId): Entry
    requires InRange(p, Sizes(entries))
  {
    entries[p.chunk][p.offset]
  }

  /** What the key scheme owes the grouping: entries tell the cells apart, 0 is NULL, bit 63 is clear. */
  ghost predicate Distinguishes(cells: Cells, entries: Entries) {
    && Sizes(cells) == Sizes(entries)
    && (forall p :: InRange(p, Sizes(cells)) ==>
          EntryIn(entries, p) < CACHE_MASK && (EntryIn(entries, p) == 0 <==> CellIn(cells, p) == Null))
    && (forall p, q {:trigger EntryIn(entries, p), EntryIn(entries, q)} ::
          InRange(p, Sizes(cells)) && InRange(q, Sizes(cells)) ==>
          (EntryIn(entries, p) == EntryIn(entries, q) <==> CellIn(cells, p) == CellIn(cells, q)))
  }

  lemma EncodedDistinguishes(cells: Cells, entries: Entries, dataType: DataType, ids: IdMap)
    requires GoodIds(ids, dataType) && |ids| <= MAX_ROWS
    requires |entries| == |cells| && AllEncoded(cells, entries, dataType, ids)
    ensures Distinguishes(cells, entries)
  {
    forall p: RowId | InRange(p, Sizes(cells))
      ensures Sizes(entries)[p.chunk] == Sizes(cells)[p.chunk]
      ensures Known(CellIn(cells, p), dataType, ids)
      ensures EntryIn(entries, p) == EntryOf(CellIn(cells, p), dataType, ids)
      ensures EntryIn(entries, p) < CACHE_MASK && (EntryIn(entries, p) == 0 <==> CellIn(cells, p) == Null)
    {
      EncodedAt(cells, entries, dataType, ids, p);
    }
    assert forall i :: 0 <= i < |cells| ==> Encoded(cells[i], entries[i], dataType, ids);
    assert Sizes(cells) == Sizes(entries);
    forall p: RowId, q: RowId | InRange(p, Sizes(cells)) && InRange(q, Sizes(cells))
      ensures EntryIn(entries, p) == EntryIn(entries, q) <==> CellIn(cells, p) == CellIn(cells, q)
    {
      EncodedAt(cells, entries, dataType, ids, p);
      EncodedAt(cells, entries, dataType, ids, q);
      if CellIn(cells, p).Val? && CellIn(cells, q).Val? {
        CodeExact(CellIn(cells, p).v, CellIn(cells, q).v, dataType, ids);
      }
    }
  }

  lemma EncodedAt(cells: Cells, entries: Entries, dataType: DataType, ids: IdMap, p: RowId)
    requires GoodIds(ids, dataType) && |ids| <= MAX_ROWS
    requires |entries| == |cells| && AllEncoded(cells, entries, dataType, ids) && InRange(p, Sizes(cells))
    ensures InRange(p, Sizes(entries)) && Known(CellIn(cells, p), dataType, ids)
    ensures EntryIn(entries, p) == EntryOf(CellIn(cells, p), dataType, ids)
    ensures EntryIn(entries, p) < CACHE_MASK && (EntryIn(entries, p) == 0 <==> CellIn(cells, p) == Null)
  {
    assert Encoded(cells[p.chunk], entries[p.chunk], dataType, ids);
    var cell := CellIn(cells, p);
    assert Known(cell, dataType, ids);
    if cell.Val? {
      CodeExact(cell.v, cell.v, dataType, ids);
    }
  }

  // ----- immediate indexes -----

  /** max_key - min_key < 1.2 * row count, without rounding. */
  predicate DenseEnough(minKey: Entry, maxKey: Entry, rows: nat) {
    maxKey > 0 && 5 * (maxKey - minKey) < 6 * rows
  }

  /** The index a key is rewritten to, below the cache bit. */
  function ImmediateIndex(key: Entry, minKey: Entry): nat
    requires key == 0 || minKey <= key
  {
    if key == 0 then 0 else key - minKey + 1
  }

  ghost predicate Bounds(entries: Entries, minKey: Entry, maxKey: Entry) {
    forall i, k :: 0 <= i < |entries| && 0 <= k < |entries[i]| && entries[i][k] != 0 ==>
      minKey <= entries[i][k] <= maxKey
  }

  /** The rewrite keeps the grouping and stays below the expected result size. */
  lemma ImmediateExact(a: Entry, b: Entry, minKey: Entry, maxKey: Entry)
    requires a == 0 || minKey <= a <= maxKey
    requires b == 0 || minKey <= b <= maxKey
    requires minKey <= maxKey
    ensures ImmediateIndex(a, minKey) == ImmediateIndex(b, minKey) <==> a == b
    ensures ImmediateIndex(a, minKey) < maxKey - minKey + 2
  {}

  /** The running minimum and maximum over the non-NULL keys. */
  method KeyBounds(entries: Entries) returns (minKey: Entry, maxKey: Entry)
    requires forall i, k :: 0 <= i < |entries| && 0 <= k < |entries[i]| ==> entries[i][k] <= 0xFFFF_FFFF_FFFF_FFFF
    ensures Bounds(entries, minKey, maxKey)
    ensures maxKey > 0 ==> minKey <= maxKey
    ensures maxKey == 0 ==> forall i, k :: 0 <= i < |entries| && 0 <= k < |entries[i]| ==> entries[i][k] == 0
    ensures maxKey > 0 ==> minKey > 0 && Occurs(entries, maxKey) && Occurs(entries, minKey)
  {
    minKey, maxKey := 0xFFFF_FFFF_FFFF_FFFF, 0;
    for i := 0 to |entries|
      invariant BoundsUpTo(entries, i, 0, minKey, maxKey)
    {
      for k := 0 to |entries[i]|
        invariant BoundsUpTo(entries, i, k, minKey, maxKey)
      {
        var key := entries[i][k];
        BoundsNext(entries, i, k, minKey, maxKey);
        if key != 0 {
          minKey, maxKey := if key < minKey then key else minKey, if key > maxKey then key else maxKey;
        }
      }
      BoundsNextChunk(entries, i, minKey, maxKey);
    }
  }

  ghost predicate Occurs(entries: Entries, key: Entry) {
    exists i, k :: 0 <= i < |entries| && 0 <= k < |entries[i]| && entries[i][k] == key
  }

  /** Minimum and maximum of the non-zero keys before entry k of chunk i. */
  ghost predicate BoundsUpTo(entries: Entries, i: nat, k: nat, minKey: Entry, maxKey: Entry) {
    && (forall j, m :: 0 <= j < |entries| && 0 <= m < |entries[j]| && (j < i || (j == i && m < k)) ==>
          entries[j][m] == 0 || minKey <= entries[j][m] <= maxKey)
    && (maxKey == 0 ==> minKey == 0xFFFF_FFFF_FFFF_FFFF)
    && (maxKey > 0 ==> 0 < minKey <= maxKey && Occurs(entries, maxKey) && Occurs(entries, minKey))
  }

  lemma BoundsNext(entries: Entries, i: nat, k: nat, minKey: Entry, maxKey: Entry)
    requires i < |entries| && k < |entries[i]| && entries[i][k] <= 0xFFFF_FFFF_FFFF_FFFF
    requires BoundsUpTo(entries, i, k, minKey, maxKey)
    ensures var key := entries[i][k];
            BoundsUpTo(entries, i, k + 1, if key != 0 && key < minKey then key else minKey,
                       if key > maxKey then key else maxKey)
  {
    assert Occurs(entries, entries[i][k]);
  }

  lemma BoundsNextChunk(entries: Entries, i: nat, minKey: Entry, maxKey: Entry)
    requires i < |entries| && BoundsUpTo(entries, i, |entries[i]|, minKey, maxKey)
    ensures BoundsUpTo(entries, i + 1, 0, minKey, maxKey)
  {}

  /** The keys of an int column are its shifted values. */
  function IntCode(cell: Cell): Entry
    requires CellHasType(cell, IntType)
  {
    match cell
    case Null => 0
    case Val(v) => v.i - INT32_MIN + 1
  }

  ghost predicate IntCoded(cells: Cells, entries: Entries) {
    && Sizes(cells) == Sizes(entries) && Typed(cells, IntType)
    && forall i, k :: 0 <= i < |cells| && 0 <= k < |cells[i]| && i < |entries| && k < |entries[i]| ==>
         entries[i][k] == IntCode(cells[i][k])
  }

  lemma EncodedInts(cells: Cells, entries: Entries, ids: IdMap)
    requires Typed(cells, IntType) && |entries| == |cells| && AllEncoded(cells, entries, IntType, ids)
    ensures IntCoded(cells, entries)
  {
    forall i | 0 <= i < |cells|
      ensures |entries[i]| == |cells[i]|
      ensures forall k :: 0 <= k < |cells[i]| ==> entries[i][k] == IntCode(cells[i][k])
    {
      assert Encoded(cells[i], entries[i], IntType, ids);
      forall k | 0 <= k < |cells[i]|
        ensures entries[i][k] == IntCode(cells[i][k])
      {
        assert Known(cells[i][k], IntType, ids);
      }
    }
  }

  /** lo and hi are the smallest and the largest value of a column. */
  ghost predicate Spans(cells: Cells, lo: int, hi: int) {
    && HoldsCell(cells, Val(Int(lo))) && HoldsCell(cells, Val(Int(hi)))
    && forall i, k :: 0 <= i < |cells| && 0 <= k < |cells[i]| && cells[i][k].Val? && cells[i][k].v.Int? ==>
         lo <= cells[i][k].v.i <= hi
  }

  ghost predicate HoldsCell(cells: Cells, cell: Cell) {
    exists i, k :: 0 <= i < |cells| && 0 <= k < |cells[i]| && cells[i][k] == cell
  }

  /** Some value is there, and the values spread over less than 1.2 times the row count. */
  ghost predicate Dense(cells: Cells, rows: nat) {
    exists lo, hi :: Spans(cells, lo, hi) && 5 * (hi - lo) < 6 * rows
  }

  lemma SpansUnique(cells: Cells, lo: int, hi: int, low: int, high: int)
    requires Spans(cells, lo, hi) && Spans(cells, low, high)
    ensures lo == low && hi == high
  {}

  lemma OccursHoldsCell(cells: Cells, entries: Entries, key: Entry)
    requires IntCoded(cells, entries) && key > 0 && Occurs(entries, key)
    ensures HoldsCell(cells, Val(Int(key - 1 + INT32_MIN)))
  {
    var i, k :| 0 <= i < |entries| && 0 <= k < |entries[i]| && entries[i][k] == key;
    assert Sizes(cells)[i] == Sizes(entries)[i];
    assert CellHasType(cells[i][k], IntType) && cells[i][k] == Val(Int(key - 1 + INT32_MIN));
  }

  lemma BoundsSpan(cells: Cells, entries: Entries, minKey: Entry, maxKey: Entry)
    requires IntCoded(cells, entries) && Bounds(entries, minKey, maxKey) && maxKey > 0 && minKey > 0
    requires Occurs(entries, minKey) && Occurs(entries, maxKey)
    ensures Spans(cells, minKey - 1 + INT32_MIN, maxKey - 1 + INT32_MIN)
  {
    OccursHoldsCell(cells, entries, minKey);
    OccursHoldsCell(cells, entries, maxKey);
    forall i, k | 0 <= i < |cells| && 0 <= k < |cells[i]| && cells[i][k].Val?
      ensures minKey <= IntCode(cells[i][k]) <= maxKey
    {
      assert Sizes(cells)[i] == Sizes(entries)[i];
      assert entries[i][k] == IntCode(cells[i][k]);
    }
  }

  lemma NothingToSpan(cells: Cells, entries: Entries)
    requires IntCoded(cells, entries)
    requires forall i, k :: 0 <= i < |entries| && 0 <= k < |entries[i]| ==> entries[i][k] == 0
    ensures forall cell :: HoldsCell(cells, cell) ==> cell == Null
  {
    forall i, k | 0 <= i < |cells| && 0 <= k < |cells[i]|
      ensures cells[i][k] == Null
    {
      assert Sizes(cells)[i] == Sizes(entries)[i];
      assert entries[i][k] == IntCode(cells[i][k]);
    }
  }

  /** The test on the keys is the density of the column. */
  lemma DenseExact(cells: Cells, entries: Entries, minKey: Entry, maxKey: Entry, rows: nat)
    requires IntCoded(cells, entries) && Bounds(entries, minKey, maxKey)
    requires maxKey > 0 ==> 0 < minKey <= maxKey && Occurs(entries, minKey) && Occurs(entries, maxKey)
    requires maxKey == 0 ==> forall i, k :: 0 <= i < |entries| && 0 <= k < |entries[i]| ==> entries[i][k] == 0
    ensures DenseEnough(minKey, maxKey, rows) <==> Dense(cells, rows)
  {
    if maxKey > 0 {
      BoundsSpan(cells, entries, minKey, maxKey);
      if Dense(cells, rows) {
        var lo, hi :| Spans(cells, lo, hi) && 5 * (hi - lo) < 6 * rows;
        SpansUnique(cells, lo, hi, minKey - 1 + INT32_MIN, maxKey - 1 + INT32_MIN);
      }
    } else {
      NothingToSpan(cells, entries);
    }
  }

  /** One key after the shortcut: the immediate index with the cache bit set. */
  function Rewritten(key: Entry, minKey: Entry): Entry
    requires key == 0 || minKey <= key
  {
    ImmediateIndex(key, minKey) + CACHE_MASK
  }

  method RewriteKeys(entries: Entries, minKey: Entry) returns (r: Entries)
    requires forall i, k :: 0 <= i < |entries| && 0 <= k < |entries[i]| ==>
               entries[i][k] == 0 || minKey <= entries[i][k]
    ensures Sizes(r) == Sizes(entries)
    ensures forall i, k :: 0 <= i < |entries| && 0 <= k < |entries[i]| ==> r[i][k] == Rewritten(entries[i][k], minKey)
  {
    r := [];
    for i := 0 to |entries|
      invariant |r| == i
      invariant forall j :: 0 <= j < i ==> |r[j]| == |entries[j]|
      invariant forall j, k :: 0 <= j < i && 0 <= k < |entries[j]| ==> r[j][k] == Rewritten(entries[j][k], minKey)
    {
      var keys: seq<Entry> := [];
      for k := 0 to |entries[i]|
        invariant |keys| == k
        invariant forall m :: 0 <= m < k ==> keys[m] == Rewritten(entries[i][m], minKey)
      {
        var key := entries[i][k];
        keys := keys + [if key == 0 then key + CACHE_MASK else (key - minKey + 1) + CACHE_MASK];
      }
      r := r + [keys];
    }
  }
}
