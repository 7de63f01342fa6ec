/** Sorting and limiting per worker, then once more over what the workers kept. */
module TopRows {
  import opened Sequences
  import opened Storage
  import opened SortOperator
  import LimitOperator

  // ----- sort keys -----

  /** Strictly before in the order of the sort columns, ties not broken. */
  predicate KeyBefore(modes: seq<SortMode>, a: Row, b: Row) {
    modes != [] && a != [] && b != [] &&
    (CellBefore(a[0], b[0], modes[0]) || (a[0] == b[0] && KeyBefore(modes[1..], a[1..], b[1..])))
  }

  lemma CellTotal(a: Cell, b: Cell, mode: SortMode)
    ensures !(CellBefore(a, b, mode) && CellBefore(b, a, mode))
    ensures a == b <==> !CellBefore(a, b, mode) && !CellBefore(b, a, mode)
  {
    if a.Val? && b.Val? {
      LessTotal(a.v, b.v);
    }
  }

  lemma {:induction false} KeyTotal(modes: seq<SortMode>, a: Row, b: Row)
    requires |a| == |b| == |modes|
    ensures !(KeyBefore(modes, a, b) && KeyBefore(modes, b, a))
    ensures a == b <==> !KeyBefore(modes, a, b) && !KeyBefore(modes, b, a)
  {
    if modes != [] {
      CellTotal(a[0], b[0], modes[0]);
      KeyTotal(modes[1..], a[1..], b[1..]);
      assert a == [a[0]] + a[1..] && b == [b[0]] + b[1..];
    }
  }

  lemma CellTransitive(a: Cell, b: Cell, c: Cell, mode: SortMode)
    requires CellBefore(a, b, mode) && CellBefore(b, c, mode)
    ensures CellBefore(a, c, mode)
  {
    if a.Val? {
      if mode.Ascending? {
        LessTransitive(a.v, b.v, c.v);
      } else {
        LessTransitive(c.v, b.v, a.v);
      }
    }
  }

  lemma {:induction false} KeyTransitive(modes: seq<SortMode>, a: Row, b: Row, c: Row)
    requires KeyBefore(modes, a, b) && KeyBefore(modes, b, c)
    ensures KeyBefore(modes, a, c)
  {
    if CellBefore(a[0], b[0], modes[0]) && CellBefore(b[0], c[0], modes[0]) {
      CellTransitive(a[0], b[0], c[0], modes[0]);
    } else if a[0] == b[0] && b[0] == c[0] && !CellBefore(a[0], c[0], modes[0]) {
      CellTotal(a[0], b[0], modes[0]);
      KeyTransitive(modes[1..], a[1..], b[1..], c[1..]);
    }
  }

  ghost predicate Width(s: seq<Row>, n: nat) {
    forall k :: 0 <= k < |s| ==> |s[k]| == n
  }

  ghost predicate Ordered(modes: seq<SortMode>, s: seq<Row>) {
    forall i, j :: 0 <= i < j < |s| ==> !KeyBefore(modes, s[j], s[i])
  }

  lemma OrderedHeads(modes: seq<SortMode>, s: seq<Row>, t: seq<Row>)
    requires s != [] && multiset(s) == multiset(t) && Ordered(modes, s) && Ordered(modes, t)
    requires Width(s, |modes|)
    ensures t != [] && s[0] == t[0]
  {
    PermutedLength(s, t);
    PermutedMembers(s, t, s[0]);
    PermutedMembers(s, t, t[0]);
    var i :| 0 <= i < |s| && s[i] == t[0];
    var j :| 0 <= j < |t| && t[j] == s[0];
    KeyTotal(modes, s[0], t[0]);
  }

  lemma TailPermuted(s: seq<Row>, t: seq<Row>)
    requires s != [] && t != [] && s[0] == t[0] && multiset(s) == multiset(t)
    ensures multiset(s[1..]) == multiset(t[1..])
  {
    RemoveAt(s, 0);
    RemoveAt(t, 0);
    assert s[..0] + s[1..] == s[1..] && t[..0] + t[1..] == t[1..];
  }

  /** An ordered list is determined by its members. */
  lemma {:induction false} OrderedUnique(modes: seq<SortMode>, s: seq<Row>, t: seq<Row>)
    requires multiset(s) == multiset(t) && Ordered(modes, s) && Ordered(modes, t) && Width(s, |modes|)
    ensures s == t
  {
    PermutedLength(s, t);
    if s != [] {
      OrderedHeads(modes, s, t);
      TailPermuted(s, t);
      OrderedUnique(modes, s[1..], t[1..]);
      assert s == [s[0]] + s[1..] && t == [t[0]] + t[1..];
    }
  }

  // ----- an insertion sort of keys, as the reference -----

  function Insert(modes: seq<SortMode>, x: Row, s: seq<Row>): seq<Row> {
    if s != [] && KeyBefore(modes, s[0], x) then [s[0]] + Insert(modes, x, s[1..]) else [x] + s
  }

  function InsertAll(modes: seq<SortMode>, xs: seq<Row>, s: seq<Row>): seq<Row> {
    if xs == [] then s else Insert(modes, xs[0], InsertAll(modes, xs[1..], s))
  }

  function Arranged(modes: seq<SortMode>, s: seq<Row>): seq<Row> {
    InsertAll(modes, s, [])
  }

  function First(k: nat, s: seq<Row>): (r: seq<Row>)
    ensures |r| <= k && |r| <= |s|
  {
    if k <= |s| then s[..k] else s
  }

  function TopOf(modes: seq<SortMode>, k: nat, s: seq<Row>): seq<Row> {
    First(k, Arranged(modes, s))
  }

  lemma {:induction false} InsertPermutes(modes: seq<SortMode>, x: Row, s: seq<Row>)
    ensures multiset(Insert(modes, x, s)) == multiset(s) + multiset{x}
  {
    if s != [] && KeyBefore(modes, s[0], x) {
      InsertPermutes(modes, x, s[1..]);
      assert s == [s[0]] + s[1..];
    }
  }

  lemma {:induction false} InsertAllPermutes(modes: seq<SortMode>, xs: seq<Row>, s: seq<Row>)
    ensures multiset(InsertAll(modes, xs, s)) == multiset(xs) + multiset(s)
  {
    if xs != [] {
      InsertAllPermutes(modes, xs[1..], s);
      InsertPermutes(modes, xs[0], InsertAll(modes, xs[1..], s));
      assert xs == [xs[0]] + xs[1..];
    }
  }

  lemma NotBeforeTransitive(modes: seq<SortMode>, a: Row, b: Row, c: Row)
    requires |a| == |b| == |c| == |modes|
    requires !KeyBefore(modes, b, a) && !KeyBefore(modes, c, b)
    ensures !KeyBefore(modes, c, a)
  {
    KeyTotal(modes, a, b);
    KeyTotal(modes, b, c);
    if KeyBefore(modes, c, a) && a != b {
      KeyTransitive(modes, c, a, b);
    }
  }

  lemma {:induction false} InsertOrders(modes: seq<SortMode>, x: Row, s: seq<Row>)
    requires Ordered(modes, s) && Width(s, |modes|) && |x| == |modes|
    ensures Ordered(modes, Insert(modes, x, s)) && Width(Insert(modes, x, s), |modes|)
  {
    if s != [] {
      if KeyBefore(modes, s[0], x) {
        InsertOrders(modes, x, s[1..]);
        var r := Insert(modes, x, s[1..]);
        InsertPermutes(modes, x, s[1..]);
        KeyTotal(modes, s[0], x);
        forall j | 0 <= j < |r|
          ensures !KeyBefore(modes, r[j], s[0])
        {
          assert r[j] in multiset(s[1..]) + multiset{x};
        }
      } else {
        forall j | 0 <= j < |s|
          ensures !KeyBefore(modes, s[j], x)
        {
          if j > 0 {
            NotBeforeTransitive(modes, x, s[0], s[j]);
          }
        }
      }
    }
  }

  lemma {:induction false} InsertAllOrders(modes: seq<SortMode>, xs: seq<Row>, s: seq<Row>)
    requires Ordered(modes, s) && Width(s, |modes|) && Width(xs, |modes|)
    ensures Ordered(modes, InsertAll(modes, xs, s)) && Width(InsertAll(modes, xs, s), |modes|)
  {
    if xs != [] {
      InsertAllOrders(modes, xs[1..], s);
      InsertOrders(modes, xs[0], InsertAll(modes, xs[1..], s));
    }
  }

  /** Any ordered permutation is the arrangement. */
  lemma ArrangedUnique(modes: seq<SortMode>, s: seq<Row>, t: seq<Row>)
    requires multiset(s) == multiset(t) && Ordered(modes, t) && Width(s, |modes|)
    ensures Arranged(modes, s) == t
  {
    InsertAllOrders(modes, s, []);
    InsertAllPermutes(modes, s, []);
    OrderedUnique(modes, Arranged(modes, s), t);
  }

  lemma ArrangedPermuted(modes: seq<SortMode>, s: seq<Row>, t: seq<Row>)
    requires multiset(s) == multiset(t) && Width(s, |modes|)
    ensures Arranged(modes, s) == Arranged(modes, t)
  {
    WidthPermuted(s, t, |modes|);
    InsertAllOrders(modes, t, []);
    InsertAllPermutes(modes, t, []);
    ArrangedUnique(modes, s, Arranged(modes, t));
  }

  lemma WidthPermuted(s: seq<Row>, t: seq<Row>, n: nat)
    requires multiset(t) <= multiset(s) && Width(s, n)
    ensures Width(t, n)
  {
    forall k | 0 <= k < |t|
      ensures |t[k]| == n
    {
      assert t[k] in multiset(t) && t[k] in multiset(s);
    }
  }

  // ----- only the first k of the list inserted into matter -----

  lemma {:induction false} FirstOfInsert(modes: seq<SortMode>, k: nat, x: Row, s: seq<Row>)
    ensures First(k, Insert(modes, x, s)) == First(k, Insert(modes, x, First(k, s)))
  {
    if k > 0 && s != [] {
      var f := First(k, s);
      assert f[0] == s[0] && f[1..] == First(k - 1, s[1..]);
      if KeyBefore(modes, s[0], x) {
        FirstOfInsert(modes, k - 1, x, s[1..]);
        FirstOfCons(k, s[0], Insert(modes, x, s[1..]));
        FirstOfCons(k, s[0], Insert(modes, x, f[1..]));
      } else {
        FirstOfCons(k, x, s);
        FirstOfCons(k, x, f);
        FirstTwice(k - 1, k, s);
      }
    }
  }

  lemma FirstOfCons(k: nat, x: Row, s: seq<Row>)
    requires k > 0
    ensures First(k, [x] + s) == [x] + First(k - 1, s)
  {}

  lemma FirstTwice(j: nat, k: nat, s: seq<Row>)
    requires j <= k
    ensures First(j, First(k, s)) == First(j, s)
  {}

  lemma {:induction false} FirstOfInsertAll(modes: seq<SortMode>, k: nat, xs: seq<Row>, s: seq<Row>)
    ensures First(k, InsertAll(modes, xs, s)) == First(k, InsertAll(modes, xs, First(k, s)))
  {
    if xs == [] {
      FirstTwice(k, k, s);
    } else {
      FirstOfInsertAll(modes, k, xs[1..], s);
      FirstOfInsert(modes, k, xs[0], InsertAll(modes, xs[1..], s));
      FirstOfInsert(modes, k, xs[0], InsertAll(modes, xs[1..], First(k, s)));
    }
  }

  lemma {:induction false} InsertAllAppend(modes: seq<SortMode>, xs: seq<Row>, ys: seq<Row>)
    ensures InsertAll(modes, xs + ys, []) == InsertAll(modes, xs, InsertAll(modes, ys, []))
  {
    if xs == [] {
      assert xs + ys == ys;
    } else {
      InsertAllAppend(modes, xs[1..], ys);
      assert (xs + ys)[1..] == xs[1..] + ys;
    }
  }

  /** One of two lists may be cut to its first k. */
  lemma TopOfRight(modes: seq<SortMode>, k: nat, xs: seq<Row>, ys: seq<Row>)
    requires Width(ys, |modes|)
    ensures TopOf(modes, k, xs + TopOf(modes, k, ys)) == TopOf(modes, k, xs + ys)
  {
    var top := TopOf(modes, k, ys);
    InsertAllOrders(modes, ys, []);
    ArrangedUnique(modes, top, top);
    InsertAllAppend(modes, xs, ys);
    InsertAllAppend(modes, xs, top);
    FirstOfInsertAll(modes, k, xs, Arranged(modes, ys));
  }

  lemma TopWidth(modes: seq<SortMode>, k: nat, s: seq<Row>)
    requires Width(s, |modes|)
    ensures Width(TopOf(modes, k, s), |modes|)
  {
    InsertAllOrders(modes, s, []);
  }

  lemma TopOfBoth(modes: seq<SortMode>, k: nat, xs: seq<Row>, ys: seq<Row>)
    requires Width(xs, |modes|) && Width(ys, |modes|)
    ensures TopOf(modes, k, TopOf(modes, k, xs) + TopOf(modes, k, ys)) == TopOf(modes, k, xs + ys)
  {
    var top := TopOf(modes, k, xs);
    TopWidth(modes, k, xs);
    TopOfRight(modes, k, top, ys);
    ArrangedPermuted(modes, top + ys, ys + top);
    TopOfRight(modes, k, ys, xs);
    ArrangedPermuted(modes, ys + xs, xs + ys);
  }

  function Tops(modes: seq<SortMode>, k: nat): seq<Row> -> seq<Row> {
    s => TopOf(modes, k, s)
  }

  lemma {:induction false} ConcatWidth(parts: seq<seq<Row>>, n: nat)
    requires forall i :: 0 <= i < |parts| ==> Width(parts[i], n)
    ensures Width(Concat(parts), n)
  {
    if parts != [] {
      ConcatWidth(parts[..|parts| - 1], n);
    }
  }

  /** The top k of the workers' top k are the top k of everything. */
  lemma {:induction false} TopOfTops(modes: seq<SortMode>, k: nat, parts: seq<seq<Row>>)
    requires forall i :: 0 <= i < |parts| ==> Width(parts[i], |modes|)
    ensures TopOf(modes, k, Concat(Map(Tops(modes, k), parts))) == TopOf(modes, k, Concat(parts))
  {
    if parts == [] {
      assert Map(Tops(modes, k), parts) == [];
    } else {
      var front, last := parts[..|parts| - 1], parts[|parts| - 1];
      var tops, top := Concat(Map(Tops(modes, k), front)), TopOf(modes, k, last);
      TopOfTops(modes, k, front);
      MapLast(Tops(modes, k), parts);
      ConcatSnoc(Map(Tops(modes, k), front), top);
      ConcatWidth(front, |modes|);
      TopWidths(modes, k, front);
      TopWidth(modes, k, last);
      TopOfBoth(modes, k, tops, top);
      TopOfBoth(modes, k, Concat(front), last);
      TopTwice(modes, k, last);
    }
  }

  lemma TopWidths(modes: seq<SortMode>, k: nat, parts: seq<seq<Row>>)
    requires forall i :: 0 <= i < |parts| ==> Width(parts[i], |modes|)
    ensures Width(Concat(Map(Tops(modes, k), parts)), |modes|)
  {
    forall i | 0 <= i < |parts|
      ensures Width(Map(Tops(modes, k), parts)[i], |modes|)
    {
      TopWidth(modes, k, parts[i]);
    }
    ConcatWidth(Map(Tops(modes, k), parts), |modes|);
  }

  lemma TopTwice(modes: seq<SortMode>, k: nat, s: seq<Row>)
    requires Width(s, |modes|)
    ensures TopOf(modes, k, TopOf(modes, k, s)) == TopOf(modes, k, s)
  {
    InsertAllOrders(modes, s, []);
    ArrangedUnique(modes, TopOf(modes, k, s), TopOf(modes, k, s));
  }

  // ----- the operators -----

  function Modes(columns: seq<SortColumn>): seq<SortMode> {
    Map((column: SortColumn) => column.mode, columns)
  }

  /** The cells a row is sorted by. */
  function KeyOf(columns: seq<SortColumn>): Row -> Row {
    row => Map((column: SortColumn) => Component(row, column.column), columns)
  }

  /** Some k rows whose keys are the first k in sort order. */
  ghost predicate IsTop(columns: seq<SortColumn>, k: nat, rows: seq<Row>, top: seq<Row>) {
    && Map(KeyOf(columns), top) == TopOf(Modes(columns), k, Map(KeyOf(columns), rows))
    && multiset(top) <= multiset(rows)
  }

  lemma {:induction false} KeysFollow(t: Table, columns: seq<SortColumn>, p: RowId, q: RowId)
    requires ValidTable(t) && LexBefore(t, columns, p, q)
    ensures !KeyBefore(Modes(columns), KeyOf(columns)(RowAt(t, q)), KeyOf(columns)(RowAt(t, p)))
  {
    if columns != [] {
      var c := columns[0].column;
      CellTotal(CellAt(t, p, c), CellAt(t, q, c), columns[0].mode);
      assert Component(RowAt(t, p), c) == CellAt(t, p, c) && Component(RowAt(t, q), c) == CellAt(t, q, c);
      KeyTail(columns, RowAt(t, p));
      KeyTail(columns, RowAt(t, q));
      assert Modes(columns)[1..] == Modes(columns[1..]);
      if !CellBefore(CellAt(t, p, c), CellAt(t, q, c), columns[0].mode) {
        KeysFollow(t, columns[1..], p, q);
      }
    }
  }

  lemma KeyTail(columns: seq<SortColumn>, row: Row)
    requires columns != []
    ensures KeyOf(columns)(row) == [Component(row, columns[0].column)] + KeyOf(columns[1..])(row)
  {}

  lemma KeyWidths(columns: seq<SortColumn>, rows: seq<Row>)
    ensures Width(Map(KeyOf(columns), rows), |Modes(columns)|)
  {}

  /** What the sort operator promises, read on rows. */
  lemma SortedKeys(t: Table, columns: seq<SortColumn>, ps: seq<RowId>)
    requires ValidTable(t) && IsSortOf(t, columns, ps)
    ensures Map(KeyOf(columns), Map(RowOf(t), ps)) == Arranged(Modes(columns), Map(KeyOf(columns), Rows(t)))
    ensures multiset(Map(RowOf(t), ps)) == multiset(Rows(t))
  {
    var rows := Map(RowOf(t), ps);
    var keys := Map(KeyOf(columns), rows);
    MapPermuted(RowOf(t), ps, Positions(ChunkSizes(t)));
    MapPermuted(KeyOf(columns), Rows(t), rows);
    forall i, j | 0 <= i < j < |keys|
      ensures !KeyBefore(Modes(columns), keys[j], keys[i])
    {
      KeysFollow(t, columns, ps[i], ps[j]);
    }
    KeyWidths(columns, Rows(t));
    ArrangedUnique(Modes(columns), Map(KeyOf(columns), Rows(t)), keys);
  }

  lemma FirstOfMap<T, U>(f: T -> U, s: seq<T>, k: nat)
    requires k <= |s|
    ensures Map(f, s[..k]) == Map(f, s)[..k]
    ensures multiset(s[..k]) <= multiset(s)
  {
    assert s == s[..k] + s[k..];
  }

  predicate SortableBy(t: Table, columns: seq<SortColumn>) {
    forall c :: 0 <= c < |columns| ==> columns[c].column < |t.definitions|
  }

  lemma LimitedIsTop(t: Table, columns: seq<SortColumn>, k: nat, ps: seq<RowId>, top: seq<Row>)
    requires ValidTable(t) && IsSortOf(t, columns, ps)
    requires top == Map(RowOf(t), ps)[..LimitOperator.Min(k, |ps|)]
    ensures IsTop(columns, k, Rows(t), top)
  {
    SortedKeys(t, columns, ps);
    FirstOfMap(KeyOf(columns), Map(RowOf(t), ps), LimitOperator.Min(k, |ps|));
  }

  /** Sort, then limit: the last two steps of the query's pipelines. */
  method SortLimit(t: Table, columns: seq<SortColumn>, k: nat) returns (r: Result<Table>)
    requires ValidTable(t) && columns != [] && k < 0x8000_0000
    ensures r.Ok? <==> !HasNull(t) && SortableBy(t, columns)
    ensures r.Ok? ==> ValidTable(r.value) && r.value.definitions == t.definitions
    ensures r.Ok? ==> IsTop(columns, k, Rows(t), Rows(r.value))
  {
    ghost var ps;
    r, ps := SortOperator.Execute(t, columns);
    if r.Ok? {
      ghost var rows := Rows(r.value);
      var top := LimitOperator.Execute(r.value, k);
      assert Rows(top) == rows[..LimitOperator.Min(k, |rows|)];
      LimitedIsTop(t, columns, k, ps, Rows(top));
      r := Ok(top);
    }
  }

  lemma CutOff(keys: seq<Row>, front: seq<Row>, left: seq<Row>)
    requires multiset(keys) == multiset(front + left) && |front| <= |keys| && keys[..|front|] == front
    ensures multiset(keys[|front|..]) == multiset(left)
  {
    assert keys == front + keys[|front|..];
    assert multiset(keys) == multiset(front) + multiset(keys[|front|..]) == multiset(front) + multiset(left);
    assert multiset(keys[|front|..]) == multiset(keys) - multiset(front);
  }

  lemma KeysLeft(columns: seq<SortColumn>, k: nat, rows: seq<Row>, top: seq<Row>, left: seq<Row>)
    requires IsTop(columns, k, rows, top) && multiset(rows) == multiset(top + left)
    ensures multiset(Map(KeyOf(columns), left)) ==
            multiset(Arranged(Modes(columns), Map(KeyOf(columns), rows))[|top|..])
  {
    var keys, f := Arranged(Modes(columns), Map(KeyOf(columns), rows)), KeyOf(columns);
    InsertAllPermutes(Modes(columns), Map(f, rows), []);
    MapPermuted(f, rows, top + left);
    MapAppend(f, top, left);
    CutOff(keys, Map(f, top), Map(f, left));
  }

  /** The top is in order, it is cut off at k, and nothing that is left out comes before any of its rows. */
  lemma TopExact(columns: seq<SortColumn>, k: nat, rows: seq<Row>, top: seq<Row>, left: seq<Row>)
    requires IsTop(columns, k, rows, top) && multiset(rows) == multiset(top + left)
    ensures |top| == if |rows| < k then |rows| else k
    ensures Ordered(Modes(columns), Map(KeyOf(columns), top))
    ensures forall i, j :: 0 <= i < |top| && 0 <= j < |left| ==>
              !KeyBefore(Modes(columns), KeyOf(columns)(left[j]), KeyOf(columns)(top[i]))
  {
    var keys := Arranged(Modes(columns), Map(KeyOf(columns), rows));
    InsertAllPermutes(Modes(columns), Map(KeyOf(columns), rows), []);
    PermutedLength(keys, Map(KeyOf(columns), rows));
    KeyWidths(columns, rows);
    InsertAllOrders(Modes(columns), Map(KeyOf(columns), rows), []);
    assert Map(KeyOf(columns), top) == keys[..|top|];
    KeysLeft(columns, k, rows, top, left);
    forall i, j | 0 <= i < |top| && 0 <= j < |left|
      ensures !KeyBefore(Modes(columns), KeyOf(columns)(left[j]), KeyOf(columns)(top[i]))
    {
      PermutedMembers(Map(KeyOf(columns), left), keys[|top|..], Map(KeyOf(columns), left)[j]);
      assert Map(KeyOf(columns), top)[i] == keys[i];
    }
  }

  lemma TopKeysPermuted(columns: seq<SortColumn>, k: nat, rows: seq<Row>, others: seq<Row>, top: seq<Row>)
    requires multiset(rows) == multiset(others) && IsTop(columns, k, rows, top)
    ensures IsTop(columns, k, others, top)
  {
    MapPermuted(KeyOf(columns), rows, others);
    KeyWidths(columns, rows);
    ArrangedPermuted(Modes(columns), Map(KeyOf(columns), rows), Map(KeyOf(columns), others));
  }

  lemma {:induction false} ConcatWithin(parts: seq<seq<Row>>, wholes: seq<seq<Row>>)
    requires |parts| == |wholes|
    requires forall i :: 0 <= i < |parts| ==> multiset(parts[i]) <= multiset(wholes[i])
    ensures multiset(Concat(parts)) <= multiset(Concat(wholes))
  {
    if parts != [] {
      ConcatWithin(parts[..|parts| - 1], wholes[..|parts| - 1]);
    }
  }

  lemma KeysOfTops(columns: seq<SortColumn>, k: nat, parts: seq<seq<Row>>, tops: seq<seq<Row>>)
    requires |parts| == |tops|
    requires forall i :: 0 <= i < |parts| ==> IsTop(columns, k, parts[i], tops[i])
    ensures Map(Tops(Modes(columns), k), Map(Mapped(KeyOf(columns)), parts)) == Map(Mapped(KeyOf(columns)), tops)
  {
    assert forall i :: 0 <= i < |parts| ==> IsTop(columns, k, parts[i], tops[i]);
  }

  /** Workers keep their top k; the top k of what they kept is the top k of everything. */
  lemma DistributedTop(columns: seq<SortColumn>, k: nat, parts: seq<seq<Row>>, tops: seq<seq<Row>>, top: seq<Row>)
    requires |parts| == |tops|
    requires forall i :: 0 <= i < |parts| ==> IsTop(columns, k, parts[i], tops[i])
    requires IsTop(columns, k, Concat(tops), top)
    ensures IsTop(columns, k, Concat(parts), top)
  {
    var keys := Map(Mapped(KeyOf(columns)), parts);
    MapConcat(KeyOf(columns), parts);
    MapConcat(KeyOf(columns), tops);
    forall i | 0 <= i < |keys|
      ensures Width(keys[i], |Modes(columns)|)
    {
      KeyWidths(columns, parts[i]);
    }
    KeysOfTops(columns, k, parts, tops);
    TopOfTops(Modes(columns), k, keys);
    ConcatWithin(tops, parts);
  }

  // ----- when the sort keys tell the rows apart -----

  ghost predicate DistinctKeys(columns: seq<SortColumn>, rows: seq<Row>) {
    forall i, j :: 0 <= i < j < |rows| ==> KeyOf(columns)(rows[i]) != KeyOf(columns)(rows[j])
  }

  lemma SameKeysSameRows(columns: seq<SortColumn>, rows: seq<Row>, others: seq<Row>)
    requires multiset(rows) == multiset(others) && DistinctKeys(columns, rows)
    requires Map(KeyOf(columns), rows) == Map(KeyOf(columns), others)
    ensures rows == others
  {
    PermutedLength(rows, others);
    forall i | 0 <= i < |rows|
      ensures rows[i] == others[i]
    {
      PermutedMembers(rows, others, others[i]);
      var j :| 0 <= j < |rows| && rows[j] == others[i];
      assert KeyOf(columns)(rows[j]) == Map(KeyOf(columns), others)[i] == Map(KeyOf(columns), rows)[i];
    }
  }

  lemma {:induction false} DistinctPermuted(columns: seq<SortColumn>, rows: seq<Row>, others: seq<Row>)
    requires multiset(rows) == multiset(others) && DistinctKeys(columns, rows)
    ensures DistinctKeys(columns, others)
  {
    var keys, otherKeys := Map(KeyOf(columns), rows), Map(KeyOf(columns), others);
    MapPermuted(KeyOf(columns), rows, others);
    assert NoDup(keys);
    NoDupPermuted(keys, otherKeys);
    assert forall i :: 0 <= i < |others| ==> otherKeys[i] == KeyOf(columns)(others[i]);
  }

  /** Tables with the same rows, whose keys differ, come out of the sort operator row by row the same. */
  lemma SortedRowsUnique(t: Table, u: Table, columns: seq<SortColumn>, ps: seq<RowId>, qs: seq<RowId>)
    requires ValidTable(t) && ValidTable(u) && multiset(Rows(t)) == multiset(Rows(u)) && DistinctKeys(columns, Rows(t))
    requires IsSortOf(t, columns, ps) && IsSortOf(u, columns, qs)
    ensures Map(RowOf(t), ps) == Map(RowOf(u), qs)
  {
    SortedKeys(t, columns, ps);
    SortedKeys(u, columns, qs);
    MapPermuted(KeyOf(columns), Rows(t), Rows(u));
    KeyWidths(columns, Rows(t));
    ArrangedPermuted(Modes(columns), Map(KeyOf(columns), Rows(t)), Map(KeyOf(columns), Rows(u)));
    DistinctPermuted(columns, Rows(t), Map(RowOf(t), ps));
    SameKeysSameRows(columns, Map(RowOf(t), ps), Map(RowOf(u), qs));
  }
}
