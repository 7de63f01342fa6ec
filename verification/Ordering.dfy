/** What the order on values means for numbers and strings, and what the sort operator does with them. */
module Ordering {
  import opened Sequences
  import opened Storage
  import opened SortOperator

  // ----- values -----

  /** a ends where b goes on. */
  ghost predicate ProperPrefix(a: seq<Byte>, b: seq<Byte>) {
    |a| < |b| && a == b[..|a|]
  }

  /** k is the first place where the strings differ, and a has the smaller byte there. */
  ghost predicate SmallerAt(a: seq<Byte>, b: seq<Byte>, k: nat) {
    k < |a| && k < |b| && a[..k] == b[..k] && a[k] < b[k]
  }

  ghost predicate TextBefore(a: seq<Byte>, b: seq<Byte>) {
    ProperPrefix(a, b) || exists k :: SmallerAt(a, b, k)
  }

  lemma FirstByte(a: seq<Byte>, b: seq<Byte>)
    requires a != [] && b != [] && a[0] == b[0]
    ensures ProperPrefix(a, b) <==> ProperPrefix(a[1..], b[1..])
    ensures forall k: nat :: SmallerAt(a[1..], b[1..], k) <==> SmallerAt(a, b, k + 1)
    ensures !SmallerAt(a, b, 0)
  {
    assert a == [a[0]] + a[1..] && b == [b[0]] + b[1..];
    if ProperPrefix(a, b) {
      assert a[1..] == b[1..][..|a| - 1];
    }
    if ProperPrefix(a[1..], b[1..]) {
      assert b[..|a|] == [b[0]] + b[1..][..|a| - 1];
    }
    forall k: nat
      ensures SmallerAt(a[1..], b[1..], k) <==> SmallerAt(a, b, k + 1)
    {
      if k < |a| - 1 && k < |b| - 1 {
        assert a[..k + 1] == [a[0]] + a[1..][..k] && b[..k + 1] == [b[0]] + b[1..][..k];
        assert a[1..][..k] == a[..k + 1][1..] && b[1..][..k] == b[..k + 1][1..];
      }
    }
  }

  /** Strings are compared like std::string, byte by byte. */
  lemma {:induction false} BytesLessExact(a: seq<Byte>, b: seq<Byte>)
    ensures BytesLess(a, b) <==> TextBefore(a, b)
  {
    if a == [] || b == [] {
      assert a == [] && b != [] ==> ProperPrefix(a, b);
    } else if a[0] == b[0] {
      BytesLessExact(a[1..], b[1..]);
      FirstByte(a, b);
      if k: nat :| SmallerAt(a, b, k) {
        assert SmallerAt(a[1..], b[1..], k - 1);
      }
      if k: nat :| SmallerAt(a[1..], b[1..], k) {
        assert SmallerAt(a, b, k + 1);
      }
    } else {
      OtherFirstByte(a, b);
    }
  }

  lemma PrefixHead(a: seq<Byte>, b: seq<Byte>)
    requires a != [] && ProperPrefix(a, b)
    ensures a[0] == b[0]
  {}

  lemma SmallerHead(a: seq<Byte>, b: seq<Byte>, k: nat)
    requires k > 0 && SmallerAt(a, b, k)
    ensures a[0] == b[0]
  {
    assert a[..k][0] == b[..k][0];
  }

  lemma OtherFirstByte(a: seq<Byte>, b: seq<Byte>)
    requires a != [] && b != [] && a[0] != b[0]
    ensures TextBefore(a, b) <==> a[0] < b[0]
  {
    if ProperPrefix(a, b) {
      PrefixHead(a, b);
    }
    if k: nat :| SmallerAt(a, b, k) {
      if k > 0 {
        SmallerHead(a, b, k);
      }
    }
    if a[0] < b[0] {
      assert SmallerAt(a, b, 0);
    }
  }

  /** `<` on two values of one type. */
  lemma LessExact(a: Value, b: Value)
    ensures a.Int? && b.Int? ==> (Less(a, b) <==> a.i < b.i)
    ensures a.Dec? && b.Dec? ==> (Less(a, b) <==> a.r < b.r)
    ensures a.Text? && b.Text? ==> (Less(a, b) <==> TextBefore(a.bytes, b.bytes))
  {
    if a.Text? && b.Text? {
      BytesLessExact(a.bytes, b.bytes);
    }
  }

  // ----- sorted rows -----

  /** Two cells of one column: NULL, or values of the same type. */
  predicate Comparable(a: Cell, b: Cell) {
    a.Null? || b.Null? || (a.v.Int? && b.v.Int?) || (a.v.Dec? && b.v.Dec?) || (a.v.Text? && b.v.Text?)
  }

  /** NULL first in both modes; smaller values first when ascending, larger ones when descending. */
  ghost predicate Precedes(a: Cell, b: Cell, mode: SortMode) {
    match (a, b)
    case (Null, Val(_)) => true
    case (Val(Int(x)), Val(Int(y))) => if mode == Ascending then x < y else x > y
    case (Val(Dec(x)), Val(Dec(y))) => if mode == Ascending then x < y else x > y
    case (Val(Text(x)), Val(Text(y))) => if mode == Ascending then TextBefore(x, y) else TextBefore(y, x)
    case _ => false
  }

  lemma PrecedesExact(a: Cell, b: Cell, mode: SortMode)
    requires Comparable(a, b)
    ensures CellBefore(a, b, mode) <==> Precedes(a, b, mode)
  {
    if a.Val? && b.Val? {
      LessExact(a.v, b.v);
      LessExact(b.v, a.v);
    }
  }

  ghost predicate ColumnsComparable(t: Table, columns: seq<SortColumn>, p: RowId, q: RowId) {
    forall k :: 0 <= k < |columns| ==> Comparable(CellAt(t, p, columns[k].column), CellAt(t, q, columns[k].column))
  }

  /** The rows agree on the first k columns. */
  ghost predicate AgreeOn(t: Table, columns: seq<SortColumn>, p: RowId, q: RowId, k: nat) {
    k <= |columns| &&
    forall m :: 0 <= m < k ==> CellAt(t, p, columns[m].column) == CellAt(t, q, columns[m].column)
  }

  /** Column k is the first one to tell the rows apart. */
  ghost predicate DecidedAt(t: Table, columns: seq<SortColumn>, p: RowId, q: RowId, k: nat) {
    && k < |columns| && AgreeOn(t, columns, p, q, k)
    && Precedes(CellAt(t, p, columns[k].column), CellAt(t, q, columns[k].column), columns[k].mode)
  }

  ghost predicate RowPrecedes(t: Table, columns: seq<SortColumn>, p: RowId, q: RowId) {
    || (exists k :: DecidedAt(t, columns, p, q, k))
    || (AgreeOn(t, columns, p, q, |columns|) && (p.chunk < q.chunk || (p.chunk == q.chunk && p.offset < q.offset)))
  }

  lemma LaterColumns(t: Table, columns: seq<SortColumn>, p: RowId, q: RowId)
    requires columns != [] && CellAt(t, p, columns[0].column) == CellAt(t, q, columns[0].column)
    ensures forall k: nat :: AgreeOn(t, columns, p, q, k + 1) <==> AgreeOn(t, columns[1..], p, q, k)
    ensures forall k: nat :: DecidedAt(t, columns, p, q, k + 1) <==> DecidedAt(t, columns[1..], p, q, k)
    ensures !DecidedAt(t, columns, p, q, 0)
  {
    forall k: nat
      ensures AgreeOn(t, columns, p, q, k + 1) <==> AgreeOn(t, columns[1..], p, q, k)
    {
      if AgreeOn(t, columns, p, q, k + 1) {
        assert forall m :: 0 <= m < k ==> columns[1..][m] == columns[m + 1];
      }
      if AgreeOn(t, columns[1..], p, q, k) {
        assert forall m :: 0 < m < k + 1 ==> columns[m] == columns[1..][m - 1];
      }
    }
    SameNotBefore(CellAt(t, p, columns[0].column), columns[0].mode);
  }

  lemma SameNotBefore(a: Cell, mode: SortMode)
    ensures !Precedes(a, a, mode)
  {
    if a.Val? {
      LessExact(a.v, a.v);
      LessTotal(a.v, a.v);
    }
  }

  /** The order of the sort operator: by the first column that tells two rows apart, ties in input order. */
  lemma {:induction false} LexBeforeExact(t: Table, columns: seq<SortColumn>, p: RowId, q: RowId)
    requires ColumnsComparable(t, columns, p, q)
    ensures LexBefore(t, columns, p, q) <==> RowPrecedes(t, columns, p, q)
  {
    if columns == [] {
      assert AgreeOn(t, columns, p, q, 0);
    } else {
      var a, b := CellAt(t, p, columns[0].column), CellAt(t, q, columns[0].column);
      PrecedesExact(a, b, columns[0].mode);
      if a == b {
        assert ColumnsComparable(t, columns[1..], p, q);
        LexBeforeExact(t, columns[1..], p, q);
        LaterColumns(t, columns, p, q);
        RestDecides(t, columns, p, q);
        SameNotBefore(a, columns[0].mode);
      } else {
        FirstDecides(t, columns, p, q);
      }
    }
  }

  lemma RestDecides(t: Table, columns: seq<SortColumn>, p: RowId, q: RowId)
    requires columns != [] && CellAt(t, p, columns[0].column) == CellAt(t, q, columns[0].column)
    ensures RowPrecedes(t, columns, p, q) <==> RowPrecedes(t, columns[1..], p, q)
  {
    LaterColumns(t, columns, p, q);
    if k: nat :| DecidedAt(t, columns, p, q, k) {
      assert DecidedAt(t, columns[1..], p, q, k - 1);
    }
    if k: nat :| DecidedAt(t, columns[1..], p, q, k) {
      assert DecidedAt(t, columns, p, q, k + 1);
    }
    assert AgreeOn(t, columns, p, q, |columns|) <==> AgreeOn(t, columns[1..], p, q, |columns| - 1);
  }

  lemma FirstDecides(t: Table, columns: seq<SortColumn>, p: RowId, q: RowId)
    requires columns != [] && CellAt(t, p, columns[0].column) != CellAt(t, q, columns[0].column)
    ensures RowPrecedes(t, columns, p, q) <==>
            Precedes(CellAt(t, p, columns[0].column), CellAt(t, q, columns[0].column), columns[0].mode)
  {
    assert AgreeOn(t, columns, p, q, 0);
    assert Precedes(CellAt(t, p, columns[0].column), CellAt(t, q, columns[0].column), columns[0].mode) ==>
           DecidedAt(t, columns, p, q, 0);
    forall k: nat | DecidedAt(t, columns, p, q, k)
      ensures k == 0
    {}
  }

  // ----- the operator on one column -----

  ghost predicate IntColumn(t: Table, c: nat) {
    forall p :: InRange(p, ChunkSizes(t)) ==> CellAt(t, p, c).Val? && CellAt(t, p, c).v.Int?
  }

  /** The integer of a row. */
  function IntIn(row: Row, c: nat): int {
    if c < |row| && row[c].Val? && row[c].v.Int? then row[c].v.i else 0
  }

  lemma IntsInOrder(t: Table, c: nat, mode: SortMode, p: RowId, q: RowId)
    requires c < |t.definitions| && InRange(p, ChunkSizes(t)) && InRange(q, ChunkSizes(t)) && IntColumn(t, c)
    requires LexBefore(t, [SortColumn(c, mode)], p, q)
    ensures mode == Ascending ==> IntIn(RowAt(t, p), c) <= IntIn(RowAt(t, q), c)
    ensures mode == Descending ==> IntIn(RowAt(t, p), c) >= IntIn(RowAt(t, q), c)
  {
    var columns := [SortColumn(c, mode)];
    LexBeforeExact(t, columns, p, q);
    if k: nat :| DecidedAt(t, columns, p, q, k) {
      assert columns[k] == SortColumn(c, mode);
    } else {
      assert AgreeOn(t, columns, p, q, |columns|);
      assert CellAt(t, p, columns[0].column) == CellAt(t, q, columns[0].column);
    }
  }

  /** Sorting by an int column: the same rows, with the integers going up or down. */
  method SortInts(t: Table, c: nat, mode: SortMode) returns (out: Table)
    requires ValidTable(t) && c < |t.definitions| && !HasNull(t) && IntColumn(t, c)
    ensures multiset(Rows(out)) == multiset(Rows(t))
    ensures mode == Ascending ==>
              forall i, j :: 0 <= i < j < |Rows(out)| ==> IntIn(Rows(out)[i], c) <= IntIn(Rows(out)[j], c)
    ensures mode == Descending ==>
              forall i, j :: 0 <= i < j < |Rows(out)| ==> IntIn(Rows(out)[i], c) >= IntIn(Rows(out)[j], c)
  {
    var columns := [SortColumn(c, mode)];
    ghost var ps;
    var r;
    r, ps := SortOperator.Execute(t, columns);
    out := r.value;
    MapPermuted(RowOf(t), ps, Positions(ChunkSizes(t)));
    forall i, j | 0 <= i < j < |ps|
      ensures mode == Ascending ==> IntIn(Rows(out)[i], c) <= IntIn(Rows(out)[j], c)
      ensures mode == Descending ==> IntIn(Rows(out)[i], c) >= IntIn(Rows(out)[j], c)
    {
      PermutedMembers(ps, Positions(ChunkSizes(t)), ps[i]);
      PermutedMembers(ps, Positions(ChunkSizes(t)), ps[j]);
      IntsInOrder(t, c, mode, ps[i], ps[j]);
    }
  }
}
