/** Sequence vocabulary shared by the operator models: lists without duplicates, mapping and
    filtering, concatenation, and the reading of a bitmap as a list of offsets. */
module Sequences {

  ghost predicate NoDup<T(!new)>(s: seq<T>) {
    forall i, j :: 0 <= i < j < |s| ==> s[i] != s[j]
  }

  function Map<T, U>(f: T -> U, s: seq<T>): (r: seq<U>)
    ensures |r| == |s|
    ensures forall i :: 0 <= i < |s| ==> r[i] == f(s[i])
  {
    seq(|s|, i requires 0 <= i < |s| => f(s[i]))
  }

  lemma MapAppend<T, U>(f: T -> U, s: seq<T>, t: seq<T>)
    ensures Map(f, s + t) == Map(f, s) + Map(f, t)
  {}

  lemma MapLast<T, U>(f: T -> U, s: seq<T>)
    requires s != []
    ensures Map(f, s) == Map(f, s[..|s| - 1]) + [f(s[|s| - 1])]
  {}

  lemma MapSource<T, U>(f: T -> U, s: seq<T>, y: U) returns (x: T)
    requires y in Map(f, s)
    ensures x in s && f(x) == y
  {
    var k :| 0 <= k < |s| && Map(f, s)[k] == y;
    x := s[k];
  }

  function Filter<T(!new)>(p: T -> bool, s: seq<T>): (r: seq<T>)
    ensures forall x :: x in r <==> x in s && p(x)
    ensures |r| <= |s|
  {
    if s == [] then []
    else (if p(s[0]) then [s[0]] else []) + Filter(p, s[1..])
  }

  lemma FilterAppend<T(!new)>(p: T -> bool, s: seq<T>, t: seq<T>)
    ensures Filter(p, s + t) == Filter(p, s) + Filter(p, t)
  {
    if s == [] {
      assert s + t == t;
    } else {
      assert (s + t)[1..] == s[1..] + t;
      FilterAppend(p, s[1..], t);
    }
  }

  lemma FilterSnoc<T(!new)>(p: T -> bool, s: seq<T>, x: T)
    ensures Filter(p, s + [x]) == Filter(p, s) + if p(x) then [x] else []
  {
    FilterAppend(p, s, [x]);
    assert Filter(p, [x]) == if p(x) then [x] else [];
  }

  lemma FilterExtensional<T(!new)>(p: T -> bool, q: T -> bool, s: seq<T>)
    requires forall x :: x in s ==> p(x) == q(x)
    ensures Filter(p, s) == Filter(q, s)
  {
    if s != [] {
      FilterExtensional(p, q, s[1..]);
    }
  }

  lemma {:induction false} FilterMapped<T(!new), U(!new)>(f: T -> U, p: T -> bool, q: U -> bool, s: seq<T>)
    requires forall x :: x in s ==> p(x) == q(f(x))
    ensures Map(f, Filter(p, s)) == Filter(q, Map(f, s))
  {
    if s != [] {
      FilterMapped(f, p, q, s[1..]);
      assert Map(f, s)[1..] == Map(f, s[1..]);
      assert Map(f, s)[0] == f(s[0]) && p(s[0]) == q(f(s[0]));
      if p(s[0]) {
        MapAppend(f, [s[0]], Filter(p, s[1..]));
        assert Map(f, [s[0]]) == [f(s[0])];
      }
    }
  }

  lemma {:induction false} FilterTwice<T(!new)>(p: T -> bool, q: T -> bool, s: seq<T>)
    requires forall x :: p(x) ==> q(x)
    ensures Filter(p, Filter(q, s)) == Filter(p, s)
  {
    if s != [] {
      FilterTwice(p, q, s[1..]);
      var rest := Filter(q, s[1..]);
      if q(s[0]) {
        assert Filter(q, s) == [s[0]] + rest;
        assert ([s[0]] + rest)[1..] == rest;
      } else {
        assert Filter(q, s) == rest;
        assert Filter(p, s) == Filter(p, s[1..]);
      }
    }
  }

  lemma FilterNoDup<T(!new)>(p: T -> bool, s: seq<T>)
    requires NoDup(s)
    ensures NoDup(Filter(p, s))
  {
    if s != [] {
      FilterNoDup(p, s[1..]);
      var rest := Filter(p, s[1..]);
      assert s[0] !in s[1..];
      assert forall i :: 0 <= i < |rest| ==> rest[i] in rest;
    }
  }

  lemma NoDupAppend<T(!new)>(s: seq<T>, t: seq<T>)
    requires NoDup(s) && NoDup(t)
    requires forall x :: x in s ==> x !in t
    ensures NoDup(s + t)
  {
    forall i, j | 0 <= i < j < |s + t|
      ensures (s + t)[i] != (s + t)[j]
    {
      if i < |s| <= j {
        assert s[i] in s && t[j - |s|] in t;
      }
    }
  }

  lemma {:induction false} NoDupCounts<T(!new)>(s: seq<T>, x: T)
    requires NoDup(s)
    ensures multiset(s)[x] == if x in s then 1 else 0
  {
    if s != [] {
      assert s == [s[0]] + s[1..];
      NoDupCounts(s[1..], x);
    }
  }

  lemma {:induction false} NoDupPermuted<T(!new)>(s: seq<T>, t: seq<T>)
    requires NoDup(s) && multiset(s) == multiset(t)
    ensures NoDup(t)
  {
    forall i, j | 0 <= i < j < |t|
      ensures t[i] != t[j]
    {
      if t[i] == t[j] {
        NoDupCounts(s, t[i]);
        TwiceCounted(t, i, j);
      }
    }
  }

  lemma TwiceCounted<T>(t: seq<T>, i: nat, j: nat)
    requires i < j < |t| && t[i] == t[j]
    ensures multiset(t)[t[i]] >= 2
  {
    assert t == t[..j] + t[j..];
    assert t[..j][i] == t[i] && t[j..][0] == t[j];
    assert t[i] in multiset(t[..j]) && t[j] in multiset(t[j..]);
  }

  /** Two duplicate-free lists with the same members are permutations of each other. */
  lemma SameMembers<T(!new)>(s: seq<T>, t: seq<T>)
    requires NoDup(s) && NoDup(t)
    requires forall x :: x in s <==> x in t
    ensures multiset(s) == multiset(t)
  {
    forall x: T
      ensures multiset(s)[x] == multiset(t)[x]
    {
      NoDupCounts(s, x);
      NoDupCounts(t, x);
    }
  }

  lemma PermutedMembers<T>(s: seq<T>, t: seq<T>, x: T)
    requires multiset(s) == multiset(t)
    ensures x in s <==> x in t
  {
    assert x in multiset(s) <==> x in multiset(t);
  }

  lemma PermutedLength<T>(s: seq<T>, t: seq<T>)
    requires multiset(s) == multiset(t)
    ensures |s| == |t|
  {
    assert |multiset(s)| == |s| && |multiset(t)| == |t|;
  }

  lemma TakeNext<T>(s: seq<T>, i: nat)
    requires i < |s|
    ensures s[..i + 1] == s[..i] + [s[i]]
  {}

  lemma TakeAll<T>(s: seq<T>)
    ensures s[..|s|] == s
  {}

  lemma TakeTwice<T>(s: seq<T>, i: nat)
    requires i < |s|
    ensures s[..i + 1][..i] == s[..i]
  {}

  lemma AppendAssociates<T>(s: seq<T>, t: seq<T>, u: seq<T>)
    ensures s + t + u == s + (t + u)
  {}

  lemma AppendSnoc<T>(s: seq<T>, t: seq<T>)
    requires t != []
    ensures s + t == (s + t[..|t| - 1]) + [t[|t| - 1]]
    ensures (s + t)[..|s + t| - 1] == s + t[..|t| - 1]
  {}

  lemma RemoveAt<T>(s: seq<T>, k: nat)
    requires k < |s|
    ensures s == s[..k] + [s[k]] + s[k + 1..]
    ensures multiset(s[..k] + s[k + 1..]) == multiset(s) - multiset{s[k]}
  {
    assert s == s[..k] + [s[k]] + s[k + 1..];
  }

  /** Where a permutation has the last element of a list. */
  lemma LastIn<T>(s: seq<T>, t: seq<T>) returns (k: nat)
    requires s != [] && multiset(s) == multiset(t)
    ensures k < |t| && t[k] == s[|s| - 1] && t == t[..k] + [t[k]] + t[k + 1..]
    ensures multiset(s[..|s| - 1]) == multiset(t[..k] + t[k + 1..])
  {
    var n := |s| - 1;
    PermutedMembers(s, t, s[n]);
    k :| 0 <= k < |t| && t[k] == s[n];
    RemoveAt(t, k);
    RemoveAt(s, n);
    assert s[..n] + s[n + 1..] == s[..n];
  }

  lemma FilterNone<T(!new)>(p: T -> bool, s: seq<T>)
    requires forall x :: x in s ==> !p(x)
    ensures Filter(p, s) == []
  {}

  lemma FilterOnly<T(!new)>(p: T -> bool, s: seq<T>, k: nat)
    requires k < |s| && forall i :: 0 <= i < |s| && i != k ==> !p(s[i])
    ensures Filter(p, s) == if p(s[k]) then [s[k]] else []
  {
    RemoveAt(s, k);
    FilterNone(p, s[..k]);
    FilterNone(p, s[k + 1..]);
    FilterAppend(p, s[..k] + [s[k]], s[k + 1..]);
    FilterAppend(p, s[..k], [s[k]]);
  }

  lemma {:induction false} FilterCounts<T(!new)>(p: T -> bool, s: seq<T>, x: T)
    ensures multiset(Filter(p, s))[x] == if p(x) then multiset(s)[x] else 0
  {
    if s != [] {
      assert s == [s[0]] + s[1..];
      FilterCounts(p, s[1..], x);
    }
  }

  lemma {:induction false} FilterPermuted<T(!new)>(p: T -> bool, s: seq<T>, t: seq<T>)
    requires multiset(s) == multiset(t)
    ensures multiset(Filter(p, s)) == multiset(Filter(p, t))
  {
    forall x: T
      ensures multiset(Filter(p, s))[x] == multiset(Filter(p, t))[x]
    {
      FilterCounts(p, s, x);
      FilterCounts(p, t, x);
    }
  }

  lemma MapMiddle<T, U>(f: T -> U, s: seq<T>, x: T, t: seq<T>)
    ensures multiset(Map(f, s + [x] + t)) == multiset(Map(f, s + t)) + multiset{f(x)}
  {
    MapAppend(f, s + [x], t);
    MapAppend(f, s, [x]);
    MapAppend(f, s, t);
  }

  /** Mapping keeps permutations. */
  lemma {:induction false} MapPermuted<T, U>(f: T -> U, s: seq<T>, t: seq<T>)
    requires multiset(s) == multiset(t)
    ensures multiset(Map(f, s)) == multiset(Map(f, t))
  {
    PermutedLength(s, t);
    if s != [] {
      var n := |s| - 1;
      var k := LastIn(s, t);
      MapPermuted(f, s[..n], t[..k] + t[k + 1..]);
      MapLast(f, s);
      MapMiddle(f, t[..k], t[k], t[k + 1..]);
    }
  }

  /** The entries of two lists are related one by one. */
  ghost predicate Pointwise<A(!new), B(!new)>(p: (nat, A, B) -> bool, s: seq<A>, t: seq<B>) {
    |s| == |t| && forall i :: 0 <= i < |s| ==> p(i, s[i], t[i])
  }

  lemma PointwiseSnoc<A(!new), B(!new)>(p: (nat, A, B) -> bool, s: seq<A>, t: seq<B>, a: A, b: B)
    requires Pointwise(p, s, t) && p(|s|, a, b)
    ensures Pointwise(p, s + [a], t + [b])
  {}

  /** Concatenation of a list of lists. */
  function Concat<T>(ss: seq<seq<T>>): seq<T> {
    if ss == [] then [] else Concat(ss[..|ss| - 1]) + ss[|ss| - 1]
  }

  lemma ConcatSnoc<T>(ss: seq<seq<T>>, s: seq<T>)
    ensures Concat(ss + [s]) == Concat(ss) + s
  {
    assert (ss + [s])[..|ss|] == ss;
  }

  lemma {:induction false} ConcatMiddle<T>(front: seq<seq<T>>, s: seq<T>, back: seq<seq<T>>)
    ensures multiset(Concat(front + [s] + back)) == multiset(Concat(front + back)) + multiset(s)
  {
    if back == [] {
      assert front + [s] + back == front + [s] && front + back == front;
      ConcatSnoc(front, s);
    } else {
      var n := |back| - 1;
      ConcatMiddle(front, s, back[..n]);
      AppendSnoc(front + [s], back);
      AppendSnoc(front, back);
      ConcatSnoc(front + [s] + back[..n], back[n]);
      ConcatSnoc(front + back[..n], back[n]);
    }
  }

  /** The order of the lists does not matter. */
  lemma {:induction false} ConcatPermuted<T>(ss: seq<seq<T>>, tt: seq<seq<T>>)
    requires multiset(ss) == multiset(tt)
    ensures multiset(Concat(ss)) == multiset(Concat(tt))
  {
    PermutedLength(ss, tt);
    if ss != [] {
      var k := LastIn(ss, tt);
      ConcatPermuted(ss[..|ss| - 1], tt[..k] + tt[k + 1..]);
      ConcatMiddle(tt[..k], tt[k], tt[k + 1..]);
    }
  }

  lemma {:induction false} ConcatGrown<T>(lists: seq<seq<T>>, w: nat, x: T)
    requires w < |lists|
    ensures multiset(Concat(lists[w := lists[w] + [x]])) == multiset(Concat(lists)) + multiset{x}
  {
    var grown := lists[w := lists[w] + [x]];
    assert lists == lists[..w] + [lists[w]] + lists[w + 1..];
    assert grown == lists[..w] + [lists[w] + [x]] + lists[w + 1..];
    ConcatMiddle(lists[..w], lists[w], lists[w + 1..]);
    ConcatMiddle(lists[..w], lists[w] + [x], lists[w + 1..]);
  }

  lemma {:induction false} ConcatEmpties<T>(lists: seq<seq<T>>)
    requires forall w :: 0 <= w < |lists| ==> lists[w] == []
    ensures Concat(lists) == []
  {
    if lists != [] {
      ConcatEmpties(lists[..|lists| - 1]);
    }
  }

  function InClass<T>(c: T -> nat, i: nat): T -> bool {
    x => c(x) == i
  }

  /** The members of each class, in order. */
  function Classes<T(!new)>(c: T -> nat, n: nat, s: seq<T>): (r: seq<seq<T>>)
    ensures |r| == n && forall i :: 0 <= i < n ==> r[i] == Filter(InClass(c, i), s)
  {
    seq(n, i requires 0 <= i < n => Filter(InClass(c, i), s))
  }

  lemma ClassesNext<T(!new)>(c: T -> nat, n: nat, s: seq<T>, x: T)
    requires c(x) < n
    ensures var before := Classes(c, n, s);
            Classes(c, n, s + [x]) == before[c(x) := before[c(x)] + [x]]
  {
    forall i: nat | i < n
      ensures Filter(InClass(c, i), s + [x]) ==
              if i == c(x) then Filter(InClass(c, i), s) + [x] else Filter(InClass(c, i), s)
    {
      FilterAppend(InClass(c, i), s, [x]);
      assert Filter(InClass(c, i), [x]) == if i == c(x) then [x] else [];
    }
  }

  /** Every element is in exactly one class. */
  lemma {:induction false} ClassesComplete<T(!new)>(c: T -> nat, n: nat, s: seq<T>)
    requires forall x :: x in s ==> c(x) < n
    ensures multiset(Concat(Classes(c, n, s))) == multiset(s)
  {
    if s == [] {
      ConcatEmpties(Classes(c, n, s));
    } else {
      var front, x := s[..|s| - 1], s[|s| - 1];
      assert s == front + [x];
      ClassesComplete(c, n, front);
      ClassesNext(c, n, front, x);
      ConcatGrown(Classes(c, n, front), c(x), x);
    }
  }

  function Mapped<T, U>(f: T -> U): seq<T> -> seq<U> {
    s => Map(f, s)
  }

  lemma {:induction false} MapConcat<T, U>(f: T -> U, parts: seq<seq<T>>)
    ensures Map(f, Concat(parts)) == Concat(Map(Mapped(f), parts))
  {
    if parts != [] {
      var front, last := parts[..|parts| - 1], parts[|parts| - 1];
      MapConcat(f, front);
      MapAppend(f, Concat(front), last);
      MapLast(Mapped(f), parts);
      ConcatSnoc(Map(Mapped(f), front), Map(f, last));
    }
  }

  lemma {:induction false} ConcatMembers<T>(ss: seq<seq<T>>, x: T)
    ensures x in Concat(ss) <==> exists s :: s in ss && x in s
  {
    if ss != [] {
      var front, last := ss[..|ss| - 1], ss[|ss| - 1];
      ConcatMembers(front, x);
      assert ss == front + [last];
    }
  }

  function CountTrue(bits: seq<bool>): nat {
    if bits == [] then 0
    else CountTrue(bits[..|bits| - 1]) + if bits[|bits| - 1] then 1 else 0
  }

  lemma {:induction false} CountTrueClear(bits: seq<bool>, k: nat)
    requires k < |bits| && bits[k]
    ensures CountTrue(bits) >= 1
    ensures CountTrue(bits[k := false]) == CountTrue(bits) - 1
  {
    var n := |bits| - 1;
    if k == n {
      assert bits[k := false][..n] == bits[..n];
    } else {
      CountTrueClear(bits[..n], k);
      assert bits[k := false][..n] == bits[..n][k := false];
    }
  }

  lemma CountTrueAll(bits: seq<bool>)
    requires forall k :: 0 <= k < |bits| ==> bits[k]
    ensures CountTrue(bits) == |bits|
  {}

  function CountTrues(bitmaps: seq<seq<bool>>): nat {
    if bitmaps == [] then 0
    else CountTrues(bitmaps[..|bitmaps| - 1]) + CountTrue(bitmaps[|bitmaps| - 1])
  }

  lemma {:induction false} CountTruesUpdate(bitmaps: seq<seq<bool>>, i: nat, bits: seq<bool>)
    requires i < |bitmaps|
    ensures CountTrues(bitmaps[i := bits]) == CountTrues(bitmaps) - CountTrue(bitmaps[i]) + CountTrue(bits)
  {
    var n := |bitmaps| - 1;
    if i == n {
      assert bitmaps[i := bits][..n] == bitmaps[..n];
    } else {
      CountTruesUpdate(bitmaps[..n], i, bits);
      assert bitmaps[i := bits][..n] == bitmaps[..n][i := bits];
    }
  }

  lemma CountTruesSnoc(bitmaps: seq<seq<bool>>, bits: seq<bool>)
    ensures CountTrues(bitmaps + [bits]) == CountTrues(bitmaps) + CountTrue(bits)
  {
    assert (bitmaps + [bits])[..|bitmaps|] == bitmaps;
  }

  /** The offsets of the set bits, ascending. */
  function TrueOffsets(bits: seq<bool>): (r: seq<nat>)
    ensures |r| == CountTrue(bits)
    ensures forall k: nat :: k in r <==> k < |bits| && bits[k]
  {
    if bits == [] then []
    else TrueOffsets(bits[..|bits| - 1]) + if bits[|bits| - 1] then [|bits| - 1] else []
  }

  ghost predicate Ascending(s: seq<nat>) {
    forall i, j :: 0 <= i < j < |s| ==> s[i] < s[j]
  }

  lemma TrueOffsetsAscend(bits: seq<bool>)
    ensures Ascending(TrueOffsets(bits))
  {
    if bits != [] {
      var n := |bits| - 1;
      TrueOffsetsAscend(bits[..n]);
      var r := TrueOffsets(bits[..n]);
      assert forall k :: 0 <= k < |r| ==> r[k] in r;
    }
  }

  lemma AscendingLast(s: seq<nat>, x: nat)
    requires Ascending(s) && s != []
    ensures x in s ==> x <= s[|s| - 1]
    ensures x in s[..|s| - 1] <==> x in s && x != s[|s| - 1]
  {
    assert s == s[..|s| - 1] + [s[|s| - 1]];
  }

  lemma SameLast(s: seq<nat>, t: seq<nat>)
    requires Ascending(s) && Ascending(t) && s != [] && t != []
    requires forall x: nat :: x in s <==> x in t
    ensures s[|s| - 1] == t[|t| - 1]
  {
    AscendingLast(s, t[|t| - 1]);
    AscendingLast(t, s[|s| - 1]);
  }

  /** A strictly ascending list is determined by its members. */
  lemma {:induction false} AscendingUnique(s: seq<nat>, t: seq<nat>)
    requires Ascending(s) && Ascending(t)
    requires forall x: nat :: x in s <==> x in t
    ensures s == t
  {
    if s == [] {
      assert forall i :: 0 <= i < |t| ==> t[i] in s;
    } else {
      assert s[0] in t;
      SameLast(s, t);
      var s', t' := s[..|s| - 1], t[..|t| - 1];
      forall x: nat
        ensures x in s' <==> x in t'
      {
        AscendingLast(s, x);
        AscendingLast(t, x);
      }
      AscendingUnique(s', t');
      SplitLast(s);
      SplitLast(t);
    }
  }

  lemma SplitLast<T>(s: seq<T>)
    requires s != []
    ensures s == s[..|s| - 1] + [s[|s| - 1]]
  {}
}
