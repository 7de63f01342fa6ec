/** TpchPqpGenerator::GeneratePipeline: input files go to the workers in turn. */
module FileAssignment {
  import opened Sequences
  import opened Storage

  /** The files of worker w. */
  function Assigned<T>(inputs: seq<T>, n: nat, w: nat): seq<T>
    requires n > 0
  {
    if inputs == [] then []
    else
      var k := |inputs| - 1;
      Assigned(inputs[..k], n, w) + if k % n == w then [inputs[k]] else []
  }

  function Assignment<T>(inputs: seq<T>, n: nat): (r: seq<seq<T>>)
    requires n > 0
    ensures |r| == n && forall w :: 0 <= w < n ==> r[w] == Assigned(inputs, n, w)
  {
    seq(n, w requires 0 <= w < n => Assigned(inputs, n, w))
  }

  /** Fails when a worker would get no file, and divides by zero when there are files but no worker. */
  method GeneratePipeline<T>(inputs: seq<T>, outputs: nat) returns (r: Result<seq<seq<T>>>)
    ensures r == Failed(AssertionFailed) <==> |inputs| < outputs
    ensures r == Failed(DivisionByZero) <==> outputs == 0 && inputs != []
    ensures r.Failed? ==> r.reason in {AssertionFailed, DivisionByZero}
    ensures r.Ok? ==> r.value == if outputs == 0 then [] else Assignment(inputs, outputs)
  {
    if |inputs| < outputs {
      return Failed(AssertionFailed);
    }
    var mappings: seq<seq<T>> := seq(outputs, _ => []);
    if outputs == 0 {
      return if inputs == [] then Ok([]) else Failed(DivisionByZero);
    }
    for i := 0 to |inputs|
      invariant mappings == Assignment(inputs[..i], outputs)
    {
      AssignNext(inputs, outputs, i);
      mappings := mappings[i % outputs := mappings[i % outputs] + [inputs[i]]];
    }
    TakeAll(inputs);
    r := Ok(mappings);
  }

  lemma AssignNext<T>(inputs: seq<T>, n: nat, i: nat)
    requires n > 0 && i < |inputs|
    ensures var before, w := Assignment(inputs[..i], n), i % n;
            Assignment(inputs[..i + 1], n) == before[w := before[w] + [inputs[i]]]
  {
    var before, w := Assignment(inputs[..i], n), i % n;
    var after, grown := Assignment(inputs[..i + 1], n), before[w := before[w] + [inputs[i]]];
    forall v: nat | v < n
      ensures after[v] == grown[v]
    {
      AssignedNext(inputs, n, i, v);
    }
  }

  lemma AssignedNext<T>(inputs: seq<T>, n: nat, i: nat, w: nat)
    requires n > 0 && i < |inputs|
    ensures Assigned(inputs[..i + 1], n, w) == Assigned(inputs[..i], n, w) + if i % n == w then [inputs[i]] else []
  {
    TakeTwice(inputs, i);
  }

  lemma OneMoreAssigned<T>(inputs: seq<T>, n: nat)
    requires n > 0 && inputs != []
    ensures var k := |inputs| - 1;
            multiset(Concat(Assignment(inputs, n))) ==
            multiset(Concat(Assignment(inputs[..k], n))) + multiset{inputs[k]}
  {
    var k := |inputs| - 1;
    AssignNext(inputs, n, k);
    ConcatGrown(Assignment(inputs[..k], n), k % n, inputs[k]);
    assert inputs[..k + 1] == inputs;
  }

  lemma LastCounts<T>(s: seq<T>)
    requires s != []
    ensures multiset(s) == multiset(s[..|s| - 1]) + multiset{s[|s| - 1]}
  {
    assert s == s[..|s| - 1] + [s[|s| - 1]];
  }

  /** Every file goes to exactly one worker. */
  lemma {:induction false} AssignmentComplete<T>(inputs: seq<T>, n: nat)
    requires n > 0
    ensures multiset(Concat(Assignment(inputs, n))) == multiset(inputs)
  {
    if inputs == [] {
      ConcatEmpties(Assignment(inputs, n));
    } else {
      AssignmentComplete(inputs[..|inputs| - 1], n);
      OneMoreAssigned(inputs, n);
      LastCounts(inputs);
    }
  }

  /** The number of files of worker w among the first k. */
  function ShareSize(k: nat, n: nat, w: nat): nat
    requires w < n
  {
    if k % n > w then k / n + 1 else k / n
  }

  lemma ShareSizeStep(k: nat, n: nat, w: nat)
    requires w < n
    ensures ShareSize(k + 1, n, w) == ShareSize(k, n, w) + if k % n == w then 1 else 0
    ensures k % n == w ==> w + ShareSize(k, n, w) * n == k
  {
    NextQuotient(k, n, k / n, k % n);
  }

  lemma NextQuotient(k: nat, n: nat, q: nat, r: nat)
    requires r < n && k == q * n + r
    ensures (k + 1) / n == if r == n - 1 then q + 1 else q
    ensures (k + 1) % n == if r == n - 1 then 0 else r + 1
  {
    if r == n - 1 {
      assert (q + 1) * n == q * n + n;
      QuotientIs(k + 1, n, q + 1, 0);
    } else {
      QuotientIs(k + 1, n, q, r + 1);
    }
  }

  lemma QuotientIs(a: nat, n: nat, q: nat, r: nat)
    requires r < n && a == q * n + r
    ensures a / n == q && a % n == r
  {
    var b := a / n;
    assert a == b * n + a % n;
    NextMultiple(b, q, n);
    NextMultiple(q, b, n);
  }

  lemma NextMultiple(a: nat, b: nat, n: nat)
    ensures a < b ==> a * n + n <= b * n
  {
    if a < b {
      var d: nat := b - a - 1;
      assert d * n >= 0;
      assert (a + 1 + d) * n == a * n + n + d * n;
    }
  }

  /** Worker w reads files w, w + n, w + 2n, ...; the loads differ by at most one file. */
  lemma {:induction false} AssignedExact<T>(inputs: seq<T>, n: nat, w: nat)
    requires w < n
    ensures |Assigned(inputs, n, w)| == ShareSize(|inputs|, n, w)
    ensures forall k :: 0 <= k < |Assigned(inputs, n, w)| ==>
              0 <= w + k * n < |inputs| && Assigned(inputs, n, w)[k] == inputs[w + k * n]
  {
    if inputs == [] {
      QuotientIs(0, n, 0, 0);
    } else {
      var last := |inputs| - 1;
      AssignedExact(inputs[..last], n, w);
      ShareSizeStep(last, n, w);
    }
  }

  /** With at least as many files as workers nobody is idle. */
  lemma NobodyIdle<T>(inputs: seq<T>, n: nat, w: nat)
    requires w < n <= |inputs|
    ensures Assigned(inputs, n, w) != []
  {
    AssignedExact(inputs, n, w);
    QuotientPositive(|inputs|, n);
  }

  lemma QuotientPositive(k: nat, n: nat)
    requires 0 < n <= k
    ensures k / n >= 1
  {}

  // ----- the rows of the files -----

  function ConcatOf<T>(): seq<seq<T>> -> seq<T> {
    files => Concat(files)
  }

  lemma ConcatLast<T>(ss: seq<seq<T>>, front: seq<seq<T>>, last: seq<T>)
    requires ss != [] && ss[..|ss| - 1] == front && ss[|ss| - 1] == last
    ensures Concat(ss) == Concat(front) + last
  {}

  lemma {:induction false} ConcatAppend<T>(ss: seq<seq<T>>, tt: seq<seq<T>>)
    ensures Concat(ss + tt) == Concat(ss) + Concat(tt)
  {
    if tt == [] {
      assert ss + tt == ss;
    } else {
      var front, last := tt[..|tt| - 1], tt[|tt| - 1];
      ConcatAppend(ss, front);
      AppendSnoc(ss, tt);
      ConcatLast(ss + tt, ss + front, last);
      ConcatLast(tt, front, last);
      AppendAssociates(Concat(ss), Concat(front), last);
    }
  }

  lemma {:induction false} ConcatTwice<T>(sss: seq<seq<seq<T>>>)
    ensures Concat(Map(ConcatOf(), sss)) == Concat(Concat(sss))
  {
    if sss != [] {
      var front, last := sss[..|sss| - 1], sss[|sss| - 1];
      ConcatTwice(front);
      ConcatAppend(Concat(front), last);
      MapLast(ConcatOf(), sss);
      ConcatSnoc(Map(ConcatOf(), front), Concat(last));
    }
  }

  /** The workers together read all rows. */
  lemma WorkersReadEverything<T>(files: seq<seq<T>>, n: nat)
    requires n > 0
    ensures multiset(Concat(Map(ConcatOf(), Assignment(files, n)))) == multiset(Concat(files))
  {
    ConcatTwice(Assignment(files, n));
    AssignmentComplete(files, n);
    ConcatPermuted(Concat(Assignment(files, n)), files);
  }

  // ----- what the workers make of their files -----

  /** The filter and the projection behind an import. */
  function Prepared(keep: Row -> bool, project: Row -> Row): seq<Row> -> seq<Row> {
    rows => Map(project, Filter(keep, rows))
  }

  function WorkerRows(keep: Row -> bool, project: Row -> Row, files: seq<seq<Row>>, n: nat): seq<seq<Row>>
    requires n > 0
  {
    Map(Prepared(keep, project), Map(ConcatOf(), Assignment(files, n)))
  }

  lemma {:induction false} PreparedConcat(keep: Row -> bool, project: Row -> Row, parts: seq<seq<Row>>)
    ensures Concat(Map(Prepared(keep, project), parts)) == Prepared(keep, project)(Concat(parts))
  {
    if parts != [] {
      var front, last := parts[..|parts| - 1], parts[|parts| - 1];
      PreparedConcat(keep, project, front);
      FilterAppend(keep, Concat(front), last);
      MapAppend(project, Filter(keep, Concat(front)), Filter(keep, last));
      MapLast(Prepared(keep, project), parts);
      ConcatSnoc(Map(Prepared(keep, project), front), Prepared(keep, project)(last));
    }
  }

  lemma PreparedPermuted(keep: Row -> bool, project: Row -> Row, rows: seq<Row>, others: seq<Row>)
    requires multiset(rows) == multiset(others)
    ensures multiset(Prepared(keep, project)(rows)) == multiset(Prepared(keep, project)(others))
  {
    FilterPermuted(keep, rows, others);
    MapPermuted(project, Filter(keep, rows), Filter(keep, others));
  }

  /** Together the workers prepare all rows of all files, each once. */
  lemma WorkersPrepareEverything(keep: Row -> bool, project: Row -> Row, files: seq<seq<Row>>, n: nat)
    requires n > 0
    ensures multiset(Concat(WorkerRows(keep, project, files, n))) == multiset(Prepared(keep, project)(Concat(files)))
    ensures |Concat(WorkerRows(keep, project, files, n))| <= |Concat(files)|
  {
    var read := Map(ConcatOf(), Assignment(files, n));
    WorkersReadEverything(files, n);
    PreparedConcat(keep, project, read);
    PreparedPermuted(keep, project, Concat(files), Concat(read));
    PermutedLength(Concat(read), Concat(files));
  }
}
