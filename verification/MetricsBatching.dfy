/** MetricsCollector: which metrics are sent, with which operator and stage, and in which batches. */
module MetricsBatching {
  import opened Sequences

  const MAX_MESSAGES_PER_BATCH: nat := 10

  // ----- spreading messages over batches -----

  /** The rounded-up number of batches. */
  function BatchCount(n: nat): nat {
    (n + MAX_MESSAGES_PER_BATCH - 1) / MAX_MESSAGES_PER_BATCH
  }

  /** Messages dealt before round i: the truncated multiple of n / 10. */
  function Dealt(n: nat, i: nat): nat {
    n * i / MAX_MESSAGES_PER_BATCH
  }

  lemma DealtRound(n: nat, i: nat)
    requires i < MAX_MESSAGES_PER_BATCH
    ensures Dealt(n, i) <= Dealt(n, i + 1) <= n
    ensures Dealt(n, i + 1) - Dealt(n, i) <= BatchCount(n)
    ensures Dealt(n, 0) == 0 && Dealt(n, MAX_MESSAGES_PER_BATCH) == n
  {
    assert n * (i + 1) == n * i + n;
    var rest: nat := MAX_MESSAGES_PER_BATCH - (i + 1);
    assert n * (i + 1) + n * rest == n * MAX_MESSAGES_PER_BATCH;
    assert n * rest >= 0;
  }

  /** The last round reaches every batch. */
  lemma LastRound(n: nat)
    ensures n - Dealt(n, MAX_MESSAGES_PER_BATCH - 1) == BatchCount(n)
  {}

  /** Every batch has had at most one message per round, and one from each round that was long enough. */
  ghost predicate RoundsDealt<T>(batches: seq<seq<T>>, n: nat, rounds: nat) {
    && |batches| == BatchCount(n)
    && (forall j :: 0 <= j < |batches| ==> |batches[j]| <= rounds)
    && (rounds == MAX_MESSAGES_PER_BATCH ==> forall j :: 0 <= j < |batches| ==> |batches[j]| > 0)
  }

  lemma NextRound<T>(batches: seq<seq<T>>, n: nat, i: nat, round: seq<T>)
    requires RoundsDealt(batches, n, i) && i < MAX_MESSAGES_PER_BATCH && |round| <= |batches|
    requires i + 1 == MAX_MESSAGES_PER_BATCH ==> |round| == |batches|
    ensures RoundsDealt(DealtTo(batches, round), n, i + 1)
  {}

  /** No batch is empty or above the limit of ten messages. */
  ghost predicate BatchesFit<T>(batches: seq<seq<T>>) {
    forall j :: 0 <= j < |batches| ==> 1 <= |batches[j]| <= 10
  }

  lemma FitTogether<T>(ss: seq<seq<T>>, tt: seq<seq<T>>)
    requires BatchesFit(ss) && BatchesFit(tt)
    ensures BatchesFit(ss + tt)
  {}

  lemma Continued<T>(s: seq<T>, start: nat, end: nat)
    requires start <= end <= |s|
    ensures multiset(s[..end]) == multiset(s[..start]) + multiset(s[start..end])
  {
    assert s[..end] == s[..start] + s[start..end];
  }

  /** The first batches have got one message each. */
  function DealtTo<T>(batches: seq<seq<T>>, round: seq<T>): (r: seq<seq<T>>)
    ensures |r| == |batches|
    ensures forall k :: 0 <= k < |r| ==> r[k] == batches[k] + if k < |round| then [round[k]] else []
  {
    seq(|batches|, k requires 0 <= k < |batches| => batches[k] + if k < |round| then [round[k]] else [])
  }

  lemma DealtNext<T>(batches: seq<seq<T>>, round: seq<T>, j: nat)
    requires j < |round| <= |batches|
    ensures var now := DealtTo(batches, round[..j]);
            now[j := now[j] + [round[j]]] == DealtTo(batches, round[..j + 1])
  {
    TakeNext(round, j);
    assert batches[j] + [] == batches[j];
  }

  lemma ConcatDealt<T>(before: seq<seq<T>>, round: seq<T>, batches: seq<seq<T>>, j: nat)
    requires j < |round| && j < |batches|
    requires multiset(Concat(batches)) == multiset(Concat(before)) + multiset(round[..j])
    ensures multiset(Concat(batches[j := batches[j] + [round[j]]])) ==
            multiset(Concat(before)) + multiset(round[..j + 1])
  {
    ConcatGrown(batches, j, round[j]);
    TakeNext(round, j);
  }

  lemma DealtNone<T>(batches: seq<seq<T>>)
    ensures DealtTo(batches, []) == batches
  {
    forall k | 0 <= k < |batches|
      ensures DealtTo(batches, [])[k] == batches[k]
    {
      assert batches[k] + [] == batches[k];
    }
  }

  /** One round: its messages go to the first batches, one each. */
  method DealRound<T>(batchesIn: seq<seq<T>>, round: seq<T>) returns (batches: seq<seq<T>>)
    requires |round| <= |batchesIn|
    ensures batches == DealtTo(batchesIn, round)
    ensures multiset(Concat(batches)) == multiset(Concat(batchesIn)) + multiset(round)
  {
    batches := batchesIn;
    DealtNone(batchesIn);
    assert round[..0] == [];
    for j := 0 to |round|
      invariant batches == DealtTo(batchesIn, round[..j])
      invariant multiset(Concat(batches)) == multiset(Concat(batchesIn)) + multiset(round[..j])
    {
      DealtNext(batchesIn, round, j);
      ConcatDealt(batchesIn, round, batches, j);
      batches := batches[j := batches[j] + [round[j]]];
    }
    TakeAll(round);
  }

  /** SendMetrics: every message in exactly one batch, no batch empty or above the limit. */
  method Spread<T>(messages: seq<T>) returns (batches: seq<seq<T>>)
    ensures |batches| == (|messages| + 9) / 10
    ensures multiset(Concat(batches)) == multiset(messages)
    ensures BatchesFit(batches)
  {
    var n := |messages|;
    batches := seq(BatchCount(n), _ => []);
    ConcatEmpties(batches);
    var start := 0;
    DealtRound(n, 0);
    for i := 0 to MAX_MESSAGES_PER_BATCH
      invariant start == Dealt(n, i) <= n
      invariant multiset(Concat(batches)) == multiset(messages[..start])
      invariant RoundsDealt(batches, n, i)
    {
      DealtRound(n, i);
      LastRound(n);
      var end := n * (i + 1) / MAX_MESSAGES_PER_BATCH;
      Continued(messages, start, end);
      NextRound(batches, n, i, messages[start..end]);
      batches := DealRound(batches, messages[start..end]);
      start := end;
    }
    TakeAll(messages);
  }

  // ----- the collector -----

  /** A message carries the operator and the stage that are current when it is built. */
  datatype Message<M> = Message(operatorId: string, stage: string, metrics: M)

  function Messages<M>(operatorId: string, stage: string, pending: seq<M>): seq<Message<M>> {
    Map((m: M) => Message(operatorId, stage, m), pending)
  }

  class MetricsCollector<M(!new)> {
    var operatorId: string
    var stage: string
    var pending: seq<M>
    /** The batches handed to the queue so far. */
    var sent: seq<seq<Message<M>>>
    /** The accepted metrics, with the operator and stage they were collected in. */
    ghost var collected: seq<Message<M>>

    ghost predicate Valid()
      reads this
    {
      && (pending != [] ==> operatorId != "" && stage != "")
      && multiset(Concat(sent)) + multiset(Messages(operatorId, stage, pending)) == multiset(collected)
      && BatchesFit(sent)
    }

    constructor ()
      ensures Valid() && operatorId == stage == "" && pending == [] && sent == [] && collected == []
    {
      operatorId, stage, pending, sent, collected := "", "", [], [], [];
    }

    /** Sends everything collected so far. */
    method SendMetrics()
      requires Valid()
      modifies this`sent, this`pending
      ensures Valid() && pending == []
      ensures multiset(Concat(sent)) == multiset(collected)
      ensures old(sent) <= sent && |sent| == |old(sent)| + (|old(pending)| + 9) / 10
    {
      var messages := Messages(operatorId, stage, pending);
      var batches := Spread(messages);
      ConcatTogether(sent, batches);
      FitTogether(sent, batches);
      sent := sent + batches;
      pending := [];
      assert Messages(operatorId, stage, pending) == [];
    }

    /** Metrics are dropped unless an operator and a stage are set. */
    method CollectMetrics(metrics: M)
      requires Valid()
      modifies this`pending, this`collected
      ensures Valid()
      ensures collected == old(collected) +
                if operatorId == "" || stage == "" then [] else [Message(operatorId, stage, metrics)]
    {
      if operatorId == "" || stage == "" {
        return;
      }
      pending := pending + [metrics];
      collected := collected + [Message(operatorId, stage, metrics)];
      assert Messages(operatorId, stage, pending) ==
             Messages(operatorId, stage, old(pending)) + [Message(operatorId, stage, metrics)];
    }

    method EnterOperator(id: string)
      requires Valid()
      modifies this`operatorId, this`stage, this`sent, this`pending
      ensures Valid() && operatorId == id && stage == "" && pending == []
    {
      if stage != "" {
        SendMetrics();
      }
      operatorId, stage := id, "";
      assert Messages(operatorId, stage, pending) == [];
    }

    /** Without an operator nothing happens. */
    method EnterStage(name: string)
      requires Valid()
      modifies this`stage, this`sent, this`pending
      ensures Valid() && pending == []
      ensures stage == if operatorId == "" then old(stage) else name
    {
      if operatorId == "" {
        return;
      }
      if stage != "" {
        SendMetrics();
      }
      stage := name;
      assert Messages(operatorId, stage, pending) == [];
    }

    /** The destructor: afterwards every collected metric was sent exactly once, labelled as it was collected. */
    method Destroy()
      requires Valid()
      modifies this`sent, this`pending
      ensures multiset(Concat(sent)) == multiset(collected)
      ensures BatchesFit(sent)
    {
      if operatorId != "" && stage != "" {
        SendMetrics();
      }
      assert pending == [];
      assert Messages(operatorId, stage, pending) == [];
    }
  }

  lemma {:induction false} ConcatTogether<T>(ss: seq<seq<T>>, tt: seq<seq<T>>)
    ensures multiset(Concat(ss + tt)) == multiset(Concat(ss)) + multiset(Concat(tt))
  {
    if tt == [] {
      assert ss + tt == ss;
    } else {
      ConcatTogether(ss, tt[..|tt| - 1]);
      AppendSnoc(ss, tt);
    }
  }
}
