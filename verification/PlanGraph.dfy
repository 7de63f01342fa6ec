/** Query plan nodes, doubly linked, and the rewrites that relink them. */
module PlanGraph {
  import opened Sequences

  datatype Side = Left | Right

  /** The list without the first occurrence of x. */
  function Without<T(==)>(s: seq<T>, x: T): seq<T> {
    if s == [] then []
    else if s[0] == x then s[1..]
    else [s[0]] + Without(s[1..], x)
  }

  lemma {:induction false} WithoutCounts<T>(s: seq<T>, x: T)
    requires x in s
    ensures multiset(Without(s, x)) == multiset(s) - multiset{x}
  {
    assert s == [s[0]] + s[1..];
    if s[0] != x {
      WithoutCounts(s[1..], x);
    }
  }

  lemma {:induction false} WithoutAt<T>(s: seq<T>, x: T, i: nat)
    requires i < |s| && s[i] == x && x !in s[..i]
    ensures Without(s, x) == s[..i] + s[i + 1..]
  {
    if i > 0 {
      assert s[0] == s[..i][0];
      assert s[1..][..i - 1] == s[..i][1..];
      WithoutAt(s[1..], x, i - 1);
      assert s[1..][i..] == s[i + 1..];
    }
  }

  /** The inputs of a node. */
  datatype Inputs = Inputs(left: PlanNode?, right: PlanNode?) {
    function With(side: Side, input: PlanNode?): Inputs {
      if side.Left? then Inputs(input, right) else Inputs(left, input)
    }

    function At(side: Side): PlanNode? {
      if side.Left? then left else right
    }

    /** m takes the place of n on the side that GetInputSides reports, the left one if n is on both. */
    function Moved(n: PlanNode, m: PlanNode?): Inputs {
      if left == n then Inputs(m, right) else if right == n then Inputs(left, m) else this
    }

    /** m takes the place of n on both sides. */
    function Replaced(n: PlanNode, m: PlanNode?): Inputs {
      Inputs(if left == n then m else left, if right == n then m else right)
    }

    /** What GetInputSide reports. */
    function SideOf(n: PlanNode): Side {
      if left == n then Left else Right
    }

    /** `times` relinks, each with the side reported at that moment. */
    function MovedTimes(n: PlanNode, m: PlanNode?, times: nat): Inputs {
      if times == 0 then this else MovedTimes(n, m, times - 1).Moved(n, m)
    }

    function Count(n: PlanNode): nat {
      (if left == n then 1 else 0) + (if right == n then 1 else 0)
    }

    predicate Has(n: PlanNode) { left == n || right == n }
    predicate HasTwice(n: PlanNode) { left == n && right == n }
  }

  function InputsOf(p: PlanNode): Inputs
    reads p
  {
    Inputs(p.left, p.right)
  }

  /** A plan as a value: the inputs of all its nodes. */
  ghost function AllInputs(plan: set<PlanNode>): (r: map<PlanNode, Inputs>)
    reads plan
    ensures r.Keys == plan
  {
    map p | p in plan :: InputsOf(p)
  }

  type Plan = map<PlanNode, Inputs>
  type Outputs = map<PlanNode, seq<PlanNode>>

  /** ... and their outputs. */
  ghost function AllOutputs(plan: set<PlanNode>): (r: Outputs)
    reads plan
    ensures r.Keys == plan
  {
    map n | n in plan :: n.outputs
  }

  ghost function WithInput(all: Plan, p: PlanNode, side: Side, input: PlanNode?): Plan
    requires p in all
  {
    all[p := all[p].With(side, input)]
  }

  class PlanNode {
    var left: PlanNode?
    var right: PlanNode?
    var outputs: seq<PlanNode>

    constructor ()
      ensures left == null && right == null && outputs == []
    {
      left, right, outputs := null, null, [];
    }

    function Input(side: Side): PlanNode?
      reads this
    {
      if side.Left? then left else right
    }

    /** On how many sides this node holds n. */
    function Holds(n: PlanNode): nat
      reads this
    {
      (if left == n then 1 else 0) + (if right == n then 1 else 0)
    }

    method AddOutputPointer(output: PlanNode)
      modifies this`outputs
      ensures outputs == old(outputs) + [output]
    {
      outputs := outputs + [output];
    }

    /** The source asserts that the output is there. */
    method RemoveOutputPointer(output: PlanNode)
      requires output in outputs
      modifies this`outputs
      ensures outputs == Without(old(outputs), output)
    {
      var i := 0;
      while outputs[i] != output
        invariant i < |outputs| && output !in outputs[..i]
        decreases |outputs| - i
      {
        assert output in outputs[i + 1..];
        i := i + 1;
      }
      WithoutAt(outputs, output, i);
      outputs := outputs[..i] + outputs[i + 1..];
    }

    /** Unties the node from the old input of that side and ties it to the new one. */
    method SetInput(side: Side, input: PlanNode?, ghost plan: set<PlanNode>)
      requires Linked(plan) && this in plan && (input == null || input in plan)
      modifies plan
      ensures Linked(plan)
      ensures AllInputs(plan) == WithInput(old(AllInputs(plan)), this, side, input)
      ensures side == Left ==> left == input && right == old(right)
      ensures side == Right ==> left == old(left) && right == input
    {
      ghost var inputs, outputs := AllInputs(plan), AllOutputs(plan);
      assert inputs[this] == InputsOf(this);
      var current := Input(side);
      if current != input {
        LinkedValues(plan);
        ListedWhereHeld(plan, this);
        Retie(side, input, plan);
        LinksMoved(inputs, outputs, this, side, input);
        LinkedValues(plan);
      }
      assert AllInputs(plan)[this] == InputsOf(this);
    }

    /** The pointer updates of SetInput. */
    method Retie(side: Side, input: PlanNode?, ghost plan: set<PlanNode>)
      requires this in plan && (input == null || input in plan) && Input(side) != input
      requires Input(side) != null ==> Input(side) in plan && this in Input(side).outputs
      modifies plan
      ensures AllOutputs(plan) == RelinkedAll(old(AllOutputs(plan)), this, old(Input(side)), input)
      ensures AllInputs(plan) == WithInput(old(AllInputs(plan)), this, side, input)
    {
      ghost var outputs := AllOutputs(plan);
      var current := Input(side);
      if current != null {
        Untie(current, plan);
      }
      Put(side, input, plan);
      if input != null {
        Tie(input, plan);
      }
      RelinkedExact(outputs, this, current, input);
    }

    method Untie(current: PlanNode, ghost plan: set<PlanNode>)
      requires current in plan && this in plan && this in current.outputs
      modifies plan
      ensures AllInputs(plan) == old(AllInputs(plan))
      ensures AllOutputs(plan) == old(AllOutputs(plan))[current := Without(old(current.outputs), this)]
    {
      current.RemoveOutputPointer(this);
    }

    method Put(side: Side, input: PlanNode?, ghost plan: set<PlanNode>)
      requires this in plan
      modifies plan
      ensures AllInputs(plan) == WithInput(old(AllInputs(plan)), this, side, input)
      ensures AllOutputs(plan) == old(AllOutputs(plan))
    {
      if side.Left? {
        left := input;
      } else {
        right := input;
      }
    }

    method Tie(input: PlanNode, ghost plan: set<PlanNode>)
      requires input in plan
      modifies plan
      ensures AllInputs(plan) == old(AllInputs(plan))
      ensures AllOutputs(plan) == old(AllOutputs(plan))[input := old(AllOutputs(plan))[input] + [this]]
    {
      input.AddOutputPointer(this);
    }

    /** @pre this node is an input of the output. */
    function GetInputSide(output: PlanNode): (side: Side)
      requires output.Holds(this) > 0
      reads output
      ensures output.Input(side) == this && (side == Left <==> output.left == this)
    {
      if output.left == this then Left else Right
    }
  }

  /** What SetInput does to the outputs of n. */
  function Relinked(outputs: seq<PlanNode>, n: PlanNode, parent: PlanNode, before: PlanNode?,
                    after: PlanNode?): seq<PlanNode> {
    if before == after then outputs
    else if n == before then Without(outputs, parent)
    else if n == after then outputs + [parent]
    else outputs
  }

  lemma RelinkedCount(outputs: seq<PlanNode>, n: PlanNode, parent: PlanNode, p: PlanNode, before: PlanNode?,
                      after: PlanNode?)
    requires before != after && (n == before ==> parent in outputs)
    ensures multiset(Relinked(outputs, n, parent, before, after))[p] ==
            multiset(outputs)[p] - (if n == before && p == parent then 1 else 0) +
              (if n == after && p == parent then 1 else 0)
    ensures p in Relinked(outputs, n, parent, before, after) ==> p in outputs || p == parent
  {
    if n == before {
      WithoutCounts(outputs, parent);
    }
    assert p in Relinked(outputs, n, parent, before, after) ==>
        p in multiset(Relinked(outputs, n, parent, before, after));
  }

  lemma HeldIsListed(plan: set<PlanNode>, p: PlanNode, n: PlanNode)
    requires Linked(plan) && p in plan && n in plan
    ensures p.Holds(n) > 0 <==> p in n.outputs
  {
    assert multiset(n.outputs)[p] == p.Holds(n);
  }

  lemma ListedWhereHeld(plan: set<PlanNode>, p: PlanNode)
    requires Linked(plan) && p in plan
    ensures p.left != null ==> p.left in plan && p in p.left.outputs
    ensures p.right != null ==> p.right in plan && p in p.right.outputs
  {
    if p.left != null {
      HeldIsListed(plan, p, p.left);
    }
    if p.right != null {
      HeldIsListed(plan, p, p.right);
    }
  }

  function RelinkedAll(outputs: Outputs, parent: PlanNode, before: PlanNode?, after: PlanNode?): Outputs {
    map n | n in outputs :: Relinked(outputs[n], n, parent, before, after)
  }

  lemma RelinkedExact(outputs: Outputs, parent: PlanNode, before: PlanNode?, after: PlanNode?)
    requires before != after && (before == null || before in outputs) && (after == null || after in outputs)
    ensures var untied := if before == null then outputs else outputs[before := Without(outputs[before], parent)];
            RelinkedAll(outputs, parent, before, after) ==
            if after == null then untied else untied[after := untied[after] + [parent]]
  {}

  ghost predicate InputsStay(inputs: Plan) {
    forall p :: p in inputs ==>
      (inputs[p].left == null || inputs[p].left in inputs) && (inputs[p].right == null || inputs[p].right in inputs)
  }

  ghost predicate CountsAgree(inputs: Plan, outputs: Outputs) {
    forall n, p :: n in outputs && p in inputs ==> multiset(outputs[n])[p] == inputs[p].Count(n)
  }

  ghost predicate OutputsStay(outputs: Outputs) {
    forall n, p :: n in outputs && p in outputs[n] ==> p in outputs
  }

  lemma LinkedValues(plan: set<PlanNode>)
    ensures Linked(plan) <==>
            InputsStay(AllInputs(plan)) && OutputsStay(AllOutputs(plan)) &&
              CountsAgree(AllInputs(plan), AllOutputs(plan))
  {
    var inputs, outputs := AllInputs(plan), AllOutputs(plan);
    assert forall n :: n in plan ==> inputs[n] == InputsOf(n) && outputs[n] == n.outputs;
    assert forall n, p :: n in plan && p in plan ==> inputs[p].Count(n) == p.Holds(n);
  }

  lemma CountMoved(inputs: Plan, outputs: Outputs, parent: PlanNode, side: Side, after: PlanNode?, n: PlanNode,
                   p: PlanNode)
    requires parent in inputs && n in outputs && p in inputs && CountsAgree(inputs, outputs)
    requires inputs[parent].At(side) != after
    ensures multiset(Relinked(outputs[n], n, parent, inputs[parent].At(side), after))[p] ==
            WithInput(inputs, parent, side, after)[p].Count(n)
  {
    assert multiset(outputs[n])[parent] == inputs[parent].Count(n);
    assert multiset(outputs[n])[p] == inputs[p].Count(n);
    RelinkedCount(outputs[n], n, parent, p, inputs[parent].At(side), after);
  }

  /** Moving one link on both ends keeps every link recorded on both ends. */
  lemma LinksMoved(inputs: Plan, outputs: Outputs, parent: PlanNode, side: Side, after: PlanNode?)
    requires inputs.Keys == outputs.Keys && parent in inputs && (after == null || after in inputs)
    requires InputsStay(inputs) && OutputsStay(outputs) && CountsAgree(inputs, outputs) &&
             inputs[parent].At(side) != after
    ensures var before := inputs[parent].At(side);
            var more, moved := WithInput(inputs, parent, side, after), RelinkedAll(outputs, parent, before, after);
            InputsStay(more) && OutputsStay(moved) && CountsAgree(more, moved)
  {
    var before := inputs[parent].At(side);
    var more, moved := WithInput(inputs, parent, side, after), RelinkedAll(outputs, parent, before, after);
    forall n, p | n in moved && p in more
      ensures multiset(moved[n])[p] == more[p].Count(n)
    {
      CountMoved(inputs, outputs, parent, side, after, n, p);
    }
    forall n, p | n in moved && p in moved[n]
      ensures p in moved
    {
      assert multiset(outputs[n])[parent] == inputs[parent].Count(n);
      RelinkedCount(outputs[n], n, parent, p, before, after);
    }
  }

  /** Every link is recorded on both ends, as often as it exists. */
  ghost predicate Linked(plan: set<PlanNode>)
    reads plan
  {
    && (forall n {:trigger n.left} :: n in plan && n.left != null ==> n.left in plan)
    && (forall n {:trigger n.right} :: n in plan && n.right != null ==> n.right in plan)
    && (forall n, p :: n in plan && p in n.outputs ==> p in plan)
    && (forall n, p {:trigger multiset(n.outputs)[p]} {:trigger p.Holds(n)} ::
         n in plan && p in plan ==> multiset(n.outputs)[p] == p.Holds(n))
  }

  // ----- rewrites, as functions of the inputs -----

  /** The given parents hold m where GetInputSides said they held n. */
  ghost function MovedBy(all: Plan, n: PlanNode, m: PlanNode?, parents: seq<PlanNode>): Plan {
    map p | p in all :: if p in parents then all[p].Moved(n, m) else all[p]
  }

  ghost function MovedByAll(all: Plan, n: PlanNode, m: PlanNode?): Plan {
    map p | p in all :: all[p].Moved(n, m)
  }

  ghost function AfterReplace(all: Plan, original: PlanNode, replacement: PlanNode): Plan
    requires original in all && replacement in all
  {
    MovedByAll(all, original, replacement)[replacement := all[original]][original := Inputs(null, null)]
  }

  // ----- rewrites -----

  /** Sides for a list of parents of n. */
  ghost predicate Sides(all: Plan, n: PlanNode, outputs: seq<PlanNode>, sides: seq<Side>) {
    && |outputs| == |sides|
    && (forall i :: 0 <= i < |outputs| ==> outputs[i] in all && all[outputs[i]].Has(n))
    && (forall i :: 0 <= i < |outputs| ==> sides[i] == all[outputs[i]].SideOf(n))
  }

  ghost predicate Parents(all: Plan, n: PlanNode, outputs: seq<PlanNode>) {
    forall p :: p in all ==> (p in outputs <==> all[p].Has(n))
  }

  /** GetInputSides: a parent that holds the node on both sides reports the left side twice. */
  method GetInputSides(n: PlanNode, ghost plan: set<PlanNode>) returns (sides: seq<Side>)
    requires Linked(plan) && n in plan
    ensures Sides(AllInputs(plan), n, n.outputs, sides) && Parents(AllInputs(plan), n, n.outputs)
  {
    sides := [];
    for i := 0 to |n.outputs|
      invariant |sides| == i && forall j :: 0 <= j < i ==> sides[j] == AllInputs(plan)[n.outputs[j]].SideOf(n)
    {
      HeldIsListed(plan, n.outputs[i], n);
      var side := n.GetInputSide(n.outputs[i]);
      sides := sides + [side];
    }
    ParentsListed(plan, n);
  }

  lemma ParentsListed(plan: set<PlanNode>, n: PlanNode)
    requires Linked(plan) && n in plan
    ensures Parents(AllInputs(plan), n, n.outputs)
    ensures forall i :: 0 <= i < |n.outputs| ==> n.outputs[i] in plan && AllInputs(plan)[n.outputs[i]].Has(n)
  {
    forall p | p in plan
      ensures p in n.outputs <==> AllInputs(plan)[p].Has(n)
    {
      HeldIsListed(plan, p, n);
    }
    forall i | 0 <= i < |n.outputs|
      ensures n.outputs[i] in plan && AllInputs(plan)[n.outputs[i]].Has(n)
    {
      assert n.outputs[i] in n.outputs;
      HeldIsListed(plan, n.outputs[i], n);
    }
  }

  lemma MoveNext(all: Plan, n: PlanNode, m: PlanNode?, outputs: seq<PlanNode>, sides: seq<Side>, i: nat)
    requires i < |outputs| && Sides(all, n, outputs, sides)
    ensures WithInput(MovedBy(all, n, m, outputs[..i]), outputs[i], sides[i], m) == MovedBy(all, n, m, outputs[..i + 1])
  {
    TakeNext(outputs, i);
  }

  /** Relinks the listed parents of n to m, on the sides reported beforehand. */
  method RelinkOutputs(n: PlanNode, m: PlanNode?, outputs: seq<PlanNode>, sides: seq<Side>, ghost plan: set<PlanNode>)
    requires Linked(plan) && n in plan && (m == null || m in plan)
    requires Sides(AllInputs(plan), n, outputs, sides)
    modifies plan
    ensures Linked(plan)
    ensures AllInputs(plan) == MovedBy(old(AllInputs(plan)), n, m, outputs)
  {
    ghost var before := AllInputs(plan);
    for i := 0 to |outputs|
      invariant Linked(plan)
      invariant AllInputs(plan) == MovedBy(before, n, m, outputs[..i])
    {
      MoveNext(before, n, m, outputs, sides, i);
      outputs[i].SetInput(sides[i], m, plan);
    }
    TakeAll(outputs);
  }

  lemma ReplaceSteps(all: Plan, n: PlanNode, m: PlanNode, outputs: seq<PlanNode>, sides: seq<Side>, tied: Plan)
    requires n in all && m in all && n != m && all[m] == Inputs(null, null)
    requires Parents(all, n, outputs) && Sides(all, n, outputs, sides)
    requires tied == WithInput(WithInput(all, m, Left, all[n].left), m, Right, all[n].right)
    ensures tied[n] == all[n] && Sides(tied, n, outputs, sides)
    ensures WithInput(WithInput(MovedBy(tied, n, m, outputs), n, Left, null), n, Right, null) == AfterReplace(all, n, m)
  {
    assert tied == all[m := all[n]];
    forall i | 0 <= i < |outputs|
      ensures outputs[i] != m
    {
      assert outputs[i] in outputs;
    }
    MovedAll(all, n, m, outputs, tied);
  }

  lemma MovedAll(all: Plan, n: PlanNode, m: PlanNode, outputs: seq<PlanNode>, tied: Plan)
    requires n in all && m in all && n != m && all[m] == Inputs(null, null)
    requires Parents(all, n, outputs) && tied == all[m := all[n]]
    ensures MovedBy(tied, n, m, outputs)[n := Inputs(null, null)] == AfterReplace(all, n, m)
  {
    var moved := MovedBy(tied, n, m, outputs);
    assert m !in outputs;
    forall p | p in all && p != n && p != m
      ensures moved[p] == all[p].Moved(n, m)
    {}
  }

  /** Fails unless the replacement is untied. */
  method ReplacePlanNode(original: PlanNode, replacement: PlanNode, ghost plan: set<PlanNode>) returns (ok: bool)
    requires Linked(plan) && original in plan && replacement in plan && original != replacement
    modifies plan
    ensures Linked(plan)
    ensures ok <==> old(replacement.left == null && replacement.right == null && replacement.outputs == [])
    ensures AllInputs(plan) ==
            if ok then AfterReplace(old(AllInputs(plan)), original, replacement) else old(AllInputs(plan))
  {
    if replacement.left != null || replacement.right != null || replacement.outputs != [] {
      return false;
    }
    ok := true;
    ghost var all := AllInputs(plan);
    var outputs := original.outputs;
    var sides := GetInputSides(original, plan);
    var left, right := original.left, original.right;
    assert all[original] == Inputs(left, right) && all[replacement] == Inputs(null, null);
    replacement.SetInput(Left, left, plan);
    replacement.SetInput(Right, right, plan);
    ReplaceSteps(all, original, replacement, outputs, sides, AllInputs(plan));
    RelinkOutputs(original, replacement, outputs, sides, plan);
    original.SetInput(Left, null, plan);
    original.SetInput(Right, null, plan);
  }

  ghost function AfterInsertAbove(all: Plan, n: PlanNode, m: PlanNode): Plan
    requires m in all
  {
    WithInput(AllReplaced(all, n, m), m, Left, n)
  }

  ghost function AllReplaced(all: Plan, n: PlanNode, m: PlanNode?): Plan {
    map p | p in all :: all[p].Replaced(n, m)
  }

  ghost function AfterInsertBelow(all: Plan, parent: PlanNode, side: Side, m: PlanNode): Plan
    requires parent in all && m in all
  {
    WithInput(WithInput(all, parent, side, m), m, Left, if side.Left? then all[parent].left else all[parent].right)
  }

  ghost function AfterRemove(all: Plan, n: PlanNode): Plan
    requires n in all
  {
    MovedByAll(WithInput(all, n, Left, null), n, all[n].left)
  }

  /** The parents are listed once for each side on which they hold n. */
  ghost predicate ListedPerSide(all: Plan, n: PlanNode, outputs: seq<PlanNode>) {
    && (forall p :: p in outputs ==> p in all)
    && (forall p :: p in all ==> multiset(outputs)[p] == all[p].Count(n))
  }

  lemma ListedPerSideIn(plan: set<PlanNode>, n: PlanNode)
    requires Linked(plan) && n in plan
    ensures ListedPerSide(AllInputs(plan), n, n.outputs)
  {
    forall p | p in plan
      ensures multiset(n.outputs)[p] == AllInputs(plan)[p].Count(n)
    {
      assert multiset(n.outputs)[p] == p.Holds(n);
    }
  }

  ghost function MovedSoFar(all: Plan, n: PlanNode, m: PlanNode?, done: seq<PlanNode>): Plan {
    map p | p in all :: all[p].MovedTimes(n, m, multiset(done)[p])
  }

  lemma {:induction false} MovedTimesHas(x: Inputs, n: PlanNode, m: PlanNode?, times: nat)
    requires n != m
    ensures times < x.Count(n) ==> x.MovedTimes(n, m, times).Has(n)
    ensures times == x.Count(n) ==> x.MovedTimes(n, m, times) == x.Replaced(n, m)
  {
    if times == 1 {
      assert x.MovedTimes(n, m, 0) == x;
    } else if times == 2 {
      assert x.MovedTimes(n, m, 0) == x && x.MovedTimes(n, m, 1) == x.Moved(n, m);
    }
  }

  lemma CountNext(s: seq<PlanNode>, i: nat, p: PlanNode)
    requires i < |s|
    ensures multiset(s[..i + 1])[p] == multiset(s[..i])[p] + if p == s[i] then 1 else 0
  {
    TakeNext(s, i);
  }

  lemma CountBelow(s: seq<PlanNode>, i: nat)
    requires i < |s|
    ensures multiset(s[..i])[s[i]] < multiset(s)[s[i]]
  {
    CountNext(s, i, s[i]);
    assert s == s[..i + 1] + s[i + 1..];
  }

  lemma MoveOneMore(all: Plan, n: PlanNode, m: PlanNode, outputs: seq<PlanNode>, i: nat)
    requires ListedPerSide(all, n, outputs) && i < |outputs| && n != m
    ensures outputs[i] in all
    ensures var now := MovedSoFar(all, n, m, outputs[..i]);
            now[outputs[i]].Has(n) &&
            WithInput(now, outputs[i], now[outputs[i]].SideOf(n), m) == MovedSoFar(all, n, m, outputs[..i + 1])
  {
    assert outputs[i] in outputs;
    CountBelow(outputs, i);
    MovedTimesHas(all[outputs[i]], n, m, multiset(outputs[..i])[outputs[i]]);
    var now, next := MovedSoFar(all, n, m, outputs[..i]), MovedSoFar(all, n, m, outputs[..i + 1]);
    forall p | p in all
      ensures WithInput(now, outputs[i], now[outputs[i]].SideOf(n), m)[p] == next[p]
    {
      CountNext(outputs, i, p);
    }
  }

  lemma MovedCompletely(all: Plan, n: PlanNode, m: PlanNode, outputs: seq<PlanNode>)
    requires ListedPerSide(all, n, outputs) && n != m
    ensures MovedSoFar(all, n, m, outputs) == AllReplaced(all, n, m)
  {
    forall p | p in all
      ensures MovedSoFar(all, n, m, outputs)[p] == all[p].Replaced(n, m)
    {
      MovedTimesHas(all[p], n, m, multiset(outputs)[p]);
    }
  }

  ghost predicate Untied(p: PlanNode, allowRight: bool)
    reads p
  {
    p.left == null && (p.right == null || allowRight) && p.outputs == []
  }

  /** All parents of the node hold the inserted node afterwards, on the same sides. */
  method InsertPlanNodeAbove(node: PlanNode, inserted: PlanNode, allowRight: bool, ghost plan: set<PlanNode>)
    returns (ok: bool)
    requires Linked(plan) && node in plan && inserted in plan && node != inserted
    modifies plan
    ensures Linked(plan)
    ensures ok <==> old(Untied(inserted, allowRight))
    ensures AllInputs(plan) ==
            if ok then AfterInsertAbove(old(AllInputs(plan)), node, inserted) else old(AllInputs(plan))
  {
    ok := inserted.left == null && (inserted.right == null || allowRight) && inserted.outputs == [];
    if !ok {
      return;
    }
    RelinkParents(node, inserted, plan);
    inserted.SetInput(Left, node, plan);
  }

  /** The loop over the node's outputs, which asks for the side anew each time. */
  method RelinkParents(node: PlanNode, inserted: PlanNode, ghost plan: set<PlanNode>)
    requires Linked(plan) && node in plan && inserted in plan && node != inserted
    modifies plan
    ensures Linked(plan)
    ensures AllInputs(plan) == AllReplaced(old(AllInputs(plan)), node, inserted)
  {
    ghost var all := AllInputs(plan);
    var outputs := node.outputs;
    ListedPerSideIn(plan, node);
    assert outputs[..0] == [];
    for i := 0 to |outputs|
      invariant Linked(plan)
      invariant AllInputs(plan) == MovedSoFar(all, node, inserted, outputs[..i])
    {
      MoveOneMore(all, node, inserted, outputs, i);
      assert AllInputs(plan)[outputs[i]] == InputsOf(outputs[i]);
      var side := node.GetInputSide(outputs[i]);
      outputs[i].SetInput(side, inserted, plan);
    }
    TakeAll(outputs);
    MovedCompletely(all, node, inserted, outputs);
  }

  method InsertPlanNodeBelow(parent: PlanNode, side: Side, inserted: PlanNode, allowRight: bool,
                             ghost plan: set<PlanNode>) returns (ok: bool)
    requires Linked(plan) && parent in plan && inserted in plan
    modifies plan
    ensures Linked(plan)
    ensures ok <==> old(Untied(inserted, allowRight))
    ensures AllInputs(plan) ==
            if ok then AfterInsertBelow(old(AllInputs(plan)), parent, side, inserted) else old(AllInputs(plan))
  {
    ok := inserted.left == null && (inserted.right == null || allowRight) && inserted.outputs == [];
    if ok {
      var input := parent.Input(side);
      parent.SetInput(side, inserted, plan);
      inserted.SetInput(Left, input, plan);
    }
  }

  lemma RemoveSteps(all: Plan, n: PlanNode, outputs: seq<PlanNode>, sides: seq<Side>)
    requires n in all && !all[n].Has(n) && Parents(all, n, outputs) && Sides(all, n, outputs, sides)
    ensures Sides(WithInput(all, n, Left, null), n, outputs, sides)
    ensures MovedBy(WithInput(all, n, Left, null), n, all[n].left, outputs) == AfterRemove(all, n)
  {
    forall i | 0 <= i < |outputs|
      ensures outputs[i] != n
    {
      assert outputs[i] in outputs;
    }
  }

  /** The parents of the node get its left input, null if there is none. */
  method RemovePlanNode(node: PlanNode, allowRight: bool, ghost plan: set<PlanNode>) returns (ok: bool)
    requires Linked(plan) && node in plan && node.left != node && node.right != node
    modifies plan
    ensures Linked(plan)
    ensures ok <==> old(allowRight || node.right == null)
    ensures AllInputs(plan) == if ok then AfterRemove(old(AllInputs(plan)), node) else old(AllInputs(plan))
  {
    ok := allowRight || node.right == null;
    if ok {
      ghost var all := AllInputs(plan);
      var outputs := node.outputs;
      var sides := GetInputSides(node, plan);
      var left := node.left;
      node.SetInput(Left, null, plan);
      RemoveSteps(all, node, outputs, sides);
      RelinkOutputs(node, left, outputs, sides, plan);
    }
  }

  // ----- what the rewrites achieve -----

  ghost predicate HasParent(all: Plan, n: PlanNode) {
    exists p :: p in all && all[p].Has(n)
  }

  ghost predicate HasTwiceParent(all: Plan, n: PlanNode) {
    exists p :: p in all && all[p].HasTwice(n)
  }

  /** A fresh node: no inputs and no parents. */
  ghost predicate Fresh(all: Plan, m: PlanNode) {
    m in all && all[m] == Inputs(null, null) && !HasParent(all, m)
  }

  lemma OneSideLeft(all: Plan, after: Plan, n: PlanNode, m: PlanNode?)
    requires after.Keys == all.Keys && n != m && n in all && !all[n].Has(n) && !after[n].Has(n)
    requires forall p :: p in all && p != n && p != m ==> after[p] == all[p].Moved(n, m)
    requires forall p :: p in all && p == m ==> !all[p].Has(n) && !after[p].Has(n)
    ensures HasParent(after, n) <==> HasTwiceParent(all, n)
  {
    if HasTwiceParent(all, n) {
      var p :| p in all && all[p].HasTwice(n);
      assert after[p].Has(n);
    }
    if HasParent(after, n) {
      var p :| p in after && after[p].Has(n);
      assert all[p].HasTwice(n);
    }
  }

  /** A replaced node keeps parents exactly when some parent held it on both sides. */
  lemma ReplacedNodeParents(all: Plan, n: PlanNode, m: PlanNode)
    requires n in all && n != m && Fresh(all, m) && !all[n].Has(n)
    ensures HasParent(AfterReplace(all, n, m), n) <==> HasTwiceParent(all, n)
  {
    OneSideLeft(all, AfterReplace(all, n, m), n, m);
  }

  /** The same for a removed node. */
  lemma RemovedNodeParents(all: Plan, n: PlanNode)
    requires n in all && !all[n].Has(n)
    requires all[n].left != null && all[n].left in all ==> !all[all[n].left].Has(n)
    ensures HasParent(AfterRemove(all, n), n) <==> HasTwiceParent(all, n)
  {
    OneSideLeft(all, AfterRemove(all, n), n, all[n].left);
  }

  /** After an insertion above, the inserted node is the only parent, and holds the node once. */
  lemma InsertedAbove(all: Plan, n: PlanNode, m: PlanNode)
    requires n in all && n != m && Fresh(all, m)
    ensures var after := AfterInsertAbove(all, n, m);
            && (forall p :: p in all ==> (after[p].Has(n) <==> p == m))
            && (forall p :: p in all && p != m ==> (after[p].left == m <==> all[p].left == n))
            && (forall p :: p in all && p != m ==> (after[p].right == m <==> all[p].right == n))
  {
    forall p | p in all
      ensures !all[p].Has(m)
    {}
  }

  /** Removing what was inserted above restores the plan exactly when no parent held the node twice. */
  lemma InsertAboveThenRemove(all: Plan, n: PlanNode, m: PlanNode)
    requires n in all && n != m && Fresh(all, m)
    ensures AfterRemove(AfterInsertAbove(all, n, m), m) == all <==> !HasTwiceParent(all, n)
  {
    var after := AfterRemove(AfterInsertAbove(all, n, m), m);
    forall p | p in all
      ensures after[p] == all[p] <==> !all[p].HasTwice(n)
    {
      assert !all[p].Has(m);
    }
    if HasTwiceParent(all, n) {
      var p :| p in all && all[p].HasTwice(n);
      assert after[p] != all[p];
    }
  }

  lemma InsertedBelow(all: Plan, parent: PlanNode, side: Side, m: PlanNode, p: PlanNode)
    requires parent in all && parent != m && Fresh(all, m) && p in all
    ensures AfterInsertBelow(all, parent, side, m)[p] ==
            if p == m then Inputs(all[parent].At(side), null)
            else if p == parent then all[p].With(side, m) else all[p]
  {}

  /** Removing what was inserted below always restores the plan. */
  lemma InsertBelowThenRemove(all: Plan, parent: PlanNode, side: Side, m: PlanNode)
    requires parent in all && parent != m && Fresh(all, m)
    ensures AfterRemove(AfterInsertBelow(all, parent, side, m), m) == all
  {
    var inserted := AfterInsertBelow(all, parent, side, m);
    var after := AfterRemove(inserted, m);
    InsertedBelow(all, parent, side, m, m);
    forall p | p in all
      ensures after[p] == all[p]
    {
      assert !all[p].Has(m);
      InsertedBelow(all, parent, side, m, p);
    }
  }

  lemma ReplacedInputs(all: Plan, n: PlanNode, m: PlanNode, p: PlanNode)
    requires n in all && m in all && n != m && p in all
    ensures AfterReplace(all, n, m)[p] ==
            if p == n then Inputs(null, null) else if p == m then all[n] else all[p].Moved(n, m)
  {}

  /** Replacing back restores the plan. */
  lemma ReplaceBack(all: Plan, n: PlanNode, m: PlanNode)
    requires n in all && n != m && Fresh(all, m) && !all[n].Has(n)
    ensures AfterReplace(AfterReplace(all, n, m), m, n) == all
  {
    var replaced := AfterReplace(all, n, m);
    var after := AfterReplace(replaced, m, n);
    forall p | p in all
      ensures after[p] == all[p]
    {
      assert !all[p].Has(m) && !all[n].Has(m);
      ReplacedInputs(all, n, m, p);
      ReplacedInputs(all, n, m, m);
      ReplacedInputs(replaced, m, n, p);
    }
  }

  // ----- plans stay acyclic: a rank that decreases along inputs can be carried over -----

  ghost predicate Ranked(all: Plan, rank: map<PlanNode, nat>) {
    && rank.Keys == all.Keys
    && (forall p :: p in all && all[p].left != null ==> all[p].left in all && rank[all[p].left] < rank[p])
    && (forall p :: p in all && all[p].right != null ==> all[p].right in all && rank[all[p].right] < rank[p])
  }

  lemma ReplaceKeepsAcyclic(all: Plan, n: PlanNode, m: PlanNode, rank: map<PlanNode, nat>)
    returns (ranked: map<PlanNode, nat>)
    requires n in all && n != m && Fresh(all, m) && Ranked(all, rank)
    ensures Ranked(AfterReplace(all, n, m), ranked)
  {
    ranked := rank[m := rank[n]];
    var after := AfterReplace(all, n, m);
    forall p | p in all
      ensures after[p].left == null || (after[p].left in all && ranked[after[p].left] < ranked[p])
      ensures after[p].right == null || (after[p].right in all && ranked[after[p].right] < ranked[p])
    {
      assert !all[p].Has(m);
      assert after[p] == if p == n then Inputs(null, null) else if p == m then all[n] else all[p].Moved(n, m);
    }
  }

  lemma InsertAboveKeepsAcyclic(all: Plan, n: PlanNode, m: PlanNode, rank: map<PlanNode, nat>)
    returns (ranked: map<PlanNode, nat>)
    requires n in all && n != m && Fresh(all, m) && Ranked(all, rank)
    ensures Ranked(AfterInsertAbove(all, n, m), ranked)
  {
    ranked := map p | p in all :: if p == m then 2 * rank[n] + 1 else 2 * rank[p];
    forall p | p in all
      ensures !all[p].Has(m)
    {}
  }

  lemma InsertBelowKeepsAcyclic(all: Plan, parent: PlanNode, side: Side, m: PlanNode, rank: map<PlanNode, nat>)
    returns (ranked: map<PlanNode, nat>)
    requires parent in all && parent != m && Fresh(all, m) && Ranked(all, rank)
    ensures Ranked(AfterInsertBelow(all, parent, side, m), ranked)
  {
    ranked := map p | p in all :: if p == m then 2 * rank[parent] + 1 else 2 * rank[p] + 2;
    var after := AfterInsertBelow(all, parent, side, m);
    forall p | p in all
      ensures after[p].left == null || (after[p].left in all && ranked[after[p].left] < ranked[p])
      ensures after[p].right == null || (after[p].right in all && ranked[after[p].right] < ranked[p])
    {
      assert !all[p].Has(m) && !all[parent].Has(m);
      InsertedBelow(all, parent, side, m, p);
    }
  }

  lemma RemoveKeepsAcyclic(all: Plan, n: PlanNode, rank: map<PlanNode, nat>)
    requires n in all && Ranked(all, rank)
    ensures Ranked(AfterRemove(all, n), rank)
  {
    var after := AfterRemove(all, n);
    forall p | p in all
      ensures after[p].left == null || (after[p].left in all && rank[after[p].left] < rank[p])
      ensures after[p].right == null || (after[p].right in all && rank[after[p].right] < rank[p])
    {
      assert after[p] == if p == n then Inputs(null, all[n].right) else all[p].Moved(n, all[n].left);
    }
  }
}
