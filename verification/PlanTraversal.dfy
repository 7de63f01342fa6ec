/** Breadth-first visits of physical query plans, downwards and upwards, and what is built on them. */
module PlanTraversal {
  import opened Sequences
  import opened Storage

  datatype Link<N> = NoNode | To(node: N)

  datatype Proxy<N> = Proxy(left: Link<N>, right: Link<N>, outputs: seq<N>)

  type PlanOf<N> = map<N, Proxy<N>>

  // ----- walks -----

  /** n can be reached from the root in k steps. */
  ghost predicate Walk<N(!new)>(next: N -> seq<N>, root: N, n: N, k: nat) {
    if k == 0 then n == root else exists y: N :: Walk(next, root, y, k - 1) && n in next(y)
  }

  ghost predicate Reachable<N(!new)>(next: N -> seq<N>, root: N, n: N) {
    exists k: nat :: Walk(next, root, n, k)
  }

  /** A set that holds the root and is closed under steps holds every reachable node. */
  lemma {:induction false} ClosedHoldsWalks<N(!new)>(next: N -> seq<N>, root: N, n: N, k: nat, closed: set<N>)
    requires root in closed && forall y, m :: y in closed && m in next(y) ==> m in closed
    requires Walk(next, root, n, k)
    ensures n in closed
  {
    if k > 0 {
      var y :| Walk(next, root, y, k - 1) && n in next(y);
      ClosedHoldsWalks(next, root, y, k - 1, closed);
    }
  }

  // ----- the visit -----

  ghost predicate ClosedUniverse<N(!new)>(next: N -> seq<N>, universe: set<N>) {
    forall y, m :: y in universe && m in next(y) ==> m in universe
  }

  /** Entry i of the queue is a node with the number of steps it was found after. */
  ghost predicate Found<N(!new)>(next: N -> seq<N>, root: N, nodes: seq<N>, levels: seq<nat>) {
    |nodes| == |levels| && forall i :: 0 <= i < |nodes| ==> Walk(next, root, nodes[i], levels[i])
  }

  ghost predicate NonDecreasing(levels: seq<nat>) {
    forall i, j :: 0 <= i < j < |levels| ==> levels[i] <= levels[j]
  }

  /** The levels of the queue never spread over more than two steps. */
  ghost predicate Frontier(levels: seq<nat>) {
    NonDecreasing(levels) && forall i :: 0 <= i < |levels| ==> levels[i] <= levels[0] + 1
  }

  ghost predicate Pending<N(!new)>(m: N, level: nat, queue: seq<N>, levels: seq<nat>) {
    exists i :: 0 <= i < |queue| && i < |levels| && queue[i] == m && levels[i] <= level
  }

  /** The steps out of a visited node lead to visited nodes or to the queue, one level further at most. */
  ghost predicate Expanded<N(!new)>(next: N -> seq<N>, order: seq<N>, depths: seq<nat>, queue: seq<N>,
                                    levels: seq<nat>) {
    |order| == |depths| &&
    forall i, m :: 0 <= i < |order| && m in next(order[i]) ==> m in order || Pending(m, depths[i] + 1, queue, levels)
  }

  /** No node is visited later than the shortest walk to it allows. */
  ghost predicate Shortest<N(!new)>(next: N -> seq<N>, root: N, order: seq<N>, depths: seq<nat>) {
    |order| == |depths| &&
    forall i, k: nat :: 0 <= i < |order| && Walk(next, root, order[i], k) ==> depths[i] <= k
  }

  ghost predicate VisitedBelow<N(!new)>(next: N -> seq<N>, root: N, order: seq<N>, level: nat) {
    forall n, k: nat :: k < level && Walk(next, root, n, k) ==> n in order
  }

  lemma PendingPopped<N(!new)>(m: N, level: nat, queue: seq<N>, levels: seq<nat>)
    requires |queue| == |levels| > 0 && Pending(m, level, queue, levels) && m != queue[0]
    ensures Pending(m, level, queue[1..], levels[1..])
  {
    var i :| 0 <= i < |queue| && queue[i] == m && levels[i] <= level;
    assert queue[1..][i - 1] == m && levels[1..][i - 1] == levels[i];
  }

  lemma PendingPushed<N(!new)>(m: N, level: nat, queue: seq<N>, levels: seq<nat>, more: seq<N>, moreLevels: seq<nat>)
    requires |queue| == |levels| && |more| == |moreLevels|
    ensures Pending(m, level, queue, levels) ==> Pending(m, level, queue + more, levels + moreLevels)
    ensures Pending(m, level, more, moreLevels) ==> Pending(m, level, queue + more, levels + moreLevels)
  {
    if Pending(m, level, queue, levels) {
      var i :| 0 <= i < |queue| && queue[i] == m && levels[i] <= level;
      assert (queue + more)[i] == m && (levels + moreLevels)[i] == levels[i];
    }
    if Pending(m, level, more, moreLevels) {
      var i :| 0 <= i < |more| && more[i] == m && moreLevels[i] <= level;
      assert (queue + more)[|queue| + i] == m && (levels + moreLevels)[|queue| + i] == moreLevels[i];
    }
  }

  /** Dropping a queue entry whose node has been visited. */
  lemma ExpandedDropped<N(!new)>(next: N -> seq<N>, order: seq<N>, depths: seq<nat>, queue: seq<N>, levels: seq<nat>)
    requires |queue| == |levels| > 0 && queue[0] in order && Expanded(next, order, depths, queue, levels)
    ensures Expanded(next, order, depths, queue[1..], levels[1..])
  {
    forall i, m | 0 <= i < |order| && m in next(order[i]) && m !in order
      ensures Pending(m, depths[i] + 1, queue[1..], levels[1..])
    {
      PendingPopped(m, depths[i] + 1, queue, levels);
    }
  }

  /** Visiting the first node of the queue and pushing where it leads. */
  lemma ExpandedVisited<N(!new)>(next: N -> seq<N>, order: seq<N>, depths: seq<nat>, queue: seq<N>, levels: seq<nat>,
                                 more: seq<N>, moreLevels: seq<nat>)
    requires |queue| == |levels| > 0 && Expanded(next, order, depths, queue, levels)
    requires more == next(queue[0]) && |moreLevels| == |more|
    requires forall i :: 0 <= i < |more| ==> moreLevels[i] == levels[0] + 1
    ensures Expanded(next, order + [queue[0]], depths + [levels[0]], queue[1..] + more, levels[1..] + moreLevels)
  {
    var visited, deep := order + [queue[0]], depths + [levels[0]];
    forall i, m | 0 <= i < |visited| && m in next(visited[i]) && m !in visited
      ensures Pending(m, deep[i] + 1, queue[1..] + more, levels[1..] + moreLevels)
    {
      if i < |order| {
        assert m in next(order[i]) && m !in order;
        assert m != visited[|order|];
        PendingPopped(m, depths[i] + 1, queue, levels);
      } else {
        var j :| 0 <= j < |more| && more[j] == m;
        assert Pending(m, levels[0] + 1, more, moreLevels);
      }
      PendingPushed(m, deep[i] + 1, queue[1..], levels[1..], more, moreLevels);
    }
  }

  /** When the head of the queue is one level further, all nodes of the level before are visited. */
  lemma NextLevel<N(!new)>(next: N -> seq<N>, root: N, order: seq<N>, depths: seq<nat>, queue: seq<N>, levels: seq<nat>,
                           level: nat)
    requires |queue| == |levels| && Expanded(next, order, depths, queue, levels) && Shortest(next, root, order, depths)
    requires root in order && VisitedBelow(next, root, order, level)
    requires forall i :: 0 <= i < |levels| ==> levels[i] >= level + 1
    ensures VisitedBelow(next, root, order, level + 1)
  {
    forall n, k: nat | k < level + 1 && Walk(next, root, n, k)
      ensures n in order
    {
      if k > 0 && k == level {
        var y :| Walk(next, root, y, k - 1) && n in next(y);
        assert y in order;
        var i :| 0 <= i < |order| && order[i] == y;
        assert depths[i] <= k - 1;
      }
    }
  }

  /** Everything the loop keeps; `level` is that of the queue's head, or of the last one. */
  ghost predicate Visiting<N(!new)>(next: N -> seq<N>, root: N, order: seq<N>, depths: seq<nat>, queue: seq<N>,
                                    levels: seq<nat>, level: nat) {
    && |order| == |depths| && |queue| == |levels|
    && Found(next, root, order, depths) && Found(next, root, queue, levels)
    && Frontier(levels) && (queue != [] ==> levels[0] == level)
    && NonDecreasing(depths) && (forall i :: 0 <= i < |depths| ==> depths[i] <= level)
    && Expanded(next, order, depths, queue, levels) && Shortest(next, root, order, depths)
    && VisitedBelow(next, root, order, level)
    && (root in order || (level == 0 && queue == [root]))
  }

  lemma HeadAdvances<N(!new)>(next: N -> seq<N>, root: N, order: seq<N>, depths: seq<nat>, queue: seq<N>,
                              levels: seq<nat>, level: nat) returns (now: nat)
    requires |queue| == |levels| && Frontier(levels) && root in order && Found(next, root, order, depths)
    requires forall i :: 0 <= i < |levels| ==> level <= levels[i] <= level + 1
    requires Expanded(next, order, depths, queue, levels) && Shortest(next, root, order, depths)
    requires VisitedBelow(next, root, order, level)
    ensures level <= now && (queue != [] ==> levels[0] == now) && VisitedBelow(next, root, order, now)
  {
    now := level;
    if queue != [] && levels[0] == level + 1 {
      now := level + 1;
      NextLevel(next, root, order, depths, queue, levels, level);
    }
  }

  lemma Dropped<N(!new)>(next: N -> seq<N>, root: N, order: seq<N>, depths: seq<nat>, queue: seq<N>,
                         levels: seq<nat>, level: nat) returns (now: nat)
    requires Visiting(next, root, order, depths, queue, levels, level) && queue != [] && queue[0] in order
    ensures Visiting(next, root, order, depths, queue[1..], levels[1..], now)
  {
    ExpandedDropped(next, order, depths, queue, levels);
    assert root in order;
    now := HeadAdvances(next, root, order, depths, queue[1..], levels[1..], level);
  }

  lemma NotEarlier<N(!new)>(next: N -> seq<N>, root: N, order: seq<N>, level: nat, n: N, k: nat)
    requires VisitedBelow(next, root, order, level) && n !in order && Walk(next, root, n, k)
    ensures k >= level
  {}

  lemma ShortestVisited<N(!new)>(next: N -> seq<N>, root: N, order: seq<N>, depths: seq<nat>, level: nat, n: N)
    requires Shortest(next, root, order, depths) && VisitedBelow(next, root, order, level) && n !in order
    ensures Shortest(next, root, order + [n], depths + [level])
  {
    forall i, k: nat | 0 <= i < |order + [n]| && Walk(next, root, (order + [n])[i], k)
      ensures (depths + [level])[i] <= k
    {
      if i == |order| {
        NotEarlier(next, root, order, level, n, k);
      }
    }
  }

  lemma FoundPushed<N(!new)>(next: N -> seq<N>, root: N, n: N, level: nat, moreLevels: seq<nat>)
    requires Walk(next, root, n, level) && |moreLevels| == |next(n)|
    requires forall i :: 0 <= i < |moreLevels| ==> moreLevels[i] == level + 1
    ensures Found(next, root, next(n), moreLevels)
  {
    forall i | 0 <= i < |moreLevels|
      ensures Walk(next, root, next(n)[i], level + 1)
    {
      assert next(n)[i] in next(n);
    }
  }

  lemma LevelsVisited(levels: seq<nat>, level: nat, moreLevels: seq<nat>)
    requires Frontier(levels) && levels != [] && levels[0] == level
    requires forall i :: 0 <= i < |moreLevels| ==> moreLevels[i] == level + 1
    ensures var now := levels[1..] + moreLevels;
            Frontier(now) && forall i :: 0 <= i < |now| ==> level <= now[i] <= level + 1
  {}

  lemma DepthsVisited(depths: seq<nat>, level: nat)
    requires NonDecreasing(depths) && forall i :: 0 <= i < |depths| ==> depths[i] <= level
    ensures NonDecreasing(depths + [level])
    ensures forall i :: 0 <= i <= |depths| ==> (depths + [level])[i] <= level
  {}

  lemma FoundBeside<N(!new)>(next: N -> seq<N>, root: N, nodes: seq<N>, levels: seq<nat>, more: seq<N>,
                             moreLevels: seq<nat>)
    requires Found(next, root, nodes, levels) && Found(next, root, more, moreLevels)
    ensures Found(next, root, nodes + more, levels + moreLevels)
  {}

  lemma FoundRest<N(!new)>(next: N -> seq<N>, root: N, nodes: seq<N>, levels: seq<nat>)
    requires Found(next, root, nodes, levels) && nodes != []
    ensures Found(next, root, nodes[1..], levels[1..]) && Found(next, root, [nodes[0]], [levels[0]])
  {}

  lemma BelowVisited<N(!new)>(next: N -> seq<N>, root: N, order: seq<N>, n: N, level: nat)
    requires VisitedBelow(next, root, order, level)
    ensures VisitedBelow(next, root, order + [n], level)
  {}

  /** What a visit keeps before the level of the queue's head is known. */
  lemma VisitStep<N(!new)>(next: N -> seq<N>, root: N, order: seq<N>, depths: seq<nat>, queue: seq<N>,
                           levels: seq<nat>, level: nat, more: seq<N>, moreLevels: seq<nat>)
    requires Visiting(next, root, order, depths, queue, levels, level) && queue != [] && queue[0] !in order
    requires more == next(queue[0]) && |moreLevels| == |more|
    requires forall i :: 0 <= i < |more| ==> moreLevels[i] == level + 1
    ensures var n := queue[0];
            && Found(next, root, order + [n], depths + [level])
            && Found(next, root, queue[1..] + more, levels[1..] + moreLevels)
            && Expanded(next, order + [n], depths + [level], queue[1..] + more, levels[1..] + moreLevels)
            && Shortest(next, root, order + [n], depths + [level]) && VisitedBelow(next, root, order + [n], level)
  {
    FoundRest(next, root, queue, levels);
    FoundBeside(next, root, order, depths, [queue[0]], [level]);
    FoundPushed(next, root, queue[0], level, moreLevels);
    FoundBeside(next, root, queue[1..], levels[1..], more, moreLevels);
    ExpandedVisited(next, order, depths, queue, levels, more, moreLevels);
    ShortestVisited(next, root, order, depths, level, queue[0]);
    BelowVisited(next, root, order, queue[0], level);
  }

  lemma RootVisited<N(!new)>(root: N, order: seq<N>, n: N)
    requires root in order || n == root
    ensures root in order + [n]
  {
    assert (order + [n])[|order|] == n;
  }

  lemma Visited<N(!new)>(next: N -> seq<N>, root: N, order: seq<N>, depths: seq<nat>, queue: seq<N>,
                         levels: seq<nat>, level: nat, more: seq<N>, moreLevels: seq<nat>) returns (now: nat)
    requires Visiting(next, root, order, depths, queue, levels, level) && queue != [] && queue[0] !in order
    requires more == next(queue[0]) && |moreLevels| == |more|
    requires forall i :: 0 <= i < |more| ==> moreLevels[i] == level + 1
    ensures Visiting(next, root, order + [queue[0]], depths + [level], queue[1..] + more, levels[1..] + moreLevels, now)
  {
    VisitStep(next, root, order, depths, queue, levels, level, more, moreLevels);
    LevelsVisited(levels, level, moreLevels);
    DepthsVisited(depths, level);
    RootVisited(root, order, queue[0]);
    now := HeadAdvances(next, root, order + [queue[0]], depths + [level], queue[1..] + more, levels[1..] + moreLevels,
                        level);
  }

  /** The loop of VisitPqp and VisitPqpUpwards: the visitor is called on `order`, one node after the other. */
  method BreadthFirst<N(!new, ==)>(root: N, next: N -> seq<N>, ghost universe: set<N>)
    returns (order: seq<N>, ghost depths: seq<nat>)
    requires root in universe && ClosedUniverse(next, universe)
    ensures NoDup(order)
    ensures forall n :: n in order <==> Reachable(next, root, n)
    ensures NonDecreasing(depths) && Found(next, root, order, depths) && Shortest(next, root, order, depths)
    ensures order == Firsts(Pushed(next, root, order))
  {
    var queue := [root];
    var visited: set<N> := {};
    order, depths := [], [];
    ghost var levels: seq<nat> := [0];
    ghost var level: nat := 0;
    ghost var popped: seq<N> := [];
    StartsVisiting(next, root);
    StartsPushing(next, root);
    while queue != []
      invariant Visiting(next, root, order, depths, queue, levels, level)
      invariant Recorded(order, visited, queue, universe)
      invariant popped + queue == Pushed(next, root, order) && order == Firsts(popped)
      decreases |universe - visited|, |queue|
    {
      var n := queue[0];
      if n in visited {
        level := Dropped(next, root, order, depths, queue, levels, level);
        NothingNew(order, visited, queue, universe);
        PoppedAgain(popped, queue);
        queue, levels := queue[1..], levels[1..];
      } else {
        ghost var more, was := seq(|next(n)|, _ => level + 1), level;
        level := Visited(next, root, order, depths, queue, levels, level, next(n), more);
        OneMore(next, order, queue, visited, universe);
        PoppedFirst(next, root, popped, queue, order);
        order, depths := order + [n], depths + [was];
        visited := visited + {n};
        queue, levels := queue[1..] + next(n), levels[1..] + more;
      }
      popped := popped + [n];
    }
    AllVisited(next, root, order, depths);
    assert popped + [] == popped;
  }

  /** The first occurrences of a list. */
  function Firsts<N(==)>(s: seq<N>): seq<N> {
    if s == [] then []
    else
      var front, last := Firsts(s[..|s| - 1]), s[|s| - 1];
      if last in front then front else front + [last]
  }

  /** What the queue has seen when the nodes of the list are expanded one after the other. */
  function Pushed<N>(next: N -> seq<N>, root: N, order: seq<N>): seq<N> {
    [root] + Concat(Map(next, order))
  }

  lemma StartsPushing<N(!new)>(next: N -> seq<N>, root: N)
    ensures [] + [root] == Pushed(next, root, [])
  {
    assert Concat(Map(next, [])) == [];
  }

  lemma FirstsSnoc<N>(s: seq<N>, x: N)
    ensures Firsts(s + [x]) == if x in Firsts(s) then Firsts(s) else Firsts(s) + [x]
  {
    assert (s + [x])[..|s|] == s;
  }

  lemma PoppedAgain<N(!new)>(popped: seq<N>, queue: seq<N>)
    requires queue != [] && queue[0] in Firsts(popped)
    ensures popped + [queue[0]] + queue[1..] == popped + queue
    ensures Firsts(popped + [queue[0]]) == Firsts(popped)
  {
    FirstsSnoc(popped, queue[0]);
  }

  lemma PoppedFirst<N(!new)>(next: N -> seq<N>, root: N, popped: seq<N>, queue: seq<N>, order: seq<N>)
    requires queue != [] && popped + queue == Pushed(next, root, order)
    requires order == Firsts(popped) && queue[0] !in order
    ensures var n := queue[0];
            && Firsts(popped + [n]) == order + [n]
            && (popped + [n]) + (queue[1..] + next(n)) == Pushed(next, root, order + [n])
  {
    var n := queue[0];
    FirstsSnoc(popped, n);
    MapAppend(next, order, [n]);
    ConcatSnoc(Map(next, order), next(n));
    AppendAssociates([root], Concat(Map(next, order)), next(n));
    assert popped + [n] + queue[1..] == popped + queue;
    AppendAssociates(popped + [n], queue[1..], next(n));
  }

  ghost predicate SameNodes<N(!new)>(order: seq<N>, visited: set<N>) {
    forall n :: n in order <==> n in visited
  }

  ghost predicate Within<N(!new)>(queue: seq<N>, universe: set<N>) {
    forall n :: n in queue ==> n in universe
  }

  lemma WithinPushed<N(!new)>(next: N -> seq<N>, queue: seq<N>, universe: set<N>)
    requires queue != [] && Within(queue, universe) && ClosedUniverse(next, universe)
    ensures queue[0] in universe && Within(queue[1..] + next(queue[0]), universe)
  {}

  /** The list of visits and the set of visited nodes agree, and all nodes are known. */
  ghost predicate Recorded<N(!new)>(order: seq<N>, visited: set<N>, queue: seq<N>, universe: set<N>) {
    NoDup(order) && SameNodes(order, visited) && visited <= universe && Within(queue, universe)
  }

  lemma StartsVisiting<N(!new)>(next: N -> seq<N>, root: N)
    ensures Visiting(next, root, [], [], [root], [0], 0)
  {}

  lemma NothingNew<N(!new)>(order: seq<N>, visited: set<N>, queue: seq<N>, universe: set<N>)
    requires Recorded(order, visited, queue, universe) && queue != []
    ensures Recorded(order, visited, queue[1..], universe)
  {}

  lemma OneMore<N(!new)>(next: N -> seq<N>, order: seq<N>, queue: seq<N>, visited: set<N>, universe: set<N>)
    requires Recorded(order, visited, queue, universe)
    requires queue != [] && queue[0] !in visited && ClosedUniverse(next, universe)
    ensures var n := queue[0];
            && Recorded(order + [n], visited + {n}, queue[1..] + next(n), universe)
            && |universe - (visited + {n})| < |universe - visited|
  {
    WithinPushed(next, queue, universe);
    SmallerSet(universe, visited, queue[0]);
    NoDupAppend(order, [queue[0]]);
  }

  lemma SmallerSet<N>(universe: set<N>, visited: set<N>, n: N)
    requires n in universe && n !in visited
    ensures |universe - (visited + {n})| < |universe - visited|
  {
    assert universe - visited == (universe - (visited + {n})) + {n};
  }

  lemma AllVisited<N(!new)>(next: N -> seq<N>, root: N, order: seq<N>, depths: seq<nat>)
    requires root in order && Found(next, root, order, depths) && Expanded(next, order, depths, [], [])
    ensures forall n :: n in order <==> Reachable(next, root, n)
  {
    var closed := set n | n in order;
    forall y, m | y in closed && m in next(y)
      ensures m in closed
    {
      var i :| 0 <= i < |order| && order[i] == y;
    }
    forall n
      ensures n in order <==> Reachable(next, root, n)
    {
      if n in order {
        var i :| 0 <= i < |order| && order[i] == n;
        assert Walk(next, root, n, depths[i]);
      }
      if Reachable(next, root, n) {
        var k: nat :| Walk(next, root, n, k);
        ClosedHoldsWalks(next, root, n, k, closed);
      }
    }
  }

  // ----- downwards, upwards, leaves -----

  ghost predicate ClosedPlan<N(!new)>(plan: PlanOf<N>) {
    && (forall n :: n in plan && plan[n].left.To? ==> plan[n].left.node in plan)
    && (forall n :: n in plan && plan[n].right.To? ==> plan[n].right.node in plan)
    && (forall n, m :: n in plan && m in plan[n].outputs ==> m in plan)
  }

  function LinkNodes<N>(link: Link<N>): seq<N> {
    if link.To? then [link.node] else []
  }

  /** Left input, then right input, of nodes whose inputs the visitor asks for. */
  function Inputs<N(==)>(plan: PlanOf<N>, decide: N -> bool): N -> seq<N> {
    n => if n in plan && decide(n) then LinkNodes(plan[n].left) + LinkNodes(plan[n].right) else []
  }

  function Outputs<N(==)>(plan: PlanOf<N>, decide: N -> bool): N -> seq<N> {
    n => if n in plan && decide(n) then plan[n].outputs else []
  }

  // ----- the links of a plan, as relations -----

  /** m is the left or the right input of n. */
  ghost predicate IsInput<N(!new)>(plan: PlanOf<N>, n: N, m: N) {
    n in plan && (plan[n].left == To(m) || plan[n].right == To(m))
  }

  ghost predicate IsOutput<N(!new)>(plan: PlanOf<N>, n: N, m: N) {
    n in plan && m in plan[n].outputs
  }

  /** n is k steps of the relation away from the root. */
  ghost predicate Path<N(!new)>(step: (N, N) -> bool, root: N, n: N, k: nat) {
    if k == 0 then n == root else exists y: N :: Path(step, root, y, k - 1) && step(y, n)
  }

  ghost predicate Reaches<N(!new)>(step: (N, N) -> bool, root: N, n: N) {
    exists k: nat :: Path(step, root, n, k)
  }

  /** From a node that the visitor expands to its inputs. */
  ghost function InputStep<N(!new)>(plan: PlanOf<N>, decide: N -> bool): (N, N) -> bool {
    (n: N, m: N) => decide(n) && IsInput(plan, n, m)
  }

  ghost function OutputStep<N(!new)>(plan: PlanOf<N>, decide: N -> bool): (N, N) -> bool {
    (n: N, m: N) => decide(n) && IsOutput(plan, n, m)
  }

  lemma {:induction false} WalkIsPath<N(!new)>(next: N -> seq<N>, step: (N, N) -> bool, root: N, n: N, k: nat)
    requires forall y, m :: m in next(y) <==> step(y, m)
    ensures Walk(next, root, n, k) <==> Path(step, root, n, k)
  {
    if k > 0 {
      forall y: N
        ensures Walk(next, root, y, k - 1) && n in next(y) <==> Path(step, root, y, k - 1) && step(y, n)
      {
        WalkIsPath(next, step, root, y, k - 1);
      }
    }
  }

  lemma ReachableReaches<N(!new)>(next: N -> seq<N>, step: (N, N) -> bool, root: N)
    requires forall y, m :: m in next(y) <==> step(y, m)
    ensures forall n :: Reachable(next, root, n) <==> Reaches(step, root, n)
  {
    forall n: N, k: nat
      ensures Walk(next, root, n, k) <==> Path(step, root, n, k)
    {
      WalkIsPath(next, step, root, n, k);
    }
  }

  /** The left input comes before the right one, and neither of a node that is not expanded. */
  lemma InputsInOrder<N(!new)>(plan: PlanOf<N>, decide: N -> bool, n: N, l: N, r: N)
    requires n in plan && plan[n].left == To(l) && plan[n].right == To(r)
    ensures Inputs(plan, decide)(n) == if decide(n) then [l, r] else []
  {}

  lemma InputsReach<N(!new)>(plan: PlanOf<N>, decide: N -> bool, root: N)
    ensures forall n :: Reachable(Inputs(plan, decide), root, n) <==> Reaches(InputStep(plan, decide), root, n)
  {
    forall y: N, m: N
      ensures m in Inputs(plan, decide)(y) <==> InputStep(plan, decide)(y, m)
    {}
    ReachableReaches(Inputs(plan, decide), InputStep(plan, decide), root);
  }

  lemma OutputsReach<N(!new)>(plan: PlanOf<N>, decide: N -> bool, root: N)
    ensures forall n :: Reachable(Outputs(plan, decide), root, n) <==> Reaches(OutputStep(plan, decide), root, n)
  {
    forall y: N, m: N
      ensures m in Outputs(plan, decide)(y) <==> OutputStep(plan, decide)(y, m)
    {}
    ReachableReaches(Outputs(plan, decide), OutputStep(plan, decide), root);
  }

  method VisitPqp<N(!new, ==)>(plan: PlanOf<N>, root: N, decide: N -> bool) returns (order: seq<N>)
    requires ClosedPlan(plan) && root in plan
    ensures NoDup(order)
    ensures forall n :: n in order <==> Reaches(InputStep(plan, decide), root, n)
    ensures order == Firsts(Pushed(Inputs(plan, decide), root, order))
  {
    ghost var depths;
    order, depths := BreadthFirst(root, Inputs(plan, decide), plan.Keys);
    InputsReach(plan, decide, root);
  }

  method VisitPqpUpwards<N(!new, ==)>(plan: PlanOf<N>, root: N, decide: N -> bool) returns (order: seq<N>)
    requires ClosedPlan(plan) && root in plan
    ensures NoDup(order)
    ensures forall n :: n in order <==> Reaches(OutputStep(plan, decide), root, n)
    ensures order == Firsts(Pushed(Outputs(plan, decide), root, order))
  {
    ghost var depths;
    order, depths := BreadthFirst(root, Outputs(plan, decide), plan.Keys);
    OutputsReach(plan, decide, root);
  }

  function HasLeft<N(==)>(plan: PlanOf<N>): N -> bool {
    n => n in plan && plan[n].left.To?
  }

  function IsLeaf<N(==)>(plan: PlanOf<N>): N -> bool {
    n => n in plan && plan[n].left.NoNode?
  }

  /** The steps that PqpFindLeaves follows: from nodes with a left input to both inputs. */
  ghost function LeafStep<N(!new)>(plan: PlanOf<N>): (N, N) -> bool {
    (n: N, m: N) => n in plan && plan[n].left != NoNode && IsInput(plan, n, m)
  }

  /** A node that is reached and has no left input. */
  ghost predicate LeafReached<N(!new)>(plan: PlanOf<N>, root: N, n: N) {
    Reaches(LeafStep(plan), root, n) && n in plan && plan[n].left == NoNode
  }

  lemma {:induction false} SamePaths<N(!new)>(f: (N, N) -> bool, g: (N, N) -> bool, root: N, n: N, k: nat)
    requires forall y, m :: f(y, m) <==> g(y, m)
    ensures Path(f, root, n, k) <==> Path(g, root, n, k)
  {
    if k > 0 {
      forall y: N
        ensures Path(f, root, y, k - 1) && f(y, n) <==> Path(g, root, y, k - 1) && g(y, n)
      {
        SamePaths(f, g, root, y, k - 1);
      }
    }
  }

  lemma SameReach<N(!new)>(f: (N, N) -> bool, g: (N, N) -> bool, root: N)
    requires forall y, m :: f(y, m) <==> g(y, m)
    ensures forall n :: Reaches(f, root, n) <==> Reaches(g, root, n)
  {
    forall n: N, k: nat
      ensures Path(f, root, n, k) <==> Path(g, root, n, k)
    {
      SamePaths(f, g, root, n, k);
    }
  }

  /** Each reachable node without left input exactly once; fails when there is none. */
  method PqpFindLeaves<N(!new, ==)>(plan: PlanOf<N>, root: N) returns (r: Result<seq<N>>)
    requires ClosedPlan(plan) && root in plan
    ensures r.Failed? <==> forall n :: !LeafReached(plan, root, n)
    ensures r.Failed? ==> r.reason == AssertionFailed
    ensures r.Ok? ==> NoDup(r.value) && r.value != []
    ensures r.Ok? ==> forall n :: n in r.value <==> LeafReached(plan, root, n)
  {
    var order := VisitPqp(plan, root, HasLeft(plan));
    SameReach(InputStep(plan, HasLeft(plan)), LeafStep(plan), root);
    var leaves := Filter(IsLeaf(plan), order);
    FilterNoDup(IsLeaf(plan), order);
    assert forall n :: n in leaves <==> LeafReached(plan, root, n);
    if leaves == [] {
      return Failed(AssertionFailed);
    }
    assert leaves[0] in leaves;
    r := Ok(leaves);
  }

  ghost predicate Acyclic<N(!new)>(plan: PlanOf<N>, rank: N -> nat) {
    forall n :: n in plan && plan[n].left.To? ==> rank(plan[n].left.node) < rank(n)
  }

  lemma ReachesNext<N(!new)>(step: (N, N) -> bool, root: N, y: N, n: N)
    requires Reaches(step, root, y) && step(y, n)
    ensures Reaches(step, root, n)
  {
    var k: nat :| Path(step, root, y, k);
    assert Path(step, root, n, k + 1);
  }

  /** Following left inputs in an acyclic plan ends at a leaf, so PqpFindLeaves never fails there. */
  lemma {:induction false} LeafBelow<N(!new)>(plan: PlanOf<N>, root: N, n: N, rank: N -> nat) returns (leaf: N)
    requires ClosedPlan(plan) && n in plan && Acyclic(plan, rank) && Reaches(LeafStep(plan), root, n)
    ensures LeafReached(plan, root, leaf)
    decreases rank(n)
  {
    if plan[n].left.NoNode? {
      leaf := n;
    } else {
      var m := plan[n].left.node;
      ReachesNext(LeafStep(plan), root, n, m);
      leaf := LeafBelow(plan, root, m, rank);
    }
  }

  function Always<N>(): N -> bool {
    _ => true
  }

  /** From a node to its inputs, whatever the node. */
  ghost function AnyInput<N(!new)>(plan: PlanOf<N>): (N, N) -> bool {
    (n: N, m: N) => IsInput(plan, n, m)
  }

  /** PrefixOperatorProxyIdentities: the prefix is put in front of every reachable identity exactly once. */
  method PrefixIdentities<N(!new, ==)>(plan: PlanOf<N>, root: N, prefix: string, before: map<N, string>)
    returns (r: Result<map<N, string>>)
    requires ClosedPlan(plan) && root in plan && before.Keys == plan.Keys
    ensures r == Failed(AssertionFailed) <==> prefix == ""
    ensures r.Failed? ==> r.reason == AssertionFailed
    ensures r.Ok? ==> r.value.Keys == plan.Keys
    ensures r.Ok? ==> forall n :: n in plan && Reaches(AnyInput(plan), root, n) ==>
              r.value[n] == prefix + "-" + before[n]
    ensures r.Ok? ==> forall n :: n in plan && !Reaches(AnyInput(plan), root, n) ==> r.value[n] == before[n]
  {
    if prefix == "" {
      return Failed(AssertionFailed);
    }
    var order := VisitPqp(plan, root, Always());
    SameReach(InputStep(plan, Always()), AnyInput(plan), root);
    InPlan(plan, root, order);
    var identities := before;
    for i := 0 to |order|
      invariant identities.Keys == plan.Keys && PrefixedIn(order[..i], prefix, before, identities)
    {
      assert order[i] in order;
      NextPrefixed(order, i, prefix, before, identities);
      identities := identities[order[i] := prefix + "-" + identities[order[i]]];
    }
    TakeAll(order);
    r := Ok(identities);
  }

  /** The nodes of the list have their identities prefixed, the others do not. */
  ghost predicate PrefixedIn<N(!new)>(done: seq<N>, prefix: string, before: map<N, string>,
                                      identities: map<N, string>) {
    identities.Keys == before.Keys &&
    forall n :: n in before ==> identities[n] == if n in done then prefix + "-" + before[n] else before[n]
  }

  lemma NextPrefixed<N(!new)>(order: seq<N>, i: nat, prefix: string, before: map<N, string>, identities: map<N, string>)
    requires NoDup(order) && i < |order| && order[i] in before && PrefixedIn(order[..i], prefix, before, identities)
    ensures PrefixedIn(order[..i + 1], prefix, before, identities[order[i] := prefix + "-" + identities[order[i]]])
  {
    TakeNext(order, i);
    assert order[i] !in order[..i];
  }

  lemma {:induction false} PathStays<N(!new)>(step: (N, N) -> bool, root: N, n: N, k: nat, closed: set<N>)
    requires root in closed && Path(step, root, n, k)
    requires forall y, m :: y in closed && step(y, m) ==> m in closed
    ensures n in closed
  {
    if k > 0 {
      var y: N :| Path(step, root, y, k - 1) && step(y, n);
      PathStays(step, root, y, k - 1, closed);
    }
  }

  lemma InputStays<N(!new)>(plan: PlanOf<N>)
    requires ClosedPlan(plan)
    ensures forall y, m :: y in plan.Keys && AnyInput(plan)(y, m) ==> m in plan.Keys
  {}

  lemma InPlan<N(!new)>(plan: PlanOf<N>, root: N, order: seq<N>)
    requires ClosedPlan(plan) && root in plan
    requires forall n :: n in order ==> Reaches(AnyInput(plan), root, n)
    ensures forall n :: n in order ==> n in plan
  {
    InputStays(plan);
    forall n | n in order
      ensures n in plan
    {
      var k: nat :| Path(AnyInput(plan), root, n, k);
      PathStays(AnyInput(plan), root, n, k, plan.Keys);
    }
  }
}
