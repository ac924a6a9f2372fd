/**
  `find_shortest_mig`: breadth-first search for a migration path through answers of an untrusted
  router (`crates/ntk-hooking/src/search.rs`).
 */
module Search {
  import opened Prelude
  import opened Tuples
  import opened SearchStep

  /** The network as the search sees it: the k-th call may be answered in any way at all, or not. */
  datatype Router = Router(
    search: (nat, seq<PathHop>, nat) -> Option<SearchStepResult>,
    explore: (nat, seq<PathHop>, nat) -> Option<TupleGNode>)

  /** `s` is what some node of the network, run by `execute_search`, answers for `visiting`. */
  ghost predicate HonestAnswer(gsizes: seq<U32>, visiting: TupleGNode, maxHostLvl: nat, s: SearchStepResult) {
    exists w: View, coord: Coordinator, adjacent: nat -> seq<Adjacent> ::
      w.gsizes == gsizes && SearchAnswer(w, coord, adjacent, visiting, maxHostLvl) == Some(s)
  }

  ghost predicate HonestRouter(router: Router, gsizes: seq<U32>) {
    forall k: nat, hops: seq<PathHop>, max: nat ::
      |hops| > 0 && router.search(k, hops, max).Some? ==>
        HonestAnswer(gsizes, hops[|hops| - 1].visiting, max, router.search(k, hops, max).value)
  }

  // ---------------------------------------------------------------- the finite search space

  ghost function TuplesOver(gsizes: seq<U32>): set<seq<U32>> {
    if gsizes == [] then {[]}
    else set p: U32, t: seq<U32> | 0 <= p < gsizes[0] && t in TuplesOver(gsizes[1..]) :: [p] + t
  }

  /** Every position sequence, of any length, that is real in the topology. */
  ghost function RealTuples(gsizes: seq<U32>): set<seq<U32>> {
    TuplesOver(gsizes) + if gsizes == [] then {} else RealTuples(gsizes[1..])
  }

  lemma {:induction false} InTuplesOver(pos: seq<U32>, gsizes: seq<U32>)
    requires |pos| == |gsizes|
    requires forall i :: 0 <= i < |pos| ==> pos[i] < gsizes[i]
    ensures pos in TuplesOver(gsizes)
  {
    if |pos| > 0 {
      InTuplesOver(pos[1..], gsizes[1..]);
      assert pos == [pos[0]] + pos[1..];
    }
  }

  lemma {:induction false} RealIsInSpace(t: TupleGNode, gsizes: seq<U32>)
    requires !TupleHasVirtualPos(t, gsizes)
    ensures t.pos in RealTuples(gsizes)
  {
    if |t.pos| == |gsizes| {
      forall i | 0 <= i < |t.pos| ensures t.pos[i] < gsizes[i] {
        assert !(t.pos[i] >= gsizes[i + (|gsizes| - |t.pos|)]);
      }
      InTuplesOver(t.pos, gsizes);
    } else {
      var d := |gsizes| - |t.pos|;
      forall i | 0 <= i < |t.pos| ensures t.pos[i] < gsizes[1..][i + (d - 1)] {
        assert !(t.pos[i] >= gsizes[i + d]);
      }
      RealIsInSpace(t, gsizes[1..]);
    }
  }

  lemma TruncatedIsReal(t: TupleGNode, lvl: nat, gsizes: seq<U32>)
    requires !TupleHasVirtualPos(t, gsizes)
    requires t.TruncateToLevel(lvl, |gsizes|).Some?
    ensures !TupleHasVirtualPos(t.TruncateToLevel(lvl, |gsizes|).value, gsizes)
  {
    var r := t.TruncateToLevel(lvl, |gsizes|).value;
    var c := |t.pos| - |r.pos|;
    forall i | 0 <= i < |r.pos| ensures r.pos[i] < gsizes[i + (|gsizes| - |r.pos|)] {
      assert !(t.pos[i + c] >= gsizes[i + c + (|gsizes| - |t.pos|)]);
    }
  }

  // ---------------------------------------------------------------- the visited set

  ghost function Positions(visited: seq<TupleGNode>): set<seq<U32>> {
    set t | t in visited :: t.pos
  }

  lemma PositionsAppend(a: seq<TupleGNode>, b: seq<TupleGNode>)
    ensures Positions(a + b) == Positions(a) + Positions(b)
  {
    assert forall t :: t in a + b <==> t in a || t in b;
  }

  /** `visited.retain(..)`: forget the g-node at `pos`. */
  function Retain(visited: seq<TupleGNode>, pos: seq<U32>): seq<TupleGNode> {
    if visited == [] then []
    else (if visited[0].pos == pos then [] else [visited[0]]) + Retain(visited[1..], pos)
  }

  lemma {:induction false} RetainForgets(visited: seq<TupleGNode>, pos: seq<U32>)
    ensures Positions(Retain(visited, pos)) == Positions(visited) - {pos}
  {
    if visited != [] {
      RetainForgets(visited[1..], pos);
      PositionsAppend([visited[0]], visited[1..]);
      assert visited == [visited[0]] + visited[1..];
      PositionsAppend([visited[0]], Retain(visited[1..], pos));
      assert Positions([visited[0]]) == {visited[0].pos};
    }
  }

  // ---------------------------------------------------------------- what a solution is

  /** The search stops at distance `distance` once a solution was found at `prev`
      (`prev + 5 <= distance` and `1.3 * prev <= distance`). */
  predicate Pruned(prev: nat, distance: nat) {
    prev + 5 <= distance && 13 * prev <= 10 * distance
  }

  /** What holds of every solution list: ever lower host levels at never smaller distances, each
      found before the prune bound set by the one before it. */
  ghost predicate Ranked(solutions: seq<MigrationSolution>) {
    && (forall i, j :: 0 <= i < j < |solutions| ==>
          && solutions[i].finalHostLvl > solutions[j].finalHostLvl
          && Distance(solutions[i].leaf) <= Distance(solutions[j].leaf))
    && (forall i, j :: 0 <= i < j < |solutions| && j == i + 1 ==>
          !Pruned(Distance(solutions[i].leaf), Distance(solutions[j].leaf)))
  }

  /** Every hop carries a connectivity position that is virtual in the parent's host g-node, and
      every g-node left behind is real. */
  predicate HonestChain(s: SolutionStep, gsizes: seq<U32>) {
    match s.parent
    case None => true
    case Some(p) =>
      && s.prevNewConnVirPos.Some?
      && s.prevNewConnVirPos.value >= HostSize(gsizes, p.visiting.Level(|gsizes|))
      && !TupleHasVirtualPos(p.visiting, gsizes)
      && HonestChain(p, gsizes)
  }

  /** The solution ends in a real position of a real host g-node, along an honest chain. */
  predicate RealSolution(sol: MigrationSolution, gsizes: seq<U32>) {
    && sol.realNewPos < HostSize(gsizes, sol.finalHostLvl)
    && !TupleHasVirtualPos(sol.leaf.visiting, gsizes)
    && HonestChain(sol.leaf, gsizes)
  }

  // ---------------------------------------------------------------- invariants of the search

  /** The fixed parameters of one search: the finite space, the topology, whether the router is
      honest, the host level that is good enough, and the searching node's own tuple. */
  datatype Scope = Scope(
    space: set<seq<U32>>, gsizes: seq<U32>, honest: bool, okHostLvl: nat, own: TupleGNode)

  /** Every real g-node is in the space. */
  ghost predicate HoldsReal(sc: Scope) {
    forall n: TupleGNode :: !TupleHasVirtualPos(n, sc.gsizes) ==> n.pos in sc.space
  }

  /** The queue and the visited list. */
  datatype Frontier = Frontier(queue: seq<SolutionStep>, visited: seq<TupleGNode>, calls: nat)

  /** The solutions so far, the distance of the last one, and the highest level still of use. */
  datatype Found = Found(solutions: seq<MigrationSolution>, prevDistance: Option<nat>, maxHostLvl: nat)

  ghost predicate GoodStep(s: SolutionStep, sc: Scope) {
    && Queued(s)
    && |s.visiting.pos| < |sc.gsizes|
    && s.visiting.pos in sc.space
    && StartsAt(s, sc.own)
    && (sc.honest ==> HonestChain(s, sc.gsizes))
  }

  /** The queue holds distinct g-nodes, none of them answered before, in order of distance. */
  ghost predicate QueueInv(f: Frontier, answered: set<seq<U32>>, sc: Scope, d: nat) {
    && answered <= Positions(f.visited)
    && (forall i :: 0 <= i < |f.queue| ==>
          && GoodStep(f.queue[i], sc)
          && f.queue[i].visiting.pos in Positions(f.visited) - answered
          && d <= Distance(f.queue[i]) <= d + 1)
    && (forall i, j :: 0 <= i < j < |f.queue| ==>
          && f.queue[i].visiting.pos != f.queue[j].visiting.pos
          && Distance(f.queue[i]) <= Distance(f.queue[j]))
  }

  ghost predicate GoodSolution(sol: MigrationSolution, sc: Scope) {
    WellFormed(sol, |sc.gsizes|) && StartsAt(sol.leaf, sc.own) && (sc.honest ==> RealSolution(sol, sc.gsizes))
  }

  /** Solutions recorded so far are ranked, and none was good enough to stop. */
  ghost predicate FoundInv(found: Found, sc: Scope, d: nat) {
    var sols := found.solutions;
    && Ranked(sols)
    && (forall i :: 0 <= i < |sols| ==> GoodSolution(sols[i], sc) && sols[i].finalHostLvl > sc.okHostLvl)
    && (if sols == [] then found.prevDistance == None && found.maxHostLvl == |sc.gsizes|
        else
          var last := sols[|sols| - 1];
          && found.prevDistance == Some(Distance(last.leaf))
          && Distance(last.leaf) <= d
          && found.maxHostLvl + 1 == last.finalHostLvl)
  }

  /** The list the search may return. */
  ghost predicate ResultInv(sols: seq<MigrationSolution>, sc: Scope) {
    && Ranked(sols)
    && (forall i :: 0 <= i < |sols| ==> GoodSolution(sols[i], sc))
    && (forall i :: 0 <= i < |sols| - 1 ==> sols[i].finalHostLvl > sc.okHostLvl)
  }

  ghost predicate SearchInv(f: Frontier, found: Found, answered: set<seq<U32>>, sc: Scope, d: nat) {
    QueueInv(f, answered, sc, d) && FoundInv(found, sc, d)
  }

  lemma PushKeepsQueue(f: Frontier, answered: set<seq<U32>>, sc: Scope, d: nat, next: SolutionStep)
    requires QueueInv(f, answered, sc, d)
    requires GoodStep(next, sc) && Distance(next) == d + 1
    requires next.visiting.pos !in Positions(f.visited)
    ensures QueueInv(f.(queue := f.queue + [next], visited := f.visited + [next.visiting]), answered, sc, d)
  {
    PositionsAppend(f.visited, [next.visiting]);
    assert Positions([next.visiting]) == {next.visiting.pos};
  }

  /** A failed g-node is forgotten: it may be queued again later. */
  lemma FailureKeepsQueue(f: Frontier, answered: set<seq<U32>>, sc: Scope, d: nat)
    requires f.queue != [] && QueueInv(f, answered, sc, d)
    ensures QueueInv(
      f.(queue := f.queue[1..], visited := Retain(f.visited, f.queue[0].visiting.pos), calls := f.calls + 1),
      answered, sc, Distance(f.queue[0]))
  {
    RetainForgets(f.visited, f.queue[0].visiting.pos);
  }

  /** An answered g-node leaves the space of those still to be answered for good. */
  lemma AnswerKeepsQueue(f: Frontier, answered: set<seq<U32>>, sc: Scope, d: nat)
    requires f.queue != [] && QueueInv(f, answered, sc, d)
    ensures QueueInv(
      f.(queue := f.queue[1..], calls := f.calls + 1),
      answered + {f.queue[0].visiting.pos}, sc, Distance(f.queue[0]))
    ensures |sc.space - (answered + {f.queue[0].visiting.pos})| < |sc.space - answered|
  {
    var p := f.queue[0].visiting.pos;
    assert sc.space - answered == (sc.space - (answered + {p})) + {p};
  }

  /** Recording a solution at the distance of the step being explored. */
  function Record(found: Found, sol: MigrationSolution): Found
    requires sol.finalHostLvl > 0
  {
    Found(found.solutions + [sol], Some(Distance(sol.leaf)), sol.finalHostLvl - 1)
  }

  lemma RankedAppend(sols: seq<MigrationSolution>, sol: MigrationSolution)
    requires Ranked(sols)
    requires forall i :: 0 <= i < |sols| ==> sols[i].finalHostLvl > sol.finalHostLvl
    requires sols != [] ==>
      var last := Distance(sols[|sols| - 1].leaf);
      last <= Distance(sol.leaf) && !Pruned(last, Distance(sol.leaf))
    ensures Ranked(sols + [sol])
  {
  }

  lemma RecordKeepsFound(found: Found, sc: Scope, d: nat, sol: MigrationSolution)
    requires FoundInv(found, sc, d)
    requires GoodSolution(sol, sc) && Distance(sol.leaf) == d
    requires found.prevDistance.Some? ==> !Pruned(found.prevDistance.value, d)
    ensures sol.finalHostLvl <= sc.okHostLvl ==> ResultInv(found.solutions + [sol], sc)
    ensures sc.okHostLvl < sol.finalHostLvl <= found.maxHostLvl ==> FoundInv(Record(found, sol), sc, d)
  {
    if sol.finalHostLvl <= sc.okHostLvl || sol.finalHostLvl <= found.maxHostLvl {
      RankedAppend(found.solutions, sol);
    }
  }

  // ---------------------------------------------------------------- the search

  /** The g-node a step visits, seen at level `lvl`, is the one at `pos`. */
  predicate SeenAt(s: SolutionStep, pos: seq<U32>, lvl: nat, levels: nat) {
    var bigger := s.visiting.TruncateToLevel(lvl, levels);
    bigger.Some? && bigger.value.pos == pos
  }

  /** A step on the way from the root to `current` lies in the g-node at `pos`. */
  predicate OnChain(current: SolutionStep, pos: seq<U32>, lvl: nat, levels: nat) {
    exists i :: 0 <= i < |Chain(current)| && SeenAt(Chain(current)[i], pos, lvl, levels)
  }

  lemma OnChainStep(s: SolutionStep, pos: seq<U32>, lvl: nat, levels: nat)
    ensures OnChain(s, pos, lvl, levels) <==>
      SeenAt(s, pos, lvl, levels) || (s.parent.Some? && OnChain(s.parent.value, pos, lvl, levels))
  {
    var c := Chain(s);
    if SeenAt(s, pos, lvl, levels) {
      assert SeenAt(c[|c| - 1], pos, lvl, levels);
    }
    if s.parent.Some? && OnChain(s.parent.value, pos, lvl, levels) {
      var i :| 0 <= i < |Chain(s.parent.value)| && SeenAt(Chain(s.parent.value)[i], pos, lvl, levels);
      assert SeenAt(c[i], pos, lvl, levels);
    }
    if OnChain(s, pos, lvl, levels) {
      var i :| 0 <= i < |c| && SeenAt(c[i], pos, lvl, levels);
      if i < |c| - 1 {
        assert SeenAt(Chain(s.parent.value)[i], pos, lvl, levels);
      }
    }
  }

  /** A g-node of the level that is not on the chain is not visited by it. */
  lemma {:induction false} OffChainIsUnvisited(s: SolutionStep, n: TupleGNode, lvl: nat, levels: nat)
    requires Explored(s) && |n.pos| <= levels && n.Level(levels) == lvl
    requires !OnChain(s, n.pos, lvl, levels)
    ensures NotVisitedIn(Chain(s), n.pos)
  {
    OnChainStep(s, n.pos, lvl, levels);
    if s.parent.Some? {
      OffChainIsUnvisited(s.parent.value, n, lvl, levels);
    }
  }

  /** Whether `n`, seen at level `lvl`, contains a g-node on the way from the root to `current`. */
  method InPreviousStep(current: SolutionStep, n: TupleGNode, lvl: nat, levels: nat) returns (found: bool)
    ensures found <==> OnChain(current, n.pos, lvl, levels)
  {
    var prevStep := Some(current);
    while prevStep.Some?
      invariant OnChain(current, n.pos, lvl, levels) <==> prevStep.Some? && OnChain(prevStep.value, n.pos, lvl, levels)
      decreases prevStep
    {
      var step := prevStep.value;
      OnChainStep(step, n.pos, lvl, levels);
      var bigger := step.visiting.TruncateToLevel(lvl, levels);
      if bigger.Some? && bigger.value.pos == n.pos {
        return true;
      }
      prevStep := step.parent;
    }
    return false;
  }

  /** How many neighbours lie above the host level and have to be explored. */
  function Explores(adjacent: seq<Adjacent>, lvl: nat, levels: nat): nat {
    if adjacent == [] then 0
    else
      var n := |adjacent| - 1;
      Explores(adjacent[..n], lvl, levels) + if adjacent[n].gnode.Level(levels) > lvl then 1 else 0
  }

  /** The g-node that neighbour `k` of an answered step turns out to be: itself, or what the router
      explores it to if it lies above the host level. `first` is the number of the first await. */
  function NamedAt(router: Router, current: SolutionStep, step: SearchStepResult, first: nat, levels: nat, k: nat)
    : Option<TupleGNode>
    requires k < |step.setAdjacent|
  {
    var n := step.setAdjacent[k].gnode;
    if n.Level(levels) > step.minHostLvl then
      router.explore(
        first + Explores(step.setAdjacent[..k], step.minHostLvl, levels), PathHopsOnto(current, []) + [PathHop(n, None)],
        step.minHostLvl)
    else Some(n)
  }

  /** A real g-node of the host level. */
  predicate Eligible(n: TupleGNode, step: SearchStepResult, gsizes: seq<U32>) {
    n.Level(|gsizes|) == step.minHostLvl && !TupleHasVirtualPos(n, gsizes)
  }

  /** The step that prolongs `current` to the neighbour `n`. */
  function NextStep(current: SolutionStep, n: TupleGNode, borderRealPos: U32, step: SearchStepResult): SolutionStep {
    SolutionStep(
      n, Some(TupleGNode([borderRealPos] + current.visiting.pos, [-1] + current.visiting.eldership)),
      step.newConnVirPos, step.newEldership, Some(current))
  }

  ghost function QueuePositions(queue: seq<SolutionStep>): set<seq<U32>> {
    set s | s in queue :: s.visiting.pos
  }

  /** Every eligible neighbour among the first `upTo` is in `seen` or on the way to `current`. */
  ghost predicate NamedIn(
    router: Router, current: SolutionStep, step: SearchStepResult, first: nat, gsizes: seq<U32>, upTo: nat, seen: set<seq<U32>>)
    requires upTo <= |step.setAdjacent|
  {
    forall k :: 0 <= k < upTo ==>
      var n := NamedAt(router, current, step, first, |gsizes|, k);
      n.Some? && Eligible(n.value, step, gsizes) ==>
        n.value.pos in seen || OnChain(current, n.value.pos, step.minHostLvl, |gsizes|)
  }

  ghost predicate ComesFrom(
    router: Router, current: SolutionStep, step: SearchStepResult, first: nat, levels: nat, s: SolutionStep)
  {
    exists k ::
      && 0 <= k < |step.setAdjacent|
      && NamedAt(router, current, step, first, levels, k) == Some(s.visiting)
      && s == NextStep(current, s.visiting, step.setAdjacent[k].borderRealPos, step)
  }

  /** Every step of `queue` prolongs `current` to a neighbour the answer names. */
  ghost predicate QueuedFrom(
    router: Router, current: SolutionStep, step: SearchStepResult, first: nat, levels: nat, queue: seq<SolutionStep>)
  {
    forall s :: s in queue ==> ComesFrom(router, current, step, first, levels, s)
  }

  /** The frontier after the first `k` neighbours: those that are new are queued, and no others. */
  ghost function ExpandedTo(
    router: Router, current: SolutionStep, step: SearchStepResult, start: Frontier, gsizes: seq<U32>, k: nat): Frontier
    requires k <= |step.setAdjacent|
  {
    if k == 0 then start
    else
      var asked := ExpandedTo(router, current, step, start, gsizes, k - 1)
        .(calls := start.calls + Explores(step.setAdjacent[..k], step.minHostLvl, |gsizes|));
      var n := NamedAt(router, current, step, start.calls, |gsizes|, k - 1);
      if n.None? then asked
      else Queueing(asked, current, step, n.value, step.setAdjacent[k - 1].borderRealPos, gsizes)
  }

  /** The neighbours of an answered step, dealt with in order. `cut` when the budget of awaits ends at
      neighbour `upTo`. */
  method ExpandNeighbours(
    view: View, router: Router, budget: nat, current: SolutionStep, step: SearchStepResult, frontier: Frontier,
    ghost answered: set<seq<U32>>, ghost sc: Scope)
    returns (cut: bool, f: Frontier, upTo: nat)
    requires sc.gsizes == view.gsizes && HoldsReal(sc)
    requires ExpandableStep(current, step, sc)
    requires QueueInv(frontier, answered, sc, Distance(current))
    requires frontier.calls <= budget
    ensures QueueInv(f, answered, sc, Distance(current))
    ensures f.calls <= budget && (cut ==> f.calls == budget)
    ensures upTo <= |step.setAdjacent| && (!cut ==> upTo == |step.setAdjacent|)
    ensures f == ExpandedTo(router, current, step, frontier, view.gsizes, upTo)
  {
    cut, f, upTo := false, frontier, 0;
    while upTo < |step.setAdjacent|
      invariant QueueInv(f, answered, sc, Distance(current))
      invariant upTo <= |step.setAdjacent| && f.calls <= budget
      invariant f == ExpandedTo(router, current, step, frontier, view.gsizes, upTo)
    {
      cut, f := DealWith(view, router, budget, current, step, frontier, f, upTo, answered, sc);
      if cut {
        return;
      }
      upTo := upTo + 1;
    }
  }

  lemma ExpandedCalls(
    router: Router, current: SolutionStep, step: SearchStepResult, start: Frontier, gsizes: seq<U32>, k: nat)
    requires k <= |step.setAdjacent|
    ensures ExpandedTo(router, current, step, start, gsizes, k).calls
      == start.calls + Explores(step.setAdjacent[..k], step.minHostLvl, |gsizes|)
  {
    if k == 0 {
      assert step.setAdjacent[..0] == [];
    }
  }

  /** One neighbour: resolved, and queued if it is new. */
  method DealWith(
    view: View, router: Router, budget: nat, current: SolutionStep, step: SearchStepResult, ghost start: Frontier,
    frontier: Frontier, k: nat, ghost answered: set<seq<U32>>, ghost sc: Scope)
    returns (cut: bool, f: Frontier)
    requires sc.gsizes == view.gsizes && HoldsReal(sc)
    requires ExpandableStep(current, step, sc) && k < |step.setAdjacent|
    requires QueueInv(frontier, answered, sc, Distance(current))
    requires frontier == ExpandedTo(router, current, step, start, view.gsizes, k) && frontier.calls <= budget
    ensures QueueInv(f, answered, sc, Distance(current)) && f.calls <= budget
    ensures cut ==> f == frontier && f.calls == budget
    ensures !cut ==> f == ExpandedTo(router, current, step, start, view.gsizes, k + 1)
  {
    var n, calls;
    ExpandedCalls(router, current, step, start, view.gsizes, k);
    cut, n, calls := ResolveNeighbour(view, router, budget, current, step, start.calls, frontier.calls, k);
    f := frontier;
    if !cut {
      f := f.(calls := calls);
      if n.Some? {
        f := QueueNeighbour(view, n.value, step.setAdjacent[k].borderRealPos, current, step, f, answered, sc);
      }
    }
  }

  lemma NoneNamed(
    router: Router, current: SolutionStep, step: SearchStepResult, start: Frontier, before: Frontier, after: Frontier,
    gsizes: seq<U32>, k: nat)
    requires k < |step.setAdjacent| && Expanding(router, current, step, start, before, gsizes, k)
    requires NamedAt(router, current, step, start.calls, |gsizes|, k).None?
    requires after == before.(calls := start.calls + Explores(step.setAdjacent[..k + 1], step.minHostLvl, |gsizes|))
    ensures Expanding(router, current, step, start, after, gsizes, k + 1)
  {
    NamedInMore(router, current, step, start.calls, gsizes, k, Positions(before.visited), Positions(after.visited));
  }

  /** What the first `k` neighbours leave behind. */
  lemma {:induction false} ExpandedFully(
    router: Router, current: SolutionStep, step: SearchStepResult, start: Frontier, gsizes: seq<U32>, k: nat)
    requires k <= |step.setAdjacent|
    ensures Expanding(router, current, step, start, ExpandedTo(router, current, step, start, gsizes, k), gsizes, k)
  {
    if k == 0 {
      NothingNamed(router, current, step, start, gsizes);
    } else {
      ExpandedFully(router, current, step, start, gsizes, k - 1);
      OneMoreDealtWith(
        router, current, step, start, ExpandedTo(router, current, step, start, gsizes, k - 1),
        ExpandedTo(router, current, step, start, gsizes, k), gsizes, k - 1);
    }
  }

  lemma OneMoreDealtWith(
    router: Router, current: SolutionStep, step: SearchStepResult, start: Frontier, before: Frontier, after: Frontier,
    gsizes: seq<U32>, k: nat)
    requires k < |step.setAdjacent| && Expanding(router, current, step, start, before, gsizes, k)
    requires
      var asked := before.(calls := start.calls + Explores(step.setAdjacent[..k + 1], step.minHostLvl, |gsizes|));
      var n := NamedAt(router, current, step, start.calls, |gsizes|, k);
      after == if n.None? then asked else Queueing(asked, current, step, n.value, step.setAdjacent[k].borderRealPos, gsizes)
    ensures Expanding(router, current, step, start, after, gsizes, k + 1)
  {
    var asked := before.(calls := start.calls + Explores(step.setAdjacent[..k + 1], step.minHostLvl, |gsizes|));
    var n := NamedAt(router, current, step, start.calls, |gsizes|, k);
    if n.None? {
      NoneNamed(router, current, step, start, before, after, gsizes, k);
    } else {
      NamedOneMore(router, current, step, start, before, asked, after, gsizes, k, n.value);
    }
  }

  /** Neighbour `k` itself, or what it is explored to. */
  method ResolveNeighbour(
    view: View, router: Router, budget: nat, current: SolutionStep, step: SearchStepResult, ghost first: nat, callsIn: nat, k: nat)
    returns (cut: bool, n: Option<TupleGNode>, calls: nat)
    requires k < |step.setAdjacent| && callsIn <= budget
    requires callsIn == first + Explores(step.setAdjacent[..k], step.minHostLvl, view.Levels())
    ensures cut ==> callsIn == budget
    ensures !cut ==>
      && n == NamedAt(router, current, step, first, view.Levels(), k)
      && calls == first + Explores(step.setAdjacent[..k + 1], step.minHostLvl, view.Levels()) <= budget
  {
    cut, n, calls := false, Some(step.setAdjacent[k].gnode), callsIn;
    assert step.setAdjacent[..k + 1][..k] == step.setAdjacent[..k];
    if n.value.Level(view.Levels()) > step.minHostLvl {
      if calls == budget {
        cut := true;
        return;
      }
      var hops := GetPathHops(current);
      n := router.explore(calls, hops + [PathHop(n.value, None)], step.minHostLvl);
      calls := calls + 1;
    }
  }

  /** The first `k` neighbours have been dealt with. */
  ghost predicate Expanding(
    router: Router, current: SolutionStep, step: SearchStepResult, start: Frontier, f: Frontier, gsizes: seq<U32>, k: nat)
    requires k <= |step.setAdjacent|
  {
    && f.calls == start.calls + Explores(step.setAdjacent[..k], step.minHostLvl, |gsizes|)
    && Grown(start, f)
    && QueuedFrom(router, current, step, start.calls, |gsizes|, f.queue[|start.queue|..])
    && NamedIn(router, current, step, start.calls, gsizes, k, Positions(f.visited))
  }

  lemma NothingNamed(router: Router, current: SolutionStep, step: SearchStepResult, start: Frontier, gsizes: seq<U32>)
    ensures Expanding(router, current, step, start, start, gsizes, 0)
  {
    assert step.setAdjacent[..0] == [];
  }

  /** Nothing leaves the queue or the visited list, and what is added to the one is added to the other. */
  ghost predicate Grown(before: Frontier, after: Frontier) {
    && before.queue <= after.queue
    && Positions(before.visited) <= Positions(after.visited)
    && Positions(after.visited) <= Positions(before.visited) + QueuePositions(after.queue)
  }

  /** One more neighbour dealt with. */
  lemma NamedOneMore(
    router: Router, current: SolutionStep, step: SearchStepResult, start: Frontier, before: Frontier, asked: Frontier,
    after: Frontier, gsizes: seq<U32>, k: nat, n: TupleGNode)
    requires k < |step.setAdjacent| && Expanding(router, current, step, start, before, gsizes, k)
    requires NamedAt(router, current, step, start.calls, |gsizes|, k) == Some(n)
    requires asked == before.(calls := start.calls + Explores(step.setAdjacent[..k + 1], step.minHostLvl, |gsizes|))
    requires after == Queueing(asked, current, step, n, step.setAdjacent[k].borderRealPos, gsizes)
    ensures Expanding(router, current, step, start, after, gsizes, k + 1)
  {
    if IsNew(n, current, step, asked, gsizes) {
      QueuedOneMore(router, current, step, start, before, after, gsizes, k, n);
    }
    NamedInMore(router, current, step, start.calls, gsizes, k, Positions(before.visited), Positions(after.visited));
  }

  lemma QueuedOneMore(
    router: Router, current: SolutionStep, step: SearchStepResult, start: Frontier, before: Frontier, after: Frontier,
    gsizes: seq<U32>, k: nat, n: TupleGNode)
    requires k < |step.setAdjacent| && NamedAt(router, current, step, start.calls, |gsizes|, k) == Some(n)
    requires Grown(start, before)
    requires QueuedFrom(router, current, step, start.calls, |gsizes|, before.queue[|start.queue|..])
    requires after.queue == before.queue + [NextStep(current, n, step.setAdjacent[k].borderRealPos, step)]
    requires after.visited == before.visited + [n]
    ensures Grown(start, after)
    ensures QueuedFrom(router, current, step, start.calls, |gsizes|, after.queue[|start.queue|..])
    ensures Positions(after.visited) == Positions(before.visited) + {n.pos}
  {
    var next := NextStep(current, n, step.setAdjacent[k].borderRealPos, step);
    assert ComesFrom(router, current, step, start.calls, |gsizes|, next);
    assert after.queue[|start.queue|..] == before.queue[|start.queue|..] + [next];
    GrownMore(start, before, after, next);
  }

  lemma GrownMore(start: Frontier, before: Frontier, after: Frontier, next: SolutionStep)
    requires Grown(start, before)
    requires after.queue == before.queue + [next] && after.visited == before.visited + [next.visiting]
    ensures Grown(start, after) && Positions(after.visited) == Positions(before.visited) + {next.visiting.pos}
  {
    PositionsAppend(before.visited, [next.visiting]);
    assert Positions([next.visiting]) == {next.visiting.pos};
    assert next in after.queue;
    forall s | s in before.queue ensures s.visiting.pos in QueuePositions(after.queue) {
      assert s in after.queue;
    }
  }

  lemma NamedInMore(
    router: Router, current: SolutionStep, step: SearchStepResult, first: nat, gsizes: seq<U32>, k: nat,
    before: set<seq<U32>>, after: set<seq<U32>>)
    requires k < |step.setAdjacent| && NamedIn(router, current, step, first, gsizes, k, before) && before <= after
    requires
      var n := NamedAt(router, current, step, first, |gsizes|, k);
      n.Some? && Eligible(n.value, step, gsizes) ==>
        n.value.pos in after || OnChain(current, n.value.pos, step.minHostLvl, |gsizes|)
    ensures NamedIn(router, current, step, first, gsizes, k + 1, after)
  {}

  /** Of the right level, real, and neither visited nor on the way to `current`. */
  ghost predicate IsNew(n: TupleGNode, current: SolutionStep, step: SearchStepResult, f: Frontier, gsizes: seq<U32>) {
    && Eligible(n, step, gsizes)
    && n.pos !in Positions(f.visited)
    && !OnChain(current, n.pos, step.minHostLvl, |gsizes|)
  }

  ghost function Queueing(
    f: Frontier, current: SolutionStep, step: SearchStepResult, n: TupleGNode, borderRealPos: U32, gsizes: seq<U32>): Frontier
  {
    if IsNew(n, current, step, f, gsizes)
    then f.(queue := f.queue + [NextStep(current, n, borderRealPos, step)], visited := f.visited + [n])
    else f
  }

  /** One neighbour: queued exactly if it is new. */
  method QueueNeighbour(
    view: View, n: TupleGNode, borderRealPos: U32, current: SolutionStep, step: SearchStepResult, frontier: Frontier,
    ghost answered: set<seq<U32>>, ghost sc: Scope)
    returns (f: Frontier)
    requires sc.gsizes == view.gsizes && HoldsReal(sc)
    requires ExpandableStep(current, step, sc)
    requires QueueInv(frontier, answered, sc, Distance(current))
    ensures QueueInv(f, answered, sc, Distance(current))
    ensures f == Queueing(frontier, current, step, n, borderRealPos, view.gsizes)
  {
    f := frontier;
    var levels := view.Levels();
    if n.Level(levels) != step.minHostLvl || TupleHasVirtualPos(n, view.gsizes) {
      return;
    }
    if exists t :: t in f.visited && t.pos == n.pos {
      return;
    }
    var seen := InPreviousStep(current, n, step.minHostLvl, levels);
    if seen {
      return;
    }
    OffChainIsUnvisited(current, n, step.minHostLvl, levels);
    var prevMigrating := TupleGNode([borderRealPos] + current.visiting.pos, [-1] + current.visiting.eldership);
    var next := SolutionStep(n, Some(prevMigrating), step.newConnVirPos, step.newEldership, Some(current));
    PushKeepsQueue(f, answered, sc, Distance(current), next);
    f := f.(queue := f.queue + [next], visited := f.visited + [n]);
  }

  /** A truncated step whose neighbours may be queued. */
  ghost predicate ExpandableStep(current: SolutionStep, step: SearchStepResult, sc: Scope) {
    && Explored(current) && StartsAt(current, sc.own)
    && 0 < step.minHostLvl <= |sc.gsizes|
    && |current.visiting.pos| == |sc.gsizes| - step.minHostLvl
    && (sc.honest ==>
          && HonestChain(current, sc.gsizes)
          && !TupleHasVirtualPos(current.visiting, sc.gsizes)
          && step.newConnVirPos.Some?
          && step.newConnVirPos.value >= HostSize(sc.gsizes, step.minHostLvl))
  }

  /** What an honest answer gives the truncated step. */
  lemma HonestStep(gsizes: seq<U32>, maxHostLvl: nat, current: SolutionStep, step: SearchStepResult)
    requires HonestAnswer(gsizes, current.visiting, maxHostLvl, step)
    requires HonestChain(current, gsizes)
    requires current.visiting.TruncateToLevel(step.minHostLvl, |gsizes|).Some?
    ensures var t := current.visiting.TruncateToLevel(step.minHostLvl, |gsizes|).value;
      HonestChain(current.(visiting := t), gsizes) && !TupleHasVirtualPos(t, gsizes)
    ensures step.realNewPos.Some? ==> step.realNewPos.value < HostSize(gsizes, step.finalHostLvl)
    ensures step.realNewPos.Some? <==> step.realNewEldership.Some?
    ensures step.minHostLvl == step.finalHostLvl ==> step.realNewPos.Some?
    ensures step.minHostLvl < step.finalHostLvl ==>
      step.newConnVirPos.Some? && step.newConnVirPos.value >= HostSize(gsizes, step.minHostLvl)
  {
    var w: View, coord: Coordinator, adjacent: nat -> seq<Adjacent> :|
      w.gsizes == gsizes && SearchAnswer(w, coord, adjacent, current.visiting, maxHostLvl) == Some(step);
    HonestAnswerShape(w, coord, adjacent, current.visiting, maxHostLvl);
    TruncatedIsReal(current.visiting, step.minHostLvl, gsizes);
  }

  /** A step resolves to a solution once both its position and its eldership are known. */
  function Resolve(current: SolutionStep, step: SearchStepResult): Option<MigrationSolution> {
    if step.realNewPos.Some? && step.realNewEldership.Some? then
      Some(MigrationSolution(current, step.finalHostLvl, step.realNewPos.value, step.realNewEldership.value))
    else None
  }

  /** Truncating the popped step: it can be expanded, and what it resolves to is a solution. */
  lemma TruncatedStep(popped: SolutionStep, step: SearchStepResult, maxHostLvl: nat, t: TupleGNode, sc: Scope)
    requires GoodStep(popped, sc) && |sc.own.pos| == |sc.own.eldership|
    requires sc.honest ==> HonestAnswer(sc.gsizes, popped.visiting, maxHostLvl, step)
    requires step.minHostLvl <= step.finalHostLvl <= |sc.gsizes|
    requires popped.visiting.TruncateToLevel(step.minHostLvl, |sc.gsizes|) == Some(t)
    ensures var current := popped.(visiting := t);
      && Distance(current) == Distance(popped)
      && (Resolve(current, step).Some? ==> GoodSolution(Resolve(current, step).value, sc))
      && (LooksOn(current, step, sc.okHostLvl) ==> ExpandableStep(current, step, sc))
  {
    TruncatedIsExplored(popped, t, step.minHostLvl, |sc.gsizes|);
    if sc.honest {
      HonestStep(sc.gsizes, maxHostLvl, popped, step);
    }
  }

  /** The answer passes the filter, and the step can be truncated to its level. */
  predicate Usable(popped: SolutionStep, step: SearchStepResult, maxHostLvl: nat, levels: nat) {
    && step.minHostLvl <= levels && step.minHostLvl <= maxHostLvl
    && step.minHostLvl <= step.finalHostLvl <= levels
    && popped.visiting.TruncateToLevel(step.minHostLvl, levels).Some?
  }

  /** A usable answer that yields a solution of use. */
  predicate Records(popped: SolutionStep, step: SearchStepResult, maxHostLvl: nat, levels: nat) {
    Usable(popped, step, maxHostLvl, levels) && step.finalHostLvl <= maxHostLvl && Resolve(popped, step).Some?
  }

  function TruncatedAt(popped: SolutionStep, step: SearchStepResult, levels: nat): SolutionStep
    requires popped.visiting.TruncateToLevel(step.minHostLvl, levels).Some?
  {
    popped.(visiting := popped.visiting.TruncateToLevel(step.minHostLvl, levels).value)
  }

  /** The solution an answer yields, if it passes the filter and is of use. */
  function RecordedFrom(popped: SolutionStep, step: SearchStepResult, maxHostLvl: nat, levels: nat): seq<MigrationSolution> {
    if Usable(popped, step, maxHostLvl, levels) then OfUse(TruncatedAt(popped, step, levels), step, maxHostLvl) else []
  }

  /** The neighbours of a truncated step are looked at. */
  predicate LooksOn(current: SolutionStep, step: SearchStepResult, ok: nat) {
    if step.finalHostLvl <= ok then Resolve(current, step).None? else step.minHostLvl < step.finalHostLvl
  }

  /** A usable answer after which the neighbours are looked at. */
  predicate Expands(popped: SolutionStep, step: SearchStepResult, maxHostLvl: nat, ok: nat, levels: nat) {
    Usable(popped, step, maxHostLvl, levels) && LooksOn(popped, step, ok)
  }

  /** What a truncated step resolves to is a solution, and its neighbours may be queued if looked at. */
  ghost predicate ReadyStep(current: SolutionStep, step: SearchStepResult, sc: Scope) {
    && (Resolve(current, step).Some? ==> GoodSolution(Resolve(current, step).value, sc))
    && (LooksOn(current, step, sc.okHostLvl) ==> ExpandableStep(current, step, sc))
  }

  lemma UsableIsReady(popped: SolutionStep, step: SearchStepResult, maxHostLvl: nat, sc: Scope)
    requires GoodStep(popped, sc) && |sc.own.pos| == |sc.own.eldership|
    requires sc.honest ==> HonestAnswer(sc.gsizes, popped.visiting, maxHostLvl, step)
    requires Usable(popped, step, maxHostLvl, |sc.gsizes|)
    ensures ReadyStep(TruncatedAt(popped, step, |sc.gsizes|), step, sc)
  {
    TruncatedStep(popped, step, maxHostLvl, popped.visiting.TruncateToLevel(step.minHostLvl, |sc.gsizes|).value, sc);
  }

  ghost function StepUsedUpTo(
    view: View, router: Router, ok: nat, current: SolutionStep, step: SearchStepResult, frontier: Frontier, upTo: nat): Frontier
    requires upTo <= |step.setAdjacent|
  {
    if LooksOn(current, step, ok) then ExpandedTo(router, current, step, frontier, view.gsizes, upTo) else frontier
  }

  lemma UsedAsTruncated(
    view: View, router: Router, ok: nat, popped: SolutionStep, current: SolutionStep, step: SearchStepResult, maxHostLvl: nat,
    frontier: Frontier, upTo: nat)
    requires upTo <= |step.setAdjacent| && Usable(popped, step, maxHostLvl, view.Levels())
    requires current == TruncatedAt(popped, step, view.Levels())
    ensures StepUsedUpTo(view, router, ok, current, step, frontier, upTo)
      == UsedUpTo(view, router, ok, popped, step, maxHostLvl, frontier, upTo)
    ensures OfUse(current, step, maxHostLvl) == RecordedFrom(popped, step, maxHostLvl, view.Levels())
    ensures Distance(current) == Distance(popped)
  {}

  /** The frontier after an answer whose neighbours were dealt with up to `upTo`. */
  ghost function UsedUpTo(
    view: View, router: Router, ok: nat, popped: SolutionStep, step: SearchStepResult, maxHostLvl: nat, frontier: Frontier,
    upTo: nat): Frontier
    requires upTo <= |step.setAdjacent|
  {
    if Expands(popped, step, maxHostLvl, ok, view.Levels())
    then ExpandedTo(router, TruncatedAt(popped, step, view.Levels()), step, frontier, view.gsizes, upTo)
    else frontier
  }

  /** The use made of one answer: a solution may be recorded (`done` for one accepted at once),
      the admissible host level lowered and the neighbours queued. */
  method UseAnswer(
    view: View, router: Router, budget: nat, popped: SolutionStep, step: SearchStepResult, ok: nat,
    foundIn: Found, frontier: Frontier, ghost answered: set<seq<U32>>, ghost sc: Scope)
    returns (done: bool, cut: bool, found: Found, f: Frontier, upTo: nat)
    requires sc.gsizes == view.gsizes && HoldsReal(sc) && sc.okHostLvl == ok
    requires Usable(popped, step, foundIn.maxHostLvl, view.Levels()) ==>
      ReadyStep(TruncatedAt(popped, step, view.Levels()), step, sc)
    requires QueueInv(frontier, answered, sc, Distance(popped))
    requires FoundInv(foundIn, sc, Distance(popped))
    requires foundIn.prevDistance.Some? ==> !Pruned(foundIn.prevDistance.value, Distance(popped))
    requires frontier.calls <= budget
    ensures done ==> ResultInv(found.solutions, sc)
    ensures !done ==> SearchInv(f, found, answered, sc, Distance(popped))
    ensures frontier.calls <= f.calls <= budget && (cut ==> !done && f.calls == budget)
    ensures found.solutions == foundIn.solutions + RecordedFrom(popped, step, foundIn.maxHostLvl, view.Levels())
    ensures done ==> found.solutions != []
    ensures upTo <= |step.setAdjacent| && (!cut ==> upTo == |step.setAdjacent|)
    ensures f == UsedUpTo(view, router, ok, popped, step, foundIn.maxHostLvl, frontier, upTo)
  {
    done, cut, found, f, upTo := false, false, foundIn, frontier, |step.setAdjacent|;
    var levels := view.Levels();
    if step.minHostLvl <= levels && step.minHostLvl <= found.maxHostLvl
       && step.finalHostLvl <= levels && step.finalHostLvl >= step.minHostLvl {
      var truncated := popped.visiting.TruncateToLevel(step.minHostLvl, levels);
      if truncated.Some? {
        var current := popped.(visiting := truncated.value);
        done, cut, found, f, upTo := UseStep(view, router, budget, current, step, ok, foundIn, frontier, answered, sc);
        UsedAsTruncated(view, router, ok, popped, current, step, foundIn.maxHostLvl, frontier, upTo);
      }
    }
  }

  /** The use made of a truncated step. */
  method UseStep(
    view: View, router: Router, budget: nat, current: SolutionStep, step: SearchStepResult, ok: nat,
    foundIn: Found, frontier: Frontier, ghost answered: set<seq<U32>>, ghost sc: Scope)
    returns (done: bool, cut: bool, found: Found, f: Frontier, upTo: nat)
    requires sc.gsizes == view.gsizes && HoldsReal(sc) && sc.okHostLvl == ok
    requires ReadyStep(current, step, sc)
    requires step.minHostLvl <= step.finalHostLvl <= |sc.gsizes| && step.minHostLvl <= foundIn.maxHostLvl
    requires QueueInv(frontier, answered, sc, Distance(current))
    requires FoundInv(foundIn, sc, Distance(current))
    requires foundIn.prevDistance.Some? ==> !Pruned(foundIn.prevDistance.value, Distance(current))
    requires frontier.calls <= budget
    ensures done ==> ResultInv(found.solutions, sc)
    ensures !done ==> SearchInv(f, found, answered, sc, Distance(current))
    ensures frontier.calls <= f.calls <= budget && (cut ==> !done && f.calls == budget)
    ensures found.solutions == foundIn.solutions + OfUse(current, step, foundIn.maxHostLvl)
    ensures done ==> found.solutions != []
    ensures upTo <= |step.setAdjacent| && (!cut ==> upTo == |step.setAdjacent|)
    ensures f == StepUsedUpTo(view, router, ok, current, step, frontier, upTo)
  {
    cut, f, upTo := false, frontier, |step.setAdjacent|;
    var expand;
    done, expand, found := RecordAnswer(current, step, ok, foundIn, sc);
    if expand {
      cut, f, upTo := ExpandNeighbours(view, router, budget, current, step, f, answered, sc);
      ExpandedCalls(router, current, step, frontier, view.gsizes, upTo);
    }
  }

  /** The solution a truncated step resolves to, if it is of use. */
  function OfUse(current: SolutionStep, step: SearchStepResult, maxHostLvl: nat): seq<MigrationSolution> {
    var sol := Resolve(current, step);
    if sol.Some? && step.finalHostLvl <= maxHostLvl then [sol.value] else []
  }

  /** The solution of an answered step: accepted at once, recorded, or not of use. */
  method RecordAnswer(current: SolutionStep, step: SearchStepResult, ok: nat, foundIn: Found, ghost sc: Scope)
    returns (done: bool, expand: bool, found: Found)
    requires sc.okHostLvl == ok && FoundInv(foundIn, sc, Distance(current))
    requires foundIn.prevDistance.Some? ==> !Pruned(foundIn.prevDistance.value, Distance(current))
    requires Resolve(current, step).Some? ==> GoodSolution(Resolve(current, step).value, sc)
    requires step.minHostLvl <= step.finalHostLvl <= |sc.gsizes| && step.minHostLvl <= foundIn.maxHostLvl
    ensures done ==> !expand && ResultInv(found.solutions, sc)
    ensures !done ==> FoundInv(found, sc, Distance(current))
    ensures found.solutions == foundIn.solutions + OfUse(current, step, foundIn.maxHostLvl)
    ensures done ==> found.solutions != []
    ensures expand <==> LooksOn(current, step, ok)
  {
    done, expand, found := false, true, foundIn;
    var resolved := Resolve(current, step);
    if resolved.Some? {
      RecordKeepsFound(found, sc, Distance(current), resolved.value);
    }
    if step.finalHostLvl <= ok {
      if resolved.Some? {
        found := found.(solutions := found.solutions + [resolved.value]);
        done, expand := true, false;
      }
    } else if step.minHostLvl == step.finalHostLvl {
      if resolved.Some? {
        found := Record(found, resolved.value);
      }
      expand := false;
    } else if step.finalHostLvl <= found.maxHostLvl && resolved.Some? {
      found := Record(found, resolved.value);
    }
  }

  function EffectiveFirst(view: View, firstHostLvl: nat): nat {
    Max(firstHostLvl, view.subnetlevel + 1)
  }

  function EffectiveOk(view: View, firstHostLvl: nat, okHostLvl: nat): nat {
    Max(okHostLvl, EffectiveFirst(view, firstHostLvl))
  }

  /** The root of a search. */
  function RootStep(view: View, firstHostLvl: nat): SolutionStep {
    SolutionStep(OwnTuple(EffectiveFirst(view, firstHostLvl), view), None, None, None, None)
  }

  /** What a list of solutions is, in whatever order the router answered. */
  ghost predicate SolutionList(solutions: seq<MigrationSolution>, view: View, ok: nat) {
    && (forall i :: 0 <= i < |solutions| ==>
          WellFormed(solutions[i], view.Levels()) && StartsAt(solutions[i].leaf, OwnTuple(0, view)))
    && Ranked(solutions)
    && (forall i :: 0 <= i < |solutions| - 1 ==> solutions[i].finalHostLvl > ok)
  }

  /** `find_shortest_mig`, dropped at the await after the first `budget` ones if there is one (`cut`).
      It terminates whatever the router answers; every solution is well formed and starts at the
      node's own g-node, the list is ranked, only its last element can be good enough for an early
      accept, and if the router is honest every solution is real. The visits made explain the list, and
      the neighbours of the first one cost an await for each one to explore. */
  method FindShortestMig(view: View, router: Router, budget: nat, firstHostLvl: nat, okHostLvl: nat)
    returns (solutions: seq<MigrationSolution>, cut: bool, awaits: nat, ghost log: seq<Visit>)
    ensures SolutionList(solutions, view, EffectiveOk(view, firstHostLvl, okHostLvl))
    ensures HonestRouter(router, view.gsizes) ==>
      forall i :: 0 <= i < |solutions| ==> RealSolution(solutions[i], view.gsizes)
    ensures awaits <= budget && (cut ==> awaits == budget) && (budget > 0 ==> log != [])
    ensures Explained(
      view, router, EffectiveOk(view, firstHostLvl, okHostLvl), RootStep(view, firstHostLvl), log, solutions, cut, awaits)
    ensures !cut ==>
      awaits >=
      AwaitsAfter(
        view, router, budget, EffectiveOk(view, firstHostLvl, okHostLvl),
        Visit(0, RootStep(view, firstHostLvl), view.Levels()))
  {
    var first := Max(firstHostLvl, view.subnetlevel + 1);
    var ok := Max(okHostLvl, first);
    var root := MakeTupleFromLevel(first, view);
    ghost var sc := SearchScope(view, router, root.pos, ok);
    RootFacts(view, first);
    assert ok == EffectiveOk(view, firstHostLvl, okHostLvl);
    assert SolutionStep(root, None, None, None, None) == RootStep(view, firstHostLvl);
    solutions, cut, awaits, log := RunSearch(view, router, budget, root, ok, sc);
    ResultIsList(solutions, view, sc);
  }

  /** The scope of a search: its space is finite and holds every real g-node. */
  lemma SearchScope(view: View, router: Router, root: seq<U32>, ok: nat) returns (sc: Scope)
    ensures sc.gsizes == view.gsizes && HoldsReal(sc) && sc.okHostLvl == ok && sc.own == OwnTuple(0, view)
    ensures root in sc.space && sc.honest == HonestRouter(router, view.gsizes)
  {
    sc := Scope(RealTuples(view.gsizes) + {root}, view.gsizes, HonestRouter(router, view.gsizes), ok, OwnTuple(0, view));
    forall n: TupleGNode | !TupleHasVirtualPos(n, sc.gsizes) ensures n.pos in sc.space {
      RealIsInSpace(n, sc.gsizes);
    }
  }

  lemma RootFacts(view: View, first: nat)
    requires first > 0
    ensures
      var root := OwnTuple(first, view);
      && |root.pos| == |root.eldership| < view.Levels()
      && root.pos == view.myPos[view.Levels() - |root.pos|..]
      && root.eldership == view.myEldership[view.Levels() - |root.pos|..]
  {}

  lemma ResultIsList(solutions: seq<MigrationSolution>, view: View, sc: Scope)
    requires ResultInv(solutions, sc) && sc.gsizes == view.gsizes && sc.own == OwnTuple(0, view)
    ensures SolutionList(solutions, view, sc.okHostLvl)
    ensures sc.honest ==> forall i :: 0 <= i < |solutions| ==> RealSolution(solutions[i], view.gsizes)
  {
    assert forall i :: 0 <= i < |solutions| ==> GoodSolution(solutions[i], sc);
  }

  /** One request of the search: the number of its await, the step asked about, the highest level of use. */
  datatype Visit = Visit(call: nat, step: SolutionStep, max: nat)

  function Answer(router: Router, v: Visit): Option<SearchStepResult> {
    router.search(v.call, PathHopsOnto(v.step, []), v.max)
  }

  /** The solution a visit yields, if any. */
  function RecordedBy(router: Router, v: Visit, levels: nat): seq<MigrationSolution> {
    if Answer(router, v).None? then [] else RecordedFrom(v.step, Answer(router, v).value, v.max, levels)
  }

  /** `s` prolongs the step of the visit to a neighbour its answer names. */
  ghost predicate Derives(router: Router, v: Visit, levels: nat, s: SolutionStep) {
    var a := Answer(router, v);
    && a.Some? && Usable(v.step, a.value, v.max, levels)
    && ComesFrom(router, TruncatedAt(v.step, a.value, levels), a.value, v.call + 1, levels, s)
  }

  /** If the visit looks on, every eligible neighbour its answer names is in `seen` or on the way to it. */
  ghost predicate Followed(view: View, router: Router, ok: nat, v: Visit, seen: set<seq<U32>>) {
    var a := Answer(router, v);
    a.Some? && Expands(v.step, a.value, v.max, ok, view.Levels()) ==>
      NamedIn(router, TruncatedAt(v.step, a.value, view.Levels()), a.value, v.call + 1, view.gsizes,
              |a.value.setAdjacent|, seen)
  }

  /** What one visit does to the solutions, the queue and the visited list. */
  ghost predicate VisitMade(
    view: View, router: Router, ok: nat, v: Visit, foundIn: Found, frontier: Frontier, cut: bool, found: Found, f: Frontier)
    requires frontier.queue != []
  {
    && found.solutions == foundIn.solutions + RecordedBy(router, v, view.Levels())
    && frontier.queue[1..] <= f.queue
    && (forall s :: s in f.queue[|frontier.queue| - 1..] ==> Derives(router, v, view.Levels(), s))
    && Positions(f.visited) <= Positions(frontier.visited) + QueuePositions(f.queue)
    && (!cut ==> Followed(view, router, ok, v, Positions(f.visited)))
  }

  /** The frontier after a visit: the g-node is forgotten if it fails, and otherwise its answer is used, its
      neighbours up to `upTo`. */
  ghost function AfterVisit(view: View, router: Router, ok: nat, v: Visit, frontier: Frontier, upTo: nat): Frontier
    requires frontier.queue != []
  {
    var rest := frontier.(queue := frontier.queue[1..], calls := frontier.calls + 1);
    match Answer(router, v)
    case None => rest.(visited := Retain(frontier.visited, v.step.visiting.pos))
    case Some(step) => UsedUpTo(view, router, ok, v.step, step, v.max, rest, Min(upTo, |step.setAdjacent|))
  }

  /** A visit as an update of the solutions and the frontier. */
  ghost predicate VisitDone(
    view: View, router: Router, ok: nat, v: Visit, foundIn: Found, frontier: Frontier, cut: bool, found: Found, f: Frontier,
    upTo: nat)
    requires frontier.queue != []
  {
    && found.solutions == foundIn.solutions + RecordedBy(router, v, view.Levels())
    && f == AfterVisit(view, router, ok, v, frontier, upTo)
    && (!cut && Answer(router, v).Some? ==> upTo == |Answer(router, v).value.setAdjacent|)
  }

  /** One turn of the loop: ask the g-node at the head of the queue. Either the set of g-nodes not
      yet answered shrinks, or it stays and the queue does. */
  method VisitNext(
    view: View, router: Router, budget: nat, ok: nat, foundIn: Found, frontier: Frontier,
    ghost answeredIn: set<seq<U32>>, ghost sc: Scope, ghost d: nat)
    returns (done: bool, cut: bool, found: Found, f: Frontier, ghost answered: set<seq<U32>>, upTo: nat)
    requires sc.gsizes == view.gsizes && HoldsReal(sc) && sc.okHostLvl == ok
    requires sc.honest ==> HonestRouter(router, view.gsizes)
    requires |sc.own.pos| == |sc.own.eldership|
    requires frontier.queue != [] && frontier.calls <= budget
    requires foundIn.prevDistance.Some? ==> !Pruned(foundIn.prevDistance.value, Distance(frontier.queue[0]))
    requires SearchInv(frontier, foundIn, answeredIn, sc, d)
    ensures done ==> ResultInv(found.solutions, sc)
    ensures !done ==> SearchInv(f, found, answered, sc, Distance(frontier.queue[0]))
    ensures frontier.calls <= f.calls <= budget && (cut ==> !done && f.calls == budget)
    ensures !cut ==> frontier.calls < f.calls
    ensures
      || cut
      || |sc.space - answered| < |sc.space - answeredIn|
      || (answered == answeredIn && |f.queue| < |frontier.queue|)
    ensures done ==> found.solutions != []
    ensures frontier.calls == budget ==> cut && found == foundIn && f == frontier
    ensures frontier.calls < budget ==>
      VisitDone(
        view, router, ok, Visit(frontier.calls, frontier.queue[0], foundIn.maxHostLvl), foundIn, frontier, cut, found, f, upTo)
    ensures !cut ==> f.calls >= AwaitsAfter(view, router, budget, ok, Visit(frontier.calls, frontier.queue[0], foundIn.maxHostLvl))
  {
    if frontier.calls == budget {
      done, cut, found, f, answered, upTo := false, true, foundIn, frontier, answeredIn, 0;
      FoundInvLater(found, sc, d, Distance(f.queue[0]));
      QueueInvLater(f, answered, sc, d);
    } else {
      done, cut, found, f, answered, upTo := AskNext(view, router, budget, ok, foundIn, frontier, answeredIn, sc, d);
    }
  }

  /** The request itself, and the use of its answer. */
  method AskNext(
    view: View, router: Router, budget: nat, ok: nat, foundIn: Found, frontier: Frontier,
    ghost answeredIn: set<seq<U32>>, ghost sc: Scope, ghost d: nat)
    returns (done: bool, cut: bool, found: Found, f: Frontier, ghost answered: set<seq<U32>>, upTo: nat)
    requires sc.gsizes == view.gsizes && HoldsReal(sc) && sc.okHostLvl == ok
    requires sc.honest ==> HonestRouter(router, view.gsizes)
    requires |sc.own.pos| == |sc.own.eldership|
    requires frontier.queue != [] && frontier.calls < budget
    requires foundIn.prevDistance.Some? ==> !Pruned(foundIn.prevDistance.value, Distance(frontier.queue[0]))
    requires SearchInv(frontier, foundIn, answeredIn, sc, d)
    ensures done ==> ResultInv(found.solutions, sc) && found.solutions != []
    ensures !done ==> SearchInv(f, found, answered, sc, Distance(frontier.queue[0]))
    ensures frontier.calls < f.calls <= budget && (cut ==> !done && f.calls == budget)
    ensures
      || |sc.space - answered| < |sc.space - answeredIn|
      || (answered == answeredIn && |f.queue| < |frontier.queue|)
    ensures VisitDone(
      view, router, ok, Visit(frontier.calls, frontier.queue[0], foundIn.maxHostLvl), foundIn, frontier, cut, found, f, upTo)
    ensures !cut ==> f.calls >= AwaitsAfter(view, router, budget, ok, Visit(frontier.calls, frontier.queue[0], foundIn.maxHostLvl))
  {
    done, cut, found, f, answered, upTo := false, false, foundIn, frontier, answeredIn, 0;
    var current := f.queue[0];
    FoundInvLater(found, sc, d, Distance(current));
    var hops := GetPathHops(current);
    var answer := router.search(f.calls, hops, found.maxHostLvl);
    if answer.None? {
      FailureKeepsQueue(f, answered, sc, d);
      f := f.(queue := f.queue[1..], visited := Retain(f.visited, current.visiting.pos), calls := f.calls + 1);
      return;
    }
    done, cut, found, f, answered, upTo :=
      TakeAnswer(view, router, budget, ok, answer.value, found, f, answered, sc, d);
  }

  /** The use of the answer of the g-node at the head of the queue. */
  method TakeAnswer(
    view: View, router: Router, budget: nat, ok: nat, step: SearchStepResult, foundIn: Found, frontier: Frontier,
    ghost answeredIn: set<seq<U32>>, ghost sc: Scope, ghost d: nat)
    returns (done: bool, cut: bool, found: Found, f: Frontier, ghost answered: set<seq<U32>>, upTo: nat)
    requires sc.gsizes == view.gsizes && HoldsReal(sc) && sc.okHostLvl == ok
    requires sc.honest ==> HonestRouter(router, view.gsizes)
    requires |sc.own.pos| == |sc.own.eldership|
    requires frontier.queue != [] && frontier.calls < budget
    requires Answer(router, Visit(frontier.calls, frontier.queue[0], foundIn.maxHostLvl)) == Some(step)
    requires foundIn.prevDistance.Some? ==> !Pruned(foundIn.prevDistance.value, Distance(frontier.queue[0]))
    requires QueueInv(frontier, answeredIn, sc, d) && FoundInv(foundIn, sc, Distance(frontier.queue[0]))
    ensures done ==> ResultInv(found.solutions, sc) && found.solutions != []
    ensures !done ==> SearchInv(f, found, answered, sc, Distance(frontier.queue[0]))
    ensures frontier.calls < f.calls <= budget && (cut ==> !done && f.calls == budget)
    ensures |sc.space - answered| < |sc.space - answeredIn|
    ensures VisitDone(
      view, router, ok, Visit(frontier.calls, frontier.queue[0], foundIn.maxHostLvl), foundIn, frontier, cut, found, f, upTo)
    ensures !cut ==>
      f.calls >= AwaitsAfter(view, router, budget, ok, Visit(frontier.calls, frontier.queue[0], foundIn.maxHostLvl))
  {
    var current := frontier.queue[0];
    HeadIsReady(router, current, step, frontier.calls, foundIn.maxHostLvl, sc);
    AnswerKeepsQueue(frontier, answeredIn, sc, d);
    answered := answeredIn + {current.visiting.pos};
    f := frontier.(queue := frontier.queue[1..], calls := frontier.calls + 1);
    ghost var rest := f;
    done, cut, found, f, upTo := UseAnswer(view, router, budget, current, step, ok, foundIn, f, answered, sc);
    AnswerIsVisit(
      view, router, budget, ok, Visit(frontier.calls, current, foundIn.maxHostLvl), step, foundIn, frontier, cut, found, f, upTo);
  }

  lemma AnswerIsVisit(
    view: View, router: Router, budget: nat, ok: nat, v: Visit, step: SearchStepResult, foundIn: Found, frontier: Frontier,
    cut: bool, found: Found, f: Frontier, upTo: nat)
    requires frontier.queue != [] && v.call == frontier.calls && Answer(router, v) == Some(step)
    requires found.solutions == foundIn.solutions + RecordedFrom(v.step, step, v.max, view.Levels())
    requires upTo <= |step.setAdjacent| && (!cut ==> upTo == |step.setAdjacent|)
    requires f == UsedUpTo(
      view, router, ok, v.step, step, v.max, frontier.(queue := frontier.queue[1..], calls := frontier.calls + 1), upTo)
    ensures VisitDone(view, router, ok, v, foundIn, frontier, cut, found, f, upTo)
    ensures !cut ==> f.calls >= AwaitsAfter(view, router, budget, ok, v)
  {
    var rest := frontier.(queue := frontier.queue[1..], calls := frontier.calls + 1);
    if Expands(v.step, step, v.max, ok, view.Levels()) {
      UsedCalls(view, router, ok, v.step, step, v.max, rest, upTo);
    }
  }

  lemma UsedCalls(
    view: View, router: Router, ok: nat, popped: SolutionStep, step: SearchStepResult, maxHostLvl: nat, frontier: Frontier,
    upTo: nat)
    requires upTo <= |step.setAdjacent| && Expands(popped, step, maxHostLvl, ok, view.Levels())
    ensures UsedUpTo(view, router, ok, popped, step, maxHostLvl, frontier, upTo).calls
      == frontier.calls + Explores(step.setAdjacent[..upTo], step.minHostLvl, view.Levels())
    ensures step.setAdjacent[..|step.setAdjacent|] == step.setAdjacent
  {
    ExpandedCalls(router, TruncatedAt(popped, step, view.Levels()), step, frontier, view.gsizes, upTo);
  }

  lemma HeadIsReady(
    router: Router, head: SolutionStep, step: SearchStepResult, call: nat, maxHostLvl: nat, sc: Scope)
    requires GoodStep(head, sc) && |sc.own.pos| == |sc.own.eldership|
    requires sc.honest ==> HonestRouter(router, sc.gsizes)
    requires Answer(router, Visit(call, head, maxHostLvl)) == Some(step)
    ensures Usable(head, step, maxHostLvl, |sc.gsizes|) ==> ReadyStep(TruncatedAt(head, step, |sc.gsizes|), step, sc)
  {
    if sc.honest {
      HonestCall(router, sc.gsizes, call, head, maxHostLvl);
    }
    if Usable(head, step, maxHostLvl, |sc.gsizes|) {
      UsableIsReady(head, step, maxHostLvl, sc);
    }
  }

  lemma VisitIsMade(
    view: View, router: Router, ok: nat, v: Visit, foundIn: Found, frontier: Frontier, cut: bool, found: Found, f: Frontier,
    upTo: nat)
    requires frontier.queue != [] && v.step == frontier.queue[0] && v.call == frontier.calls
    requires VisitDone(view, router, ok, v, foundIn, frontier, cut, found, f, upTo)
    ensures VisitMade(view, router, ok, v, foundIn, frontier, cut, found, f)
  {
    var rest := frontier.(queue := frontier.queue[1..], calls := frontier.calls + 1);
    var a := Answer(router, v);
    if a.Some? && Expands(v.step, a.value, v.max, ok, view.Levels()) {
      var k := Min(upTo, |a.value.setAdjacent|);
      ExpandedFully(router, TruncatedAt(v.step, a.value, view.Levels()), a.value, rest, view.gsizes, k);
      MadeByUse(view, router, ok, v, a.value, frontier, cut, f, k);
    } else {
      MadeIdly(view, router, ok, v, frontier, f);
    }
  }

  /** A visit that fails, or is not followed up. */
  lemma MadeIdly(view: View, router: Router, ok: nat, v: Visit, frontier: Frontier, f: Frontier)
    requires frontier.queue != [] && f.queue == frontier.queue[1..]
    requires Answer(router, v).None? || !Expands(v.step, Answer(router, v).value, v.max, ok, view.Levels())
    requires f.visited == frontier.visited || f.visited == Retain(frontier.visited, v.step.visiting.pos)
    ensures f.queue[|frontier.queue| - 1..] == []
    ensures Positions(f.visited) <= Positions(frontier.visited)
    ensures Followed(view, router, ok, v, Positions(f.visited))
  {
    RetainForgets(frontier.visited, v.step.visiting.pos);
  }

  /** A visit that is followed up. */
  lemma MadeByUse(
    view: View, router: Router, ok: nat, v: Visit, step: SearchStepResult, frontier: Frontier, cut: bool, f: Frontier, k: nat)
    requires frontier.queue != [] && v.call == frontier.calls && Answer(router, v) == Some(step)
    requires Expands(v.step, step, v.max, ok, view.Levels()) && k <= |step.setAdjacent| && (!cut ==> k == |step.setAdjacent|)
    requires
      var rest := frontier.(queue := frontier.queue[1..], calls := frontier.calls + 1);
      Expanding(router, TruncatedAt(v.step, step, view.Levels()), step, rest, f, view.gsizes, k)
    ensures frontier.queue[1..] <= f.queue
    ensures forall s :: s in f.queue[|frontier.queue| - 1..] ==> Derives(router, v, view.Levels(), s)
    ensures Positions(f.visited) <= Positions(frontier.visited) + QueuePositions(f.queue)
    ensures !cut ==> Followed(view, router, ok, v, Positions(f.visited))
  {
    DerivedByUse(view, router, v, step, f.queue[|frontier.queue| - 1..]);
  }

  lemma DerivedByUse(view: View, router: Router, v: Visit, step: SearchStepResult, queue: seq<SolutionStep>)
    requires Answer(router, v) == Some(step) && Usable(v.step, step, v.max, view.Levels())
    requires QueuedFrom(router, TruncatedAt(v.step, step, view.Levels()), step, v.call + 1, view.Levels(), queue)
    ensures forall s :: s in queue ==> Derives(router, v, view.Levels(), s)
  {}

  /** The awaits made once a visit has been answered and its neighbours have been looked at. */
  function AwaitsAfter(view: View, router: Router, budget: nat, ok: nat, v: Visit): nat {
    var a := Answer(router, v);
    if v.call < budget && a.Some? && Expands(v.step, a.value, v.max, ok, view.Levels())
    then v.call + 1 + Explores(a.value.setAdjacent, a.value.minHostLvl, view.Levels())
    else 0
  }

  lemma QueueInvLater(f: Frontier, answered: set<seq<U32>>, sc: Scope, d: nat)
    requires f.queue != [] && QueueInv(f, answered, sc, d)
    ensures QueueInv(f, answered, sc, Distance(f.queue[0]))
  {
  }

  // ---------------------------------------------------------------- the log of a search

  /** The solutions the visits of a log yield, in order. */
  function RecordedIn(router: Router, log: seq<Visit>, levels: nat): seq<MigrationSolution> {
    if log == [] then []
    else RecordedIn(router, log[..|log| - 1], levels) + RecordedBy(router, log[|log| - 1], levels)
  }

  ghost function AskedIn(log: seq<Visit>): set<seq<U32>> {
    set v | v in log :: v.step.visiting.pos
  }

  /** The highest level of use after some solutions. */
  function MaxAfter(sols: seq<MigrationSolution>, levels: nat): nat {
    if sols == [] then levels
    else
      var last := sols[|sols| - 1].finalHostLvl;
      if last == 0 then 0 else last - 1
  }

  ghost predicate DerivedIn(router: Router, log: seq<Visit>, levels: nat, s: SolutionStep) {
    exists v :: v in log && Derives(router, v, levels, s)
  }

  /** Visits in the order of their awaits, each with the highest level of use left by those before it. */
  ghost predicate LogOrder(router: Router, log: seq<Visit>, levels: nat, calls: nat) {
    && (forall i :: 0 <= i < |log| ==> log[i].call < calls)
    && (forall i, j :: 0 <= i < j < |log| ==> log[i].call < log[j].call)
    && (forall i :: 0 <= i < |log| ==> log[i].max == MaxAfter(RecordedIn(router, log[..i], levels), levels))
  }

  /** Every step visited or queued is the root or prolongs an earlier visit as its answer says. */
  ghost predicate LogTree(router: Router, log: seq<Visit>, levels: nat, root: SolutionStep, queue: seq<SolutionStep>) {
    && (log != [] ==> log[0] == Visit(0, root, levels))
    && (forall i :: 0 < i < |log| ==> DerivedIn(router, log[..i], levels, log[i].step))
    && (forall s :: s in queue ==> (log == [] && s == root) || DerivedIn(router, log, levels, s))
  }

  /** Every g-node visited is asked or queued, and so is every neighbour named. */
  ghost predicate LogClosed(view: View, router: Router, ok: nat, log: seq<Visit>, f: Frontier, cut: bool) {
    && Positions(f.visited) <= AskedIn(log) + QueuePositions(f.queue)
    && (!cut ==>
          forall i :: 0 <= i < |log| ==> Followed(view, router, ok, log[i], AskedIn(log) + QueuePositions(f.queue)))
  }

  lemma OrderStep(router: Router, log: seq<Visit>, levels: nat, calls: nat, v: Visit, calls': nat)
    requires LogOrder(router, log, levels, calls) && v.call == calls < calls'
    requires v.max == MaxAfter(RecordedIn(router, log, levels), levels)
    ensures LogOrder(router, log + [v], levels, calls')
  {
    var more := log + [v];
    forall i | 0 <= i < |more| ensures more[i].max == MaxAfter(RecordedIn(router, more[..i], levels), levels) {
      assert more[..i] == if i < |log| then log[..i] else log;
    }
  }

  lemma DerivedMore(router: Router, log: seq<Visit>, levels: nat, v: Visit, s: SolutionStep)
    requires DerivedIn(router, log, levels, s) || Derives(router, v, levels, s)
    ensures DerivedIn(router, log + [v], levels, s)
  {
    if Derives(router, v, levels, s) {
      assert v in log + [v];
    } else {
      var u :| u in log && Derives(router, u, levels, s);
      assert u in log + [v];
    }
  }

  lemma TreeStep(
    router: Router, log: seq<Visit>, levels: nat, root: SolutionStep, queue: seq<SolutionStep>, v: Visit,
    queue': seq<SolutionStep>)
    requires LogTree(router, log, levels, root, queue) && queue != [] && v.step == queue[0]
    requires log == [] ==> v == Visit(0, root, levels) && queue == [root]
    requires queue[1..] <= queue' && forall s :: s in queue'[|queue| - 1..] ==> Derives(router, v, levels, s)
    ensures LogTree(router, log + [v], levels, root, queue')
  {
    var more := log + [v];
    forall i | 0 < i < |more| ensures DerivedIn(router, more[..i], levels, more[i].step) {
      assert more[..i] == if i < |log| then log[..i] else log;
      assert queue[0] in queue;
    }
    forall s | s in queue' ensures DerivedIn(router, more, levels, s) {
      var k :| 0 <= k < |queue'| && queue'[k] == s;
      if k < |queue| - 1 {
        assert s == queue[1..][k] == queue[k + 1];
        assert s in queue;
      } else {
        assert s == queue'[|queue| - 1..][k - (|queue| - 1)];
      }
      DerivedMore(router, log, levels, v, s);
    }
  }

  lemma FollowedMore(view: View, router: Router, ok: nat, v: Visit, seen: set<seq<U32>>, more: set<seq<U32>>)
    requires Followed(view, router, ok, v, seen) && seen <= more
    ensures Followed(view, router, ok, v, more)
  {}

  lemma ClosedStep(
    view: View, router: Router, ok: nat, log: seq<Visit>, v: Visit, foundIn: Found, frontier: Frontier, cut: bool, found: Found,
    f: Frontier)
    requires frontier.queue != [] && v.step == frontier.queue[0]
    requires LogClosed(view, router, ok, log, frontier, false)
    requires VisitMade(view, router, ok, v, foundIn, frontier, cut, found, f)
    ensures LogClosed(view, router, ok, log + [v], f, cut)
  {
    var seen := AskedIn(log) + QueuePositions(frontier.queue);
    var more := AskedIn(log + [v]) + QueuePositions(f.queue);
    assert seen <= more by {
      assert v in log + [v];
      forall u | u in log ensures u in log + [v] {}
      forall s | s in frontier.queue ensures s.visiting.pos in more {
        var k :| 0 <= k < |frontier.queue| && frontier.queue[k] == s;
        if k > 0 {
          assert s == frontier.queue[1..][k - 1] == f.queue[k - 1];
          assert s in f.queue;
        }
      }
    }
    if !cut {
      forall i | 0 <= i < |log + [v]| ensures Followed(view, router, ok, (log + [v])[i], more) {
        if i < |log| {
          FollowedMore(view, router, ok, log[i], seen, more);
        } else {
          FollowedMore(view, router, ok, v, Positions(f.visited), more);
        }
      }
    }
  }

  /** What a search did and why its solutions are what they are: the visits it made, from the root, each
      prolonging an earlier one as answered; the solutions they yield; and if it found none without being
      cut, every eligible neighbour named on the way was asked, or lies on the way to the one naming it. */
  ghost predicate Explained(
    view: View, router: Router, ok: nat, root: SolutionStep, log: seq<Visit>, solutions: seq<MigrationSolution>, cut: bool,
    awaits: nat)
  {
    && solutions == RecordedIn(router, log, view.Levels())
    && LogOrder(router, log, view.Levels(), awaits)
    && LogTree(router, log, view.Levels(), root, [])
    && (solutions == [] && !cut ==> log != [] && forall i :: 0 <= i < |log| ==> Followed(view, router, ok, log[i], AskedIn(log)))
  }

  /** A loop invariant of the search. */
  ghost predicate Logged(
    view: View, router: Router, ok: nat, root: SolutionStep, log: seq<Visit>, found: Found, f: Frontier, cut: bool)
  {
    && found.solutions == RecordedIn(router, log, view.Levels())
    && LogOrder(router, log, view.Levels(), f.calls)
    && LogTree(router, log, view.Levels(), root, f.queue)
    && LogClosed(view, router, ok, log, f, cut)
    && (log == [] && !cut ==> f.queue == [root] && f.calls == 0)
  }

  lemma LoggedStep(
    view: View, router: Router, ok: nat, root: SolutionStep, log: seq<Visit>, foundIn: Found, frontier: Frontier, cut: bool,
    found: Found, f: Frontier, upTo: nat)
    requires frontier.queue != [] && Logged(view, router, ok, root, log, foundIn, frontier, false)
    requires frontier.calls < f.calls && foundIn.maxHostLvl == MaxAfter(foundIn.solutions, view.Levels())
    requires VisitDone(
      view, router, ok, Visit(frontier.calls, frontier.queue[0], foundIn.maxHostLvl), foundIn, frontier, cut, found, f, upTo)
    ensures Logged(
      view, router, ok, root, log + [Visit(frontier.calls, frontier.queue[0], foundIn.maxHostLvl)], found, f, cut)
  {
    var v := Visit(frontier.calls, frontier.queue[0], foundIn.maxHostLvl);
    assert (log + [v])[..|log|] == log;
    VisitIsMade(view, router, ok, v, foundIn, frontier, cut, found, f, upTo);
    OrderStep(router, log, view.Levels(), frontier.calls, v, f.calls);
    TreeStep(router, log, view.Levels(), root, frontier.queue, v, f.queue);
    ClosedStep(view, router, ok, log, v, foundIn, frontier, cut, found, f);
  }

  lemma LoggedExplains(
    view: View, router: Router, ok: nat, root: SolutionStep, log: seq<Visit>, found: Found, f: Frontier, cut: bool)
    requires Logged(view, router, ok, root, log, found, f, cut)
    requires found.solutions == [] && !cut ==> f.queue == []
    ensures Explained(view, router, ok, root, log, found.solutions, cut, f.calls)
  {
    if found.solutions == [] && !cut {
      NothingQueued(view, router, ok, log, f);
    }
  }

  lemma NothingQueued(view: View, router: Router, ok: nat, log: seq<Visit>, f: Frontier)
    requires LogClosed(view, router, ok, log, f, false) && f.queue == []
    ensures forall i :: 0 <= i < |log| ==> Followed(view, router, ok, log[i], AskedIn(log))
  {
    forall i | 0 <= i < |log| ensures Followed(view, router, ok, log[i], AskedIn(log)) {
      FollowedMore(view, router, ok, log[i], AskedIn(log) + QueuePositions(f.queue), AskedIn(log));
    }
  }

  /** A log without solutions has no visit that yields one. */
  lemma {:induction false} NothingRecorded(router: Router, log: seq<Visit>, levels: nat, i: nat)
    requires RecordedIn(router, log, levels) == [] && i < |log|
    ensures RecordedBy(router, log[i], levels) == [] && RecordedIn(router, log[..i], levels) == []
  {
    if i < |log| - 1 {
      NothingRecorded(router, log[..|log| - 1], levels, i);
      assert log[..|log| - 1][..i] == log[..i];
    }
  }

  /** The visit looks on, and neighbour `k` of its answer is `n`: eligible, and off the way to it. */
  predicate Names(view: View, router: Router, ok: nat, v: Visit, k: nat, n: TupleGNode) {
    var a := Answer(router, v);
    && a.Some? && Expands(v.step, a.value, v.max, ok, view.Levels()) && k < |a.value.setAdjacent|
    && var current := TruncatedAt(v.step, a.value, view.Levels());
       && NamedAt(router, current, a.value, v.call + 1, view.Levels(), k) == Some(n)
       && Eligible(n, a.value, view.gsizes)
       && !OnChain(current, n.pos, a.value.minHostLvl, view.Levels())
  }

  /** Every request about the g-node at `pos`, made before any solution is known, yields one. */
  ghost predicate AlwaysYields(router: Router, pos: seq<U32>, levels: nat) {
    forall v: Visit :: v.step.visiting.pos == pos && v.max == levels ==> RecordedBy(router, v, levels) != []
  }

  lemma NamedIsSeen(view: View, router: Router, ok: nat, v: Visit, k: nat, n: TupleGNode, seen: set<seq<U32>>)
    requires Followed(view, router, ok, v, seen) && Names(view, router, ok, v, k, n)
    ensures n.pos in seen
  {}

  lemma AskedVisit(log: seq<Visit>, pos: seq<U32>) returns (j: nat)
    requires pos in AskedIn(log)
    ensures j < |log| && log[j].step.visiting.pos == pos
  {
    var v :| v in log && v.step.visiting.pos == pos;
    j :| 0 <= j < |log| && log[j] == v;
  }

  /** A search that is not cut finds a solution if one of its visits names a new g-node about which every
      request yields one. */
  lemma NamedIsFound(
    view: View, router: Router, ok: nat, root: SolutionStep, log: seq<Visit>, solutions: seq<MigrationSolution>, awaits: nat,
    i: nat, k: nat, n: TupleGNode)
    requires Explained(view, router, ok, root, log, solutions, false, awaits) && i < |log|
    requires Names(view, router, ok, log[i], k, n) && AlwaysYields(router, n.pos, view.Levels())
    ensures solutions != []
  {
    if solutions == [] {
      NamedIsSeen(view, router, ok, log[i], k, n, AskedIn(log));
      var j := AskedVisit(log, n.pos);
      NothingRecorded(router, log, view.Levels(), j);
    }
  }

  /** A neighbour off the way to the visited step is not the g-node visited. */
  lemma NamedIsElsewhere(view: View, router: Router, ok: nat, v: Visit, k: nat, n: TupleGNode)
    requires Names(view, router, ok, v, k, n) && |v.step.visiting.pos| <= view.Levels()
    ensures n.pos != v.step.visiting.pos
  {
    var step := Answer(router, v).value;
    var current := TruncatedAt(v.step, step, view.Levels());
    OnChainStep(current, n.pos, step.minHostLvl, view.Levels());
    assert current.visiting.TruncateToLevel(step.minHostLvl, view.Levels()) == Some(current.visiting);
  }

  /** When the first answer of a search that is not cut names a new g-node, either it yields a solution or
      there is a second visit, of a neighbour the first answer names; if that yields one, one is found. */
  lemma SecondVisit(
    view: View, router: Router, ok: nat, root: SolutionStep, log: seq<Visit>, solutions: seq<MigrationSolution>, awaits: nat,
    k: nat, n: TupleGNode)
    requires Explained(view, router, ok, root, log, solutions, false, awaits) && |root.visiting.pos| <= view.Levels()
    requires log != [] && Names(view, router, ok, log[0], k, n)
    ensures solutions == [] ==> |log| > 1
    ensures |log| > 1 ==> Derives(router, log[0], view.Levels(), log[1].step)
    ensures |log| > 1 && RecordedBy(router, log[1], view.Levels()) != [] ==> solutions != []
  {
    if solutions == [] {
      NamedIsSeen(view, router, ok, log[0], k, n, AskedIn(log));
      var j := AskedVisit(log, n.pos);
      NamedIsElsewhere(view, router, ok, log[0], k, n);
      if |log| > 1 {
        NothingRecorded(router, log, view.Levels(), 1);
      }
    }
    if |log| > 1 {
      assert DerivedIn(router, log[..1], view.Levels(), log[1].step);
      assert log[..1] == [log[0]];
    }
  }

  lemma MaxFromInv(found: Found, sc: Scope, d: nat)
    requires FoundInv(found, sc, d)
    ensures found.maxHostLvl == MaxAfter(found.solutions, |sc.gsizes|)
  {}

  /** The search loop, from a root g-node. */
  method RunSearch(view: View, router: Router, budget: nat, root: TupleGNode, ok: nat, ghost sc: Scope)
    returns (solutions: seq<MigrationSolution>, cut: bool, awaits: nat, ghost log: seq<Visit>)
    requires |root.pos| == |root.eldership| < view.Levels()
    requires root.pos == view.myPos[view.Levels() - |root.pos|..]
    requires root.eldership == view.myEldership[view.Levels() - |root.pos|..]
    requires sc.gsizes == view.gsizes && HoldsReal(sc) && sc.okHostLvl == ok && sc.own == OwnTuple(0, view)
    requires root.pos in sc.space && (sc.honest ==> HonestRouter(router, view.gsizes))
    ensures ResultInv(solutions, sc)
    ensures awaits <= budget && (cut ==> awaits == budget) && (budget > 0 ==> log != [])
    ensures Explained(view, router, ok, SolutionStep(root, None, None, None, None), log, solutions, cut, awaits)
    ensures !cut ==>
      awaits >=
      AwaitsAfter(view, router, budget, ok, Visit(0, SolutionStep(root, None, None, None, None), view.Levels()))
  {
    var found := Found([], None, view.Levels());
    ghost var first := SolutionStep(root, None, None, None, None);
    var f := Frontier([SolutionStep(root, None, None, None, None)], [root], 0);
    var done := false;
    cut := false;
    log := [];
    ghost var answered: set<seq<U32>> := {};
    ghost var d: nat := 0;
    InitialQueue(f, root, sc);
    InitialLog(view, router, ok, first, found, f);
    while f.queue != [] && !done && !cut
      invariant done ==> ResultInv(found.solutions, sc) && found.solutions != []
      invariant !done ==> SearchInv(f, found, answered, sc, d)
      invariant Going(view, router, budget, ok, first, log, found, f, done, cut)
      decreases !cut, |sc.space - answered|, |f.queue|
    {
      var distance := ComputeDistance(f.queue[0]);
      if found.prevDistance.Some? && Pruned(found.prevDistance.value, distance) {
        break;
      }
      done, cut, found, f, answered, log := Turn(view, router, budget, ok, first, found, f, answered, sc, d, log);
      d := distance;
    }
    solutions, awaits := found.solutions, f.calls;
    LoggedExplains(view, router, ok, first, log, found, f, cut);
  }

  /** What the loop knows of its log. */
  ghost predicate Going(
    view: View, router: Router, budget: nat, ok: nat, root: SolutionStep, log: seq<Visit>, found: Found, f: Frontier,
    done: bool, cut: bool)
  {
    && f.calls <= budget && (cut ==> !done && f.calls == budget)
    && Logged(view, router, ok, root, log, found, f, cut)
    && (log == [] && !cut ==> !done && f.queue == [root] && f.calls == 0 && found.maxHostLvl == view.Levels())
    && (log == [] && cut ==> budget == 0)
    && (log != [] && !cut ==> f.calls >= AwaitsAfter(view, router, budget, ok, Visit(0, root, view.Levels())))
  }

  /** A visit, and its entry in the log. */
  method Turn(
    view: View, router: Router, budget: nat, ok: nat, ghost root: SolutionStep, foundIn: Found, frontier: Frontier,
    ghost answeredIn: set<seq<U32>>, ghost sc: Scope, ghost d: nat, ghost logIn: seq<Visit>)
    returns (
      done: bool, cut: bool, found: Found, f: Frontier, ghost answered: set<seq<U32>>, ghost log: seq<Visit>)
    requires sc.gsizes == view.gsizes && HoldsReal(sc) && sc.okHostLvl == ok
    requires sc.honest ==> HonestRouter(router, view.gsizes)
    requires |sc.own.pos| == |sc.own.eldership| && frontier.queue != []
    requires foundIn.prevDistance.Some? ==> !Pruned(foundIn.prevDistance.value, Distance(frontier.queue[0]))
    requires SearchInv(frontier, foundIn, answeredIn, sc, d)
    requires Going(view, router, budget, ok, root, logIn, foundIn, frontier, false, false)
    ensures done ==> ResultInv(found.solutions, sc) && found.solutions != []
    ensures !done ==> SearchInv(f, found, answered, sc, Distance(frontier.queue[0]))
    ensures
      || cut
      || |sc.space - answered| < |sc.space - answeredIn|
      || (answered == answeredIn && |f.queue| < |frontier.queue|)
    ensures Going(view, router, budget, ok, root, log, found, f, done, cut)
  {
    MaxFromInv(foundIn, sc, d);
    var upTo;
    done, cut, found, f, answered, upTo := VisitNext(view, router, budget, ok, foundIn, frontier, answeredIn, sc, d);
    log := logIn;
    if frontier.calls < budget {
      LoggedStep(view, router, ok, root, logIn, foundIn, frontier, cut, found, f, upTo);
      log := log + [Visit(frontier.calls, frontier.queue[0], foundIn.maxHostLvl)];
    } else {
      LoggedCut(view, router, ok, root, log, found, f);
    }
  }

  lemma LoggedCut(view: View, router: Router, ok: nat, root: SolutionStep, log: seq<Visit>, found: Found, f: Frontier)
    requires Logged(view, router, ok, root, log, found, f, false)
    ensures Logged(view, router, ok, root, log, found, f, true)
  {}

  lemma InitialLog(view: View, router: Router, ok: nat, root: SolutionStep, found: Found, f: Frontier)
    requires found.solutions == [] && f.queue == [root] && f.visited == [root.visiting] && f.calls == 0
    ensures Logged(view, router, ok, root, [], found, f, false)
  {
    assert root in f.queue;
  }

  lemma InitialQueue(f: Frontier, root: TupleGNode, sc: Scope)
    requires |root.pos| == |root.eldership| < |sc.gsizes| && root.pos in sc.space
    requires StartsAt(SolutionStep(root, None, None, None, None), sc.own)
    requires f.queue == [SolutionStep(root, None, None, None, None)] && f.visited == [root]
    ensures QueueInv(f, {}, sc, 0)
  {
  }

  /** An honest router answers the hops of `current` like a node inside its g-node. */
  lemma HonestCall(router: Router, gsizes: seq<U32>, k: nat, current: SolutionStep, maxHostLvl: nat)
    requires HonestRouter(router, gsizes)
    requires router.search(k, PathHopsOnto(current, []), maxHostLvl).Some?
    ensures HonestAnswer(
      gsizes, current.visiting, maxHostLvl, router.search(k, PathHopsOnto(current, []), maxHostLvl).value)
  {
    var hops := PathHopsOnto(current, []);
    assert hops[|hops| - 1] == hops[Distance(current)..][0];
  }

  lemma FoundInvLater(found: Found, sc: Scope, d: nat, d': nat)
    requires FoundInv(found, sc, d) && d <= d'
    ensures FoundInv(found, sc, d')
  {
  }

  /** The address a real solution ends in has no virtual position at any level. */
  lemma FinalAddressIsReal(sol: MigrationSolution, gsizes: seq<U32>)
    requires |gsizes| > 0 && WellFormed(sol, |gsizes|) && RealSolution(sol, gsizes)
    ensures var host := CleanupTarget(sol, |gsizes|);
      host.Some? && !TupleHasVirtualPos(TupleGNode([sol.realNewPos] + host.value.pos, []), gsizes)
  {
    CleanupTargetExists(sol, |gsizes|);
    var host := CleanupTarget(sol, |gsizes|).value;
    TruncatedIsReal(sol.leaf.visiting, sol.finalHostLvl, gsizes);
    var full := [sol.realNewPos] + host.pos;
    var n := |gsizes|;
    forall i | 0 <= i < |full| ensures full[i] < gsizes[i + (n - |full|)] {
      if i > 0 {
        assert !(host.pos[i - 1] >= gsizes[i - 1 + (n - |host.pos|)]);
      }
    }
  }
}
