/**
  The answer of one visited g-node (`execute_search`) and the steps and solutions the
  migration-path search builds from such answers (`crates/ntk-hooking/src/search.rs`).
 */
module SearchStep {
  import opened Prelude
  import opened Tuples

  datatype Reservation = Reservation(pos: U32, eldership: int)

  /** A neighbouring g-node and the border position facing it. */
  datatype Adjacent = Adjacent(gnode: TupleGNode, borderRealPos: U32)

  datatype SearchStepResult = SearchStepResult(
    minHostLvl: nat,
    finalHostLvl: nat,
    realNewPos: Option<U32>,
    realNewEldership: Option<int>,
    setAdjacent: seq<Adjacent>,
    newConnVirPos: Option<U32>,
    newEldership: Option<int>)

  /** The coordinator of each host level, or none reachable. */
  type Coordinator = nat -> Option<Reservation>

  /** The size of a g-node of level `lvl`: `gsize(lvl - 1)`, the subtraction saturating. */
  function HostSize(gsizes: seq<U32>, lvl: nat): U32 {
    var i := if lvl == 0 then 0 else lvl - 1;
    if i < |gsizes| then gsizes[i] else 0
  }

  /** The lowest host level from `lvl` to `max` whose coordinator grants a position. */
  function FirstGrant(coord: Coordinator, lvl: nat, max: nat): (r: Option<(nat, Reservation)>)
    decreases max + 1 - lvl
    ensures r.Some? ==> lvl <= r.value.0 <= max && coord(r.value.0) == Some(r.value.1)
    ensures r.Some? ==> forall k :: lvl <= k < r.value.0 ==> coord(k).None?
    ensures r.None? ==> forall k :: lvl <= k <= max ==> coord(k).None?
  {
    if lvl > max then None
    else if coord(lvl).Some? then Some((lvl, coord(lvl).value))
    else FirstGrant(coord, lvl + 1, max)
  }

  /** Climbs from `lvl` to the first level granting a real position; `None` if a coordinator
      fails on the way, level `max + 1` with no reservation if none is real. */
  function FirstReal(coord: Coordinator, gsizes: seq<U32>, lvl: nat, max: nat): (r: Option<(nat, Option<Reservation>)>)
    decreases max + 1 - lvl
    ensures r.Some? ==> lvl <= r.value.0
    ensures r.Some? && r.value.1.Some? ==>
      r.value.0 <= max && coord(r.value.0) == r.value.1 && r.value.1.value.pos < HostSize(gsizes, r.value.0)
    ensures r.Some? ==> forall k :: lvl <= k < r.value.0 ==> coord(k).Some? && coord(k).value.pos >= HostSize(gsizes, k)
  {
    if lvl > max then Some((lvl, None))
    else match coord(lvl)
      case None => None
      case Some(g) =>
        if g.pos < HostSize(gsizes, lvl) then Some((lvl, Some(g)))
        else FirstReal(coord, gsizes, lvl + 1, max)
  }

  /** What `execute_search` answers on a node with the given view and coordinators. */
  function SearchAnswer(
    view: View, coord: Coordinator, adjacent: nat -> seq<Adjacent>, visiting: TupleGNode, maxHostLvl: nat)
    : Option<SearchStepResult>
  {
    if !IAmInside(visiting, view) || TupleHasVirtualPos(OwnTuple(0, view), view.gsizes) then None
    else
      var max := Min(maxHostLvl, view.Levels());
      match FirstGrant(coord, visiting.Level(view.Levels()), max)
      case None => None
      case Some((min, g)) =>
        if g.pos < HostSize(view.gsizes, min) then
          Some(SearchStepResult(min, min, Some(g.pos), Some(g.eldership), adjacent(min), None, None))
        else
          match FirstReal(coord, view.gsizes, min + 1, max)
          case None => None
          case Some((final, slot)) =>
            Some(SearchStepResult(
              min, final,
              if slot.Some? then Some(slot.value.pos) else None,
              if slot.Some? then Some(slot.value.eldership) else None,
              adjacent(min), Some(g.pos), Some(g.eldership)))
  }

  /** The loop of `execute_search` that climbs to a real slot. */
  method ClimbToReal(coord: Coordinator, gsizes: seq<U32>, lvl: nat, max: nat) returns (r: Option<(nat, Option<Reservation>)>)
    ensures r == FirstReal(coord, gsizes, lvl, max)
  {
    var finalHostLvl := lvl;
    while finalHostLvl <= max
      invariant FirstReal(coord, gsizes, lvl, max) == FirstReal(coord, gsizes, finalHostLvl, max)
    {
      if coord(finalHostLvl).None? {
        return None;
      }
      if coord(finalHostLvl).value.pos < HostSize(gsizes, finalHostLvl) {
        return Some((finalHostLvl, coord(finalHostLvl)));
      }
      finalHostLvl := finalHostLvl + 1;
    }
    r := Some((finalHostLvl, None));
  }

  /** `execute_search`: reserve at the lowest host level that answers, then climb to a real slot. */
  method ExecuteSearch(
    view: View, coord: Coordinator, adjacent: nat -> seq<Adjacent>, visiting: TupleGNode, maxHostLvl: nat)
    returns (r: Option<SearchStepResult>)
    ensures r == SearchAnswer(view, coord, adjacent, visiting, maxHostLvl)
  {
    if !IAmInside(visiting, view) {
      return None;
    }
    var own := MakeTupleFromLevel(0, view);
    if TupleHasVirtualPos(own, view.gsizes) {
      return None;
    }
    var max := Min(maxHostLvl, view.Levels());
    var minHostLvl := visiting.Level(view.Levels());
    while minHostLvl <= max && coord(minHostLvl).None?
      invariant FirstGrant(coord, visiting.Level(view.Levels()), max) == FirstGrant(coord, minHostLvl, max)
    {
      minHostLvl := minHostLvl + 1;
    }
    if minHostLvl > max {
      return None;
    }
    var granted := coord(minHostLvl).value;
    assert FirstGrant(coord, visiting.Level(view.Levels()), max) == Some((minHostLvl, granted));
    if granted.pos < HostSize(view.gsizes, minHostLvl) {
      return Some(SearchStepResult(
        minHostLvl, minHostLvl, Some(granted.pos), Some(granted.eldership), adjacent(minHostLvl), None, None));
    }
    var climbed := ClimbToReal(coord, view.gsizes, minHostLvl + 1, max);
    if climbed.None? {
      return None;
    }
    var (finalHostLvl, slot) := climbed.value;
    var realNewPos := if slot.Some? then Some(slot.value.pos) else None;
    var realNewEldership := if slot.Some? then Some(slot.value.eldership) else None;
    r := Some(SearchStepResult(
      minHostLvl, finalHostLvl, realNewPos, realNewEldership, adjacent(minHostLvl),
      Some(granted.pos), Some(granted.eldership)));
  }

  /** The answer's levels are the lowest that qualify, and its positions and elderships are those the
      coordinators of these levels granted. */
  predicate AsGranted(view: View, coord: Coordinator, visiting: TupleGNode, s: SearchStepResult) {
    && coord(s.minHostLvl).Some?
    && (forall k :: visiting.Level(view.Levels()) <= k < s.minHostLvl ==> coord(k).None?)
    && (if s.minHostLvl == s.finalHostLvl
        then s.realNewPos.Some? && s.realNewEldership.Some?
             && coord(s.minHostLvl) == Some(Reservation(s.realNewPos.value, s.realNewEldership.value))
        else
          && s.newConnVirPos.Some? && s.newEldership.Some?
          && coord(s.minHostLvl) == Some(Reservation(s.newConnVirPos.value, s.newEldership.value))
          && (forall k :: s.minHostLvl < k < s.finalHostLvl ==>
                coord(k).Some? && coord(k).value.pos >= HostSize(view.gsizes, k))
          && (s.realNewPos.Some? ==>
                && s.realNewEldership.Some?
                && coord(s.finalHostLvl) == Some(Reservation(s.realNewPos.value, s.realNewEldership.value))))
  }

  /** A g-node that holds a node with a real address has a real address itself. */
  lemma InsideIsReal(view: View, visiting: TupleGNode)
    requires IAmInside(visiting, view) && !TupleHasVirtualPos(OwnTuple(0, view), view.gsizes)
    ensures !TupleHasVirtualPos(visiting, view.gsizes)
  {
    var own := OwnTuple(0, view);
    var n := view.Levels();
    var d := n - |visiting.pos|;
    assert own.pos == view.myPos && own.pos[d..] == visiting.pos;
    forall i | 0 <= i < |visiting.pos| ensures visiting.pos[i] < view.gsizes[i + d] {
      assert own.pos[i + d] == own.pos[d..][i] == visiting.pos[i];
      assert !(own.pos[i + d] >= view.gsizes[i + d + (n - |own.pos|)]);
    }
  }

  /** An honest answer names levels that fit the request, a real position where it names one, and
      a connectivity position, virtual in the host, exactly when it had to climb. */
  lemma HonestAnswerShape(
    view: View, coord: Coordinator, adjacent: nat -> seq<Adjacent>, visiting: TupleGNode, maxHostLvl: nat)
    requires SearchAnswer(view, coord, adjacent, visiting, maxHostLvl).Some?
    ensures var s := SearchAnswer(view, coord, adjacent, visiting, maxHostLvl).value;
      && !TupleHasVirtualPos(visiting, view.gsizes)
      && visiting.Level(view.Levels()) <= s.minHostLvl <= Min(maxHostLvl, view.Levels())
      && s.minHostLvl <= s.finalHostLvl
      && (s.realNewPos.Some? <==> s.realNewEldership.Some?)
      && (s.realNewPos.Some? ==>
            s.finalHostLvl <= view.Levels() && s.realNewPos.value < HostSize(view.gsizes, s.finalHostLvl))
      && (s.newConnVirPos.Some? <==> s.minHostLvl < s.finalHostLvl)
      && (s.newConnVirPos.Some? ==> s.newConnVirPos.value >= HostSize(view.gsizes, s.minHostLvl))
      && (s.minHostLvl == s.finalHostLvl ==> s.realNewPos.Some?)
    ensures AsGranted(view, coord, visiting, SearchAnswer(view, coord, adjacent, visiting, maxHostLvl).value)
  {
    InsideIsReal(view, visiting);
  }

  /** One node of the search tree. */
  datatype SolutionStep = SolutionStep(
    visiting: TupleGNode,
    prevMigrating: Option<TupleGNode>,
    prevNewConnVirPos: Option<U32>,
    prevNewEldership: Option<int>,
    parent: Option<SolutionStep>)

  function Distance(s: SolutionStep): nat {
    match s.parent
    case None => 0
    case Some(p) => 1 + Distance(p)
  }

  method ComputeDistance(s: SolutionStep) returns (d: nat)
    ensures d == Distance(s)
  {
    d := 0;
    var cur := s;
    while cur.parent.Some?
      invariant d + Distance(cur) == Distance(s)
      decreases cur
    {
      d := d + 1;
      cur := cur.parent.value;
    }
  }

  /** The steps from the root to `s`, root first. */
  function Chain(s: SolutionStep): (c: seq<SolutionStep>)
    ensures |c| == Distance(s) + 1 && c[|c| - 1] == s
  {
    match s.parent
    case None => [s]
    case Some(p) => Chain(p) + [s]
  }

  datatype PathHop = PathHop(visiting: TupleGNode, prevMigrating: Option<TupleGNode>)

  /** The hops of the request that visits `s`, root first, followed by `tail`. */
  function PathHopsOnto(s: SolutionStep, tail: seq<PathHop>): (hops: seq<PathHop>)
    ensures |hops| == Distance(s) + 1 + |tail|
    ensures hops[Distance(s)..] == [PathHop(s.visiting, s.prevMigrating)] + tail
  {
    var all := [PathHop(s.visiting, s.prevMigrating)] + tail;
    match s.parent
    case None => all
    case Some(p) =>
      var hops := PathHopsOnto(p, all);
      assert hops[Distance(s)..] == hops[Distance(p)..][1..];
      hops
  }

  /** The hops of a request are the steps of the chain, in order. */
  lemma {:induction false} HopsAreChain(s: SolutionStep, tail: seq<PathHop>, i: nat)
    requires i <= Distance(s)
    ensures PathHopsOnto(s, tail)[i] == PathHop(Chain(s)[i].visiting, Chain(s)[i].prevMigrating)
  {
    if i == Distance(s) {
      assert PathHopsOnto(s, tail)[i] == PathHopsOnto(s, tail)[Distance(s)..][0];
    } else {
      HopsAreChain(s.parent.value, [PathHop(s.visiting, s.prevMigrating)] + tail, i);
    }
  }

  method GetPathHops(s: SolutionStep) returns (hops: seq<PathHop>)
    ensures hops == PathHopsOnto(s, [])
    ensures forall i :: 0 <= i < |hops| ==> hops[i] == PathHop(Chain(s)[i].visiting, Chain(s)[i].prevMigrating)
  {
    forall i | 0 <= i <= Distance(s)
      ensures PathHopsOnto(s, [])[i] == PathHop(Chain(s)[i].visiting, Chain(s)[i].prevMigrating)
    {
      HopsAreChain(s, [], i);
    }
    var cur := s;
    hops := [];
    while cur.parent.Some?
      invariant PathHopsOnto(cur, hops) == PathHopsOnto(s, [])
      decreases cur
    {
      hops := [PathHop(cur.visiting, cur.prevMigrating)] + hops;
      cur := cur.parent.value;
    }
    hops := [PathHop(cur.visiting, cur.prevMigrating)] + hops;
  }

  /** An accepted migration path: its farthest step and the reserved final position. */
  datatype MigrationSolution = MigrationSolution(
    leaf: SolutionStep, finalHostLvl: nat, realNewPos: U32, realNewEldership: int)

  /** `cleanup_target`: the g-node a reservation is released against. */
  function CleanupTarget(sol: MigrationSolution, levels: nat): Option<TupleGNode> {
    sol.leaf.visiting.TruncateToLevel(sol.finalHostLvl, levels)
  }

  /** `s` is a step that prolongs `p`: the g-node migrating out of `p` is one of its members. */
  predicate Prolongs(s: SolutionStep, p: SolutionStep) {
    && s.parent == Some(p)
    && s.prevMigrating.Some?
    && |s.prevMigrating.value.pos| == |p.visiting.pos| + 1
    && s.prevMigrating.value.pos[1..] == p.visiting.pos
    && s.prevMigrating.value.eldership == [-1] + p.visiting.eldership
  }

  /** No step of `c` visits the g-node named by `pos`. */
  predicate NotVisitedIn(c: seq<SolutionStep>, pos: seq<U32>) {
    forall i :: 0 <= i < |c| ==> c[i].visiting.pos != pos
  }

  /** An explored step: consistent tuples, host levels that never fall along the chain, and no
      g-node visited twice. */
  predicate Explored(s: SolutionStep) {
    && |s.visiting.pos| == |s.visiting.eldership|
    && match s.parent
       case None => s.prevMigrating.None?
       case Some(p) =>
         && Explored(p)
         && Prolongs(s, p)
         && |s.visiting.pos| <= |p.visiting.pos|
         && NotVisitedIn(Chain(p), s.visiting.pos)
  }

  /** A queued step: like an explored one, but its own tuple is not yet truncated or checked. */
  predicate Queued(s: SolutionStep) {
    match s.parent
    case None => |s.visiting.pos| == |s.visiting.eldership| && s.prevMigrating.None?
    case Some(p) =>
      && Explored(p)
      && Prolongs(s, p)
      && |s.visiting.pos| == |p.visiting.pos|
      && NotVisitedIn(Chain(p), s.visiting.pos)
  }

  /** The chain of `s` starts at a g-node of the node whose full tuple is `own`. */
  predicate StartsAt(s: SolutionStep, own: TupleGNode) {
    match s.parent
    case Some(p) => StartsAt(p, own)
    case None =>
      && |s.visiting.pos| <= |own.pos| && s.visiting.pos == own.pos[|own.pos| - |s.visiting.pos|..]
      && |s.visiting.eldership| <= |own.eldership|
      && s.visiting.eldership == own.eldership[|own.eldership| - |s.visiting.eldership|..]
  }

  /** The first step of such a chain visits a g-node of that node. */
  lemma {:induction false} ChainStartsAt(s: SolutionStep, own: TupleGNode)
    requires StartsAt(s, own)
    ensures own.Contains(Chain(s)[0].visiting)
    ensures
      var e := Chain(s)[0].visiting.eldership;
      |e| <= |own.eldership| && e == own.eldership[|own.eldership| - |e|..]
  {
    if s.parent.Some? {
      ChainStartsAt(s.parent.value, own);
    }
  }

  lemma {:induction false} RootSizes(s: SolutionStep)
    requires Explored(s)
    ensures |Chain(s)[0].visiting.pos| == |Chain(s)[0].visiting.eldership|
  {
    if s.parent.Some? {
      RootSizes(s.parent.value);
    }
  }

  /** Host levels never fall towards the leaf. */
  lemma {:induction false} ChainShrinks(s: SolutionStep, i: nat)
    requires Explored(s)
    requires i < |Chain(s)|
    ensures |Chain(s)[i].visiting.pos| >= |s.visiting.pos|
  {
    if s.parent.Some? && i < |Chain(s)| - 1 {
      ChainShrinks(s.parent.value, i);
    }
  }

  /** Truncating a queued step to the level its g-node answered for makes it an explored one. */
  lemma TruncatedIsExplored(s: SolutionStep, t: TupleGNode, lvl: nat, levels: nat)
    requires Queued(s)
    requires s.visiting.TruncateToLevel(lvl, levels) == Some(t)
    ensures Explored(s.(visiting := t)) && Distance(s.(visiting := t)) == Distance(s)
    ensures forall own: TupleGNode :: StartsAt(s, own) && |own.pos| == |own.eldership| ==> StartsAt(s.(visiting := t), own)
  {
    if s.parent.Some? {
      var p := s.parent.value;
      forall i | 0 <= i < |Chain(p)| ensures Chain(p)[i].visiting.pos != t.pos {
        ChainShrinks(p, i);
      }
    }
  }

  /** Every solution the search returns has this shape. */
  predicate WellFormed(sol: MigrationSolution, levels: nat) {
    && Explored(sol.leaf)
    && |sol.leaf.visiting.pos| < levels
    && levels - |sol.leaf.visiting.pos| <= sol.finalHostLvl <= levels
  }

  /** The reservation of a rejected solution can always be released, at its final host level. */
  lemma CleanupTargetExists(sol: MigrationSolution, levels: nat)
    requires WellFormed(sol, levels)
    ensures CleanupTarget(sol, levels).Some?
    ensures CleanupTarget(sol, levels).value.Level(levels) == sol.finalHostLvl
    ensures sol.leaf.visiting.Contains(CleanupTarget(sol, levels).value)
  {
  }
}
