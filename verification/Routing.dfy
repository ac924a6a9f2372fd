/**
  The deliver-or-forward rule shared by the `route_*` handlers
  (`crates/ntk-hooking/src/routing.rs`) and how far a message can travel under it.
 */
module Routing {
  import opened Prelude
  import opened Tuples

  datatype Action = Deliver | Forward(to: HCoord) | Drop

  /** What every `route_*` handler does with a message for `target`. */
  function Route(target: TupleGNode, view: View): Action {
    if IAmInside(target, view) then Deliver
    else match Divergence(target, view)
      case Some(hc) => Forward(hc)
      case None => Drop
  }

  /** A message is dropped for want of a direction exactly when its tuple does not fit. */
  lemma DroppedIffTooLong(target: TupleGNode, view: View)
    ensures Route(target, view).Drop? <==> |target.pos| > view.Levels()
  {
    InsideIffNoDivergence(target, view);
  }

  /** `w` lies in the g-node of level `hc.level + 1` that `v` itself belongs to. */
  predicate SameOuterGnode(w: View, v: View, hc: HCoord) {
    w.Levels() == v.Levels() && forall j :: hc.level < j < v.Levels() ==> w.myPos[j] == v.myPos[j]
  }

  /** `w` lies in the g-node that `v` denotes by `hc`. */
  predicate InGnode(w: View, v: View, hc: HCoord) {
    SameOuterGnode(w, v, hc) && hc.level < v.Levels() && w.myPos[hc.level] == hc.pos
  }

  /** 0 once delivered, otherwise one more than the number of tuple levels below the divergence. */
  function Rank(target: TupleGNode, view: View): (r: nat)
    ensures |target.pos| <= view.Levels() ==> r <= |target.pos|
  {
    match Divergence(target, view)
    case None => 0
    case Some(hc) => hc.level + 1 - (view.Levels() - |target.pos|)
  }

  /** Relaying inside the own g-node never raises the rank; reaching the g-node the message was
      forwarded to strictly lowers it. */
  lemma HopRank(target: TupleGNode, v: View, w: View, hc: HCoord)
    requires Divergence(target, v) == Some(hc)
    requires SameOuterGnode(w, v, hc)
    ensures Rank(target, w) <= Rank(target, v)
    ensures InGnode(w, v, hc) ==> Rank(target, w) < Rank(target, v)
  {
    forall j | hc.level < j < w.Levels() ensures !DivergesAt(target, w, j) {
      assert !DivergesAt(target, v, j);
    }
    if InGnode(w, v, hc) {
      assert !DivergesAt(target, w, hc.level);
    }
  }

  /** A walk of a message: every node but the last forwards it, to a node of its own outer g-node
      (a relay) or to one inside the g-node it is addressed to. */
  predicate Walk(path: seq<View>, target: TupleGNode) {
    forall i :: 0 <= i < |path| - 1 ==>
      Route(target, path[i]).Forward? && SameOuterGnode(path[i + 1], path[i], Route(target, path[i]).to)
  }

  /** How many hops of a walk enter the g-node they were forwarded to. */
  ghost function Crossings(path: seq<View>, target: TupleGNode): nat
    requires Walk(path, target)
  {
    if |path| <= 1 then 0
    else
      (if InGnode(path[1], path[0], Route(target, path[0]).to) then 1 else 0) + Crossings(path[1..], target)
  }

  /** No message crosses more g-nodes than its tuple names levels, whatever the relays do. */
  lemma {:induction false} CrossingsBounded(path: seq<View>, target: TupleGNode)
    requires |path| > 0
    requires Walk(path, target)
    ensures Crossings(path, target) + Rank(target, path[|path| - 1]) <= Rank(target, path[0])
    ensures |target.pos| <= path[0].Levels() ==> Crossings(path, target) <= |target.pos| <= path[0].Levels()
  {
    if |path| > 1 {
      HopRank(target, path[0], path[1], Route(target, path[0]).to);
      assert Walk(path[1..], target);
      CrossingsBounded(path[1..], target);
    }
  }
}
