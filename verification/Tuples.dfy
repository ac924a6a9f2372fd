/**
  G-node tuples and the local view they are compared with
  (`crates/ntk-hooking/src/domain.rs`, `crates/ntk-hooking/src/view.rs`).
  Index 0 of a tuple is its innermost level, the last index the outermost.
 */
module Tuples {
  import opened Prelude

  /** `TupleGNode`: a g-node named by its positions from some level outwards. */
  datatype TupleGNode = TupleGNode(pos: seq<U32>, eldership: seq<int>)
  {
    /** The level the tuple starts at (a saturating subtraction). */
    function Level(levels: nat): nat {
      if |pos| <= levels then levels - |pos| else 0
    }

    predicate Contains(outside: TupleGNode) {
      |outside.pos| <= |pos| && pos[|pos| - |outside.pos|..] == outside.pos
    }

    function TruncateToLevel(target: nat, levels: nat): Option<TupleGNode> {
      if levels < target || |eldership| != |pos| || |pos| < levels - target then
        None
      else
        var todel := |pos| - (levels - target);
        Some(TupleGNode(pos[todel..], eldership[todel..]))
    }
  }

  /** The read-only local state the hooking code consults (`QspnView`). */
  datatype ViewData = ViewData(
    gsizes: seq<U32>, myPos: seq<U32>, myEldership: seq<int>, networkId: int, subnetlevel: nat)
  {
    function Levels(): nat { |gsizes| }
  }

  /** A topology has at least one level, no level of size zero, and the node has one position
      per level (`Topology::new`, `Naddr::new_allowing_virtual`). */
  type View = v: ViewData |
    && |v.gsizes| > 0
    && (forall i :: 0 <= i < |v.gsizes| ==> v.gsizes[i] > 0)
    && |v.myPos| == |v.gsizes|
    && |v.myEldership| == |v.gsizes|
    witness ViewData([1], [0], [0], 0, 0)

  datatype HCoord = HCoord(level: nat, pos: U32)

  /** The node's own tuple from level `l` outwards; empty when `l` is above the hierarchy. */
  function OwnTuple(l: nat, view: View): TupleGNode {
    if l <= view.Levels() then TupleGNode(view.myPos[l..], view.myEldership[l..])
    else TupleGNode([], [])
  }

  method MakeTupleFromLevel(l: nat, view: View) returns (t: TupleGNode)
    ensures t == OwnTuple(l, view)
  {
    var pos: seq<U32> := [];
    var eldership: seq<int> := [];
    var i := l;
    while i < view.Levels()
      invariant l <= i
      invariant l <= view.Levels() ==> i <= view.Levels() && pos == view.myPos[l..i] && eldership == view.myEldership[l..i]
      invariant l > view.Levels() ==> pos == [] && eldership == []
    {
      pos := pos + [view.myPos[i]];
      eldership := eldership + [view.myEldership[i]];
      i := i + 1;
    }
    t := TupleGNode(pos, eldership);
  }

  predicate IAmInside(t: TupleGNode, view: View) {
    OwnTuple(0, view).Contains(t)
  }

  /** `tuple_has_virtual_pos`: malformed, or some position is not below its level's g-node size. */
  predicate TupleHasVirtualPos(t: TupleGNode, gsizes: seq<U32>) {
    || |t.pos| > |gsizes|
    || (var d := |gsizes| - |t.pos|; exists i :: 0 <= i < |t.pos| && t.pos[i] >= gsizes[i + d])
  }

  /** `a` and the node's own address disagree at level `i`. */
  predicate DivergesAt(a: TupleGNode, view: View, i: int) {
    && |a.pos| <= view.Levels()
    && view.Levels() - |a.pos| <= i < view.Levels()
    && view.myPos[i] != a.pos[i - (view.Levels() - |a.pos|)]
  }

  /** The outermost divergence below level `n`. */
  function DivergenceBelow(a: TupleGNode, view: View, n: nat): (r: Option<HCoord>)
    requires |a.pos| <= view.Levels()
    requires view.Levels() - |a.pos| <= n <= view.Levels()
    ensures r.Some? ==> r.value.level < n && DivergesAt(a, view, r.value.level)
    ensures r.Some? ==> forall j :: r.value.level < j < n ==> !DivergesAt(a, view, j)
    ensures r.Some? ==> r.value.pos == a.pos[r.value.level - (view.Levels() - |a.pos|)]
    ensures r.None? ==> forall j :: 0 <= j < n ==> !DivergesAt(a, view, j)
  {
    var d := view.Levels() - |a.pos|;
    if n == d then None
    else if view.myPos[n - 1] != a.pos[n - 1 - d] then Some(HCoord(n - 1, a.pos[n - 1 - d]))
    else DivergenceBelow(a, view, n - 1)
  }

  function Divergence(a: TupleGNode, view: View): Option<HCoord> {
    if |a.pos| == 0 || |a.pos| > view.Levels() then None
    else DivergenceBelow(a, view, view.Levels())
  }

  /** `tuple_to_hc`: where a message for `a` has to be sent, walking from the outermost level. */
  method TupleToHc(a: TupleGNode, view: View) returns (r: Option<HCoord>)
    ensures r == Divergence(a, view)
  {
    if |a.pos| == 0 || |a.pos| > view.Levels() {
      return None;
    }
    var i, j := view.Levels(), |a.pos|;
    while i > 0 && j > 0
      invariant 0 <= j <= |a.pos| && i == j + (view.Levels() - |a.pos|)
      invariant DivergenceBelow(a, view, i) == Divergence(a, view)
    {
      i := i - 1;
      j := j - 1;
      if view.myPos[i] != a.pos[j] {
        return Some(HCoord(i, a.pos[j]));
      }
    }
    return None;
  }

  /** `i_am_inside` and `tuple_to_hc` answer complementary questions exactly for tuples that fit
      the hierarchy; a longer tuple is neither inside nor routable. */
  lemma InsideIffNoDivergence(t: TupleGNode, view: View)
    ensures (IAmInside(t, view) <==> Divergence(t, view).None?) <==> |t.pos| <= view.Levels()
  {
    if |t.pos| <= view.Levels() {
      var d := view.Levels() - |t.pos|;
      assert OwnTuple(0, view).pos == view.myPos;
      if IAmInside(t, view) {
        forall i | d <= i < view.Levels() ensures !DivergesAt(t, view, i) {
          assert view.myPos[d..][i - d] == t.pos[i - d];
        }
      }
      if Divergence(t, view).None? {
        if |t.pos| == 0 {
          assert view.myPos[d..] == t.pos;
        } else {
          forall k | 0 <= k < |t.pos| ensures view.myPos[d..][k] == t.pos[k] {
            assert !DivergesAt(t, view, d + k);
          }
          assert view.myPos[d..] == t.pos;
        }
      }
    }
  }

  /** Truncation keeps the outer positions, so the truncated g-node contains the original. */
  lemma TruncateContains(t: TupleGNode, target: nat, levels: nat)
    requires t.TruncateToLevel(target, levels).Some?
    ensures var r := t.TruncateToLevel(target, levels).value;
      t.Contains(r) && r.Level(levels) == target && |r.pos| == |r.eldership|
  {
  }
}
