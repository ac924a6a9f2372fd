/**
  Turning a solution into migrations: `get_migs`, the prepare/finish packets, `execute_shortest_mig`,
  `execute_mig` and `resolve_entry_data` (`crates/ntk-hooking/src/search.rs`).
 */
module Migration {
  import opened Prelude
  import opened Tuples
  import opened SearchStep
  import opened Search

  /** One hop: `migGnode` leaves its place for a position inside `hostGnode`. */
  datatype MigData = MigData(
    migrationId: int,
    migGnode: TupleGNode,
    connGnodePos: int,
    prevMigGnodeNewEldership: int,
    hostGnode: TupleGNode,
    migGnodeNewPos: Option<U32>,
    finalNewPos: Option<U32>,
    finalNewEldership: Option<int>)

  datatype MigOp = PrepareMigration | FinishMigration

  datatype RequestPacket = RequestPacket(
    dest: TupleGNode, operation: MigOp, migrationId: int, connGnodePos: int,
    hostGnode: TupleGNode, realNewPos: int, realNewEldership: int)

  datatype EntryData = EntryData(networkId: int, pos: seq<U32>, elderships: seq<int>)

  /** `p as i32`: reinterprets the 32 bits as a signed value. */
  function AsI32(p: U32): int {
    if p < 0x8000_0000 then p else p - 0x1_0000_0000
  }

  /** `i32::try_from(p).unwrap_or(-1)`. */
  function TryI32(p: U32): int {
    if p < 0x8000_0000 then p else -1
  }

  function OrMinusOne(o: Option<int>): int {
    if o.Some? then o.value else -1
  }

  // ---------------------------------------------------------------- the chain of a solution

  /** Step `i` of a chain prolongs step `i - 1`. */
  lemma {:induction false} ChainLink(s: SolutionStep, i: nat)
    requires Explored(s)
    requires 0 < i < |Chain(s)|
    ensures Prolongs(Chain(s)[i], Chain(s)[i - 1])
    ensures Chain(Chain(s)[i]) == Chain(s)[..i + 1]
    ensures Explored(Chain(s)[i])
  {
    var p := s.parent.value;
    if i < |Chain(s)| - 1 {
      ChainLink(p, i);
      assert Chain(s)[..i + 1] == Chain(p)[..i + 1];
    } else {
      assert Chain(s)[..i + 1] == Chain(s);
    }
  }

  /** No g-node is visited twice on the way to a solution. */
  lemma {:induction false} ChainDistinct(s: SolutionStep, i: nat, j: nat)
    requires Explored(s)
    requires i < j < |Chain(s)|
    ensures Chain(s)[i].visiting.pos != Chain(s)[j].visiting.pos
  {
    if j < |Chain(s)| - 1 {
      ChainDistinct(s.parent.value, i, j);
    }
  }

  /** The hop made by step `ss`, where `next` is the step after it (none for the farthest hop). */
  function HopOf(
    sol: MigrationSolution, levels: nat, id: int, ss: SolutionStep, next: Option<SolutionStep>): MigData
    requires WellFormed(sol, levels)
    requires ss.prevMigrating.Some?
    requires next.None? ==> ss == sol.leaf
  {
    var toremove := if next.None? then |ss.visiting.pos| - (levels - sol.finalHostLvl) else 0;
    MigData(
      id,
      ss.prevMigrating.value,
      if ss.prevNewConnVirPos.Some? then AsI32(ss.prevNewConnVirPos.value) else -1,
      OrMinusOne(ss.prevNewEldership),
      if next.None? then TupleGNode(ss.visiting.pos[toremove..], ss.visiting.eldership[toremove..]) else ss.visiting,
      if next.Some? && next.value.prevMigrating.Some? && |next.value.prevMigrating.value.pos| > 0
      then Some(next.value.prevMigrating.value.pos[0]) else None,
      if next.None? then Some(sol.realNewPos) else None,
      if next.None? then Some(sol.realNewEldership) else None)
  }

  /** Hop `i` of a solution, counted from the entrant. */
  function MigAt(sol: MigrationSolution, levels: nat, ids: nat -> int, i: nat): MigData
    requires WellFormed(sol, levels)
    requires i < Distance(sol.leaf)
  {
    var c := Chain(sol.leaf);
    var d := Distance(sol.leaf);
    ChainLink(sol.leaf, i + 1);
    HopOf(sol, levels, ids(d - 1 - i), c[i + 1], if i == d - 1 then None else Some(c[i + 2]))
  }

  /** Hops `k` and farther. */
  function MigsFrom(sol: MigrationSolution, levels: nat, ids: nat -> int, k: nat): (migs: seq<MigData>)
    requires WellFormed(sol, levels)
    requires k <= Distance(sol.leaf)
    ensures |migs| == Distance(sol.leaf) - k
    ensures forall i :: k <= i < Distance(sol.leaf) ==> migs[i - k] == MigAt(sol, levels, ids, i)
    decreases Distance(sol.leaf) - k
  {
    if k == Distance(sol.leaf) then []
    else [MigAt(sol, levels, ids, k)] + MigsFrom(sol, levels, ids, k + 1)
  }

  /** `get_migs`: walks from the leaf to the root, prepending one hop per step. None of its
      subtractions, drains or unwraps can fail on a solution of the search. */
  method GetMigs(sol: MigrationSolution, levels: nat, ids: nat -> int) returns (migs: seq<MigData>)
    requires WellFormed(sol, levels)
    requires sol.leaf.parent.Some?
    ensures migs == MigsFrom(sol, levels, ids, 0)
  {
    migs := [];
    var ssPrev: Option<SolutionStep> := None;
    var ss := sol.leaf;
    ghost var c := Chain(sol.leaf);
    ghost var d := Distance(sol.leaf);
    ghost var k := d;
    while ss.parent.Some?
      invariant k == Distance(ss) <= d && ss == c[k] && Explored(ss)
      invariant ssPrev == if k == d then None else Some(c[k + 1])
      invariant migs == MigsFrom(sol, levels, ids, k)
      decreases ss
    {
      ChainLink(sol.leaf, k);
      var mig := HopOf(sol, levels, ids(|migs|), ss, ssPrev);
      assert mig == MigAt(sol, levels, ids, k - 1);
      migs := [mig] + migs;
      ssPrev := Some(ss);
      ss := ss.parent.value;
      k := k - 1;
    }
  }

  function BuildPrepare(mig: MigData): RequestPacket {
    RequestPacket(mig.migGnode, PrepareMigration, mig.migrationId, -1, TupleGNode([], []), -1, -1)
  }

  function BuildFinish(mig: MigData, next: Option<MigData>): RequestPacket
    requires next.None? ==> mig.finalNewPos.Some? && mig.finalNewEldership.Some?
  {
    RequestPacket(
      mig.migGnode, FinishMigration, mig.migrationId, mig.connGnodePos, mig.hostGnode,
      if next.None? then TryI32(mig.finalNewPos.value)
      else if mig.migGnodeNewPos.Some? then AsI32(mig.migGnodeNewPos.value) else -1,
      if next.None? then mig.finalNewEldership.value else next.value.prevMigGnodeNewEldership)
  }

  /** What the node that receives a packet asks its coordinator to propagate. */
  datatype MigEffect =
    | Prepared(lvl: nat, migrationId: int)
    | Finished(lvl: nat, migrationId: int, pos: seq<U32>, elderships: seq<int>, goConnectivityPosition: U32)
    | Ignored

  /** `execute_mig`. */
  function ExecuteMig(pkt: RequestPacket, levels: nat): MigEffect {
    var lvl := pkt.dest.Level(levels);
    match pkt.operation
    case PrepareMigration => Prepared(lvl, pkt.migrationId)
    case FinishMigration =>
      if 0 <= pkt.realNewPos < 0x8000_0000 && 0 <= pkt.connGnodePos < 0x8000_0000 then
        Finished(
          lvl, pkt.migrationId, [pkt.realNewPos] + pkt.hostGnode.pos,
          [pkt.realNewEldership] + pkt.hostGnode.eldership, pkt.connGnodePos)
      else Ignored
  }

  // ---------------------------------------------------------------- executing a solution

  predicate IsMigList(migs: seq<MigData>, sol: MigrationSolution, levels: nat, ids: nat -> int) {
    && WellFormed(sol, levels)
    && |migs| == Distance(sol.leaf) > 0
    && forall i :: 0 <= i < |migs| ==> migs[i] == MigAt(sol, levels, ids, i)
  }

  function FinishAt(migs: seq<MigData>, i: nat): RequestPacket
    requires i < |migs|
    requires HasFinal(migs)
  {
    BuildFinish(migs[i], if i == |migs| - 1 then None else Some(migs[i + 1]))
  }

  /** Packet `k` of a full execution: all prepares, then all finishes, each farthest hop first. */
  function PlanAt(migs: seq<MigData>, k: nat): RequestPacket
    requires k < 2 * |migs|
    requires HasFinal(migs)
  {
    if k < |migs| then BuildPrepare(migs[|migs| - 1 - k])
    else FinishAt(migs, 2 * |migs| - 1 - k)
  }

  predicate HasFinal(migs: seq<MigData>) {
    |migs| > 0 && migs[|migs| - 1].finalNewPos.Some? && migs[|migs| - 1].finalNewEldership.Some?
  }

  /** How an execution ends; dropped at an await when the budget of awaits is used up. */
  datatype Executed = Completed | Failed | Dropped

  /** `sent` is the plan up to and including the first packet that is not acknowledged, or not answered
      within the budget. */
  predicate SentInOrder(migs: seq<MigData>, ack: nat -> bool, budget: nat, o: Executed, sent: seq<RequestPacket>)
    requires HasFinal(migs)
  {
    && |sent| <= 2 * |migs|
    && (forall k :: 0 <= k < |sent| ==> sent[k] == PlanAt(migs, k))
    && (forall k :: 0 <= k < |sent| - 1 ==> ack(k))
    && match o
       case Completed => |sent| <= budget && forall k :: 0 <= k < |sent| ==> ack(k)
       case Failed => 0 < |sent| <= budget && !ack(|sent| - 1)
       case Dropped => |sent| == budget + 1
  }

  /** The fate of the packet just sent. */
  function Fate(ack: nat -> bool, budget: nat, k: nat): Executed {
    if k >= budget then Dropped else if ack(k) then Completed else Failed
  }

  method SendPrepares(migs: seq<MigData>, ack: nat -> bool, budget: nat) returns (o: Executed, sent: seq<RequestPacket>)
    requires HasFinal(migs)
    ensures SentInOrder(migs, ack, budget, o, sent)
    ensures o.Completed? ==> |sent| == |migs|
  {
    o, sent := Completed, [];
    var i := |migs|;
    while i > 0
      invariant o.Completed? && 0 <= i <= |migs| && |sent| == |migs| - i
      invariant SentInOrder(migs, ack, budget, o, sent)
    {
      i := i - 1;
      sent := sent + [BuildPrepare(migs[i])];
      o := Fate(ack, budget, |sent| - 1);
      if !o.Completed? {
        return;
      }
    }
  }

  /** `execute_shortest_mig` against a network that acknowledges call `k` iff `ack(k)`, dropped at the
      await after the first `budget` ones: it sends the plan in order, stops at the first failure, and
      completes only when all of it was acknowledged. */
  method ExecuteShortestMig(sol: MigrationSolution, levels: nat, ids: nat -> int, ack: nat -> bool, budget: nat)
    returns (o: Executed, sent: seq<RequestPacket>, migs: seq<MigData>)
    requires WellFormed(sol, levels)
    requires sol.leaf.parent.Some?
    ensures IsMigList(migs, sol, levels, ids)
    ensures HasFinal(migs) && SentInOrder(migs, ack, budget, o, sent)
    ensures o.Completed? ==> |sent| == 2 * |migs|
  {
    migs := GetMigs(sol, levels, ids);
    assert migs[|migs| - 1] == MigAt(sol, levels, ids, |migs| - 1);
    o, sent := SendPrepares(migs, ack, budget);
    if o.Completed? {
      o, sent := SendFinishes(migs, ack, budget, sent);
    }
  }

  method SendFinishes(migs: seq<MigData>, ack: nat -> bool, budget: nat, prepared: seq<RequestPacket>)
    returns (o: Executed, sent: seq<RequestPacket>)
    requires HasFinal(migs)
    requires |prepared| == |migs| && SentInOrder(migs, ack, budget, Completed, prepared)
    ensures SentInOrder(migs, ack, budget, o, sent)
    ensures o.Completed? ==> |sent| == 2 * |migs|
  {
    sent := prepared + [BuildFinish(migs[|migs| - 1], None)];
    o := Fate(ack, budget, |sent| - 1);
    if !o.Completed? {
      return;
    }
    var i := |migs| - 1;
    while i > 0
      invariant o.Completed? && 0 <= i < |migs| && |sent| == 2 * |migs| - i
      invariant SentInOrder(migs, ack, budget, o, sent)
    {
      i := i - 1;
      sent := sent + [BuildFinish(migs[i], Some(migs[i + 1]))];
      o := Fate(ack, budget, |sent| - 1);
      if !o.Completed? {
        return;
      }
    }
  }

  /** The first hop's old place, with the eldership reserved in the root's g-node. */
  function WalkedEntry(sol: MigrationSolution, networkId: int): EntryData
    requires Explored(sol.leaf) && Distance(sol.leaf) > 0
  {
    var c := Chain(sol.leaf);
    ChainLink(sol.leaf, 1);
    EntryData(
      networkId,
      [c[1].prevMigrating.value.pos[0]] + c[0].visiting.pos,
      [OrMinusOne(c[1].prevNewEldership)] + c[0].visiting.eldership)
  }

  /** The address offered lies in a g-node of the server, with that g-node's elderships and the eldership
      reserved for the entrant: the very place that was reserved if nobody has to move, a place of the
      root g-node otherwise. */
  predicate InOwnGnode(e: EntryData, sol: MigrationSolution, view: View)
    requires WellFormed(sol, view.Levels())
  {
    && e.pos != [] && |e.elderships| == |e.pos| <= view.Levels() + 1
    && OwnTuple(0, view).Contains(TupleGNode(e.pos[1..], []))
    && e.elderships[1..] == view.myEldership[view.Levels() + 1 - |e.elderships|..]
    && e.elderships[0] == (if Distance(sol.leaf) == 0 then sol.realNewEldership
                           else OrMinusOne(Chain(sol.leaf)[1].prevNewEldership))
    && (Distance(sol.leaf) == 0 ==>
          CleanupTarget(sol, view.Levels()).Some? && e.pos == [sol.realNewPos] + CleanupTarget(sol, view.Levels()).value.pos)
  }

  lemma DirectEntryInOwnGnode(sol: MigrationSolution, view: View, e: EntryData)
    requires WellFormed(sol, view.Levels()) && StartsAt(sol.leaf, OwnTuple(0, view)) && Distance(sol.leaf) == 0
    requires e.pos == [sol.realNewPos] + OwnTuple(sol.finalHostLvl, view).pos
    requires e.elderships == [sol.realNewEldership] + OwnTuple(sol.finalHostLvl, view).eldership
    ensures InOwnGnode(e, sol, view)
  {
    var host := OwnTuple(sol.finalHostLvl, view);
    assert OwnTuple(0, view).pos == view.myPos;
    CleanupTargetExists(sol, view.Levels());
    assert CleanupTarget(sol, view.Levels()).value.pos == host.pos;
    assert e.pos[1..] == host.pos && e.elderships[1..] == host.eldership;
  }

  lemma WalkedEntryInOwnGnode(sol: MigrationSolution, view: View)
    requires WellFormed(sol, view.Levels()) && StartsAt(sol.leaf, OwnTuple(0, view)) && Distance(sol.leaf) > 0
    ensures InOwnGnode(WalkedEntry(sol, view.networkId), sol, view)
  {
    var e := WalkedEntry(sol, view.networkId);
    var root := Chain(sol.leaf)[0].visiting;
    assert OwnTuple(0, view).eldership == view.myEldership;
    ChainStartsAt(sol.leaf, OwnTuple(0, view));
    RootSizes(sol.leaf);
    assert e.pos[1..] == root.pos && e.elderships[1..] == root.eldership;
  }

  lemma EntryInOwnGnode(sol: MigrationSolution, view: View)
    requires WellFormed(sol, view.Levels()) && StartsAt(sol.leaf, OwnTuple(0, view))
    ensures Distance(sol.leaf) == 0 ==>
      var host := OwnTuple(sol.finalHostLvl, view);
      InOwnGnode(EntryData(view.networkId, [sol.realNewPos] + host.pos, [sol.realNewEldership] + host.eldership), sol, view)
    ensures Distance(sol.leaf) > 0 ==> InOwnGnode(WalkedEntry(sol, view.networkId), sol, view)
  {
    if Distance(sol.leaf) == 0 {
      var host := OwnTuple(sol.finalHostLvl, view);
      DirectEntryInOwnGnode(
        sol, view, EntryData(view.networkId, [sol.realNewPos] + host.pos, [sol.realNewEldership] + host.eldership));
    } else {
      WalkedEntryInOwnGnode(sol, view);
    }
  }

  /** `resolve_entry_data`: the address offered to the entering g-node. */
  method ResolveEntryData(sol: MigrationSolution, view: View) returns (e: EntryData)
    requires Explored(sol.leaf)
    ensures Distance(sol.leaf) == 0 ==>
      var host := OwnTuple(sol.finalHostLvl, view);
      e == EntryData(view.networkId, [sol.realNewPos] + host.pos, [sol.realNewEldership] + host.eldership)
    ensures Distance(sol.leaf) > 0 ==> e == WalkedEntry(sol, view.networkId)
    ensures WellFormed(sol, view.Levels()) && StartsAt(sol.leaf, OwnTuple(0, view)) ==> InOwnGnode(e, sol, view)
  {
    if WellFormed(sol, view.Levels()) && StartsAt(sol.leaf, OwnTuple(0, view)) {
      EntryInOwnGnode(sol, view);
    }
    var distance := ComputeDistance(sol.leaf);
    if distance == 0 {
      var host := MakeTupleFromLevel(sol.finalHostLvl, view);
      return EntryData(view.networkId, [sol.realNewPos] + host.pos, [sol.realNewEldership] + host.eldership);
    }
    ghost var c := Chain(sol.leaf);
    var root := sol.leaf.parent.value;
    var second := sol.leaf;
    assert c[|c| - 2] == root;
    while root.parent.Some?
      invariant Distance(root) < |c| - 1 && root == c[Distance(root)] && second == c[Distance(root) + 1]
      invariant second.parent == Some(root)
      decreases root
    {
      ghost var k := Distance(root);
      ChainLink(sol.leaf, k);
      assert c[k - 1] == root.parent.value;
      root := root.parent.value;
      second := second.parent.value;
    }
    ChainLink(sol.leaf, 1);
    var prev := second.prevMigrating.value;
    e := EntryData(
      view.networkId, [prev.pos[0]] + root.visiting.pos,
      [OrMinusOne(second.prevNewEldership)] + root.visiting.eldership);
  }

  // ---------------------------------------------------------------- the shift

  /** Every position that travels in a packet fits a signed 32-bit field. */
  predicate PositionsFit(sol: MigrationSolution)
    requires Explored(sol.leaf)
  {
    && sol.realNewPos < 0x8000_0000
    && forall i :: 0 < i < |Chain(sol.leaf)| ==>
         var s := Chain(sol.leaf)[i];
         && s.prevMigrating.Some? && |s.prevMigrating.value.pos| > 0 && s.prevMigrating.value.pos[0] < 0x8000_0000
         && (s.prevNewConnVirPos.Some? ==> s.prevNewConnVirPos.value < 0x8000_0000)
  }

  /** The address a finish packet assigns. */
  function AssignedAddress(pkt: RequestPacket): seq<int> {
    [pkt.realNewPos] + pkt.hostGnode.pos
  }

  ghost function OldAddresses(migs: seq<MigData>): seq<seq<int>> {
    seq(|migs|, i requires 0 <= i < |migs| => migs[i].migGnode.pos)
  }

  ghost function NewAddresses(migs: seq<MigData>): seq<seq<int>>
    requires HasFinal(migs)
  {
    seq(|migs|, i requires 0 <= i < |migs| => AssignedAddress(FinishAt(migs, i)))
  }

  /** The g-node of a hop is the border member of the g-node the chain visits before it. */
  lemma MigGnodeIsMember(migs: seq<MigData>, sol: MigrationSolution, levels: nat, ids: nat -> int, i: nat)
    requires IsMigList(migs, sol, levels, ids)
    requires i < |migs|
    ensures |migs[i].migGnode.pos| > 0
    ensures migs[i].migGnode.pos == [migs[i].migGnode.pos[0]] + Chain(sol.leaf)[i].visiting.pos
    ensures Some(migs[i].migGnode) == Chain(sol.leaf)[i + 1].prevMigrating
  {
    ChainLink(sol.leaf, i + 1);
    var g := migs[i].migGnode;
    assert g.pos == [g.pos[0]] + g.pos[1..];
  }

  /** The place of a hop: that of the successor it follows, or the reserved one for the farthest. */
  lemma HopTakesNextPlace(migs: seq<MigData>, sol: MigrationSolution, levels: nat, ids: nat -> int, i: nat)
    requires IsMigList(migs, sol, levels, ids) && HasFinal(migs)
    requires PositionsFit(sol)
    requires i < |migs|
    ensures i < |migs| - 1 ==> AssignedAddress(FinishAt(migs, i)) == migs[i + 1].migGnode.pos
    ensures i == |migs| - 1 ==>
      Some(AssignedAddress(FinishAt(migs, i))[1..]) ==
      (match CleanupTarget(sol, levels) case None => None case Some(t) => Some(t.pos))
    ensures i == |migs| - 1 ==> AssignedAddress(FinishAt(migs, i))[0] == sol.realNewPos
  {
    if i < |migs| - 1 {
      MigGnodeIsMember(migs, sol, levels, ids, i + 1);
      assert migs[i].migGnodeNewPos == Some(migs[i + 1].migGnode.pos[0]);
      assert Chain(sol.leaf)[i + 2].prevMigrating.value.pos[0] < 0x8000_0000;
    } else {
      CleanupTargetExists(sol, levels);
    }
  }

  /** Executing a solution is an exact shift: the entrant takes the place of the first hop, every
      hop the place its successor vacates, the farthest hop the reserved position. */
  lemma ExactShift(migs: seq<MigData>, sol: MigrationSolution, levels: nat, ids: nat -> int, networkId: int)
    requires IsMigList(migs, sol, levels, ids) && HasFinal(migs)
    requires PositionsFit(sol)
    ensures CleanupTarget(sol, levels).Some?
    ensures [WalkedEntry(sol, networkId).pos] + NewAddresses(migs)
         == OldAddresses(migs) + [[sol.realNewPos] + CleanupTarget(sol, levels).value.pos]
  {
    CleanupTargetExists(sol, levels);
    MigGnodeIsMember(migs, sol, levels, ids, 0);
    var final := [sol.realNewPos] + CleanupTarget(sol, levels).value.pos;
    var given := NewAddresses(migs);
    forall i | 0 <= i < |migs| ensures given[i] == (OldAddresses(migs) + [final])[i + 1] {
      HopTakesNextPlace(migs, sol, levels, ids, i);
      assert given[i] == [given[i][0]] + given[i][1..];
    }
  }

  /** No two hops leave from, and so no two hops are sent to, the same place. */
  lemma HopsDistinct(migs: seq<MigData>, sol: MigrationSolution, levels: nat, ids: nat -> int, i: nat, j: nat)
    requires IsMigList(migs, sol, levels, ids)
    requires i < j < |migs|
    ensures OldAddresses(migs)[i] != OldAddresses(migs)[j]
  {
    MigGnodeIsMember(migs, sol, levels, ids, i);
    MigGnodeIsMember(migs, sol, levels, ids, j);
    ChainDistinct(sol.leaf, i, j);
    assert migs[i].migGnode.pos[1..] == Chain(sol.leaf)[i].visiting.pos;
    assert migs[j].migGnode.pos[1..] == Chain(sol.leaf)[j].visiting.pos;
  }

  /** The elderships that travel with a hop's new place: outside the place itself they are those of the
      successor it follows, or of the g-node that holds the reserved place. */
  lemma HopTakesElderships(migs: seq<MigData>, sol: MigrationSolution, levels: nat, ids: nat -> int, i: nat)
    requires IsMigList(migs, sol, levels, ids) && HasFinal(migs) && i < |migs|
    ensures i < |migs| - 1 ==>
      |migs[i + 1].migGnode.eldership| > 0 && FinishAt(migs, i).hostGnode.eldership == migs[i + 1].migGnode.eldership[1..]
    ensures i == |migs| - 1 ==>
      CleanupTarget(sol, levels).Some? && FinishAt(migs, i).hostGnode == CleanupTarget(sol, levels).value
  {
    if i < |migs| - 1 {
      ChainLink(sol.leaf, i + 2);
    } else {
      CleanupTargetExists(sol, levels);
    }
  }

  /** The two packets of hop `i` in a completed execution: both go to the g-node the chain migrates there,
      under one migration id; the first prepares that g-node at its own level, the second finishes it, and
      no packet of another hop goes to it. */
  lemma HopPackets(
    migs: seq<MigData>, sol: MigrationSolution, levels: nat, ids: nat -> int, ack: nat -> bool, budget: nat,
    sent: seq<RequestPacket>, i: nat)
    requires IsMigList(migs, sol, levels, ids) && HasFinal(migs) && i < |migs|
    requires SentInOrder(migs, ack, budget, Completed, sent) && |sent| == 2 * |migs|
    ensures
      var d := Distance(sol.leaf);
      var leaving := Chain(sol.leaf)[i + 1].prevMigrating;
      var prepare, finish := sent[d - 1 - i], sent[2 * d - 1 - i];
      && leaving.Some? && prepare.dest == finish.dest == leaving.value
      && prepare.migrationId == finish.migrationId
      && prepare.operation.PrepareMigration? && finish.operation.FinishMigration?
      && ExecuteMig(prepare, levels) == Prepared(leaving.value.Level(levels), finish.migrationId)
      && forall k :: 0 <= k < |sent| && sent[k].dest.pos == leaving.value.pos ==> k == d - 1 - i || k == 2 * d - 1 - i
  {
    MigGnodeIsMember(migs, sol, levels, ids, i);
    var d := |migs|;
    assert sent[d - 1 - i] == PlanAt(migs, d - 1 - i);
    assert sent[2 * d - 1 - i] == PlanAt(migs, 2 * d - 1 - i);
    forall k | 0 <= k < |sent| && sent[k].dest.pos == migs[i].migGnode.pos
      ensures k == d - 1 - i || k == 2 * d - 1 - i
    {
      var j := if k < d then d - 1 - k else 2 * d - 1 - k;
      assert sent[k] == PlanAt(migs, k) && sent[k].dest == migs[j].migGnode;
      if i < j {
        HopsDistinct(migs, sol, levels, ids, i, j);
      } else if j < i {
        HopsDistinct(migs, sol, levels, ids, j, i);
      }
    }
  }

  /** The receiver of a finish packet ignores it exactly when a position it carries is missing or
      does not fit; otherwise it assigns the packet's address to the g-node at its own level. */
  lemma FinishIgnoredIff(migs: seq<MigData>, sol: MigrationSolution, levels: nat, ids: nat -> int, i: nat)
    requires IsMigList(migs, sol, levels, ids) && HasFinal(migs)
    requires i < |migs|
    ensures FinishAt(migs, i).realNewEldership ==
      if i == |migs| - 1 then sol.realNewEldership else OrMinusOne(Chain(sol.leaf)[i + 2].prevNewEldership)
    ensures var s := Chain(sol.leaf)[i + 1];
      var given := if i == |migs| - 1 then Some(sol.realNewPos) else migs[i].migGnodeNewPos;
      var effect := ExecuteMig(FinishAt(migs, i), levels);
      && (effect.Ignored? <==>
            || s.prevNewConnVirPos.None? || s.prevNewConnVirPos.value >= 0x8000_0000
            || given.None? || given.value >= 0x8000_0000)
      && (!effect.Ignored? ==>
            && effect.Finished?
            && effect.pos == AssignedAddress(FinishAt(migs, i))
            && effect.elderships == [FinishAt(migs, i).realNewEldership] + migs[i].hostGnode.eldership
            && effect.goConnectivityPosition == s.prevNewConnVirPos.value
            && effect.lvl == migs[i].migGnode.Level(levels))
  {
    if i < |migs| - 1 {
      MigGnodeIsMember(migs, sol, levels, ids, i + 1);
      ChainLink(sol.leaf, i + 2);
    }
  }

  lemma {:induction false} HonestLink(s: SolutionStep, gsizes: seq<U32>, i: nat)
    requires HonestChain(s, gsizes)
    requires 0 < i < |Chain(s)|
    ensures var c := Chain(s);
      && c[i].prevNewConnVirPos.Some?
      && c[i].prevNewConnVirPos.value >= HostSize(gsizes, c[i - 1].visiting.Level(|gsizes|))
      && !TupleHasVirtualPos(c[i - 1].visiting, gsizes)
  {
    if i < |Chain(s)| - 1 {
      HonestLink(s.parent.value, gsizes, i);
    }
  }

  /** With honest answers no finish packet is ignored, and the g-node keeps a connectivity position
      that is virtual in the g-node it leaves. */
  lemma HonestFinishApplied(
    migs: seq<MigData>, sol: MigrationSolution, gsizes: seq<U32>, ids: nat -> int, i: nat)
    requires IsMigList(migs, sol, |gsizes|, ids) && HasFinal(migs)
    requires PositionsFit(sol) && RealSolution(sol, gsizes)
    requires i < |migs|
    ensures var effect := ExecuteMig(FinishAt(migs, i), |gsizes|);
      && effect.Finished?
      && effect.goConnectivityPosition >= HostSize(gsizes, Chain(sol.leaf)[i].visiting.Level(|gsizes|))
  {
    HonestLink(sol.leaf, gsizes, i + 1);
    FinishIgnoredIff(migs, sol, |gsizes|, ids, i);
    if i < |migs| - 1 {
      MigGnodeIsMember(migs, sol, |gsizes|, ids, i + 1);
      assert Chain(sol.leaf)[i + 2].prevMigrating.value.pos[0] < 0x8000_0000;
    }
  }
}
