/**
  The deduplicated flood of propagation messages across a g-node
  (`crates/ntk-coordinator/src/actor.rs`: `check_propagation`, `prepare_propagation`, the
  `prepare_*`/`finish_*` fan-outs and their `handle_execute_*` counterparts).
 */
module Flood {
  import opened Prelude

  /** What a node knows of its own g-nodes: a position and a fingerprint id per level. */
  datatype NodeMap = NodeMap(myPos: seq<nat>, fpId: seq<int>)

  datatype Args = Args(positions: seq<nat>, fpId: int, propagationId: int, level: nat, data: int)

  /** The envelope names the receiver's own g-node at its level. */
  predicate Matches(m: NodeMap, levels: nat, args: Args) {
    && args.level < levels
    && |m.myPos| == |m.fpId| == levels
    && args.positions == m.myPos[args.level..]
    && args.fpId == m.fpId[args.level]
  }

  /** The part of the coordinator's state that deduplicates propagations. */
  class Deduplicator {
    const levels: nat
    const nodeMap: NodeMap
    var recentPropagations: set<int>

    ghost predicate Valid() {
      |nodeMap.myPos| == |nodeMap.fpId| == levels
    }

    constructor (nodeMap: NodeMap)
      requires |nodeMap.myPos| == |nodeMap.fpId|
      ensures Valid() && this.nodeMap == nodeMap && levels == |nodeMap.myPos| && recentPropagations == {}
    {
      this.levels := |nodeMap.myPos|;
      this.nodeMap := nodeMap;
      recentPropagations := {};
    }

    /** `check_propagation`: accepts once, and only an envelope that names this node's g-node. */
    method CheckPropagation(args: Args) returns (accepted: bool)
      requires Valid()
      modifies this`recentPropagations
      ensures accepted <==> args.propagationId !in old(recentPropagations) && Matches(nodeMap, levels, args)
      ensures recentPropagations == old(recentPropagations) + if accepted then {args.propagationId} else {}
    {
      if args.propagationId in recentPropagations {
        return false;
      }
      if args.level >= levels || |args.positions| != levels - args.level {
        return false;
      }
      for i := 0 to |args.positions|
        invariant args.positions[..i] == nodeMap.myPos[args.level..args.level + i]
      {
        if args.positions[i] != nodeMap.myPos[args.level + i] {
          assert args.positions[i] != nodeMap.myPos[args.level..][i];
          return false;
        }
      }
      assert args.positions == args.positions[..|args.positions|];
      assert nodeMap.myPos[args.level..] == nodeMap.myPos[args.level..args.level + |args.positions|];
      if args.fpId != nodeMap.fpId[args.level] {
        return false;
      }
      recentPropagations := recentPropagations + {args.propagationId};
      return true;
    }
  }

  // ---------------------------------------------------------------- the network

  /** Nodes are numbered; each has its map and the neighbours its stubs reach. */
  datatype Network = Network(levels: nat, maps: seq<NodeMap>, neighbours: seq<seq<nat>>)
  {
    predicate Valid() {
      && |maps| == |neighbours|
      && (forall n :: 0 <= n < |maps| ==> |maps[n].myPos| == |maps[n].fpId| == levels)
      && (forall n, k :: 0 <= n < |neighbours| && 0 <= k < |neighbours[n]| ==> neighbours[n][k] < |maps|)
    }
  }

  datatype Msg = Msg(dst: nat, args: Args)

  /** `recent` is each node's deduplication set; `inFlight` the messages sent and not yet handled;
      `applied` how often each node applied each id; `handled` how many messages of each id were
      delivered or lost; `origins` and `originator` the envelope of each id and the node it
      started from; `lost` the ids a message of which was lost. */
  datatype State = State(
    recent: seq<set<int>>, inFlight: seq<Msg>, applied: multiset<(nat, int)>,
    handled: multiset<int>, origins: map<int, Args>, originator: map<int, nat>, lost: set<int>)

  datatype Step =
    | Originate(node: nat, level: nat, id: int, data: int)
    | Deliver(k: nat)
    | Lose(k: nat)
    | Expire(node: nat, id: int)

  function Initial(net: Network): State {
    State(seq(|net.maps|, i => {}), [], multiset{}, multiset{}, map[], map[], {})
  }

  /** One message to each neighbour. */
  function FanOut(neighbours: seq<nat>, args: Args): (msgs: seq<Msg>)
    ensures |msgs| == |neighbours|
    ensures forall k :: 0 <= k < |msgs| ==> msgs[k] == Msg(neighbours[k], args)
  {
    if neighbours == [] then [] else [Msg(neighbours[0], args)] + FanOut(neighbours[1..], args)
  }

  function Without(msgs: seq<Msg>, k: nat): seq<Msg>
    requires k < |msgs|
  {
    msgs[..k] + msgs[k + 1..]
  }

  predicate Enabled(net: Network, s: State, step: Step) {
    match step
    case Originate(n, level, id, _) => n < |net.maps| && level < net.levels && id !in s.origins
    case Deliver(k) => k < |s.inFlight|
    case Lose(k) => k < |s.inFlight|
    case Expire(n, _) => n < |net.maps|
  }

  predicate Accepts(net: Network, s: State, m: Msg)
    requires m.dst < |net.maps| && |s.recent| == |net.maps|
  {
    m.args.propagationId !in s.recent[m.dst] && Matches(net.maps[m.dst], net.levels, m.args)
  }

  /** A node remembers the id, applies the envelope and sends it to all its neighbours. */
  function Participate(net: Network, s: State, n: nat, args: Args): State
    requires net.Valid() && n < |net.maps| && |s.recent| == |net.maps|
  {
    s.(recent := s.recent[n := s.recent[n] + {args.propagationId}],
       inFlight := s.inFlight + FanOut(net.neighbours[n], args),
       applied := s.applied + multiset{(n, args.propagationId)})
  }

  function Remove(s: State, k: nat): State
    requires k < |s.inFlight|
  {
    s.(inFlight := Without(s.inFlight, k), handled := s.handled + multiset{s.inFlight[k].args.propagationId})
  }

  ghost predicate Typed(net: Network, s: State) {
    |s.recent| == |net.maps| && forall m :: m in s.inFlight ==> m.dst < |net.maps|
  }

  ghost function Next(net: Network, s: State, step: Step): State
    requires net.Valid() && Typed(net, s) && Enabled(net, s, step)
  {
    match step
    case Originate(n, level, id, data) =>
      var args := Args(net.maps[n].myPos[level..], net.maps[n].fpId[level], id, level, data);
      Participate(net, s.(origins := s.origins[id := args], originator := s.originator[id := n]), n, args)
    case Deliver(k) =>
      var m := s.inFlight[k];
      assert m in s.inFlight;
      if Accepts(net, s, m) then Participate(net, Remove(s, k), m.dst, m.args) else Remove(s, k)
    case Lose(k) => Remove(s, k).(lost := s.lost + {s.inFlight[k].args.propagationId})
    case Expire(n, id) => s.(recent := s.recent[n := s.recent[n] - {id}])
  }

  /** No message of `id` is on its way. */
  predicate Quiet(s: State, id: int) {
    forall m :: m in s.inFlight ==> m.args.propagationId != id
  }

  /** The id of a running flood is not forgotten: it expires only once its flood is over. */
  predicate Patient(s: State, step: Step) {
    step.Expire? ==> Quiet(s, step.id)
  }

  // ---------------------------------------------------------------- what every step keeps

  predicate Applied(s: State, n: nat, id: int) {
    s.applied[(n, id)] > 0
  }

  /** Messages in flight of one id. */
  function Count(msgs: seq<Msg>, id: int): nat {
    if msgs == [] then 0 else (if msgs[0].args.propagationId == id then 1 else 0) + Count(msgs[1..], id)
  }

  /** The degrees of the first `k` nodes that applied `id`. */
  function Spent(net: Network, s: State, id: int, k: nat): nat
    requires k <= |net.neighbours|
  {
    if k == 0 then 0 else Spent(net, s, id, k - 1) + if Applied(s, k - 1, id) then |net.neighbours[k - 1]| else 0
  }

  /** The degrees of the first `k` nodes an envelope matches. */
  function Capacity(net: Network, args: Args, k: nat): nat
    requires k <= |net.neighbours| && |net.maps| == |net.neighbours|
  {
    if k == 0 then 0
    else Capacity(net, args, k - 1) + if Matches(net.maps[k - 1], net.levels, args) then |net.neighbours[k - 1]| else 0
  }

  /** Messages carry the envelope of their id; a node applies an id at most once, only if it
      matches, and remembers it while messages of it are in flight. */
  ghost predicate Inv(net: Network, s: State) {
    && Typed(net, s)
    && (forall m :: m in s.inFlight ==>
          m.args.propagationId in s.origins && s.origins[m.args.propagationId] == m.args)
    && (forall id :: id in s.origins ==> s.origins[id].propagationId == id)
    && (forall n: nat, id :: s.applied[(n, id)] <= 1)
    && (forall n: nat, id :: s.applied[(n, id)] > 0 ==>
          n < |net.maps| && id in s.origins && Matches(net.maps[n], net.levels, s.origins[id]))
    && (forall n: nat, id :: n < |net.maps| && id in s.recent[n] ==> s.applied[(n, id)] > 0)
    && (forall n: nat, m :: m in s.inFlight && s.applied[(n, m.args.propagationId)] > 0 ==>
          n < |net.maps| && m.args.propagationId in s.recent[n])
  }

  /** A neighbour of a node that applied an id has applied it too, does not match, or is about to
      be told, unless a message of the id was lost. */
  predicate Told(net: Network, s: State, id: int, n: nat, k: nat)
    requires net.Valid() && n < |net.maps| && k < |net.neighbours[n]| && id in s.origins
  {
    var to := net.neighbours[n][k];
    || id in s.lost
    || Applied(s, to, id)
    || !Matches(net.maps[to], net.levels, s.origins[id])
    || Msg(to, s.origins[id]) in s.inFlight
  }

  ghost predicate Covered(net: Network, s: State, id: int)
    requires net.Valid()
  {
    id in s.origins ==>
      forall n: nat, k: nat ::
        n < |net.maps| && k < |net.neighbours[n]| && Applied(s, n, id) ==> Told(net, s, id, n, k)
  }

  predicate Accounted(net: Network, s: State, id: int)
    requires net.Valid()
  {
    s.handled[id] + Count(s.inFlight, id) == Spent(net, s, id, |net.maps|)
  }

  lemma InWithout(msgs: seq<Msg>, k: nat)
    requires k < |msgs|
    ensures forall m :: m in Without(msgs, k) ==> m in msgs
    ensures forall m :: m in msgs ==> m == msgs[k] || m in Without(msgs, k)
  {
    forall m | m in msgs ensures m == msgs[k] || m in Without(msgs, k) {
      var j :| 0 <= j < |msgs| && msgs[j] == m;
      if j < k {
        assert Without(msgs, k)[j] == m;
      } else if j > k {
        assert Without(msgs, k)[j - 1] == m;
      }
    }
  }

  lemma {:induction false} CountAppend(a: seq<Msg>, b: seq<Msg>, id: int)
    ensures Count(a + b, id) == Count(a, id) + Count(b, id)
  {
    if a == [] {
      assert a + b == b;
    } else {
      assert (a + b)[1..] == a[1..] + b;
      CountAppend(a[1..], b, id);
    }
  }

  lemma CountWithout(msgs: seq<Msg>, k: nat, id: int)
    requires k < |msgs|
    ensures Count(Without(msgs, k), id) + (if msgs[k].args.propagationId == id then 1 else 0) == Count(msgs, id)
  {
    assert msgs == msgs[..k] + ([msgs[k]] + msgs[k + 1..]);
    CountAppend(msgs[..k], [msgs[k]] + msgs[k + 1..], id);
    CountAppend([msgs[k]], msgs[k + 1..], id);
    CountAppend(msgs[..k], msgs[k + 1..], id);
  }

  lemma {:induction false} CountFanOut(neighbours: seq<nat>, args: Args, id: int)
    ensures Count(FanOut(neighbours, args), id) == if args.propagationId == id then |neighbours| else 0
  {
    if neighbours != [] {
      CountFanOut(neighbours[1..], args, id);
    }
  }

  lemma {:induction false} SpentSame(net: Network, s: State, s': State, id: int, k: nat)
    requires k <= |net.neighbours|
    requires forall n: nat :: n < k ==> (Applied(s, n, id) <==> Applied(s', n, id))
    ensures Spent(net, s, id, k) == Spent(net, s', id, k)
  {
    if k > 0 {
      SpentSame(net, s, s', id, k - 1);
    }
  }

  lemma {:induction false} SpentAdds(net: Network, s: State, s': State, id: int, n: nat, k: nat)
    requires k <= |net.neighbours|
    requires !Applied(s, n, id) && Applied(s', n, id)
    requires forall i: nat :: i != n ==> (Applied(s, i, id) <==> Applied(s', i, id))
    ensures Spent(net, s', id, k) == Spent(net, s, id, k) + if n < k then |net.neighbours[n]| else 0
  {
    if k > 0 {
      SpentAdds(net, s, s', id, n, k - 1);
    }
  }

  /** A node that takes part for the first time: the bookkeeping of every id. */
  lemma ParticipateAccounts(net: Network, s: State, n: nat, args: Args, id: int)
    requires net.Valid() && n < |net.maps| && |s.recent| == |net.maps|
    requires !Applied(s, n, args.propagationId)
    ensures var t := Participate(net, s, n, args);
      && Count(t.inFlight, id) == Count(s.inFlight, id) + (if args.propagationId == id then |net.neighbours[n]| else 0)
      && Spent(net, t, id, |net.maps|) ==
         Spent(net, s, id, |net.maps|) + (if args.propagationId == id then |net.neighbours[n]| else 0)
  {
    var t := Participate(net, s, n, args);
    CountAppend(s.inFlight, FanOut(net.neighbours[n], args), id);
    CountFanOut(net.neighbours[n], args, id);
    if args.propagationId == id {
      SpentAdds(net, s, t, id, n, |net.maps|);
    } else {
      SpentSame(net, s, t, id, |net.maps|);
    }
  }

  lemma StepAccounts(net: Network, s: State, step: Step, id: int)
    requires net.Valid() && Inv(net, s) && Enabled(net, s, step)
    requires Accounted(net, s, id)
    ensures Accounted(net, Next(net, s, step), id)
  {
    var t := Next(net, s, step);
    match step
    case Originate(n, level, pid, data) =>
      var args := Args(net.maps[n].myPos[level..], net.maps[n].fpId[level], pid, level, data);
      var o := s.(origins := s.origins[pid := args], originator := s.originator[pid := n]);
      SpentSame(net, s, o, id, |net.maps|);
      ParticipateAccounts(net, o, n, args, id);
    case Deliver(k) =>
      var m := s.inFlight[k];
      assert m in s.inFlight;
      CountWithout(s.inFlight, k, id);
      SpentSame(net, s, Remove(s, k), id, |net.maps|);
      if Accepts(net, s, m) {
        ParticipateAccounts(net, Remove(s, k), m.dst, m.args, id);
      }
    case Lose(k) =>
      CountWithout(s.inFlight, k, id);
      SpentSame(net, s, t, id, |net.maps|);
    case Expire(_, _) =>
      SpentSame(net, s, t, id, |net.maps|);
  }

  lemma StepKeepsInv(net: Network, s: State, step: Step)
    requires net.Valid() && Inv(net, s) && Enabled(net, s, step) && Patient(s, step)
    ensures Inv(net, Next(net, s, step))
  {
    match step
    case Originate(n, level, id, data) => OriginateKeepsInv(net, s, n, level, id, data);
    case Deliver(k) => DeliverKeepsInv(net, s, k);
    case Lose(k) => RemoveKeepsInv(net, s, k);
    case Expire(n, id) =>
  }

  lemma InFanOut(net: Network, s: State, n: nat, args: Args)
    requires net.Valid() && n < |net.maps|
    ensures forall m :: m in s.inFlight + FanOut(net.neighbours[n], args) ==>
      m in s.inFlight || (m.args == args && m.dst < |net.maps|)
  {
    var msgs := s.inFlight + FanOut(net.neighbours[n], args);
    forall m | m in msgs ensures m in s.inFlight || (m.args == args && m.dst < |net.maps|) {
      var j :| 0 <= j < |msgs| && msgs[j] == m;
      if j >= |s.inFlight| {
        assert m == FanOut(net.neighbours[n], args)[j - |s.inFlight|];
      }
    }
  }

  /** A matching node that takes part for the first time, while every other participant remembers. */
  lemma ParticipateKeepsInv(net: Network, s: State, n: nat, args: Args)
    requires net.Valid() && Inv(net, s) && n < |net.maps|
    requires var id := args.propagationId;
      && id in s.origins && s.origins[id] == args && Matches(net.maps[n], net.levels, args)
      && !Applied(s, n, id)
      && forall i: nat :: Applied(s, i, id) ==> id in s.recent[i]
    ensures Inv(net, Participate(net, s, n, args))
  {
    var t := Participate(net, s, n, args);
    InFanOut(net, s, n, args);
    assert forall i: nat, id ::
      t.applied[(i, id)] == s.applied[(i, id)] + (if (i, id) == (n, args.propagationId) then 1 else 0);
  }

  lemma OriginateKeepsInv(net: Network, s: State, n: nat, level: nat, id: int, data: int)
    requires net.Valid() && Inv(net, s) && Enabled(net, s, Originate(n, level, id, data))
    ensures Inv(net, Next(net, s, Originate(n, level, id, data)))
  {
    var args := Args(net.maps[n].myPos[level..], net.maps[n].fpId[level], id, level, data);
    var o := s.(origins := s.origins[id := args], originator := s.originator[id := n]);
    assert forall i: nat :: !Applied(s, i, id);
    assert Inv(net, o);
    ParticipateKeepsInv(net, o, n, args);
  }

  lemma RemoveKeepsInv(net: Network, s: State, k: nat)
    requires Inv(net, s) && k < |s.inFlight|
    ensures Inv(net, Remove(s, k))
  {
    InWithout(s.inFlight, k);
  }

  lemma DeliverKeepsInv(net: Network, s: State, k: nat)
    requires net.Valid() && Inv(net, s) && k < |s.inFlight|
    ensures Inv(net, Next(net, s, Deliver(k)))
  {
    var m := s.inFlight[k];
    assert m in s.inFlight;
    RemoveKeepsInv(net, s, k);
    if Accepts(net, s, m) {
        ParticipateKeepsInv(net, Remove(s, k), m.dst, m.args);
    }
  }

  /** Whatever happens next, everyone who should be told still will be. */
  lemma StepCovers(net: Network, s: State, step: Step, id: int)
    requires net.Valid() && Inv(net, s) && Enabled(net, s, step) && Patient(s, step)
    requires Covered(net, s, id)
    ensures Covered(net, Next(net, s, step), id)
  {
    var t := Next(net, s, step);
    if id in t.origins {
      forall n: nat, k: nat | n < |net.maps| && k < |net.neighbours[n]| && Applied(t, n, id)
        ensures Told(net, t, id, n, k)
      {
        if Applied(s, n, id) {
          StepKeepsTold(net, s, step, id, n, k);
        } else {
          var to := net.neighbours[n][k];
          assert t.inFlight[|t.inFlight| - |net.neighbours[n]| + k] == Msg(to, t.origins[id]);
        }
      }
    }
  }

  /** A delivery leaves every other message on its way; the one delivered makes a matching node apply. */
  lemma DeliverKeepsTold(net: Network, s: State, i: nat, msg: Msg)
    requires net.Valid() && Inv(net, s) && i < |s.inFlight| && msg in s.inFlight && msg.dst < |net.maps|
    requires !Applied(s, msg.dst, msg.args.propagationId) && Matches(net.maps[msg.dst], net.levels, msg.args)
    ensures
      var t := Next(net, s, Deliver(i));
      msg in t.inFlight || Applied(t, msg.dst, msg.args.propagationId)
  {
    var t := Next(net, s, Deliver(i));
    InWithout(s.inFlight, i);
    if s.inFlight[i] != msg {
      var rest := Without(s.inFlight, i);
      var x :| 0 <= x < |rest| && rest[x] == msg;
      assert t.inFlight[x] == msg;
    }
  }

  lemma StepKeepsTold(net: Network, s: State, step: Step, id: int, n: nat, k: nat)
    requires net.Valid() && Inv(net, s) && Enabled(net, s, step)
    requires n < |net.maps| && k < |net.neighbours[n]|
    requires Applied(s, n, id) && Told(net, s, id, n, k)
    ensures id in Next(net, s, step).origins && Told(net, Next(net, s, step), id, n, k)
  {
    var t := Next(net, s, step);
    var to := net.neighbours[n][k];
    if id !in s.lost && !Applied(s, to, id) && Matches(net.maps[to], net.levels, s.origins[id]) {
      var msg := Msg(to, s.origins[id]);
      var j :| 0 <= j < |s.inFlight| && s.inFlight[j] == msg;
      match step
      case Originate(_, _, _, _) => assert t.inFlight[j] == msg;
      case Deliver(i) => DeliverKeepsTold(net, s, i, msg);
      case Lose(i) => InWithout(s.inFlight, i);
      case Expire(_, _) =>
    }
  }

  /** The node an id started from has applied it. */
  predicate Started(s: State, id: int) {
    id in s.origins ==> id in s.originator && Applied(s, s.originator[id], id)
  }

  lemma StepKeepsStarted(net: Network, s: State, step: Step, id: int)
    requires net.Valid() && Typed(net, s) && Enabled(net, s, step)
    requires Started(s, id)
    ensures Started(Next(net, s, step), id)
  {
  }

  // ---------------------------------------------------------------- runs

  /** A step that does not forget the id of a running flood. */
  ghost predicate Takes(net: Network, s: State, step: Step, t: State)
    requires net.Valid()
  {
    Typed(net, s) && Enabled(net, s, step) && Patient(s, step) && t == Next(net, s, step)
  }

  /** `t` is reached from the initial state by the steps `steps`, none of which forgets the id of a
      running flood. */
  ghost predicate Reached(net: Network, steps: seq<Step>, t: State)
    requires net.Valid()
  {
    if steps == [] then t == Initial(net)
    else
      var last := steps[|steps| - 1];
      exists s :: Reached(net, steps[..|steps| - 1], s) && Takes(net, s, last, t)
  }

  lemma {:induction false} SpentNothing(net: Network, s: State, id: int, k: nat)
    requires k <= |net.neighbours| && forall n: nat :: !Applied(s, n, id)
    ensures Spent(net, s, id, k) == 0
  {
    if k > 0 {
      SpentNothing(net, s, id, k - 1);
    }
  }

  lemma {:induction false} RunKeeps(net: Network, steps: seq<Step>, t: State, id: int)
    requires net.Valid() && Reached(net, steps, t)
    ensures Inv(net, t) && Covered(net, t, id) && Accounted(net, t, id) && Started(t, id)
  {
    if steps == [] {
      SpentNothing(net, t, id, |net.maps|);
    } else {
      var last := steps[|steps| - 1];
      var s :| Reached(net, steps[..|steps| - 1], s) && Takes(net, s, last, t);
      RunKeeps(net, steps[..|steps| - 1], s, id);
      StepKeepsInv(net, s, last);
      StepCovers(net, s, last, id);
      StepAccounts(net, s, last, id);
      StepKeepsStarted(net, s, last, id);
    }
  }

  /** Safety over every run, with losses and any delivery order: a node applies a propagation at
      most once, and only if the envelope names its own g-node. */
  lemma AppliedAtMostOnce(net: Network, steps: seq<Step>, t: State, n: nat, id: int)
    requires net.Valid() && Reached(net, steps, t)
    ensures t.applied[(n, id)] <= 1
    ensures Applied(t, n, id) ==>
      n < |net.maps| && id in t.origins && Matches(net.maps[n], net.levels, t.origins[id])
  {
    RunKeeps(net, steps, t, id);
  }

  lemma {:induction false} SpentWithinCapacity(net: Network, s: State, id: int, k: nat)
    requires net.Valid() && Inv(net, s) && id in s.origins && k <= |net.maps|
    ensures Spent(net, s, id, k) <= Capacity(net, s.origins[id], k)
  {
    if k > 0 {
      SpentWithinCapacity(net, s, id, k - 1);
    }
  }

  /** The flood stops: the messages of an id ever sent, handled or still in flight, are at most the
      sum of the degrees of the nodes its envelope matches. */
  lemma MessagesBounded(net: Network, steps: seq<Step>, t: State, id: int)
    requires net.Valid() && Reached(net, steps, t) && id in t.origins
    ensures t.handled[id] + Count(t.inFlight, id) <= Capacity(net, t.origins[id], |net.maps|)
  {
    RunKeeps(net, steps, t, id);
    SpentWithinCapacity(net, t, id, |net.maps|);
  }

  /** A path of neighbours, all of them named by the envelope. */
  predicate MatchingPath(net: Network, path: seq<nat>, args: Args)
    requires net.Valid()
  {
    && |path| > 0
    && (forall i :: 0 <= i < |path| ==> path[i] < |net.maps| && Matches(net.maps[path[i]], net.levels, args))
    && (forall i :: 0 <= i < |path| - 1 ==> path[i + 1] in net.neighbours[path[i]])
  }

  /** Coverage: once the flood of an id is quiet and none of its messages was lost, every matching
      node that a path of matching nodes connects to the originator has applied it, exactly once. */
  lemma {:induction false} FloodCovers(net: Network, steps: seq<Step>, t: State, id: int, path: seq<nat>)
    requires net.Valid() && Reached(net, steps, t)
    requires id in t.origins && id in t.originator && id !in t.lost && Quiet(t, id)
    requires MatchingPath(net, path, t.origins[id]) && path[0] == t.originator[id]
    ensures t.applied[(path[|path| - 1], id)] == 1
  {
    RunKeeps(net, steps, t, id);
    if |path| > 1 {
      var init := path[..|path| - 1];
      FloodCovers(net, steps, t, id, init);
      var u, v := path[|path| - 2], path[|path| - 1];
      assert path[|path| - 2 + 1] in net.neighbours[u];
      var k :| 0 <= k < |net.neighbours[u]| && net.neighbours[u][k] == v;
      assert Told(net, t, id, u, k);
    }
  }

  /** Patience is needed: if a participant forgets the id, the next delivery applies it a second
      time exactly when it is a message of that id to that node. */
  lemma ImpatientExpiryReapplies(net: Network, s: State, n: nat, id: int, k: nat)
    requires net.Valid() && Inv(net, s) && n < |net.maps| && k < |s.inFlight|
    requires Applied(s, n, id)
    ensures var forgot := Next(net, s, Expire(n, id));
      Next(net, forgot, Deliver(k)).applied[(n, id)] == 2 <==>
      s.inFlight[k].dst == n && s.inFlight[k].args.propagationId == id
  {
    assert s.inFlight[k] in s.inFlight;
  }
}
