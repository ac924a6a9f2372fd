/**
  The coordinator's allocator of positions and elderships
  (`crates/ntk-coordinator/src/actor.rs`, `crates/ntk-coordinator/src/domain.rs`).
 */
module Allocator {
  import opened Prelude

  datatype Booking = Booking(requestId: int, newPos: nat, newEldership: nat, expiresAt: nat)

  /** The record of one level. */
  datatype GnodeMemory = GnodeMemory(reserveList: seq<Booking>, maxVirtualPos: nat, maxEldership: nat)

  datatype Reservation = Reservation(newPos: nat, newEldership: nat)

  datatype ReserveError = TopOutOfRange(top: nat) | CannotReserve(top: nat)

  /** `GnodeMemory::fresh`. The counter is incremented before use, so the first virtual position
      handed out is `gsize + 1`. */
  function Fresh(gsize: nat): GnodeMemory {
    GnodeMemory([], gsize, 0)
  }

  /** The two ways a booking leaves the list. */
  datatype Criterion = LiveAt(now: nat) | OtherThan(requestId: int)

  predicate Meets(b: Booking, c: Criterion) {
    match c
    case LiveAt(now) => b.expiresAt > now
    case OtherThan(id) => b.requestId != id
  }

  /** `retain`. */
  function Retain(list: seq<Booking>, c: Criterion): (r: seq<Booking>)
    ensures forall b :: b in r <==> b in list && Meets(b, c)
  {
    if list == [] then []
    else
      var n := |list| - 1;
      assert list == list[..n] + [list[n]];
      Retain(list[..n], c) + if Meets(list[n], c) then [list[n]] else []
  }

  /** The index of the booking of a request. */
  function Find(list: seq<Booking>, id: int): (r: Option<nat>)
    ensures r.Some? ==> r.value < |list| && list[r.value].requestId == id
    ensures r.None? ==> forall b :: b in list ==> b.requestId != id
  {
    if list == [] then None
    else if list[0].requestId == id then Some(0)
    else match Find(list[1..], id) case None => None case Some(k) => Some(k + 1)
  }

  predicate Booked(list: seq<Booking>, pos: nat) {
    exists b :: b in list && b.newPos == pos
  }

  /** The first free position that no booking holds. */
  function FirstFree(free: seq<nat>, list: seq<Booking>): (r: Option<nat>)
    ensures r.Some? ==> r.value in free && !Booked(list, r.value)
    ensures r.None? ==> forall p :: p in free ==> Booked(list, p)
  {
    if free == [] then None
    else if !Booked(list, free[0]) then Some(free[0])
    else FirstFree(free[1..], list)
  }

  /** One reservation on a level's record. */
  function ReserveAt(mem: GnodeMemory, id: int, now: nat, ttl: nat, free: seq<nat>): (GnodeMemory, Reservation) {
    var live := Retain(mem.reserveList, LiveAt(now));
    match Find(live, id)
    case Some(k) =>
      (mem.(reserveList := live[k := live[k].(expiresAt := now + ttl)]),
       Reservation(live[k].newPos, live[k].newEldership))
    case None =>
      var slot := FirstFree(free, live);
      var maxVirtual := if slot.Some? then mem.maxVirtualPos else mem.maxVirtualPos + 1;
      var pos := if slot.Some? then slot.value else maxVirtual;
      var eldership := mem.maxEldership + 1;
      (GnodeMemory(live + [Booking(id, pos, eldership, now + ttl)], maxVirtual, eldership),
       Reservation(pos, eldership))
  }

  function DeleteAt(mem: GnodeMemory, id: int): GnodeMemory {
    mem.(reserveList := Retain(mem.reserveList, OtherThan(id)))
  }

  /** The servant's reservation state, one record per `top` from 1 to the number of levels. */
  class Servant {
    const gsizes: seq<nat>
    const bookingTtl: nat
    var memory: map<nat, GnodeMemory>

    ghost predicate Valid()
      reads this
    {
      forall top :: top in memory <==> 1 <= top <= |gsizes|
    }

    constructor (gsizes: seq<nat>, bookingTtl: nat)
      ensures Valid()
      ensures this.gsizes == gsizes && this.bookingTtl == bookingTtl
      ensures forall top :: 1 <= top <= |gsizes| ==> memory[top] == Fresh(gsizes[top - 1])
    {
      this.gsizes := gsizes;
      this.bookingTtl := bookingTtl;
      memory := map[];
      new;
      for top := 1 to |gsizes| + 1
        invariant forall t :: t in memory <==> 1 <= t < top
        invariant forall t :: 1 <= t < top ==> memory[t] == Fresh(gsizes[t - 1])
      {
        memory := memory[top := Fresh(gsizes[top - 1])];
      }
    }

    /** `reserve_enter`; the clock and the two answers of the coordinator map are inputs. */
    method ReserveEnter(top: nat, id: int, now: nat, canReserve: bool, free: seq<nat>)
      returns (r: Result<Reservation, ReserveError>)
      requires Valid()
      modifies this`memory
      ensures Valid()
      ensures r.Ok? <==> 1 <= top <= |gsizes| && canReserve
      ensures (memory, r) == Apply(old(memory), |gsizes|, bookingTtl, Reserve(top, id, now, canReserve, free))
    {
      if top < 1 || top > |gsizes| {
        return Err(TopOutOfRange(top));
      }
      if !canReserve {
        return Err(CannotReserve(top));
      }
      var mem := memory[top];
      var live := Retain(mem.reserveList, LiveAt(now));
      var existing := Find(live, id);
      if existing.Some? {
        var b := live[existing.value];
        memory := memory[top := mem.(reserveList := live[existing.value := b.(expiresAt := now + bookingTtl)])];
        return Ok(Reservation(b.newPos, b.newEldership));
      }
      var slot := FirstFree(free, live);
      if slot.None? {
        mem := mem.(maxVirtualPos := mem.maxVirtualPos + 1);
      }
      var newPos := if slot.Some? then slot.value else mem.maxVirtualPos;
      mem := mem.(maxEldership := mem.maxEldership + 1);
      var booking := Booking(id, newPos, mem.maxEldership, now + bookingTtl);
      memory := memory[top := mem.(reserveList := live + [booking])];
      return Ok(Reservation(newPos, mem.maxEldership));
    }

    /** `delete_reserve_enter`. */
    method DeleteReserveEnter(top: nat, id: int)
      requires Valid()
      modifies this`memory
      ensures Valid()
      ensures memory == Apply(old(memory), |gsizes|, bookingTtl, Delete(top, id)).0
      ensures top in memory ==> !Requested(memory[top].reserveList, id)
    {
      if top in memory {
        memory := memory[top := DeleteAt(memory[top], id)];
      }
    }
  }

  datatype Cmd =
    | Reserve(top: nat, id: int, now: nat, canReserve: bool, free: seq<nat>)
    | Delete(top: nat, id: int)

  type Memory = map<nat, GnodeMemory>

  /** One command of the servant. */
  function Apply(memory: Memory, levels: nat, ttl: nat, cmd: Cmd): (Memory, Result<Reservation, ReserveError>) {
    match cmd
    case Reserve(top, id, now, canReserve, free) =>
      if top < 1 || top > levels || top !in memory then (memory, Err(TopOutOfRange(top)))
      else if !canReserve then (memory, Err(CannotReserve(top)))
      else
        var (mem, r) := ReserveAt(memory[top], id, now, ttl, free);
        (memory[top := mem], Ok(r))
    case Delete(top, id) =>
      (if top in memory then memory[top := DeleteAt(memory[top], id)] else memory, Err(TopOutOfRange(top)))
  }

  // ---------------------------------------------------------------- runs

  function RunServant(memory: Memory, levels: nat, ttl: nat, cmds: seq<Cmd>): Memory {
    if cmds == [] then memory
    else
      var n := |cmds| - 1;
      Apply(RunServant(memory, levels, ttl, cmds[..n]), levels, ttl, cmds[n]).0
  }

  /** The commands of a run that reach the record of one level. */
  function Project(cmds: seq<Cmd>, top: nat): (p: seq<Cmd>)
    ensures forall c :: c in p ==> c in cmds && Reaches(c, top)
  {
    if cmds == [] then []
    else
      var n := |cmds| - 1;
      Project(cmds[..n], top) + if Reaches(cmds[n], top) then [cmds[n]] else []
  }

  function ApplyLevel(mem: GnodeMemory, ttl: nat, cmd: Cmd): GnodeMemory {
    match cmd
    case Reserve(_, id, now, _, free) => ReserveAt(mem, id, now, ttl, free).0
    case Delete(_, id) => DeleteAt(mem, id)
  }

  function RunLevel(mem: GnodeMemory, ttl: nat, cmds: seq<Cmd>): GnodeMemory {
    if cmds == [] then mem
    else ApplyLevel(RunLevel(mem, ttl, cmds[..|cmds| - 1]), ttl, cmds[|cmds| - 1])
  }

  predicate Reaches(cmd: Cmd, top: nat) {
    cmd.top == top && (cmd.Reserve? ==> cmd.canReserve)
  }

  lemma CommandReachesLevel(memory: Memory, levels: nat, ttl: nat, cmd: Cmd, top: nat)
    requires forall t :: t in memory <==> 1 <= t <= levels
    ensures forall t :: t in Apply(memory, levels, ttl, cmd).0 <==> 1 <= t <= levels
    ensures 1 <= top <= levels ==>
      Apply(memory, levels, ttl, cmd).0[top] ==
      if Reaches(cmd, top) then ApplyLevel(memory[top], ttl, cmd) else memory[top]
  {
  }

  /** Levels do not interfere: each sees exactly its own commands. */
  lemma {:induction false} LevelsIndependent(memory: Memory, levels: nat, ttl: nat, cmds: seq<Cmd>, top: nat)
    requires forall t :: t in memory <==> 1 <= t <= levels
    ensures forall t :: t in RunServant(memory, levels, ttl, cmds) <==> 1 <= t <= levels
    ensures 1 <= top <= levels ==>
      RunServant(memory, levels, ttl, cmds)[top] == RunLevel(memory[top], ttl, Project(cmds, top))
  {
    if cmds != [] {
      var n := |cmds| - 1;
      LevelsIndependent(memory, levels, ttl, cmds[..n], top);
      CommandReachesLevel(RunServant(memory, levels, ttl, cmds[..n]), levels, ttl, cmds[n], top);
      var p := Project(cmds[..n], top);
      assert (p + [cmds[n]])[..|p|] == p && p + [] == p;
    }
  }

  /** The reservations a run creates (not those it merely repeats), in order. */
  function Issued(mem: GnodeMemory, ttl: nat, cmds: seq<Cmd>): seq<Reservation> {
    if cmds == [] then []
    else
      var n := |cmds| - 1;
      Issued(mem, ttl, cmds[..n]) + Creates(RunLevel(mem, ttl, cmds[..n]), ttl, cmds[n])
  }

  /** What one command newly creates: nothing if the request still holds a live booking. */
  function Creates(mem: GnodeMemory, ttl: nat, cmd: Cmd): seq<Reservation> {
    match cmd
    case Delete(_, _) => []
    case Reserve(_, id, now, _, free) =>
      if Find(Retain(mem.reserveList, LiveAt(now)), id).Some? then []
      else [ReserveAt(mem, id, now, ttl, free).1]
  }

  // ---------------------------------------------------------------- what every run keeps

  predicate PairwiseDistinct(list: seq<Booking>) {
    forall i, j :: 0 <= i < j < |list| ==>
      && list[i].requestId != list[j].requestId
      && list[i].newPos != list[j].newPos
      && list[i].newEldership != list[j].newEldership
  }

  lemma {:induction false} RetainDistinct(list: seq<Booking>, c: Criterion)
    requires PairwiseDistinct(list)
    ensures PairwiseDistinct(Retain(list, c))
  {
    if list != [] {
      var n := |list| - 1;
      var r := Retain(list[..n], c);
      RetainDistinct(list[..n], c);
      forall i | 0 <= i < |r|
        ensures r[i].requestId != list[n].requestId && r[i].newPos != list[n].newPos && r[i].newEldership != list[n].newEldership
      {
        assert r[i] in list[..n];
      }
    }
  }

  /** A booking lies within what the counters have handed out. */
  predicate WithinCounters(pos: nat, eldership: nat, mem: GnodeMemory, gsize: nat) {
    (pos < gsize || gsize < pos <= mem.maxVirtualPos) && 0 < eldership <= mem.maxEldership
  }

  predicate LevelInv(mem: GnodeMemory, gsize: nat) {
    && gsize <= mem.maxVirtualPos
    && PairwiseDistinct(mem.reserveList)
    && forall b :: b in mem.reserveList ==> WithinCounters(b.newPos, b.newEldership, mem, gsize)
  }

  /** The map offers real positions only (`CoordinatorMap::free_positions`). */
  predicate OffersReal(cmd: Cmd, gsize: nat) {
    cmd.Reserve? ==> forall p :: p in cmd.free ==> p < gsize
  }

  lemma RetryKeepsLevel(mem: GnodeMemory, ttl: nat, id: int, now: nat, free: seq<nat>, gsize: nat)
    requires LevelInv(mem, gsize)
    requires Find(Retain(mem.reserveList, LiveAt(now)), id).Some?
    ensures LevelInv(ReserveAt(mem, id, now, ttl, free).0, gsize)
  {
    RetainDistinct(mem.reserveList, LiveAt(now));
    var live := Retain(mem.reserveList, LiveAt(now));
    var next := ReserveAt(mem, id, now, ttl, free).0;
    forall b | b in next.reserveList ensures WithinCounters(b.newPos, b.newEldership, next, gsize) {
      var i :| 0 <= i < |live| && next.reserveList[i] == b;
      assert live[i] in live;
    }
  }

  lemma NewKeepsLevel(mem: GnodeMemory, ttl: nat, id: int, now: nat, free: seq<nat>, gsize: nat)
    requires LevelInv(mem, gsize)
    requires forall p :: p in free ==> p < gsize
    requires Find(Retain(mem.reserveList, LiveAt(now)), id).None?
    ensures LevelInv(ReserveAt(mem, id, now, ttl, free).0, gsize)
  {
    RetainDistinct(mem.reserveList, LiveAt(now));
    var live := Retain(mem.reserveList, LiveAt(now));
    var next := ReserveAt(mem, id, now, ttl, free).0;
    var added := next.reserveList[|live|];
    forall b | b in live
      ensures b.requestId != id && b.newPos != added.newPos && b.newEldership != added.newEldership
      ensures WithinCounters(b.newPos, b.newEldership, next, gsize)
    {
      assert b in mem.reserveList;
    }
  }

  /** One command keeps the invariant, and what it creates is beyond everything issued before. */
  lemma StepKeepsLevel(mem: GnodeMemory, ttl: nat, cmd: Cmd, gsize: nat)
    requires LevelInv(mem, gsize) && OffersReal(cmd, gsize)
    ensures LevelInv(ApplyLevel(mem, ttl, cmd), gsize)
    ensures var next := ApplyLevel(mem, ttl, cmd);
      var created := Creates(mem, ttl, cmd);
      && next.maxEldership == mem.maxEldership + |created|
      && mem.maxVirtualPos <= next.maxVirtualPos <= mem.maxVirtualPos + |created|
      && forall r :: r in created ==>
           && r.newEldership == next.maxEldership
           && (r.newPos < gsize || mem.maxVirtualPos < r.newPos == next.maxVirtualPos)
  {
    match cmd
    case Delete(_, id) =>
      RetainDistinct(mem.reserveList, OtherThan(id));
    case Reserve(_, id, now, _, free) =>
      if Find(Retain(mem.reserveList, LiveAt(now)), id).Some? {
        RetryKeepsLevel(mem, ttl, id, now, free, gsize);
      } else {
        NewKeepsLevel(mem, ttl, id, now, free, gsize);
      }
  }

  /** Elderships and virtual positions of a history only ever grow, and never repeat. */
  predicate Growing(issued: seq<Reservation>, gsize: nat) {
    && (forall i :: 0 <= i < |issued| ==> issued[i].newEldership == i + 1)
    && (forall i :: 0 <= i < |issued| ==> issued[i].newPos != gsize)
    && (forall i, j :: 0 <= i < j < |issued| && issued[i].newPos > gsize && issued[j].newPos > gsize ==>
          issued[i].newPos < issued[j].newPos)
  }

  lemma GrowingAppend(issued: seq<Reservation>, r: Reservation, maxVirtual: nat, gsize: nat)
    requires Growing(issued, gsize) && gsize <= maxVirtual
    requires forall i :: 0 <= i < |issued| ==> issued[i].newPos <= maxVirtual
    requires r.newEldership == |issued| + 1 && (r.newPos < gsize || maxVirtual < r.newPos)
    ensures Growing(issued + [r], gsize)
  {
  }

  /** Over every run from a fresh record: simultaneous bookings are distinct in every respect,
      elderships count the reservations issued, virtual positions lie above `gsize` and are never
      reissued, and neither counter outruns the number of reservations. */
  lemma {:induction false} AllocatorRun(gsize: nat, ttl: nat, cmds: seq<Cmd>)
    requires forall i :: 0 <= i < |cmds| ==> OffersReal(cmds[i], gsize)
    ensures var mem := RunLevel(Fresh(gsize), ttl, cmds);
      var issued := Issued(Fresh(gsize), ttl, cmds);
      && LevelInv(mem, gsize)
      && Growing(issued, gsize)
      && mem.maxEldership == |issued|
      && mem.maxVirtualPos <= gsize + |issued|
      && (forall i :: 0 <= i < |issued| ==> issued[i].newPos <= mem.maxVirtualPos)
  {
    if cmds != [] {
      var n := |cmds| - 1;
      AllocatorRun(gsize, ttl, cmds[..n]);
      var mem := RunLevel(Fresh(gsize), ttl, cmds[..n]);
      StepKeepsLevel(mem, ttl, cmds[n], gsize);
      var before := Issued(Fresh(gsize), ttl, cmds[..n]);
      var created := Creates(mem, ttl, cmds[n]);
      assert |created| <= 1;
      if created != [] {
        assert created[0] in created;
        GrowingAppend(before, created[0], mem.maxVirtualPos, gsize);
      }
    }
  }

  /** The same for every level of a servant that starts fresh, under any interleaving of levels. */
  lemma ServantRun(gsizes: seq<nat>, memory: Memory, ttl: nat, cmds: seq<Cmd>, top: nat)
    requires forall t :: t in memory <==> 1 <= t <= |gsizes|
    requires 1 <= top <= |gsizes| && memory[top] == Fresh(gsizes[top - 1])
    requires forall i :: 0 <= i < |cmds| && cmds[i].top == top ==> OffersReal(cmds[i], gsizes[top - 1])
    ensures top in RunServant(memory, |gsizes|, ttl, cmds)
    ensures LevelInv(RunServant(memory, |gsizes|, ttl, cmds)[top], gsizes[top - 1])
    ensures Growing(Issued(memory[top], ttl, Project(cmds, top)), gsizes[top - 1])
  {
    LevelsIndependent(memory, |gsizes|, ttl, cmds, top);
    var p := Project(cmds, top);
    forall i | 0 <= i < |p| ensures OffersReal(p[i], gsizes[top - 1]) {
      assert p[i] in cmds;
    }
    AllocatorRun(gsizes[top - 1], ttl, p);
  }

  /** A new request gets a virtual position if and only if every free real position is booked by
      another live request. */
  lemma VirtualIffFull(mem: GnodeMemory, gsize: nat, id: int, now: nat, ttl: nat, free: seq<nat>)
    requires LevelInv(mem, gsize) && OffersReal(Reserve(1, id, now, true, free), gsize)
    requires Find(Retain(mem.reserveList, LiveAt(now)), id).None?
    ensures
      var r := ReserveAt(mem, id, now, ttl, free).1;
      && (r.newPos > gsize <==> forall p :: p in free ==> Booked(Retain(mem.reserveList, LiveAt(now)), p))
      && (r.newPos <= gsize ==> r.newPos in free && !Booked(Retain(mem.reserveList, LiveAt(now)), r.newPos))
  {}

  // ---------------------------------------------------------------- what is given up

  predicate Requested(list: seq<Booking>, id: int) {
    exists b :: b in list && b.requestId == id
  }

  /** A list without its booking `k`. */
  function WithoutAt(list: seq<Booking>, k: nat): seq<Booking>
    requires k < |list|
  {
    list[..k] + list[k + 1..]
  }

  lemma WithoutAtSplits(list: seq<Booking>, k: nat)
    requires k < |list|
    ensures
      var n := |list| - 1;
      WithoutAt(list, k) == if k < n then WithoutAt(list[..n], k) + [list[n]] else list[..n]
  {}

  /** Dropping the booking of a request leaves all others, in order. */
  lemma {:induction false} RetainOthers(list: seq<Booking>, id: int, k: nat)
    requires k < |list| && forall j :: 0 <= j < |list| ==> (list[j].requestId == id <==> j == k)
    ensures Retain(list, OtherThan(id)) == WithoutAt(list, k)
  {
    var n := |list| - 1;
    var front := list[..n];
    assert forall j :: 0 <= j < n ==> front[j] == list[j];
    assert Retain(list, OtherThan(id)) == Retain(front, OtherThan(id)) + if k < n then [list[n]] else [];
    WithoutAtSplits(list, k);
    if k < n {
      RetainOthers(front, id, k);
    } else {
      RetainAll(front, OtherThan(id));
    }
  }

  lemma {:induction false} RetainAll(list: seq<Booking>, c: Criterion)
    requires forall b :: b in list ==> Meets(b, c)
    ensures Retain(list, c) == list
  {
    if list != [] {
      var n := |list| - 1;
      assert list == list[..n] + [list[n]];
      RetainAll(list[..n], c);
    }
  }

  /** A deletion deletes: no booking of the request is left, its position and eldership are free, and all
      other bookings stay in order; a request that has none changes nothing. */
  lemma DeleteExact(mem: GnodeMemory, gsize: nat, id: int)
    requires LevelInv(mem, gsize)
    ensures !Requested(DeleteAt(mem, id).reserveList, id)
    ensures !Requested(mem.reserveList, id) ==> DeleteAt(mem, id) == mem
    ensures forall k :: 0 <= k < |mem.reserveList| && mem.reserveList[k].requestId == id ==>
      && DeleteAt(mem, id) == mem.(reserveList := WithoutAt(mem.reserveList, k))
      && !Booked(DeleteAt(mem, id).reserveList, mem.reserveList[k].newPos)
  {
    var list := mem.reserveList;
    if !Requested(list, id) {
      RetainAll(list, OtherThan(id));
    }
    forall k | 0 <= k < |list| && list[k].requestId == id
      ensures Retain(list, OtherThan(id)) == WithoutAt(list, k) && !Booked(Retain(list, OtherThan(id)), list[k].newPos)
    {
      RetainOthers(list, id, k);
      forall b | b in WithoutAt(list, k) ensures b.newPos != list[k].newPos {
        var j :| 0 <= j < |WithoutAt(list, k)| && WithoutAt(list, k)[j] == b;
        assert b == if j < k then list[j] else list[j + 1];
      }
    }
  }

  /** An expired booking frees its position. */
  lemma ExpiredIsFree(mem: GnodeMemory, gsize: nat, k: nat, now: nat)
    requires LevelInv(mem, gsize) && k < |mem.reserveList| && mem.reserveList[k].expiresAt <= now
    ensures !Booked(Retain(mem.reserveList, LiveAt(now)), mem.reserveList[k].newPos)
    ensures !Requested(Retain(mem.reserveList, LiveAt(now)), mem.reserveList[k].requestId)
  {
    var list := mem.reserveList;
    forall b | b in Retain(list, LiveAt(now))
      ensures b.newPos != list[k].newPos && b.requestId != list[k].requestId
    {
      var j :| 0 <= j < |list| && list[j] == b;
      assert j != k;
    }
  }

  /** A new request gets the position offered first unless it is booked, and always a new eldership. */
  lemma OfferedFirst(mem: GnodeMemory, id: int, now: nat, ttl: nat, free: seq<nat>)
    requires !Requested(Retain(mem.reserveList, LiveAt(now)), id)
    ensures ReserveAt(mem, id, now, ttl, free).1.newEldership == mem.maxEldership + 1
    ensures free != [] && !Booked(Retain(mem.reserveList, LiveAt(now)), free[0]) ==>
      ReserveAt(mem, id, now, ttl, free).1.newPos == free[0]
  {
    NotFound(Retain(mem.reserveList, LiveAt(now)), id);
  }

  lemma NotFound(list: seq<Booking>, id: int)
    requires !Requested(list, id)
    ensures Find(list, id).None?
  {
    assert forall k :: 0 <= k < |list| ==> list[k] in list;
  }

  /** A position nobody is issued stays free. */
  lemma {:induction false} StaysFree(mem: GnodeMemory, ttl: nat, cmds: seq<Cmd>, pos: nat)
    requires !Booked(mem.reserveList, pos)
    requires forall r :: r in Issued(mem, ttl, cmds) ==> r.newPos != pos
    ensures !Booked(RunLevel(mem, ttl, cmds).reserveList, pos)
  {
    if cmds != [] {
      var n := |cmds| - 1;
      var before := RunLevel(mem, ttl, cmds[..n]);
      StaysFree(mem, ttl, cmds[..n], pos);
      forall r | r in Creates(before, ttl, cmds[n]) ensures r.newPos != pos {
        assert r in Issued(mem, ttl, cmds);
      }
      StepStaysFree(before, ttl, cmds[n], pos);
    }
  }

  lemma StepStaysFree(mem: GnodeMemory, ttl: nat, cmd: Cmd, pos: nat)
    requires !Booked(mem.reserveList, pos)
    requires forall r :: r in Creates(mem, ttl, cmd) ==> r.newPos != pos
    ensures !Booked(ApplyLevel(mem, ttl, cmd).reserveList, pos)
  {
    var next := ApplyLevel(mem, ttl, cmd);
    forall b | b in next.reserveList ensures b.newPos != pos {
      match cmd
      case Delete(_, id) => assert b in mem.reserveList;
      case Reserve(_, id, now, _, free) =>
        var live := Retain(mem.reserveList, LiveAt(now));
        var i :| 0 <= i < |next.reserveList| && next.reserveList[i] == b;
        if i < |live| {
          assert live[i] in live;
          assert live[i] in mem.reserveList;
        } else {
          var r := ReserveAt(mem, id, now, ttl, free).1;
          assert r in Creates(mem, ttl, cmd);
        }
    }
  }

  /** Over every run: once a request has given its position up by deletion, and as long as nobody else is
      issued it, the next new request that is offered it first gets it; so does the same request again,
      under a new eldership. */
  lemma DeletedIsReissued(
    mem: GnodeMemory, gsize: nat, ttl: nat, k: nat, between: seq<Cmd>, id: int, now: nat, free: seq<nat>)
    requires LevelInv(mem, gsize) && k < |mem.reserveList| && free != [] && free[0] == mem.reserveList[k].newPos
    requires
      var given := DeleteAt(mem, mem.reserveList[k].requestId);
      var later := RunLevel(given, ttl, between);
      && (forall r :: r in Issued(given, ttl, between) ==> r.newPos != free[0])
      && !Requested(Retain(later.reserveList, LiveAt(now)), id)
    ensures
      var later := RunLevel(DeleteAt(mem, mem.reserveList[k].requestId), ttl, between);
      ReserveAt(later, id, now, ttl, free).1 == Reservation(free[0], later.maxEldership + 1)
  {
    var given := DeleteAt(mem, mem.reserveList[k].requestId);
    var later := RunLevel(given, ttl, between);
    DeleteExact(mem, gsize, mem.reserveList[k].requestId);
    StaysFree(given, ttl, between, free[0]);
    OfferedFirst(later, id, now, ttl, free);
  }

  /** Likewise once it has expired. */
  lemma ExpiredIsReissued(mem: GnodeMemory, gsize: nat, ttl: nat, k: nat, id: int, now: nat, free: seq<nat>)
    requires LevelInv(mem, gsize) && k < |mem.reserveList| && free != [] && free[0] == mem.reserveList[k].newPos
    requires mem.reserveList[k].expiresAt <= now
    requires id == mem.reserveList[k].requestId || !Requested(Retain(mem.reserveList, LiveAt(now)), id)
    ensures ReserveAt(mem, id, now, ttl, free).1 == Reservation(free[0], mem.maxEldership + 1)
  {
    ExpiredIsFree(mem, gsize, k, now);
    OfferedFirst(mem, id, now, ttl, free);
  }

  // ---------------------------------------------------------------- idempotent retry

  /** The request holds the reservation `r`, booked until at least `until`. */
  predicate Holds(mem: GnodeMemory, id: int, r: Reservation, until: nat) {
    exists b :: b in mem.reserveList
      && b.requestId == id && b.newPos == r.newPos && b.newEldership == r.newEldership && b.expiresAt >= until
  }

  /** A reservation leaves its request holding it for a full TTL. */
  lemma ReserveHolds(mem: GnodeMemory, id: int, now: nat, ttl: nat, free: seq<nat>)
    ensures var (next, r) := ReserveAt(mem, id, now, ttl, free); Holds(next, id, r, now + ttl)
  {
    var live := Retain(mem.reserveList, LiveAt(now));
    var (next, r) := ReserveAt(mem, id, now, ttl, free);
    match Find(live, id)
    case Some(k) => assert next.reserveList[k] in next.reserveList;
    case None => assert next.reserveList[|live|] in next.reserveList;
  }

  /** A holding request is answered with what it holds. */
  lemma HolderGetsSame(mem: GnodeMemory, gsize: nat, id: int, r: Reservation, until: nat, now: nat, ttl: nat, free: seq<nat>)
    requires LevelInv(mem, gsize) && Holds(mem, id, r, until) && now < until
    ensures ReserveAt(mem, id, now, ttl, free).1 == r
  {
    var live := Retain(mem.reserveList, LiveAt(now));
    RetainDistinct(mem.reserveList, LiveAt(now));
    var b :| b in mem.reserveList
      && b.requestId == id && b.newPos == r.newPos && b.newEldership == r.newEldership && b.expiresAt >= until;
    assert b in live;
    var k := Find(live, id).value;
    var j :| 0 <= j < |live| && live[j] == b;
    assert k == j;
  }

  /** Another command leaves the holding in place unless it deletes the request or comes too late. */
  lemma HoldingSurvives(mem: GnodeMemory, gsize: nat, ttl: nat, cmd: Cmd, id: int, r: Reservation, until: nat)
    requires LevelInv(mem, gsize) && Holds(mem, id, r, until)
    requires cmd.Delete? ==> cmd.id != id
    requires cmd.Reserve? ==> cmd.now < until <= cmd.now + ttl
    ensures Holds(ApplyLevel(mem, ttl, cmd), id, r, until)
  {
    var next := ApplyLevel(mem, ttl, cmd);
    var b :| b in mem.reserveList
      && b.requestId == id && b.newPos == r.newPos && b.newEldership == r.newEldership && b.expiresAt >= until;
    match cmd
    case Delete(_, _) => assert b in next.reserveList;
    case Reserve(_, other, now, _, free) =>
      var live := Retain(mem.reserveList, LiveAt(now));
      RetainDistinct(mem.reserveList, LiveAt(now));
      assert b in live;
      var j :| 0 <= j < |live| && live[j] == b;
      assert next.reserveList[j] in next.reserveList;
  }

  /** A retry at any time before expiry, whatever happened in between short of a deletion,
      returns the same reservation. */
  lemma {:induction false} RetryReturnsSame(
    mem: GnodeMemory, gsize: nat, ttl: nat, id: int, first: nat, free: seq<nat>,
    between: seq<Cmd>, again: nat, free': seq<nat>)
    requires LevelInv(mem, gsize)
    requires OffersReal(Reserve(1, id, first, true, free), gsize)
    requires forall i :: 0 <= i < |between| ==>
      && OffersReal(between[i], gsize)
      && (between[i].Delete? ==> between[i].id != id)
      && (between[i].Reserve? ==> first <= between[i].now <= again)
    requires first <= again < first + ttl
    ensures var (booked, r) := ReserveAt(mem, id, first, ttl, free);
      ReserveAt(RunLevel(booked, ttl, between), id, again, ttl, free').1 == r
  {
    var (booked, r) := ReserveAt(mem, id, first, ttl, free);
    ReserveHolds(mem, id, first, ttl, free);
    StepKeepsLevel(mem, ttl, Reserve(1, id, first, true, free), gsize);
    for n := 0 to |between|
      invariant LevelInv(RunLevel(booked, ttl, between[..n]), gsize)
      invariant Holds(RunLevel(booked, ttl, between[..n]), id, r, first + ttl)
    {
      var now := RunLevel(booked, ttl, between[..n]);
      assert between[..n + 1][..n] == between[..n];
      HoldingSurvives(now, gsize, ttl, between[n], id, r, first + ttl);
      StepKeepsLevel(now, ttl, between[n], gsize);
    }
    assert between[..|between|] == between;
    HolderGetsSame(RunLevel(booked, ttl, between), gsize, id, r, first + ttl, again, ttl, free');
  }
}
