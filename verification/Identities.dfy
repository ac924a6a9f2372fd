/**
  The identity manager (`crates/ntk-identities/src/actor.rs`, `crates/ntk-identities/src/registry.rs`):
  the identities of a node, its arcs, and the identity-arcs of every identity over every arc.

  The completion of a background task is a command like any other: it may arrive at any time, with
  any content.
 */
module Identities {
  import opened Prelude
  import Registration

  type Id = int
  type ArcId = int
  type MigrationId = int

  datatype Status = Main | Connectivity | Dismissed

  datatype IdentityRecord = IdentityRecord(id: Id, naddr: Option<Registration.Naddr>, status: Status)

  datatype ArcInfo = ArcInfo(dev: string, peerMac: string, peerLinklocal: string)

  datatype IdentityArc = IdentityArc(peerId: Id, peerMac: string, peerLinklocal: string)

  datatype DeviceInfo = DeviceInfo(oldIdNewMac: string, oldIdNewLinklocal: string)

  datatype PendingMigration = PendingMigration(ready: bool, newId: Option<Id>, devices: map<string, DeviceInfo>)

  datatype DuplicationData = DuplicationData(peerNewId: Id, peerOldIdNewMac: string, peerOldIdNewLinklocal: string)

  /** What became of one identity-arc, and of all those of one arc. */
  datatype Duplication = Duplication(peerId: Id, dup: Option<DuplicationData>)
  datatype ArcOutcome = ArcOutcome(arc: ArcId, broken: bool, identityArcs: seq<Duplication>)

  datatype Error =
    | DuplicateArc(arc: ArcId)
    | UnknownArc(arc: ArcId)
    | UnknownIdentity(id: Id)
    | DuplicateIdentity(id: Id)
    | DuplicateMigration(migrationId: MigrationId, oldId: Id)
    | UnknownMigration(migrationId: MigrationId, oldId: Id)
    | CannotRemoveMainIdentity
    | PeerFailed

  const MAX_PEER_STRING_LEN: nat := 64

  // ---------------------------------------------------------------- the registry

  /** The registry, and the snapshot published of it. */
  datatype Registered = Registered(mainId: Id, identities: map<Id, IdentityRecord>)

  class Registry {
    var mainId: Id
    var identities: map<Id, IdentityRecord>

    function Value(): Registered
      reads this
    {
      Registered(mainId, identities)
    }

    constructor (mainId: Id, naddr: Option<Registration.Naddr>)
      ensures Value() == Registered(mainId, map[mainId := IdentityRecord(mainId, naddr, Main)])
    {
      this.mainId := mainId;
      identities := map[mainId := IdentityRecord(mainId, naddr, Main)];
    }

    method Insert(record: IdentityRecord) returns (refused: Option<Error>)
      modifies this
      ensures mainId == old(mainId)
      ensures refused == if record.id in old(identities) then Some(DuplicateIdentity(record.id)) else None
      ensures identities == if refused.Some? then old(identities) else old(identities)[record.id := record]
    {
      if record.id in identities {
        return Some(DuplicateIdentity(record.id));
      }
      identities := identities[record.id := record];
      return None;
    }

    method SetStatus(id: Id, status: Status) returns (refused: Option<Error>)
      modifies this
      ensures Value() == WithStatus(old(Value()), id, status)
      ensures refused == if id in identities then None else Some(UnknownIdentity(id))
    {
      if id !in identities {
        return Some(UnknownIdentity(id));
      }
      identities := identities[id := identities[id].(status := status)];
      return None;
    }

    method SetNaddr(id: Id, naddr: Option<Registration.Naddr>) returns (refused: Option<Error>)
      modifies this
      ensures mainId == old(mainId)
      ensures refused == if id in old(identities) then None else Some(UnknownIdentity(id))
      ensures identities ==
        if id in old(identities) then old(identities)[id := old(identities)[id].(naddr := naddr)] else old(identities)
    {
      if id !in identities {
        return Some(UnknownIdentity(id));
      }
      identities := identities[id := identities[id].(naddr := naddr)];
      return None;
    }

    method ReassignMain(newMain: Id)
      modifies this
      ensures mainId == newMain && identities == old(identities)
    {
      mainId := newMain;
    }

    /** Never removes the main identity. */
    method Dismiss(id: Id) returns (refused: Option<Error>)
      modifies this
      ensures Value() == Without(old(Value()), id)
      ensures refused.None? <==> id != mainId && id in old(identities)
    {
      if id == mainId {
        return Some(CannotRemoveMainIdentity);
      }
      if id !in identities {
        return Some(UnknownIdentity(id));
      }
      identities := identities - {id};
      return None;
    }
  }

  function WithStatus(r: Registered, id: Id, status: Status): Registered {
    if id in r.identities then r.(identities := r.identities[id := r.identities[id].(status := status)]) else r
  }

  function Without(r: Registered, id: Id): Registered {
    if id == r.mainId then r else r.(identities := r.identities - {id})
  }

  // ---------------------------------------------------------------- the table of identity-arcs

  type ArcTable = map<(Id, ArcId), seq<IdentityArc>>

  /** A row for every pair, empty where there was none. */
  function Extended(t: ArcTable, ids: set<Id>, arcs: set<ArcId>): ArcTable {
    map k | k in t.Keys + (set i, a | i in ids && a in arcs :: (i, a)) :: if k in t then t[k] else []
  }

  /** No row for any of the pairs. */
  function Reduced(t: ArcTable, ids: set<Id>, arcs: set<ArcId>): ArcTable {
    map k | k in t && !(k.0 in ids && k.1 in arcs) :: t[k]
  }

  /** A row of the table, empty if there is none. */
  function Row(t: ArcTable, k: (Id, ArcId)): seq<IdentityArc> {
    if k in t then t[k] else []
  }

  function FindPeer(list: seq<IdentityArc>, peer: Id): (r: Option<nat>)
    ensures r.Some? ==> r.value < |list| && list[r.value].peerId == peer
    ensures r.Some? ==> forall j :: 0 <= j < r.value ==> list[j].peerId != peer
    ensures r.None? ==> forall w :: w in list ==> w.peerId != peer
  {
    if list == [] then None
    else if list[0].peerId == peer then Some(0)
    else match FindPeer(list[1..], peer) case None => None case Some(k) => Some(k + 1)
  }

  /** The first identity-arc to `peer` takes another address. */
  function Readdressed(list: seq<IdentityArc>, peer: Id, mac: string, linklocal: string): seq<IdentityArc> {
    match FindPeer(list, peer)
    case None => list
    case Some(k) => list[k := IdentityArc(peer, mac, linklocal)]
  }

  /** One duplicated identity-arc: the old identity's takes the peer's new address if the peer
      migrated as well, and the new identity gets one with the address the old one now has. */
  function DuplicatedOne(t: ArcTable, oldId: Id, newId: Id, arc: ArcId, d: Duplication): ArcTable {
    var old' :=
      if (oldId, arc) in t && d.dup.Some?
      then t[(oldId, arc) := Readdressed(t[(oldId, arc)], d.peerId, d.dup.value.peerOldIdNewMac, d.dup.value.peerOldIdNewLinklocal)]
      else t;
    var now := FindPeer(Row(old', (oldId, arc)), d.peerId);
    var peer := if d.dup.Some? then d.dup.value.peerNewId else d.peerId;
    var added :=
      if now.Some? then Row(old', (oldId, arc))[now.value].(peerId := peer) else IdentityArc(peer, "", "");
    old'[(newId, arc) := Row(old', (newId, arc)) + [added]]
  }

  function DuplicatedArc(t: ArcTable, oldId: Id, newId: Id, arc: ArcId, ds: seq<Duplication>): ArcTable {
    if ds == [] then t
    else DuplicatedOne(DuplicatedArc(t, oldId, newId, arc, ds[..|ds| - 1]), oldId, newId, arc, ds[|ds| - 1])
  }

  function DuplicatedAll(t: ArcTable, arcs: set<ArcId>, oldId: Id, newId: Id, os: seq<ArcOutcome>): ArcTable {
    if os == [] then t
    else
      var n := |os| - 1;
      var before := DuplicatedAll(t, arcs, oldId, newId, os[..n]);
      if os[n].arc in arcs then DuplicatedArc(before, oldId, newId, os[n].arc, os[n].identityArcs) else before
  }

  function BrokenArcs(arcs: set<ArcId>, os: seq<ArcOutcome>): (r: set<ArcId>) {
    set o | o in os && o.broken && o.arc in arcs :: o.arc
  }

  // ---------------------------------------------------------------- commands

  datatype Command =
    | AddArc(arc: ArcId, info: ArcInfo)
    | ApplyArcAdd(arc: ArcId, peer: Option<Id>)
    | RemoveArc(arc: ArcId)
    | PrepareMigration(migrationId: MigrationId, oldId: Id)
    | Migrate(migrationId: MigrationId, oldId: Id, devices: map<string, DeviceInfo>, freshId: Id)
    | ApplyMigrationDuplication(migrationId: MigrationId, oldId: Id, newId: Id, outcomes: seq<ArcOutcome>)
    | CleanupMigration(migrationId: MigrationId, oldId: Id)
    | RemoveIdentity(id: Id)
    | AbortMigration(oldId: Id, newId: Id)
    | SetNaddr(id: Id, naddr: Option<Registration.Naddr>)
    | NeighbourMigrated(id: Id, peerOldId: Id, peerNewId: Id, mac: string, linklocal: string, arc: ArcId)
    | NotifyIdentityArcRemoved(id: Id, peerId: Id, arc: ArcId)

  type Pendings = map<(MigrationId, Id), PendingMigration>

  datatype Node = Node(
    registry: Registered, arcs: map<ArcId, ArcInfo>, identityArcs: ArcTable, pending: Pendings, published: Registered)

  function Ids(n: Node): set<Id> {
    n.registry.identities.Keys
  }

  function Publish(n: Node): Node {
    n.(published := n.registry)
  }

  function ArcsRemoved(n: Node, gone: set<ArcId>): Node {
    n.(arcs := n.arcs - gone, identityArcs := Reduced(n.identityArcs, Ids(n), gone * n.arcs.Keys))
  }

  function ArcAdded(n: Node, arc: ArcId, info: ArcInfo): Node {
    n.(arcs := n.arcs[arc := info], identityArcs := Extended(n.identityArcs, Ids(n), {arc}))
  }

  function PeerAdded(n: Node, arc: ArcId, peer: Id): Node {
    if arc !in n.arcs then n
    else
      var k := (n.registry.mainId, arc);
      var added := IdentityArc(peer, n.arcs[arc].peerMac, n.arcs[arc].peerLinklocal);
      n.(identityArcs := n.identityArcs[k := Row(n.identityArcs, k) + [added]])
  }

  /** The new identity takes over the role of the old one, which stays for connectivity. */
  function Forked(r: Registered, oldId: Id, newId: Id): Registered
    requires oldId in r.identities
  {
    var added := r.identities[newId := IdentityRecord(newId, None, r.identities[oldId].status)];
    var demoted := WithStatus(Registered(r.mainId, added), oldId, Connectivity);
    if r.mainId == oldId then demoted.(mainId := newId) else demoted
  }

  function Migrated(n: Node, key: (MigrationId, Id), devices: map<string, DeviceInfo>, newId: Id): Node
    requires key.1 in Ids(n)
  {
    Publish(n.(
      registry := Forked(n.registry, key.1, newId),
      pending := n.pending[key := PendingMigration(true, Some(newId), devices)],
      identityArcs := Extended(n.identityArcs, {newId}, n.arcs.Keys)))
  }

  function Duplicated(n: Node, oldId: Id, newId: Id, outcomes: seq<ArcOutcome>): Node {
    Publish(ArcsRemoved(
      n.(identityArcs := DuplicatedAll(n.identityArcs, n.arcs.Keys, oldId, newId, outcomes)),
      BrokenArcs(n.arcs.Keys, outcomes)))
  }

  function IdentityDismissed(n: Node, id: Id): Node {
    n.(registry := Without(n.registry, id), identityArcs := Reduced(n.identityArcs, {id}, n.arcs.Keys))
  }

  /** The role goes back to the old identity. */
  function Reverted(r: Registered, oldId: Id, newId: Id): Registered
    requires newId in r.identities
  {
    var main := if r.mainId == newId then oldId else r.mainId;
    WithStatus(r.(mainId := main), oldId, r.identities[newId].status)
  }

  function Aborted(n: Node, oldId: Id, newId: Id): Node
    requires newId in Ids(n)
  {
    Publish(IdentityDismissed(
      n.(registry := Reverted(n.registry, oldId, newId), pending := Unmatched(n.pending, oldId, newId)), newId))
  }

  /** The pending migrations that did not fork `newId` from `oldId`. */
  function Unmatched(p: Pendings, oldId: Id, newId: Id): Pendings {
    map k | k in p && !(k.1 == oldId && p[k].newId == Some(newId)) :: p[k]
  }

  function NeighbourMoved(list: seq<IdentityArc>, peerOld: Id, peerNew: Id, mac: string, linklocal: string): seq<IdentityArc> {
    match FindPeer(list, peerOld)
    case Some(k)
      => if FindPeer(list, peerNew).Some? || |mac| > MAX_PEER_STRING_LEN || |linklocal| > MAX_PEER_STRING_LEN then list
         else Readdressed(list, peerOld, mac, linklocal) + [list[k].(peerId := peerNew)]
    case None => list
  }

  function PeerRemoved(list: seq<IdentityArc>, peer: Id): seq<IdentityArc> {
    match FindPeer(list, peer)
    case None => list
    case Some(k) => list[..k] + list[k + 1..]
  }

  function RowChanged(n: Node, k: (Id, ArcId), list: seq<IdentityArc>): Node {
    if k in n.identityArcs then n.(identityArcs := n.identityArcs[k := list]) else n
  }

  /** One command: the new state and the error replied, if any. */
  function Handled(n: Node, cmd: Command): (Node, Option<Error>) {
    match cmd
    case AddArc(arc, info) =>
      if arc in n.arcs then (n, Some(DuplicateArc(arc))) else (ArcAdded(n, arc, info), None)
    case ApplyArcAdd(arc, peer) =>
      if peer.None? then (ArcsRemoved(n, {arc}), Some(PeerFailed))
      else (PeerAdded(n, arc, peer.value), if arc in n.arcs then None else Some(UnknownArc(arc)))
    case RemoveArc(arc) => (ArcsRemoved(n, {arc}), if arc in n.arcs then None else Some(UnknownArc(arc)))
    case PrepareMigration(m, oldId) =>
      if oldId !in Ids(n) then (n, Some(UnknownIdentity(oldId)))
      else if (m, oldId) in n.pending then (n, Some(DuplicateMigration(m, oldId)))
      else (n.(pending := n.pending[(m, oldId) := PendingMigration(false, None, map[])]), None)
    case Migrate(m, oldId, devices, freshId) =>
      if (m, oldId) !in n.pending then (n, Some(UnknownMigration(m, oldId)))
      else if oldId !in Ids(n) then (n, Some(UnknownIdentity(oldId)))
      else (Migrated(n, (m, oldId), devices, freshId), None)
    case ApplyMigrationDuplication(m, oldId, newId, outcomes) =>
      if newId !in Ids(n) then (n, Some(UnknownIdentity(newId)))
      else (Duplicated(n, oldId, newId, outcomes), None)
    case CleanupMigration(m, oldId) => (n.(pending := n.pending - {(m, oldId)}), None)
    case RemoveIdentity(id) =>
      if id == n.registry.mainId then (n, Some(CannotRemoveMainIdentity))
      else if id !in Ids(n) then (n, Some(UnknownIdentity(id)))
      else (Publish(IdentityDismissed(n, id)), None)
    case AbortMigration(oldId, newId) =>
      if newId !in Ids(n) then (n, Some(UnknownIdentity(newId)))
      else if oldId !in Ids(n) then (n, Some(UnknownIdentity(oldId)))
      else (Aborted(n, oldId, newId), None)
    case SetNaddr(id, naddr) =>
      if id !in Ids(n) then (n, Some(UnknownIdentity(id)))
      else
        var r := n.registry.identities[id];
        (Publish(n.(registry := n.registry.(identities := n.registry.identities[id := r.(naddr := naddr)]))), None)
    case NeighbourMigrated(id, peerOld, peerNew, mac, linklocal, arc) =>
      (RowChanged(n, (id, arc), NeighbourMoved(Row(n.identityArcs, (id, arc)), peerOld, peerNew, mac, linklocal)), None)
    case NotifyIdentityArcRemoved(id, peer, arc) =>
      (RowChanged(n, (id, arc), PeerRemoved(Row(n.identityArcs, (id, arc)), peer)), None)
  }

  // ---------------------------------------------------------------- invariants

  /** The main identity is registered, and no other has the status `Main`. */
  predicate RolesConsistent(r: Registered) {
    && r.mainId in r.identities
    && forall id :: id in r.identities ==> r.identities[id].id == id && (r.identities[id].status.Main? ==> id == r.mainId)
  }

  /** There is a row for every registered identity over every registered arc, and no other row. */
  ghost predicate Rectangular(t: ArcTable, ids: set<Id>, arcs: set<ArcId>) {
    forall i, a :: (i, a) in t <==> i in ids && a in arcs
  }

  ghost predicate Inv(n: Node) {
    && RolesConsistent(n.registry)
    && Rectangular(n.identityArcs, Ids(n), n.arcs.Keys)
    && n.published == n.registry
  }

  /** What the manager itself guarantees of a command: the id it generates is not in use. */
  predicate Fresh(n: Node, cmd: Command) {
    cmd.Migrate? ==> cmd.freshId !in Ids(n)
  }

  lemma ExtendedIsRectangular(t: ArcTable, ids: set<Id>, arcs: set<ArcId>, moreIds: set<Id>, moreArcs: set<ArcId>)
    requires Rectangular(t, ids, arcs)
    requires (moreIds == ids) || (moreArcs == arcs)
    ensures moreIds == ids ==> Rectangular(Extended(t, moreIds, moreArcs), ids, arcs + moreArcs)
    ensures moreArcs == arcs ==> Rectangular(Extended(t, moreIds, moreArcs), ids + moreIds, arcs)
  {}

  lemma ReducedIsRectangular(t: ArcTable, ids: set<Id>, arcs: set<ArcId>, fewerIds: set<Id>, fewerArcs: set<ArcId>)
    requires Rectangular(t, ids, arcs)
    ensures ids <= fewerIds ==> Rectangular(Reduced(t, fewerIds, fewerArcs), ids, arcs - fewerArcs)
    ensures arcs <= fewerArcs ==> Rectangular(Reduced(t, fewerIds, fewerArcs), ids - fewerIds, arcs)
  {}

  lemma {:induction false} DuplicatedArcKeys(t: ArcTable, oldId: Id, newId: Id, arc: ArcId, ds: seq<Duplication>)
    requires (newId, arc) in t
    ensures DuplicatedArc(t, oldId, newId, arc, ds).Keys == t.Keys
  {
    if ds != [] {
      DuplicatedArcKeys(t, oldId, newId, arc, ds[..|ds| - 1]);
    }
  }

  lemma {:induction false} DuplicatedAllKeys(
    t: ArcTable, ids: set<Id>, arcs: set<ArcId>, oldId: Id, newId: Id, os: seq<ArcOutcome>)
    requires Rectangular(t, ids, arcs) && newId in ids
    ensures DuplicatedAll(t, arcs, oldId, newId, os).Keys == t.Keys
  {
    if os != [] {
      var n := |os| - 1;
      DuplicatedAllKeys(t, ids, arcs, oldId, newId, os[..n]);
      if os[n].arc in arcs {
        assert (newId, os[n].arc) in t;
        DuplicatedArcKeys(DuplicatedAll(t, arcs, oldId, newId, os[..n]), oldId, newId, os[n].arc, os[n].identityArcs);
      }
    }
  }

  lemma SameKeys(t: ArcTable, u: ArcTable, ids: set<Id>, arcs: set<ArcId>)
    requires Rectangular(t, ids, arcs) && u.Keys == t.Keys
    ensures Rectangular(u, ids, arcs)
  {
    forall i, a ensures (i, a) in u <==> i in ids && a in arcs {
      assert (i, a) in u.Keys <==> (i, a) in t.Keys;
    }
  }

  lemma ArcsRemovedInv(n: Node, gone: set<ArcId>)
    requires RolesConsistent(n.registry) && Rectangular(n.identityArcs, Ids(n), n.arcs.Keys)
    ensures Rectangular(ArcsRemoved(n, gone).identityArcs, Ids(n), ArcsRemoved(n, gone).arcs.Keys)
  {
    ReducedIsRectangular(n.identityArcs, Ids(n), n.arcs.Keys, Ids(n), gone * n.arcs.Keys);
    assert (n.arcs - gone).Keys == n.arcs.Keys - gone * n.arcs.Keys;
  }

  lemma DuplicatedInv(n: Node, oldId: Id, newId: Id, outcomes: seq<ArcOutcome>)
    requires Inv(n) && newId in Ids(n)
    ensures Inv(Duplicated(n, oldId, newId, outcomes))
  {
    var t := DuplicatedAll(n.identityArcs, n.arcs.Keys, oldId, newId, outcomes);
    DuplicatedAllKeys(n.identityArcs, Ids(n), n.arcs.Keys, oldId, newId, outcomes);
    SameKeys(n.identityArcs, t, Ids(n), n.arcs.Keys);
    ArcsRemovedInv(n.(identityArcs := t), BrokenArcs(n.arcs.Keys, outcomes));
  }

  lemma MigratedInv(n: Node, key: (MigrationId, Id), devices: map<string, DeviceInfo>, newId: Id)
    requires Inv(n) && key.1 in Ids(n) && newId !in Ids(n)
    ensures Inv(Migrated(n, key, devices, newId))
  {
    ExtendedIsRectangular(n.identityArcs, Ids(n), n.arcs.Keys, {newId}, n.arcs.Keys);
    assert Ids(Migrated(n, key, devices, newId)) == Ids(n) + {newId};
  }

  lemma DismissedInv(n: Node, id: Id)
    requires RolesConsistent(Without(n.registry, id)) && id != n.registry.mainId
    requires Rectangular(n.identityArcs, Ids(n), n.arcs.Keys)
    ensures Inv(Publish(IdentityDismissed(n, id)))
  {
    ReducedIsRectangular(n.identityArcs, Ids(n), n.arcs.Keys, {id}, n.arcs.Keys);
    assert Ids(IdentityDismissed(n, id)) == Ids(n) - {id};
  }

  lemma AbortedInv(n: Node, oldId: Id, newId: Id)
    requires Inv(n) && oldId in Ids(n) && newId in Ids(n)
    requires !(oldId == newId == n.registry.mainId)
    ensures Inv(Aborted(n, oldId, newId))
  {
    var m := n.(registry := Reverted(n.registry, oldId, newId), pending := Unmatched(n.pending, oldId, newId));
    assert Ids(m) == Ids(n);
    DismissedInv(m, newId);
  }

  lemma Member<T>(s: set<T>) returns (x: T)
    requires s != {}
    ensures x in s
  {
    x :| x in s;
  }

  /** Aborting a migration is the one command that can break the table, and only when the main
      identity is named as both sides of the migration while there are arcs. */
  lemma AbortKeepsInvIff(n: Node, oldId: Id, newId: Id)
    requires Inv(n)
    ensures Inv(Handled(n, AbortMigration(oldId, newId)).0)
      <==> !(oldId == newId == n.registry.mainId && n.arcs.Keys != {})
  {
    if oldId in Ids(n) && newId in Ids(n) {
      if oldId == newId == n.registry.mainId {
        var after := Aborted(n, oldId, newId);
        assert Ids(after) == Ids(n);
        if n.arcs.Keys != {} {
          var a := Member(n.arcs.Keys);
          assert (newId, a) !in after.identityArcs;
        }
      } else {
        AbortedInv(n, oldId, newId);
      }
    }
  }

  /** The one harmful command: aborting the main identity's migration onto itself while there are arcs. */
  predicate AbortsMainOntoItself(n: Node, cmd: Command) {
    cmd.AbortMigration? && cmd.oldId == cmd.newId == n.registry.mainId && n.arcs.Keys != {}
  }

  /** A command keeps the invariant if and only if it is not that one. */
  lemma HandleKeepsInv(n: Node, cmd: Command)
    requires Inv(n) && Fresh(n, cmd)
    ensures Inv(Handled(n, cmd).0) <==> !AbortsMainOntoItself(n, cmd)
  {
    match cmd {
      case AddArc(arc, info) =>
        ExtendedIsRectangular(n.identityArcs, Ids(n), n.arcs.Keys, Ids(n), {arc});
      case ApplyArcAdd(arc, peer) =>
        if peer.None? {
          ArcsRemovedInv(n, {arc});
        } else if arc in n.arcs {
          assert (n.registry.mainId, arc) in n.identityArcs;
          SameKeys(n.identityArcs, PeerAdded(n, arc, peer.value).identityArcs, Ids(n), n.arcs.Keys);
        }
      case RemoveArc(arc) =>
        ArcsRemovedInv(n, {arc});
      case Migrate(m, oldId, devices, freshId) =>
        if (m, oldId) in n.pending && oldId in Ids(n) {
          MigratedInv(n, (m, oldId), devices, freshId);
        }
      case ApplyMigrationDuplication(m, oldId, newId, outcomes) =>
        if newId in Ids(n) {
          DuplicatedInv(n, oldId, newId, outcomes);
        }
      case RemoveIdentity(id) =>
        if id != n.registry.mainId && id in Ids(n) {
          DismissedInv(n, id);
        }
      case AbortMigration(oldId, newId) =>
        AbortKeepsInvIff(n, oldId, newId);
      case SetNaddr(id, naddr) =>
        if id in Ids(n) {
          assert Ids(Handled(n, cmd).0) == Ids(n);
        }
      case NeighbourMigrated(id, _, _, _, _, arc) =>
        SameKeys(n.identityArcs, Handled(n, cmd).0.identityArcs, Ids(n), n.arcs.Keys);
      case NotifyIdentityArcRemoved(id, _, arc) =>
        SameKeys(n.identityArcs, Handled(n, cmd).0.identityArcs, Ids(n), n.arcs.Keys);
      case PrepareMigration(_, _) =>
      case CleanupMigration(_, _) =>
    }
  }

  // ---------------------------------------------------------------- runs

  function Initial(mainId: Id, naddr: Option<Registration.Naddr>): Node {
    var registry := Registered(mainId, map[mainId := IdentityRecord(mainId, naddr, Main)]);
    Node(registry, map[], map[], map[], registry)
  }

  function After(n: Node, cmds: seq<Command>): Node {
    if cmds == [] then n else Handled(After(n, cmds[..|cmds| - 1]), cmds[|cmds| - 1]).0
  }

  /** Generated ids are fresh, and the main identity is not aborted onto itself while there are arcs. */
  predicate Admissible(n: Node, cmds: seq<Command>) {
    cmds == [] || (
      var before, last := After(n, cmds[..|cmds| - 1]), cmds[|cmds| - 1];
      Admissible(n, cmds[..|cmds| - 1]) && Fresh(before, last) && !AbortsMainOntoItself(before, last))
  }

  /** In every run of commands and late completions the main identity is registered and alone in its
      role, the table has exactly the rows of the registered identities and arcs, and the published
      snapshot is the registry. */
  lemma {:induction false} RunKeepsInv(mainId: Id, naddr: Option<Registration.Naddr>, cmds: seq<Command>)
    requires Admissible(Initial(mainId, naddr), cmds)
    ensures Inv(After(Initial(mainId, naddr), cmds))
  {
    if cmds != [] {
      RunKeepsInv(mainId, naddr, cmds[..|cmds| - 1]);
      HandleKeepsInv(After(Initial(mainId, naddr), cmds[..|cmds| - 1]), cmds[|cmds| - 1]);
    }
  }

  // ---------------------------------------------------------------- abort undoes migrate

  /** The commands that may come between a migration and its abort without touching the registry. */
  predicate LeavesRegistry(cmd: Command) {
    !cmd.Migrate? && !cmd.RemoveIdentity? && !cmd.AbortMigration? && !cmd.SetNaddr?
  }

  lemma StepLeavesRegistry(n: Node, cmd: Command)
    requires LeavesRegistry(cmd)
    ensures Handled(n, cmd).0.registry == n.registry
  {}

  lemma {:induction false} RegistryUntouched(n: Node, cmds: seq<Command>)
    requires forall i :: 0 <= i < |cmds| ==> LeavesRegistry(cmds[i])
    ensures After(n, cmds).registry == n.registry
  {
    if cmds != [] {
      RegistryUntouched(n, cmds[..|cmds| - 1]);
      StepLeavesRegistry(After(n, cmds[..|cmds| - 1]), cmds[|cmds| - 1]);
    }
  }

  lemma RevertForked(r: Registered, oldId: Id, newId: Id)
    requires RolesConsistent(r) && oldId in r.identities && newId !in r.identities
    ensures Without(Reverted(Forked(r, oldId, newId), oldId, newId), newId) == r
  {
    var back := Without(Reverted(Forked(r, oldId, newId), oldId, newId), newId);
    assert back.identities.Keys == r.identities.Keys;
    assert back.identities[oldId] == r.identities[oldId];
    assert back.identities == r.identities;
  }

  lemma ExtendedKeys(t: ArcTable, ids: set<Id>, arcs: set<ArcId>, i: Id, a: ArcId)
    ensures (i, a) in Extended(t, ids, arcs) <==> (i, a) in t || (i in ids && a in arcs)
  {}

  lemma ReduceExtended(t: ArcTable, ids: set<Id>, arcs: set<ArcId>, newId: Id)
    requires Rectangular(t, ids, arcs) && newId !in ids
    ensures Reduced(Extended(t, {newId}, arcs), {newId}, arcs) == t
  {
    var u := Reduced(Extended(t, {newId}, arcs), {newId}, arcs);
    forall i, a ensures (i, a) in u <==> (i, a) in t {
      ExtendedKeys(t, {newId}, arcs, i, a);
    }
    forall k ensures k in u <==> k in t {
      assert k == (k.0, k.1);
    }
  }

  /** Aborting a migration restores the registry and publishes it, whatever happened to the arcs in
      between. */
  lemma AbortRestoresRegistry(n: Node, m: MigrationId, oldId: Id, devices: map<string, DeviceInfo>, newId: Id, between: seq<Command>)
    requires Inv(n) && oldId in Ids(n) && newId !in Ids(n) && (m, oldId) in n.pending
    requires forall i :: 0 <= i < |between| ==> LeavesRegistry(between[i])
    ensures
      var forked := Handled(n, Migrate(m, oldId, devices, newId)).0;
      var (after, error) := Handled(After(forked, between), AbortMigration(oldId, newId));
      error.None? && after.registry == n.registry && after.published == n.registry
  {
    var forked := Handled(n, Migrate(m, oldId, devices, newId)).0;
    RegistryUntouched(forked, between);
    RevertForked(n.registry, oldId, newId);
  }

  /** Directly after the migration, the abort restores everything but the pending migrations that
      forked this pair, which are gone. */
  lemma AbortUndoesMigrate(n: Node, m: MigrationId, oldId: Id, devices: map<string, DeviceInfo>, newId: Id)
    requires Inv(n) && oldId in Ids(n) && newId !in Ids(n) && (m, oldId) in n.pending
    ensures
      var forked := Handled(n, Migrate(m, oldId, devices, newId)).0;
      Handled(forked, AbortMigration(oldId, newId)).0
        == n.(pending := Unmatched(n.pending - {(m, oldId)}, oldId, newId))
  {
    var forked := Handled(n, Migrate(m, oldId, devices, newId)).0;
    RevertForked(n.registry, oldId, newId);
    ReduceExtended(n.identityArcs, Ids(n), n.arcs.Keys, newId);
    assert Unmatched(forked.pending, oldId, newId) == Unmatched(n.pending - {(m, oldId)}, oldId, newId);
  }

  // ---------------------------------------------------------------- what duplication does to the table

  function Peers(list: seq<IdentityArc>): (r: seq<Id>)
    ensures |r| == |list|
  {
    seq(|list|, i requires 0 <= i < |list| => list[i].peerId)
  }

  /** The peer of the new identity's copy: the peer's own new identity if it migrated too. */
  function NewPeers(ds: seq<Duplication>): (r: seq<Id>)
    ensures |r| == |ds|
  {
    seq(|ds|, i requires 0 <= i < |ds| => if ds[i].dup.Some? then ds[i].dup.value.peerNewId else ds[i].peerId)
  }

  lemma NewPeersSplit(ds: seq<Duplication>)
    requires ds != []
    ensures NewPeers(ds) == NewPeers(ds[..|ds| - 1]) + NewPeers([ds[|ds| - 1]])
  {}

  lemma ReaddressedPeers(list: seq<IdentityArc>, peer: Id, mac: string, linklocal: string)
    ensures Peers(Readdressed(list, peer, mac, linklocal)) == Peers(list)
  {}

  /** From `t` to `u`, one row gains these peers and no other row gains, loses or swaps any. */
  ghost predicate GainsPeers(t: ArcTable, u: ArcTable, key: (Id, ArcId), peers: seq<Id>) {
    && Peers(Row(u, key)) == Peers(Row(t, key)) + peers
    && forall k :: k != key ==> Peers(Row(u, k)) == Peers(Row(t, k))
  }

  lemma GainsMore(t: ArcTable, u: ArcTable, v: ArcTable, key: (Id, ArcId), a: seq<Id>, b: seq<Id>)
    requires GainsPeers(t, u, key, a) && GainsPeers(u, v, key, b)
    ensures GainsPeers(t, v, key, a + b)
  {
    assert Peers(Row(v, key)) == Peers(Row(t, key)) + (a + b);
    forall k | k != key ensures Peers(Row(v, k)) == Peers(Row(t, k)) {
      assert Peers(Row(v, k)) == Peers(Row(u, k));
    }
  }

  lemma DuplicatedOnePeers(t: ArcTable, oldId: Id, newId: Id, arc: ArcId, d: Duplication)
    requires oldId != newId
    ensures GainsPeers(t, DuplicatedOne(t, oldId, newId, arc, d), (newId, arc), NewPeers([d]))
  {
    if (oldId, arc) in t && d.dup.Some? {
      ReaddressedPeers(t[(oldId, arc)], d.peerId, d.dup.value.peerOldIdNewMac, d.dup.value.peerOldIdNewLinklocal);
    }
  }

  /** Duplicating an arc gives the new identity one identity-arc for each outcome, in order, and no
      other identity gains, loses or swaps a peer. */
  lemma {:induction false} DuplicatedArcPeers(t: ArcTable, oldId: Id, newId: Id, arc: ArcId, ds: seq<Duplication>)
    requires oldId != newId
    ensures GainsPeers(t, DuplicatedArc(t, oldId, newId, arc, ds), (newId, arc), NewPeers(ds))
  {
    if ds == [] {
      assert Peers(Row(t, (newId, arc))) + [] == Peers(Row(t, (newId, arc)));
    } else {
      var n := |ds| - 1;
      var before := DuplicatedArc(t, oldId, newId, arc, ds[..n]);
      DuplicatedArcPeers(t, oldId, newId, arc, ds[..n]);
      DuplicatedOnePeers(before, oldId, newId, arc, ds[n]);
      NewPeersSplit(ds);
      GainsMore(t, before, DuplicatedOne(before, oldId, newId, arc, ds[n]), (newId, arc), NewPeers(ds[..n]), NewPeers([ds[n]]));
    }
  }

  /** A neighbour's migration: the identity-arc of its old identity takes the new address, that of its
      new identity the address the old one had. */
  lemma NeighbourSwapsAddress(list: seq<IdentityArc>, peerOld: Id, peerNew: Id, mac: string, linklocal: string, k: nat)
    requires FindPeer(list, peerOld) == Some(k) && FindPeer(list, peerNew).None?
    requires |mac| <= MAX_PEER_STRING_LEN && |linklocal| <= MAX_PEER_STRING_LEN
    ensures
      var moved := NeighbourMoved(list, peerOld, peerNew, mac, linklocal);
      && Peers(moved) == Peers(list) + [peerNew]
      && moved[k] == IdentityArc(peerOld, mac, linklocal)
      && moved[|list|] == IdentityArc(peerNew, list[k].peerMac, list[k].peerLinklocal)
      && forall i :: 0 <= i < |list| && i != k ==> moved[i] == list[i]
  {}

  /** An address of an identity-arc. */
  datatype Address = Address(mac: string, linklocal: string)

  function AddressOf(w: IdentityArc): Address {
    Address(w.peerMac, w.peerLinklocal)
  }

  /** The address the peer of `d` has for the old identity, given what it was: the peer's new one if it
      migrated as well. */
  function NewAddress(d: Duplication, was: Address): Address {
    if d.dup.Some? then Address(d.dup.value.peerOldIdNewMac, d.dup.value.peerOldIdNewLinklocal) else was
  }

  /** One outcome, value by value: the old identity's first arc to the peer takes the peer's new address, the
      new identity gets one arc more, with that same address, and nothing else in the table changes. */
  lemma DuplicatedOneAddresses(t: ArcTable, oldId: Id, newId: Id, arc: ArcId, d: Duplication)
    requires oldId != newId
    ensures
      var u := DuplicatedOne(t, oldId, newId, arc, d);
      var row, row' := Row(t, (oldId, arc)), Row(u, (oldId, arc));
      var k := FindPeer(row, d.peerId);
      var address := if k.None? then Address("", "") else NewAddress(d, AddressOf(row[k.value]));
      && |row'| == |row|
      && (forall j :: 0 <= j < |row| && k != Some(j) ==> row'[j] == row[j])
      && (k.Some? ==> row'[k.value] == IdentityArc(d.peerId, address.mac, address.linklocal))
      && Row(u, (newId, arc)) == Row(t, (newId, arc)) + [IdentityArc(NewPeers([d])[0], address.mac, address.linklocal)]
      && forall key :: key != (oldId, arc) && key != (newId, arc) ==> Row(u, key) == Row(t, key)
  {
    if d.dup.Some? {
      ReaddressedFindsSame(Row(t, (oldId, arc)), d);
    }
  }

  /** The first identity-arc to a peer is the one found. */
  lemma FirstIsFound(list: seq<IdentityArc>, peer: Id, k: nat)
    requires k < |list| && list[k].peerId == peer && forall j :: 0 <= j < k ==> list[j].peerId != peer
    ensures FindPeer(list, peer) == Some(k)
  {
    assert list[k] in list;
  }

  lemma SamePeersFindSame(a: seq<IdentityArc>, b: seq<IdentityArc>, peer: Id)
    requires |a| == |b| && forall j :: 0 <= j < |a| ==> a[j].peerId == b[j].peerId
    ensures FindPeer(a, peer) == FindPeer(b, peer)
  {
    var k := FindPeer(a, peer);
    if k.Some? {
      FirstIsFound(b, peer, k.value);
    } else if FindPeer(b, peer).Some? {
      FirstIsFound(a, peer, FindPeer(b, peer).value);
    }
  }

  lemma ReaddressedFindsSame(list: seq<IdentityArc>, d: Duplication)
    requires d.dup.Some?
    ensures
      var mac, linklocal := d.dup.value.peerOldIdNewMac, d.dup.value.peerOldIdNewLinklocal;
      FindPeer(Readdressed(list, d.peerId, mac, linklocal), d.peerId) == FindPeer(list, d.peerId)
  {
    var mac, linklocal := d.dup.value.peerOldIdNewMac, d.dup.value.peerOldIdNewLinklocal;
    SamePeersFindSame(Readdressed(list, d.peerId, mac, linklocal), list, d.peerId);
  }

  /** The address the last outcome about a peer that migrated gives it. */
  function LastDup(ds: seq<Duplication>, peer: Id): Option<Address> {
    if ds == [] then None
    else
      var d := ds[|ds| - 1];
      if d.peerId == peer && d.dup.Some? then Some(NewAddress(d, Address("", ""))) else LastDup(ds[..|ds| - 1], peer)
  }

  /** The address of the first identity-arc of `row` to a peer, after some outcomes; empty if there is none. */
  function AddressAfter(row: seq<IdentityArc>, ds: seq<Duplication>, peer: Id): Address {
    match FindPeer(row, peer)
    case None => Address("", "")
    case Some(k) => if LastDup(ds, peer).Some? then LastDup(ds, peer).value else AddressOf(row[k])
  }

  /** The old identity's row after some outcomes: the first arc to each peer has the address its last outcome
      gave it, every other arc is as it was. */
  predicate ReaddressedRow(row: seq<IdentityArc>, ds: seq<Duplication>, row': seq<IdentityArc>) {
    && |row'| == |row|
    && forall j :: 0 <= j < |row| ==>
         && row'[j].peerId == row[j].peerId
         && AddressOf(row'[j]) == (if FindPeer(row, row[j].peerId) == Some(j) then AddressAfter(row, ds, row[j].peerId)
                                   else AddressOf(row[j]))
  }

  /** What the new identity gains: one arc per outcome, with the address the old one's has at that point. */
  predicate GainedRow(row: seq<IdentityArc>, ds: seq<Duplication>, was: seq<IdentityArc>, now: seq<IdentityArc>) {
    && |now| == |was| + |ds| && was <= now
    && forall m :: 0 <= m < |ds| ==>
         && now[|was| + m].peerId == NewPeers(ds)[m]
         && AddressOf(now[|was| + m]) == AddressAfter(row, ds[..m + 1], ds[m].peerId)
  }

  lemma ReaddressedOneMore(
    row: seq<IdentityArc>, ds: seq<Duplication>, before: seq<IdentityArc>, after: seq<IdentityArc>)
    requires ds != [] && ReaddressedRow(row, ds[..|ds| - 1], before)
    requires
      var d := ds[|ds| - 1];
      var k := FindPeer(before, d.peerId);
      && |after| == |before|
      && (forall j :: 0 <= j < |before| && k != Some(j) ==> after[j] == before[j])
      && (k.Some? ==>
            var address := NewAddress(d, AddressOf(before[k.value]));
            after[k.value] == IdentityArc(d.peerId, address.mac, address.linklocal))
    ensures ReaddressedRow(row, ds, after)
    ensures
      var d := ds[|ds| - 1];
      var k := FindPeer(before, d.peerId);
      AddressAfter(row, ds, d.peerId) == if k.None? then Address("", "") else NewAddress(d, AddressOf(before[k.value]))
  {
    var d := ds[|ds| - 1];
    SamePeersFindSame(before, row, d.peerId);
    forall j | 0 <= j < |row|
      ensures after[j].peerId == row[j].peerId
      ensures AddressOf(after[j]) == (if FindPeer(row, row[j].peerId) == Some(j) then AddressAfter(row, ds, row[j].peerId)
                                      else AddressOf(row[j]))
    {
    }
  }

  /** Duplicating an arc, value by value. */
  lemma {:induction false} DuplicatedArcAddresses(t: ArcTable, oldId: Id, newId: Id, arc: ArcId, ds: seq<Duplication>)
    requires oldId != newId
    ensures
      var u := DuplicatedArc(t, oldId, newId, arc, ds);
      && ReaddressedRow(Row(t, (oldId, arc)), ds, Row(u, (oldId, arc)))
      && GainedRow(Row(t, (oldId, arc)), ds, Row(t, (newId, arc)), Row(u, (newId, arc)))
      && forall key :: key != (oldId, arc) && key != (newId, arc) ==> Row(u, key) == Row(t, key)
  {
    if ds != [] {
      var n := |ds| - 1;
      var before := DuplicatedArc(t, oldId, newId, arc, ds[..n]);
      var row := Row(t, (oldId, arc));
      DuplicatedArcAddresses(t, oldId, newId, arc, ds[..n]);
      DuplicatedOneAddresses(before, oldId, newId, arc, ds[n]);
      var after := DuplicatedOne(before, oldId, newId, arc, ds[n]);
      ReaddressedOneMore(row, ds, Row(before, (oldId, arc)), Row(after, (oldId, arc)));
      GainedOneMore(row, ds, Row(t, (newId, arc)), Row(before, (newId, arc)), Row(after, (newId, arc)));
    }
  }

  lemma GainedOneMore(
    row: seq<IdentityArc>, ds: seq<Duplication>, was: seq<IdentityArc>, before: seq<IdentityArc>, after: seq<IdentityArc>)
    requires ds != [] && GainedRow(row, ds[..|ds| - 1], was, before)
    requires
      var address := AddressAfter(row, ds, ds[|ds| - 1].peerId);
      after == before + [IdentityArc(NewPeers([ds[|ds| - 1]])[0], address.mac, address.linklocal)]
    ensures GainedRow(row, ds, was, after)
  {
    var n := |ds| - 1;
    forall m | 0 <= m < |ds|
      ensures after[|was| + m].peerId == NewPeers(ds)[m]
      ensures AddressOf(after[|was| + m]) == AddressAfter(row, ds[..m + 1], ds[m].peerId)
    {
      if m < n {
        assert ds[..n][..m + 1] == ds[..m + 1];
        assert after[|was| + m] == before[|was| + m];
        assert NewPeers(ds[..n])[m] == NewPeers(ds)[m];
      } else {
        assert ds[..m + 1] == ds;
      }
    }
  }

  // ---------------------------------------------------------------- the whole list of outcomes

  /** The outcomes about one arc, in order. */
  function OutcomesOf(os: seq<ArcOutcome>, arc: ArcId): seq<Duplication> {
    if os == [] then []
    else
      var n := |os| - 1;
      OutcomesOf(os[..n], arc) + if os[n].arc == arc then os[n].identityArcs else []
  }

  lemma {:induction false} DuplicatedArcAppend(
    t: ArcTable, oldId: Id, newId: Id, arc: ArcId, a: seq<Duplication>, b: seq<Duplication>)
    ensures DuplicatedArc(t, oldId, newId, arc, a + b)
      == DuplicatedArc(DuplicatedArc(t, oldId, newId, arc, a), oldId, newId, arc, b)
  {
    if b == [] {
      assert a + b == a;
    } else {
      DuplicatedArcAppend(t, oldId, newId, arc, a, b[..|b| - 1]);
      AppendLast(t, DuplicatedArc(t, oldId, newId, arc, a), oldId, newId, arc, a, b);
    }
  }

  lemma AppendLast(
    t: ArcTable, u: ArcTable, oldId: Id, newId: Id, arc: ArcId, a: seq<Duplication>, b: seq<Duplication>)
    requires b != []
    requires DuplicatedArc(t, oldId, newId, arc, a + b[..|b| - 1]) == DuplicatedArc(u, oldId, newId, arc, b[..|b| - 1])
    ensures DuplicatedArc(t, oldId, newId, arc, a + b) == DuplicatedArc(u, oldId, newId, arc, b)
  {
    LastApplies(t, oldId, newId, arc, a + b);
    LastApplies(u, oldId, newId, arc, b);
    assert (a + b)[..|a + b| - 1] == a + b[..|b| - 1];
  }

  lemma LastApplies(t: ArcTable, oldId: Id, newId: Id, arc: ArcId, ds: seq<Duplication>)
    requires ds != []
    ensures DuplicatedArc(t, oldId, newId, arc, ds)
      == DuplicatedOne(DuplicatedArc(t, oldId, newId, arc, ds[..|ds| - 1]), oldId, newId, arc, ds[|ds| - 1])
  {}

  /** The rows of an arc depend on that arc's rows only. */
  lemma {:induction false} DuplicatedArcLocal(
    t: ArcTable, u: ArcTable, oldId: Id, newId: Id, arc: ArcId, ds: seq<Duplication>)
    requires (oldId, arc) in t <==> (oldId, arc) in u
    requires Row(t, (oldId, arc)) == Row(u, (oldId, arc)) && Row(t, (newId, arc)) == Row(u, (newId, arc))
    ensures
      var t', u' := DuplicatedArc(t, oldId, newId, arc, ds), DuplicatedArc(u, oldId, newId, arc, ds);
      && ((oldId, arc) in t' <==> (oldId, arc) in u')
      && Row(t', (oldId, arc)) == Row(u', (oldId, arc)) && Row(t', (newId, arc)) == Row(u', (newId, arc))
  {
    if ds != [] {
      DuplicatedArcLocal(t, u, oldId, newId, arc, ds[..|ds| - 1]);
    }
  }

  lemma {:induction false} DuplicatedArcElsewhere(
    t: ArcTable, oldId: Id, newId: Id, arc: ArcId, ds: seq<Duplication>, key: (Id, ArcId))
    requires key.1 != arc
    ensures
      var u := DuplicatedArc(t, oldId, newId, arc, ds);
      (key in u <==> key in t) && Row(u, key) == Row(t, key)
  {
    if ds != [] {
      DuplicatedArcElsewhere(t, oldId, newId, arc, ds[..|ds| - 1], key);
    }
  }

  /** A list of outcomes does to a registered arc what its own outcomes do, in order, and nothing to others. */
  lemma {:induction false} DuplicatedAllByArc(
    t: ArcTable, arcs: set<ArcId>, oldId: Id, newId: Id, os: seq<ArcOutcome>, arc: ArcId)
    ensures
      var u := DuplicatedAll(t, arcs, oldId, newId, os);
      var alone := if arc in arcs then DuplicatedArc(t, oldId, newId, arc, OutcomesOf(os, arc)) else t;
      && ((oldId, arc) in u <==> (oldId, arc) in alone)
      && Row(u, (oldId, arc)) == Row(alone, (oldId, arc)) && Row(u, (newId, arc)) == Row(alone, (newId, arc))
  {
    if os != [] {
      var n := |os| - 1;
      var before := DuplicatedAll(t, arcs, oldId, newId, os[..n]);
      var o := os[n];
      DuplicatedAllByArc(t, arcs, oldId, newId, os[..n], arc);
      if o.arc != arc {
        assert OutcomesOf(os, arc) == OutcomesOf(os[..n], arc);
        if o.arc in arcs {
          DuplicatedArcElsewhere(before, oldId, newId, o.arc, o.identityArcs, (oldId, arc));
          DuplicatedArcElsewhere(before, oldId, newId, o.arc, o.identityArcs, (newId, arc));
        }
      } else if arc in arcs {
        DuplicatedArcAppend(t, oldId, newId, arc, OutcomesOf(os[..n], arc), o.identityArcs);
        DuplicatedArcLocal(
          before, DuplicatedArc(t, oldId, newId, arc, OutcomesOf(os[..n], arc)), oldId, newId, arc, o.identityArcs);
      }
    }
  }

  // ---------------------------------------------------------------- what each command is for

  /** The rest of the table: every row but those of some keys. */
  ghost predicate OthersKept(t: ArcTable, u: ArcTable, changed: set<(Id, ArcId)>) {
    forall k :: k !in changed ==> (k in u <==> k in t) && Row(u, k) == Row(t, k)
  }

  /** A new arc is registered with an empty row for every identity; removing it again restores the state. */
  lemma AddThenRemoveArc(n: Node, arc: ArcId, info: ArcInfo)
    requires Inv(n) && arc !in n.arcs
    ensures
      var (added, error) := Handled(n, AddArc(arc, info));
      && error.None? && added.arcs == n.arcs[arc := info] && added.registry == n.registry
      && (forall i :: i in Ids(n) ==> (i, arc) in added.identityArcs && added.identityArcs[(i, arc)] == [])
      && Handled(added, RemoveArc(arc)) == (n, None)
  {
    var added := ArcAdded(n, arc, info);
    var removed := ArcsRemoved(added, {arc});
    assert removed.arcs == n.arcs;
    assert {arc} * added.arcs.Keys == {arc};
    forall i, a ensures (i, a) in removed.identityArcs <==> (i, a) in n.identityArcs {
      ExtendedKeys(n.identityArcs, Ids(n), {arc}, i, a);
    }
    forall k ensures k in removed.identityArcs <==> k in n.identityArcs {
      assert k == (k.0, k.1);
    }
    assert removed.identityArcs == n.identityArcs;
    assert removed == n;
  }

  /** A removed arc is gone with all its rows, and no other row changes. */
  lemma RemovedArcIsGone(n: Node, arc: ArcId)
    requires Inv(n) && arc in n.arcs
    ensures
      var (after, error) := Handled(n, RemoveArc(arc));
      && error.None? && after.arcs == n.arcs - {arc} && after.registry == n.registry
      && (forall i :: (i, arc) !in after.identityArcs)
      && forall i, a :: a != arc ==>
           ((i, a) in after.identityArcs <==> (i, a) in n.identityArcs) && Row(after.identityArcs, (i, a)) == Row(n.identityArcs, (i, a))
  {
    assert {arc} * n.arcs.Keys == {arc};
  }

  /** The answer of the peer: the main identity gains it, with the address of the arc. */
  lemma PeerIsAdded(n: Node, arc: ArcId, peer: Id)
    requires Inv(n) && arc in n.arcs
    ensures
      var (after, error) := Handled(n, ApplyArcAdd(arc, Some(peer)));
      var key := (n.registry.mainId, arc);
      && error.None? && key in n.identityArcs && key in after.identityArcs
      && after.identityArcs[key]
           == n.identityArcs[key] + [IdentityArc(peer, n.arcs[arc].peerMac, n.arcs[arc].peerLinklocal)]
      && OthersKept(n.identityArcs, after.identityArcs, {key})
      && after == n.(identityArcs := after.identityArcs)
  {}

  /** A peer that removes its arc takes the first identity-arc to it, and nothing else. */
  lemma PeerIsRemoved(n: Node, id: Id, peer: Id, arc: ArcId)
    ensures
      var after := Handled(n, NotifyIdentityArcRemoved(id, peer, arc)).0;
      var row, row' := Row(n.identityArcs, (id, arc)), Row(after.identityArcs, (id, arc));
      && (match FindPeer(row, peer)
          case None => row' == row
          case Some(k) => |row'| == |row| - 1 && row'[..k] == row[..k] && row'[k..] == row[k + 1..])
      && OthersKept(n.identityArcs, after.identityArcs, {(id, arc)})
      && after == n.(identityArcs := after.identityArcs)
  {}

  /** A dismissed identity is unreachable and has no rows; every other identity and row is as it was. */
  lemma RemovedIdentityIsGone(n: Node, id: Id)
    requires Inv(n) && id in Ids(n) && id != n.registry.mainId
    ensures
      var (after, error) := Handled(n, RemoveIdentity(id));
      && error.None? && id !in Ids(after) && after.published == after.registry
      && after.registry == Registered(n.registry.mainId, n.registry.identities - {id})
      && (forall a :: (id, a) !in after.identityArcs)
      && forall i, a :: i != id ==>
           ((i, a) in after.identityArcs <==> (i, a) in n.identityArcs) && Row(after.identityArcs, (i, a)) == Row(n.identityArcs, (i, a))
  {}

  /** A migration hands the role over: the new identity has it, with no address and empty rows; the old one
      stays for connectivity with its address and its rows; nobody else changes. */
  lemma MigrationHandsOver(n: Node, m: MigrationId, oldId: Id, devices: map<string, DeviceInfo>, newId: Id)
    requires Inv(n) && oldId in Ids(n) && newId !in Ids(n) && (m, oldId) in n.pending
    ensures
      var (after, error) := Handled(n, Migrate(m, oldId, devices, newId));
      && error.None? && oldId in Ids(after) && newId in Ids(after)
      && after.registry.identities[newId] == IdentityRecord(newId, None, n.registry.identities[oldId].status)
      && after.registry.identities[oldId] == n.registry.identities[oldId].(status := Connectivity)
      && (forall i :: i != oldId && i != newId ==>
            (i in Ids(after) <==> i in Ids(n)) && (i in Ids(n) ==> after.registry.identities[i] == n.registry.identities[i]))
      && after.registry.mainId == (if n.registry.mainId == oldId then newId else n.registry.mainId)
      && (forall a :: a in n.arcs ==> (newId, a) in after.identityArcs && after.identityArcs[(newId, a)] == [])
      && (forall i, a :: i != newId ==> Row(after.identityArcs, (i, a)) == Row(n.identityArcs, (i, a)))
  {}

  /** `fetch_duplication_data`: what a peer that duplicates an identity-arc is told. */
  function FetchDuplicationData(n: Node, m: MigrationId, oldId: Id, arc: ArcId): Option<DuplicationData> {
    if (m, oldId) !in n.pending || n.pending[(m, oldId)].newId.None? || arc !in n.arcs then None
    else
      var p := n.pending[(m, oldId)];
      var dev := n.arcs[arc].dev;
      if dev !in p.devices then None
      else Some(DuplicationData(p.newId.value, p.devices[dev].oldIdNewMac, p.devices[dev].oldIdNewLinklocal))
  }

  /** A prepared migration tells peers nothing until it is carried out, then exactly the new identity and the
      new address of the arc's device; and nothing again after its cleanup. */
  lemma MigrationIsTold(n: Node, m: MigrationId, oldId: Id, devices: map<string, DeviceInfo>, newId: Id, arc: ArcId)
    requires Inv(n) && oldId in Ids(n) && newId !in Ids(n) && (m, oldId) !in n.pending && arc in n.arcs
    ensures
      var prepared := Handled(n, PrepareMigration(m, oldId)).0;
      var migrated := Handled(prepared, Migrate(m, oldId, devices, newId)).0;
      && FetchDuplicationData(prepared, m, oldId, arc).None?
      && FetchDuplicationData(migrated, m, oldId, arc) ==
         (if n.arcs[arc].dev in devices
          then Some(DuplicationData(newId, devices[n.arcs[arc].dev].oldIdNewMac, devices[n.arcs[arc].dev].oldIdNewLinklocal))
          else None)
      && FetchDuplicationData(Handled(migrated, CleanupMigration(m, oldId)).0, m, oldId, arc).None?
  {}

  /** An address is set on one identity, and published. */
  lemma NaddrIsSet(n: Node, id: Id, naddr: Option<Registration.Naddr>)
    requires Inv(n) && id in Ids(n)
    ensures
      var (after, error) := Handled(n, SetNaddr(id, naddr));
      && error.None? && Ids(after) == Ids(n) && after.registry.identities[id] == n.registry.identities[id].(naddr := naddr)
      && (forall i :: i in Ids(n) && i != id ==> after.registry.identities[i] == n.registry.identities[i])
      && after.published.identities[id].naddr == naddr && after.identityArcs == n.identityArcs
  {}
}
